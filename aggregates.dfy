/**
 * What the dashboard derives from its record lists: the monthly income and
 * expense totals and balance, the twelve-month series of the current year,
 * the per-category breakdown of the current month with its concentration
 * alert, the overdue and due-soon flags of an expense, and the
 * plan-versus-actual row of a monthly plan.
 *
 * Expenses are counted through the installment allocator: an expense adds
 * to a month only the parts allocated to that month. Month keys are
 * compared as strings, as the dashboard compares them.
 */
module Dashboard {
  import opened Wrappers
  import opened Calendar
  import opened IsoText
  import opened Records
  import opened Installments
  import opened Sequences

  // ---------------------------------------------------------------------------
  // Monthly totals

  /** `parts.filter(p => p.mes === k).reduce((a, p) => a + p.valor, 0)`. */
  function PartsIn(ps: seq<Parte>, k: string): (s: real)
    ensures (forall i :: 0 <= i < |ps| ==> MonthText(ps[i].mes) != k) ==> s == 0.0
  {
    if ps == [] then 0.0
    else PartsIn(ps[..|ps| - 1], k) + (if MonthText(ps[|ps| - 1].mes) == k then ps[|ps| - 1].valor else 0.0)
  }

  /** `receitas.filter(r => monthKey(r.data) === k).reduce((s, r) => s + r.valor, 0)`. */
  function IncomeTotal(rs: seq<Receita>, k: string): (s: real)
    ensures (forall i :: 0 <= i < |rs| ==> MonthKey(rs[i].data) != k) ==> s == 0.0
  {
    if rs == [] then 0.0
    else IncomeTotal(rs[..|rs| - 1], k) + (if MonthKey(rs[|rs| - 1].data) == k then rs[|rs| - 1].valor else 0.0)
  }

  /** No part of any expense is allocated to month `k`. */
  predicate NoPartIn(ds: seq<Despesa>, k: string)
  {
    forall i, j :: 0 <= i < |ds| && 0 <= j < |Allocation(ds[i])| ==> MonthText(Allocation(ds[i])[j].mes) != k
  }

  /** The expenses' parts allocated to month `k`, summed expense by expense. */
  function ExpenseTotal(ds: seq<Despesa>, k: string): (s: real)
    ensures NoPartIn(ds, k) ==> s == 0.0
  {
    if ds == [] then 0.0 else ExpenseTotal(ds[..|ds| - 1], k) + PartsIn(Allocation(ds[|ds| - 1]), k)
  }

  /** The three cards of the current month. */
  datatype Resumo = Resumo(receitas: real, despesas: real, saldo: real)

  function MonthSummary(rs: seq<Receita>, ds: seq<Despesa>, k: string): (r: Resumo)
    ensures r.receitas == IncomeTotal(rs, k) && r.despesas == ExpenseTotal(ds, k)
    ensures r.saldo == r.receitas - r.despesas
  {
    var receitas := IncomeTotal(rs, k);
    var despesas := ExpenseTotal(ds, k);
    Resumo(receitas, despesas, receitas - despesas)
  }


  /** Income totals add up over concatenated lists. */
  lemma {:induction false} IncomeAppend(a: seq<Receita>, b: seq<Receita>, k: string)
    ensures IncomeTotal(a + b, k) == IncomeTotal(a, k) + IncomeTotal(b, k)
    decreases |b|
  {
    if b == [] {
      assert a + b == a;
    } else {
      assert (a + b)[..|a + b| - 1] == a + b[..|b| - 1];
      IncomeAppend(a, b[..|b| - 1], k);
    }
  }

  /** Expense totals add up over concatenated lists. */
  lemma {:induction false} ExpenseAppend(a: seq<Despesa>, b: seq<Despesa>, k: string)
    ensures ExpenseTotal(a + b, k) == ExpenseTotal(a, k) + ExpenseTotal(b, k)
    decreases |b|
  {
    if b == [] {
      assert a + b == a;
    } else {
      assert (a + b)[..|a + b| - 1] == a + b[..|b| - 1];
      ExpenseAppend(a, b[..|b| - 1], k);
    }
  }

  /** Appending one expense adds its parts in month `k`. */
  lemma ExpenseAppendOne(a: seq<Despesa>, d: Despesa, k: string)
    ensures ExpenseTotal(a + [d], k) == ExpenseTotal(a, k) + PartsIn(Allocation(d), k)
  {
    ExpenseAppend(a, [d], k);
    assert [d][..0] == [];
  }

  /**
   * An income dated on day `d` adds its value to the key of `d`'s month and
   * to no other four-digit-year month key.
   */
  lemma IncomeCountsInItsMonth(rs: seq<Receita>, r: Receita, d: CalendarDay, m: Month)
    requires r.data == IsoDate(d)
    requires m.Valid() && 0 <= m.year <= 9999
    ensures IncomeTotal(rs + [r], MonthText(m)) == IncomeTotal(rs, MonthText(m)) + (if MonthOf(d) == m then r.valor else 0.0)
  {
    IncomeAppend(rs, [r], MonthText(m));
    assert [r][..0] == [];
    MonthKeyOfIsoDate(d);
    MonthTextMatch(MonthOf(d), m);
  }

  /** The first `j` parts of an expense put its share into month `m` exactly when `m` is among their months. */
  lemma {:induction false} AllocationPrefixIn(d: Despesa, m: Month, j: nat)
    requires m.Valid() && 0 <= m.year <= 9999
    requires j <= InstallmentCount(d.parcelas)
    ensures PartsIn(Allocation(d)[..j], MonthText(m)) ==
      if MonthOf(d.vencimento).Index() <= m.Index() < MonthOf(d.vencimento).Index() + j
      then Share(d) else 0.0
  {
    if j > 0 {
      assert Allocation(d)[..j][..j - 1] == Allocation(d)[..j - 1];
      AllocationPrefixIn(d, m, j - 1);
      AllocationParts(d, j - 1);
      var a := AddMonths(MonthOf(d.vencimento), j - 1);
      MonthTextMatch(a, m);
      if a.Index() == m.Index() {
        IndexInjective(a, m);
      }
    }
  }

  /**
   * An expense of `n` installments adds `valor / n` to each of the `n` months
   * starting at its due month, and nothing to any other month.
   */
  lemma ExpenseSpread(d: Despesa, m: Month)
    requires m.Valid() && 0 <= m.year <= 9999
    ensures ExpenseTotal([d], MonthText(m)) ==
      if MonthOf(d.vencimento).Index() <= m.Index() < MonthOf(d.vencimento).Index() + InstallmentCount(d.parcelas)
      then Share(d) else 0.0
  {
    var n := InstallmentCount(d.parcelas);
    AllocationPrefixIn(d, m, n);
    assert Allocation(d)[..n] == Allocation(d);
    assert [d][..0] == [];
  }

  /** An income of 1000.00 on 2024-05-10 against 12000.00 due 2024-04-20 in three installments: May 2024 shows a balance of -3000.00. */
  lemma MonthSummaryExample(r: Receita, d: Despesa, dia: CalendarDay, maio: Month)
    requires dia == Day(2024, 5, 10) && maio == Month(2024, 5)
    requires r.data == IsoDate(dia) && r.valor == 1000.0
    requires d.valor == 12000.0 && d.parcelas == 3 && d.vencimento == Day(2024, 4, 20)
    ensures MonthSummary([r], [d], MonthText(maio)) == Resumo(1000.0, 4000.0, -3000.0)
  {
    SingleIncomeExample(r, dia, maio);
    SecondInstallmentExample(d, maio);
    ThreeWayShare(d);
  }

  lemma SingleIncomeExample(r: Receita, dia: CalendarDay, maio: Month)
    requires dia == Day(2024, 5, 10) && maio == Month(2024, 5)
    requires r.data == IsoDate(dia)
    ensures IncomeTotal([r], MonthText(maio)) == r.valor
  {
    IncomeCountsInItsMonth([], r, dia, maio);
    assert [] + [r] == [r];
  }

  lemma ThreeWayShare(d: Despesa)
    requires d.parcelas == 3
    ensures Share(d) == d.valor / 3.0
  {
    assert InstallmentCount(d.parcelas) == 3;
  }

  lemma SecondInstallmentExample(d: Despesa, maio: Month)
    requires maio == Month(2024, 5)
    requires d.parcelas == 3 && d.vencimento == Day(2024, 4, 20)
    ensures ExpenseTotal([d], MonthText(maio)) == Share(d)
  {
    ExpenseSpread(d, maio);
  }

  // ---------------------------------------------------------------------------
  // The current year's series

  /** The key the dashboard builds for month `m` (1..12) of `year`. */
  function YearKey(year: int, m: nat): string
  {
    CurrentKey(Month(year, m))
  }

  /** `k.slice(5)`: the chart label of key `k`. */
  function ChartLabel(k: string): string
  {
    if |k| <= 5 then "" else k[5..]
  }

  /** One bar of the year chart. */
  datatype Barra = Barra(mes: string, receitas: real, despesas: real)

  /**
   * The year loop: for `m` in 0..11 both records get key `year-MM` with that
   * month's income and expense totals. `keys` is the records' insertion order,
   * which is what `Object.keys` lists for keys that are not array indices.
   */
  method YearTotals(rs: seq<Receita>, ds: seq<Despesa>, year: int)
    returns (receitasAno: map<string, real>, despesasAno: map<string, real>, keys: seq<string>)
    ensures keys == YearKeys(year, 12)
    ensures SeriesOf(rs, ds, keys, receitasAno, despesasAno)
    ensures |receitasAno.Keys| == 12
  {
    receitasAno, despesasAno, keys := map[], map[], [];
    var m := 0;
    while m < 12
      invariant 0 <= m <= 12
      invariant keys == YearKeys(year, m)
      invariant SeriesOf(rs, ds, keys, receitasAno, despesasAno)
    {
      var k := YearKey(year, m + 1);
      YearKeysNext(year, m);
      IncomeSeriesStep(rs, keys, receitasAno, k);
      ExpenseSeriesStep(ds, keys, despesasAno, k);
      receitasAno := receitasAno[k := IncomeTotal(rs, k)];
      despesasAno := despesasAno[k := ExpenseTotal(ds, k)];
      keys := keys + [k];
      m := m + 1;
    }
    YearKeysDistinct(year);
    DistinctCardinality(keys);
  }

  /** The keys `year-01` up to month `m`, in calendar order. */
  function YearKeys(year: int, m: nat): (ks: seq<string>)
    ensures |ks| == m
  {
    seq(m, i requires 0 <= i < m => YearKey(year, i + 1))
  }

  lemma YearKeysNext(year: int, m: nat)
    ensures YearKeys(year, m + 1) == YearKeys(year, m) + [YearKey(year, m + 1)]
  {
  }

  /** The twelve keys of a year are distinct. */
  lemma YearKeysDistinct(year: int)
    ensures Distinct(YearKeys(year, 12))
  {
    var ks := YearKeys(year, 12);
    forall i, j | 0 <= i < 12 && 0 <= j < 12 && ks[i] == ks[j]
      ensures i == j
    {
      CurrentKeyMonths(year, i + 1, j + 1);
    }
  }

  /** `Object.keys(receitasAnoPorMes).map(k => ({ mes: k.slice(5), Receitas: …, Despesas: … }))`. */
  function ChartBars(ks: seq<string>, ra: map<string, real>, da: map<string, real>): (b: seq<Barra>)
    requires forall k :: k in ks ==> k in ra && k in da
    ensures |b| == |ks|
  {
    seq(|ks|, i requires 0 <= i < |ks| => Barra(ChartLabel(ks[i]), ra[ks[i]], da[ks[i]]))
  }

  /** The chart of the year's records has one bar per month, in calendar order, with that month's totals. */
  lemma YearChart(rs: seq<Receita>, ds: seq<Despesa>, year: int, ks: seq<string>, ra: map<string, real>, da: map<string, real>)
    requires ks == YearKeys(year, 12)
    requires SeriesOf(rs, ds, ks, ra, da)
    ensures |ChartBars(ks, ra, da)| == 12
    ensures forall i :: 0 <= i < 12 ==>
      ChartBars(ks, ra, da)[i] == Barra(ChartLabel(YearKey(year, i + 1)), IncomeTotal(rs, YearKey(year, i + 1)), ExpenseTotal(ds, YearKey(year, i + 1)))
  {
    var b := ChartBars(ks, ra, da);
    forall i | 0 <= i < 12
      ensures b[i] == Barra(ChartLabel(YearKey(year, i + 1)), IncomeTotal(rs, YearKey(year, i + 1)), ExpenseTotal(ds, YearKey(year, i + 1)))
    {
      var k := ks[i];
      assert k == YearKey(year, i + 1) && k in ks;
      assert b[i] == Barra(ChartLabel(k), ra[k], da[k]);
    }
  }

  /** The income record holds, for exactly the keys `ks`, each key's income total. */
  predicate IncomeSeries(rs: seq<Receita>, ks: seq<string>, ra: map<string, real>)
  {
    && ra.Keys == (set k | k in ks)
    && forall k :: k in ks ==> ra[k] == IncomeTotal(rs, k)
  }

  /** The expense record holds, for exactly the keys `ks`, each key's expense total. */
  predicate ExpenseSeries(ds: seq<Despesa>, ks: seq<string>, da: map<string, real>)
  {
    && da.Keys == (set k | k in ks)
    && forall k :: k in ks ==> da[k] == ExpenseTotal(ds, k)
  }

  predicate SeriesOf(rs: seq<Receita>, ds: seq<Despesa>, ks: seq<string>, ra: map<string, real>, da: map<string, real>)
  {
    IncomeSeries(rs, ks, ra) && ExpenseSeries(ds, ks, da)
  }

  lemma IncomeSeriesStep(rs: seq<Receita>, ks: seq<string>, ra: map<string, real>, k: string)
    requires IncomeSeries(rs, ks, ra)
    ensures IncomeSeries(rs, ks + [k], ra[k := IncomeTotal(rs, k)])
  {
    KeysStep(ks, ra, k, IncomeTotal(rs, k));
  }

  lemma ExpenseSeriesStep(ds: seq<Despesa>, ks: seq<string>, da: map<string, real>, k: string)
    requires ExpenseSeries(ds, ks, da)
    ensures ExpenseSeries(ds, ks + [k], da[k := ExpenseTotal(ds, k)])
  {
    KeysStep(ks, da, k, ExpenseTotal(ds, k));
  }

  /** Storing key `k` extends a record keyed by `ks` to one keyed by `ks + [k]`, keeping the other entries. */
  lemma KeysStep(ks: seq<string>, m: map<string, real>, k: string, v: real)
    requires m.Keys == (set x | x in ks)
    ensures m[k := v].Keys == (set x | x in ks + [k])
    ensures forall x :: x in ks + [k] ==> (x == k && m[k := v][x] == v) || (x in ks && m[k := v][x] == m[x])
  {
    assert (set x | x in ks + [k]) == (set x | x in ks) + {k};
  }

  /** For four-digit years the chart label of a key is the month's two digits. */
  lemma ChartLabelIsMonth(year: int, m: nat)
    requires 1000 <= year <= 9999 && 1 <= m <= 12
    ensures ChartLabel(YearKey(year, m)) == Fixed(m, 2)
  {
    CurrentKeyIsMonthText(Month(year, m));
    MonthTextDigits(Month(year, m));
    assert YearKey(year, m) == Fixed(year, 4) + "-" + Fixed(m, 2);
  }

  // ---------------------------------------------------------------------------
  // Expenses by category in the current month

  /** One slice of the category chart. */
  datatype Fatia = Fatia(nome: string, valor: real, cor: string)

  /** `despesas.reduce((s, d) => d.categoriaId === id ? s + <parts of d in k> : s, 0)`. */
  function CategoryTotal(ds: seq<Despesa>, id: string, k: string): (s: real)
    ensures (forall i :: 0 <= i < |ds| ==> ds[i].categoriaId != id) ==> s == 0.0
  {
    if ds == [] then 0.0
    else
      var d := ds[|ds| - 1];
      CategoryTotal(ds[..|ds| - 1], id, k) + (if d.categoriaId == id then PartsIn(Allocation(d), k) else 0.0)
  }

  /** The expenses of one category. */
  function OfCategory(ds: seq<Despesa>, id: string): (r: seq<Despesa>)
    ensures forall i :: 0 <= i < |r| ==> r[i].categoriaId == id
    ensures |r| <= |ds|
  {
    if ds == [] then []
    else OfCategory(ds[..|ds| - 1], id) + (if ds[|ds| - 1].categoriaId == id then [ds[|ds| - 1]] else [])
  }

  /** The selection is exact: the category's expenses, all of them, in their order. */
  lemma {:induction false} OfCategoryExact(ds: seq<Despesa>, id: string)
    ensures IsSubsequence(OfCategory(ds, id), ds)
    ensures forall k :: 0 <= k < |ds| && ds[k].categoriaId == id ==> ds[k] in OfCategory(ds, id)
  {
    if ds != [] {
      var p, d := ds[..|ds| - 1], ds[|ds| - 1];
      OfCategoryExact(p, id);
      assert ds == p + [d];
      SubsequenceStep(OfCategory(p, id), p, d, d.categoriaId == id);
      forall k | 0 <= k < |ds| && ds[k].categoriaId == id
        ensures ds[k] in OfCategory(ds, id)
      {
        if k < |p| {
          assert p[k] == ds[k];
        }
      }
    }
  }

  /** A category's value is the month's expense total over that category's expenses alone. */
  lemma {:induction false} CategoryTotalIsExpenseTotal(ds: seq<Despesa>, id: string, k: string)
    ensures CategoryTotal(ds, id, k) == ExpenseTotal(OfCategory(ds, id), k)
  {
    if ds != [] {
      var p, d := ds[..|ds| - 1], ds[|ds| - 1];
      CategoryTotalIsExpenseTotal(p, id, k);
      if d.categoriaId == id {
        assert OfCategory(ds, id) == OfCategory(p, id) + [d];
        ExpenseAppendOne(OfCategory(p, id), d, k);
      } else {
        assert OfCategory(ds, id) == OfCategory(p, id);
      }
    }
  }

  /** The slice a category would get before zero slices are dropped. */
  function SliceOf(c: Categoria, ds: seq<Despesa>, k: string): Fatia
  {
    Fatia(c.nome, CategoryTotal(ds, c.id, k), c.cor)
  }

  /** Every category's slice, in category order. */
  function AllSlices(cats: seq<Categoria>, ds: seq<Despesa>, k: string): (r: seq<Fatia>)
    ensures |r| == |cats|
  {
    seq(|cats|, i requires 0 <= i < |cats| => SliceOf(cats[i], ds, k))
  }

  /** `despesasPorCategoria`: expense categories mapped to slices, zero and negative slices dropped. */
  function Breakdown(cats: seq<Categoria>, ds: seq<Despesa>, k: string): (b: seq<Fatia>)
    ensures forall i :: 0 <= i < |b| ==> b[i].valor > 0.0
    ensures |b| <= |cats|
  {
    if cats == [] then []
    else
      var c := cats[|cats| - 1];
      Breakdown(cats[..|cats| - 1], ds, k)
        + (if c.tipo == TipoDespesa && CategoryTotal(ds, c.id, k) > 0.0 then [SliceOf(c, ds, k)] else [])
  }

  /** Every slice comes from an expense category and holds that category's total. */
  lemma {:induction false} BreakdownSound(cats: seq<Categoria>, ds: seq<Despesa>, k: string, i: int)
    requires 0 <= i < |Breakdown(cats, ds, k)|
    ensures exists j :: 0 <= j < |cats| && cats[j].tipo == TipoDespesa && Breakdown(cats, ds, k)[i] == SliceOf(cats[j], ds, k)
  {
    var p := cats[..|cats| - 1];
    if i < |Breakdown(p, ds, k)| {
      BreakdownSound(p, ds, k, i);
      var j :| 0 <= j < |p| && p[j].tipo == TipoDespesa && Breakdown(p, ds, k)[i] == SliceOf(p[j], ds, k);
      assert cats[j] == p[j];
    } else {
      assert Breakdown(cats, ds, k)[i] == SliceOf(cats[|cats| - 1], ds, k);
    }
  }

  /** Every expense category with a positive total gets its slice. */
  lemma {:induction false} BreakdownComplete(cats: seq<Categoria>, ds: seq<Despesa>, k: string, j: int)
    requires 0 <= j < |cats| && cats[j].tipo == TipoDespesa && CategoryTotal(ds, cats[j].id, k) > 0.0
    ensures SliceOf(cats[j], ds, k) in Breakdown(cats, ds, k)
  {
    var p, c := cats[..|cats| - 1], cats[|cats| - 1];
    var tail := if c.tipo == TipoDespesa && CategoryTotal(ds, c.id, k) > 0.0 then [SliceOf(c, ds, k)] else [];
    BreakdownLast(cats, ds, k);
    if j < |p| {
      assert p[j] == cats[j];
      BreakdownComplete(p, ds, k, j);
      InLeft(Breakdown(p, ds, k), tail, SliceOf(cats[j], ds, k));
    } else {
      assert tail == [SliceOf(cats[j], ds, k)];
      InRight(Breakdown(p, ds, k), tail, SliceOf(cats[j], ds, k));
    }
  }

  lemma BreakdownLast(cats: seq<Categoria>, ds: seq<Despesa>, k: string)
    requires cats != []
    ensures var c := cats[|cats| - 1];
      Breakdown(cats, ds, k) == Breakdown(cats[..|cats| - 1], ds, k)
        + (if c.tipo == TipoDespesa && CategoryTotal(ds, c.id, k) > 0.0 then [SliceOf(c, ds, k)] else [])
  {
  }

  lemma InLeft<T>(a: seq<T>, b: seq<T>, x: T)
    requires x in a
    ensures x in a + b
  {
    var i :| 0 <= i < |a| && a[i] == x;
    assert (a + b)[i] == x;
  }

  lemma InRight<T>(a: seq<T>, b: seq<T>, x: T)
    requires x in b
    ensures x in a + b
  {
    var i :| 0 <= i < |b| && b[i] == x;
    assert (a + b)[|a| + i] == x;
  }

  /** The slices keep the categories' order: they are a subsequence of all categories' slices. */
  lemma {:induction false} BreakdownOrder(cats: seq<Categoria>, ds: seq<Despesa>, k: string)
    ensures IsSubsequence(Breakdown(cats, ds, k), AllSlices(cats, ds, k))
  {
    if cats != [] {
      var p := cats[..|cats| - 1];
      var c := cats[|cats| - 1];
      BreakdownOrder(p, ds, k);
      var keep := c.tipo == TipoDespesa && CategoryTotal(ds, c.id, k) > 0.0;
      AllSlicesLast(cats, ds, k);
      SubsequenceStep(Breakdown(p, ds, k), AllSlices(p, ds, k), SliceOf(c, ds, k), keep);
    }
  }

  lemma AllSlicesLast(cats: seq<Categoria>, ds: seq<Despesa>, k: string)
    requires cats != []
    ensures AllSlices(cats, ds, k) == AllSlices(cats[..|cats| - 1], ds, k) + [SliceOf(cats[|cats| - 1], ds, k)]
  {
  }

  // ---------------------------------------------------------------------------
  // Concentration alert

  /** `despesasPorCategoria.reduce((s, c) => s + c.valor, 0)`. */
  function SliceSum(b: seq<Fatia>): (t: real)
    ensures (forall i :: 0 <= i < |b| ==> b[i].valor >= 0.0) ==> t >= 0.0
  {
    if b == [] then 0.0 else SliceSum(b[..|b| - 1]) + b[|b| - 1].valor
  }

  /** `totalDespesasMes > 0 && c.valor / totalDespesasMes > 0.35`. */
  predicate Excessive(f: Fatia, total: real): (b: bool)
    ensures total <= 0.0 ==> !b
    ensures total > 0.0 ==> (b <==> f.valor > 0.35 * total)
  {
    if total > 0.0 then DivThreshold(f.valor, total); f.valor / total > 0.35 else false
  }

  /** Against a positive total, the share exceeds 0.35 exactly when the amount exceeds 0.35 of the total. */
  lemma DivThreshold(x: real, total: real)
    requires total > 0.0
    ensures x / total > 0.35 <==> x > 0.35 * total
  {
    var q := x / total;
    assert q * total == x;
    if q > 0.35 {
      assert q * total > 0.35 * total;
    } else {
      assert q * total <= 0.35 * total;
    }
  }

  /** The names of the slices that are excessive against `total`, in slice order. */
  function ExcessNames(b: seq<Fatia>, total: real): (ns: seq<string>)
    ensures |ns| <= |b|
  {
    if b == [] then []
    else ExcessNames(b[..|b| - 1], total) + (if Excessive(b[|b| - 1], total) then [b[|b| - 1].nome] else [])
  }

  /**
   * `categoriasExcesso`: the alert over the slices' own sum. Nothing is flagged
   * without spending, and with non-negative slices at most two categories can
   * each hold more than 35% of it.
   */
  function ExcessCategories(b: seq<Fatia>): (ns: seq<string>)
    ensures |ns| <= |b|
    ensures SliceSum(b) <= 0.0 ==> ns == []
    ensures (forall i :: 0 <= i < |b| ==> b[i].valor >= 0.0) ==> |ns| <= 2
  {
    var t := SliceSum(b);
    if t <= 0.0 then
      NoTotalNoAlert(b, t);
      ExcessNames(b, t)
    else if forall i :: 0 <= i < |b| ==> b[i].valor >= 0.0 then
      FlaggedBounds(b, t);
      ExcessNames(b, t)
    else ExcessNames(b, t)
  }

  function Names(b: seq<Fatia>): (ns: seq<string>)
    ensures |ns| == |b|
  {
    seq(|b|, i requires 0 <= i < |b| => b[i].nome)
  }

  /** Without a positive total nothing is flagged. */
  lemma {:induction false} NoTotalNoAlert(b: seq<Fatia>, total: real)
    requires total <= 0.0
    ensures ExcessNames(b, total) == []
  {
    if b != [] {
      NoTotalNoAlert(b[..|b| - 1], total);
    }
  }

  /** Flagged names are a subsequence of the slices' names. */
  lemma {:induction false} ExcessOrder(b: seq<Fatia>, total: real)
    ensures IsSubsequence(ExcessNames(b, total), Names(b))
  {
    if b != [] {
      var p := b[..|b| - 1];
      var f := b[|b| - 1];
      ExcessOrder(p, total);
      assert Names(b) == Names(p) + [f.nome];
      if Excessive(f, total) {
        SubsequenceKeep(ExcessNames(p, total), Names(p), f.nome);
      } else {
        assert ExcessNames(b, total) == ExcessNames(p, total);
        SubsequenceExtend(ExcessNames(p, total), Names(p), f.nome);
      }
    }
  }

  /** Every flagged name is the name of an excessive slice. */
  lemma {:induction false} ExcessSound(b: seq<Fatia>, total: real, n: string)
    requires n in ExcessNames(b, total)
    ensures exists i :: 0 <= i < |b| && b[i].nome == n && Excessive(b[i], total)
  {
    var p := b[..|b| - 1];
    if n in ExcessNames(p, total) {
      ExcessSound(p, total, n);
      var i :| 0 <= i < |p| && p[i].nome == n && Excessive(p[i], total);
      assert b[i] == p[i];
    } else {
      assert b[|b| - 1].nome == n && Excessive(b[|b| - 1], total);
    }
  }

  /** Every excessive slice has its name flagged. */
  lemma {:induction false} ExcessComplete(b: seq<Fatia>, total: real, i: int)
    requires 0 <= i < |b| && Excessive(b[i], total)
    ensures b[i].nome in ExcessNames(b, total)
  {
    var p := b[..|b| - 1];
    if i < |p| {
      assert p[i] == b[i];
      ExcessComplete(p, total, i);
    }
  }

  /** Sum of the flagged slices' values. */
  function FlaggedSum(b: seq<Fatia>, total: real): real
  {
    if b == [] then 0.0
    else FlaggedSum(b[..|b| - 1], total) + (if Excessive(b[|b| - 1], total) then b[|b| - 1].valor else 0.0)
  }

  /** Each flagged slice carries more than 35% of the total, and all flagged slices together no more than the total. */
  lemma {:induction false} FlaggedBounds(b: seq<Fatia>, total: real)
    requires total > 0.0
    requires forall i :: 0 <= i < |b| ==> b[i].valor >= 0.0
    ensures 0.0 <= FlaggedSum(b, total) <= SliceSum(b)
    ensures |ExcessNames(b, total)| >= 1 ==> FlaggedSum(b, total) > 0.35 * total
    ensures |ExcessNames(b, total)| >= 2 ==> FlaggedSum(b, total) > 0.70 * total
    ensures |ExcessNames(b, total)| >= 3 ==> FlaggedSum(b, total) > 1.05 * total
  {
    if b != [] {
      var f := b[|b| - 1];
      FlaggedBounds(b[..|b| - 1], total);
      if Excessive(f, total) {
      }
    }
  }

  /** The month's breakdown never raises more than two alerts. */
  lemma BreakdownAlerts(cats: seq<Categoria>, ds: seq<Despesa>, k: string)
    ensures |ExcessCategories(Breakdown(cats, ds, k))| <= 2
  {
    var b := Breakdown(cats, ds, k);
    assert forall i :: 0 <= i < |b| ==> b[i].valor >= 0.0;
  }

  /** Housing 100.00 and leisure 50.00: housing (two thirds) is flagged, leisure (one third) is not. */
  lemma ExcessExample(a: Fatia, b: Fatia)
    requires a.valor == 100.0 && b.valor == 50.0
    ensures ExcessCategories([a, b]) == [a.nome]
  {
    assert [a, b][..1] == [a];
    assert [a][..0] == [];
    assert SliceSum([a]) == 100.0;
    assert SliceSum([a, b]) == SliceSum([a]) + 50.0;
    assert ExcessNames([a], 150.0) == [a.nome];
    assert ExcessNames([a, b], 150.0) == ExcessNames([a], 150.0) + [];
  }

  // ---------------------------------------------------------------------------
  // Due-date flags

  datatype Alerta = Alerta(atrasado: bool, vencendo: bool)

  /**
   * The flags of expense `d` on the day whose ISO date is `hojeIso`, at time
   * value `nowMs`: overdue when unpaid and the due date sorts before today;
   * due soon when unpaid, not before today and less than three days away.
   */
  function DueStatus(d: Despesa, hojeIso: string, nowMs: int): (a: Alerta)
    ensures d.pago ==> !a.atrasado && !a.vencendo
    ensures !(a.atrasado && a.vencendo)
  {
    var venc := IsoDate(d.vencimento);
    Alerta(
      !d.pago && LessThan(venc, hojeIso),
      !d.pago && !LessThan(venc, hojeIso) && DayMs(d.vencimento) - nowMs < 3 * MsPerDay)
  }

  /** For four-digit years, overdue means unpaid with a due day strictly before today. */
  lemma OverdueIffBefore(d: Despesa, hoje: CalendarDay, nowMs: int)
    requires 0 <= d.vencimento.year <= 9999 && 0 <= hoje.year <= 9999
    ensures DueStatus(d, IsoDate(hoje), nowMs).atrasado <==> !d.pago && DayBefore(d.vencimento, hoje)
  {
    IsoDateOrder(d.vencimento, hoje);
  }

  /**
   * When the clock reads a time within today, an unpaid expense due today or
   * up to two days ahead is due soon, one three days ahead is due soon
   * unless it is exactly midnight, and a later one is not.
   */
  lemma DueSoonWindow(d: Despesa, hoje: CalendarDay, nowMs: int)
    requires 0 <= d.vencimento.year <= 9999 && 0 <= hoje.year <= 9999
    requires DayMs(hoje) <= nowMs < DayMs(hoje) + MsPerDay
    ensures var ahead := DayNumber(d.vencimento) - DayNumber(hoje);
      DueStatus(d, IsoDate(hoje), nowMs).vencendo <==>
        !d.pago && 0 <= ahead && (ahead <= 2 || (ahead == 3 && nowMs > DayMs(hoje)))
  {
    IsoDateOrder(d.vencimento, hoje);
    DayNumberOrder(d.vencimento, hoje);
    var ahead := DayNumber(d.vencimento) - DayNumber(hoje);
    var off := nowMs - DayMs(hoje);
    assert DayMs(d.vencimento) - nowMs == ahead * MsPerDay - off;
  }

  // ---------------------------------------------------------------------------
  // Plan versus actual

  datatype ResumoPlano = ResumoPlano(receitaReal: real, despesaReal: real, saldoPrev: real, saldoReal: real, dif: real)

  /** One row of the plan table: actual income and expense of the plan's month against its forecast. */
  function PlanRow(p: Planejamento, rs: seq<Receita>, ds: seq<Despesa>): (r: ResumoPlano)
    ensures r.saldoPrev == p.receitaPrevista - p.despesaPrevista
    ensures r.saldoReal == r.receitaReal - r.despesaReal
    ensures r.dif == r.saldoReal - r.saldoPrev
  {
    var receitaReal := IncomeTotal(rs, p.mes);
    var despesaReal := ExpenseTotal(ds, p.mes);
    var saldoPrev := p.receitaPrevista - p.despesaPrevista;
    var saldoReal := receitaReal - despesaReal;
    ResumoPlano(receitaReal, despesaReal, saldoPrev, saldoReal, saldoReal - saldoPrev)
  }

  /** The plan row's actual figures are the monthly cards' figures for the plan's key. */
  lemma PlanMatchesMonth(p: Planejamento, rs: seq<Receita>, ds: seq<Despesa>)
    ensures var row, card := PlanRow(p, rs, ds), MonthSummary(rs, ds, p.mes);
      row.receitaReal == card.receitas && row.despesaReal == card.despesas && row.saldoReal == card.saldo
  {
  }

  /** A row is highlighted (negative difference) exactly when the actual balance falls short of the forecast. */
  lemma PlanShortfall(p: Planejamento, rs: seq<Receita>, ds: seq<Despesa>)
    ensures PlanRow(p, rs, ds).dif < 0.0 <==>
      IncomeTotal(rs, p.mes) - ExpenseTotal(ds, p.mes) < p.receitaPrevista - p.despesaPrevista
  {
  }

  /** A month with no matching records shows zero actuals and the negated forecast balance as difference. */
  lemma PlanOfEmptyMonth(p: Planejamento, rs: seq<Receita>, ds: seq<Despesa>)
    requires forall i :: 0 <= i < |rs| ==> MonthKey(rs[i].data) != p.mes
    requires forall i, j :: 0 <= i < |ds| && 0 <= j < |Allocation(ds[i])| ==> MonthText(Allocation(ds[i])[j].mes) != p.mes
    ensures PlanRow(p, rs, ds).receitaReal == 0.0 && PlanRow(p, rs, ds).despesaReal == 0.0
    ensures PlanRow(p, rs, ds).dif == p.despesaPrevista - p.receitaPrevista
  {
  }
}
