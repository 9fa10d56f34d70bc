/**
 * Derived tables of the dashboard: the card statements ("faturas"), one row
 * per installment of every expense paid by card, and the purchase items
 * grouped by the purchase they belong to (`comprasPorCompra`).
 */
module Statements {
  import opened Wrappers
  import opened Calendar
  import opened IsoText
  import opened Records
  import opened Installments
  import opened Sequences

  // ---------------------------------------------------------------------------
  // Card statements

  /** One statement row: `{ cartao, mes, valor, parcelas, obs }`. */
  datatype Fatura = Fatura(cartao: string, mes: Month, valor: real, parcelas: nat, obs: Option<string>)

  /** `d.cartao || "Cartão"`: a missing or empty card name falls back to the generic label. */
  function CardLabel(c: Option<string>): (l: string)
    ensures l != ""
  {
    if c.Some? && c.value != "" then c.value else "Cartão"
  }

  /** `d.forma.toLowerCase().includes("cart")`: "cart" occurs, in any letter case, somewhere in the form. */
  function PaidByCard(d: Despesa): (b: bool)
    ensures b <==> exists i :: OccursAt(Lower(d.forma), "cart", i)
  {
    ContainsAt(Lower(d.forma), "cart");
    Contains(Lower(d.forma), "cart")
  }

  /** The row pushed for part `p` of expense `d`. */
  function FaturaOf(d: Despesa, p: Parte): (f: Fatura)
    ensures f.cartao != "" && (d.cartao.Some? && d.cartao.value != "" ==> f.cartao == d.cartao.value)
    ensures f.mes == p.mes && f.valor == p.valor && f.obs == d.obs
    ensures f.parcelas >= 1 && (d.parcelas >= 1 ==> f.parcelas == d.parcelas)
  {
    Fatura(CardLabel(d.cartao), p.mes, p.valor, InstallmentCount(d.parcelas), d.obs)
  }

  /** The rows one expense contributes: one per part when it is paid by card, none otherwise. */
  function RowsOf(d: Despesa): (rs: seq<Fatura>)
    ensures |rs| == if PaidByCard(d) then InstallmentCount(d.parcelas) else 0
  {
    if PaidByCard(d) then
      var ps := Allocation(d);
      seq(|ps|, i requires 0 <= i < |ps| => FaturaOf(d, ps[i]))
    else []
  }

  /** The statement table: the expenses' rows, in expense order; one row per installment of every card-paid expense. */
  function FaturasOf(ds: seq<Despesa>): (fs: seq<Fatura>)
    ensures |fs| == CardInstallments(ds)
  {
    if ds == [] then [] else FaturasOf(ds[..|ds| - 1]) + RowsOf(ds[|ds| - 1])
  }

  /** The `forEach` over the expenses that pushes one row per part of a card expense. */
  method Faturas(ds: seq<Despesa>) returns (faturas: seq<Fatura>)
    ensures faturas == FaturasOf(ds)
  {
    faturas := [];
    var i := 0;
    while i < |ds|
      invariant 0 <= i <= |ds|
      invariant faturas == FaturasOf(ds[..i])
    {
      var d := ds[i];
      FaturasStep(ds, i);
      if Contains(Lower(d.forma), "cart") {
        var partes := ParcelasPorMes(d);
        var j := 0;
        ghost var before := faturas;
        while j < |partes|
          invariant 0 <= j <= |partes|
          invariant faturas == before + RowsOf(d)[..j]
        {
          faturas := faturas + [FaturaOf(d, partes[j])];
          assert RowsOf(d)[..j + 1] == RowsOf(d)[..j] + [RowsOf(d)[j]];
          j := j + 1;
        }
        assert RowsOf(d)[..j] == RowsOf(d);
      }
      i := i + 1;
    }
    assert ds[..i] == ds;
  }

  lemma FaturasStep(ds: seq<Despesa>, i: int)
    requires 0 <= i < |ds|
    ensures FaturasOf(ds[..i + 1]) == FaturasOf(ds[..i]) + RowsOf(ds[i])
    ensures PaidByCard(ds[i]) == Contains(Lower(ds[i].forma), "cart")
  {
    assert ds[..i + 1][..i] == ds[..i];
  }

  /** Number of parts over the card-paid expenses. */
  function CardInstallments(ds: seq<Despesa>): nat
  {
    if ds == [] then 0
    else CardInstallments(ds[..|ds| - 1]) + (if PaidByCard(ds[|ds| - 1]) then InstallmentCount(ds[|ds| - 1].parcelas) else 0)
  }

  /** Every row is a part of a card-paid expense, labelled with its card and its installment count. */
  lemma {:induction false} FaturaOrigin(ds: seq<Despesa>, i: int)
    requires 0 <= i < |FaturasOf(ds)|
    ensures exists k, j ::
              0 <= k < |ds| && 0 <= j < InstallmentCount(ds[k].parcelas) && PaidByCard(ds[k])
              && FaturasOf(ds)[i] == FaturaOf(ds[k], Allocation(ds[k])[j])
  {
    var p, d := ds[..|ds| - 1], ds[|ds| - 1];
    if i < |FaturasOf(p)| {
      FaturaOrigin(p, i);
      var k, j :| 0 <= k < |p| && 0 <= j < InstallmentCount(p[k].parcelas) && PaidByCard(p[k])
        && FaturasOf(p)[i] == FaturaOf(p[k], Allocation(p[k])[j]);
      assert ds[k] == p[k];
    } else {
      var j := i - |FaturasOf(p)|;
      assert FaturasOf(ds)[i] == RowsOf(d)[j];
      assert ds[|ds| - 1] == d;
    }
  }

  /** What a row says about the expense it comes from. */
  lemma FaturaFields(d: Despesa, j: int)
    requires 0 <= j < InstallmentCount(d.parcelas)
    ensures var f := FaturaOf(d, Allocation(d)[j]);
      f.valor == Share(d) && f.parcelas == InstallmentCount(d.parcelas) && f.parcelas >= 1
      && f.mes == AddMonths(MonthOf(d.vencimento), j) && f.obs == d.obs
      && (d.cartao.Some? && d.cartao.value != "" ==> f.cartao == d.cartao.value)
      && (d.cartao.None? || d.cartao.value == "" ==> f.cartao == "Cartão")
  {
    AllocationParts(d, j);
  }

  /** Every installment of a card-paid expense has its row. */
  lemma {:induction false} FaturaComplete(ds: seq<Despesa>, k: int, j: int)
    requires 0 <= k < |ds| && PaidByCard(ds[k]) && 0 <= j < InstallmentCount(ds[k].parcelas)
    ensures FaturaOf(ds[k], Allocation(ds[k])[j]) in FaturasOf(ds)
  {
    var p := ds[..|ds| - 1];
    if k < |p| {
      assert p[k] == ds[k];
      FaturaComplete(p, k, j);
      FaturasGrow(ds, FaturaOf(ds[k], Allocation(ds[k])[j]));
    } else {
      assert ds == p + [ds[k]];
      FaturaOfLast(p, ds[k], j);
    }
  }

  /** A row of the earlier expenses stays a row. */
  lemma FaturasGrow(ds: seq<Despesa>, f: Fatura)
    requires ds != [] && f in FaturasOf(ds[..|ds| - 1])
    ensures f in FaturasOf(ds)
  {
  }

  /** The last expense's installments all have their rows. */
  lemma FaturaOfLast(p: seq<Despesa>, d: Despesa, j: int)
    requires PaidByCard(d) && 0 <= j < InstallmentCount(d.parcelas)
    ensures FaturaOf(d, Allocation(d)[j]) in FaturasOf(p + [d])
  {
    assert (p + [d])[..|p + [d]| - 1] == p;
    var a, b := FaturasOf(p), RowsOf(d);
    assert FaturasOf(p + [d]) == a + b;
    assert (a + b)[|a| + j] == b[j];
  }

  /** Expenses not paid by card contribute no row. */
  lemma {:induction false} FaturasSkipOthers(ds: seq<Despesa>)
    requires forall k :: 0 <= k < |ds| ==> !PaidByCard(ds[k])
    ensures FaturasOf(ds) == []
  {
    if ds != [] {
      var p := ds[..|ds| - 1];
      assert forall k :: 0 <= k < |p| ==> p[k] == ds[k];
      FaturasSkipOthers(p);
    }
  }

  /** Sum of the rows' amounts. */
  function FaturasTotal(fs: seq<Fatura>): real
  {
    if fs == [] then 0.0 else FaturasTotal(fs[..|fs| - 1]) + fs[|fs| - 1].valor
  }

  /** Sum of the amounts of the card-paid expenses. */
  function CardSpending(ds: seq<Despesa>): real
  {
    if ds == [] then 0.0
    else CardSpending(ds[..|ds| - 1]) + (if PaidByCard(ds[|ds| - 1]) then ds[|ds| - 1].valor else 0.0)
  }

  lemma {:induction false} FaturasTotalAppend(a: seq<Fatura>, b: seq<Fatura>)
    ensures FaturasTotal(a + b) == FaturasTotal(a) + FaturasTotal(b)
    decreases |b|
  {
    if b == [] {
      assert a + b == a;
    } else {
      assert (a + b)[..|a + b| - 1] == a + b[..|b| - 1];
      FaturasTotalAppend(a, b[..|b| - 1]);
    }
  }

  /** The rows of one card expense add up to the expense's amount. */
  lemma RowsTotal(d: Despesa)
    requires PaidByCard(d)
    ensures FaturasTotal(RowsOf(d)) == d.valor
  {
    var rs, ps := RowsOf(d), Allocation(d);
    RowsMirrorParts(d, |rs|);
    assert rs[..|rs|] == rs && ps[..|ps|] == ps;
    AllocationSumsToTotal(d);
  }

  /** Row by row, the rows carry the parts' amounts. */
  lemma {:induction false} RowsMirrorParts(d: Despesa, m: nat)
    requires PaidByCard(d) && m <= InstallmentCount(d.parcelas)
    ensures FaturasTotal(RowsOf(d)[..m]) == TotalValor(Allocation(d)[..m])
  {
    if m > 0 {
      var rs, ps := RowsOf(d), Allocation(d);
      assert rs[..m][..m - 1] == rs[..m - 1];
      assert ps[..m][..m - 1] == ps[..m - 1];
      assert rs[..m][m - 1].valor == ps[..m][m - 1].valor;
      RowsMirrorParts(d, m - 1);
    }
  }

  /** The statement table accounts for exactly the card-paid spending. */
  lemma {:induction false} FaturasSumToCardSpending(ds: seq<Despesa>)
    ensures FaturasTotal(FaturasOf(ds)) == CardSpending(ds)
  {
    if ds != [] {
      var p, d := ds[..|ds| - 1], ds[|ds| - 1];
      FaturasSumToCardSpending(p);
      FaturasTotalAppend(FaturasOf(p), RowsOf(d));
      if PaidByCard(d) {
        RowsTotal(d);
      }
    }
  }

  /** The default payment form "Cartão" counts as card; "Pix" does not. */
  lemma PaymentFormExamples(a: Despesa, b: Despesa)
    requires a.forma == "Cartão" && b.forma == "Pix"
    ensures PaidByCard(a) && !PaidByCard(b)
  {
    assert Lower(a.forma) == "cartão";
    assert "cart" <= "cartão";
    assert Lower(b.forma) == "pix";
    assert !Contains("pix"[1..], "cart");
  }

  // ---------------------------------------------------------------------------
  // Purchases grouped by `compraId`

  /** The items of purchase `id`, in insertion order. */
  function ItemsOf(cs: seq<CompraItem>, id: string): (r: seq<CompraItem>)
    ensures |r| <= |cs|
    ensures forall c :: c in r ==> c.compraId == id
  {
    if cs == [] then []
    else ItemsOf(cs[..|cs| - 1], id) + (if cs[|cs| - 1].compraId == id then [cs[|cs| - 1]] else [])
  }

  /** The purchases that have at least one item. */
  function PurchaseIds(cs: seq<CompraItem>): set<string>
  {
    set c | c in cs :: c.compraId
  }

  /** `comprasPorCompra`: the `reduce` that appends each item to its purchase's list. */
  method ComprasPorCompra(cs: seq<CompraItem>) returns (grupos: map<string, seq<CompraItem>>)
    ensures grupos.Keys == PurchaseIds(cs)
    ensures forall id :: id in grupos ==> grupos[id] == ItemsOf(cs, id)
  {
    grupos := map[];
    var i := 0;
    while i < |cs|
      invariant 0 <= i <= |cs|
      invariant grupos.Keys == PurchaseIds(cs[..i])
      invariant forall id :: id in grupos ==> grupos[id] == ItemsOf(cs[..i], id)
    {
      var c := cs[i];
      ItemsStep(cs, i, grupos);
      var g := if c.compraId in grupos then grupos[c.compraId] else [];
      grupos := grupos[c.compraId := g + [c]];
      i := i + 1;
    }
    assert cs[..i] == cs;
  }

  lemma ItemsStep(cs: seq<CompraItem>, i: int, grupos: map<string, seq<CompraItem>>)
    requires 0 <= i < |cs|
    requires grupos.Keys == PurchaseIds(cs[..i])
    requires forall id :: id in grupos ==> grupos[id] == ItemsOf(cs[..i], id)
    ensures var c := cs[i];
      var g := if c.compraId in grupos then grupos[c.compraId] else [];
      var grupos' := grupos[c.compraId := g + [c]];
      grupos'.Keys == PurchaseIds(cs[..i + 1])
      && forall id :: id in grupos' ==> grupos'[id] == ItemsOf(cs[..i + 1], id)
  {
    var c := cs[i];
    assert cs[..i + 1] == cs[..i] + [c];
    assert cs[..i + 1][..i] == cs[..i];
    if c.compraId !in grupos {
      ItemsAbsent(cs[..i], c.compraId);
    }
  }

  /** A purchase without items has an empty list. */
  lemma {:induction false} ItemsAbsent(cs: seq<CompraItem>, id: string)
    requires id !in PurchaseIds(cs)
    ensures ItemsOf(cs, id) == []
  {
    if cs != [] {
      var p := cs[..|cs| - 1];
      assert PurchaseIds(p) <= PurchaseIds(cs) by {
        forall x | x in PurchaseIds(p) ensures x in PurchaseIds(cs) {
          var c :| c in p && c.compraId == x;
          assert c in cs;
        }
      }
      ItemsAbsent(p, id);
      assert cs[|cs| - 1] in cs;
    }
  }

  /** Every group holds only items of its own purchase, in the order they were added. */
  lemma {:induction false} ItemsSound(cs: seq<CompraItem>, id: string)
    ensures forall c :: c in ItemsOf(cs, id) ==> c.compraId == id && c in cs
    ensures IsSubsequence(ItemsOf(cs, id), cs)
  {
    if cs != [] {
      var p, c := cs[..|cs| - 1], cs[|cs| - 1];
      ItemsSound(p, id);
      assert cs == p + [c];
      SubsequenceStep(ItemsOf(p, id), p, c, c.compraId == id);
    }
  }

  /** Every item sits in its purchase's group. */
  lemma {:induction false} ItemsComplete(cs: seq<CompraItem>, k: int)
    requires 0 <= k < |cs|
    ensures cs[k] in ItemsOf(cs, cs[k].compraId)
  {
    var p, c := cs[..|cs| - 1], cs[|cs| - 1];
    var id := cs[k].compraId;
    if k < |p| {
      assert p[k] == cs[k];
      ItemsComplete(p, k);
      assert ItemsOf(cs, id) == ItemsOf(p, id) + (if c.compraId == id then [c] else []);
    }
  }

  /** A group is never empty, so its first item (shown in the group's heading) exists. */
  lemma {:induction false} GroupsNonEmpty(cs: seq<CompraItem>, id: string)
    requires id in PurchaseIds(cs)
    ensures ItemsOf(cs, id) != []
  {
    var k :| 0 <= k < |cs| && cs[k].compraId == id;
    ItemsComplete(cs, k);
  }

  /**
   * The names a plain object `{}` inherits from `Object.prototype`. For such a
   * name `acc[id]` is already truthy (a method, or the prototype itself for
   * `__proto__`), so `acc[id] || []` keeps it and `acc[id].push(c)` throws a
   * `TypeError`.
   */
  const Inherited: set<string> := {
    "constructor", "__proto__", "toString", "toLocaleString", "valueOf", "hasOwnProperty",
    "isPrototypeOf", "propertyIsEnumerable", "__defineGetter__", "__defineSetter__",
    "__lookupGetter__", "__lookupSetter__"}

  /** Some item's purchase id names an inherited member. */
  predicate HasInherited(cs: seq<CompraItem>)
  {
    exists k :: 0 <= k < |cs| && cs[k].compraId in Inherited
  }

  /**
   * The `reduce` into `{}` as written: `None` where it throws, which is
   * exactly when some item names an inherited member.
   */
  function GroupAsWritten(cs: seq<CompraItem>): (r: Option<map<string, seq<CompraItem>>>)
    ensures r.None? <==> HasInherited(cs)
  {
    if cs == [] then Some(map[])
    else
      var acc, c := GroupAsWritten(cs[..|cs| - 1]), cs[|cs| - 1];
      InheritedPrefix(cs);
      if acc.None? || c.compraId in Inherited then None
      else Some(acc.value[c.compraId := (if c.compraId in acc.value then acc.value[c.compraId] else []) + [c]])
  }

  /** Where no purchase id names an inherited member, the as-written `reduce` builds the intended groups. */
  lemma {:induction false} AsWrittenGroups(cs: seq<CompraItem>)
    requires !HasInherited(cs)
    ensures GroupAsWritten(cs).Some?
    ensures GroupAsWritten(cs).value.Keys == PurchaseIds(cs)
    ensures forall id :: id in GroupAsWritten(cs).value ==> GroupAsWritten(cs).value[id] == ItemsOf(cs, id)
  {
    if cs != [] {
      InheritedPrefix(cs);
      AsWrittenGroups(cs[..|cs| - 1]);
      ItemsStep(cs, |cs| - 1, GroupAsWritten(cs[..|cs| - 1]).value);
      assert cs[..|cs| - 1 + 1] == cs;
    }
  }

  lemma InheritedPrefix(cs: seq<CompraItem>)
    requires cs != []
    ensures HasInherited(cs) <==> HasInherited(cs[..|cs| - 1]) || cs[|cs| - 1].compraId in Inherited
  {
    var p := cs[..|cs| - 1];
    if HasInherited(cs) {
      var k :| 0 <= k < |cs| && cs[k].compraId in Inherited;
      if k < |p| {
        assert p[k] == cs[k];
      }
    }
    if HasInherited(p) {
      var k :| 0 <= k < |p| && p[k].compraId in Inherited;
      assert cs[k] == p[k];
    }
  }

  /** An item grouped under "toString" makes the page's `reduce` throw. */
  lemma PrototypeKeyThrows(c: CompraItem)
    requires c.compraId == "toString"
    ensures GroupAsWritten([c]).None?
  {
    assert [c][0].compraId in Inherited;
  }

  /** `itens.reduce((s, i) => s + i.valorTotal, 0)`: a purchase's total, never negative when no item is. */
  function CompraTotal(itens: seq<CompraItem>): (t: real)
    ensures (forall i :: 0 <= i < |itens| ==> itens[i].valorTotal >= 0.0) ==> t >= 0.0
  {
    if itens == [] then 0.0 else CompraTotal(itens[..|itens| - 1]) + itens[|itens| - 1].valorTotal
  }

  /** Adding an item to a list of purchases adds its value to its own purchase's total only. */
  lemma ItemsTotalStep(cs: seq<CompraItem>, c: CompraItem, id: string)
    ensures CompraTotal(ItemsOf(cs + [c], id)) == CompraTotal(ItemsOf(cs, id)) + (if c.compraId == id then c.valorTotal else 0.0)
  {
    var before := ItemsOf(cs, id);
    assert (cs + [c])[..|cs + [c]| - 1] == cs;
    if c.compraId == id {
      assert ItemsOf(cs + [c], id) == before + [c];
      assert (before + [c])[..|before + [c]| - 1] == before;
    } else {
      assert ItemsOf(cs + [c], id) == before + [];
      assert before + [] == before;
    }
  }
}
