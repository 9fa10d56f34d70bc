/**
 * The dashboard's state and its entry handlers: the five lists the page
 * keeps (`categorias`, `receitas`, `despesas`, `compras`, `planejamento`),
 * the form handlers `addReceita`, `addDespesa`, `addItem` and `addPlano`,
 * and the local effect of the quick-add button.
 *
 * A form is a partial record: a field the user never filled is `None`.
 * JavaScript truthiness is written out: an absent or empty string and an
 * absent or zero number are "falsy". Identifiers from `crypto.randomUUID()`
 * are parameters.
 */
module Ledger {
  import opened Wrappers
  import opened Calendar
  import opened IsoText
  import opened Records
  import opened Installments
  import opened Sequences
  import opened Statements

  // ---------------------------------------------------------------------------
  // Truthiness and defaults

  /** A string field that is present and non-empty. */
  predicate Filled(o: Option<string>)
  {
    o.Some? && o.value != ""
  }

  /** A number field that is present and non-zero. */
  predicate Nonzero(o: Option<real>)
  {
    o.Some? && o.value != 0.0
  }

  /**
   * `s || fallback` on a string field: the result is one of the two operands,
   * the first when it is truthy, and it is truthy exactly when one of them is.
   */
  function OrText(o: Option<string>, fallback: string): (r: string)
    ensures r == fallback || (o.Some? && r == o.value)
    ensures Filled(o) ==> r == o.value
    ensures r != "" <==> Filled(o) || fallback != ""
  {
    if Filled(o) then o.value else fallback
  }

  /**
   * `Number(x) || fallback` on a number field: the result is one of the two
   * operands, the first when it is non-zero, and it is non-zero exactly when
   * one of them is.
   */
  function OrNumber(o: Option<real>, fallback: real): (r: real)
    ensures r == fallback || (o.Some? && r == o.value)
    ensures Nonzero(o) ==> r == o.value
    ensures r != 0.0 <==> Nonzero(o) || fallback != 0.0
  {
    if Nonzero(o) then o.value else fallback
  }

  // ---------------------------------------------------------------------------
  // Forms and the records they produce

  datatype ReceitaForm = ReceitaForm(
    data: Option<string>, fonte: Option<string>, valor: Option<real>, categoriaId: Option<string>, obs: Option<string>)

  /** The guard of `addReceita`: date, amount and category are filled in. */
  predicate ReceitaReady(f: ReceitaForm): (b: bool)
    ensures b ==> f.data.Some? && f.valor.Some? && f.categoriaId.Some?
    ensures f.valor == Some(0.0) ==> !b
  {
    Filled(f.data) && Nonzero(f.valor) && Filled(f.categoriaId)
  }

  function NewReceita(f: ReceitaForm, id: string): (r: Receita)
    requires ReceitaReady(f)
    ensures r.valor != 0.0 && r.data != "" && r.categoriaId != ""
  {
    Receita(id, f.data.value, OrText(f.fonte, ""), f.valor.value, f.categoriaId.value, f.obs)
  }

  /**
   * The expense form. Its due date is always a calendar day: the form starts
   * with today's date there, and the allocator parses it.
   */
  datatype DespesaForm = DespesaForm(
    data: Option<string>, descricao: Option<string>, valor: Option<real>, categoriaId: Option<string>,
    forma: Option<string>, parcelas: Option<int>, vencimento: CalendarDay, pago: Option<bool>,
    obs: Option<string>, cartao: Option<string>)

  /** The guard of `addDespesa`: date, amount and category are filled in. */
  predicate DespesaReady(f: DespesaForm): (b: bool)
    ensures b ==> f.data.Some? && f.valor.Some? && f.categoriaId.Some?
    ensures f.valor == Some(0.0) ==> !b
  {
    Filled(f.data) && Nonzero(f.valor) && Filled(f.categoriaId)
  }

  /** `Number(novaDespesa.parcelas) || 1`. */
  function ParcelasOf(o: Option<int>): (n: int)
    ensures n != 0
    ensures o.Some? && o.value != 0 ==> n == o.value
    ensures !(o.Some? && o.value != 0) ==> n == 1
  {
    if o.Some? && o.value != 0 then o.value else 1
  }

  function NewDespesa(f: DespesaForm, id: string): (d: Despesa)
    requires DespesaReady(f)
    ensures d.valor != 0.0 && d.forma != "" && d.parcelas != 0 && d.vencimento == f.vencimento
    ensures d.pago <==> f.pago == Some(true)
  {
    Despesa(id, f.data.value, OrText(f.descricao, ""), f.valor.value, f.categoriaId.value,
      OrText(f.forma, "Cartão"), ParcelasOf(f.parcelas), f.vencimento, f.pago == Some(true), f.obs, f.cartao)
  }

  datatype ItemForm = ItemForm(
    data: Option<string>, estabelecimento: Option<string>, item: Option<string>, quantidade: Option<real>,
    valorUnit: Option<real>, valorTotal: Option<real>, categoriaId: Option<string>, forma: Option<string>,
    notaUrl: Option<string>, compraId: Option<string>)

  /** The guard of `addItem`: date, shop, item and category are filled in. */
  predicate ItemReady(f: ItemForm): (b: bool)
    ensures b ==> f.data.Some? && f.estabelecimento.Some? && f.item.Some? && f.categoriaId.Some?
    ensures b ==> f.data.value != "" && f.item.value != ""
  {
    Filled(f.data) && Filled(f.estabelecimento) && Filled(f.item) && Filled(f.categoriaId)
  }

  /**
   * `valorTotal || (valorUnit || 0) * (quantidade || 1)`: a given total wins;
   * otherwise the unit price times the quantity, which defaults to one. The
   * item is worth something exactly when a total or a unit price is given.
   */
  function ItemTotal(f: ItemForm): (t: real)
    ensures Nonzero(f.valorTotal) ==> t == f.valorTotal.value
    ensures !Nonzero(f.valorTotal) ==> t == OrNumber(f.valorUnit, 0.0) * OrNumber(f.quantidade, 1.0)
    ensures !Nonzero(f.valorTotal) && !Nonzero(f.quantidade) ==> t == OrNumber(f.valorUnit, 0.0)
    ensures t != 0.0 <==> Nonzero(f.valorTotal) || Nonzero(f.valorUnit)
  {
    OrNumber(f.valorTotal, OrNumber(f.valorUnit, 0.0) * OrNumber(f.quantidade, 1.0))
  }

  /** The item record; `id` and `novaCompra` stand for two fresh identifiers. */
  function NewItem(f: ItemForm, id: string, novaCompra: string): (c: CompraItem)
    requires ItemReady(f)
    ensures c.quantidade != 0.0 && c.forma != ""
    ensures c.compraId == if Filled(f.compraId) then f.compraId.value else novaCompra
  {
    CompraItem(id, f.data.value, f.estabelecimento.value, f.item.value, OrNumber(f.quantidade, 1.0),
      OrNumber(f.valorUnit, 0.0), ItemTotal(f), f.categoriaId.value, OrText(f.forma, "Cartão"), f.notaUrl,
      OrText(f.compraId, novaCompra))
  }

  datatype PlanoForm = PlanoForm(
    mes: Option<string>, receitaPrevista: Option<real>, despesaPrevista: Option<real>, comentarios: Option<string>)

  /** The plan record of a form whose month is filled in; missing amounts are 0. */
  function NewPlano(f: PlanoForm): (p: Planejamento)
    requires Filled(f.mes)
    ensures p.mes == f.mes.value
  {
    Planejamento(f.mes.value, OrNumber(f.receitaPrevista, 0.0), OrNumber(f.despesaPrevista, 0.0), f.comentarios)
  }

  // ---------------------------------------------------------------------------
  // The plan upsert

  /** `prev.filter(p => p.mes !== mes)`. */
  function Without(ps: seq<Planejamento>, mes: string): (r: seq<Planejamento>)
    ensures |r| <= |ps|
  {
    if ps == [] then []
    else Without(ps[..|ps| - 1], mes) + (if ps[|ps| - 1].mes != mes then [ps[|ps| - 1]] else [])
  }

  /** The plans for month `mes`, in list order. */
  function WithKey(ps: seq<Planejamento>, mes: string): seq<Planejamento>
  {
    if ps == [] then []
    else WithKey(ps[..|ps| - 1], mes) + (if ps[|ps| - 1].mes == mes then [ps[|ps| - 1]] else [])
  }

  /** `[...prev.filter(p => p.mes !== novo.mes), novo]`: the new plan is in the list, which grows by at most one. */
  function Upsert(ps: seq<Planejamento>, p: Planejamento): (r: seq<Planejamento>)
    ensures p in r && |r| <= |ps| + 1
  {
    Without(ps, p.mes) + [p]
  }

  /** The upsert invents no plan: every plan in it but the new one is an old plan of another month. */
  lemma UpsertFrom(ps: seq<Planejamento>, p: Planejamento, q: Planejamento)
    requires q in Upsert(ps, p)
    ensures q == p || (q in ps && q.mes != p.mes)
  {
    if q != p {
      WithoutFrom(ps, p.mes, q);
    }
  }

  lemma {:induction false} WithoutFrom(ps: seq<Planejamento>, mes: string, q: Planejamento)
    requires q in Without(ps, mes)
    ensures q in ps && q.mes != mes
  {
    var r, c := ps[..|ps| - 1], ps[|ps| - 1];
    if q in Without(r, mes) {
      WithoutFrom(r, mes, q);
      assert q in ps by {
        assert ps == r + [c];
      }
    }
  }

  /** No two plans share a month. */
  predicate UniqueMonths(ps: seq<Planejamento>)
  {
    forall i, j :: 0 <= i < |ps| && 0 <= j < |ps| && ps[i].mes == ps[j].mes ==> i == j
  }

  lemma {:induction false} WithoutAppend(a: seq<Planejamento>, b: seq<Planejamento>, mes: string)
    ensures Without(a + b, mes) == Without(a, mes) + Without(b, mes)
    decreases |b|
  {
    if b == [] {
      assert a + b == a;
    } else {
      var c := b[|b| - 1];
      assert (a + b)[..|a + b| - 1] == a + b[..|b| - 1];
      WithoutAppend(a, b[..|b| - 1], mes);
    }
  }

  lemma {:induction false} WithKeyAppend(a: seq<Planejamento>, b: seq<Planejamento>, mes: string)
    ensures WithKey(a + b, mes) == WithKey(a, mes) + WithKey(b, mes)
    decreases |b|
  {
    if b == [] {
      assert a + b == a;
    } else {
      assert (a + b)[..|a + b| - 1] == a + b[..|b| - 1];
      WithKeyAppend(a, b[..|b| - 1], mes);
    }
  }

  /** Filtering a month out leaves no plan of that month and every other plan as it was. */
  lemma {:induction false} WithoutKeys(ps: seq<Planejamento>, mes: string, m: string)
    ensures WithKey(Without(ps, mes), m) == if m == mes then [] else WithKey(ps, m)
  {
    if ps != [] {
      var q, c := ps[..|ps| - 1], ps[|ps| - 1];
      WithoutKeys(q, mes, m);
      var tail := if c.mes != mes then [c] else [];
      WithKeyAppend(Without(q, mes), tail, m);
      assert WithKey(tail, m) == if c.mes != mes && c.mes == m then [c] else [] by {
        if tail != [] {
          assert tail[..0] == [];
        }
      }
    }
  }

  /** One singleton's plans for a month. */
  lemma WithKeySingle(p: Planejamento, m: string)
    ensures WithKey([p], m) == if p.mes == m then [p] else []
  {
    assert [p][..0] == [];
  }

  /** After the upsert, the new plan is the only one of its month. */
  lemma UpsertKeyed(ps: seq<Planejamento>, p: Planejamento)
    ensures WithKey(Upsert(ps, p), p.mes) == [p]
  {
    WithKeyAppend(Without(ps, p.mes), [p], p.mes);
    WithoutKeys(ps, p.mes, p.mes);
    WithKeySingle(p, p.mes);
  }

  /** Every other month keeps exactly its plans, in their order. */
  lemma UpsertKeepsOtherMonths(ps: seq<Planejamento>, p: Planejamento, m: string)
    requires m != p.mes
    ensures WithKey(Upsert(ps, p), m) == WithKey(ps, m)
  {
    WithKeyAppend(Without(ps, p.mes), [p], m);
    WithoutKeys(ps, p.mes, m);
    WithKeySingle(p, m);
  }

  /** The plans of other months keep their relative order. */
  lemma {:induction false} WithoutOrder(ps: seq<Planejamento>, mes: string)
    ensures IsSubsequence(Without(ps, mes), ps)
  {
    if ps != [] {
      var q, c := ps[..|ps| - 1], ps[|ps| - 1];
      WithoutOrder(q, mes);
      assert ps == q + [c];
      SubsequenceStep(Without(q, mes), q, c, c.mes != mes);
    }
  }

  /** The upsert's effect on a list with unique months, as `addPlano` promises it. */
  lemma UpsertSpec(ps: seq<Planejamento>, p: Planejamento)
    requires UniqueMonths(ps)
    ensures UniqueMonths(Upsert(ps, p))
    ensures WithKey(Upsert(ps, p), p.mes) == [p]
    ensures forall m :: m != p.mes ==> WithKey(Upsert(ps, p), m) == WithKey(ps, m)
  {
    UpsertUnique(ps, p);
    UpsertKeyed(ps, p);
    forall m | m != p.mes ensures WithKey(Upsert(ps, p), m) == WithKey(ps, m) {
      UpsertKeepsOtherMonths(ps, p, m);
    }
  }

  /** Saving the same month twice keeps only the second plan. */
  lemma UpsertLastWins(ps: seq<Planejamento>, p: Planejamento, q: Planejamento)
    requires p.mes == q.mes
    ensures Upsert(Upsert(ps, p), q) == Upsert(ps, q)
  {
    WithoutAppend(Without(ps, p.mes), [p], p.mes);
    WithoutTwice(ps, p.mes);
    assert Without([p], p.mes) == [] by {
      assert [p][..0] == [];
    }
  }

  lemma {:induction false} WithoutTwice(ps: seq<Planejamento>, mes: string)
    ensures Without(Without(ps, mes), mes) == Without(ps, mes)
  {
    if ps != [] {
      var q, c := ps[..|ps| - 1], ps[|ps| - 1];
      WithoutTwice(q, mes);
      var tail := if c.mes != mes then [c] else [];
      WithoutAppend(Without(q, mes), tail, mes);
      if tail != [] {
        assert tail[..0] == [];
      }
    }
  }

  /** A month has at most one plan exactly when every month's plans number at most one. */
  lemma {:induction false} UniqueMonthsByKey(ps: seq<Planejamento>)
    requires forall m :: |WithKey(ps, m)| <= 1
    ensures UniqueMonths(ps)
  {
    if ps != [] {
      var q, c := ps[..|ps| - 1], ps[|ps| - 1];
      forall m ensures |WithKey(q, m)| <= 1 {
        assert WithKey(ps, m) == WithKey(q, m) + (if c.mes == m then [c] else []);
        assert |WithKey(ps, m)| <= 1;
      }
      UniqueMonthsByKey(q);
      forall i | 0 <= i < |q| ensures q[i].mes != c.mes {
        WithKeyHas(q, i);
        assert WithKey(ps, q[i].mes) == WithKey(q, q[i].mes) + (if c.mes == q[i].mes then [c] else []);
        assert |WithKey(ps, q[i].mes)| <= 1;
      }
      assert ps == q + [c];
      UniqueAppend(q, c);
    }
  }

  lemma UniqueAppend(q: seq<Planejamento>, c: Planejamento)
    requires UniqueMonths(q) && forall i :: 0 <= i < |q| ==> q[i].mes != c.mes
    ensures UniqueMonths(q + [c])
  {
  }

  /** A plan at position `i` shows up among the plans of its month. */
  lemma {:induction false} WithKeyHas(ps: seq<Planejamento>, i: int)
    requires 0 <= i < |ps|
    ensures |WithKey(ps, ps[i].mes)| >= 1
  {
    var q := ps[..|ps| - 1];
    if i < |q| {
      assert q[i] == ps[i];
      WithKeyHas(q, i);
    }
  }

  /** The upsert keeps months unique. */
  lemma UpsertUnique(ps: seq<Planejamento>, p: Planejamento)
    requires UniqueMonths(ps)
    ensures UniqueMonths(Upsert(ps, p))
  {
    forall m ensures |WithKey(Upsert(ps, p), m)| <= 1 {
      if m == p.mes {
        UpsertKeyed(ps, p);
      } else {
        UpsertKeepsOtherMonths(ps, p, m);
        UniqueAtMostOne(ps, m);
      }
    }
    UniqueMonthsByKey(Upsert(ps, p));
  }

  /** With unique months, a month has at most one plan. */
  lemma {:induction false} UniqueAtMostOne(ps: seq<Planejamento>, m: string)
    requires UniqueMonths(ps)
    ensures |WithKey(ps, m)| <= 1
  {
    if ps != [] {
      var q, c := ps[..|ps| - 1], ps[|ps| - 1];
      assert UniqueMonths(q);
      UniqueAtMostOne(q, m);
      if c.mes == m && |WithKey(q, m)| == 1 {
        var i := WithKeyIndex(q, m);
        assert false;
      }
    }
  }

  /** A month with a plan has it at some position. */
  lemma {:induction false} WithKeyIndex(ps: seq<Planejamento>, m: string) returns (i: int)
    requires |WithKey(ps, m)| >= 1
    ensures 0 <= i < |ps| && ps[i].mes == m
  {
    var q, c := ps[..|ps| - 1], ps[|ps| - 1];
    if c.mes == m {
      i := |ps| - 1;
    } else {
      i := WithKeyIndex(q, m);
      assert q[i] == ps[i];
    }
  }

  // ---------------------------------------------------------------------------
  // Properties of the new records

  /** An expense entered with the default payment form shows up on the card statements. */
  lemma DefaultFormIsCard(f: DespesaForm, id: string)
    requires DespesaReady(f) && !Filled(f.forma)
    ensures PaidByCard(NewDespesa(f, id))
  {
    PaymentFormExamples(NewDespesa(f, id), NewDespesa(f, id).(forma := "Pix"));
  }

  /** An expense entered without an installment count is a single part in its due month. */
  lemma DefaultInstallments(f: DespesaForm, id: string)
    requires DespesaReady(f) && (f.parcelas.None? || f.parcelas == Some(0))
    ensures Allocation(NewDespesa(f, id)) == [Parte(MonthOf(f.vencimento), f.valor.value, f.cartao)]
  {
    SingleInstallment(NewDespesa(f, id));
  }

  /** Without a total, an item is worth unit price times quantity, the quantity defaulting to one. */
  /** An item naming an existing purchase joins that purchase's group, at its end. */
  lemma ItemJoinsPurchase(cs: seq<CompraItem>, f: ItemForm, id: string, novaCompra: string)
    requires ItemReady(f) && Filled(f.compraId)
    ensures ItemsOf(cs + [NewItem(f, id, novaCompra)], f.compraId.value) == ItemsOf(cs, f.compraId.value) + [NewItem(f, id, novaCompra)]
  {
    assert (cs + [NewItem(f, id, novaCompra)])[..|cs|] == cs;
  }

  // ---------------------------------------------------------------------------
  // Quick add

  datatype QuickType = Income | Expense | Purchase

  /** What the quick-add dialog submits; its date input holds a calendar day. */
  datatype QuickPayload = QuickPayload(
    tipo: QuickType, date: CalendarDay, description: string, amount: real,
    categoryId: Option<string>, paymentMethod: Option<string>)

  /** The quick income lands in the month of its date and has a category exactly when one was chosen. */
  function QuickReceita(p: QuickPayload, id: string): (r: Receita)
    ensures MonthKey(r.data) == MonthText(MonthOf(p.date))
    ensures r.categoriaId != "" <==> Filled(p.categoryId)
  {
    MonthKeyOfIsoDate(p.date);
    Receita(id, IsoDate(p.date), p.description, p.amount, OrText(p.categoryId, ""), Some("Quick Add"))
  }

  /** The quick expense is dated and due in the month of its date, unpaid, in one installment, with a payment form. */
  function QuickDespesa(p: QuickPayload, id: string): (d: Despesa)
    ensures MonthKey(d.data) == MonthText(MonthOf(d.vencimento)) && d.vencimento == p.date
    ensures InstallmentCount(d.parcelas) == 1 && !d.pago && d.forma != ""
  {
    MonthKeyOfIsoDate(p.date);
    Despesa(id, IsoDate(p.date), p.description, p.amount, OrText(p.categoryId, ""),
      OrText(p.paymentMethod, "Cartão"), 1, p.date, false, Some("Quick Add"), None)
  }

  /** A quick expense is one unpaid part, due in the month of its date. */
  lemma QuickExpenseSinglePart(p: QuickPayload, id: string)
    ensures Allocation(QuickDespesa(p, id)) == [Parte(MonthOf(p.date), p.amount, None)]
    ensures !QuickDespesa(p, id).pago
  {
    SingleInstallment(QuickDespesa(p, id));
  }

  // ---------------------------------------------------------------------------
  // The page state

  class Ledger {
    var categorias: seq<Categoria>
    var receitas: seq<Receita>
    var despesas: seq<Despesa>
    var compras: seq<CompraItem>
    var planejamento: seq<Planejamento>

    /** Every month has at most one plan. */
    ghost predicate Valid()
      reads this
    {
      UniqueMonths(planejamento)
    }

    /** The page's initial state: the default categories and empty lists. */
    constructor ()
      ensures Valid()
      ensures categorias == DefaultCategorias
      ensures receitas == [] && despesas == [] && compras == [] && planejamento == []
    {
      categorias := DefaultCategorias;
      receitas := [];
      despesas := [];
      compras := [];
      planejamento := [];
    }

    /** `addReceita`: appends the income when the form is complete, otherwise changes nothing. */
    method AddReceita(f: ReceitaForm, id: string) returns (added: bool)
      requires Valid()
      modifies this
      ensures Valid()
      ensures added <==> ReceitaReady(f)
      ensures receitas == if added then old(receitas) + [NewReceita(f, id)] else old(receitas)
      ensures categorias == old(categorias) && despesas == old(despesas)
      ensures compras == old(compras) && planejamento == old(planejamento)
    {
      added := Filled(f.data) && Nonzero(f.valor) && Filled(f.categoriaId);
      if added {
        receitas := receitas + [NewReceita(f, id)];
      }
    }

    /** `addDespesa`: appends the expense when the form is complete, otherwise changes nothing. */
    method AddDespesa(f: DespesaForm, id: string) returns (added: bool)
      requires Valid()
      modifies this
      ensures Valid()
      ensures added <==> DespesaReady(f)
      ensures despesas == if added then old(despesas) + [NewDespesa(f, id)] else old(despesas)
      ensures categorias == old(categorias) && receitas == old(receitas)
      ensures compras == old(compras) && planejamento == old(planejamento)
    {
      added := Filled(f.data) && Nonzero(f.valor) && Filled(f.categoriaId);
      if added {
        despesas := despesas + [NewDespesa(f, id)];
      }
    }

    /** `addItem`: appends the purchase item when the form is complete, otherwise changes nothing. */
    method AddItem(f: ItemForm, id: string, novaCompra: string) returns (added: bool)
      requires Valid()
      modifies this
      ensures Valid()
      ensures added <==> ItemReady(f)
      ensures compras == if added then old(compras) + [NewItem(f, id, novaCompra)] else old(compras)
      ensures categorias == old(categorias) && receitas == old(receitas)
      ensures despesas == old(despesas) && planejamento == old(planejamento)
    {
      added := Filled(f.data) && Filled(f.estabelecimento) && Filled(f.item) && Filled(f.categoriaId);
      if added {
        compras := compras + [NewItem(f, id, novaCompra)];
      }
    }

    /** `addPlano`: replaces the plan of the form's month, when a month is chosen. */
    method AddPlano(f: PlanoForm) returns (saved: bool)
      requires Valid()
      modifies this
      ensures Valid()
      ensures saved <==> Filled(f.mes)
      ensures planejamento == if saved then Upsert(old(planejamento), NewPlano(f)) else old(planejamento)
      ensures saved ==> WithKey(planejamento, f.mes.value) == [NewPlano(f)]
      ensures saved ==> forall m :: m != f.mes.value ==> WithKey(planejamento, m) == WithKey(old(planejamento), m)
      ensures categorias == old(categorias) && receitas == old(receitas)
      ensures despesas == old(despesas) && compras == old(compras)
    {
      saved := Filled(f.mes);
      if saved {
        var p := NewPlano(f);
        UpsertSpec(planejamento, p);
        planejamento := Upsert(planejamento, p);
      }
    }

    /** `handleQuickAddSubmit`, local part: an income or an expense is appended; a purchase adds nothing here. */
    method QuickAdd(p: QuickPayload, id: string)
      requires Valid()
      modifies this
      ensures Valid()
      ensures receitas == if p.tipo == Income then old(receitas) + [QuickReceita(p, id)] else old(receitas)
      ensures despesas == if p.tipo == Expense then old(despesas) + [QuickDespesa(p, id)] else old(despesas)
      ensures categorias == old(categorias) && compras == old(compras) && planejamento == old(planejamento)
    {
      if p.tipo == Income {
        receitas := receitas + [QuickReceita(p, id)];
      } else if p.tipo == Expense {
        despesas := despesas + [QuickDespesa(p, id)];
      }
    }
  }
}
