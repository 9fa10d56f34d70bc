/**
 * The installment allocator `parcelasPorMes`: an expense of `valor` in
 * `parcelas` installments becomes `n = max(1, parcelas)` parts, part `i`
 * tagged with the due date's month advanced by `i` months, each of
 * `valor / n`, each carrying the expense's card.
 *
 * Months are advanced by year-month arithmetic (`AddMonths`). The source
 * advances a whole date with `setMonth`, which keeps the day of the month;
 * `AsWrittenMonth` models that and `AsWrittenSkipsFebruary` shows where the
 * two part ways.
 */
module Installments {
  import opened Wrappers
  import opened Calendar
  import opened IsoText
  import opened Records

  /** One month's share of an expense: `{ mes, valor, cartao }`. */
  datatype Parte = Parte(mes: Month, valor: real, cartao: Option<string>)

  /** `Math.max(1, d.parcelas || 1)`. */
  function InstallmentCount(parcelas: int): (n: nat)
    ensures n >= 1 && n >= parcelas
    ensures parcelas >= 1 ==> n == parcelas
    ensures parcelas < 1 ==> n == 1
  {
    if parcelas >= 1 then parcelas else 1
  }

  /** The amount of one part: `d.valor / Math.max(1, d.parcelas || 1)`. */
  function Share(d: Despesa): real
  {
    d.valor / InstallmentCount(d.parcelas) as real
  }

  /** What `parcelasPorMes(d)` returns. */
  function Allocation(d: Despesa): (ps: seq<Parte>)
    ensures |ps| == InstallmentCount(d.parcelas)
  {
    var n := InstallmentCount(d.parcelas);
    seq(n, i requires 0 <= i < n => Parte(AddMonths(MonthOf(d.vencimento), i), Share(d), d.cartao))
  }

  /** `parcelasPorMes`: the loop pushing one part per installment. */
  method ParcelasPorMes(d: Despesa) returns (partes: seq<Parte>)
    ensures partes == Allocation(d)
  {
    var n := InstallmentCount(d.parcelas);
    var primeira := MonthOf(d.vencimento);
    partes := [];
    var i := 0;
    while i < n
      invariant 0 <= i <= n
      invariant partes == Allocation(d)[..i]
    {
      partes := partes + [Parte(AddMonths(primeira, i), d.valor / n as real, d.cartao)];
      i := i + 1;
    }
  }

  /** Sum of the parts' amounts. */
  function TotalValor(ps: seq<Parte>): real
  {
    if ps == [] then 0.0 else TotalValor(ps[..|ps| - 1]) + ps[|ps| - 1].valor
  }

  lemma {:induction false} EqualShares(ps: seq<Parte>, x: real)
    requires forall i :: 0 <= i < |ps| ==> ps[i].valor == x
    ensures TotalValor(ps) == |ps| as real * x
  {
    if ps != [] {
      EqualShares(ps[..|ps| - 1], x);
    }
  }

  /** Every part has amount `valor / n` and the expense's card. */
  lemma AllocationParts(d: Despesa, i: int)
    requires 0 <= i < InstallmentCount(d.parcelas)
    ensures Allocation(d)[i].valor == Share(d)
    ensures Allocation(d)[i].cartao == d.cartao
    ensures Allocation(d)[i].mes == AddMonths(MonthOf(d.vencimento), i)
  {
  }

  /** Over exact arithmetic the parts add up to the expense's total. */
  lemma AllocationSumsToTotal(d: Despesa)
    ensures TotalValor(Allocation(d)) == d.valor
  {
    EqualShares(Allocation(d), Share(d));
    ShareTimesCount(d);
  }

  /**
   * `n` shares make up the whole amount; with at most one installment the
   * share is the amount, and a non-negative amount gives shares between 0 and
   * the amount.
   */
  lemma ShareTimesCount(d: Despesa)
    ensures InstallmentCount(d.parcelas) as real * Share(d) == d.valor
    ensures d.parcelas <= 1 ==> Share(d) == d.valor
    ensures d.valor >= 0.0 ==> 0.0 <= Share(d) <= d.valor
  {
  }

  /** The first part falls in the due date's month and each next part in the following month. */
  lemma AllocationMonths(d: Despesa)
    ensures Allocation(d)[0].mes == MonthOf(d.vencimento)
    ensures forall i :: 0 <= i < |Allocation(d)| - 1 ==> Allocation(d)[i + 1].mes == Next(Allocation(d)[i].mes)
  {
    AddMonthsZero(MonthOf(d.vencimento));
    forall i | 0 <= i < |Allocation(d)| - 1
      ensures Allocation(d)[i + 1].mes == Next(Allocation(d)[i].mes)
    {
      AddMonthsNext(MonthOf(d.vencimento), i);
    }
  }

  /** A single installment (or a count below one) is one part worth the whole amount, in the due month. */
  lemma SingleInstallment(d: Despesa)
    requires d.parcelas <= 1
    ensures Allocation(d) == [Parte(MonthOf(d.vencimento), d.valor, d.cartao)]
  {
    AddMonthsZero(MonthOf(d.vencimento));
    var ps := Allocation(d);
    assert InstallmentCount(d.parcelas) == 1;
    assert ps[0].valor == d.valor / 1.0 == d.valor;
    assert ps == [ps[0]];
  }

  /** 1200.00 due 2024-01-15 in 3 installments: 400.00 in each of 2024-01, 2024-02, 2024-03. */
  lemma ThreeInstallmentsExample(d: Despesa)
    requires d.valor == 1200.0 && d.parcelas == 3 && d.vencimento == Day(2024, 1, 15)
    ensures Allocation(d) == [
      Parte(Month(2024, 1), 400.0, d.cartao), Parte(Month(2024, 2), 400.0, d.cartao), Parte(Month(2024, 3), 400.0, d.cartao)]
  {
    var ps := Allocation(d);
    AllocationParts(d, 0);
    AllocationParts(d, 1);
    AllocationParts(d, 2);
    AddMonthsZero(Month(2024, 1));
    IndexInjective(AddMonths(Month(2024, 1), 1), Month(2024, 2));
    IndexInjective(AddMonths(Month(2024, 1), 2), Month(2024, 3));
  }

  // ---------------------------------------------------------------------------
  // The source's date arithmetic, on a host whose local time zone is UTC

  /**
   * The month of `primeira.setMonth(primeira.getMonth() + i)` for due day `v`:
   * the day of the month is kept, so a day past the end of the target month
   * runs into the month after it.
   */
  function AsWrittenMonth(v: CalendarDay, i: int): (r: Month)
    ensures r == AddMonths(MonthOf(v), i) || r == Next(AddMonths(MonthOf(v), i))
    ensures v.day <= 28 ==> r == AddMonths(MonthOf(v), i)
  {
    var t := AddMonths(MonthOf(v), i);
    if v.day > DaysInMonth(t) then Next(t) else t
  }

  /** The parts as the source computes them. */
  function AllocationAsWritten(d: Despesa): (ps: seq<Parte>)
    ensures |ps| == InstallmentCount(d.parcelas)
  {
    var n := InstallmentCount(d.parcelas);
    seq(n, i requires 0 <= i < n => Parte(AsWrittenMonth(d.vencimento, i), Share(d), d.cartao))
  }

  /** `AsWrittenMonth` is the month holding the day that ECMAScript `MakeDay` gives for the shifted date. */
  lemma AsWrittenMonthHoldsShiftedDay(v: CalendarDay, i: int)
    ensures var r := AsWrittenMonth(v, i);
      MonthStart(r) <= MakeDay(v.year, v.month - 1 + i, v.day) < MonthStart(Next(r))
  {
    var t := AddMonths(MonthOf(v), i);
    IndexInjective(AddMonths(Month(v.year, 1), v.month - 1 + i), t);
    MonthStartNext(t);
    if v.day > DaysInMonth(t) {
      MonthStartNext(Next(t));
    }
  }

  /** A part is dropped from February: due 2024-01-31 in two installments lands in January and March. */
  lemma AsWrittenSkipsFebruary(d: Despesa)
    requires d.vencimento == Day(2024, 1, 31) && d.parcelas == 2
    ensures [AllocationAsWritten(d)[0].mes, AllocationAsWritten(d)[1].mes] == [Month(2024, 1), Month(2024, 3)]
    ensures [Allocation(d)[0].mes, Allocation(d)[1].mes] == [Month(2024, 1), Month(2024, 2)]
  {
    AllocationParts(d, 0);
    AllocationParts(d, 1);
    AddMonthsZero(Month(2024, 1));
    IndexInjective(AddMonths(Month(2024, 1), 1), Month(2024, 2));
    IndexInjective(Next(Month(2024, 2)), Month(2024, 3));
    assert AllocationAsWritten(d)[0].mes == AsWrittenMonth(d.vencimento, 0);
    assert AllocationAsWritten(d)[1].mes == AsWrittenMonth(d.vencimento, 1);
  }

  /** The two computations agree whenever the due day exists in every target month. */
  lemma AsWrittenAgreesUpToDay28(d: Despesa)
    requires d.vencimento.day <= 28
    ensures AllocationAsWritten(d) == Allocation(d)
  {
  }
}
