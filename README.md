# Personal finance dashboard — a Dafny model of its bookkeeping

The dashboard keeps five in-memory lists: categories, incomes (`Receita`), expenses (`Despesa`), purchase items (`CompraItem`) and monthly plans (`Planejamento`). Everything else on the page is computed from them.

- **Allocator.** `parcelasPorMes` spreads an expense over its installments, one part per month.
- **Monthly cards.** The current month's income, expense and balance, where expenses count through their parts.
- **Year series.** Twelve per-month totals, which feed the bar chart.
- **Category breakdown.** One pie slice per expense category with a positive total, in category order.
- **Concentration alert.** Flags categories holding strictly more than 35% of the month's spending.
- **Card statements.** One row per installment of every expense paid by card.
- **Purchase groups.** Items grouped by `compraId`, each group with a total.
- **Due-date flags.** Overdue and due soon.
- **Plan table.** Forecast against actual.
- **Form handlers.** They guard their required fields and append one record. `addPlano` is an upsert keyed by month.
- **Transaction service.** `monthRange` turns a `YYYY-MM` key into a half-open UTC window.

Modules:

| file | module | what it holds |
|---|---|---|
| `wrappers.dfy` | `Wrappers` | `Option` |
| `calendar.dfy` | `Calendar` | Year-month values and `AddMonths` (ECMAScript `MakeDay` month normalisation). Also the proleptic Gregorian day count of ECMAScript time values. |
| `isotext.dfy` | `IsoText` | Decimal text, `toISOString`'s date part, the `slice(0, 7)` month key, the template-literal key of the current month. Also JavaScript `<` on strings, `toLowerCase`, `includes`. |
| `sequences.dfy` | `Sequences` | Order-preserving subsequences, distinctness. |
| `records.dfy` | `Records` | The five record types and the initial categories. |
| `allocation.dfy` | `Installments` | `parcelasPorMes` as a loop, proved against the function `Allocation`. |
| `aggregates.dfy` | `Dashboard` | Month totals, the year-series loop, category breakdown, alert, due flags, plan rows. |
| `statements.dfy` | `Statements` | Card statements (two nested loops) and the `comprasPorCompra` grouping loop. |
| `ledger.dfy` | `Ledger` | The page state as a class with the `add*` handlers and the local quick-add effect. Also the plan upsert and its lemmas. |
| `transactions.dfy` | `Transactions` | `monthRange` and the `[start, end)` selection. |

Modelling choices:

- **Money.** Amounts are exact `real`s, so "the parts add up to the amount" is a theorem.
- **Month keys.** They are strings, as in the source.
  - An allocation part carries a `Month`. It is compared through `MonthText`, the key `monthKey(date.toISOString())` yields.
  - The current month's key `CurrentKey` is the template literal. Its year is not padded.
  - `CurrentKey` and `MonthText` agree for years 1000..9999.
- **Due date.** An expense's due date is a calendar day, because the allocator parses it. All other dates stay strings.
- **Inputs from the environment.** "Now", the current year and month, and the fresh identifiers of `crypto.randomUUID()` are parameters.
- **Allocation months.** The code advances a whole date with `setMonth`, which keeps the day of the month. The model advances the year-month instead (see "Findings"). The as-written behaviour is modelled beside it.

## Model

| member | source | states |
|---|---|---|
| IsoText.MonthKey | src/pages/Index.tsx:25 | `slice(0, 7)`: the key is the first seven characters of the text, or the whole text when it is shorter |
| IsoText.CurrentKey | src/pages/Index.tsx:77 | the current-month key is the year as `String` renders it, `-`, and the month in exactly two digits |
| IsoText.MonthKeyOfIsoDate | src/pages/Index.tsx:25 | `monthKey` of a day's ISO text is the key of that day's month |
| IsoText.CurrentKeyIsMonthText | src/pages/Index.tsx:77 | the current-month key agrees with `monthKey(toISOString())` for four-digit years |
| IsoText.CurrentKeyInjective | src/pages/Index.tsx:99 | distinct months of four-digit years get distinct template keys |
| IsoText.MonthTextMatch | src/pages/Index.tsx:93 | a part's month key equals a month's key exactly when the months are equal |
| IsoText.IsoDateOrder | src/pages/Index.tsx:404 | string `<` on ISO dates of years 0..9999 is exactly chronological order |
| Installments.Allocation | src/pages/Index.tsx:80-89 | the reference allocation has exactly one part per installment (its parts are described by the lemmas below) |
| Installments.ParcelasPorMes | src/pages/Index.tsx:80-89 | the loop returns exactly `Allocation(d)` |
| Installments.InstallmentCount | src/pages/Index.tsx:83 | `Math.max(1, parcelas \|\| 1)`: the count is at least 1 and at least `parcelas`; it is `parcelas` when that is positive and 1 otherwise |
| Installments.AllocationParts | src/pages/Index.tsx:84-86 | part `i` has amount `valor / n`, the expense's card, and the due month advanced by `i` |
| Installments.AllocationSumsToTotal | src/pages/Index.tsx:83-86 | the parts' amounts add up to the expense's amount |
| Installments.AllocationMonths | src/pages/Index.tsx:82-86 | the first part falls in the due month, and each next part falls in the following month |
| Installments.SingleInstallment | src/pages/Index.tsx:83-86 | with at most one installment, the allocation is one part worth the whole amount in the due month |
| Installments.ThreeInstallmentsExample | src/pages/Index.tsx:80-89 | 1200 in 3 installments from 2024-01-15 gives 400 in each of 2024-01, 2024-02 and 2024-03 |
| Installments.ShareTimesCount | src/pages/Index.tsx:86 | `n` shares make up the amount; with at most one installment the share is the amount; a non-negative amount gives shares between 0 and the amount |
| Installments.AsWrittenMonth | src/pages/Index.tsx:84-85 | `setMonth` lands in the target month or the one after, and in the target month whenever the due day is at most 28 |
| Installments.AllocationAsWritten | src/pages/Index.tsx:84-86 | the month sequence `setMonth` produces, keeping the day of the month; as many parts as the count |
| Installments.AsWrittenMonthHoldsShiftedDay | src/pages/Index.tsx:85 | the as-written month is the one holding day `day` of the shifted month, whose overflow runs into later months |
| Installments.AsWrittenSkipsFebruary | src/pages/Index.tsx:85 | due 2024-01-31 in 2 installments: as written, the parts fall in January and March; the model's fall in January and February |
| Installments.AsWrittenAgreesUpToDay28 | src/pages/Index.tsx:84-86 | for due days up to 28 the as-written and the modelled allocations coincide |
| Dashboard.IncomeTotal | src/pages/Index.tsx:92 | the month's income total is 0 when no income's key matches |
| Dashboard.IncomeAppend | src/pages/Index.tsx:92 | the income total of a concatenation is the sum of the totals |
| Dashboard.IncomeCountsInItsMonth | src/pages/Index.tsx:92 | appending an income adds its amount to its own month's total and to no other month's |
| Dashboard.PartsIn | src/pages/Index.tsx:93 | the sum of the parts of a month is 0 when no part falls in it |
| Dashboard.ExpenseTotal | src/pages/Index.tsx:93 | the month's expense total is 0 when no part of any expense falls in the month |
| Dashboard.ExpenseAppend | src/pages/Index.tsx:93 | the expense total of a concatenation is the sum of the totals |
| Dashboard.ExpenseSpread | src/pages/Index.tsx:93 | one expense contributes `valor / n` to each of its `n` consecutive months and nothing elsewhere |
| Dashboard.MonthSummary | src/pages/Index.tsx:92-94 | the monthly cards: income total, expense total through the allocator, balance = income − expense |
| Dashboard.MonthSummaryExample | src/pages/Index.tsx:92-94 | in 2024-05, an income of 1000 and the second of three installments of 12000 give 1000, 4000 and −3000 |
| Dashboard.YearTotals | src/pages/Index.tsx:96-102 | the loop fills exactly the 12 keys `Y-01`..`Y-12` in order, each with that month's income and expense total |
| Dashboard.YearKeys | src/pages/Index.tsx:98-99 | the first `m` keys of the year, `m` of them |
| Dashboard.YearKeysDistinct | src/pages/Index.tsx:98-99 | the twelve keys of a year are pairwise distinct |
| Dashboard.IncomeSeriesStep | src/pages/Index.tsx:100 | storing the next key's income total keeps every earlier key's total |
| Dashboard.ExpenseSeriesStep | src/pages/Index.tsx:101 | storing the next key's expense total keeps every earlier key's total |
| Dashboard.ChartBars | src/pages/Index.tsx:103 | the chart has one bar per key |
| Dashboard.YearChart | src/pages/Index.tsx:103 | the chart has 12 bars in month order, each carrying its month's label and totals |
| Dashboard.ChartLabelIsMonth | src/pages/Index.tsx:103 | a bar's label `k.slice(5)` is the two-digit month number |
| Dashboard.CategoryTotal | src/pages/Index.tsx:110 | a category with no expense has value 0 |
| Dashboard.OfCategory | src/pages/Index.tsx:110 | the expenses selected for a category all carry its id, and there are no more of them than expenses |
| Dashboard.OfCategoryExact | src/pages/Index.tsx:110 | the selection is exact: it keeps every expense of the category, in the expenses' order |
| Dashboard.CategoryTotalIsExpenseTotal | src/pages/Index.tsx:110 | a category's value is the month's expense total over that category's expenses alone |
| Dashboard.Breakdown | src/pages/Index.tsx:106-113 | every slice is positive; there are no more slices than categories |
| Dashboard.BreakdownSound | src/pages/Index.tsx:106-113 | every slice comes from an expense category and carries that category's total |
| Dashboard.BreakdownComplete | src/pages/Index.tsx:106-113 | every expense category with a positive total has its slice |
| Dashboard.BreakdownOrder | src/pages/Index.tsx:106-113 | the slices keep the categories' order |
| Dashboard.SliceSum | src/pages/Index.tsx:116 | the sum of the slices is never negative when no slice is |
| Dashboard.Excessive | src/pages/Index.tsx:117 | without a positive total nothing is flagged; with one, a slice is flagged exactly when it is strictly more than 35% of the total, so exactly 35% is not |
| Dashboard.ExcessNames | src/pages/Index.tsx:117 | no more flagged names than slices |
| Dashboard.NoTotalNoAlert | src/pages/Index.tsx:117 | with a total ≤ 0 nothing is flagged |
| Dashboard.ExcessOrder | src/pages/Index.tsx:117 | the flagged names are a subsequence of the breakdown's names |
| Dashboard.ExcessSound | src/pages/Index.tsx:117 | every flagged name belongs to a slice over the threshold |
| Dashboard.ExcessComplete | src/pages/Index.tsx:117 | every slice over the threshold is flagged |
| Dashboard.FlaggedBounds | src/pages/Index.tsx:116-117 | the flagged slices' sum lies between 0 and the total; with 1, 2 or 3 flags it exceeds 35%, 70% or 105% of it |
| Dashboard.ExcessCategories | src/pages/Index.tsx:116-117 | the alert over the slices' own sum flags no more names than slices, nothing without spending, and at most two categories when no slice is negative |
| Dashboard.BreakdownAlerts | src/pages/Index.tsx:106-117 | the breakdown's alert flags at most two categories |
| Dashboard.ExcessExample | src/pages/Index.tsx:116-117 | slices of 100 and 50 flag only the first (67% against 33%) |
| Dashboard.DueStatus | src/pages/Index.tsx:403-405 | a paid expense is neither overdue nor due soon; the two flags never hold together |
| Dashboard.OverdueIffBefore | src/pages/Index.tsx:404 | overdue iff unpaid and the due day is before today |
| Dashboard.DueSoonWindow | src/pages/Index.tsx:405 | due soon iff unpaid, not overdue and within 72 hours: due 0–2 days ahead, or 3 days ahead once today's midnight has passed |
| Dashboard.PlanRow | src/pages/Index.tsx:667-671 | forecast balance, actual balance and difference of one plan row |
| Dashboard.PlanMatchesMonth | src/pages/Index.tsx:667-669 | a plan row's actuals are the monthly cards' figures for the plan's key |
| Dashboard.PlanShortfall | src/pages/Index.tsx:671 | a row's difference is negative iff the actual balance falls short of the forecast |
| Dashboard.PlanOfEmptyMonth | src/pages/Index.tsx:667-671 | a month without records has zero actuals and difference = −(forecast balance) |
| Statements.CardLabel | src/pages/Index.tsx:130 | the card label is never empty; a missing card falls back to "Cartão" |
| Statements.PaidByCard | src/pages/Index.tsx:128 | an expense counts as paid by card exactly when "cart" occurs at some position of its lower-cased payment form |
| Statements.FaturaOf | src/pages/Index.tsx:130 | a row takes its part's month and amount and the expense's note, a non-empty card label (the card when given) and an installment count of at least 1 (the expense's when positive) |
| Statements.RowsOf | src/pages/Index.tsx:128-131 | a card expense yields one row per installment, any other expense none |
| Statements.FaturasOf | src/pages/Index.tsx:127-133 | the number of rows is the sum of the card expenses' installment counts |
| Statements.Faturas | src/pages/Index.tsx:125-133 | the nested `forEach`/`push` loops build exactly `FaturasOf(ds)` |
| Statements.FaturaOrigin | src/pages/Index.tsx:128-130 | every row is a part of a card-paid expense |
| Statements.FaturaFields | src/pages/Index.tsx:130 | a row carries the part's month and unsummed amount, `max(1, parcelas)`, the expense's notes, and its card or "Cartão" |
| Statements.FaturaComplete | src/pages/Index.tsx:127-133 | every installment of every card-paid expense has its row |
| Statements.FaturasSkipOthers | src/pages/Index.tsx:128 | expenses not paid by card give no rows |
| Statements.RowsTotal | src/pages/Index.tsx:129-130 | one card expense's rows add up to its amount |
| Statements.FaturasSumToCardSpending | src/pages/Index.tsx:125-133 | the whole table's amounts add up to the card-paid spending |
| Statements.PaymentFormExamples | src/pages/Index.tsx:128 | the default form "Cartão" counts as card; "Pix" does not |
| Statements.ComprasPorCompra | src/pages/Index.tsx:175-179 | the reduce's keys are exactly the purchase ids present; each maps to that purchase's items in insertion order |
| Statements.ItemsOf | src/pages/Index.tsx:177 | a purchase's items all carry its id, and there are no more of them than items |
| Statements.ItemsAbsent | src/pages/Index.tsx:176 | a purchase id with no item has an empty list |
| Statements.ItemsSound | src/pages/Index.tsx:177 | a group holds only items of its own purchase, as a subsequence of the item list |
| Statements.ItemsComplete | src/pages/Index.tsx:177 | every item sits in its purchase's group |
| Statements.GroupsNonEmpty | src/pages/Index.tsx:490-494 | no group is empty, so the heading's `itens[0]` exists |
| Statements.GroupAsWritten | src/pages/Index.tsx:175-179 | the `reduce` into `{}` as written throws exactly when some purchase id names a member inherited from `Object.prototype` |
| Statements.AsWrittenGroups | src/pages/Index.tsx:175-179 | with no such id, the as-written `reduce` yields exactly the groups of `ComprasPorCompra`: one per purchase id, holding that purchase's items in order |
| Statements.PrototypeKeyThrows | src/pages/Index.tsx:176-177 | an item whose purchase id is "toString" makes the `reduce` throw |
| Statements.CompraTotal | src/pages/Index.tsx:490 | a purchase's total is never negative when no item's total is |
| Statements.ItemsTotalStep | src/pages/Index.tsx:491 | a new item adds its value to its own purchase's total and to no other |
| Ledger.OrText | src/pages/Index.tsx:154 | `x \|\| fallback` on strings: the result is one of the operands, the first when it is filled, and it is non-empty exactly when one operand is |
| Ledger.OrNumber | src/pages/Index.tsx:164 | `Number(x) \|\| fallback`: the result is one of the operands, the first when it is non-zero, and it is non-zero exactly when one operand is |
| Ledger.ReceitaReady | src/pages/Index.tsx:153 | the guard lets through only forms whose date, amount and category are present (so the `!` assertions at line 154 hold), and never a zero amount |
| Ledger.NewReceita | src/pages/Index.tsx:154 | a new income has a non-zero amount, a date and a category |
| Ledger.ParcelasOf | src/pages/Index.tsx:159 | `Number(parcelas) \|\| 1`: the stored count is never 0; it keeps a non-zero entry and is 1 for a missing or zero one |
| Ledger.DespesaReady | src/pages/Index.tsx:158 | the guard lets through only forms whose date, amount and category are present, and never a zero amount |
| Ledger.NewDespesa | src/pages/Index.tsx:159 | a new expense has a non-zero amount, a payment form, a non-zero count and the form's due date; it is paid only if ticked |
| Ledger.ItemTotal | src/pages/Index.tsx:164 | a given total wins; without one, the item is worth unit price (0 when missing) × quantity (1 when missing); the item is worth something exactly when a total or a unit price is given |
| Ledger.ItemReady | src/pages/Index.tsx:163 | the guard lets through only forms whose date, shop, item and category are present, with a non-empty date and item |
| Ledger.NewItem | src/pages/Index.tsx:164-166 | a new item's quantity is non-zero, its form non-empty, and it joins the given purchase or a fresh one |
| Ledger.NewPlano | src/pages/Index.tsx:171 | the new plan is keyed by the form's month |
| Ledger.ItemJoinsPurchase | src/pages/Index.tsx:165-166 | an item naming a purchase lands at the end of that purchase's group |
| Ledger.DefaultFormIsCard | src/pages/Index.tsx:159 | an expense saved with the default form appears on the card statements |
| Ledger.DefaultInstallments | src/pages/Index.tsx:159 | an expense saved with no count is one part, in its due month |
| Ledger.Without | src/pages/Index.tsx:171 | filtering a month out never lengthens the list |
| Ledger.WithoutKeys | src/pages/Index.tsx:171 | after filtering out month `mes` no plan of `mes` is left and every other month keeps its plans |
| Ledger.WithoutOrder | src/pages/Index.tsx:171 | the kept plans are a subsequence of the old list |
| Ledger.Upsert | src/pages/Index.tsx:171 | after the upsert the new plan is in the list and the list grows by at most one |
| Ledger.UpsertFrom | src/pages/Index.tsx:171 | the upsert invents no plan: every plan after it is the new one or an old plan of another month |
| Ledger.UpsertKeyed | src/pages/Index.tsx:171 | after the upsert, the new plan is the one and only plan of its month |
| Ledger.UpsertKeepsOtherMonths | src/pages/Index.tsx:171 | every other month keeps exactly its plans, in their order |
| Ledger.UpsertLastWins | src/pages/Index.tsx:171 | saving a month twice leaves only the second plan |
| Ledger.UpsertUnique | src/pages/Index.tsx:171 | the upsert keeps months unique |
| Ledger.QuickReceita | src/pages/Index.tsx:53 | the quick income falls in the month of its date and has a category exactly when one was chosen |
| Ledger.QuickDespesa | src/pages/Index.tsx:55 | the quick expense is dated and due in the month of its date, unpaid, in one installment, with a non-empty payment form |
| Ledger.QuickExpenseSinglePart | src/pages/Index.tsx:55 | a quick expense is one unpaid part worth its amount in its date's month |
| Ledger.Ledger.constructor | src/pages/Index.tsx:29-43 | the page starts with the eight default categories and empty lists |
| Ledger.Ledger.AddReceita | src/pages/Index.tsx:152-156 | appends exactly the new income iff date, amount and category are filled; nothing else changes |
| Ledger.Ledger.AddDespesa | src/pages/Index.tsx:157-161 | appends exactly the new expense iff date, amount and category are filled; nothing else changes |
| Ledger.Ledger.AddItem | src/pages/Index.tsx:162-168 | appends exactly the new item iff date, shop, item and category are filled; nothing else changes |
| Ledger.Ledger.AddPlano | src/pages/Index.tsx:169-172 | with a month chosen, upserts the plan: one plan for that month, carrying the new values; other months unchanged; months stay unique |
| Ledger.Ledger.QuickAdd | src/pages/Index.tsx:49-56 | appends one income or one expense with one installment, due on its date; a purchase adds nothing |
| Transactions.MakeYear | src/services/api/transactions.ts:7-8 | `Date.UTC`'s year is never two-digit: 0..99 become 1900..1999 with the same last two digits, every other year is kept |
| IsoText.SplitKey | src/services/api/transactions.ts:6 | a key without a `-` gives no fields |
| IsoText.SplitKeyRoundTrip | src/services/api/transactions.ts:6 | reading `${y}-${m}` in plain decimal gives back `y` and `m` |
| Transactions.Utc | src/services/api/transactions.ts:7-8 | `Date.UTC(y, i, 1)` is the midnight starting the month `i` months after January of `y` (two-digit years read as 19xx), and NaN exactly when that instant is out of the time-value range |
| Transactions.RangeOf | src/services/api/transactions.ts:7-9 | the window runs from the first midnight of the normalised month to the first midnight of the month after; it is non-empty and starts at a midnight |
| Transactions.MonthRange | src/services/api/transactions.ts:4-10 | a key that does not split into two numbers gives no window; every window is non-empty and starts at a midnight UTC |
| Transactions.Selected | src/services/api/transactions.ts:31-32 | the selection `gte(start).lt(end)` selects nothing from an empty window; what it selects from a month's window is stated by Transactions.SelectsItsMonth and Transactions.Contiguous |
| Transactions.MonthRangeShape | src/services/api/transactions.ts:4-10 | any window starts at 00:00 UTC on the first of a month and ends on the first of the next; `start < end` |
| Transactions.RangeOfMonth | src/services/api/transactions.ts:7-8 | for years 100..9999, the window of month `m` runs from its first day to the next month's, December to January of the next year |
| Transactions.MonthRangeOfMonth | src/services/api/transactions.ts:4-10 | the key of a month of a year 100..9999 yields exactly that month's window |
| Transactions.Contiguous | src/services/api/transactions.ts:7-9 | a month's window ends where the next month's begins |
| Transactions.SelectsItsMonth | src/services/api/transactions.ts:27-32 | an instant of day `d` is selected for key `k` iff `d` lies in month `k` |
| Transactions.TwoDigitYear | src/services/api/transactions.ts:7 | the key "0050-03" selects March 1950 |
| Transactions.KeyWithoutMonth | src/services/api/transactions.ts:6 | a key with no `-` gives no window |
| Calendar.MonthStartNext | src/services/api/transactions.ts:8 | the first of the next month is the first of this month plus its length |
| Calendar.DayInMonthSpan | src/services/api/transactions.ts:30-31 | a day number lies in a month's span iff the day belongs to that month |

## Left out

- Rendering, charts, `currency` formatting and toasts: presentation only.
- The spreadsheet export (`exportarExcel`): a foreign library and file I/O. Its card-statement rows (`Statements.Faturas`, with card, month, amount, count and notes) are modelled. The page's own statement table shows the same card, month, amount and count without the notes; it is not modelled separately. The export's plan sheet is not modelled.
- Network calls: `createTransaction`, `listTransactionsByMonth` (only its `[start, end)` filter is modelled), `listCategories` and `createCategory`.
- The Supabase client setup (`src/lib/supabaseClient.ts`).
- The quick-add remote write and its error handling: an asynchronous call to a server. `QuickAddModal` and `FloatingActionButton` are UI state.
- The category form: it reads DOM elements directly.
- Form resets after each `add*`: they only restore form defaults.
- The in-place `planejamento.sort` during rendering: a render-time side effect.
- The display order of `Object.entries(comprasPorCompra)`: the grouping is a `map`, which has no order.
- Floating point, NaN and `Number()` parsing: amounts are exact reals, installment counts are integers, and form numbers arrive already parsed.
- Unparseable or partly typed due dates: a due date is always a calendar day, since `toISOString` would throw on an invalid one.
- Time zones: ISO date strings parse as UTC midnight. The as-written `setMonth` month is modelled for a UTC host.
- `Lower` folds A..Z only, which is enough for the test `includes("cart")`.
- Transactions.MonthRange: keys that are not digits, `-`, digits give `None`. For those, the model does not follow `Number()`, for which `""` is 0 and a missing field is NaN.
- Transactions.MonthRange: the ISO text of `start` and `end` is not modelled. The window is stated on time values, as the database compares them.

## Findings

| source | as written | input that shows it | evidently intended | confidence | as-written member | corrected member |
|---|---|---|---|---|---|---|
| src/pages/Index.tsx:84-86 | installment `i` is dated by `setMonth(getMonth() + i)` on the due date, which keeps the day of the month and lets it overflow | an expense due 2024-01-31 in 2 installments: the second part is dated 2024-03-02, key `2024-03`, so February gets nothing | installment `i` falls in the `i`-th month after the due month | not executed | Installments.AsWrittenSkipsFebruary | Installments.AllocationMonths |
| src/pages/Index.tsx:175-179 | items are grouped by reducing into a plain `{}`; `acc[c.compraId] \|\| []` finds an inherited member for an id such as "toString", "constructor" or "__proto__", and `.push(c)` on it throws a `TypeError` while the page renders | an item saved with "toString" typed into the purchase-id field (kept by `addItem`) | every purchase id gets its own group of items | not executed | Statements.PrototypeKeyThrows | Statements.ComprasPorCompra |
