/** The day panel (`src/components/DayDetail.tsx`): the expenses recorded on
    one day, their total, and the name and colour each is shown with. */
module DayDetail {
  import opened Seqs
  import opened Types
  import opened Dates
  import opened ExpenseContext
  import Analyze

  const UNKNOWN_NAME: string := "Unknown"
  const FALLBACK_COLOR: string := "#6b7280"

  /** `dayExpenses`: the expenses whose stored date is exactly `dateStr`. */
  function DayExpenses(es: seq<Expense>, dateStr: string): (r: seq<Expense>)
    ensures forall i :: 0 <= i < |r| ==> r[i] in es && r[i].date == dateStr
    ensures forall i :: 0 <= i < |es| && es[i].date == dateStr ==> es[i] in r
  {
    Filter(es, (e: Expense) => e.date == dateStr)
  }

  /** The filter keeps the list's order: the day's expenses of a list made of
      two parts are those of the first part followed by those of the second. */
  lemma DayExpensesConcat(a: seq<Expense>, b: seq<Expense>, dateStr: string)
    ensures DayExpenses(a + b, dateStr) == DayExpenses(a, dateStr) + DayExpenses(b, dateStr)
  {
    FilterConcat(a, b, (e: Expense) => e.date == dateStr);
  }

  /** `dayTotal`: the sum of the day's amounts; 0 on a day without expenses. */
  function DayTotal(es: seq<Expense>, dateStr: string): (r: int)
    ensures DayExpenses(es, dateStr) == [] ==> r == 0
  {
    SumAmounts(DayExpenses(es, dateStr))
  }

  /** What the panel shows for `date`. */
  function DayView(s: State, date: Date): (r: DayExpense)
    requires ValidDate(date)
    ensures r.date == Format(date) && |r.date| == 10
    ensures r.expenses == DayExpenses(s.expenses, r.date)
    ensures r.total == DayTotal(s.expenses, r.date)
  {
    var dateStr := Format(date);
    DayExpense(dateStr, DayExpenses(s.expenses, dateStr), DayTotal(s.expenses, dateStr))
  }

  /** The "No expenses recorded" branch. */
  predicate ShowsEmptyState(v: DayExpense)
  {
    |v.expenses| == 0
  }

  /** The empty state is shown exactly when no expense carries the day's date. */
  lemma EmptyStateExact(s: State, date: Date)
    requires ValidDate(date)
    ensures ShowsEmptyState(DayView(s, date)) <==> forall i :: 0 <= i < |s.expenses| ==> s.expenses[i].date != Format(date)
  {
    var v := DayView(s, date);
    if !ShowsEmptyState(v) {
      assert v.expenses[0] in s.expenses;
    }
  }

  /** `category?.name || 'Unknown'`, with `find` taking the first category
      under the id. */
  function DisplayName(cs: seq<Category>, id: string): (r: string)
    ensures r != ""
    ensures id !in CategoryIds(cs) ==> r == UNKNOWN_NAME
    ensures FindCategory(cs, id).Some? && FindCategory(cs, id).value.name != "" ==> r == FindCategory(cs, id).value.name
    ensures FindCategory(cs, id).Some? && FindCategory(cs, id).value.name == "" ==> r == UNKNOWN_NAME
  {
    match FindCategory(cs, id)
    case None => UNKNOWN_NAME
    case Some(c) => if c.name == "" then UNKNOWN_NAME else c.name
  }

  /** `category?.color || '#6b7280'`. */
  function DisplayColor(cs: seq<Category>, id: string): (r: string)
    ensures id !in CategoryIds(cs) ==> r == FALLBACK_COLOR
    ensures FindCategory(cs, id).Some? && FindCategory(cs, id).value.color != "" ==> r == FindCategory(cs, id).value.color
    ensures FindCategory(cs, id).Some? && FindCategory(cs, id).value.color == "" ==> r == FALLBACK_COLOR
  {
    match FindCategory(cs, id)
    case None => FALLBACK_COLOR
    case Some(c) => if c.color == "" then FALLBACK_COLOR else c.color
  }

  /** With unique category ids the day panel and the analysis endpoint name
      an expense's category alike (one takes the first category under the id,
      the other the last). */
  lemma DisplayNameAgreesWithAnalysis(cs: seq<Category>, id: string)
    requires UniqueIds(cs)
    ensures DisplayName(cs, id) == Analyze.Label(cs, id)
  {
    var first, last := FindCategory(cs, id), Analyze.LookupLast(cs, id);
    if first.Some? {
      var i :| 0 <= i < |cs| && cs[i] == first.value && forall j :: 0 <= j < i ==> cs[j].id != id;
      var k :| 0 <= k < |cs| && cs[k] == last.value && last.value.id == id && forall j :: k < j < |cs| ==> cs[j].id != id;
      assert i == k;
    }
  }
}
