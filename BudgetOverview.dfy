/** The dashboard's budget table (`src/components/BudgetOverview.tsx`): one
    summary per category for the selected month, the totals above it, the
    over-budget banner and the red / yellow / green status of each row. */
module BudgetOverview {
  import opened Seqs
  import opened Types
  import opened Ledger
  import opened ExpenseContext

  /** `getSpendingByCategory()` called without a month: the selected month. */
  function CurrentSpending(s: State): map<string, int>
  {
    SpendingMap(s.categories, s.expenses, TargetMonth("", s.selectedMonth))
  }

  /** `cat.limit > 0 ? (spent / cat.limit) * 100 : 0`, in exact arithmetic. */
  function Percentage(spent: int, limit: int): (r: real)
    ensures limit > 0 ==> r * (limit as real) == 100.0 * (spent as real)
    ensures limit <= 0 ==> r == 0.0
  {
    if limit > 0 then (spent as real / limit as real) * 100.0 else 0.0
  }

  /** The summary of one category, given the spending map. */
  function Summarize(c: Category, spending: map<string, int>): (r: SpendingSummary)
    ensures r.categoryId == c.id && r.categoryName == c.name && r.limit == c.limit
    ensures r.spent == Get0(spending, c.id)
    ensures r.remaining + r.spent == r.limit
    ensures r.isOverBudget <==> r.remaining < 0
    ensures r.percentage == Percentage(r.spent, r.limit)
  {
    var spent := Get0(spending, c.id);
    SpendingSummary(c.id, c.name, c.limit, spent, c.limit - spent, Percentage(spent, c.limit), spent > c.limit)
  }

  /** `summaries`: one per category, in category order, with the category's
      spending in the selected month (0 when it has none). */
  function Summaries(s: State): (r: seq<SpendingSummary>)
    ensures |r| == |s.categories|
    ensures forall i :: 0 <= i < |r| ==>
              && r[i].categoryId == s.categories[i].id
              && r[i].categoryName == s.categories[i].name
              && r[i].limit == s.categories[i].limit
              && r[i].spent == Spent(s.expenses, s.selectedMonth, s.categories[i].id)
              && r[i].remaining == r[i].limit - r[i].spent
              && (r[i].isOverBudget <==> r[i].spent > r[i].limit)
              && r[i].percentage == Percentage(r[i].spent, r[i].limit)
  {
    var spending := CurrentSpending(s);
    forall id | true ensures Get0(spending, id) == Spent(s.expenses, s.selectedMonth, id) {
      SpendingLookup(s.categories, s.expenses, s.selectedMonth, id);
    }
    Rows(s.categories, spending)
  }

  function Rows(cs: seq<Category>, spending: map<string, int>): (r: seq<SpendingSummary>)
    ensures |r| == |cs| && forall i :: 0 <= i < |cs| ==> r[i] == Summarize(cs[i], spending)
  {
    seq(|cs|, i requires 0 <= i < |cs| => Summarize(cs[i], spending))
  }

  /** `totalBudget`. */
  function TotalBudget(s: State): int
  {
    SumLimits(s.categories)
  }

  /** `summaries.reduce((sum, s) => sum + s.spent, 0)`. */
  function TotalSpent(ss: seq<SpendingSummary>): int
  {
    if ss == [] then 0 else ss[0].spent + TotalSpent(ss[1..])
  }

  /** `overBudgetCategories`: the summaries flagged over budget, in order. */
  function OverBudgetSummaries(ss: seq<SpendingSummary>): (r: seq<SpendingSummary>)
    ensures forall i :: 0 <= i < |r| ==> r[i] in ss && r[i].isOverBudget
    ensures forall i :: 0 <= i < |ss| && ss[i].isOverBudget ==> ss[i] in r
  {
    Filter(ss, (x: SpendingSummary) => x.isOverBudget)
  }

  /** The flagged summaries of a concatenation are each part's flagged
      summaries in place, and a single summary is kept exactly when flagged. */
  lemma OverBudgetConcat(a: seq<SpendingSummary>, b: seq<SpendingSummary>, x: SpendingSummary)
    ensures OverBudgetSummaries(a + b) == OverBudgetSummaries(a) + OverBudgetSummaries(b)
    ensures OverBudgetSummaries([x]) == if x.isOverBudget then [x] else []
  {
    FilterConcat(a, b, (x: SpendingSummary) => x.isOverBudget);
  }

  /** The colour of a row's trend icon, percentage and label. */
  datatype Tone = Red | Yellow | Green

  function RowTone(x: SpendingSummary): Tone
  {
    if x.isOverBudget then Red else if x.percentage > 80.0 then Yellow else Green
  }

  /** The three colours in whole numbers: red when spending is above the
      limit; yellow when it is within the limit but above 80 % of a positive
      limit; green otherwise, which includes every non-positive limit that is
      not exceeded. */
  lemma {:induction false} RowToneExact(c: Category, spending: map<string, int>)
    ensures var x := Summarize(c, spending);
      && (RowTone(x) == Red <==> x.spent > x.limit)
      && (RowTone(x) == Yellow <==> x.spent <= x.limit && x.limit > 0 && 5 * x.spent > 4 * x.limit)
      && (RowTone(x) == Green <==> x.spent <= x.limit && (x.limit <= 0 || 5 * x.spent <= 4 * x.limit))
  {
    var x := Summarize(c, spending);
    if x.limit > 0 {
      PercentAbove80(x.spent, x.limit);
    }
  }

  lemma PercentAbove80(spent: int, limit: int)
    requires limit > 0
    ensures Percentage(spent, limit) > 80.0 <==> 5 * spent > 4 * limit
  {
    var l := limit as real;
    var q := spent as real / l;
    assert q * l == spent as real;
    assert Percentage(spent, limit) == q * 100.0;
    if q * 100.0 > 80.0 {
      ScaleStrict(q - 0.8, l);
      assert (q - 0.8) * l == q * l - 0.8 * l;
    } else {
      ScaleStrict(0.8 - q, l);
      assert (0.8 - q) * l == 0.8 * l - q * l;
    }
  }

  lemma ScaleStrict(a: real, l: real)
    requires l > 0.0
    ensures a > 0.0 ==> a * l > 0.0
    ensures a >= 0.0 ==> a * l >= 0.0
  {
  }

  /** The category ids, in list order. */
  function Ids(cs: seq<Category>): (r: seq<string>)
    ensures |r| == |cs| && forall i :: 0 <= i < |cs| ==> r[i] == cs[i].id
  {
    seq(|cs|, i requires 0 <= i < |cs| => cs[i].id)
  }

  /** With unique ids and no expense of the month filed under an unknown
      category id, the table's total spent is the month's total. (An expense
      under an unknown id counts towards the monthly total but towards no
      row.) */
  lemma TotalSpentIsMonthlyTotal(s: State)
    requires UniqueIds(s.categories)
    requires forall i :: 0 <= i < |s.expenses| && s.selectedMonth <= s.expenses[i].date
               ==> s.expenses[i].categoryId in CategoryIds(s.categories)
    ensures TotalSpent(Summaries(s)) == GetMonthlyTotal(s, "")
  {
    var entries := MonthEntries(s.expenses, s.selectedMonth);
    RowsCoverMonth(s.categories, s.expenses, s.selectedMonth);
    SummariesSum(s);
    MonthEntriesSums(s.expenses, s.selectedMonth, "");
  }

  lemma RowsCoverMonth(cs: seq<Category>, es: seq<Expense>, month: string)
    requires UniqueIds(cs)
    requires forall i :: 0 <= i < |es| && month <= es[i].date ==> es[i].categoryId in CategoryIds(cs)
    ensures SumKeyTotals(MonthEntries(es, month), Ids(cs)) == Total(MonthEntries(es, month))
  {
    var entries := MonthEntries(es, month);
    var ids := Ids(cs);
    forall k | k in KeysOf(entries) ensures k in ids {
      EntryKeyFiled(es, month, k);
      var j :| 0 <= j < |cs| && cs[j].id == k;
      assert ids[j] == k;
    }
    PartitionTotal(entries, ids);
  }

  lemma SummariesSum(s: State)
    ensures TotalSpent(Summaries(s)) == SumKeyTotals(MonthEntries(s.expenses, s.selectedMonth), Ids(s.categories))
  {
    var entries := MonthEntries(s.expenses, s.selectedMonth);
    var spending := CurrentSpending(s);
    assert TargetMonth("", s.selectedMonth) == s.selectedMonth;
    forall k | k !in spending ensures KeyTotal(entries, k) == 0 {
      KeyTotalAbsent(entries, k);
    }
    RowsSum(s.categories, spending, entries);
    assert Summaries(s) == Rows(s.categories, spending);
  }

  lemma {:induction false} EntryKeyFiled(es: seq<Expense>, month: string, k: string)
    requires k in KeysOf(MonthEntries(es, month))
    ensures exists i :: 0 <= i < |es| && month <= es[i].date && es[i].categoryId == k
  {
    var init, e := es[..|es| - 1], es[|es| - 1];
    if month <= e.date && e.categoryId == k {
      assert es[|es| - 1].categoryId == k;
    } else {
      assert MonthEntries(es, month) == MonthEntries(init, month) + if month <= e.date then [Entry(e.categoryId, e.amount)] else [];
      assert k in KeysOf(MonthEntries(init, month));
      EntryKeyFiled(init, month, k);
      var i :| 0 <= i < |init| && month <= init[i].date && init[i].categoryId == k;
      assert es[i] == init[i];
    }
  }

  lemma {:induction false} RowsSum(cs: seq<Category>, spending: map<string, int>, entries: seq<Entry<string>>)
    requires forall k :: k in spending ==> spending[k] == KeyTotal(entries, k)
    requires forall k :: k !in spending ==> KeyTotal(entries, k) == 0
    ensures TotalSpent(Rows(cs, spending)) == SumKeyTotals(entries, Ids(cs))
  {
    if cs != [] {
      RowsSum(cs[1..], spending, entries);
      assert Rows(cs, spending)[1..] == Rows(cs[1..], spending);
      assert Ids(cs)[1..] == Ids(cs[1..]);
    }
  }
}
