/** The spending pie chart (`src/components/SpendingChart.tsx`): one slice per
    category that has spending in the selected month, the chart's total and
    each slice's share of it. */
module SpendingChart {
  import opened Seqs
  import opened Types
  import opened Ledger
  import opened ExpenseContext
  import BudgetOverview

  /** A chart entry: `{ name, value, color }`. */
  datatype Slice = Slice(name: string, value: int, color: string)

  /** The `map` step: every category with its spending, 0 when it has none. */
  function AllSlices(cs: seq<Category>, spending: map<string, int>): (r: seq<Slice>)
    ensures |r| == |cs|
    ensures forall i :: 0 <= i < |cs| ==> r[i] == Slice(cs[i].name, Get0(spending, cs[i].id), cs[i].color)
  {
    seq(|cs|, i requires 0 <= i < |cs| => Slice(cs[i].name, Get0(spending, cs[i].id), cs[i].color))
  }

  /** The `filter` step: the entries with a positive value. */
  function Slices(cs: seq<Category>, spending: map<string, int>): (r: seq<Slice>)
    ensures forall i :: 0 <= i < |r| ==> r[i].value > 0
    ensures forall i :: 0 <= i < |r| ==>
              exists j :: 0 <= j < |cs| && r[i] == Slice(cs[j].name, Get0(spending, cs[j].id), cs[j].color)
    ensures forall j :: 0 <= j < |cs| && Get0(spending, cs[j].id) > 0 ==>
              Slice(cs[j].name, Get0(spending, cs[j].id), cs[j].color) in r
  {
    var all := AllSlices(cs, spending);
    var r := Filter(all, (x: Slice) => x.value > 0);
    assert forall x :: x in r ==> x in all;
    r
  }

  /** `chartData`, from the selected month's spending. */
  function ChartData(s: State): seq<Slice>
  {
    Slices(s.categories, BudgetOverview.CurrentSpending(s))
  }

  /** The chart lists the categories in their order: the slices of a list made
      of two parts are those of the first part followed by those of the
      second. */
  lemma SlicesConcat(a: seq<Category>, b: seq<Category>, spending: map<string, int>)
    ensures Slices(a + b, spending) == Slices(a, spending) + Slices(b, spending)
  {
    assert AllSlices(a + b, spending) == AllSlices(a, spending) + AllSlices(b, spending);
    FilterConcat(AllSlices(a, spending), AllSlices(b, spending), (x: Slice) => x.value > 0);
  }

  /** Every slice carries its category's true spending in the selected month,
      and a category appears exactly when that spending is positive. */
  lemma ChartDataExact(s: State, j: int)
    requires 0 <= j < |s.categories|
    ensures var c := s.categories[j];
      var spent := Spent(s.expenses, s.selectedMonth, c.id);
      Slice(c.name, spent, c.color) in ChartData(s) <==> spent > 0
  {
    var c := s.categories[j];
    var spending := BudgetOverview.CurrentSpending(s);
    SpendingLookup(s.categories, s.expenses, s.selectedMonth, c.id);
    assert TargetMonth("", s.selectedMonth) == s.selectedMonth;
  }

  /** `totalSpent`: the sum of the slice values. */
  function TotalSpent(ds: seq<Slice>): int
  {
    if ds == [] then 0 else ds[0].value + TotalSpent(ds[1..])
  }

  /** A non-empty chart has a positive total, and each slice is a positive
      part of it, so every share `value / totalSpent` is defined and lies in
      (0, 1]. */
  lemma {:induction false} SliceWithinTotal(ds: seq<Slice>, i: int)
    requires forall k :: 0 <= k < |ds| ==> ds[k].value > 0
    requires 0 <= i < |ds|
    ensures 0 < ds[i].value <= TotalSpent(ds)
  {
    if i > 0 {
      SliceWithinTotal(ds[1..], i - 1);
      TotalNonNegative(ds[1..]);
    } else {
      TotalNonNegative(ds[1..]);
    }
  }

  lemma {:induction false} TotalNonNegative(ds: seq<Slice>)
    requires forall k :: 0 <= k < |ds| ==> ds[k].value > 0
    ensures TotalSpent(ds) >= 0
    ensures ds != [] ==> TotalSpent(ds) > 0
  {
    if ds != [] {
      TotalNonNegative(ds[1..]);
    }
  }

  /** The chart takes its empty branch exactly when no category has positive
      spending in the selected month; otherwise its total is positive. */
  lemma EmptyChartExact(s: State)
    ensures ChartData(s) == [] <==>
            forall j :: 0 <= j < |s.categories| ==> Spent(s.expenses, s.selectedMonth, s.categories[j].id) <= 0
    ensures ChartData(s) != [] ==> TotalSpent(ChartData(s)) > 0
  {
    TotalNonNegative(ChartData(s));
    forall j | 0 <= j < |s.categories| && ChartData(s) == []
      ensures Spent(s.expenses, s.selectedMonth, s.categories[j].id) <= 0
    {
      ChartDataExact(s, j);
    }
    if ChartData(s) != [] {
      var x := ChartData(s)[0];
      var j :| 0 <= j < |s.categories| && x == Slice(s.categories[j].name, Get0(BudgetOverview.CurrentSpending(s), s.categories[j].id), s.categories[j].color);
      SpendingLookup(s.categories, s.expenses, s.selectedMonth, s.categories[j].id);
      assert TargetMonth("", s.selectedMonth) == s.selectedMonth;
    }
  }

  /** A slice's share of the whole, in percent. */
  function Share(value: int, total: int): real
    requires total > 0
  {
    (value as real / total as real) * 100.0
  }

  /** A share times the total is 100 times the slice's value. */
  lemma ShareTimesTotal(value: int, total: int)
    requires total > 0
    ensures Share(value, total) * (total as real) == 100.0 * (value as real)
  {
  }

  function SumShares(ds: seq<Slice>, total: int): real
    requires total > 0
  {
    if ds == [] then 0.0 else Share(ds[0].value, total) + SumShares(ds[1..], total)
  }

  /** The shares the legend and the tooltip show add up to 100 %. */
  lemma SharesMakeWhole(ds: seq<Slice>)
    requires forall k :: 0 <= k < |ds| ==> ds[k].value > 0
    requires ds != []
    ensures TotalSpent(ds) > 0 && SumShares(ds, TotalSpent(ds)) == 100.0
  {
    TotalNonNegative(ds);
    ScaledToWhole(ds, TotalSpent(ds));
  }

  lemma ScaledToWhole(ds: seq<Slice>, total: int)
    requires total == TotalSpent(ds) && total > 0
    ensures SumShares(ds, total) == 100.0
  {
    SharesScale(ds, total);
    WholeFromScale(SumShares(ds, total), total, TotalSpent(ds));
  }

  lemma {:induction false} SharesScale(ds: seq<Slice>, total: int)
    requires total > 0
    ensures SumShares(ds, total) * (total as real) == 100.0 * (TotalSpent(ds) as real)
  {
    if ds != [] {
      SharesScale(ds[1..], total);
      var t := total as real;
      ShareTimesTotal(ds[0].value, total);
      assert SumShares(ds, total) * t == Share(ds[0].value, total) * t + SumShares(ds[1..], total) * t;
    }
  }

  /** Shares scaled by a positive total to 100 times that total make 100. */
  lemma WholeFromScale(sum: real, total: int, spent: int)
    requires total > 0 && sum * (total as real) == 100.0 * (spent as real) && spent == total
    ensures sum == 100.0
  {
    CancelPositive(sum, 100.0, total as real);
  }

  lemma CancelPositive(a: real, b: real, t: real)
    requires t > 0.0 && a * t == b * t
    ensures a == b
  {
  }

  /** The chart's total, added up from the budget table's rows: the rows the
      chart leaves out have spent nothing when no amount is negative. */
  lemma {:induction false} ChartTotalIsRowsTotal(cs: seq<Category>, spending: map<string, int>)
    requires forall j :: 0 <= j < |cs| ==> Get0(spending, cs[j].id) >= 0
    ensures TotalSpent(Slices(cs, spending)) == BudgetOverview.TotalSpent(BudgetOverview.Rows(cs, spending))
  {
    if cs != [] {
      ChartTotalIsRowsTotal(cs[1..], spending);
      ChartHead(cs, spending);
      RowsHead(cs, spending);
    }
  }

  /** The first category adds its spending to the chart's total. */
  lemma ChartHead(cs: seq<Category>, spending: map<string, int>)
    requires cs != [] && Get0(spending, cs[0].id) >= 0
    ensures TotalSpent(Slices(cs, spending)) == Get0(spending, cs[0].id) + TotalSpent(Slices(cs[1..], spending))
  {
    var c := cs[0];
    var head := Slices([c], spending);
    assert cs == [c] + cs[1..];
    SlicesConcat([c], cs[1..], spending);
    assert AllSlices([c], spending) == [Slice(c.name, Get0(spending, c.id), c.color)];
    assert TotalSpent(head) == Get0(spending, c.id);
    TotalConcat(head, Slices(cs[1..], spending));
  }

  /** The first category adds its spending to the table's total. */
  lemma RowsHead(cs: seq<Category>, spending: map<string, int>)
    requires cs != []
    ensures BudgetOverview.TotalSpent(BudgetOverview.Rows(cs, spending))
            == Get0(spending, cs[0].id) + BudgetOverview.TotalSpent(BudgetOverview.Rows(cs[1..], spending))
  {
    assert BudgetOverview.Rows(cs, spending)[1..] == BudgetOverview.Rows(cs[1..], spending);
  }

  lemma {:induction false} TotalConcat(a: seq<Slice>, b: seq<Slice>)
    ensures TotalSpent(a + b) == TotalSpent(a) + TotalSpent(b)
  {
    if a == [] {
      assert a + b == b;
    } else {
      assert (a + b)[1..] == a[1..] + b;
      TotalConcat(a[1..], b);
    }
  }

  lemma {:induction false} SumAmountsNonNegative(es: seq<Expense>)
    requires forall i :: 0 <= i < |es| ==> es[i].amount >= 0
    ensures SumAmounts(es) >= 0
  {
    if es != [] {
      SumAmountsNonNegative(es[1..]);
    }
  }

  /** With no negative amount, unique category ids and no expense of the
      month under an unknown category id, the chart's total is the month's
      total. An expense under an unknown id is left out of the chart. */
  lemma ChartTotalIsMonthlyTotal(s: State)
    requires forall i :: 0 <= i < |s.expenses| ==> s.expenses[i].amount >= 0
    requires UniqueIds(s.categories)
    requires forall i :: 0 <= i < |s.expenses| && s.selectedMonth <= s.expenses[i].date
               ==> s.expenses[i].categoryId in CategoryIds(s.categories)
    ensures TotalSpent(ChartData(s)) == GetMonthlyTotal(s, "")
  {
    var spending := BudgetOverview.CurrentSpending(s);
    assert TargetMonth("", s.selectedMonth) == s.selectedMonth;
    forall j | 0 <= j < |s.categories| ensures Get0(spending, s.categories[j].id) >= 0 {
      var id := s.categories[j].id;
      SpendingLookup(s.categories, s.expenses, s.selectedMonth, id);
      var kept := Filter(s.expenses, (e: Expense) => e.categoryId == id && s.selectedMonth <= e.date);
      forall k | 0 <= k < |kept| ensures kept[k].amount >= 0 {
        assert kept[k] in s.expenses;
      }
      SumAmountsNonNegative(kept);
    }
    ChartTotalIsRowsTotal(s.categories, spending);
    BudgetOverview.TotalSpentIsMonthlyTotal(s);
  }

  /** Spending under an unknown category id counts towards the month's total
      but not towards the chart: with no categories, one expense of 500 in the
      selected month leaves the chart empty. */
  lemma OrphanSpendingNotCharted()
    ensures var e := Expense("e1", "gone", 500, "", "2024-05-03", "");
      var s := State(true, 0, [], [e], "2024-05", false);
      ChartData(s) == [] && GetMonthlyTotal(s, "") == 500
  {
    var e := Expense("e1", "gone", 500, "", "2024-05-03", "");
    var s := State(true, 0, [], [e], "2024-05", false);
    assert "2024-05" <= e.date;
    assert MonthEntries([e], "2024-05") == [Entry("gone", 500)];
  }
}
