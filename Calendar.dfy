/** The month calendar (`src/components/Calendar.tsx`): the per-date totals
    shown in the cells, the blank cells before the first day, the guards
    against future dates and the month navigation that also moves the
    budget's selected month. "Today" is a parameter. */
module Calendar {
  import opened Seqs
  import opened Types
  import opened Ledger
  import opened Dates
  import opened ExpenseContext
  import opened DayDetail

  /** Each expense as a (date, amount) entry. */
  function DateEntries(es: seq<Expense>): (r: seq<Entry<string>>)
    ensures |r| == |es| && forall i :: 0 <= i < |es| ==> r[i] == Entry(es[i].date, es[i].amount)
  {
    seq(|es|, i requires 0 <= i < |es| => Entry(es[i].date, es[i].amount))
  }

  /** What `expensesByDate` holds: a key per date that some expense carries,
      with the sum of that date's amounts. */
  function ByDate(es: seq<Expense>): map<string, int>
  {
    var entries := DateEntries(es);
    map d | d in KeysOf(entries) :: KeyTotal(entries, d)
  }

  /** `expensesByDate`: one pass over the expenses, adding each amount to its
      date's running total. */
  method ExpensesByDate(es: seq<Expense>) returns (m: map<string, int>)
    ensures m == ByDate(es)
  {
    m := map[];
    var j := 0;
    while j < |es|
      invariant 0 <= j <= |es|
      invariant Accumulated(m, {}, DateEntries(es[..j]))
    {
      var e := es[j];
      DateStep(m, es, j);
      var current := if e.date in m then m[e.date] else 0;
      m := m[e.date := current + e.amount];
      j := j + 1;
    }
    AccumulatedIsByDate(m, es);
  }

  /** The loop body of `ExpensesByDate` keeps its invariant. */
  lemma DateStep(m: map<string, int>, es: seq<Expense>, j: int)
    requires 0 <= j < |es| && Accumulated(m, {}, DateEntries(es[..j]))
    ensures Accumulated(m[es[j].date := Get0(m, es[j].date) + es[j].amount], {}, DateEntries(es[..j + 1]))
  {
    assert es[..j + 1] == es[..j] + [es[j]];
    DateEntriesSnoc(es[..j], es[j]);
    AccumulateStep(m, {}, DateEntries(es[..j]), Entry(es[j].date, es[j].amount));
  }

  lemma DateEntriesSnoc(a: seq<Expense>, e: Expense)
    ensures DateEntries(a + [e]) == DateEntries(a) + [Entry(e.date, e.amount)]
  {
    var l, r := DateEntries(a + [e]), DateEntries(a) + [Entry(e.date, e.amount)];
    forall i | 0 <= i < |l| ensures l[i] == r[i] {
      assert (a + [e])[i] == if i < |a| then a[i] else e;
    }
  }

  /** A map accumulated over every expense is `ByDate`. */
  lemma AccumulatedIsByDate(m: map<string, int>, es: seq<Expense>)
    requires Accumulated(m, {}, DateEntries(es[..|es|]))
    ensures m == ByDate(es)
  {
    assert es[..|es|] == es;
    var b := ByDate(es);
    assert m.Keys == b.Keys;
    forall k | k in m ensures m[k] == b[k] {
    }
  }

  /** The running total of a date is the sum of the amounts of the expenses
      carrying that date, which is what the day panel shows as its total. */
  lemma {:induction false} DateTotalIsDayTotal(es: seq<Expense>, d: string)
    ensures KeyTotal(DateEntries(es), d) == DayTotal(es, d)
  {
    if es != [] {
      var n := |es| - 1;
      var init, e := es[..n], es[n];
      DateTotalIsDayTotal(init, d);
      assert es == init + [e];
      DateEntriesSnoc(init, e);
      KeyTotalSnoc(DateEntries(init), Entry(e.date, e.amount), d);
      DayTotalSnoc(init, e, d);
    }
  }

  lemma DayTotalSnoc(a: seq<Expense>, e: Expense, d: string)
    ensures DayTotal(a + [e], d) == DayTotal(a, d) + if e.date == d then e.amount else 0
  {
    DayExpensesConcat(a, [e], d);
    assert DayExpenses([e], d) == if e.date == d then [e] else [];
    SumAmountsConcat(DayExpenses(a, d), DayExpenses([e], d));
  }

  /** `getDayTotal`: the date's entry, or 0 when it has none. */
  function GetDayTotal(byDate: map<string, int>, date: Date): int
    requires ValidDate(date)
  {
    Get0(byDate, Format(date))
  }

  /** The total a calendar cell shows is the day panel's total for that day,
      and 0 when no expense is dated that day. */
  lemma CellTotalIsDayTotal(es: seq<Expense>, date: Date)
    requires ValidDate(date)
    ensures GetDayTotal(ByDate(es), date) == DayTotal(es, Format(date))
    ensures (forall i :: 0 <= i < |es| ==> es[i].date != Format(date)) ==> GetDayTotal(ByDate(es), date) == 0
  {
    var d := Format(date);
    if d !in ByDate(es) {
      KeyTotalAbsent(DateEntries(es), d);
    }
    DateTotalIsDayTotal(es, d);
  }

  /** The keys of `expensesByDate` are exactly the dates that expenses carry. */
  lemma ByDateKeys(es: seq<Expense>, d: string)
    ensures d in ByDate(es) <==> exists i :: 0 <= i < |es| && es[i].date == d
  {
    if d in ByDate(es) {
      var i :| 0 <= i < |DateEntries(es)| && DateEntries(es)[i].key == d;
      assert es[i].date == d;
    } else {
      forall i | 0 <= i < |es| ensures es[i].date != d {
        assert DateEntries(es)[i].key == es[i].date;
      }
    }
  }

  /** Added up over all its keys, `expensesByDate` holds every amount
      exactly once. */
  lemma ByDateSum(es: seq<Expense>, dates: seq<string>)
    requires NoDup(dates)
    requires forall d :: d in ByDate(es) <==> d in dates
    ensures SumValues(ByDate(es), dates) == SumAmounts(es)
  {
    var entries := DateEntries(es);
    MapTotal(ByDate(es), entries, dates);
    EntriesTotal(es);
  }

  lemma {:induction false} EntriesTotal(es: seq<Expense>)
    ensures Total(DateEntries(es)) == SumAmounts(es)
  {
    if es != [] {
      var n := |es| - 1;
      EntriesTotal(es[..n]);
      assert DateEntries(es)[..n] == DateEntries(es[..n]);
      assert es == es[..n] + [es[n]];
      SumAmountsConcat(es[..n], [es[n]]);
    }
  }

  /** `paddingDays.length`: the weekday of the month's first day. */
  function PaddingDays(current: Date): (n: int)
    requires ValidDate(current)
    ensures 0 <= n < 7
    ensures n == Weekday(Date(current.year, current.month, 1))
  {
    Weekday(StartOfMonth(current))
  }

  /** After the padding cells, the cell of day `k` of the month sits in the
      column of its own weekday (Sunday first). */
  lemma DayUnderItsWeekday(current: Date, k: int)
    requires ValidDate(current) && 1 <= k <= DaysInMonth(current.year, current.month)
    ensures (PaddingDays(current) + k - 1) % 7 == Weekday(Date(current.year, current.month, k))
  {
    var first := DayNumber(Date(current.year, current.month, 1));
    assert DayNumber(Date(current.year, current.month, k)) == first + k - 1;
    ModShift(first + 6, k - 1);
  }

  lemma ModShift(a: int, b: int)
    ensures (a % 7 + b) % 7 == (a + b) % 7
  {
    var q := a / 7;
    assert a == 7 * q + a % 7;
    assert a + b == (a % 7 + b) + 7 * q;
  }

  /** `isFutureDate`: the day is after today. */
  predicate IsFutureDate(date: Date, today: Date)
  {
    !DateLe(date, today)
  }

  /** The calendar's own state: the date whose panel or form is open. */
  datatype View = View(currentDate: Date, selectedDate: Option<Date>, showDayDetail: bool, showExpenseModal: bool)

  /** `handleDayClick`: a future day is ignored; another day opens its panel. */
  function HandleDayClick(v: View, date: Date, today: Date): (r: View)
    ensures IsFutureDate(date, today) ==> r == v
    ensures !IsFutureDate(date, today) ==> r == v.(selectedDate := Some(date), showDayDetail := true)
  {
    if IsFutureDate(date, today) then v else v.(selectedDate := Some(date), showDayDetail := true)
  }

  /** `handleAddExpense`: a future day is ignored; another day opens the
      expense form for it. */
  function HandleAddExpense(v: View, date: Date, today: Date): (r: View)
    ensures IsFutureDate(date, today) ==> r == v
    ensures !IsFutureDate(date, today) ==> r == v.(selectedDate := Some(date), showExpenseModal := true)
  {
    if IsFutureDate(date, today) then v else v.(selectedDate := Some(date), showExpenseModal := true)
  }

  /** No future day is ever selected. */
  predicate NoFutureSelection(v: View, today: Date)
  {
    v.selectedDate.Some? ==> !IsFutureDate(v.selectedDate.value, today)
  }

  /** Clicking a day and adding an expense keep the selection out of the
      future, whatever day is clicked. */
  lemma HandlersKeepSelectionPast(v: View, date: Date, today: Date)
    requires NoFutureSelection(v, today)
    ensures NoFutureSelection(HandleDayClick(v, date, today), today)
    ensures NoFutureSelection(HandleAddExpense(v, date, today), today)
    ensures HandleDayClick(v, date, today).showDayDetail ==> v.showDayDetail || !IsFutureDate(date, today)
  {
  }

  /** `handleMonthChange`: the calendar shows `newDate`'s month and the
      budget's selected month becomes its `yyyy-MM`. */
  function HandleMonthChange(launchMonth: string, s: State, v: View, newDate: Date): (r: (View, State))
    requires ValidDate(newDate)
    ensures r.0 == v.(currentDate := newDate)
    ensures r.1 == s.(selectedMonth := MonthKey(newDate))
  {
    (v.(currentDate := newDate), Reduce(launchMonth, s, SetSelectedMonth(MonthKey(newDate))))
  }

  /** After a month change, the expenses the budget counts for its selected
      month are exactly those dated in the month the calendar shows. */
  lemma MonthChangeSelectsShownMonth(launchMonth: string, s: State, v: View, newDate: Date, d: Date)
    requires ValidDate(newDate) && ValidDate(d)
    ensures var s' := HandleMonthChange(launchMonth, s, v, newDate).1;
      s'.selectedMonth <= Format(d) <==> SameMonth(d, newDate)
  {
    MonthKeyPrefix(newDate, d);
  }

  /** The arrows move the shown month, and with it the selected month, by
      exactly one month. */
  lemma ArrowsMoveOneMonth(current: Date)
    requires ValidDate(current) && 1 <= current.year && current.year < 9999
    ensures MonthIndex(AddMonths(current, 1)) == MonthIndex(current) + 1
    ensures MonthIndex(AddMonths(current, -1)) == MonthIndex(current) - 1
    ensures MonthKey(AddMonths(current, 1)) != MonthKey(current)
  {
    MonthKeyInjective(AddMonths(current, 1), current);
  }
}
