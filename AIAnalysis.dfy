/** The analysis panel (`src/components/AIAnalysis.tsx`): it turns the chosen
    period into a `yyyy-MM-dd` range, keeps the expenses dated inside it and
    sends them to the analysis endpoint. "Today" is a parameter. */
module AIAnalysis {
  import opened Seqs
  import opened Types
  import opened Text
  import opened Dates
  import opened ExpenseContext
  import opened Analyze

  datatype PeriodType = ThisMonth | LastMonth | Last3Months | Custom

  datatype Range = Range(start: string, end: string)

  /** What `handleAnalyze` does: show an error, or post a request. */
  datatype Outcome = Refused(message: string) | Submit(request: AnalyzeRequest)

  const INVALID_RANGE: string := "Please select a valid date range"
  const NO_EXPENSES: string := "No expenses found in the selected period"

  /** The range from the first to the last day of `d`'s month. */
  function MonthRange(d: Date): Range
    requires ValidDate(d)
  {
    Range(Format(StartOfMonth(d)), Format(EndOfMonth(d)))
  }

  /** `getDateRange`. The first day of a month and its last day in the month
      before: `lastMonth` steps back one month, wrapping January to December
      of the year before; `last3Months` starts two months back. */
  function GetDateRange(kind: PeriodType, today: Date, customStart: string, customEnd: string): (r: Range)
    requires ValidDate(today) && today.year >= 1
    ensures kind == ThisMonth ==>
              r == Range(Format(Date(today.year, today.month, 1)),
                         Format(Date(today.year, today.month, DaysInMonth(today.year, today.month))))
    ensures kind == LastMonth ==>
              var (y, m) := if today.month == 1 then (today.year - 1, 12) else (today.year, today.month - 1);
              ValidDate(Date(y, m, 1)) && ValidDate(Date(y, m, DaysInMonth(y, m)))
              && r == Range(Format(Date(y, m, 1)), Format(Date(y, m, DaysInMonth(y, m))))
    ensures kind == Last3Months ==>
              var (y, m) := if today.month <= 2 then (today.year - 1, today.month + 10) else (today.year, today.month - 2);
              ValidDate(Date(y, m, 1))
              && r == Range(Format(Date(y, m, 1)),
                            Format(Date(today.year, today.month, DaysInMonth(today.year, today.month))))
    ensures kind == Custom ==> r == Range(customStart, customEnd)
  {
    match kind
    case ThisMonth => MonthRange(today)
    case LastMonth =>
      var d := AddMonths(today, -1);
      var (y, m) := if today.month == 1 then (today.year - 1, 12) else (today.year, today.month - 1);
      MonthIndexInjective(d, Date(y, m, 1));
      MonthRange(d)
    case Last3Months =>
      var d := AddMonths(today, -2);
      var (y, m) := if today.month <= 2 then (today.year - 1, today.month + 10) else (today.year, today.month - 2);
      MonthIndexInjective(d, Date(y, m, 1));
      Range(Format(StartOfMonth(d)), Format(EndOfMonth(today)))
    case Custom => Range(customStart, customEnd)
  }

  /** `e.date >= start && e.date <= end`, by string comparison. */
  predicate InRange(date: string, r: Range)
  {
    LexLe(r.start, date) && LexLe(date, r.end)
  }

  function RangeFilter(es: seq<Expense>, r: Range): (kept: seq<Expense>)
    ensures forall i :: 0 <= i < |kept| ==> kept[i] in es && InRange(kept[i].date, r)
    ensures forall i :: 0 <= i < |es| && InRange(es[i].date, r) ==> es[i] in kept
  {
    Filter(es, (e: Expense) => InRange(e.date, r))
  }

  /** The expenses in range of a concatenation are each part's in place, and
      a single expense is kept exactly when it is in range: the request keeps
      the list's order and multiplicity. */
  lemma RangeFilterConcat(a: seq<Expense>, b: seq<Expense>, e: Expense, r: Range)
    ensures RangeFilter(a + b, r) == RangeFilter(a, r) + RangeFilter(b, r)
    ensures RangeFilter([e], r) == if InRange(e.date, r) then [e] else []
  {
    FilterConcat(a, b, (e: Expense) => InRange(e.date, r));
  }

  /** `handleAnalyze`: refused on an empty bound or when nothing is in range;
      otherwise the request posted to the analysis endpoint. */
  function HandleAnalyze(s: State, kind: PeriodType, today: Date, customStart: string, customEnd: string): (o: Outcome)
    requires ValidDate(today) && today.year >= 1
    ensures var r := GetDateRange(kind, today, customStart, customEnd);
      && (r.start == "" || r.end == "" ==> o == Refused(INVALID_RANGE))
      && (r.start != "" && r.end != "" && RangeFilter(s.expenses, r) == [] ==> o == Refused(NO_EXPENSES))
      && (o.Submit? ==> o.request.expenses != [] && o.request.categories == s.categories
                        && o.request.startDate == r.start && o.request.endDate == r.end
                        && o.request.expenses == RangeFilter(s.expenses, r))
      && (r.start != "" && r.end != "" && RangeFilter(s.expenses, r) != [] ==>
            o == Submit(AnalyzeRequest(RangeFilter(s.expenses, r), s.categories, r.start, r.end)))
  {
    var r := GetDateRange(kind, today, customStart, customEnd);
    if r.start == "" || r.end == "" then Refused(INVALID_RANGE)
    else
      var kept := RangeFilter(s.expenses, r);
      if |kept| == 0 then Refused(NO_EXPENSES)
      else Submit(AnalyzeRequest(kept, s.categories, r.start, r.end))
  }

  /** The built-in periods never have an empty bound: only a custom range
      can be refused as invalid. */
  lemma BuiltInRangesNonEmpty(kind: PeriodType, today: Date)
    requires ValidDate(today) && today.year >= 1 && kind != Custom
    ensures GetDateRange(kind, today, "", "").start != "" && GetDateRange(kind, today, "", "").end != ""
  {
  }

  /** On well-formed dates the string comparison is the calendar order: an
      expense dated `d` is in the range `[a, b]` exactly when `a <= d <= b`
      as days. */
  lemma InRangeIsChronological(a: Date, b: Date, d: Date)
    requires ValidDate(a) && ValidDate(b) && ValidDate(d)
    ensures InRange(Format(d), Range(Format(a), Format(b))) <==> DateLe(a, d) && DateLe(d, b)
  {
    FormatOrder(a, d);
    FormatOrder(d, b);
  }

  /** This month's range holds exactly the days of today's month. */
  lemma ThisMonthHoldsItsDays(today: Date, d: Date)
    requires ValidDate(today) && today.year >= 1 && ValidDate(d)
    ensures InRange(Format(d), GetDateRange(ThisMonth, today, "", "")) <==> SameMonth(d, today)
  {
    InRangeIsChronological(StartOfMonth(today), EndOfMonth(today), d);
  }

  /** Last month's range holds exactly the days of the month before. */
  lemma LastMonthHoldsItsDays(today: Date, d: Date)
    requires ValidDate(today) && today.year >= 1 && ValidDate(d)
    ensures InRange(Format(d), GetDateRange(LastMonth, today, "", "")) <==> MonthIndex(d) == MonthIndex(today) - 1
  {
    var p := AddMonths(today, -1);
    InRangeIsChronological(StartOfMonth(p), EndOfMonth(p), d);
    MonthIndexInjective(d, p);
  }

  /** The last-three-months range holds exactly the days of today's month and
      the two before it. */
  lemma Last3MonthsHoldsItsDays(today: Date, d: Date)
    requires ValidDate(today) && today.year >= 1 && ValidDate(d)
    ensures InRange(Format(d), GetDateRange(Last3Months, today, "", ""))
            <==> MonthIndex(today) - 2 <= MonthIndex(d) <= MonthIndex(today)
  {
    var p := AddMonths(today, -2);
    InRangeIsChronological(StartOfMonth(p), EndOfMonth(today), d);
  }

  /** On 15 March 2024, "last month" is February of a leap year. */
  lemma LastMonthInLeapMarch()
    ensures GetDateRange(LastMonth, Date(2024, 3, 15), "", "") == Range("2024-02-01", "2024-02-29")
  {
    assert DaysInMonth(2024, 2) == 29;
    assert GetDateRange(LastMonth, Date(2024, 3, 15), "", "") == Range(Format(Date(2024, 2, 1)), Format(Date(2024, 2, 29)));
    FormatFebruary2024();
  }

  lemma FormatFebruary2024()
    ensures Format(Date(2024, 2, 1)) == "2024-02-01" && Format(Date(2024, 2, 29)) == "2024-02-29"
  {
    Year(2024);
    Pad2(2);
    Pad2(1);
    Pad2(29);
  }

  /** On 10 January 2024, "last month" is December 2023. */
  lemma LastMonthInJanuary()
    ensures GetDateRange(LastMonth, Date(2024, 1, 10), "", "") == Range("2023-12-01", "2023-12-31")
  {
    assert DaysInMonth(2023, 12) == 31;
    assert GetDateRange(LastMonth, Date(2024, 1, 10), "", "") == Range(Format(Date(2023, 12, 1)), Format(Date(2023, 12, 31)));
    FormatDecember2023();
  }

  lemma FormatDecember2023()
    ensures Format(Date(2023, 12, 1)) == "2023-12-01" && Format(Date(2023, 12, 31)) == "2023-12-31"
  {
    Year(2023);
    Pad2(12);
    Pad2(1);
    Pad2(31);
  }

  lemma Year(y: int)
    requires y == 2023 || y == 2024
    ensures Pad(y, 4) == ['2', '0', '2', Digit(y - 2020)]
  {
    assert Pad(2, 1) == ['2'];
    assert Pad(20, 2) == ['2', '0'];
    assert Pad(202, 3) == ['2', '0', '2'];
  }

  lemma Pad2(n: int)
    requires 0 <= n < 100
    ensures Pad(n, 2) == [Digit(n / 10), Digit(n % 10)]
  {
    var q := n / 10;
    assert 0 <= q < 10 && q / 10 == 0 && q % 10 == q;
    assert Pad(q, 1) == Pad(0, 0) + [Digit(q)];
  }
}
