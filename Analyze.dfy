/** The spending-analysis endpoint (`src/app/api/analyze/route.ts`): it labels
    each expense with its category's name, totals the amounts per name,
    classifies every category against its limit, and asks a language model
    for advice on a prompt built from those figures. The model call is a
    parameter. */
module Analyze {
  import opened Seqs
  import opened Types
  import opened Ledger
  import opened Text

  /** An entry of `expenseSummary`. */
  datatype SummaryLine = SummaryLine(category: string, amount: int, description: string, date: string)

  datatype Status = OverBudget | Warning | Ok

  /** An entry of `budgetStatus`; the formatted percentage is not modelled. */
  datatype BudgetLine = BudgetLine(category: string, limit: int, spent: int, status: Status)

  /** The parsed request body. */
  datatype AnalyzeRequest = AnalyzeRequest(expenses: seq<Expense>, categories: seq<Category>,
                                           startDate: string, endDate: string)

  /** The figures the prompt is built from. */
  datatype Prompt = Prompt(startDate: string, endDate: string, totalSpent: int, totalBudget: int,
                           breakdown: seq<BudgetLine>, recent: seq<SummaryLine>)

  /** What the chat-completion call gives back: a failure (an exception), or
      an answer whose first choice may lack content. */
  datatype Completion = CallFailed | Answered(content: Option<string>)

  datatype Summary = Summary(totalSpent: int, totalBudget: int, categoryTotals: map<string, int>,
                             budgetStatus: seq<BudgetLine>, startDate: string, endDate: string)

  datatype Response = Failure(status: int, error: string) | Analysis(analysis: string, summary: Summary)

  const UNKNOWN: string := "Unknown"
  const NO_ANALYSIS: string := "Unable to generate analysis"
  const NO_KEY: string := "GROQ API key not configured"
  const FAILED: string := "Failed to analyze expenses"
  /** How many transactions the prompt lists. */
  const RECENT: nat := 20

  /** `categoryMap.get(id)`, where `categoryMap = new Map(categories.map(c =>
      [c.id, c]))`: the map constructor keeps the LAST category under an id. */
  function LookupLast(cs: seq<Category>, id: string): (r: Option<Category>)
    ensures r.None? <==> id !in CategoryIds(cs)
    ensures r.Some? ==> exists i :: 0 <= i < |cs| && cs[i] == r.value && r.value.id == id
                                    && forall j :: i < j < |cs| ==> cs[j].id != id
  {
    if cs == [] then None
    else if cs[|cs| - 1].id == id then Some(cs[|cs| - 1])
    else
      var init := cs[..|cs| - 1];
      var r := LookupLast(init, id);
      assert cs == init + [cs[|cs| - 1]];
      CategoryIdsSnoc(init, cs[|cs| - 1]);
      r
  }

  /** `category?.name || 'Unknown'`: an unknown id, and equally a category
      with an empty name, are labelled `Unknown`. */
  function Label(cs: seq<Category>, id: string): (r: string)
    ensures r != ""
    ensures id !in CategoryIds(cs) ==> r == UNKNOWN
    ensures id in CategoryIds(cs) ==> r == (if LookupLast(cs, id).value.name == "" then UNKNOWN else LookupLast(cs, id).value.name)
  {
    match LookupLast(cs, id)
    case None => UNKNOWN
    case Some(c) => if c.name == "" then UNKNOWN else c.name
  }

  /** `expenseSummary`: one line per expense, in input order; no expense is
      dropped. */
  function ExpenseSummary(cs: seq<Category>, es: seq<Expense>): (r: seq<SummaryLine>)
    ensures |r| == |es|
    ensures forall i :: 0 <= i < |es| ==>
              && r[i].category == Label(cs, es[i].categoryId)
              && r[i].amount == es[i].amount
              && r[i].description == es[i].description
              && r[i].date == es[i].date
  {
    seq(|es|, i requires 0 <= i < |es| => SummaryLine(Label(cs, es[i].categoryId), es[i].amount, es[i].description, es[i].date))
  }

  /** The (label, amount) entries the grouping loop walks through. */
  function LabelEntries(lines: seq<SummaryLine>): (r: seq<Entry<string>>)
    ensures |r| == |lines| && forall i :: 0 <= i < |lines| ==> r[i] == Entry(lines[i].category, lines[i].amount)
  {
    seq(|lines|, i requires 0 <= i < |lines| => Entry(lines[i].category, lines[i].amount))
  }

  /** The object `categoryTotals` ends as: a key per label that occurs,
      holding the sum of that label's amounts. */
  function Totals(lines: seq<SummaryLine>): map<string, int>
  {
    map k | k in KeysOf(LabelEntries(lines)) :: KeyTotal(LabelEntries(lines), k)
  }

  /** `categoryTotals`: the `forEach` that adds each amount under its label. */
  method CategoryTotals(lines: seq<SummaryLine>) returns (totals: map<string, int>)
    ensures totals == Totals(lines)
  {
    totals := map[];
    var i := 0;
    while i < |lines|
      invariant 0 <= i <= |lines|
      invariant totals == Fold(map[], LabelEntries(lines[..i]))
    {
      var line := lines[i];
      FoldLinesStep(lines, i);
      totals := totals[line.category := Get0(totals, line.category) + line.amount];
      i := i + 1;
    }
    FoldIsTotals(lines[..i]);
    assert lines[..i] == lines;
  }

  /** The keys `Object.values` walks through: each key of the record once. */
  method KeyOrder(m: map<string, int>) returns (order: seq<string>)
    ensures NoDup(order) && forall k :: k in m <==> k in order
  {
    order := [];
    var rest := m.Keys;
    while rest != {}
      invariant rest <= m.Keys && NoDup(order)
      invariant forall k :: k in m <==> k in order || k in rest
      invariant forall k :: k in rest ==> k !in order
      decreases |rest|
    {
      var k :| k in rest;
      order := order + [k];
      rest := rest - {k};
    }
  }

  /** One more line adds its amount under its label. */
  lemma FoldLinesStep(lines: seq<SummaryLine>, i: int)
    requires 0 <= i < |lines|
    ensures var prev := Fold(map[], LabelEntries(lines[..i]));
      Fold(map[], LabelEntries(lines[..i + 1])) == prev[lines[i].category := Get0(prev, lines[i].category) + lines[i].amount]
  {
    assert lines[..i + 1] == lines[..i] + [lines[i]];
    LabelEntriesSnoc(lines[..i], lines[i]);
    FoldSnoc(map[], LabelEntries(lines[..i]), Entry(lines[i].category, lines[i].amount));
  }

  /** The grouping loop's map, over all the lines, is `Totals`. */
  lemma FoldIsTotals(lines: seq<SummaryLine>)
    ensures Fold(map[], LabelEntries(lines)) == Totals(lines)
  {
    FoldAccumulates(map[], {}, LabelEntries(lines));
    var m, t := Fold(map[], LabelEntries(lines)), Totals(lines);
    assert m.Keys == t.Keys;
    forall k | k in m ensures m[k] == t[k] {
    }
  }

  lemma LabelEntriesSnoc(a: seq<SummaryLine>, x: SummaryLine)
    ensures LabelEntries(a + [x]) == LabelEntries(a) + [Entry(x.category, x.amount)]
  {
    var l, r := LabelEntries(a + [x]), LabelEntries(a) + [Entry(x.category, x.amount)];
    forall i | 0 <= i < |l| ensures l[i] == r[i] {
      assert (a + [x])[i] == if i < |a| then a[i] else x;
    }
  }

  /** `spent > c.limit ? 'OVER BUDGET' : spent > c.limit * 0.8 ? 'WARNING' :
      'OK'`, with the 80 % test in whole numbers. */
  function StatusOf(spent: int, limit: int): (r: Status)
    ensures r == OverBudget <==> spent > limit
    ensures r == Warning <==> spent <= limit && 5 * spent > 4 * limit
    ensures r == Ok <==> spent <= limit && 5 * spent <= 4 * limit
  {
    if spent > limit then OverBudget else if 5 * spent > 4 * limit then Warning else Ok
  }

  /** Spending exactly the limit is a warning, never over budget, for a
      positive limit. */
  lemma AtLimitIsWarning(limit: int)
    requires limit > 0
    ensures StatusOf(limit, limit) == Warning
  {
  }

  /** `budgetStatus`: one line per category, in category order; a category
      is looked up in the totals by its NAME. */
  function BudgetStatus(cs: seq<Category>, totals: map<string, int>): (r: seq<BudgetLine>)
    ensures |r| == |cs|
    ensures forall i :: 0 <= i < |cs| ==>
              && r[i].category == cs[i].name
              && r[i].limit == cs[i].limit
              && r[i].spent == Get0(totals, cs[i].name)
              && r[i].status == StatusOf(r[i].spent, r[i].limit)
  {
    seq(|cs|, i requires 0 <= i < |cs| =>
      var spent := Get0(totals, cs[i].name);
      BudgetLine(cs[i].name, cs[i].limit, spent, StatusOf(spent, cs[i].limit)))
  }

  /** The summary the response returns and the prompt shows. */
  function SummaryOf(req: AnalyzeRequest): Summary
  {
    var lines := ExpenseSummary(req.categories, req.expenses);
    var totals := Totals(lines);
    Summary(Total(LabelEntries(lines)), SumLimits(req.categories), totals,
            BudgetStatus(req.categories, totals), req.startDate, req.endDate)
  }

  /** The prompt: the summary's figures and the first 20 transactions. */
  function PromptOf(req: AnalyzeRequest): (p: Prompt)
    ensures |p.recent| == if |req.expenses| < RECENT then |req.expenses| else RECENT
    ensures forall i :: 0 <= i < |p.recent| ==> p.recent[i] == ExpenseSummary(req.categories, req.expenses)[i]
  {
    var s := SummaryOf(req);
    Prompt(s.startDate, s.endDate, s.totalSpent, s.totalBudget, s.budgetStatus,
           Take(ExpenseSummary(req.categories, req.expenses), RECENT))
  }

  /** `completion.choices[0]?.message?.content || 'Unable to generate
      analysis'`. */
  function AnalysisText(content: Option<string>): (r: string)
    ensures r != ""
    ensures content.Some? && content.value != "" ==> r == content.value
    ensures content.None? || content.value == "" ==> r == NO_ANALYSIS
  {
    if content.Some? && content.value != "" then content.value else NO_ANALYSIS
  }

  /** `POST /api/analyze`. `request` is `None` when the body is not the
      expected JSON; `apiKey` is the environment variable; `complete` stands
      for the chat-completion call. */
  method Post(request: Option<AnalyzeRequest>, apiKey: Option<string>, complete: Prompt -> Completion)
    returns (response: Response)
    ensures request.None? ==> response == Failure(500, FAILED)
    ensures request.Some? && (apiKey.None? || apiKey.value == "") ==> response == Failure(500, NO_KEY)
    ensures request.Some? && apiKey.Some? && apiKey.value != "" ==>
              match complete(PromptOf(request.value))
              case CallFailed => response == Failure(500, FAILED)
              case Answered(content) => response == Analysis(AnalysisText(content), SummaryOf(request.value))
  {
    if request.None? {
      return Failure(500, FAILED);
    }
    var req := request.value;
    if apiKey.None? || apiKey.value == "" {
      return Failure(500, NO_KEY);
    }
    var lines := ExpenseSummary(req.categories, req.expenses);
    var totals := CategoryTotals(lines);
    var order := KeyOrder(totals);
    var totalSpent := SumValues(totals, order);
    MapTotal(totals, LabelEntries(lines), order);
    var summary := Summary(totalSpent, SumLimits(req.categories), totals,
                           BudgetStatus(req.categories, totals), req.startDate, req.endDate);
    var prompt := Prompt(req.startDate, req.endDate, totalSpent, summary.totalBudget, summary.budgetStatus,
                         Take(lines, RECENT));
    match complete(prompt)
    case CallFailed =>
      response := Failure(500, FAILED);
    case Answered(content) =>
      response := Analysis(AnalysisText(content), summary);
  }

  /** The total spent equals the sum of every expense amount: expenses under
      an unknown id land in the `Unknown` bucket and still count. */
  lemma TotalSpentIsAllAmounts(req: AnalyzeRequest)
    ensures SummaryOf(req).totalSpent == SumAmounts(req.expenses)
  {
    var lines := ExpenseSummary(req.categories, req.expenses);
    EntriesTotal(req.categories, req.expenses);
  }

  lemma EntriesTotal(cs: seq<Category>, es: seq<Expense>)
    ensures Total(LabelEntries(ExpenseSummary(cs, es))) == SumAmounts(es)
  {
    AmountsTotal(LabelEntries(ExpenseSummary(cs, es)), es);
  }

  /** Entries carrying the expenses' amounts, in order, total their sum. */
  lemma {:induction false} AmountsTotal(entries: seq<Entry<string>>, es: seq<Expense>)
    requires |entries| == |es| && forall i :: 0 <= i < |es| ==> entries[i].amount == es[i].amount
    ensures Total(entries) == SumAmounts(es)
  {
    if es != [] {
      var init, last := es[..|es| - 1], es[|es| - 1];
      AmountsTotal(entries[..|es| - 1], init);
      assert es == init + [last];
      SumAmountsConcat(init, [last]);
    }
  }

  /** Entries carrying the expenses' amounts, in order, hold under a key
      the sum of the expenses whose entry has that key. */
  lemma {:induction false} KeyAmounts(entries: seq<Entry<string>>, es: seq<Expense>, key: string, p: Expense -> bool)
    requires |entries| == |es|
    requires forall i :: 0 <= i < |es| ==> entries[i].amount == es[i].amount && (entries[i].key == key <==> p(es[i]))
    ensures KeyTotal(entries, key) == SumAmounts(Filter(es, p))
  {
    if es != [] {
      var init, last := es[..|es| - 1], es[|es| - 1];
      KeyAmounts(entries[..|es| - 1], init, key, p);
      assert es == init + [last];
      FilterConcat(init, [last], p);
      SumAmountsConcat(Filter(init, p), Filter([last], p));
    }
  }

  /** The total budget is the sum of the limits. */
  lemma TotalBudgetIsLimits(req: AnalyzeRequest)
    ensures SummaryOf(req).totalBudget == SumLimits(req.categories)
  {
  }

  /** The amounts of a label's expenses, summed: the reference definition of
      a `categoryTotals` entry. */
  function LabelSpent(cs: seq<Category>, es: seq<Expense>, key: string): int
  {
    SumAmounts(Filter(es, (e: Expense) => Label(cs, e.categoryId) == key))
  }

  lemma TotalsByLabel(cs: seq<Category>, es: seq<Expense>, key: string)
    ensures KeyTotal(LabelEntries(ExpenseSummary(cs, es)), key) == LabelSpent(cs, es, key)
  {
    KeyAmounts(LabelEntries(ExpenseSummary(cs, es)), es, key, (e: Expense) => Label(cs, e.categoryId) == key);
  }

  /** Each line of the budget status reads its spending from the label equal
      to the category's name: two categories with one name both show the
      name's whole total, and a category named `Unknown` also shows the
      spending of expenses whose category is missing. */
  lemma BudgetStatusSpent(req: AnalyzeRequest, i: int)
    requires 0 <= i < |req.categories|
    ensures SummaryOf(req).budgetStatus[i].spent == LabelSpent(req.categories, req.expenses, req.categories[i].name)
  {
    var lines := ExpenseSummary(req.categories, req.expenses);
    var name := req.categories[i].name;
    TotalsByLabel(req.categories, req.expenses, name);
    if name !in Totals(lines) {
      KeyTotalAbsent(LabelEntries(lines), name);
    }
  }

  /** An expense whose category id is missing is labelled `Unknown` and its
      amount is in the `Unknown` total. */
  lemma OrphanIsUnknown(req: AnalyzeRequest, i: int)
    requires 0 <= i < |req.expenses| && req.expenses[i].categoryId !in CategoryIds(req.categories)
    ensures ExpenseSummary(req.categories, req.expenses)[i].category == UNKNOWN
    ensures UNKNOWN in SummaryOf(req).categoryTotals
  {
    var lines := ExpenseSummary(req.categories, req.expenses);
    assert LabelEntries(lines)[i].key == UNKNOWN;
  }
}
