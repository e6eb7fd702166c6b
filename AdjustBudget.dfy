/** Moving budget from one category to an over-budget one
    (`src/components/AdjustBudgetModal.tsx`): the donor candidates, the amount
    moved and the rewrite of the two limits. */
module AdjustBudget {
  import opened Seqs
  import opened Types
  import opened Ledger
  import opened ExpenseContext
  import opened BudgetOverview

  /** An entry of `availableSources`: the category with its spending in the
      selected month and what is left of its limit. */
  datatype Source = Source(category: Category, spent: int, remaining: int)

  /** `Math.abs(overBudgetCategory.remaining)`. */
  function AmountNeeded(over: SpendingSummary): (r: int)
    ensures r >= 0
    ensures r == over.remaining || r == -over.remaining
  {
    if over.remaining < 0 then -over.remaining else over.remaining
  }

  /** The filter of `availableSources`: not the over-budget category itself,
      not essential, and some budget left. */
  predicate Eligible(c: Category, spending: map<string, int>, targetId: string)
  {
    c.id != targetId && !c.isEssential && c.limit - Get0(spending, c.id) > 0
  }

  function Categories(ss: seq<Source>): (r: seq<Category>)
    ensures |r| == |ss| && forall i :: 0 <= i < |ss| ==> r[i] == ss[i].category
  {
    seq(|ss|, i requires 0 <= i < |ss| => ss[i].category)
  }

  /** `availableSources` over a spending map: the eligible categories, in
      category order, each with its spent and remaining amounts. */
  function AvailableSources(cs: seq<Category>, spending: map<string, int>, targetId: string): (r: seq<Source>)
    ensures Categories(r) == Filter(cs, (c: Category) => Eligible(c, spending, targetId))
    ensures forall i :: 0 <= i < |r| ==>
              && r[i].category in cs
              && r[i].category.id != targetId
              && !r[i].category.isEssential
              && r[i].spent == Get0(spending, r[i].category.id)
              && r[i].remaining == r[i].category.limit - r[i].spent
              && r[i].remaining > 0
  {
    if cs == [] then []
    else
      var c := cs[0];
      var spent := Get0(spending, c.id);
      var rest := AvailableSources(cs[1..], spending, targetId);
      var head := if Eligible(c, spending, targetId) then [Source(c, spent, c.limit - spent)] else [];
      CategoriesConcat(head, rest);
      assert Categories(head) == if Eligible(c, spending, targetId) then [c] else [];
      head + rest
  }

  lemma CategoriesConcat(a: seq<Source>, b: seq<Source>)
    ensures Categories(a + b) == Categories(a) + Categories(b)
  {
  }

  /** The sources the modal offers, from the selected month's spending. */
  function Sources(s: State, over: SpendingSummary): seq<Source>
  {
    AvailableSources(s.categories, CurrentSpending(s), over.categoryId)
  }

  /** Every offered source carries its category's true spending in the
      selected month and a positive remaining budget. */
  lemma SourcesSpent(s: State, over: SpendingSummary, i: int)
    requires 0 <= i < |Sources(s, over)|
    ensures var x := Sources(s, over)[i];
      && x.spent == Spent(s.expenses, s.selectedMonth, x.category.id)
      && x.category.limit - Spent(s.expenses, s.selectedMonth, x.category.id) > 0
  {
    SpendingLookup(s.categories, s.expenses, s.selectedMonth, Sources(s, over)[i].category.id);
  }

  /** `availableSources.find((s) => s.id === selectedSourceId)`. */
  function SelectedSource(sources: seq<Source>, selectedId: string): (r: Option<Source>)
    ensures r.None? <==> forall i :: 0 <= i < |sources| ==> sources[i].category.id != selectedId
    ensures r.Some? ==> r.value in sources && r.value.category.id == selectedId
    ensures r.Some? ==> exists i :: 0 <= i < |sources| && sources[i] == r.value
                                    && forall j :: 0 <= j < i ==> sources[j].category.id != selectedId
  {
    Find(sources, (x: Source) => x.category.id == selectedId)
  }

  /** `transferAmount`: the smaller of what is needed and what the source
      has left; 0 without a source. */
  function TransferAmount(needed: int, selected: Option<Source>): (r: int)
    ensures selected.None? ==> r == 0
    ensures selected.Some? ==> r <= needed && r <= selected.value.remaining
    ensures selected.Some? ==> r == needed || r == selected.value.remaining
  {
    match selected
    case None => 0
    case Some(x) => if needed < x.remaining then needed else x.remaining
  }

  /** `canTransfer`: a source is selected and it covers the whole overage. */
  predicate CanTransfer(needed: int, selected: Option<Source>)
  {
    selected.Some? && selected.value.remaining >= needed
  }

  /** With a source selected, the transfer covers the whole need exactly when
      `canTransfer` holds; otherwise it takes all the source has left. */
  lemma CanTransferIsFullCover(needed: int, selected: Option<Source>)
    requires selected.Some?
    ensures CanTransfer(needed, selected) <==> TransferAmount(needed, selected) == needed
    ensures !CanTransfer(needed, selected) ==> TransferAmount(needed, selected) == selected.value.remaining < needed
  {
  }

  /** The `map` in `handleAdjust`: the target gains `amount`, the source
      loses it, every other category is returned as it was. */
  function RewriteLimits(cs: seq<Category>, targetId: string, sourceId: string, amount: int): (r: seq<Category>)
    ensures |r| == |cs|
    ensures forall i :: 0 <= i < |cs| ==> r[i] == cs[i].(limit := r[i].limit)
  {
    seq(|cs|, i requires 0 <= i < |cs| =>
      if cs[i].id == targetId then cs[i].(limit := cs[i].limit + amount)
      else if cs[i].id == sourceId then cs[i].(limit := cs[i].limit - amount)
      else cs[i])
  }

  /** `handleAdjust`: nothing when no offered source has the selected id;
      otherwise the rewritten list handed to `updateCategories`. */
  function HandleAdjust(s: State, over: SpendingSummary, selectedId: string): (r: Option<seq<Category>>)
    ensures r.None? <==> forall i :: 0 <= i < |Sources(s, over)| ==> Sources(s, over)[i].category.id != selectedId
    ensures r.Some? ==> r.value == RewriteLimits(s.categories, over.categoryId, selectedId,
                                                 TransferAmount(AmountNeeded(over), SelectedSource(Sources(s, over), selectedId)))
  {
    var selected := SelectedSource(Sources(s, over), selectedId);
    if selected.None? then None
    else Some(RewriteLimits(s.categories, over.categoryId, selectedId, TransferAmount(AmountNeeded(over), selected)))
  }

  /** Only the target's and the source's limits move, by exactly the amount. */
  lemma RewriteTouchesTwo(cs: seq<Category>, targetId: string, sourceId: string, amount: int, i: int)
    requires 0 <= i < |cs|
    ensures var r := RewriteLimits(cs, targetId, sourceId, amount);
      && (cs[i].id == targetId ==> r[i].limit == cs[i].limit + amount)
      && (cs[i].id != targetId && cs[i].id == sourceId ==> r[i].limit == cs[i].limit - amount)
      && (cs[i].id != targetId && cs[i].id != sourceId ==> r[i] == cs[i])
  {
  }

  /** What `handleAdjust` sends: the category list in order, where the
      over-budget category gains the transfer amount, the selected source
      loses it, and every other category is sent as it was. */
  lemma HandleAdjustMoves(s: State, over: SpendingSummary, selectedId: string, i: int)
    requires HandleAdjust(s, over, selectedId).Some? && 0 <= i < |s.categories|
    ensures var sent := HandleAdjust(s, over, selectedId).value;
      var amount := TransferAmount(AmountNeeded(over), SelectedSource(Sources(s, over), selectedId));
      var c := s.categories[i];
      && |sent| == |s.categories| && sent[i] == c.(limit := sent[i].limit)
      && (c.id == over.categoryId ==> sent[i].limit == c.limit + amount)
      && (c.id != over.categoryId && c.id == selectedId ==> sent[i].limit == c.limit - amount)
      && (c.id != over.categoryId && c.id != selectedId ==> sent[i] == c)
  {
    var amount := TransferAmount(AmountNeeded(over), SelectedSource(Sources(s, over), selectedId));
    RewriteTouchesTwo(s.categories, over.categoryId, selectedId, amount, i);
  }

  /** With unique ids, the sum of limits gains `amount` if the target id is
      listed and loses it if the source id is listed. */
  lemma {:induction false} RewriteSum(cs: seq<Category>, targetId: string, sourceId: string, amount: int)
    requires UniqueIds(cs) && targetId != sourceId
    ensures SumLimits(RewriteLimits(cs, targetId, sourceId, amount))
            == SumLimits(cs) + (if targetId in CategoryIds(cs) then amount else 0)
                             - (if sourceId in CategoryIds(cs) then amount else 0)
  {
    if cs != [] {
      var rest := cs[1..];
      assert UniqueIds(rest);
      RewriteSum(rest, targetId, sourceId, amount);
      RewriteTail(cs, targetId, sourceId, amount);
      CategoryIdsCons(cs);
    }
  }

  lemma RewriteTail(cs: seq<Category>, targetId: string, sourceId: string, amount: int)
    requires cs != []
    ensures SumLimits(RewriteLimits(cs, targetId, sourceId, amount))
            == RewriteLimits(cs, targetId, sourceId, amount)[0].limit + SumLimits(RewriteLimits(cs[1..], targetId, sourceId, amount))
  {
    assert RewriteLimits(cs, targetId, sourceId, amount)[1..] == RewriteLimits(cs[1..], targetId, sourceId, amount);
  }

  /** With unique ids and the over-budget category in the list, an
      adjustment keeps the total budget as it was. */
  lemma AdjustKeepsTotal(s: State, over: SpendingSummary, selectedId: string)
    requires UniqueIds(s.categories)
    requires over.categoryId in CategoryIds(s.categories)
    ensures var r := HandleAdjust(s, over, selectedId);
      r.Some? ==> SumLimits(r.value) == SumLimits(s.categories)
  {
    var selected := SelectedSource(Sources(s, over), selectedId);
    if selected.Some? {
      var amount := TransferAmount(AmountNeeded(over), selected);
      assert selected.value.category in s.categories;
      RewriteSum(s.categories, over.categoryId, selectedId, amount);
    }
  }

  /** After an adjustment the source's new limit still covers what it has
      spent, because no more than its remaining budget is taken. */
  lemma SourceStaysCovered(s: State, over: SpendingSummary, selectedId: string, i: int)
    requires UniqueIds(s.categories)
    requires 0 <= i < |s.categories| && s.categories[i].id == selectedId
    ensures var r := HandleAdjust(s, over, selectedId);
      r.Some? ==> r.value[i].limit >= Spent(s.expenses, s.selectedMonth, selectedId)
  {
    var sources := Sources(s, over);
    var selected := SelectedSource(sources, selectedId);
    if selected.Some? {
      var x := selected.value;
      var j :| 0 <= j < |sources| && sources[j] == x;
      SourcesSpent(s, over, j);
      var k :| 0 <= k < |s.categories| && s.categories[k] == x.category;
      assert k == i;
      RewriteTouchesTwo(s.categories, over.categoryId, selectedId, TransferAmount(AmountNeeded(over), selected), i);
    }
  }

  /** When the transfer covers the whole overage, the over-budget category's
      new limit equals what it has spent: it is no longer over budget. */
  lemma FullTransferClears(s: State, selectedId: string, k: int)
    requires 0 <= k < |s.categories|
    requires var over := Summarize(s.categories[k], CurrentSpending(s));
      over.isOverBudget && CanTransfer(AmountNeeded(over), SelectedSource(Sources(s, over), selectedId))
    ensures var over := Summarize(s.categories[k], CurrentSpending(s));
      var r := HandleAdjust(s, over, selectedId);
      r.Some? && r.value[k].limit == over.spent && !(r.value[k].limit < over.spent)
  {
    var over := Summarize(s.categories[k], CurrentSpending(s));
    var selected := SelectedSource(Sources(s, over), selectedId);
    CanTransferIsFullCover(AmountNeeded(over), selected);
    RewriteTouchesTwo(s.categories, over.categoryId, selectedId, AmountNeeded(over), k);
  }
}
