/** The app-wide state (`src/context/ExpenseContext.tsx`): the reducer that
    every server round-trip ends in, and the spending queries that the
    dashboard components derive from the state. */
module ExpenseContext {
  import opened Seqs
  import opened Types
  import opened Ledger

  /** `ExtendedAppState`: the persisted state plus the loading flag. */
  datatype State = State(isSetupComplete: bool, monthlyIncome: int, categories: seq<Category>,
                         expenses: seq<Expense>, selectedMonth: string, isLoading: bool)

  datatype Action =
    | SetInitialState(snapshot: AppState)
    | SetLoading(loading: bool)
    | CompleteSetup(setupCategories: seq<Category>, setupIncome: int)
    | AddExpense(added: Expense)
    | UpdateExpense(updated: Expense)
    | DeleteExpense(deletedId: string)
    | SetSelectedMonth(month: string)
    | UpdateCategories(newCategories: seq<Category>)
    | UpdateIncome(income: int)
    | ResetApp
      /** Any other action type reaches the `default` branch. */
    | Unrecognized(kind: string)

  /** `initialState`. Its month is the UTC month at the moment the module was
      loaded, which is why it is a parameter here. */
  function InitialState(launchMonth: string): State
  {
    State(false, 0, [], [], launchMonth, true)
  }

  /** `expenseReducer`. */
  function Reduce(launchMonth: string, s: State, a: Action): State
  {
    match a
    case SetInitialState(p) =>
      State(p.isSetupComplete, p.monthlyIncome, p.categories, p.expenses, p.selectedMonth, false)
    case SetLoading(b) => s.(isLoading := b)
    case CompleteSetup(cs, income) => s.(isSetupComplete := true, categories := cs, monthlyIncome := income)
    case AddExpense(e) => s.(expenses := [e] + s.expenses)
    case UpdateExpense(e) => s.(expenses := ReplaceExpense(s.expenses, e))
    case DeleteExpense(id) => s.(expenses := RemoveExpense(s.expenses, id))
    case SetSelectedMonth(m) => s.(selectedMonth := m)
    case UpdateCategories(cs) => s.(categories := cs)
    case UpdateIncome(income) => s.(monthlyIncome := income)
    case ResetApp => InitialState(launchMonth).(isLoading := false)
    case Unrecognized(_) => s
  }

  /** `expenses.map((e) => e.id === x.id ? x : e)`. */
  function ReplaceExpense(es: seq<Expense>, x: Expense): seq<Expense>
  {
    seq(|es|, i requires 0 <= i < |es| => if es[i].id == x.id then x else es[i])
  }

  /** `expenses.filter((e) => e.id !== id)`. */
  function RemoveExpense(es: seq<Expense>, id: string): seq<Expense>
  {
    Filter(es, (e: Expense) => e.id != id)
  }

  /** ADD_EXPENSE puts the new expense first, keeps the old list behind it and
      changes nothing else. */
  lemma ReduceAddExpense(launchMonth: string, s: State, e: Expense)
    ensures var r := Reduce(launchMonth, s, AddExpense(e));
      |r.expenses| == |s.expenses| + 1 && r.expenses[0] == e && r.expenses[1..] == s.expenses
      && r.(expenses := s.expenses) == s
  {
  }

  /** UPDATE_EXPENSE swaps in the payload exactly where the id matches, keeps
      every other entry where it was, and changes nothing else. */
  lemma ReduceUpdateExpense(launchMonth: string, s: State, e: Expense)
    ensures var r := Reduce(launchMonth, s, UpdateExpense(e));
      && |r.expenses| == |s.expenses|
      && (forall i :: 0 <= i < |s.expenses| && s.expenses[i].id == e.id ==> r.expenses[i] == e)
      && (forall i :: 0 <= i < |s.expenses| && s.expenses[i].id != e.id ==> r.expenses[i] == s.expenses[i])
      && r.(expenses := s.expenses) == s
  {
  }

  /** Updating is idempotent, and leaves every position's id as it was. */
  lemma ReplaceExpenseIdempotent(es: seq<Expense>, e: Expense)
    ensures ReplaceExpense(ReplaceExpense(es, e), e) == ReplaceExpense(es, e)
    ensures forall i :: 0 <= i < |es| ==> ReplaceExpense(es, e)[i].id == es[i].id
  {
  }

  /** DELETE_EXPENSE leaves no expense with that id, keeps every other one,
      and changes nothing else. */
  lemma ReduceDeleteExpense(launchMonth: string, s: State, id: string)
    ensures var r := Reduce(launchMonth, s, DeleteExpense(id));
      && (forall i :: 0 <= i < |r.expenses| ==> r.expenses[i].id != id && r.expenses[i] in s.expenses)
      && (forall i :: 0 <= i < |s.expenses| && s.expenses[i].id != id ==> s.expenses[i] in r.expenses)
      && |r.expenses| == Count(s.expenses, (e: Expense) => e.id != id)
      && r.(expenses := s.expenses) == s
  {
    FilterLength(s.expenses, (e: Expense) => e.id != id);
  }

  /** Deleting keeps the survivors in order: deleting from two lists joined is
      joining the two deletions. */
  lemma RemoveExpenseConcat(a: seq<Expense>, b: seq<Expense>, id: string)
    ensures RemoveExpense(a + b, id) == RemoveExpense(a, id) + RemoveExpense(b, id)
  {
    FilterConcat(a, b, (e: Expense) => e.id != id);
  }

  /** Deleting an expense just added undoes the addition when its id was new. */
  lemma AddThenDelete(launchMonth: string, s: State, e: Expense)
    requires forall i :: 0 <= i < |s.expenses| ==> s.expenses[i].id != e.id
    ensures Reduce(launchMonth, Reduce(launchMonth, s, AddExpense(e)), DeleteExpense(e.id)) == s
  {
    var p := (x: Expense) => x.id != e.id;
    FilterConcat([e], s.expenses, p);
    FilterAll(s.expenses, p);
  }

  /** SET_SELECTED_MONTH, UPDATE_CATEGORIES and UPDATE_INCOME change their own
      field only; an unrecognised action changes nothing. */
  lemma ReduceOwnField(launchMonth: string, s: State, m: string, cs: seq<Category>, income: int, kind: string)
    ensures Reduce(launchMonth, s, SetSelectedMonth(m)) == s.(selectedMonth := m)
    ensures Reduce(launchMonth, s, UpdateCategories(cs)) == s.(categories := cs)
    ensures Reduce(launchMonth, s, UpdateIncome(income)) == s.(monthlyIncome := income)
    ensures Reduce(launchMonth, s, Unrecognized(kind)) == s
  {
  }

  /** RESET_APP returns the initial state, loaded; SET_INITIAL_STATE always
      clears the loading flag and keeps nothing of the old state. */
  lemma ReduceResetAndLoad(launchMonth: string, s: State, snapshot: AppState)
    ensures Reduce(launchMonth, s, ResetApp) == InitialState(launchMonth).(isLoading := false)
    ensures var r := Reduce(launchMonth, s, SetInitialState(snapshot));
      !r.isLoading && r.categories == snapshot.categories && r.expenses == snapshot.expenses
      && r.selectedMonth == snapshot.selectedMonth && r.monthlyIncome == snapshot.monthlyIncome
      && r.isSetupComplete == snapshot.isSetupComplete
  {
  }

  // ---------------------------------------------------------------------------
  // Spending queries

  /** `month || state.selectedMonth`: an omitted (or empty) month means the
      selected one. */
  function TargetMonth(month: string, selected: string): string
  {
    if month == "" then selected else month
  }

  /** The (category id, amount) entries of the expenses whose date starts with
      `month`, in list order. */
  function MonthEntries(es: seq<Expense>, month: string): seq<Entry<string>>
  {
    if es == [] then []
    else
      var e := es[|es| - 1];
      MonthEntries(es[..|es| - 1], month) + (if month <= e.date then [Entry(e.categoryId, e.amount)] else [])
  }

  /** The map `getSpendingByCategory` builds: a key for every category and for
      every category id an expense of the month names, holding its total. */
  function SpendingMap(cs: seq<Category>, es: seq<Expense>, month: string): map<string, int>
  {
    var entries := MonthEntries(es, month);
    map k | k in CategoryIds(cs) + KeysOf(entries) :: KeyTotal(entries, k)
  }

  /** Reference definition: the amounts of the expenses of one category whose
      date starts with the month, summed. */
  function Spent(es: seq<Expense>, month: string, id: string): int
  {
    SumAmounts(Filter(es, (e: Expense) => e.categoryId == id && month <= e.date))
  }

  /** A category with no expense in the month has spent 0. */
  lemma {:induction false} SpentNothing(es: seq<Expense>, month: string, id: string)
    requires forall i :: 0 <= i < |es| ==> es[i].categoryId != id || !(month <= es[i].date)
    ensures Spent(es, month, id) == 0
  {
    if es != [] {
      SpentNothing(es[1..], month, id);
    }
  }

  /** Reference definition: every amount dated in the month, summed. */
  function MonthSum(es: seq<Expense>, month: string): int
  {
    SumAmounts(Filter(es, (e: Expense) => month <= e.date))
  }

  /** The entries agree with the filters of the reference definitions. */
  lemma MonthEntriesSums(es: seq<Expense>, month: string, id: string)
    ensures KeyTotal(MonthEntries(es, month), id) == Spent(es, month, id)
    ensures Total(MonthEntries(es, month)) == MonthSum(es, month)
  {
    MonthEntriesSpent(es, month, id);
    MonthEntriesTotal(es, month);
  }

  lemma {:induction false} MonthEntriesSpent(es: seq<Expense>, month: string, id: string)
    ensures KeyTotal(MonthEntries(es, month), id) == Spent(es, month, id)
  {
    if es != [] {
      var init, e := es[..|es| - 1], es[|es| - 1];
      assert es == init + [e];
      MonthEntriesSpent(init, month, id);
      SumsSnoc(init, e, month, id);
      MonthEntriesTotalsSnoc(init, e, month, id);
    }
  }

  lemma {:induction false} MonthEntriesTotal(es: seq<Expense>, month: string)
    ensures Total(MonthEntries(es, month)) == MonthSum(es, month)
  {
    if es != [] {
      var init, e := es[..|es| - 1], es[|es| - 1];
      assert es == init + [e];
      MonthEntriesTotal(init, month);
      SumsSnoc(init, e, month, "");
      MonthEntriesTotalsSnoc(init, e, month, "");
    }
  }

  /** One more expense adds its amount to `Spent` and `MonthSum` when it
      counts for them. */
  lemma SumsSnoc(init: seq<Expense>, e: Expense, month: string, id: string)
    ensures Spent(init + [e], month, id) == Spent(init, month, id) + if e.categoryId == id && month <= e.date then e.amount else 0
    ensures MonthSum(init + [e], month) == MonthSum(init, month) + if month <= e.date then e.amount else 0
  {
    FilterSumSnoc(init, e, (x: Expense) => x.categoryId == id && month <= x.date);
    FilterSumSnoc(init, e, (x: Expense) => month <= x.date);
  }

  lemma FilterSumSnoc(init: seq<Expense>, e: Expense, p: Expense -> bool)
    ensures SumAmounts(Filter(init + [e], p)) == SumAmounts(Filter(init, p)) + if p(e) then e.amount else 0
  {
    FilterConcat(init, [e], p);
    SumAmountsConcat(Filter(init, p), Filter([e], p));
    assert Filter([e], p) == if p(e) then [e] else [];
  }

  /** One more expense adds its amount to the entries' totals when it is
      dated in the month. */
  lemma MonthEntriesTotalsSnoc(init: seq<Expense>, e: Expense, month: string, id: string)
    ensures KeyTotal(MonthEntries(init + [e], month), id)
            == KeyTotal(MonthEntries(init, month), id) + if e.categoryId == id && month <= e.date then e.amount else 0
    ensures Total(MonthEntries(init + [e], month)) == Total(MonthEntries(init, month)) + if month <= e.date then e.amount else 0
  {
    assert (init + [e])[..|init|] == init;
    var before := MonthEntries(init, month);
    if month <= e.date {
      var x := Entry(e.categoryId, e.amount);
      KeyTotalSnoc(before, x, id);
      assert (before + [x])[..|before|] == before;
    } else {
      assert MonthEntries(init + [e], month) == before;
    }
  }

  /** `getSpendingByCategory(month)`: first a zero for every category, then
      each expense of the month added to its category id's entry. */
  method GetSpendingByCategory(s: State, month: string) returns (spending: map<string, int>)
    ensures spending == SpendingMap(s.categories, s.expenses, TargetMonth(month, s.selectedMonth))
  {
    var target := TargetMonth(month, s.selectedMonth);
    spending := ZeroPerCategory(s.categories);
    spending := AddMonthExpenses(spending, CategoryIds(s.categories), s.expenses, target);
    var entries := MonthEntries(s.expenses, target);
    assert spending.Keys == SpendingMap(s.categories, s.expenses, target).Keys;
  }

  /** The first loop: a zero under every category id. */
  method ZeroPerCategory(cs: seq<Category>) returns (spending: map<string, int>)
    ensures spending.Keys == CategoryIds(cs)
    ensures forall k :: k in spending ==> spending[k] == 0
  {
    spending := map[];
    var i := 0;
    while i < |cs|
      invariant 0 <= i <= |cs|
      invariant spending.Keys == CategoryIds(cs[..i])
      invariant forall k :: k in spending ==> spending[k] == 0
    {
      CategoryIdsSnoc(cs[..i], cs[i]);
      assert cs[..i + 1] == cs[..i] + [cs[i]];
      spending := spending[cs[i].id := 0];
      i := i + 1;
    }
    assert cs[..i] == cs;
  }

  /** The second loop: each expense of the month added to its category id. */
  method AddMonthExpenses(seed: map<string, int>, seeded: set<string>, es: seq<Expense>, target: string)
    returns (spending: map<string, int>)
    requires seed.Keys == seeded
    requires forall k :: k in seed ==> seed[k] == 0
    ensures Accumulated(spending, seeded, MonthEntries(es, target))
  {
    spending := seed;
    var j := 0;
    while j < |es|
      invariant 0 <= j <= |es|
      invariant Accumulated(spending, seeded, MonthEntries(es[..j], target))
    {
      var e := es[j];
      ExpenseStep(spending, seeded, es, j, target);
      if target <= e.date {
        spending := spending[e.categoryId := Get0(spending, e.categoryId) + e.amount];
      }
      j := j + 1;
    }
    assert es[..j] == es;
  }

  /** The loop body of `AddMonthExpenses` keeps its invariant. */
  lemma ExpenseStep(m: map<string, int>, seeded: set<string>, es: seq<Expense>, j: int, target: string)
    requires 0 <= j < |es|
    requires Accumulated(m, seeded, MonthEntries(es[..j], target))
    ensures target <= es[j].date ==>
      Accumulated(m[es[j].categoryId := Get0(m, es[j].categoryId) + es[j].amount], seeded, MonthEntries(es[..j + 1], target))
    ensures !(target <= es[j].date) ==> Accumulated(m, seeded, MonthEntries(es[..j + 1], target))
  {
    if target <= es[j].date {
      ExpenseCounted(m, seeded, es, j, target);
    } else {
      ExpenseSkipped(m, seeded, es, j, target);
    }
  }

  /** The invariant is kept when the body adds an expense of the month ... */
  lemma ExpenseCounted(m: map<string, int>, seeded: set<string>, es: seq<Expense>, j: int, target: string)
    requires 0 <= j < |es| && target <= es[j].date
    requires Accumulated(m, seeded, MonthEntries(es[..j], target))
    ensures Accumulated(m[es[j].categoryId := Get0(m, es[j].categoryId) + es[j].amount], seeded, MonthEntries(es[..j + 1], target))
  {
    MonthEntriesSnoc(es, j, target);
    AccumulateStep(m, seeded, MonthEntries(es[..j], target), Entry(es[j].categoryId, es[j].amount));
  }

  /** ... and when it skips an expense of another month. */
  lemma ExpenseSkipped(m: map<string, int>, seeded: set<string>, es: seq<Expense>, j: int, target: string)
    requires 0 <= j < |es| && !(target <= es[j].date)
    requires Accumulated(m, seeded, MonthEntries(es[..j], target))
    ensures Accumulated(m, seeded, MonthEntries(es[..j + 1], target))
  {
    MonthEntriesSnoc(es, j, target);
  }

  lemma MonthEntriesSnoc(es: seq<Expense>, j: int, month: string)
    requires 0 <= j < |es|
    ensures month <= es[j].date ==>
              MonthEntries(es[..j + 1], month) == MonthEntries(es[..j], month) + [Entry(es[j].categoryId, es[j].amount)]
    ensures !(month <= es[j].date) ==> MonthEntries(es[..j + 1], month) == MonthEntries(es[..j], month)
  {
    assert es[..j + 1][..j] == es[..j];
  }

  /** `spending.get(id) || 0` agrees with the reference definition for every
      id: a category without expenses gets 0, and only expenses whose date
      starts with the month count. */
  lemma SpendingLookup(cs: seq<Category>, es: seq<Expense>, month: string, id: string)
    ensures Get0(SpendingMap(cs, es, month), id) == Spent(es, month, id)
    ensures id in CategoryIds(cs) ==> id in SpendingMap(cs, es, month)
  {
    MonthEntriesSums(es, month, id);
    if id !in SpendingMap(cs, es, month) {
      KeyTotalAbsent(MonthEntries(es, month), id);
    }
  }

  /** An expense of the month whose category id is not a category still gets
      its own entry (orphan ids are not dropped). */
  lemma OrphanKept(cs: seq<Category>, es: seq<Expense>, month: string, i: int)
    requires 0 <= i < |es| && month <= es[i].date
    ensures es[i].categoryId in SpendingMap(cs, es, month)
  {
    OrphanKeyed(es, month, i);
  }

  lemma {:induction false} OrphanKeyed(es: seq<Expense>, month: string, i: int)
    requires 0 <= i < |es| && month <= es[i].date
    ensures es[i].categoryId in KeysOf(MonthEntries(es, month))
  {
    var init := es[..|es| - 1];
    if i < |es| - 1 {
      OrphanKeyed(init, month, i);
      assert KeysOf(MonthEntries(init, month)) <= KeysOf(MonthEntries(es, month));
    } else {
      var last := MonthEntries(es, month)[|MonthEntries(es, month)| - 1];
      assert last == Entry(es[i].categoryId, es[i].amount);
    }
  }

  /** `getMonthlyTotal(month)`. */
  function GetMonthlyTotal(s: State, month: string): (r: int)
    ensures r == MonthSum(s.expenses, TargetMonth(month, s.selectedMonth))
  {
    var target := TargetMonth(month, s.selectedMonth);
    MonthEntriesSums(s.expenses, target, "");
    Total(MonthEntries(s.expenses, target))
  }

  /** The monthly total is the sum of every value of the spending map, however
      its keys are enumerated, with or without duplicate category ids. */
  lemma MonthlyTotalIsSpendingSum(s: State, month: string, ks: seq<string>)
    requires NoDup(ks)
    requires forall k :: k in SpendingMap(s.categories, s.expenses, TargetMonth(month, s.selectedMonth)) <==> k in ks
    ensures SumValues(SpendingMap(s.categories, s.expenses, TargetMonth(month, s.selectedMonth)), ks)
            == GetMonthlyTotal(s, month)
  {
    var target := TargetMonth(month, s.selectedMonth);
    MapTotal(SpendingMap(s.categories, s.expenses, target), MonthEntries(s.expenses, target), ks);
  }

  /** `isOverBudget(categoryId, month)`. */
  function IsOverBudget(s: State, id: string, month: string): (r: bool)
    ensures r <==> id in CategoryIds(s.categories)
                   && Spent(s.expenses, TargetMonth(month, s.selectedMonth), id) > FindCategory(s.categories, id).value.limit
  {
    var spending := SpendingMap(s.categories, s.expenses, TargetMonth(month, s.selectedMonth));
    SpendingLookup(s.categories, s.expenses, TargetMonth(month, s.selectedMonth), id);
    match FindCategory(s.categories, id)
    case None => false
    case Some(c) => Get0(spending, id) > c.limit
  }

  /** `getOverBudgetCategories(month)`: the categories whose spending is
      strictly above their limit, in category order. */
  function GetOverBudgetCategories(s: State, month: string): (r: seq<Category>)
    ensures forall i :: 0 <= i < |r| ==>
              r[i] in s.categories && Spent(s.expenses, TargetMonth(month, s.selectedMonth), r[i].id) > r[i].limit
    ensures forall i :: (0 <= i < |s.categories|
              && Spent(s.expenses, TargetMonth(month, s.selectedMonth), s.categories[i].id) > s.categories[i].limit)
              ==> s.categories[i] in r
    ensures r == Filter(s.categories, (c: Category) => Spent(s.expenses, TargetMonth(month, s.selectedMonth), c.id) > c.limit)
  {
    var target := TargetMonth(month, s.selectedMonth);
    var spending := SpendingMap(s.categories, s.expenses, target);
    forall id | true ensures Get0(spending, id) == Spent(s.expenses, target, id) {
      SpendingLookup(s.categories, s.expenses, target, id);
    }
    FilterCongruent(s.categories, (c: Category) => Get0(spending, c.id) > c.limit,
                    (c: Category) => Spent(s.expenses, TargetMonth(month, s.selectedMonth), c.id) > c.limit);
    Filter(s.categories, (c: Category) => Get0(spending, c.id) > c.limit)
  }

  /** With unique ids, a category is listed as over budget exactly when
      `isOverBudget` holds for its id; spending equal to the limit is not over. */
  lemma OverBudgetAgrees(s: State, month: string, i: int)
    requires UniqueIds(s.categories) && 0 <= i < |s.categories|
    ensures s.categories[i] in GetOverBudgetCategories(s, month) <==> IsOverBudget(s, s.categories[i].id, month)
    ensures Spent(s.expenses, TargetMonth(month, s.selectedMonth), s.categories[i].id) == s.categories[i].limit
            ==> !IsOverBudget(s, s.categories[i].id, month)
  {
    FindUnique(s.categories, i);
  }
}
