/** The app's records (`src/types/index.ts`). Money is whole yen (`int`);
    dates are the `yyyy-MM-dd` strings the records carry. */
module Types {
  import opened Seqs

  datatype Category = Category(id: string, name: string, limit: int, color: string, isEssential: bool)

  datatype Expense = Expense(id: string, categoryId: string, amount: int, description: string,
                             date: string, createdAt: string)

  datatype MonthlyBudget = MonthlyBudget(categories: seq<Category>, expenses: seq<Expense>)

  /** The persisted part of the app state; `selectedMonth` is `yyyy-MM`. */
  datatype AppState = AppState(isSetupComplete: bool, monthlyIncome: int, categories: seq<Category>,
                               expenses: seq<Expense>, selectedMonth: string)

  datatype SpendingSummary = SpendingSummary(categoryId: string, categoryName: string, limit: int, spent: int,
                                             remaining: int, percentage: real, isOverBudget: bool)

  datatype AnalysisRequest = AnalysisRequest(startDate: string, endDate: string)

  datatype DayExpense = DayExpense(date: string, expenses: seq<Expense>, total: int)

  /** `categories.reduce((sum, c) => sum + c.limit, 0)`. */
  function SumLimits(cs: seq<Category>): int
  {
    if cs == [] then 0 else cs[0].limit + SumLimits(cs[1..])
  }

  /** `expenses.reduce((sum, e) => sum + e.amount, 0)`. */
  function SumAmounts(es: seq<Expense>): int
  {
    if es == [] then 0 else es[0].amount + SumAmounts(es[1..])
  }

  lemma {:induction false} SumAmountsConcat(a: seq<Expense>, b: seq<Expense>)
    ensures SumAmounts(a + b) == SumAmounts(a) + SumAmounts(b)
  {
    if a == [] {
      assert a + b == b;
    } else {
      assert (a + b)[1..] == a[1..] + b;
      SumAmountsConcat(a[1..], b);
    }
  }

  /** Category ids are unique within a user's list. */
  predicate UniqueIds(cs: seq<Category>)
  {
    forall i, j :: 0 <= i < j < |cs| ==> cs[i].id != cs[j].id
  }

  function CategoryIds(cs: seq<Category>): (ids: set<string>)
    ensures forall i :: 0 <= i < |cs| ==> cs[i].id in ids
    ensures forall k :: k in ids ==> exists i :: 0 <= i < |cs| && cs[i].id == k
  {
    set c | c in cs :: c.id
  }

  /** Appending a category adds its id to the ids. */
  lemma CategoryIdsSnoc(cs: seq<Category>, c: Category)
    ensures CategoryIds(cs + [c]) == CategoryIds(cs) + {c.id}
  {
    assert forall x :: x in cs + [c] <==> x in cs || x == c;
  }

  /** The ids are the head's and the tail's; with unique ids, the head's id
      is not listed again in the tail. */
  lemma CategoryIdsCons(cs: seq<Category>)
    requires cs != []
    ensures CategoryIds(cs) == {cs[0].id} + CategoryIds(cs[1..])
    ensures UniqueIds(cs) ==> cs[0].id !in CategoryIds(cs[1..])
  {
    assert forall x :: x in cs <==> x == cs[0] || x in cs[1..];
  }

  /** `categories.find((c) => c.id === id)`: the first category with that id. */
  function FindCategory(cs: seq<Category>, id: string): (r: Option<Category>)
    ensures r.None? <==> id !in CategoryIds(cs)
    ensures r.Some? ==> r.value.id == id && r.value in cs
    ensures r.Some? ==> exists i :: 0 <= i < |cs| && cs[i] == r.value && forall j :: 0 <= j < i ==> cs[j].id != id
  {
    Find(cs, (c: Category) => c.id == id)
  }

  /** With unique ids, the category found for an id is the one listed under it. */
  lemma FindUnique(cs: seq<Category>, i: int)
    requires UniqueIds(cs) && 0 <= i < |cs|
    ensures FindCategory(cs, cs[i].id) == Some(cs[i])
  {
    var r := FindCategory(cs, cs[i].id);
    var k :| 0 <= k < |cs| && cs[k] == r.value && forall j :: 0 <= j < k ==> cs[j].id != cs[i].id;
    assert k == i;
  }
}
