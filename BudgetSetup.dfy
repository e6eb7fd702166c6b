/** The first-run form (`src/components/BudgetSetup.tsx`): an editable list of
    categories whose limits are still text, the checks made before the list
    is submitted, and the totals shown under it. Number parsing
    (`parseFloat(x) || 0`) is the parameter `parse`. */
module BudgetSetup {
  import opened Seqs
  import opened Types
  import opened Text

  /** An entry of `DEFAULT_CATEGORIES`. */
  datatype Preset = Preset(name: string, color: string, isEssential: bool)

  const DEFAULT_CATEGORIES: seq<Preset> := [
    Preset("Rent", "#ef4444", true),
    Preset("Food", "#f97316", false),
    Preset("Transport", "#eab308", false),
    Preset("Utilities", "#22c55e", true),
    Preset("Entertainment", "#3b82f6", false),
    Preset("Shopping", "#8b5cf6", false),
    Preset("Healthcare", "#ec4899", true),
    Preset("Other", "#6b7280", false)
  ]

  const COLORS: seq<string> := [
    "#ef4444", "#f97316", "#eab308", "#22c55e", "#14b8a6",
    "#3b82f6", "#8b5cf6", "#ec4899", "#6b7280", "#84cc16"
  ]

  /** `cat-${index}` for the eight defaults. */
  const INITIAL_IDS: seq<string> := ["cat-0", "cat-1", "cat-2", "cat-3", "cat-4", "cat-5", "cat-6", "cat-7"]

  const NO_INCOME: string := "Please enter your monthly income"
  const NO_CATEGORY: string := "Please add at least one category with a budget limit"

  /** `CategoryInput`: a row of the form, its limit still the typed text. */
  datatype CategoryInput = CategoryInput(id: string, name: string, limit: string, color: string, isEssential: bool)

  /** `Omit<BudgetCategory, 'id'>`: a category as submitted. */
  datatype Draft = Draft(name: string, limit: int, color: string, isEssential: bool)

  /** The fields the form edits, with their new values. */
  datatype Edit = SetName(name: string) | SetLimit(limit: string) | SetColor(color: string) | SetEssential(essential: bool)

  datatype Submission = Refused(message: string) | Submit(categories: seq<Draft>, income: int)

  /** The list the form starts with: the defaults in order, ids `cat-0` to
      `cat-7`, no limit typed yet. */
  function InitialList(): (r: seq<CategoryInput>)
    ensures |r| == |DEFAULT_CATEGORIES| == |INITIAL_IDS| == 8
    ensures forall i :: 0 <= i < |r| ==>
              r[i] == CategoryInput(INITIAL_IDS[i], DEFAULT_CATEGORIES[i].name, "",
                                    DEFAULT_CATEGORIES[i].color, DEFAULT_CATEGORIES[i].isEssential)
  {
    seq(|DEFAULT_CATEGORIES|, i requires 0 <= i < |DEFAULT_CATEGORIES| =>
      CategoryInput(INITIAL_IDS[i], DEFAULT_CATEGORIES[i].name, "",
                    DEFAULT_CATEGORIES[i].color, DEFAULT_CATEGORIES[i].isEssential))
  }

  /** The initial ids are pairwise distinct, and Rent, Utilities and
      Healthcare start as essential. */
  lemma InitialListShape()
    ensures forall i, j :: 0 <= i < j < |InitialList()| ==> InitialList()[i].id != InitialList()[j].id
    ensures forall i :: 0 <= i < |InitialList()| ==>
              (InitialList()[i].isEssential <==> InitialList()[i].name in {"Rent", "Utilities", "Healthcare"})
  {
    forall i, j | 0 <= i < j < 8 ensures INITIAL_IDS[i] != INITIAL_IDS[j] {
      assert INITIAL_IDS[i][4] != INITIAL_IDS[j][4];
    }
  }

  /** `addCategory`: one empty, non-essential row at the end, coloured by the
      list's length. `newId` is `cat-${Date.now()}`. */
  function AddCategory(cs: seq<CategoryInput>, newId: string): (r: seq<CategoryInput>)
    ensures |r| == |cs| + 1 && r[..|cs|] == cs
    ensures r[|cs|] == CategoryInput(newId, "", "", COLORS[|cs| % 10], false)
  {
    cs + [CategoryInput(newId, "", "", COLORS[|cs| % |COLORS|], false)]
  }

  /** `removeCategory`: the rows under other ids, in order. */
  function RemoveCategory(cs: seq<CategoryInput>, id: string): (r: seq<CategoryInput>)
    ensures forall i :: 0 <= i < |r| ==> r[i] in cs && r[i].id != id
    ensures forall i :: 0 <= i < |cs| && cs[i].id != id ==> cs[i] in r
  {
    Filter(cs, (c: CategoryInput) => c.id != id)
  }

  /** Removing from a concatenation removes from each part in place, and a
      single row is kept exactly when its id differs: together, the rows
      under other ids in their original order, each once. */
  lemma RemoveCategoryConcat(a: seq<CategoryInput>, b: seq<CategoryInput>, c: CategoryInput, id: string)
    ensures RemoveCategory(a + b, id) == RemoveCategory(a, id) + RemoveCategory(b, id)
    ensures RemoveCategory([c], id) == if c.id != id then [c] else []
  {
    FilterConcat(a, b, (c: CategoryInput) => c.id != id);
  }

  /** `{ ...c, [field]: value }`: one field replaced, the others kept. */
  function Apply(c: CategoryInput, e: Edit): (r: CategoryInput)
    ensures r.id == c.id
    ensures r.name == (if e.SetName? then e.name else c.name)
    ensures r.limit == (if e.SetLimit? then e.limit else c.limit)
    ensures r.color == (if e.SetColor? then e.color else c.color)
    ensures r.isEssential == (if e.SetEssential? then e.essential else c.isEssential)
  {
    match e
    case SetName(v) => c.(name := v)
    case SetLimit(v) => c.(limit := v)
    case SetColor(v) => c.(color := v)
    case SetEssential(v) => c.(isEssential := v)
  }

  /** `updateCategory`: the rows under `id` edited, every other row as it
      was, length and order kept. */
  function UpdateCategory(cs: seq<CategoryInput>, id: string, e: Edit): (r: seq<CategoryInput>)
    ensures |r| == |cs|
    ensures forall i :: 0 <= i < |cs| ==> r[i] == if cs[i].id == id then Apply(cs[i], e) else cs[i]
  {
    seq(|cs|, i requires 0 <= i < |cs| => if cs[i].id == id then Apply(cs[i], e) else cs[i])
  }

  /** Removing a row just added, under an id no other row has, gives back
      the list as it was. */
  lemma RemoveUndoesAdd(cs: seq<CategoryInput>, newId: string)
    requires forall i :: 0 <= i < |cs| ==> cs[i].id != newId
    ensures RemoveCategory(AddCategory(cs, newId), newId) == cs
  {
    var p := (c: CategoryInput) => c.id != newId;
    FilterConcat(cs, [CategoryInput(newId, "", "", COLORS[|cs| % |COLORS|], false)], p);
    FilterAll(cs, p);
  }

  /** Editing a row and then removing it is the same as removing it. */
  lemma RemoveAfterUpdate(cs: seq<CategoryInput>, id: string, e: Edit)
    ensures RemoveCategory(UpdateCategory(cs, id, e), id) == RemoveCategory(cs, id)
  {
    if cs != [] {
      RemoveAfterUpdate(cs[1..], id, e);
      assert UpdateCategory(cs, id, e)[1..] == UpdateCategory(cs[1..], id, e);
    }
  }

  /** The rows `handleSubmit` keeps: a name that is not all white space
      (`c.name.trim()` is truthy) and some limit text. */
  predicate Valid(c: CategoryInput)
  {
    !AllSpace(c.name) && c.limit != ""
  }

  /** `Valid` is the source's test: the trimmed name is not empty. */
  lemma ValidIsTrimTest(c: CategoryInput)
    ensures Valid(c) <==> Trim(c.name) != "" && c.limit != ""
  {
    TrimEmpty(c.name);
  }

  function ToDraft(c: CategoryInput, parse: string -> int): Draft
  {
    Draft(Trim(c.name), parse(c.limit), c.color, c.isEssential)
  }

  /** The `filter` step: the valid rows, in order. */
  function ValidRows(cs: seq<CategoryInput>): (r: seq<CategoryInput>)
    ensures forall i :: 0 <= i < |r| ==> r[i] in cs && Valid(r[i])
    ensures forall i :: 0 <= i < |cs| && Valid(cs[i]) ==> cs[i] in r
  {
    Filter(cs, (c: CategoryInput) => Valid(c))
  }

  /** The valid rows of a concatenation are each part's valid rows in place,
      and a single row is kept exactly when it is valid. */
  lemma ValidRowsConcat(a: seq<CategoryInput>, b: seq<CategoryInput>, c: CategoryInput)
    ensures ValidRows(a + b) == ValidRows(a) + ValidRows(b)
    ensures ValidRows([c]) == if Valid(c) then [c] else []
  {
    FilterConcat(a, b, (c: CategoryInput) => Valid(c));
  }

  /** The `map` step: each row as submitted. */
  function ToDrafts(v: seq<CategoryInput>, parse: string -> int): (r: seq<Draft>)
    ensures |r| == |v| && forall i :: 0 <= i < |v| ==> r[i] == ToDraft(v[i], parse)
  {
    if v == [] then [] else [ToDraft(v[0], parse)] + ToDrafts(v[1..], parse)
  }

  /** `validCategories`: the valid rows, in order, with trimmed names and
      parsed limits. Every submitted name is non-empty and already trimmed,
      and nothing is submitted exactly when no row is valid. */
  function Drafts(cs: seq<CategoryInput>, parse: string -> int): (r: seq<Draft>)
    ensures forall i :: 0 <= i < |r| ==> r[i].name != "" && Trim(r[i].name) == r[i].name
    ensures r == [] <==> forall i :: 0 <= i < |cs| ==> !Valid(cs[i])
  {
    ValidDrafts(cs, parse);
    ToDrafts(ValidRows(cs), parse)
  }

  lemma ValidDrafts(cs: seq<CategoryInput>, parse: string -> int)
    ensures var r := ToDrafts(ValidRows(cs), parse);
      && (forall i :: 0 <= i < |r| ==> r[i].name != "" && Trim(r[i].name) == r[i].name)
      && (r == [] <==> forall i :: 0 <= i < |cs| ==> !Valid(cs[i]))
  {
    var v := ValidRows(cs);
    var r := ToDrafts(v, parse);
    forall i | 0 <= i < |r| ensures r[i].name != "" && Trim(r[i].name) == r[i].name {
      assert r[i].name == Trim(v[i].name);
      TrimIdempotent(v[i].name);
      TrimEmpty(v[i].name);
    }
    assert |v| > 0 ==> v[0] in cs;
  }

  /** Exactly the valid rows are submitted: each valid row's draft is in the
      submission and every submitted draft comes from a valid row. */
  lemma DraftsExact(cs: seq<CategoryInput>, parse: string -> int)
    ensures forall i :: 0 <= i < |cs| && Valid(cs[i]) ==> ToDraft(cs[i], parse) in Drafts(cs, parse)
    ensures forall k :: 0 <= k < |Drafts(cs, parse)| ==>
              exists i :: 0 <= i < |cs| && Valid(cs[i]) && Drafts(cs, parse)[k] == ToDraft(cs[i], parse)
  {
    var v := ValidRows(cs);
    var ds := Drafts(cs, parse);
    assert ds == ToDrafts(v, parse);
    forall i | 0 <= i < |cs| && Valid(cs[i]) ensures ToDraft(cs[i], parse) in ds {
      DraftOfValid(v, parse, cs[i]);
    }
    forall k | 0 <= k < |ds| ensures exists i :: 0 <= i < |cs| && Valid(cs[i]) && ds[k] == ToDraft(cs[i], parse) {
      assert v[k] in cs && Valid(v[k]);
      var i :| 0 <= i < |cs| && cs[i] == v[k];
      assert ds[k] == ToDraft(cs[i], parse);
    }
  }

  lemma DraftOfValid(v: seq<CategoryInput>, parse: string -> int, c: CategoryInput)
    requires c in v
    ensures ToDraft(c, parse) in ToDrafts(v, parse)
  {
    var k :| 0 <= k < |v| && v[k] == c;
    assert ToDrafts(v, parse)[k] == ToDraft(c, parse);
  }

  /** `handleSubmit`, given the parsed income (`parseFloat(monthlyIncome) || 0`). */
  function HandleSubmit(cs: seq<CategoryInput>, income: int, parse: string -> int): (r: Submission)
    ensures income <= 0 ==> r == Refused(NO_INCOME)
    ensures income > 0 && (forall i :: 0 <= i < |cs| ==> !Valid(cs[i])) ==> r == Refused(NO_CATEGORY)
    ensures income > 0 && (exists i :: 0 <= i < |cs| && Valid(cs[i])) ==> r == Submit(Drafts(cs, parse), income)
  {
    if income <= 0 then Refused(NO_INCOME)
    else
      var valid := Drafts(cs, parse);
      if |valid| == 0 then Refused(NO_CATEGORY)
      else Submit(valid, income)
  }

  /** The untouched form cannot be submitted: no default has a limit yet. */
  lemma InitialListRefused(income: int, parse: string -> int)
    ensures HandleSubmit(InitialList(), income, parse).Refused?
  {
  }

  /** `totalBudget`: every row's parsed limit, valid or not. */
  function TotalBudget(cs: seq<CategoryInput>, parse: string -> int): int
  {
    if cs == [] then 0 else parse(cs[0].limit) + TotalBudget(cs[1..], parse)
  }

  /** `savings`: the income left over once every limit shown is set aside. */
  function Savings(cs: seq<CategoryInput>, income: int, parse: string -> int): (r: int)
    ensures r + TotalBudget(cs, parse) == income
  {
    income - TotalBudget(cs, parse)
  }

  function SumDraftLimits(ds: seq<Draft>): int
  {
    if ds == [] then 0 else ds[0].limit + SumDraftLimits(ds[1..])
  }

  /** The total shown is the total submitted when every row left out of the
      submission counts 0 in the total: the form's total also adds the limit
      of a row whose name is blank, which is never submitted. */
  lemma SubmittedTotalIsShown(cs: seq<CategoryInput>, parse: string -> int)
    requires forall i :: 0 <= i < |cs| && !Valid(cs[i]) ==> parse(cs[i].limit) == 0
    ensures SumDraftLimits(Drafts(cs, parse)) == TotalBudget(cs, parse)
  {
    DraftLimits(ValidRows(cs), parse);
    ValidRowsTotal(cs, parse);
  }

  /** The savings shown are the income left after the submitted limits, and
      are not negative exactly when those limits fit in the income, whenever
      every row left out of the submission counts 0 in the total. */
  lemma SavingsOfSubmission(cs: seq<CategoryInput>, income: int, parse: string -> int)
    requires forall i :: 0 <= i < |cs| && !Valid(cs[i]) ==> parse(cs[i].limit) == 0
    ensures Savings(cs, income, parse) == income - SumDraftLimits(Drafts(cs, parse))
    ensures Savings(cs, income, parse) >= 0 <==> SumDraftLimits(Drafts(cs, parse)) <= income
  {
    SubmittedTotalIsShown(cs, parse);
  }

  lemma {:induction false} DraftLimits(v: seq<CategoryInput>, parse: string -> int)
    ensures SumDraftLimits(ToDrafts(v, parse)) == TotalBudget(v, parse)
  {
    if v != [] {
      DraftLimits(v[1..], parse);
      assert ToDrafts(v, parse)[1..] == ToDrafts(v[1..], parse);
    }
  }

  lemma {:induction false} ValidRowsTotal(cs: seq<CategoryInput>, parse: string -> int)
    requires forall i :: 0 <= i < |cs| && !Valid(cs[i]) ==> parse(cs[i].limit) == 0
    ensures TotalBudget(ValidRows(cs), parse) == TotalBudget(cs, parse)
  {
    if cs != [] {
      ValidRowsTotal(cs[1..], parse);
      var rest := ValidRows(cs[1..]);
      if Valid(cs[0]) {
        assert ValidRows(cs) == [cs[0]] + rest;
        assert ([cs[0]] + rest)[1..] == rest;
      } else {
        assert ValidRows(cs) == rest;
      }
    }
  }

  /** A row with a blank name and a limit counts in the total shown but is
      not submitted. */
  lemma BlankNameCountedNotSubmitted(parse: string -> int)
    requires parse("500") == 500
    ensures var cs := [CategoryInput("cat-0", "  ", "500", "#ef4444", false)];
      TotalBudget(cs, parse) == 500 && Drafts(cs, parse) == []
  {
    var c := CategoryInput("cat-0", "  ", "500", "#ef4444", false);
    TrimEmpty(c.name);
    assert [c][1..] == [];
  }
}
