/** The budget settings dialog (`src/components/SettingsModal.tsx`): a local
    copy of the categories that the user edits, the filter applied on save
    and the total shown under the list. */
module SettingsModal {
  import opened Seqs
  import opened Types
  import opened Text
  import opened ExpenseContext
  import Ledger
  import CategoriesRoute

  const COLORS: seq<string> := [
    "#ef4444", "#f97316", "#eab308", "#22c55e", "#14b8a6",
    "#3b82f6", "#8b5cf6", "#ec4899", "#6b7280", "#84cc16"
  ]

  const NO_CATEGORY: string := "Please add at least one category with a budget limit"

  /** The fields the dialog edits, with their new values; the limit input
      hands over `parseFloat(value) || 0`. */
  datatype Edit = SetName(name: string) | SetLimit(limit: int) | SetColor(color: string)

  datatype SaveOutcome = Refused(message: string) | Save(categories: seq<Category>)

  /** The local list when the dialog opens: a copy of every category. */
  function OpenDialog(s: State): (r: seq<Category>)
    ensures |r| == |s.categories| && forall i :: 0 <= i < |r| ==> r[i] == s.categories[i]
  {
    seq(|s.categories|, i requires 0 <= i < |s.categories| => s.categories[i])
  }

  /** `addCategory`: an unnamed row with limit 0 at the end, coloured by the
      list's length. Its `isEssential` is left unset, which reads as false.
      `newId` is `cat-${Date.now()}`. */
  function AddCategory(cs: seq<Category>, newId: string): (r: seq<Category>)
    ensures |r| == |cs| + 1 && r[..|cs|] == cs
    ensures r[|cs|] == Category(newId, "", 0, COLORS[|cs| % 10], false)
  {
    cs + [Category(newId, "", 0, COLORS[|cs| % |COLORS|], false)]
  }

  /** `removeCategory`: the rows under other ids, in order. */
  function RemoveCategory(cs: seq<Category>, id: string): (r: seq<Category>)
    ensures forall i :: 0 <= i < |r| ==> r[i] in cs && r[i].id != id
    ensures forall i :: 0 <= i < |cs| && cs[i].id != id ==> cs[i] in r
  {
    Filter(cs, (c: Category) => c.id != id)
  }

  /** Removing from a concatenation removes from each part in place, and a
      single row is kept exactly when its id differs: together, the rows
      under other ids in their original order, each once. */
  lemma RemoveCategoryConcat(a: seq<Category>, b: seq<Category>, c: Category, id: string)
    ensures RemoveCategory(a + b, id) == RemoveCategory(a, id) + RemoveCategory(b, id)
    ensures RemoveCategory([c], id) == if c.id != id then [c] else []
  {
    FilterConcat(a, b, (c: Category) => c.id != id);
  }

  /** `{ ...c, [field]: value }`: one field replaced, the others kept. */
  function Apply(c: Category, e: Edit): (r: Category)
    ensures r.id == c.id && r.isEssential == c.isEssential
    ensures r.name == (if e.SetName? then e.name else c.name)
    ensures r.limit == (if e.SetLimit? then e.limit else c.limit)
    ensures r.color == (if e.SetColor? then e.color else c.color)
  {
    match e
    case SetName(v) => c.(name := v)
    case SetLimit(v) => c.(limit := v)
    case SetColor(v) => c.(color := v)
  }

  /** `updateCategory`: the rows under `id` edited, every other row as it
      was, length and order kept. */
  function UpdateCategory(cs: seq<Category>, id: string, e: Edit): (r: seq<Category>)
    ensures |r| == |cs|
    ensures forall i :: 0 <= i < |cs| ==> r[i] == if cs[i].id == id then Apply(cs[i], e) else cs[i]
  {
    seq(|cs|, i requires 0 <= i < |cs| => if cs[i].id == id then Apply(cs[i], e) else cs[i])
  }

  /** Editing under an id no row has changes nothing, and removing a row
      just added, under a new id, gives back the list as it was. */
  lemma EditsOfAbsentId(cs: seq<Category>, id: string, e: Edit)
    requires id !in CategoryIds(cs)
    ensures UpdateCategory(cs, id, e) == cs
    ensures RemoveCategory(AddCategory(cs, id), id) == cs
  {
    var p := (c: Category) => c.id != id;
    FilterConcat(cs, [Category(id, "", 0, COLORS[|cs| % |COLORS|], false)], p);
    FilterAll(cs, p);
  }

  /** The rows `handleSave` keeps: a name that is not all white space
      (`c.name.trim()` is truthy) and a positive limit. */
  predicate Keep(c: Category)
  {
    !AllSpace(c.name) && c.limit > 0
  }

  /** `Keep` is the source's test: the trimmed name is not empty. */
  lemma KeepIsTrimTest(c: Category)
    ensures Keep(c) <==> Trim(c.name) != "" && c.limit > 0
  {
    TrimEmpty(c.name);
  }

  /** `validCategories`: the rows kept, in order, unchanged (names are not
      trimmed here). */
  function ValidCategories(cs: seq<Category>): (r: seq<Category>)
    ensures forall i :: 0 <= i < |r| ==> r[i] in cs && Keep(r[i])
    ensures forall i :: 0 <= i < |cs| && Keep(cs[i]) ==> cs[i] in r
  {
    Filter(cs, (c: Category) => Keep(c))
  }

  /** The kept rows of a concatenation are each part's kept rows in place,
      and a single row is kept exactly when it passes. */
  lemma ValidCategoriesConcat(a: seq<Category>, b: seq<Category>, c: Category)
    ensures ValidCategories(a + b) == ValidCategories(a) + ValidCategories(b)
    ensures ValidCategories([c]) == if Keep(c) then [c] else []
  {
    FilterConcat(a, b, (c: Category) => Keep(c));
  }

  /** `handleSave`: refused when no row is kept, otherwise the kept rows are
      sent to `updateCategories`. */
  function HandleSave(cs: seq<Category>): (r: SaveOutcome)
    ensures (forall i :: 0 <= i < |cs| ==> !Keep(cs[i])) <==> r == Refused(NO_CATEGORY)
    ensures r.Save? ==> r.categories == ValidCategories(cs) && r.categories != []
    ensures (exists i :: 0 <= i < |cs| && Keep(cs[i])) ==> r == Save(ValidCategories(cs))
  {
    var valid := ValidCategories(cs);
    assert |valid| > 0 ==> valid[0] in cs;
    if |valid| == 0 then Refused(NO_CATEGORY) else Save(valid)
  }

  /** A row added and left untouched is dropped on save: saving gives what it
      would have given without it. */
  lemma UntouchedRowDropped(cs: seq<Category>, newId: string)
    ensures HandleSave(AddCategory(cs, newId)) == HandleSave(cs)
  {
    var p := (c: Category) => Keep(c);
    var added := Category(newId, "", 0, COLORS[|cs| % |COLORS|], false);
    FilterConcat(cs, [added], p);
    assert Filter([added], p) == [];
  }

  /** What is saved budgets at least the total shown (`totalBudget`, the
      `SumLimits` of every row, kept or not) when no row with a blank name has
      a positive limit: every row dropped then has a limit of 0 or less. */
  lemma {:induction false} SavedTotalAtLeastShown(cs: seq<Category>)
    requires forall i :: 0 <= i < |cs| && AllSpace(cs[i].name) ==> cs[i].limit <= 0
    ensures SumLimits(ValidCategories(cs)) >= SumLimits(cs)
  {
    if cs != [] {
      SavedTotalAtLeastShown(cs[1..]);
      var rest := ValidCategories(cs[1..]);
      if Keep(cs[0]) {
        assert ValidCategories(cs) == [cs[0]] + rest;
        assert ([cs[0]] + rest)[1..] == rest;
      } else {
        assert ValidCategories(cs) == rest;
      }
    }
  }

  /** The categories as the `PUT` request carries them. */
  function AsIncoming(cs: seq<Category>): (r: seq<CategoriesRoute.Incoming>)
    ensures |r| == |cs|
    ensures forall i :: 0 <= i < |cs| ==>
              r[i] == CategoriesRoute.Incoming(cs[i].id, cs[i].name, cs[i].limit, cs[i].color, cs[i].isEssential)
  {
    seq(|cs|, i requires 0 <= i < |cs| =>
      CategoriesRoute.Incoming(cs[i].id, cs[i].name, cs[i].limit, cs[i].color, cs[i].isEssential))
  }

  /** A row added in the dialog reaches the server under its temporary id,
      which is none of the user's stored ids: the server creates it under a
      new id rather than updating anything. */
  lemma AddedRowIsCreated(rows: map<string, CategoriesRoute.Row>, uid: string, cs: seq<Category>, i: int,
                          freshIds: seq<string>)
    requires 0 <= i < |cs| && cs[i].id !in rows
    requires |freshIds| == |cs| && Ledger.NoDup(freshIds)
    requires forall k :: 0 <= k < |freshIds| ==> freshIds[k] !in rows
    ensures !CategoriesRoute.Matched(AsIncoming(cs), CategoriesRoute.UserIds(rows, uid), i)
    ensures var resp := CategoriesRoute.PutResponse(rows, uid, AsIncoming(cs), freshIds);
      |resp| == |cs| && resp[i].id == freshIds[i] && !resp[i].isEssential
  {
    CategoriesRoute.PutResponseEntries(rows, uid, AsIncoming(cs), freshIds, i);
  }
}
