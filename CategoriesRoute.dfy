/** The category endpoint (`src/app/api/categories/route.ts`) over an
    in-memory category table: `POST` replaces a user's categories and marks
    setup complete, `PUT` reconciles the stored categories with a submitted
    list. Row ids the database would generate are supplied by the caller. */
module CategoriesRoute {
  import opened Seqs
  import opened Types
  import opened Ledger

  /** A stored category row; `isEssential` is the column's default unless
      something writes it, and nothing here does. The default is taken to be
      false. */
  datatype Row = Row(userId: string, name: string, limit: int, color: string, isEssential: bool)

  /** An element of the request's `categories`. An `id` of "" stands for a
      missing id. The client also sends `isEssential`; the route ignores it. */
  datatype Incoming = Incoming(id: string, name: string, limit: int, color: string, isEssential: bool)

  datatype UserRecord = UserRecord(isSetupComplete: bool, monthlyIncome: int)

  datatype Reply =
    | Unauthorized
    | ServerError
    | SetUp(categories: seq<Category>, monthlyIncome: int)
    | Reconciled(categories: seq<Category>)

  /** The row `create` writes: name, limit and colour from the request, the
      session's user, and the default `isEssential`, taken to be false. */
  function NewRow(uid: string, c: Incoming): Row
  {
    Row(uid, c.name, c.limit, c.color, false)
  }

  /** The row `update` writes: name, limit and colour; the rest is kept. */
  function UpdatedRow(r: Row, c: Incoming): Row
  {
    r.(name := c.name, limit := c.limit, color := c.color)
  }

  /** A row as the response returns it. */
  function AsCategory(id: string, r: Row): Category
  {
    Category(id, r.name, r.limit, r.color, r.isEssential)
  }

  /** The ids of a user's rows (`findMany({ where: { userId } })`). */
  function UserIds(rows: map<string, Row>, uid: string): (ids: set<string>)
    ensures ids <= rows.Keys
    ensures forall k :: k in rows && rows[k].userId == uid ==> k in ids
    ensures forall k :: k in ids ==> rows[k].userId == uid
  {
    set k | k in rows && rows[k].userId == uid
  }

  /** The rows of every other user (what `deleteMany({ where: { userId } })`
      leaves). */
  function OtherUsers(rows: map<string, Row>, uid: string): (r: map<string, Row>)
    ensures forall k :: k in r <==> k in rows && rows[k].userId != uid
    ensures forall k :: k in r ==> r[k] == rows[k]
  {
    map k | k in rows && rows[k].userId != uid :: rows[k]
  }

  // ---------------------------------------------------------------------------
  // POST: replace all

  /** The table after creating a row for each submitted category, in order. */
  function Created(base: map<string, Row>, uid: string, incoming: seq<Incoming>, freshIds: seq<string>): map<string, Row>
    requires |freshIds| == |incoming|
  {
    if incoming == [] then base
    else
      var n := |incoming| - 1;
      Created(base, uid, incoming[..n], freshIds[..n])[freshIds[n] := NewRow(uid, incoming[n])]
  }

  /** After `POST` the user owns exactly one row per submitted category, under
      its new id, holding that category's name, limit and colour and a false
      `isEssential`; other users' rows are as they were. */
  lemma {:induction false} PostRowsExact(rows: map<string, Row>, uid: string, incoming: seq<Incoming>, freshIds: seq<string>)
    requires |freshIds| == |incoming| && NoDup(freshIds)
    requires forall i :: 0 <= i < |freshIds| ==> freshIds[i] !in rows
    ensures var after := Created(OtherUsers(rows, uid), uid, incoming, freshIds);
      && (forall i :: 0 <= i < |incoming| ==> freshIds[i] in after && after[freshIds[i]] == NewRow(uid, incoming[i]))
      && (forall k :: k in after && after[k].userId == uid ==> k in freshIds)
      && (forall k :: k in rows && rows[k].userId != uid ==> k in after && after[k] == rows[k])
      && (forall k :: k in after ==> k in rows || k in freshIds)
  {
    if incoming != [] {
      var n := |incoming| - 1;
      assert NoDup(freshIds[..n]);
      PostRowsExact(rows, uid, incoming[..n], freshIds[..n]);
      PostStep(rows, uid, incoming, freshIds, Created(OtherUsers(rows, uid), uid, incoming[..n], freshIds[..n]));
    }
  }

  /** Creating the last row extends `PostRowsExact` from the entries before
      it to the whole list. */
  lemma PostStep(rows: map<string, Row>, uid: string, incoming: seq<Incoming>, freshIds: seq<string>,
                 prev: map<string, Row>)
    requires |freshIds| == |incoming| > 0 && NoDup(freshIds)
    requires forall i :: 0 <= i < |freshIds| ==> freshIds[i] !in rows
    requires var n := |incoming| - 1;
      && (forall i :: 0 <= i < n ==> freshIds[i] in prev && prev[freshIds[i]] == NewRow(uid, incoming[i]))
      && (forall k :: k in prev && prev[k].userId == uid ==> k in freshIds[..n])
      && (forall k :: k in rows && rows[k].userId != uid ==> k in prev && prev[k] == rows[k])
      && (forall k :: k in prev ==> k in rows || k in freshIds[..n])
    ensures var n := |incoming| - 1;
      var after := prev[freshIds[n] := NewRow(uid, incoming[n])];
      && (forall i :: 0 <= i < |incoming| ==> freshIds[i] in after && after[freshIds[i]] == NewRow(uid, incoming[i]))
      && (forall k :: k in after && after[k].userId == uid ==> k in freshIds)
      && (forall k :: k in rows && rows[k].userId != uid ==> k in after && after[k] == rows[k])
      && (forall k :: k in after ==> k in rows || k in freshIds)
  {
    var n := |incoming| - 1;
    forall i | 0 <= i < n ensures freshIds[i] != freshIds[n] {
    }
    forall k | k in freshIds[..n] ensures k in freshIds {
    }
  }

  // ---------------------------------------------------------------------------
  // PUT: reconcile

  /** The loop's state: the table, the ids in `existingIds` still unmatched,
      and the response built so far. */
  datatype PutState = PutState(rows: map<string, Row>, existing: set<string>, response: seq<Category>)

  /** One turn of the `for` loop: update a stored category still in
      `existingIds` and take its id out of the set, or create a new one. */
  function PutStep(st: PutState, uid: string, c: Incoming, freshId: string): (r: PutState)
    requires st.existing <= st.rows.Keys
    ensures r.existing <= r.rows.Keys
  {
    if c.id != "" && c.id in st.existing then
      var row := UpdatedRow(st.rows[c.id], c);
      PutState(st.rows[c.id := row], st.existing - {c.id}, st.response + [AsCategory(c.id, row)])
    else
      var row := NewRow(uid, c);
      PutState(st.rows[freshId := row], st.existing, st.response + [AsCategory(freshId, row)])
  }

  /** The loop run over the incoming list. */
  function PutRun(st: PutState, uid: string, incoming: seq<Incoming>, freshIds: seq<string>): (r: PutState)
    requires |freshIds| == |incoming| && st.existing <= st.rows.Keys
    ensures r.existing <= r.rows.Keys
  {
    if incoming == [] then st
    else
      var n := |incoming| - 1;
      PutStep(PutRun(st, uid, incoming[..n], freshIds[..n]), uid, incoming[n], freshIds[n])
  }

  /** The non-empty ids of the incoming list. */
  function IncomingIds(incoming: seq<Incoming>): set<string>
  {
    set c | c in incoming && c.id != "" :: c.id
  }

  /** Entry `i` updates a stored category: its id is non-empty, was the
      user's, and did not occur earlier in the list. */
  predicate Matched(incoming: seq<Incoming>, existing: set<string>, i: int)
    requires 0 <= i < |incoming|
  {
    incoming[i].id != "" && incoming[i].id in existing && forall j :: 0 <= j < i ==> incoming[j].id != incoming[i].id
  }

  /** The response entry for incoming entry `i`. */
  function Answer(rows: map<string, Row>, existing: set<string>, uid: string, incoming: seq<Incoming>,
                  freshIds: seq<string>, i: int): Category
    requires |freshIds| == |incoming| && 0 <= i < |incoming| && existing <= rows.Keys
  {
    if Matched(incoming, existing, i) then AsCategory(incoming[i].id, UpdatedRow(rows[incoming[i].id], incoming[i]))
    else AsCategory(freshIds[i], NewRow(uid, incoming[i]))
  }

  /** What the loop does, entry by entry: one response entry per incoming
      category, in order; the first occurrence of a stored id updates it under
      that id (keeping its `isEssential`), every other entry is created under
      a new id with `isEssential` false; the ids left in `existingIds` are the
      user's ids the list did not name, their rows untouched. */
  lemma {:induction false} PutRunFacts(rows: map<string, Row>, existing: set<string>, uid: string,
                                       incoming: seq<Incoming>, freshIds: seq<string>)
    requires |freshIds| == |incoming| && NoDup(freshIds) && existing <= rows.Keys
    requires forall i :: 0 <= i < |freshIds| ==> freshIds[i] !in rows
    ensures var r := PutRun(PutState(rows, existing, []), uid, incoming, freshIds);
      && |r.response| == |incoming|
      && (forall i :: 0 <= i < |incoming| ==> r.response[i] == Answer(rows, existing, uid, incoming, freshIds, i))
      && r.existing == existing - IncomingIds(incoming)
      && (forall k :: k in r.existing ==> r.rows[k] == rows[k])
  {
    if incoming != [] {
      var n := |incoming| - 1;
      var pre, preIds := incoming[..n], freshIds[..n];
      assert NoDup(preIds);
      PutRunFacts(rows, existing, uid, pre, preIds);
      PutStepFacts(rows, existing, uid, incoming, freshIds, PutRun(PutState(rows, existing, []), uid, pre, preIds));
    }
  }

  /** The loop's state after every entry but the last satisfies `PutRunFacts`
      for that prefix; the last turn extends it to the whole list. */
  lemma PutStepFacts(rows: map<string, Row>, existing: set<string>, uid: string,
                     incoming: seq<Incoming>, freshIds: seq<string>, st: PutState)
    requires |freshIds| == |incoming| > 0 && NoDup(freshIds) && existing <= rows.Keys
    requires forall i :: 0 <= i < |freshIds| ==> freshIds[i] !in rows
    requires st.existing <= st.rows.Keys
    requires var n := |incoming| - 1;
      && |st.response| == n
      && (forall i :: 0 <= i < n ==> st.response[i] == Answer(rows, existing, uid, incoming[..n], freshIds[..n], i))
      && st.existing == existing - IncomingIds(incoming[..n])
      && (forall k :: k in st.existing ==> st.rows[k] == rows[k])
    ensures var n := |incoming| - 1;
      var r := PutStep(st, uid, incoming[n], freshIds[n]);
      && |r.response| == |incoming|
      && (forall i :: 0 <= i < |incoming| ==> r.response[i] == Answer(rows, existing, uid, incoming, freshIds, i))
      && r.existing == existing - IncomingIds(incoming)
      && (forall k :: k in r.existing ==> r.rows[k] == rows[k])
  {
    var n := |incoming| - 1;
    var pre, c := incoming[..n], incoming[n];
    assert incoming == pre + [c];
    IncomingIdsSnoc(pre, c);
    MatchedLast(incoming, existing, st.existing);
    AnswerPrefix(rows, existing, uid, incoming, freshIds);
    if !(c.id != "" && c.id in st.existing) {
      assert freshIds[n] !in rows;
      assert freshIds[n] !in st.existing;
    }
  }

  lemma IncomingIdsSnoc(pre: seq<Incoming>, c: Incoming)
    ensures IncomingIds(pre + [c]) == IncomingIds(pre) + (if c.id != "" then {c.id} else {})
  {
    assert forall x :: x in pre + [c] <==> x in pre || x == c;
  }

  /** The last entry is matched exactly when its id is still unmatched after
      the entries before it. */
  lemma MatchedLast(incoming: seq<Incoming>, existing: set<string>, remaining: set<string>)
    requires |incoming| > 0
    requires remaining == existing - IncomingIds(incoming[..|incoming| - 1])
    ensures var n := |incoming| - 1;
      Matched(incoming, existing, n) <==> incoming[n].id != "" && incoming[n].id in remaining
  {
    var n := |incoming| - 1;
    var c := incoming[n];
    if c.id != "" && c.id in existing && c.id !in remaining {
      var j :| j in incoming[..n] && j.id == c.id;
      var k :| 0 <= k < n && incoming[..n][k] == j;
      assert incoming[k].id == c.id;
    }
  }

  /** The entries before the last are answered as they were without it. */
  lemma AnswerPrefix(rows: map<string, Row>, existing: set<string>, uid: string, incoming: seq<Incoming>,
                     freshIds: seq<string>)
    requires |freshIds| == |incoming| > 0 && existing <= rows.Keys
    ensures var n := |incoming| - 1;
      forall i :: 0 <= i < n ==>
        Answer(rows, existing, uid, incoming, freshIds, i) == Answer(rows, existing, uid, incoming[..n], freshIds[..n], i)
  {
    var n := |incoming| - 1;
    forall i | 0 <= i < n
      ensures Matched(incoming, existing, i) == Matched(incoming[..n], existing, i)
    {
      assert incoming[i] == incoming[..n][i];
    }
  }

  /** The table after `PUT`: the loop's writes, then every id still in
      `existingIds` deleted. */
  function PutRows(rows: map<string, Row>, uid: string, incoming: seq<Incoming>, freshIds: seq<string>): map<string, Row>
    requires |freshIds| == |incoming|
  {
    var r := PutRun(PutState(rows, UserIds(rows, uid), []), uid, incoming, freshIds);
    r.rows - r.existing
  }

  /** The response of `PUT`. */
  function PutResponse(rows: map<string, Row>, uid: string, incoming: seq<Incoming>, freshIds: seq<string>): seq<Category>
    requires |freshIds| == |incoming|
  {
    PutRun(PutState(rows, UserIds(rows, uid), []), uid, incoming, freshIds).response
  }

  /** Rows the loop never writes keep their value, and the loop only ever
      adds the keys it creates. */
  lemma {:induction false} PutRunRows(rows: map<string, Row>, existing: set<string>, uid: string,
                                      incoming: seq<Incoming>, freshIds: seq<string>)
    requires |freshIds| == |incoming| && existing <= rows.Keys
    ensures var r := PutRun(PutState(rows, existing, []), uid, incoming, freshIds);
      && rows.Keys <= r.rows.Keys
      && (forall k :: k in r.rows ==> k in rows || k in freshIds)
      && (forall k :: k in rows && k !in existing && k !in freshIds ==> r.rows[k] == rows[k])
  {
    if incoming != [] {
      var n := |incoming| - 1;
      PutRunRows(rows, existing, uid, incoming[..n], freshIds[..n]);
      var st := PutRun(PutState(rows, existing, []), uid, incoming[..n], freshIds[..n]);
      assert st.existing <= existing by {
        PutRunShrinks(rows, existing, uid, incoming[..n], freshIds[..n]);
      }
      forall k | k in freshIds[..n] ensures k in freshIds {
      }
    }
  }

  lemma {:induction false} PutRunShrinks(rows: map<string, Row>, existing: set<string>, uid: string,
                                         incoming: seq<Incoming>, freshIds: seq<string>)
    requires |freshIds| == |incoming| && existing <= rows.Keys
    ensures PutRun(PutState(rows, existing, []), uid, incoming, freshIds).existing <= existing
  {
    if incoming != [] {
      var n := |incoming| - 1;
      PutRunShrinks(rows, existing, uid, incoming[..n], freshIds[..n]);
    }
  }

  /** After `PUT` the user's stored ids that the list did not name are gone,
      those it named are still there, and other users' rows are untouched. */
  lemma PutDeletesUnnamed(rows: map<string, Row>, uid: string, incoming: seq<Incoming>, freshIds: seq<string>)
    requires |freshIds| == |incoming| && NoDup(freshIds)
    requires forall i :: 0 <= i < |freshIds| ==> freshIds[i] !in rows
    ensures var after := PutRows(rows, uid, incoming, freshIds);
      && (forall k :: k in UserIds(rows, uid) ==> (k in after <==> k in IncomingIds(incoming)))
      && (forall k :: k in rows && rows[k].userId != uid ==> k in after && after[k] == rows[k])
  {
    PutRunFacts(rows, UserIds(rows, uid), uid, incoming, freshIds);
    PutRunRows(rows, UserIds(rows, uid), uid, incoming, freshIds);
  }

  /** Every entry answered so far names a row of the table, owned by the
      user, that the response shows as stored, and that is no longer among
      the unmatched ids. */
  predicate Answered(uid: string, st: PutState)
  {
    forall i :: 0 <= i < |st.response| ==>
      && st.response[i].id in st.rows && st.response[i].id !in st.existing
      && st.rows[st.response[i].id].userId == uid
      && AsCategory(st.response[i].id, st.rows[st.response[i].id]) == st.response[i]
  }

  /** A user row not among the unmatched ids was answered, or was already the
      user's outside `existing`. */
  predicate OwnedAnswered(rows: map<string, Row>, existing: set<string>, uid: string, st: PutState)
  {
    forall k :: k in st.rows && st.rows[k].userId == uid && k !in st.existing ==>
      (exists i :: 0 <= i < |st.response| && st.response[i].id == k)
      || (k in rows && k !in existing && rows[k].userId == uid)
  }

  predicate Written(rows: map<string, Row>, existing: set<string>, uid: string, st: PutState)
  {
    Answered(uid, st) && OwnedAnswered(rows, existing, uid, st)
  }

  /** The facts about the loop's state before a turn that `PutContentsStep`
      relies on. */
  predicate BeforeTurn(rows: map<string, Row>, existing: set<string>, uid: string, st: PutState, freshIds: seq<string>)
  {
    && |freshIds| > 0 && freshIds[|freshIds| - 1] !in rows && freshIds[|freshIds| - 1] !in freshIds[..|freshIds| - 1]
    && st.existing <= st.rows.Keys && st.existing <= existing
    && (forall k :: k in existing ==> k in rows && rows[k].userId == uid)
    && (forall k :: k in st.existing ==> st.rows[k] == rows[k])
    && (forall k :: k in st.rows ==> k in rows || k in freshIds[..|freshIds| - 1])
    && (forall i :: 0 <= i < |st.response| ==>
          st.response[i].id in rows || st.response[i].id in freshIds[..|freshIds| - 1])
  }

  /** A turn writes a row no earlier entry answered: an update takes an id
      still unmatched, and a creation a new id no earlier entry used. */
  lemma PutAnsweredStep(rows: map<string, Row>, existing: set<string>, uid: string,
                        st: PutState, c: Incoming, freshIds: seq<string>)
    requires BeforeTurn(rows, existing, uid, st, freshIds) && Answered(uid, st)
    ensures var r := PutStep(st, uid, c, freshIds[|freshIds| - 1]);
      && Answered(uid, r)
      && (forall i :: 0 <= i < |r.response| ==> r.response[i].id in rows || r.response[i].id in freshIds)
  {
    var n := |freshIds| - 1;
    var r := PutStep(st, uid, c, freshIds[n]);
    var id := r.response[|st.response|].id;
    assert id in rows || id == freshIds[n];
    forall i | 0 <= i < |st.response| ensures st.response[i].id != id {
    }
    assert freshIds == freshIds[..n] + [freshIds[n]];
  }

  /** A turn's only new user row is the one it answers. */
  lemma PutOwnedStep(rows: map<string, Row>, existing: set<string>, uid: string,
                     st: PutState, c: Incoming, freshIds: seq<string>)
    requires BeforeTurn(rows, existing, uid, st, freshIds) && OwnedAnswered(rows, existing, uid, st)
    ensures OwnedAnswered(rows, existing, uid, PutStep(st, uid, c, freshIds[|freshIds| - 1]))
  {
    var r := PutStep(st, uid, c, freshIds[|freshIds| - 1]);
    var id := r.response[|st.response|].id;
    forall k | k in r.rows && r.rows[k].userId == uid && k !in r.existing
      ensures (exists i :: 0 <= i < |r.response| && r.response[i].id == k)
              || (k in rows && k !in existing && rows[k].userId == uid)
    {
      if k == id {
        assert r.response[|st.response|].id == k;
      } else {
        assert k in st.rows && st.rows[k] == r.rows[k] && k !in st.existing;
        if exists i :: 0 <= i < |st.response| && st.response[i].id == k {
          var i :| 0 <= i < |st.response| && st.response[i].id == k;
          assert r.response[i].id == k;
        }
      }
    }
  }

  /** `Written` holds after the whole loop, and every answered id is a stored
      id or one of the new ids. */
  lemma {:induction false} PutRunContents(rows: map<string, Row>, existing: set<string>, uid: string,
                                          incoming: seq<Incoming>, freshIds: seq<string>)
    requires |freshIds| == |incoming| && NoDup(freshIds) && existing <= rows.Keys
    requires forall i :: 0 <= i < |freshIds| ==> freshIds[i] !in rows
    requires forall k :: k in existing ==> rows[k].userId == uid
    ensures var r := PutRun(PutState(rows, existing, []), uid, incoming, freshIds);
      && Written(rows, existing, uid, r)
      && (forall i :: 0 <= i < |r.response| ==> r.response[i].id in rows || r.response[i].id in freshIds)
  {
    if incoming != [] {
      var n := |incoming| - 1;
      var pre, preIds := incoming[..n], freshIds[..n];
      var st := PutRun(PutState(rows, existing, []), uid, pre, preIds);
      assert NoDup(preIds);
      PutRunContents(rows, existing, uid, pre, preIds);
      assert st.existing <= existing && (forall k :: k in st.existing ==> st.rows[k] == rows[k]) by {
        PutRunFacts(rows, existing, uid, pre, preIds);
        PutRunShrinks(rows, existing, uid, pre, preIds);
      }
      assert forall k :: k in st.rows ==> k in rows || k in preIds by {
        PutRunRows(rows, existing, uid, pre, preIds);
      }
      assert BeforeTurn(rows, existing, uid, st, freshIds);
      PutAnsweredStep(rows, existing, uid, st, incoming[n], freshIds);
      PutOwnedStep(rows, existing, uid, st, incoming[n], freshIds);
    }
  }

  /** The table after `PUT` holds every category of the response as it was
      returned, and the user's rows are exactly the ones the response lists. */
  lemma PutRowsContents(rows: map<string, Row>, uid: string, incoming: seq<Incoming>, freshIds: seq<string>)
    requires |freshIds| == |incoming| && NoDup(freshIds)
    requires forall i :: 0 <= i < |freshIds| ==> freshIds[i] !in rows
    ensures var after := PutRows(rows, uid, incoming, freshIds);
      var resp := PutResponse(rows, uid, incoming, freshIds);
      && (forall i :: 0 <= i < |resp| ==> resp[i].id in after && AsCategory(resp[i].id, after[resp[i].id]) == resp[i])
      && (forall k :: k in after && after[k].userId == uid <==> exists i :: 0 <= i < |resp| && resp[i].id == k)
  {
    PutRunContents(rows, UserIds(rows, uid), uid, incoming, freshIds);
  }

  /** Entry by entry: the first occurrence of a stored id leaves that row
      updated from the entry, and any other entry leaves a new row of the
      user's under its new id. */
  lemma PutRowsWritten(rows: map<string, Row>, uid: string, incoming: seq<Incoming>, freshIds: seq<string>, i: int)
    requires |freshIds| == |incoming| && NoDup(freshIds)
    requires forall j :: 0 <= j < |freshIds| ==> freshIds[j] !in rows
    requires 0 <= i < |incoming|
    ensures var after := PutRows(rows, uid, incoming, freshIds);
      && (Matched(incoming, UserIds(rows, uid), i) ==>
            incoming[i].id in after && after[incoming[i].id] == UpdatedRow(rows[incoming[i].id], incoming[i]))
      && (!Matched(incoming, UserIds(rows, uid), i) ==>
            freshIds[i] in after && after[freshIds[i]] == NewRow(uid, incoming[i]))
  {
    var after := PutRows(rows, uid, incoming, freshIds);
    var resp := PutResponse(rows, uid, incoming, freshIds);
    PutRowsContents(rows, uid, incoming, freshIds);
    PutResponseEntries(rows, uid, incoming, freshIds, i);
    var k := resp[i].id;
    assert k in after && after[k].userId == uid && AsCategory(k, after[k]) == resp[i];
  }

  // ---------------------------------------------------------------------------
  // The table as an object

  class CategoryStore {
    var rows: map<string, Row>
    var users: map<string, UserRecord>

    constructor(rows0: map<string, Row>, users0: map<string, UserRecord>)
      ensures rows == rows0 && users == users0
    {
      rows := rows0;
      users := users0;
    }

    /** `POST /api/categories`. `session` is the signed-in user's id, if any;
        `body` is the request's `categories`, or `None` when the body cannot
        be read as JSON; `monthlyIncome` is `None` when the body has none;
        `freshIds` are the ids the database gives the new rows. Deletion and
        creation are not undone when the final user update fails. */
    method Post(session: Option<string>, body: Option<seq<Incoming>>, monthlyIncome: Option<int>, freshIds: seq<string>)
      returns (reply: Reply)
      requires body.Some? ==> |freshIds| == |body.value|
      requires NoDup(freshIds)
      requires forall i :: 0 <= i < |freshIds| ==> freshIds[i] !in rows
      modifies this
      ensures session.None? ==> reply == Unauthorized && rows == old(rows) && users == old(users)
      ensures session.Some? && body.None? ==> reply == ServerError && rows == old(rows) && users == old(users)
      ensures session.Some? && body.Some? ==>
                rows == Created(OtherUsers(old(rows), session.value), session.value, body.value, freshIds)
      ensures session.Some? && body.Some? && session.value !in old(users) ==> reply == ServerError && users == old(users)
      ensures session.Some? && body.Some? && session.value in old(users) ==>
                var incoming := body.value;
                var income := if monthlyIncome.Some? then monthlyIncome.value else 0;
                && users == old(users)[session.value := UserRecord(true, income)]
                && reply == SetUp(seq(|incoming|, i requires 0 <= i < |incoming| =>
                                        AsCategory(freshIds[i], NewRow(session.value, incoming[i]))), income)
    {
      if session.None? {
        return Unauthorized;
      }
      if body.None? {
        return ServerError;
      }
      var uid, incoming := session.value, body.value;
      var created := Replace(uid, incoming, freshIds);
      assert created == seq(|incoming|, i requires 0 <= i < |incoming| => AsCategory(freshIds[i], NewRow(uid, incoming[i])));
      if uid !in users {
        return ServerError;
      }
      var income := if monthlyIncome.Some? then monthlyIncome.value else 0;
      users := users[uid := UserRecord(true, income)];
      reply := SetUp(created, income);
    }

    /** The writes of `POST`: every row of the user deleted, then one row
        created per submitted category, in order; `created` is what the
        creates return. */
    method Replace(uid: string, incoming: seq<Incoming>, freshIds: seq<string>) returns (created: seq<Category>)
      requires |freshIds| == |incoming|
      modifies this
      ensures users == old(users)
      ensures rows == Created(OtherUsers(old(rows), uid), uid, incoming, freshIds)
      ensures |created| == |incoming|
      ensures forall j :: 0 <= j < |incoming| ==> created[j] == AsCategory(freshIds[j], NewRow(uid, incoming[j]))
    {
      rows := OtherUsers(rows, uid);
      created := [];
      var i := 0;
      while i < |incoming|
        invariant 0 <= i <= |incoming| && users == old(users)
        invariant rows == Created(OtherUsers(old(rows), uid), uid, incoming[..i], freshIds[..i])
        invariant |created| == i
        invariant forall j :: 0 <= j < i ==> created[j] == AsCategory(freshIds[j], NewRow(uid, incoming[j]))
      {
        assert incoming[..i + 1][..i] == incoming[..i] && freshIds[..i + 1][..i] == freshIds[..i];
        var row := NewRow(uid, incoming[i]);
        rows := rows[freshIds[i] := row];
        created := created + [AsCategory(freshIds[i], row)];
        i := i + 1;
      }
      assert incoming[..i] == incoming && freshIds[..i] == freshIds;
    }

    /** `PUT /api/categories`. `body` is the request's `categories`, or
        `None` when the body cannot be read as JSON. */
    method Put(session: Option<string>, body: Option<seq<Incoming>>, freshIds: seq<string>) returns (reply: Reply)
      requires body.Some? ==> |freshIds| == |body.value|
      requires NoDup(freshIds)
      requires forall i :: 0 <= i < |freshIds| ==> freshIds[i] !in rows
      modifies this
      ensures users == old(users)
      ensures session.None? ==> reply == Unauthorized && rows == old(rows)
      ensures session.Some? && body.None? ==> reply == ServerError && rows == old(rows)
      ensures session.Some? && body.Some? ==>
                && rows == PutRows(old(rows), session.value, body.value, freshIds)
                && reply == Reconciled(PutResponse(old(rows), session.value, body.value, freshIds))
    {
      if session.None? {
        return Unauthorized;
      }
      if body.None? {
        return ServerError;
      }
      var uid, incoming := session.value, body.value;
      var existingIds := UserIds(rows, uid);
      ghost var start := PutState(rows, existingIds, []);
      var updated: seq<Category> := [];
      var i := 0;
      while i < |incoming|
        invariant 0 <= i <= |incoming| && users == old(users)
        invariant PutState(rows, existingIds, updated) == PutRun(start, uid, incoming[..i], freshIds[..i])
      {
        assert incoming[..i + 1][..i] == incoming[..i] && freshIds[..i + 1][..i] == freshIds[..i];
        var c := incoming[i];
        if c.id != "" && c.id in existingIds {
          var row := UpdatedRow(rows[c.id], c);
          rows := rows[c.id := row];
          updated := updated + [AsCategory(c.id, row)];
          existingIds := existingIds - {c.id};
        } else {
          var row := NewRow(uid, c);
          rows := rows[freshIds[i] := row];
          updated := updated + [AsCategory(freshIds[i], row)];
        }
        i := i + 1;
      }
      assert incoming[..i] == incoming && freshIds[..i] == freshIds;
      if |existingIds| > 0 {
        rows := rows - existingIds;
      }
      reply := Reconciled(updated);
    }
  }

  /** The `PUT` response: one entry per incoming category, in order; a stored
      id on its first occurrence is updated under that id and keeps its
      stored `isEssential`; a later repeat, a missing id or an unknown id
      gets a new row whose `isEssential` is false, whatever was submitted. */
  lemma PutResponseEntries(rows: map<string, Row>, uid: string, incoming: seq<Incoming>, freshIds: seq<string>, i: int)
    requires |freshIds| == |incoming| && NoDup(freshIds)
    requires forall j :: 0 <= j < |freshIds| ==> freshIds[j] !in rows
    requires 0 <= i < |incoming|
    ensures var resp := PutResponse(rows, uid, incoming, freshIds);
      && |resp| == |incoming|
      && resp[i].name == incoming[i].name && resp[i].limit == incoming[i].limit && resp[i].color == incoming[i].color
      && (Matched(incoming, UserIds(rows, uid), i) ==>
            resp[i].id == incoming[i].id && resp[i].isEssential == rows[incoming[i].id].isEssential)
      && (!Matched(incoming, UserIds(rows, uid), i) ==> resp[i].id == freshIds[i] && !resp[i].isEssential)
  {
    PutRunFacts(rows, UserIds(rows, uid), uid, incoming, freshIds);
  }

  /** The same stored id sent twice: the first entry updates it, the second
      creates a new category. */
  lemma RepeatedIdCreates(rows: map<string, Row>, uid: string, incoming: seq<Incoming>, freshIds: seq<string>, i: int, j: int)
    requires |freshIds| == |incoming| && NoDup(freshIds)
    requires forall k :: 0 <= k < |freshIds| ==> freshIds[k] !in rows
    requires 0 <= i < j < |incoming| && incoming[i].id == incoming[j].id
    ensures !Matched(incoming, UserIds(rows, uid), j)
    ensures var resp := PutResponse(rows, uid, incoming, freshIds);
      |resp| == |incoming| && resp[j].id == freshIds[j]
  {
    PutResponseEntries(rows, uid, incoming, freshIds, j);
  }
}
