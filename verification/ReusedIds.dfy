/**
 * The schema numbers rows with INTEGER PRIMARY KEY and no AUTOINCREMENT, so the id of an object row can come back after
 * the row is deleted, even to the row that replaces it. `Lifecycle` assumes that it does not. Here a commit or copy may
 * be given any id that is free when its row is inserted, and it is shown when a read made of two queries is sound.
 */
module ReusedIds {
  import opened Prelude
  import opened Schema
  import opened Conditions
  import opened Lifecycle
  import opened Safety
  import I = Invariants
  import R = RunTheorems
  import T = Transactions

  // ---- runs with any free id ----

  /** An id that no row has once the row stored under `name` is deleted. */
  predicate FreeId(t: Tables, name: Name, id: ObjectId) {
    forall n :: n in t.objects && n != name ==> t.objects[n].id != id
  }

  /** The commits and copies whose id is free, whether or not it was used before. */
  predicate TakesFreeId(s: Sys, e: RequestEvent) {
    match e
    case Commit(u, _, _, _, _, id, _) => u in s.t.uploads && FreeId(s.t, s.t.uploads[u].name, id)
    case Copy(source, name, _, id, _) => source in s.snapshots && FreeId(s.t, name, id)
    case _ => false
  }

  ghost function AnyIdStep(s: Sys, e: Event): Sys {
    if e.Request? && e.req.Commit? then
      if !TakesFreeId(s, e.req) then s
      else DoCommit(s, e.req.u, e.req.size, e.req.etag, e.req.parts, e.req.condition, e.req.id, e.req.now)
    else if e.Request? && e.req.Copy? then
      if !TakesFreeId(s, e.req) then s
      else DoCopy(s, e.req.source, e.req.name, e.req.condition, e.req.id, e.req.now)
    else Step(s, e)
  }

  ghost function AnyIdRun(s: Sys, events: seq<Event>): Sys {
    if |events| == 0 then s else AnyIdStep(AnyIdRun(s, events[..|events| - 1]), events[|events| - 1])
  }

  ghost function At(events: seq<Event>, i: nat): Sys
    requires i <= |events|
  {
    AnyIdRun(INITIAL, events[..i])
  }

  lemma AtNext(events: seq<Event>, i: nat)
    requires i < |events|
    ensures At(events, i + 1) == AnyIdStep(At(events, i), events[i])
  {
    assert events[..i + 1][..i] == events[..i];
  }

  /** With ids that are new, as `Lifecycle` has them, the steps are the same. */
  lemma NewIdsAreFree(s: Sys, e: Event)
    requires Inv(s) && Enabled(s, e)
    ensures AnyIdStep(s, e) == Step(s, e)
  {
  }

  /** The row that event `e` stores, if it is a commit or copy that takes effect. */
  ghost function StoredBy(s: Sys, e: Event): Option<ObjectSnapshot> {
    if e.Request? && TakesFreeId(s, e.req) then R.Written(s, e.req) else None
  }

  // ---- what every such run keeps ----

  /** Stored rows have valid layouts and different ids, and so do the snapshots that a copy may present. */
  ghost predicate RowsOk(s: Sys) {
    && (forall n :: n in s.t.objects ==> ValidLayout(s.t.objects[n].pieces, s.t.objects[n].size))
    && (forall n, m :: n in s.t.objects && m in s.t.objects && s.t.objects[n].id == s.t.objects[m].id ==> n == m)
    && (forall x :: x in s.snapshots ==> ValidLayout(x.row.pieces, x.row.size))
  }

  /** Rows come only from stores; other events may only remove them. */
  ghost predicate RowsFrom(s: Sys, s': Sys, stored: Option<ObjectSnapshot>) {
    match stored
    case Some(x) => s'.t.objects == s.t.objects[x.name := x.row]
    case None => forall n :: n in s'.t.objects ==> n in s.t.objects && s'.t.objects[n] == s.t.objects[n]
  }

  lemma CopyStores(t: Tables, source: ObjectSnapshot, name: Name, condition: Condition, id: ObjectId, now: int)
    requires T.CopyObject(t, source, name, condition, id, now).Ok?
    ensures T.CopyObject(t, source, name, condition, id, now).value.objects == t.objects[name := source.row.(id := id)]
  {
    var row := source.row.(id := id);
    assert (t.objects - {name})[name := row] == t.objects[name := row];
  }

  /** What a store must satisfy for the rows to stay in order. */
  ghost predicate StoreOk(s: Sys, stored: Option<ObjectSnapshot>) {
    stored.Some? ==>
      && ValidLayout(stored.value.row.pieces, stored.value.row.size)
      && FreeId(s.t, stored.value.name, stored.value.row.id)
  }

  lemma CommitStep(s: Sys, e: RequestEvent)
    requires e.Commit? && TakesFreeId(s, e)
    ensures var s' := AnyIdStep(s, Request(e));
      RowsFrom(s, s', R.Written(s, e)) && s'.snapshots == s.snapshots
    ensures StoreOk(s, R.Written(s, e))
  {
    if R.Written(s, e).Some? {
      I.CommitStores(s.t, e.u, e.size, e.etag, e.parts, e.condition, e.id, e.now);
    }
  }

  lemma CopyStep(s: Sys, e: RequestEvent)
    requires e.Copy? && TakesFreeId(s, e) && ValidLayout(e.source.row.pieces, e.source.row.size)
    ensures var s' := AnyIdStep(s, Request(e));
      RowsFrom(s, s', R.Written(s, e)) && s'.snapshots == s.snapshots
    ensures StoreOk(s, R.Written(s, e))
  {
    if R.Written(s, e).Some? {
      CopyStores(s.t, e.source, e.name, e.condition, e.id, e.now);
    }
  }

  lemma RowsKept(s: Sys, s': Sys, stored: Option<ObjectSnapshot>)
    requires RowsOk(s) && RowsFrom(s, s', stored) && StoreOk(s, stored)
    requires forall x :: x in s'.snapshots && x !in s.snapshots ==> ValidLayout(x.row.pieces, x.row.size)
    ensures RowsOk(s')
  {
  }

  lemma OtherRequestStep(s: Sys, e: RequestEvent)
    requires RequestEnabled(s, e) && !e.Commit? && !e.Copy?
    ensures RowsFrom(s, RequestEffect(s, e), None)
  {
    if e.Delete? {
      R.DeleteChanges(s, e);
    } else if e.Abort? {
      R.AbortChanges(s, e);
    } else {
      R.OtherRequestChanges(s, e);
    }
  }

  lemma SnapshotsOfRequest(s: Sys, e: RequestEvent)
    requires RequestEnabled(s, e) && !e.Commit? && !e.Copy?
    ensures var s' := RequestEffect(s, e);
      forall x :: x in s'.snapshots && x !in s.snapshots ==> ValidLayout(x.row.pieces, x.row.size)
  {
  }

  lemma SnapshotsOfOthers(s: Sys, e: Event)
    requires Enabled(s, e) && !e.Request?
    ensures Effect(s, e).snapshots <= s.snapshots
  {
    match e
    case Upload(up) => R.UploadKeepsReads(s, up);
    case Cleanup(clean) => R.CleanupKeepsReads(s, clean);
    case Collect(gc) => R.CollectorKeepsReads(s, gc);
    case Restart =>
  }

  lemma OtherStep(s: Sys, e: Event)
    requires Enabled(s, e) && !e.Request?
    ensures Effect(s, e).t.objects == s.t.objects
  {
    match e
    case Upload(up) => R.UploadKeepsObjects(s, up);
    case Cleanup(clean) => R.CleanupOnlyCollects(s, clean);
    case Collect(gc) => R.CollectorOnlyCollects(s, gc);
    case Restart =>
  }

  lemma StoreStep(s: Sys, e: RequestEvent)
    requires RowsOk(s) && (e.Commit? || e.Copy?)
    ensures var s' := AnyIdStep(s, Request(e));
      RowsOk(s') && RowsFrom(s, s', StoredBy(s, Request(e)))
  {
    if TakesFreeId(s, e) {
      if e.Commit? {
        CommitStep(s, e);
      } else {
        CopyStep(s, e);
      }
      RowsKept(s, AnyIdStep(s, Request(e)), R.Written(s, e));
    }
  }

  lemma StepKeepsRows(s: Sys, e: Event)
    requires RowsOk(s)
    ensures RowsOk(AnyIdStep(s, e)) && RowsFrom(s, AnyIdStep(s, e), StoredBy(s, e))
  {
    if e.Request? && (e.req.Commit? || e.req.Copy?) {
      StoreStep(s, e.req);
    } else if Enabled(s, e) {
      if e.Request? {
        OtherRequestStep(s, e.req);
        SnapshotsOfRequest(s, e.req);
      } else {
        OtherStep(s, e);
        SnapshotsOfOthers(s, e);
      }
      RowsKept(s, Effect(s, e), None);
    }
  }

  lemma {:induction false} RunKeepsRows(events: seq<Event>)
    ensures RowsOk(AnyIdRun(INITIAL, events))
  {
    if |events| > 0 {
      RunKeepsRows(events[..|events| - 1]);
      StepKeepsRows(AnyIdRun(INITIAL, events[..|events| - 1]), events[|events| - 1]);
    }
  }

  lemma StepInRun(events: seq<Event>, k: nat)
    requires k < |events|
    ensures RowsFrom(At(events, k), At(events, k + 1), StoredBy(At(events, k), events[k]))
  {
    AtNext(events, k);
    RunKeepsRows(events[..k]);
    StepKeepsRows(At(events, k), events[k]);
  }

  lemma OneStepBack(s: Sys, s': Sys, stored: Option<ObjectSnapshot>, n: Name)
    requires RowsFrom(s, s', stored) && n in s'.t.objects
    ensures (n in s.t.objects && s.t.objects[n] == s'.t.objects[n]) || stored == Some(T.ObjectSnapshot(n, s'.t.objects[n]))
  {
  }

  /** The row is stored under `n` at `i`, or event `k` stores it there. */
  ghost predicate CameFrom(events: seq<Event>, i: nat, k: nat, j: nat, n: Name, row: ObjectRow)
    requires i <= j <= |events|
  {
    || (n in At(events, i).t.objects && At(events, i).t.objects[n] == row)
    || (i <= k < j && StoredBy(At(events, k), events[k]) == Some(T.ObjectSnapshot(n, row)))
  }

  lemma {:induction false} WhereFrom(events: seq<Event>, i: nat, j: nat, n: Name) returns (k: nat)
    requires i <= j <= |events| && n in At(events, j).t.objects
    ensures CameFrom(events, i, k, j, n, At(events, j).t.objects[n])
    decreases j - i
  {
    k := j;
    if i < j {
      StepInRun(events, j - 1);
      var before, stored := At(events, j - 1), StoredBy(At(events, j - 1), events[j - 1]);
      OneStepBack(before, At(events, j), stored, n);
      if n in before.t.objects && before.t.objects[n] == At(events, j).t.objects[n] {
        k := WhereFrom(events, i, j - 1, n);
      } else {
        k := j - 1;
      }
    }
  }

  // ---- when a read of two queries is sound ----

  /** The second query completes the row read from `x` into something else than `x`. */
  ghost predicate Torn(t: Tables, x: ObjectSnapshot) {
    Assembled(t, R.SeenOf(x)).Some? && Assembled(t, R.SeenOf(x)).value != x
  }

  /** Event `k` gives the id of `x` to other blocks of the same size, and that row is still stored at `j`. */
  ghost predicate Interferes(events: seq<Event>, k: nat, j: nat, x: ObjectSnapshot)
    requires k < j <= |events|
  {
    var stored := StoredBy(At(events, k), events[k]);
    && stored.Some?
    && stored.value.row.id == x.row.id && stored.value.row.size == x.row.size && stored.value.row.pieces != x.row.pieces
    && stored.value.name in At(events, j).t.objects && At(events, j).t.objects[stored.value.name] == stored.value.row
  }

  lemma PiecesOfRow(t: Tables, n: Name)
    requires n in t.objects
    requires forall m :: m in t.objects && t.objects[m].id == t.objects[n].id ==> m == n
    ensures PiecesOf(t, t.objects[n].id) == t.objects[n].pieces
  {
  }

  lemma InterferenceTears(events: seq<Event>, k: nat, j: nat, x: ObjectSnapshot)
    requires k < j <= |events| && Interferes(events, k, j, x)
    ensures Torn(At(events, j).t, x)
  {
    RunKeepsRows(events[..j]);
    PiecesOfRow(At(events, j).t, StoredBy(At(events, k), events[k]).value.name);
  }

  lemma SameTotal(pieces: seq<Piece>, a: int, b: int)
    requires ValidLayout(pieces, a) && ValidLayout(pieces, b)
    ensures a == b
  {
  }

  lemma TearsOnlyByInterference(events: seq<Event>, i: nat, j: nat, name: Name) returns (k: nat)
    requires i <= j <= |events| && name in At(events, i).t.objects
    requires Torn(At(events, j).t, T.ObjectSnapshot(name, At(events, i).t.objects[name]))
    ensures i <= k < j && Interferes(events, k, j, T.ObjectSnapshot(name, At(events, i).t.objects[name]))
  {
    var x := T.ObjectSnapshot(name, At(events, i).t.objects[name]);
    var t := At(events, j).t;
    RunKeepsRows(events[..i]);
    RunKeepsRows(events[..j]);
    if n :| n in t.objects && t.objects[n].id == x.row.id {
      PiecesOfRow(t, n);
      SameTotal(t.objects[n].pieces, t.objects[n].size, x.row.size);
      k := WhereFrom(events, i, j, n);
    } else {
      EmptyOfSizeZero(x.row.pieces);
      assert false;
    }
  }

  /** A read is torn if and only if an event between its queries gave its id to other blocks of the same size, still there. */
  lemma TornIffInterfered(events: seq<Event>, i: nat, j: nat, name: Name)
    requires i <= j <= |events| && name in At(events, i).t.objects
    ensures var x := T.ObjectSnapshot(name, At(events, i).t.objects[name]);
      Torn(At(events, j).t, x) <==> exists k :: i <= k < j && Interferes(events, k, j, x)
  {
    var x := T.ObjectSnapshot(name, At(events, i).t.objects[name]);
    if Torn(At(events, j).t, x) {
      var k := TearsOnlyByInterference(events, i, j, name);
    }
    if k :| i <= k < j && Interferes(events, k, j, x) {
      InterferenceTears(events, k, j, x);
    }
  }

  /** No event from `i` to `j` is given the id. */
  ghost predicate NotGiven(events: seq<Event>, i: nat, j: nat, id: ObjectId)
    requires i <= j <= |events|
  {
    forall k :: i <= k < j ==>
      var stored := StoredBy(At(events, k), events[k]);
      stored.Some? ==> stored.value.row.id != id
  }

  /** Over all runs: a read is sound if no commit or copy between its queries is given its id, or if it has no bytes. */
  lemma ReadIsSoundWithoutReuse(events: seq<Event>, i: nat, j: nat, name: Name)
    requires i <= j <= |events| && name in At(events, i).t.objects
    requires At(events, i).t.objects[name].size == 0 || NotGiven(events, i, j, At(events, i).t.objects[name].id)
    ensures !Torn(At(events, j).t, T.ObjectSnapshot(name, At(events, i).t.objects[name]))
  {
    var x := T.ObjectSnapshot(name, At(events, i).t.objects[name]);
    if Torn(At(events, j).t, x) {
      var k := TearsOnlyByInterference(events, i, j, name);
      var y := StoredBy(At(events, k), events[k]).value;
      RunKeepsRows(events[..i]);
      RunKeepsRows(events[..j]);
      if x.row.size == 0 {
        EmptyOfSizeZero(x.row.pieces);
        EmptyOfSizeZero(y.row.pieces);
      }
    }
  }

  // ---- the rule by which SQLite picks ids ----

  /** One more than the largest id that is left, or 1. */
  ghost predicate LargestPlusOne(t: Tables, name: Name, id: ObjectId) {
    && (forall n :: n in t.objects && n != name ==> t.objects[n].id < id)
    && (id == 1 || exists n :: n in t.objects && n != name && t.objects[n].id + 1 == id)
  }

  ghost predicate FollowsSqlite(events: seq<Event>, i: nat, j: nat)
    requires i <= j <= |events|
  {
    forall k :: i <= k < j ==>
      var stored := StoredBy(At(events, k), events[k]);
      stored.Some? ==> LargestPlusOne(At(events, k).t, stored.value.name, stored.value.row.id)
  }

  ghost predicate LargerStored(t: Tables, id: ObjectId) {
    exists n :: n in t.objects && t.objects[n].id > id
  }

  /** While a row with a larger id is stored after every event, SQLite does not give the id out. */
  lemma LargerIdPreventsReuse(events: seq<Event>, i: nat, j: nat, id: ObjectId)
    requires i <= j <= |events| && FollowsSqlite(events, i, j)
    requires forall k :: i < k <= j ==> LargerStored(At(events, k).t, id)
    ensures NotGiven(events, i, j, id)
  {
    forall k | i <= k < j
      ensures var stored := StoredBy(At(events, k), events[k]); stored.Some? ==> stored.value.row.id != id
    {
      var s := At(events, k);
      StepInRun(events, k);
      assert LargerStored(At(events, k + 1).t, id);
      var n :| n in At(events, k + 1).t.objects && At(events, k + 1).t.objects[n].id > id;
      assert StoredBy(s, events[k]).Some? && StoredBy(s, events[k]).value.name != n ==> n in s.t.objects;
    }
  }

  /** So the read of any object but the newest is sound as long as a newer one stays. */
  lemma ReadIsSoundBelowALargerId(events: seq<Event>, i: nat, j: nat, name: Name)
    requires i <= j <= |events| && name in At(events, i).t.objects && FollowsSqlite(events, i, j)
    requires forall k :: i < k <= j ==> LargerStored(At(events, k).t, At(events, i).t.objects[name].id)
    ensures !Torn(At(events, j).t, T.ObjectSnapshot(name, At(events, i).t.objects[name]))
  {
    LargerIdPreventsReuse(events, i, j, At(events, i).t.objects[name].id);
    ReadIsSoundWithoutReuse(events, i, j, name);
  }
}
