/** The engine above the database: a read's last check, and a plain put with its cleanup and rollback. */
module Engine {
  import opened Prelude
  import opened Schema
  import opened Conditions
  import T = Transactions
  import I = Invariants
  import R = RunTheorems
  import Database
  import Store

  // ---- the check on what a read returns ----

  /** `validate_object_layout`: the pieces are positive, contiguous, distinct and sum up to the size. */
  method ValidateObjectLayout(pieces: seq<Piece>, size: i64) returns (ok: bool)
    ensures ok <==> ValidLayout(pieces, size)
  {
    if size < 0 {
      NonNegativeSize(pieces, size);
      return false;
    }
    var offset: i64 := 0;
    var seen: set<BlockId> := {};
    for i := 0 to |pieces|
      invariant Checked(pieces, i, offset, seen)
    {
      var piece := pieces[i];
      if piece.size <= 0 || piece.offset != offset || piece.id in seen {
        return false;
      }
      CheckedStep(pieces, i, offset, seen);
      var next := CheckedAdd(offset, piece.size);
      if next.None? {
        TooLong(pieces, i, offset, size);
        return false;
      }
      offset, seen := next.value, seen + {piece.id};
    }
    assert pieces[..|pieces|] == pieces;
    return offset == size;
  }

  /** The first `i` pieces are in order and end at `offset`. */
  ghost predicate Checked(pieces: seq<Piece>, i: nat, offset: int, seen: set<BlockId>)
    requires i <= |pieces|
  {
    && offset == TotalSize(pieces[..i])
    && (forall k :: 0 <= k < i ==> pieces[k].size > 0 && pieces[k].offset == TotalSize(pieces[..k]))
    && (forall j, k :: 0 <= j < k < i ==> pieces[j].id != pieces[k].id)
    && seen == (set k | 0 <= k < i :: pieces[k].id)
  }

  lemma CheckedStep(pieces: seq<Piece>, i: nat, offset: int, seen: set<BlockId>)
    requires i < |pieces| && Checked(pieces, i, offset, seen)
    requires pieces[i].size > 0 && pieces[i].offset == offset && pieces[i].id !in seen
    ensures Checked(pieces, i + 1, offset + pieces[i].size, seen + {pieces[i].id})
  {
    assert pieces[..i + 1][..i] == pieces[..i];
  }

  lemma NonNegativeSize(pieces: seq<Piece>, size: int)
    requires size < 0
    ensures !ValidLayout(pieces, size)
  {
    if Contiguous(pieces) {
      T.WholeSizeBounds(pieces);
    }
  }

  /** A running offset that leaves 64 bits cannot belong to a layout whose size fits them. */
  lemma TooLong(pieces: seq<Piece>, i: nat, offset: int, size: i64)
    requires i < |pieces| && offset == TotalSize(pieces[..i]) && offset + pieces[i].size > I64_MAX
    ensures !ValidLayout(pieces, size)
  {
    if Contiguous(pieces) {
      T.TotalSizeBounds(pieces, i + 1);
      assert pieces[..i + 1][..i] == pieces[..i];
    }
  }

  // ---- a plain put ----

  datatype Upload = Upload(size: i64, etag: string, pieces: seq<Piece>)

  /** When a put of what the upload gave can be stored. */
  predicate Storable(t: Tables, name: Name, sent: Option<Upload>, expected: Option<i64>, condition: Condition) {
    && name.bucket in t.buckets && sent.Some?
    && (expected.Some? ==> expected.value == sent.value.size)
    && ValidLayout(sent.value.pieces, sent.value.size)
    && Ids(sent.value.pieces) <= t.blocks.Keys - t.queue.Keys
    && condition.Allows(T.EtagAt(t, name))
  }

  function Stored(id: ObjectId, sent: Upload): ObjectRow {
    ObjectRow(id, sent.size, sent.etag, sent.pieces)
  }

  /** No block of the put is left over: each has lost its row or waits in the queue. */
  predicate Settled(t: Tables, sent: Upload) {
    forall b :: b in Ids(sent.pieces) && b in t.blocks ==> b in t.queue
  }

  /**
   * A put with nothing else running: it stores exactly what was uploaded, or it fails, rolls its upload back and leaves
   * none of the uploaded blocks over. `sent` is what the upload of the body gave, None when it failed and cleaned up
   * itself; `deletes` says which messages Telegram deletes when asked.
   */
  method PutObject(db: Store.Db, u: UploadId, name: Name, sent: Option<Upload>, expected: Option<i64>,
                   condition: Condition, id: ObjectId, now: int, deletes: BlockId -> bool) returns (ok: bool)
    requires Valid(db.tables) && u !in db.tables.uploads
    requires forall n :: n in db.tables.objects ==> db.tables.objects[n].id != id
    requires sent.Some? ==> forall b :: b in Ids(sent.value.pieces) ==> !Referenced(db.tables, b)
    modifies db
    ensures Valid(db.tables) && db.tables.uploads == old(db.tables).uploads
    ensures ok <==> Storable(old(db.tables), name, sent, expected, condition)
    ensures db.tables.objects == if ok then old(db.tables).objects[name := Stored(id, sent.value)] else old(db.tables).objects
    ensures ok <==>
      && name.bucket in old(db.tables).buckets && sent.Some?
      && (expected.Some? ==> expected.value == sent.value.size)
      && ValidLayout(sent.value.pieces, sent.value.size)
      && Ids(sent.value.pieces) <= old(db.tables).blocks.Keys - old(db.tables).queue.Keys
      && condition.Allows(if name in old(db.tables).objects then Some(old(db.tables).objects[name].etag) else None)
    ensures ok ==> db.tables.objects[name] == ObjectRow(id, sent.value.size, sent.value.etag, sent.value.pieces)
    ensures !ok && Persisting(old(db.tables), name, sent, expected) ==> Settled(db.tables, sent.value)
    ensures !Persisting(old(db.tables), name, sent, expected) ==> db.tables == old(db.tables)
  {
    ghost var start := db.tables;
    var created := db.CreateUpload(u, name, now);
    if created.Err? {
      return false;
    }
    ok := StoreUpload(db, u, name, sent, expected, condition, id, now, deletes, start);
    if !ok {
      ghost var before := db.tables;
      var _ := db.AbortUpload(u, now);
      RolledBack(before, start, u, name, sent, expected, now);
    }
  }

  /** The put gets as far as persisting its part: the bucket is there, and the body came and has the announced length. */
  predicate Persisting(t: Tables, name: Name, sent: Option<Upload>, expected: Option<i64>) {
    name.bucket in t.buckets && sent.Some? && (expected.Some? ==> expected.value == sent.value.size)
  }

  // ---- the steps of a put on the tables ----

  function Created(t: Tables, u: UploadId, name: Name, now: int, parts: map<PartNumber, PartRow>): Tables {
    t.(uploads := t.uploads[u := UploadRow(name, now, parts)])
  }

  function RowOf(sent: Upload): PartRow {
    PartRow(sent.size, sent.etag, sent.pieces)
  }

  lemma NewUploadHoldsNothing(t: Tables, u: UploadId, name: Name, now: int, b: BlockId)
    requires u !in t.uploads && !Referenced(t, b)
    ensures !Referenced(Created(t, u, name, now, map[]), b)
  {
    var t' := Created(t, u, name, now, map[]);
    assert forall v, p :: PartHolds(t'.uploads, v, p, b) ==> PartHolds(t.uploads, v, p, b);
  }

  lemma PartReplaced(t: Tables, u: UploadId, name: Name, sent: Upload, now: int)
    requires t.queue.Keys <= t.blocks.Keys
    ensures var r := T.ReplacePart(Created(t, u, name, now, map[]), u, 0, sent.size, sent.etag, sent.pieces, now);
      && (r.Ok? <==> Distinct(sent.pieces) && Ids(sent.pieces) <= t.blocks.Keys - t.queue.Keys)
      && (r.Ok? ==> r.value == Created(t, u, name, now, map[0 := RowOf(sent)]))
  {
    var t0, t1 := Created(t, u, name, now, map[]), Created(t, u, name, now, map[0 := RowOf(sent)]);
    assert T.WithPart(t0.uploads, u, 0, RowOf(sent)) == t1.uploads;
    assert Ids(T.PartPieces(t0, u, 0)) - Ids(sent.pieces) == {};
    Database.ReleaseNothing(t1, now);
  }

  lemma OnlyPart(sent: Upload)
    ensures var parts := [T.PartSnapshot(0, RowOf(sent))];
      && T.PartIds(parts) == Ids(sent.pieces)
      && (T.PartsLayoutOk(parts) && T.PartsTotal(parts) == sent.size <==> ValidLayout(sent.pieces, sent.size))
      && (ValidLayout(sent.pieces, sent.size) ==> T.PartsLayoutOk(parts) && T.Flatten(parts) == sent.pieces)
  {
    var parts := [T.PartSnapshot(0, RowOf(sent))];
    assert parts[..0] == [];
    assert T.PartsTotal(parts) == T.PartsTotal([]) + TotalSize(sent.pieces);
    assert parts[0].row == RowOf(sent);
    if ValidLayout(sent.pieces, sent.size) {
      FlattenOne(sent);
    }
  }

  lemma FlattenOne(sent: Upload)
    requires ValidLayout(sent.pieces, sent.size) && T.PartsFit([T.PartSnapshot(0, RowOf(sent))])
    ensures T.Flatten([T.PartSnapshot(0, RowOf(sent))]) == sent.pieces
  {
    var parts := [T.PartSnapshot(0, RowOf(sent))];
    assert parts[..0] == [] && T.Flatten([]) == [];
    RebasedAlone(sent.pieces);
  }

  lemma {:induction false} RebasedAlone(pieces: seq<Piece>)
    requires Contiguous(pieces) && TotalSize(pieces) <= I64_MAX
    ensures T.Rebased([], pieces) == pieces
  {
    if |pieces| > 0 {
      var init, last := pieces[..|pieces| - 1], pieces[|pieces| - 1];
      T.RebasedUnfolds([], pieces);
      RebasedAlone(init);
      assert pieces == init + [last];
    }
  }

  lemma PartMatched(t: Tables, u: UploadId, name: Name, sent: Upload, now: int)
    ensures var t1, parts := Created(t, u, name, now, map[0 := RowOf(sent)]), [T.PartSnapshot(0, RowOf(sent))];
      T.PartsMatch(t1.uploads[u], parts) && t1.uploads[u].name == name
  {
  }

  lemma PartCommitted(t: Tables, u: UploadId, name: Name, sent: Upload, condition: Condition, id: ObjectId, now: int)
    requires u !in t.uploads && t.queue.Keys <= t.blocks.Keys && Ids(sent.pieces) * t.queue.Keys == {}
    ensures var t1, parts := Created(t, u, name, now, map[0 := RowOf(sent)]), [T.PartSnapshot(0, RowOf(sent))];
      var r := T.CommitUpload(t1, u, sent.size, sent.etag, parts, condition, id, now);
      && (r.Ok? <==> ValidLayout(sent.pieces, sent.size) && condition.Allows(T.EtagAt(t, name)))
      && (r.Ok? ==> r.value.Some? && StoredIn(r.value.value, t, name, Stored(id, sent)))
  {
    var t1, parts := Created(t, u, name, now, map[0 := RowOf(sent)]), [T.PartSnapshot(0, RowOf(sent))];
    OnlyPart(sent);
    PartMatched(t, u, name, sent, now);
    var allowed := condition.Allows(T.EtagAt(t, name));
    assert T.EtagAt(t1, name) == T.EtagAt(t, name) && t1.queue == t.queue;
    if ValidLayout(sent.pieces, sent.size) {
      var unused := UploadIds(t1.uploads[u]) - T.PartIds(parts);
      assert t1.uploads - {u} == t.uploads;
      CommittedIn(t, t1, u, Stored(id, sent), unused, now);
      assert T.Flatten(parts) == sent.pieces;
      var r := T.CommitUpload(t1, u, sent.size, sent.etag, parts, condition, id, now);
      assert r == if allowed then Ok(Some(T.Committed(t1, u, Stored(id, sent), unused, now))) else Err(T.PreconditionFailed);
    }
  }

  predicate StoredIn(t': Tables, t: Tables, name: Name, row: ObjectRow) {
    t'.objects == t.objects[name := row] && t'.uploads == t.uploads
  }

  lemma CommittedIn(t: Tables, t1: Tables, u: UploadId, row: ObjectRow, unused: set<BlockId>, now: int)
    requires u !in t.uploads && t1.queue.Keys <= t1.blocks.Keys && t1.objects == t.objects
    requires u in t1.uploads && t1.uploads - {u} == t.uploads
    ensures StoredIn(T.Committed(t1, u, row, unused, now), t, t1.uploads[u].name, row)
  {
  }

  method PersistPart(db: Store.Db, u: UploadId, name: Name, sent: Upload, now: int,
                     ghost start: Tables) returns (ok: bool)
    requires Valid(start) && u !in start.uploads
    requires Valid(db.tables) && db.tables == Created(start, u, name, now, map[])
    requires forall b :: b in Ids(sent.pieces) ==> !Referenced(start, b)
    modifies db
    ensures Valid(db.tables)
    ensures ok <==> Distinct(sent.pieces) && Ids(sent.pieces) <= start.blocks.Keys - start.queue.Keys
    ensures db.tables == Created(start, u, name, now, if ok then map[0 := RowOf(sent)] else map[])
  {
    forall b | b in Ids(sent.pieces) ensures !Referenced(db.tables, b) {
      NewUploadHoldsNothing(start, u, name, now, b);
    }
    PartReplaced(start, u, name, sent, now);
    var replaced := db.ReplacePart(u, 0, sent.size, sent.etag, sent.pieces, now);
    return replaced.Ok?;
  }

  method CommitPart(db: Store.Db, u: UploadId, name: Name, sent: Upload, condition: Condition, id: ObjectId, now: int,
                    ghost start: Tables) returns (ok: bool)
    requires Valid(start) && u !in start.uploads && Ids(sent.pieces) * start.queue.Keys == {}
    requires Valid(db.tables) && db.tables == Created(start, u, name, now, map[0 := RowOf(sent)])
    requires forall n :: n in start.objects ==> start.objects[n].id != id
    modifies db
    ensures Valid(db.tables)
    ensures ok <==> ValidLayout(sent.pieces, sent.size) && condition.Allows(T.EtagAt(start, name))
    ensures if ok then StoredIn(db.tables, start, name, Stored(id, sent)) else db.tables == old(db.tables)
  {
    PartCommitted(start, u, name, sent, condition, id, now);
    var parts := [T.PartSnapshot(0, RowOf(sent))];
    var committed := db.CommitUpload(u, sent.size, sent.etag, parts, condition, id, now);
    return committed.Ok?;
  }

  // ---- cleaning up after a part that could not be persisted ----

  /** `cleanup_untracked_block` undisturbed: the block is queued, and its row goes if its message is deleted. */
  function CleanedOne(t: Tables, b: BlockId, now: int, deleted: bool): Tables {
    var (queued, claimed) := T.QueueStaleBlock(t, b, now);
    if claimed && deleted then T.GcSuccess(queued, b) else queued
  }

  /** The other blocks, and everything above the blocks, stay as they are. */
  ghost predicate OnlyTouches(t: Tables, t': Tables, ids: set<BlockId>) {
    && t'.objects == t.objects && t'.uploads == t.uploads && t'.buckets == t.buckets
    && (forall b :: b !in ids ==> (b in t'.blocks <==> b in t.blocks) && (b in t'.queue <==> b in t.queue))
    && (forall b :: b !in ids && b in t.blocks ==> t'.blocks[b] == t.blocks[b])
  }

  lemma CleanedOneIsSettled(t: Tables, b: BlockId, now: int, deleted: bool)
    requires Valid(t) && !Referenced(t, b)
    ensures var t' := CleanedOne(t, b, now, deleted);
      OnlyTouches(t, t', {b}) && (b in t'.blocks ==> b in t'.queue)
  {
    I.MentionedMeansReferenced(t, b);
    if b in t.blocks {
      assert BlockOk(t, b);
    }
  }

  method CleanUpBlock(db: Store.Db, b: BlockId, now: int, deleted: bool)
    requires Valid(db.tables) && !Referenced(db.tables, b)
    modifies db
    ensures Valid(db.tables) && db.tables == CleanedOne(old(db.tables), b, now, deleted)
  {
    var queued := db.QueueStaleBlock(b, now);
    if !queued {
      return;
    }
    if deleted {
      db.GcSuccess(b);
    }
  }

  ghost predicate CleanedUpTo(t: Tables, t': Tables, pieces: seq<Piece>, i: nat)
    requires i <= |pieces|
  {
    && OnlyTouches(t, t', Ids(pieces))
    && forall k :: 0 <= k < i && pieces[k].id in t'.blocks ==> pieces[k].id in t'.queue
  }

  lemma CleanedNext(t: Tables, t1: Tables, t2: Tables, pieces: seq<Piece>, i: nat)
    requires i < |pieces| && CleanedUpTo(t, t1, pieces, i)
    requires OnlyTouches(t1, t2, {pieces[i].id}) && (pieces[i].id in t2.blocks ==> pieces[i].id in t2.queue)
    ensures CleanedUpTo(t, t2, pieces, i + 1)
  {
    assert pieces[i].id in Ids(pieces);
  }

  lemma SameReferences(t: Tables, t': Tables, ids: set<BlockId>, b: BlockId)
    requires OnlyTouches(t, t', ids)
    ensures Referenced(t', b) <==> Referenced(t, b)
  {
  }

  /** Cleans the uploaded blocks one after the other. */
  method CleanUp(db: Store.Db, sent: Upload, now: int, deletes: BlockId -> bool)
    requires Valid(db.tables) && forall b :: b in Ids(sent.pieces) ==> !Referenced(db.tables, b)
    modifies db
    ensures Valid(db.tables) && OnlyTouches(old(db.tables), db.tables, Ids(sent.pieces)) && Settled(db.tables, sent)
  {
    ghost var start := db.tables;
    for i := 0 to |sent.pieces|
      invariant Valid(db.tables) && CleanedUpTo(start, db.tables, sent.pieces, i)
    {
      var b := sent.pieces[i].id;
      assert b in Ids(sent.pieces);
      SameReferences(start, db.tables, Ids(sent.pieces), b);
      CleanedOneIsSettled(db.tables, b, now, deletes(b));
      ghost var before := db.tables;
      CleanUpBlock(db, b, now, deletes(b));
      CleanedNext(start, before, db.tables, sent.pieces, i);
    }
  }

  // ---- the put ----

  /** What a put that fails leaves for the rollback. */
  ghost predicate LeftBehind(t: Tables, start: Tables, u: UploadId, name: Name, sent: Option<Upload>, expected: Option<i64>,
                             now: int)
  {
    && Unfinished(t, start, u)
    && (if !Persisting(start, name, sent, expected) then t == Created(start, u, name, now, map[])
        else t.uploads[u].parts == map[0 := RowOf(sent.value)] || (t.uploads[u].parts == map[] && Settled(t, sent.value)))
  }

  lemma AbortOfEmpty(t: Tables, u: UploadId, now: int)
    requires u in t.uploads && t.uploads[u].parts == map[]
    ensures T.AbortUpload(t, u, now) == Some(t.(uploads := t.uploads - {u}))
  {
    assert UploadIds(t.uploads[u]) == {};
    Database.ReleaseNothing(t.(uploads := t.uploads - {u}), now);
  }

  lemma AbortOfOnePart(t: Tables, u: UploadId, sent: Upload, now: int)
    requires Valid(t) && u in t.uploads && t.uploads[u].parts == map[0 := RowOf(sent)]
    ensures Settled(T.AbortUpload(t, u, now).value, sent)
  {
    forall b | b in Ids(sent.pieces) ensures b in T.AbortUpload(t, u, now).value.queue {
      assert 0 in t.uploads[u].parts && b in Ids(t.uploads[u].parts[0].pieces);
      R.AbortConservesBlocks(t, u, now, b);
    }
  }

  /** The rollback releases the part, if there is one; before that the blocks were cleaned up. */
  lemma RolledBack(t: Tables, start: Tables, u: UploadId, name: Name, sent: Option<Upload>, expected: Option<i64>, now: int)
    requires Valid(t) && u !in start.uploads && LeftBehind(t, start, u, name, sent, expected, now)
    ensures var t' := T.AbortUpload(t, u, now).value;
      && t'.objects == start.objects && t'.uploads == start.uploads
      && (Persisting(start, name, sent, expected) ==> Settled(t', sent.value))
      && (!Persisting(start, name, sent, expected) ==> t' == start)
  {
    if t.uploads[u].parts == map[] {
      AbortOfEmpty(t, u, now);
      assert sent.Some? ==> 0 in map[0 := RowOf(sent.value)];
    } else {
      AbortOfOnePart(t, u, sent.value, now);
    }
  }

  lemma CleanedIsLeft(created: Tables, t: Tables, start: Tables, u: UploadId, name: Name, sent: Upload, expected: Option<i64>,
                      now: int)
    requires u !in start.uploads && created == Created(start, u, name, now, map[]) && Persisting(start, name, Some(sent), expected)
    requires OnlyTouches(created, t, Ids(sent.pieces)) && Settled(t, sent)
    ensures LeftBehind(t, start, u, name, Some(sent), expected, now)
  {
    UnfinishedWith(start, u, name, now, map[]);
  }

  /** The part is persisted and committed at once; a failure at any point is left to the rollback. */
  method StoreUpload(db: Store.Db, u: UploadId, name: Name, sent: Option<Upload>, expected: Option<i64>,
                     condition: Condition, id: ObjectId, now: int, deletes: BlockId -> bool, ghost start: Tables)
    returns (ok: bool)
    requires Valid(start) && u !in start.uploads && name.bucket in start.buckets
    requires Valid(db.tables) && db.tables == Created(start, u, name, now, map[])
    requires forall n :: n in start.objects ==> start.objects[n].id != id
    requires sent.Some? ==> forall b :: b in Ids(sent.value.pieces) ==> !Referenced(start, b)
    modifies db
    ensures Valid(db.tables) && ok == Storable(start, name, sent, expected, condition)
    ensures ok ==> StoredIn(db.tables, start, name, Stored(id, sent.value))
    ensures !ok ==> LeftBehind(db.tables, start, u, name, sent, expected, now)
  {
    UnfinishedWith(start, u, name, now, map[]);
    if sent.None? || (expected.Some? && expected.value != sent.value.size) {
      return false;
    }
    ghost var created := db.tables;
    ok := PersistPart(db, u, name, sent.value, now, start);
    if !ok {
      forall b | b in Ids(sent.value.pieces) ensures !Referenced(db.tables, b) {
        NewUploadHoldsNothing(start, u, name, now, b);
      }
      CleanUp(db, sent.value, now, deletes);
      CleanedIsLeft(created, db.tables, start, u, name, sent.value, expected, now);
      return false;
    }
    NoneQueued(sent.value, start);
    UnfinishedWith(start, u, name, now, map[0 := RowOf(sent.value)]);
    ok := CommitPart(db, u, name, sent.value, condition, id, now, start);
  }

  lemma NoneQueued(sent: Upload, t: Tables)
    requires Ids(sent.pieces) <= t.blocks.Keys - t.queue.Keys
    ensures Ids(sent.pieces) * t.queue.Keys == {}
  {
  }

  lemma UnfinishedWith(t: Tables, u: UploadId, name: Name, now: int, parts: map<PartNumber, PartRow>)
    requires u !in t.uploads
    ensures Unfinished(Created(t, u, name, now, parts), t, u)
  {
  }

  /** The put has its upload and nothing else has changed but that. */
  predicate Unfinished(t': Tables, t: Tables, u: UploadId) {
    t'.objects == t.objects && u in t'.uploads && t'.uploads - {u} == t.uploads
  }
}
