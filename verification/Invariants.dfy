/** Every transaction keeps the database invariant `Schema.Valid`. */
module Invariants {
  import opened Prelude
  import opened Schema
  import opened Conditions
  import opened Transactions

  lemma MentionedMeansReferenced(t: Tables, b: BlockId)
    ensures Mentioned(t, b) <==> Referenced(t, b)
  {
    if Mentioned(t, b) {
      if n :| n in t.objects && b in Ids(t.objects[n].pieces) {
        assert n in Holders(t.objects, b);
      } else {
        var u :| u in t.uploads && b in UploadIds(t.uploads[u]);
        var p :| p in t.uploads[u].parts && b in Ids(t.uploads[u].parts[p].pieces);
        assert PartHolds(t.uploads, u, p, b);
      }
    }
    if HolderCount(t.objects, b) > 0 {
      var n :| n in Holders(t.objects, b);
      assert n in t.objects && b in Ids(t.objects[n].pieces);
    } else if InSomePart(t.uploads, b) {
      var u, p :| PartHolds(t.uploads, u, p, b);
      assert b in UploadIds(t.uploads[u]);
    }
  }

  /**
   * Every block that a delete, a replacement, a commit or an abort releases still counts at least one reference,
   * and no block is released on two of these accounts; so the floor at zero in a decrement is never reached.
   */
  lemma FloorIsNeverReached(t: Tables, name: Name, u: UploadId, b: BlockId)
    requires Valid(t) && b in Ids(PiecesAt(t, name)) + PartsOf(t, u)
    ensures b in t.blocks && t.blocks[b].refCount >= 1
    ensures Ids(PiecesAt(t, name)) !! PartsOf(t, u)
  {
    if b in Ids(PiecesAt(t, name)) {
      PieceIsCounted(t, name, b);
    } else {
      PartIsCounted(t, u, b);
    }
    forall c | c in Ids(PiecesAt(t, name)) ensures c !in PartsOf(t, u) {
      PieceIsCounted(t, name, c);
      if c in PartsOf(t, u) {
        PartIsCounted(t, u, c);
      }
    }
  }

  lemma PieceIsCounted(t: Tables, name: Name, b: BlockId)
    requires Valid(t) && b in Ids(PiecesAt(t, name))
    ensures b in t.blocks && t.blocks[b].refCount >= 1 && t.blocks[b].committed
  {
    assert name in Holders(t.objects, b);
    assert b in t.blocks;
    assert BlockOk(t, b);
  }

  lemma PartIsCounted(t: Tables, u: UploadId, b: BlockId)
    requires Valid(t) && b in PartsOf(t, u)
    ensures b in t.blocks && t.blocks[b].refCount == 1 && !t.blocks[b].committed
  {
    var p :| p in t.uploads[u].parts && b in Ids(t.uploads[u].parts[p].pieces);
    assert PartHolds(t.uploads, u, p, b);
    assert b in t.blocks;
    assert BlockOk(t, b);
  }

  function PartsOf(t: Tables, u: UploadId): set<BlockId> {
    if u in t.uploads then UploadIds(t.uploads[u]) else {}
  }

  /**
   * What no transaction does to an existing block: change its message, take it out of the queue while its
   * row lives, or refer to it when nothing did (except for the blocks in `gain`).
   */
  ghost predicate EvolvesAt(t: Tables, t': Tables, gain: set<BlockId>, b: BlockId) {
    b in t'.blocks ==>
      && b in t.blocks && t'.blocks[b].message == t.blocks[b].message
      && (b in t.queue ==> b in t'.queue)
      && (Referenced(t', b) ==> Referenced(t, b) || b in gain)
  }

  ghost predicate Evolves(t: Tables, t': Tables, gain: set<BlockId>) {
    forall b :: b in t'.blocks ==> EvolvesAt(t, t', gain, b)
  }

  // ---- single-row transactions ----

  lemma AddStagedBlockKeepsValid(t: Tables, id: BlockId, message: MessageId)
    requires Valid(t)
    ensures AddStagedBlock(t, id, message).Ok? ==> Valid(AddStagedBlock(t, id, message).value)
  {
  }

  lemma QueueStaleBlockKeepsValid(t: Tables, id: BlockId, now: int)
    requires Valid(t)
    ensures Valid(QueueStaleBlock(t, id, now).0)
    ensures QueueStaleBlock(t, id, now).1 <==>
      id in t.blocks && !Referenced(t, id) && !t.blocks[id].committed
    ensures QueueStaleBlock(t, id, now).1 ==> id in QueueStaleBlock(t, id, now).0.queue
    ensures Evolves(t, QueueStaleBlock(t, id, now).0, {})
  {
    MentionedMeansReferenced(t, id);
    var t' := QueueStaleBlock(t, id, now).0;
    if id in t.blocks {
      assert BlockOk(t, id);
    }
    forall b | b in t'.blocks ensures BlockOk(t', b) {
      assert BlockOk(t, b);
    }
  }

  lemma GcSuccessKeepsValid(t: Tables, id: BlockId)
    requires Valid(t)
    ensures Valid(GcSuccess(t, id))
    ensures Evolves(t, GcSuccess(t, id), {})
  {
    MentionedMeansReferenced(t, id);
    var t' := GcSuccess(t, id);
    if t' != t {
      forall n | n in t.objects ensures Ids(t.objects[n].pieces) <= t'.blocks.Keys {
        assert id in Ids(t.objects[n].pieces) ==> n in Holders(t.objects, id);
      }
      forall u, p | u in t.uploads && p in t.uploads[u].parts
        ensures Ids(t.uploads[u].parts[p].pieces) <= t'.blocks.Keys
      {
        assert id in Ids(t.uploads[u].parts[p].pieces) ==> PartHolds(t.uploads, u, p, id);
      }
      forall b | b in t'.blocks ensures BlockOk(t', b) {
        assert BlockOk(t, b);
      }
    }
  }

  lemma GcFailureKeepsValid(t: Tables, id: BlockId, nextAttempt: int)
    requires Valid(t)
    ensures Valid(GcFailure(t, id, nextAttempt))
    ensures Valid(GcOrphan(t, id))
    ensures Evolves(t, GcFailure(t, id, nextAttempt), {}) && Evolves(t, GcOrphan(t, id), {})
  {
    QueueRewritten(t, GcFailure(t, id, nextAttempt).queue);
    QueueRewritten(t, GcOrphan(t, id).queue);
  }

  /** Queue entries that change without coming or going matter to no block. */
  lemma QueueRewritten(t: Tables, queue: map<BlockId, QueueRow>)
    requires Valid(t) && queue.Keys == t.queue.Keys
    ensures Valid(t.(queue := queue)) && Evolves(t, t.(queue := queue), {})
  {
    var t' := t.(queue := queue);
    forall b | b in t.blocks ensures BlockOk(t', b) {
      assert BlockOk(t, b) && (b in queue <==> b in t.queue);
    }
  }

  lemma CreateUploadKeepsValid(t: Tables, u: UploadId, name: Name, now: int)
    requires Valid(t)
    ensures CreateUpload(t, u, name, now).Ok? ==>
      Valid(CreateUpload(t, u, name, now).value) && Evolves(t, CreateUpload(t, u, name, now).value, {})
  {
    if CreateUpload(t, u, name, now).Ok? {
      var t' := CreateUpload(t, u, name, now).value;
      assert forall v, q, b :: PartHolds(t'.uploads, v, q, b) <==> PartHolds(t.uploads, v, q, b);
      forall b | b in t'.blocks ensures BlockOk(t', b) {
        assert BlockOk(t, b);
      }
    }
  }

  lemma BucketsKeepValid(t: Tables, buckets: set<string>)
    requires Valid(t)
    requires forall u :: u in t.uploads ==> t.uploads[u].name.bucket in buckets
    ensures Valid(t.(buckets := buckets)) && Evolves(t, t.(buckets := buckets), {})
  {
  }

  // ---- releasing references ----

  predicate Holds(objects: map<Name, ObjectRow>, name: Name, b: BlockId) {
    name in objects && b in Ids(objects[name].pieces)
  }

  lemma CountWithout(objects: map<Name, ObjectRow>, name: Name, b: BlockId)
    ensures HolderCount(objects - {name}, b) == HolderCount(objects, b) - if Holds(objects, name, b) then 1 else 0
  {
    assert Holders(objects - {name}, b) == Holders(objects, b) - {name};
  }

  lemma CountWith(objects: map<Name, ObjectRow>, name: Name, row: ObjectRow, b: BlockId)
    requires name !in objects
    ensures HolderCount(objects[name := row], b) == HolderCount(objects, b) + if b in Ids(row.pieces) then 1 else 0
  {
    assert Holders(objects[name := row], b) == Holders(objects, b) + (if b in Ids(row.pieces) then {name} else {});
  }

  lemma CountHeld(objects: map<Name, ObjectRow>, name: Name, b: BlockId)
    requires Holds(objects, name, b)
    ensures HolderCount(objects, b) > 0
  {
    assert name in Holders(objects, b);
  }

  lemma ReleaseAt(t: Tables, ids: set<BlockId>, now: int, b: BlockId)
    requires b in t.blocks
    ensures b in Release(t, ids, now).blocks
    ensures Release(t, ids, now).blocks[b] == if b in ids then Dropped(t.blocks[b]) else t.blocks[b]
    ensures b in Release(t, ids, now).queue <==>
      b in t.queue || (b in ids && Dropped(t.blocks[b]).refCount == 0)
  {
  }

  lemma RemoveObjectAt(t: Tables, name: Name, now: int, b: BlockId)
    requires Valid(t) && b in t.blocks
    ensures b in RemoveObject(t, name, now).blocks && BlockOk(RemoveObject(t, name, now), b)
    ensures EvolvesAt(t, RemoveObject(t, name, now), {}, b)
    ensures HolderCount(RemoveObject(t, name, now).objects, b)
         == HolderCount(t.objects, b) - if Holds(t.objects, name, b) then 1 else 0
  {
    assert BlockOk(t, b);
    CountWithout(t.objects, name, b);
    ReleaseAt(t.(objects := t.objects - {name}), Ids(PiecesAt(t, name)), now, b);
    if Holds(t.objects, name, b) {
      CountHeld(t.objects, name, b);
    }
  }

  lemma RemoveObjectKeepsValid(t: Tables, name: Name, now: int)
    requires Valid(t)
    ensures Valid(RemoveObject(t, name, now))
    ensures Evolves(t, RemoveObject(t, name, now), {})
  {
    forall b | b in t.blocks
      ensures BlockOk(RemoveObject(t, name, now), b) && EvolvesAt(t, RemoveObject(t, name, now), {}, b)
    {
      RemoveObjectAt(t, name, now, b);
    }
  }

  lemma AbortUploadKeepsValid(t: Tables, u: UploadId, now: int)
    requires Valid(t) && u in t.uploads
    ensures Valid(AbortUpload(t, u, now).value)
    ensures Evolves(t, AbortUpload(t, u, now).value, {})
  {
    var t' := AbortUpload(t, u, now).value;
    PartsWithout(t, u);
    forall b | b in t'.blocks ensures BlockOk(t', b) && EvolvesAt(t, t', {}, b) {
      assert BlockOk(t, b);
    }
  }

  lemma PartHoldsWithout(uploads: map<UploadId, UploadRow>, u: UploadId, v: UploadId, q: PartNumber, b: BlockId)
    ensures PartHolds(uploads - {u}, v, q, b) <==> PartHolds(uploads, v, q, b) && v != u
  {
  }

  /** Dropping an upload leaves exactly its own blocks without a part. */
  lemma PartsWithout(t: Tables, u: UploadId)
    requires UploadsOk(t) && u in t.uploads
    ensures forall v, q, b :: PartHolds(t.uploads - {u}, v, q, b) <==> PartHolds(t.uploads, v, q, b) && v != u
    ensures forall b :: b in UploadIds(t.uploads[u]) <==> InSomePart(t.uploads, b) && !InSomePart(t.uploads - {u}, b)
  {
    forall b
      ensures b in UploadIds(t.uploads[u]) <==> InSomePart(t.uploads, b) && !InSomePart(t.uploads - {u}, b)
    {
      if b in UploadIds(t.uploads[u]) {
        var p :| p in t.uploads[u].parts && b in Ids(t.uploads[u].parts[p].pieces);
        assert PartHolds(t.uploads, u, p, b);
        if InSomePart(t.uploads - {u}, b) {
          var v, q :| PartHolds(t.uploads - {u}, v, q, b);
          PartHoldsWithout(t.uploads, u, v, q, b);
          assert false;
        }
      } else if InSomePart(t.uploads, b) {
        var v, q :| PartHolds(t.uploads, v, q, b);
        assert v != u;
        assert PartHolds(t.uploads - {u}, v, q, b);
      }
    }
  }

  // ---- replacing a part ----

  /** A part may only take blocks that nothing refers to, or that the same part already holds. */
  ghost predicate MayReceive(t: Tables, u: UploadId, p: PartNumber, pieces: seq<Piece>) {
    forall b :: b in Ids(pieces) ==> !Referenced(t, b) || PartHolds(t.uploads, u, p, b)
  }

  lemma WithPartHolds(uploads: map<UploadId, UploadRow>, u: UploadId, p: PartNumber, row: PartRow, v: UploadId,
                      q: PartNumber, b: BlockId)
    requires u in uploads
    ensures PartHolds(WithPart(uploads, u, p, row), v, q, b) <==>
      if v == u && q == p then b in Ids(row.pieces) else PartHolds(uploads, v, q, b)
  {
  }

  lemma ReplacePartKeepsUploads(t: Tables, u: UploadId, p: PartNumber, row: PartRow)
    requires UploadsOk(t) && u in t.uploads && MayReceive(t, u, p, row.pieces)
    requires Distinct(row.pieces) && Ids(row.pieces) <= t.blocks.Keys
    ensures UploadsOk(t.(uploads := WithPart(t.uploads, u, p, row)))
  {
    var uploads := WithPart(t.uploads, u, p, row);
    forall v, q, w, r, b | PartHolds(uploads, v, q, b) && PartHolds(uploads, w, r, b)
      ensures v == w && q == r
    {
      WithPartHolds(t.uploads, u, p, row, v, q, b);
      WithPartHolds(t.uploads, u, p, row, w, r, b);
      assert b in Ids(row.pieces) ==> !Referenced(t, b) || PartHolds(t.uploads, u, p, b);
    }
  }

  lemma ReplacePartAt(t: Tables, u: UploadId, p: PartNumber, row: PartRow, now: int, b: BlockId)
    requires Valid(t) && u in t.uploads && MayReceive(t, u, p, row.pieces) && b in t.blocks
    requires Ids(row.pieces) * t.queue.Keys == {}
    ensures var placed := t.(uploads := WithPart(t.uploads, u, p, row));
      var t' := Release(placed, Ids(PartPieces(t, u, p)) - Ids(row.pieces), now);
      b in t'.blocks && BlockOk(t', b) && EvolvesAt(t, t', Ids(row.pieces), b)
  {
    assert BlockOk(t, b);
    var uploads := WithPart(t.uploads, u, p, row);
    forall v, q, c
      ensures PartHolds(uploads, v, q, c) <==> if v == u && q == p then c in Ids(row.pieces) else PartHolds(t.uploads, v, q, c)
    {
      WithPartHolds(t.uploads, u, p, row, v, q, c);
    }
    var placed := t.(uploads := uploads);
    ReplacePartMoves(t, placed, u, p, row.pieces, b);
    assert b in Ids(PartPieces(t, u, p)) <==> PartHolds(t.uploads, u, p, b);
    ReleaseAt(placed, Ids(PartPieces(t, u, p)) - Ids(row.pieces), now, b);
    if PartHolds(t.uploads, u, p, b) {
      assert InSomePart(t.uploads, b);
    }
    if b in Ids(row.pieces) {
      assert b !in t.queue;
    }
  }

  lemma ReplacePartKeepsValid(t: Tables, u: UploadId, p: PartNumber, size: i64, etag: string, pieces: seq<Piece>,
                              now: int)
    requires Valid(t) && MayReceive(t, u, p, pieces)
    ensures ReplacePart(t, u, p, size, etag, pieces, now).Ok? ==>
      && Valid(ReplacePart(t, u, p, size, etag, pieces, now).value)
      && Evolves(t, ReplacePart(t, u, p, size, etag, pieces, now).value, Ids(pieces))
  {
    if ReplacePart(t, u, p, size, etag, pieces, now).Ok? {
      var row := PartRow(size, etag, pieces);
      ReplacePartKeepsUploads(t, u, p, row);
      var placed := t.(uploads := WithPart(t.uploads, u, p, row));
      var t' := Release(placed, Ids(PartPieces(t, u, p)) - Ids(pieces), now);
      forall b | b in t.blocks ensures b in t'.blocks && BlockOk(t', b) && EvolvesAt(t, t', Ids(pieces), b) {
        ReplacePartAt(t, u, p, row, now, b);
      }
    }
  }

  /** Which blocks are in a part after the replacement. */
  lemma ReplacePartMoves(t: Tables, t': Tables, u: UploadId, p: PartNumber, pieces: seq<Piece>, b: BlockId)
    requires UploadsOk(t)
    requires forall v, q, c :: PartHolds(t'.uploads, v, q, c) <==>
      if v == u && q == p then c in Ids(pieces) else PartHolds(t.uploads, v, q, c)
    ensures InSomePart(t'.uploads, b) <==>
      b in Ids(pieces) || (InSomePart(t.uploads, b) && !PartHolds(t.uploads, u, p, b))
  {
    if b in Ids(pieces) {
      assert PartHolds(t'.uploads, u, p, b);
    } else if InSomePart(t.uploads, b) {
      var v, q :| PartHolds(t.uploads, v, q, b);
      if v == u && q == p {
        assert forall w, r :: PartHolds(t'.uploads, w, r, b) ==> PartHolds(t.uploads, w, r, b);
        assert forall w, r :: !PartHolds(t'.uploads, w, r, b);
      } else {
        assert PartHolds(t'.uploads, v, q, b);
      }
    }
  }

  // ---- committing an upload ----

  lemma IdsOfAppended(done: seq<Piece>, more: seq<Piece>, r: seq<Piece>)
    requires |r| == |done| + |more| && r[..|done|] == done
    requires forall k :: |done| <= k < |r| ==> r[k].id == more[k - |done|].id
    ensures Ids(r) == Ids(done) + Ids(more)
    ensures Distinct(done) && Distinct(more) && Ids(done) !! Ids(more) ==> Distinct(r)
  {
    forall i | 0 <= i < |done| ensures r[i] == done[i] {
      assert r[..|done|][i] == r[i];
    }
    forall i | 0 <= i < |more| ensures more[i].id in Ids(r) {
      assert r[|done| + i].id == more[i].id;
    }
    forall i | 0 <= i < |done| ensures done[i].id in Ids(r) {
      assert r[i].id in Ids(r);
    }
  }

  lemma PartIdsStep(parts: seq<PartSnapshot>)
    requires |parts| > 0
    ensures PartIds(parts) == PartIds(parts[..|parts| - 1]) + Ids(parts[|parts| - 1].row.pieces)
    ensures PartsDistinct(parts) ==>
      PartsDistinct(parts[..|parts| - 1]) && PartIds(parts[..|parts| - 1]) !! Ids(parts[|parts| - 1].row.pieces)
  {
  }

  lemma RebasedBlocks(done: seq<Piece>, more: seq<Piece>)
    requires Contiguous(done) && Contiguous(more)
    requires TotalSize(done) + TotalSize(more) <= I64_MAX
    ensures Ids(Rebased(done, more)) == Ids(done) + Ids(more)
    ensures Distinct(done) && Distinct(more) && Ids(done) !! Ids(more) ==> Distinct(Rebased(done, more))
  {
    RebasedKeepsBlocks(done, more);
    IdsOfAppended(done, more, Rebased(done, more));
  }

  /** Flattening uses exactly the blocks of the parts, each once. */
  lemma {:induction false} FlattenBlocks(parts: seq<PartSnapshot>)
    requires PartsFit(parts)
    ensures Ids(Flatten(parts)) == PartIds(parts)
    ensures PartsDistinct(parts) ==> Distinct(Flatten(parts))
  {
    if |parts| > 0 {
      var n := |parts| - 1;
      PartsTotalBounds(parts, n);
      FlattenBlocks(parts[..n]);
      PartIdsStep(parts);
      RebasedBlocks(Flatten(parts[..n]), parts[n].row.pieces);
    }
  }

  /** The flattened parts make an object that `validate_object_layout` accepts, with the promised size. */
  lemma FlattenedLayoutIsValid(parts: seq<PartSnapshot>, size: int)
    requires PartsLayoutOk(parts) && PartsTotal(parts) == size
    ensures ValidLayout(Flatten(parts), size)
    ensures 0 <= size <= I64_MAX
  {
    FlattenBlocks(parts);
    WholeSizeBounds(Flatten(parts));
  }

  lemma MatchedPartsAreHeld(t: Tables, u: UploadId, parts: seq<PartSnapshot>)
    requires u in t.uploads && PartsMatch(t.uploads[u], parts)
    ensures PartIds(parts) <= UploadIds(t.uploads[u])
  {
  }

  lemma CommitUploadKeepsValid(t: Tables, u: UploadId, size: i64, etag: string, parts: seq<PartSnapshot>,
                               condition: Condition, id: ObjectId, now: int)
    requires Valid(t)
    requires forall n :: n in t.objects ==> t.objects[n].id != id
    ensures var r := CommitUpload(t, u, size, etag, parts, condition, id, now);
            r.Ok? && r.value.Some? ==> Valid(r.value.value) && Evolves(t, r.value.value, {})
  {
    if CommitUpload(t, u, size, etag, parts, condition, id, now).Ok? {
      if u in t.uploads {
        var unused := UploadIds(t.uploads[u]) - PartIds(parts);
        FlattenedLayoutIsValid(parts, size);
        FlattenBlocks(parts);
        MatchedPartsAreHeld(t, u, parts);
        CommittedKeepsValid(t, u, ObjectRow(id, size, etag, Flatten(parts)), unused, now);
      }
    }
  }

  lemma CommittedKeepsValid(t: Tables, u: UploadId, row: ObjectRow, unused: set<BlockId>, now: int)
    requires Valid(t) && u in t.uploads
    requires forall n :: n in t.objects ==> t.objects[n].id != row.id
    requires ValidLayout(row.pieces, row.size) && Ids(row.pieces) <= UploadIds(t.uploads[u])
    requires unused == UploadIds(t.uploads[u]) - Ids(row.pieces)
    ensures Valid(Committed(t, u, row, unused, now))
    ensures Evolves(t, Committed(t, u, row, unused, now), {})
  {
    var t' := Committed(t, u, row, unused, now);
    forall b | b in t.blocks ensures b in t'.blocks && BlockOk(t', b) && EvolvesAt(t, t', {}, b) {
      CommittedAt(t, u, row, unused, now, b);
    }
    CommittedShape(t, u, row, unused, now);
    assert Ids(row.pieces) <= t.blocks.Keys;
    ReplacedObjectsOk(t, t', t.uploads[u].name, row);
    FewerUploadsOk(t, t', u);
  }

  lemma CommittedShape(t: Tables, u: UploadId, row: ObjectRow, unused: set<BlockId>, now: int)
    requires u in t.uploads && t.queue.Keys <= t.blocks.Keys
    ensures var t' := Committed(t, u, row, unused, now);
      && t'.objects == (t.objects - {t.uploads[u].name})[t.uploads[u].name := row]
      && t'.uploads == t.uploads - {u} && t'.buckets == t.buckets
      && t'.blocks.Keys == t.blocks.Keys && t'.queue.Keys <= t.blocks.Keys
  {
  }

  /** A successful commit stores the flattened parts under the name of its upload. */
  lemma CommitStores(t: Tables, u: UploadId, size: i64, etag: string, parts: seq<PartSnapshot>, condition: Condition,
                     id: ObjectId, now: int)
    requires var r := CommitUpload(t, u, size, etag, parts, condition, id, now); r.Ok? && r.value.Some?
    ensures u in t.uploads && PartsFit(parts) && ValidLayout(Flatten(parts), size)
    ensures CommitUpload(t, u, size, etag, parts, condition, id, now).value.value.objects
      == t.objects[t.uploads[u].name := ObjectRow(id, size, etag, Flatten(parts))]
  {
    FlattenedLayoutIsValid(parts, size);
    CommittedObjects(t, u, ObjectRow(id, size, etag, Flatten(parts)), UploadIds(t.uploads[u]) - PartIds(parts), now);
  }

  lemma CommittedObjects(t: Tables, u: UploadId, row: ObjectRow, unused: set<BlockId>, now: int)
    requires u in t.uploads
    ensures Committed(t, u, row, unused, now).objects == t.objects[t.uploads[u].name := row]
  {
    var name := t.uploads[u].name;
    assert (t.objects - {name})[name := row] == t.objects[name := row];
  }

  lemma ReplacedObjectsOk(t: Tables, t': Tables, name: Name, row: ObjectRow)
    requires ObjectsOk(t) && t'.blocks.Keys == t.blocks.Keys
    requires t'.objects == (t.objects - {name})[name := row]
    requires ValidLayout(row.pieces, row.size) && Ids(row.pieces) <= t.blocks.Keys
    requires forall n :: n in t.objects ==> t.objects[n].id != row.id
    ensures ObjectsOk(t')
  {
  }

  lemma FewerUploadsOk(t: Tables, t': Tables, u: UploadId)
    requires UploadsOk(t) && t'.blocks.Keys == t.blocks.Keys && t'.buckets == t.buckets
    requires t'.uploads == t.uploads - {u}
    ensures UploadsOk(t')
  {
    forall v, q, w, r, b | PartHolds(t'.uploads, v, q, b) && PartHolds(t'.uploads, w, r, b) ensures v == w && q == r {
      PartHoldsWithout(t.uploads, u, v, q, b);
      PartHoldsWithout(t.uploads, u, w, r, b);
    }
  }

  lemma InstallAt(t: Tables, name: Name, row: ObjectRow, copied: bool, b: BlockId)
    requires b in t.blocks && name !in t.objects
    ensures var t' := Install(t, name, row, copied);
      && b in t'.blocks
      && t'.blocks[b] == (if b in Ids(row.pieces) then Adopted(t.blocks[b], copied) else t.blocks[b])
      && (b in t'.queue <==> b in t.queue && b !in Ids(row.pieces))
      && HolderCount(t'.objects, b) == HolderCount(t.objects, b) + if b in Ids(row.pieces) then 1 else 0
  {
    CountWith(t.objects, name, row, b);
  }

  lemma CommittedAt(t: Tables, u: UploadId, row: ObjectRow, unused: set<BlockId>, now: int, b: BlockId)
    requires Valid(t) && u in t.uploads && b in t.blocks
    requires Ids(row.pieces) <= UploadIds(t.uploads[u])
    requires unused == UploadIds(t.uploads[u]) - Ids(row.pieces)
    ensures var t' := Committed(t, u, row, unused, now);
      && b in t'.blocks && BlockOk(t', b)
      && EvolvesAt(t, t', {}, b)
      && (b in unused ==> b in t'.queue)
      && (b in Ids(row.pieces) ==> b !in t'.queue)
  {
    var name := t.uploads[u].name;
    PartsWithout(t, u);
    assert BlockOk(t, b);
    RemoveObjectAt(t, name, now, b);
    var removed := RemoveObject(t, name, now);
    InstallAt(removed, name, row, false, b);
    var installed := Install(removed, name, row, false);
    ReleaseAt(installed.(uploads := t.uploads - {u}), unused, now, b);
  }

  // ---- copying an object ----

  /** An object id names one immutable row: a snapshot with a stored id is the stored row. */
  predicate SnapshotIsCurrent(t: Tables, source: ObjectSnapshot) {
    source.name in t.objects && t.objects[source.name].id == source.row.id ==> t.objects[source.name] == source.row
  }

  lemma CopiedAt(t: Tables, origin: Name, name: Name, row: ObjectRow, now: int, b: BlockId)
    requires Valid(t) && b in t.blocks
    requires origin in t.objects && t.objects[origin].pieces == row.pieces
    ensures var t' := Install(RemoveObject(t, name, now), name, row, true);
      b in t'.blocks && BlockOk(t', b) && EvolvesAt(t, t', {}, b)
  {
    assert BlockOk(t, b);
    RemoveObjectAt(t, name, now, b);
    InstallAt(RemoveObject(t, name, now), name, row, true, b);
    if b in Ids(row.pieces) {
      CountHeld(t.objects, origin, b);
    }
  }

  lemma CopiedKeepsValid(t: Tables, origin: Name, name: Name, row: ObjectRow, now: int)
    requires Valid(t)
    requires origin in t.objects && t.objects[origin].pieces == row.pieces && t.objects[origin].size == row.size
    requires forall n :: n in t.objects ==> t.objects[n].id != row.id
    ensures var t' := Install(RemoveObject(t, name, now), name, row, true);
      Valid(t') && Evolves(t, t', {})
  {
    var t' := Install(RemoveObject(t, name, now), name, row, true);
    SwapShape(t, name, row, now);
    forall b | b in t.blocks ensures b in t'.blocks && BlockOk(t', b) && EvolvesAt(t, t', {}, b) {
      CopiedAt(t, origin, name, row, now, b);
    }
    assert ObjectsOk(t') by {
      assert t'.objects == (t.objects - {name})[name := row];
      ReplacedObjectsOk(t, t', name, row);
    }
    SameUploadsOk(t, t');
  }

  lemma SameUploadsOk(t: Tables, t': Tables)
    requires UploadsOk(t) && t'.uploads == t.uploads && t'.blocks.Keys == t.blocks.Keys && t'.buckets == t.buckets
    ensures UploadsOk(t')
  {
  }

  lemma CopyObjectKeepsValid(t: Tables, source: ObjectSnapshot, name: Name, condition: Condition, id: ObjectId,
                             now: int)
    requires Valid(t) && SnapshotIsCurrent(t, source)
    requires forall n :: n in t.objects ==> t.objects[n].id != id
    ensures var r := CopyObject(t, source, name, condition, id, now);
            r.Ok? ==> Valid(r.value) && Evolves(t, r.value, {})
  {
    if CopyObject(t, source, name, condition, id, now).Ok? {
      CopiedKeepsValid(t, source.name, name, source.row.(id := id), now);
    }
  }

  lemma SelfCopyAt(t: Tables, name: Name, row: ObjectRow, now: int, b: BlockId)
    requires Valid(t) && b in t.blocks && name in t.objects && Ids(row.pieces) == Ids(t.objects[name].pieces)
    ensures var t' := Install(RemoveObject(t, name, now), name, row, true);
      b in t'.blocks && t'.blocks[b] == t.blocks[b] && (b in t'.queue <==> b in t.queue)
    ensures b in Ids(row.pieces) ==> b !in t.queue
  {
    assert BlockOk(t, b);
    RemoveObjectAt(t, name, now, b);
    if b in Ids(row.pieces) {
      CountHeld(t.objects, name, b);
    }
  }

  lemma SwapShape(t: Tables, name: Name, row: ObjectRow, now: int)
    requires t.queue.Keys <= t.blocks.Keys
    ensures var t' := Install(RemoveObject(t, name, now), name, row, true);
      && t'.objects == t.objects[name := row] && t'.uploads == t.uploads && t'.buckets == t.buckets
      && t'.blocks.Keys == t.blocks.Keys && t'.queue.Keys <= t.blocks.Keys
  {
  }

  lemma SelfCopyState(t: Tables, name: Name, row: ObjectRow, now: int)
    requires Valid(t) && name in t.objects && Ids(row.pieces) == Ids(t.objects[name].pieces)
    ensures var t' := Install(RemoveObject(t, name, now), name, row, true);
      && t'.objects == t.objects[name := row] && t'.blocks == t.blocks
      && t'.queue.Keys == t.queue.Keys && t'.uploads == t.uploads
    ensures Ids(row.pieces) * t.queue.Keys == {}
  {
    var t' := Install(RemoveObject(t, name, now), name, row, true);
    SwapShape(t, name, row, now);
    forall b | b in t.blocks
      ensures b in t'.blocks && t'.blocks[b] == t.blocks[b] && (b in t'.queue <==> b in t.queue)
      ensures b in Ids(row.pieces) ==> b !in t.queue
    {
      SelfCopyAt(t, name, row, now, b);
    }
    SameKeys(t.queue.Keys, t'.queue.Keys, t.blocks.Keys);
  }

  lemma SameKeys(a: set<BlockId>, b: set<BlockId>, all: set<BlockId>)
    requires a <= all && b <= all
    requires forall k :: k in all ==> (k in a <==> k in b)
    ensures a == b
  {
  }

  /** Copying an object onto its own key queues and unqueues its blocks, and ends where it began. */
  lemma SelfCopyKeepsBlocks(t: Tables, name: Name, condition: Condition, id: ObjectId, now: int)
    requires Valid(t) && name in t.objects
    requires condition.Allows(Some(t.objects[name].etag))
    ensures var r := CopyObject(t, ObjectSnapshot(name, t.objects[name]), name, condition, id, now);
      && r.Ok?
      && r.value.objects == t.objects[name := t.objects[name].(id := id)]
      && r.value.blocks == t.blocks
      && r.value.queue.Keys == t.queue.Keys
      && r.value.uploads == t.uploads
  {
    SelfCopyState(t, name, t.objects[name].(id := id), now);
  }
}
