/**
 * When each transaction succeeds and what the tables are afterwards, said of rows and not of the transaction: which
 * rows are new, which blocks wait for deletion from now on, and that every other row is as it was.
 */
module Outcomes {
  import opened Prelude
  import opened Schema
  import opened Conditions
  import I = Invariants
  import T = Transactions

  /** Nothing refers to the block, and the collector may take it from `now` on. */
  ghost predicate Waiting(t: Tables, b: BlockId, now: int) {
    && b in t.blocks && t.blocks[b].refCount == 0 && !Referenced(t, b)
    && b in t.queue && t.queue[b] == QueueRow(0, now, false)
  }

  /** The block's row and queue entry are as they were. */
  predicate Same(t: Tables, t': Tables, b: BlockId) {
    && (b in t'.blocks <==> b in t.blocks) && (b in t.blocks ==> t'.blocks[b] == t.blocks[b])
    && (b in t'.queue <==> b in t.queue) && (b in t.queue ==> t'.queue[b] == t.queue[b])
  }

  /** The row, whatever its count is now, is still of the same message. */
  predicate SameMessage(t: Tables, t': Tables, b: BlockId) {
    b in t.blocks && b in t'.blocks && t'.blocks[b].message == t.blocks[b].message
  }

  /** The blocks in `gone` wait for deletion, and the others are as they were. */
  ghost predicate OnlyReleases(t: Tables, t': Tables, gone: set<BlockId>, now: int) {
    && (forall b :: b in gone ==> Waiting(t', b, now) && SameMessage(t, t', b))
    && (forall b :: b !in gone ==> Same(t, t', b))
  }

  // ---- replacing a part ----

  function OldIds(t: Tables, u: UploadId, p: PartNumber): set<BlockId> {
    if u in t.uploads && p in t.uploads[u].parts then Ids(t.uploads[u].parts[p].pieces) else {}
  }

  /** The part is the new one, whether or not there was one, and the blocks that only the old one had wait. */
  ghost predicate HasPart(t: Tables, t': Tables, u: UploadId, p: PartNumber, row: PartRow, now: int) {
    && u in t.uploads
    && t'.uploads == t.uploads[u := UploadRow(t.uploads[u].name, t.uploads[u].createdAt, t.uploads[u].parts[p := row])]
    && t'.objects == t.objects && t'.buckets == t.buckets
    && OnlyReleases(t, t', OldIds(t, u, p) - Ids(row.pieces), now)
  }

  /** Releasing blocks that count one reference each makes them wait. */
  lemma ReleasedRows(t: Tables, ids: set<BlockId>, now: int, b: BlockId)
    requires forall c :: c in ids ==> c in t.blocks && t.blocks[c].refCount == 1 && c !in t.queue
    ensures var t' := T.Release(t, ids, now);
      if b in ids then SameMessage(t, t', b) && t'.blocks[b].refCount == 0 && b in t'.queue && t'.queue[b] == QueueRow(0, now, false)
      else Same(t, t', b)
  {
  }

  /** In valid tables a queued block has no reference. */
  lemma QueuedIsFree(t: Tables, b: BlockId)
    requires Valid(t) && b in t.queue
    ensures b in t.blocks && t.blocks[b].refCount == 0 && !Referenced(t, b)
  {
    assert BlockOk(t, b);
  }

  lemma Released(t: Tables, ids: set<BlockId>, now: int)
    requires forall c :: c in ids ==> c in t.blocks && t.blocks[c].refCount == 1 && c !in t.queue
    requires Valid(T.Release(t, ids, now))
    ensures OnlyReleases(t, T.Release(t, ids, now), ids, now)
  {
    var t' := T.Release(t, ids, now);
    forall b ensures if b in ids then Waiting(t', b, now) && SameMessage(t, t', b) else Same(t, t', b) {
      ReleasedRows(t, ids, now, b);
      if b in ids {
        QueuedIsFree(t', b);
      }
    }
  }

  lemma PartReplaced(t: Tables, u: UploadId, p: PartNumber, size: i64, etag: string, pieces: seq<Piece>, now: int)
    requires Valid(t) && I.MayReceive(t, u, p, pieces)
    ensures var r := T.ReplacePart(t, u, p, size, etag, pieces, now);
      && (r.Ok? <==> u in t.uploads && Distinct(pieces) && Ids(pieces) <= t.blocks.Keys - t.queue.Keys)
      && (r == Err(T.NoSuchUpload) <==> u !in t.uploads)
      && (r.Ok? ==> HasPart(t, r.value, u, p, PartRow(size, etag, pieces), now))
  {
    var r := T.ReplacePart(t, u, p, size, etag, pieces, now);
    NoneQueued(t, Ids(pieces));
    if r.Ok? {
      var row := PartRow(size, etag, pieces);
      var placed := t.(uploads := T.WithPart(t.uploads, u, p, row));
      var gone := OldIds(t, u, p) - Ids(pieces);
      I.ReplacePartKeepsValid(t, u, p, size, etag, pieces, now);
      forall b | b in gone ensures b in t.blocks && t.blocks[b].refCount == 1 && b !in t.queue {
        OnlyOldPartHeld(t, u, p, b);
      }
      assert Ids(T.PartPieces(t, u, p)) == OldIds(t, u, p) by {
        assert Ids([]) == {};
      }
      Released(placed, gone, now);
      assert OnlyReleases(t, r.value, gone, now) by {
        assert r.value == T.Release(placed, gone, now);
        forall b | b !in gone ensures Same(t, r.value, b) {
          assert Same(placed, r.value, b);
        }
      }
    }
  }

  lemma NoneQueued(t: Tables, ids: set<BlockId>)
    ensures ids * t.queue.Keys == {} && ids <= t.blocks.Keys <==> ids <= t.blocks.Keys - t.queue.Keys
  {
    forall b | b in ids && b in t.queue ensures ids * t.queue.Keys != {} {
      assert b in ids * t.queue.Keys;
    }
  }

  lemma OnlyOldPartHeld(t: Tables, u: UploadId, p: PartNumber, b: BlockId)
    requires Valid(t) && b in OldIds(t, u, p)
    ensures b in t.blocks && t.blocks[b].refCount == 1 && b !in t.queue
  {
    assert PartHolds(t.uploads, u, p, b);
    assert BlockOk(t, b);
  }

  // ---- uploads ----

  lemma UploadCreated(t: Tables, u: UploadId, name: Name, now: int)
    ensures var r := T.CreateUpload(t, u, name, now);
      && (r.Ok? <==> name.bucket in t.buckets && u !in t.uploads)
      && (r.Ok? ==> r.value == t.(uploads := t.uploads[u := UploadRow(name, now, map[])]))
  {
  }

  lemma HeldOnce(t: Tables, u: UploadId, b: BlockId)
    requires Valid(t) && u in t.uploads && b in UploadIds(t.uploads[u])
    ensures b in t.blocks && t.blocks[b].refCount == 1 && !t.blocks[b].committed && b !in t.queue
  {
    var p :| p in t.uploads[u].parts && b in Ids(t.uploads[u].parts[p].pieces);
    assert PartHolds(t.uploads, u, p, b);
    assert BlockOk(t, b);
  }

  /** An abort drops the upload and makes all its blocks wait. */
  lemma UploadAborted(t: Tables, u: UploadId, now: int)
    requires Valid(t)
    ensures var r := T.AbortUpload(t, u, now);
      && (r.Some? <==> u in t.uploads)
      && (r.Some? ==>
            && r.value.uploads == t.uploads - {u} && r.value.objects == t.objects && r.value.buckets == t.buckets
            && OnlyReleases(t, r.value, UploadIds(t.uploads[u]), now))
  {
    if u in t.uploads {
      var without := t.(uploads := t.uploads - {u});
      I.AbortUploadKeepsValid(t, u, now);
      forall b | b in UploadIds(t.uploads[u]) ensures b in t.blocks && t.blocks[b].refCount == 1 && b !in t.queue {
        HeldOnce(t, u, b);
      }
      Released(without, UploadIds(t.uploads[u]), now);
      SameRows(t, without, T.Release(without, UploadIds(t.uploads[u]), now), UploadIds(t.uploads[u]), now);
    }
  }

  /** What holds of the rows does not depend on the upload that is gone. */
  lemma SameRows(t: Tables, without: Tables, t': Tables, gone: set<BlockId>, now: int)
    requires OnlyReleases(without, t', gone, now)
    requires without.blocks == t.blocks && without.queue == t.queue
    ensures OnlyReleases(t, t', gone, now)
  {
    forall b | b !in gone ensures Same(t, t', b) {
      assert Same(without, t', b);
    }
  }

  // ---- objects ----

  /** One reference fewer: the block waits if that was the last one. */
  ghost predicate Loses(t: Tables, t': Tables, b: BlockId, now: int) {
    && b in t.blocks && b in t'.blocks
    && if t.blocks[b].refCount == 1 then Waiting(t', b, now)
       else t'.blocks[b] == t.blocks[b].(refCount := t.blocks[b].refCount - 1) && b !in t'.queue
  }

  /** The block's row and queue entry. */
  datatype Cell = Cell(row: Option<BlockRow>, entry: Option<QueueRow>)

  function CellOf(t: Tables, b: BlockId): Cell {
    Cell(if b in t.blocks then Some(t.blocks[b]) else None, if b in t.queue then Some(t.queue[b]) else None)
  }

  /** A counted block that is not queued after one decrement. */
  function LessOne(row: BlockRow, now: int): Cell {
    Cell(Some(row.(refCount := row.refCount - 1)), if row.refCount == 1 then Some(QueueRow(0, now, false)) else None)
  }

  lemma ReleaseCell(t: Tables, ids: set<BlockId>, now: int, b: BlockId)
    requires b in ids && b in t.blocks ==> t.blocks[b].refCount >= 1 && b !in t.queue
    ensures CellOf(T.Release(t, ids, now), b) == if b in ids && b in t.blocks then LessOne(t.blocks[b], now) else CellOf(t, b)
  {
  }

  lemma InstallCell(t: Tables, name: Name, row: ObjectRow, copied: bool, b: BlockId)
    requires b in t.blocks
    ensures CellOf(T.Install(t, name, row, copied), b)
      == if b in Ids(row.pieces) then Cell(Some(T.Adopted(t.blocks[b], copied)), None) else CellOf(t, b)
  {
  }

  lemma InstallOther(t: Tables, name: Name, row: ObjectRow, copied: bool, b: BlockId)
    requires b !in Ids(row.pieces)
    ensures CellOf(T.Install(t, name, row, copied), b) == CellOf(t, b)
  {
  }

  function PiecesIn(t: Tables, name: Name): set<BlockId> {
    if name in t.objects then Ids(t.objects[name].pieces) else {}
  }

  function EtagIn(t: Tables, name: Name): Option<string> {
    if name in t.objects then Some(t.objects[name].etag) else None
  }

  lemma PieceRow(t: Tables, name: Name, b: BlockId)
    requires Valid(t) && b in PiecesIn(t, name)
    ensures b in t.blocks && t.blocks[b].refCount >= 1 && t.blocks[b].committed && b !in t.queue
    ensures forall u :: u in t.uploads ==> b !in UploadIds(t.uploads[u])
  {
    I.PieceIsCounted(t, name, b);
    I.CountHeld(t.objects, name, b);
    assert BlockOk(t, b);
    forall u | u in t.uploads ensures b !in UploadIds(t.uploads[u]) {
      if b in UploadIds(t.uploads[u]) {
        HeldOnce(t, u, b);
      }
    }
  }

  lemma RemovedCell(t: Tables, name: Name, now: int, b: BlockId)
    requires Valid(t)
    ensures CellOf(T.RemoveObject(t, name, now), b) == if b in PiecesIn(t, name) then LessOne(t.blocks[b], now) else CellOf(t, b)
  {
    if b in PiecesIn(t, name) {
      PieceRow(t, name, b);
    }
    assert Ids(T.PiecesAt(t, name)) == PiecesIn(t, name) by {
      assert Ids([]) == {};
    }
    ReleaseCell(t.(objects := t.objects - {name}), PiecesIn(t, name), now, b);
  }

  lemma LosesCell(t: Tables, t': Tables, b: BlockId, now: int)
    requires Valid(t') && b in t.blocks && t.blocks[b].refCount >= 1 && CellOf(t', b) == LessOne(t.blocks[b], now)
    ensures Loses(t, t', b, now)
  {
    if t.blocks[b].refCount == 1 {
      QueuedIsFree(t', b);
    }
  }

  /** A delete removes the name, and each block of the object loses a reference. */
  lemma ObjectDeleted(t: Tables, name: Name, condition: Condition, now: int)
    requires Valid(t)
    ensures var r := T.DeleteObject(t, name, condition, now);
      && (r.Ok? <==> condition.Allows(EtagIn(t, name))) && (r.Err? ==> r.error == T.PreconditionFailed)
      && (r.Ok? ==> (r.value.Some? <==> name in t.objects))
      && (r.Ok? && r.value.Some? ==>
            var t' := r.value.value;
            && t'.objects == t.objects - {name} && t'.uploads == t.uploads && t'.buckets == t.buckets
            && forall b :: if b in PiecesIn(t, name) then Loses(t, t', b, now) else Same(t, t', b))
  {
    var t' := T.RemoveObject(t, name, now);
    I.RemoveObjectKeepsValid(t, name, now);
    forall b ensures if b in PiecesIn(t, name) then Loses(t, t', b, now) else Same(t, t', b) {
      RemovedCell(t, name, now, b);
      if b in PiecesIn(t, name) {
        PieceRow(t, name, b);
        LosesCell(t, t', b, now);
      } else {
        SameCell(t, t', b);
      }
    }
  }

  lemma SameCell(t: Tables, t': Tables, b: BlockId)
    requires CellOf(t, b) == CellOf(t', b)
    ensures Same(t, t', b)
  {
  }

  /** The block gains a reference and is not queued. */
  predicate Gains(t: Tables, t': Tables, b: BlockId) {
    && b in t.blocks && b in t'.blocks && b !in t'.queue
    && t'.blocks[b] == BlockRow(t.blocks[b].message, t.blocks[b].refCount + 1, true)
  }

  /** The rows after a copy: blocks of both objects stay as they are. */
  ghost predicate Copied(t: Tables, t': Tables, source: T.ObjectSnapshot, name: Name, now: int, b: BlockId) {
    var ids, prior := Ids(source.row.pieces), PiecesIn(t, name);
    if b in ids && b !in prior then Gains(t, t', b)
    else if b !in ids && b in prior then Loses(t, t', b, now)
    else Same(t, t', b)
  }

  /** A copy of what is still stored is refused by its condition only; the name then holds the source under a new id. */
  lemma ObjectCopied(t: Tables, source: T.ObjectSnapshot, name: Name, condition: Condition, id: ObjectId, now: int)
    requires Valid(t) && I.SnapshotIsCurrent(t, source) && forall n :: n in t.objects ==> t.objects[n].id != id
    ensures var r := T.CopyObject(t, source, name, condition, id, now);
      && (r.Ok? <==> source.name in t.objects && t.objects[source.name].id == source.row.id && condition.Allows(EtagIn(t, name)))
      && (r.Ok? ==>
            && r.value.objects == t.objects[name := ObjectRow(id, source.row.size, source.row.etag, source.row.pieces)]
            && r.value.uploads == t.uploads && r.value.buckets == t.buckets
            && forall b :: Copied(t, r.value, source, name, now, b))
  {
    var r := T.CopyObject(t, source, name, condition, id, now);
    if source.name in t.objects && t.objects[source.name].id == source.row.id {
      forall b | b in Ids(source.row.pieces) ensures b in t.blocks && b !in t.queue {
        PieceRow(t, source.name, b);
      }
      NoneQueued(t, Ids(source.row.pieces));
    }
    if r.Ok? {
      I.CopyObjectKeepsValid(t, source, name, condition, id, now);
      I.SwapShape(t, name, source.row.(id := id), now);
      forall b ensures Copied(t, r.value, source, name, now, b) {
        CopiedRow(t, source, name, source.row.(id := id), now, b);
      }
    }
  }

  lemma CopiedRow(t: Tables, source: T.ObjectSnapshot, name: Name, row: ObjectRow, now: int, b: BlockId)
    requires Valid(t) && source.name in t.objects && t.objects[source.name] == source.row && row.pieces == source.row.pieces
    requires Valid(T.Install(T.RemoveObject(t, name, now), name, row, true))
    ensures Copied(t, T.Install(T.RemoveObject(t, name, now), name, row, true), source, name, now, b)
  {
    var removed := T.RemoveObject(t, name, now);
    var t' := T.Install(removed, name, row, true);
    RemovedCell(t, name, now, b);
    if b in PiecesIn(t, name) {
      PieceRow(t, name, b);
    }
    if b in Ids(row.pieces) {
      PieceRow(t, source.name, b);
      InstallCell(removed, name, row, true, b);
    } else {
      InstallOther(removed, name, row, true, b);
      if b in PiecesIn(t, name) {
        LosesCell(t, t', b, now);
      } else {
        SameCell(t, t', b);
      }
    }
  }

  // ---- commits ----

  function SumOfSizes(parts: seq<T.PartSnapshot>): int {
    if |parts| == 0 then 0 else SumOfSizes(parts[..|parts| - 1]) + parts[|parts| - 1].row.size
  }

  /** The part is persisted as it was read, its ETag up to quotes and whitespace, and its pieces add up to it. */
  predicate StillStored(upload: UploadRow, part: T.PartSnapshot) {
    && part.number in upload.parts
    && upload.parts[part.number].size == part.row.size && upload.parts[part.number].pieces == part.row.pieces
    && NormalizeEtag(upload.parts[part.number].etag) == NormalizeEtag(part.row.etag)
    && ValidLayout(part.row.pieces, part.row.size)
  }

  /** Nothing stands against the commit: its parts are stored, differ, and add up to the size, and the condition holds. */
  predicate Committable(t: Tables, u: UploadId, size: int, parts: seq<T.PartSnapshot>, condition: Condition) {
    && u in t.uploads
    && (forall i, j :: 0 <= i < j < |parts| ==> parts[i].number != parts[j].number)
    && (forall i :: 0 <= i < |parts| ==> StillStored(t.uploads[u], parts[i]))
    && SumOfSizes(parts) == size && condition.Allows(EtagIn(t, t.uploads[u].name))
  }

  lemma {:induction false} SumIsTotal(parts: seq<T.PartSnapshot>)
    requires forall i :: 0 <= i < |parts| ==> TotalSize(parts[i].row.pieces) == parts[i].row.size
    ensures T.PartsTotal(parts) == SumOfSizes(parts)
  {
    if |parts| > 0 {
      SumIsTotal(parts[..|parts| - 1]);
    }
  }

  /** Stored parts with different numbers have different blocks, and none of them is queued. */
  lemma StoredPartsAreApart(t: Tables, u: UploadId, parts: seq<T.PartSnapshot>)
    requires Valid(t) && u in t.uploads && T.PartsMatch(t.uploads[u], parts)
    ensures T.PartsDistinct(parts) && T.PartIds(parts) * t.queue.Keys == {}
    ensures T.PartIds(parts) <= UploadIds(t.uploads[u])
  {
    I.MatchedPartsAreHeld(t, u, parts);
    forall b | b in T.PartIds(parts) ensures b !in t.queue {
      HeldOnce(t, u, b);
    }
    forall i, j | 0 <= i < j < |parts| ensures Ids(parts[i].row.pieces) !! Ids(parts[j].row.pieces) {
      PartsApart(t, u, parts[i].number, parts[j].number);
      assert T.PartMatches(t.uploads[u], parts[i]) && T.PartMatches(t.uploads[u], parts[j]);
    }
    forall i | 0 <= i < |parts| ensures Distinct(parts[i].row.pieces) {
      assert T.PartMatches(t.uploads[u], parts[i]);
    }
  }

  lemma PartsApart(t: Tables, u: UploadId, p: PartNumber, q: PartNumber)
    requires UploadsOk(t) && p != q
    ensures OldIds(t, u, p) !! OldIds(t, u, q)
  {
    forall b | b in OldIds(t, u, p) && b in OldIds(t, u, q) ensures false {
      assert PartHolds(t.uploads, u, p, b) && PartHolds(t.uploads, u, q, b);
    }
  }

  lemma CommitsIff(t: Tables, u: UploadId, size: i64, etag: string, parts: seq<T.PartSnapshot>, condition: Condition,
                   id: ObjectId, now: int)
    requires Valid(t)
    ensures var r := T.CommitUpload(t, u, size, etag, parts, condition, id, now);
      && (r.Ok? && r.value.Some? <==> Committable(t, u, size, parts, condition))
      && r != Err(T.SlowDown)
  {
    if u in t.uploads && T.PartsMatch(t.uploads[u], parts) {
      StoredPartsAreApart(t, u, parts);
    }
    if Committable(t, u, size, parts, condition) {
      forall i | 0 <= i < |parts| ensures T.PartMatches(t.uploads[u], parts[i]) {
        assert StillStored(t.uploads[u], parts[i]);
      }
      SumIsTotal(parts);
      assert T.PartsLayoutOk(parts);
    } else if T.PartsLayoutOk(parts) && u in t.uploads && T.PartsMatch(t.uploads[u], parts) {
      SumIsTotal(parts);
      forall i | 0 <= i < |parts| ensures StillStored(t.uploads[u], parts[i]) {
        assert T.PartMatches(t.uploads[u], parts[i]);
      }
    }
  }

  /** The rows after a commit. */
  ghost predicate CommittedRow(t: Tables, t': Tables, u: UploadId, parts: seq<T.PartSnapshot>, now: int, b: BlockId)
    requires u in t.uploads
  {
    if b in T.PartIds(parts) then
      b in t.blocks && b in t'.blocks && t'.blocks[b] == BlockRow(t.blocks[b].message, 1, true) && b !in t'.queue
    else if b in UploadIds(t.uploads[u]) then Waiting(t', b, now)
    else if b in PiecesIn(t, t.uploads[u].name) then Loses(t, t', b, now)
    else Same(t, t', b)
  }

  /**
   * A commit is refused only for a part that changed, a total that is off, or its condition; otherwise the name holds
   * the flattened parts, the upload is gone, and the blocks that nobody holds any more wait.
   */
  lemma UploadCommitted(t: Tables, u: UploadId, size: i64, etag: string, parts: seq<T.PartSnapshot>, condition: Condition,
                        id: ObjectId, now: int)
    requires Valid(t) && forall n :: n in t.objects ==> t.objects[n].id != id
    ensures var r := T.CommitUpload(t, u, size, etag, parts, condition, id, now);
      && (r.Ok? && r.value.Some? <==> Committable(t, u, size, parts, condition))
      && (r.Ok? && r.value.Some? ==>
            var t' := r.value.value;
            && T.PartsFit(parts)
            && t'.objects == t.objects[t.uploads[u].name := ObjectRow(id, size, etag, T.Flatten(parts))]
            && t'.uploads == t.uploads - {u} && t'.buckets == t.buckets
            && forall b :: CommittedRow(t, t', u, parts, now, b))
  {
    CommitsIff(t, u, size, etag, parts, condition, id, now);
    if Committable(t, u, size, parts, condition) {
      I.CommitUploadKeepsValid(t, u, size, etag, parts, condition, id, now);
      I.CommitStores(t, u, size, etag, parts, condition, id, now);
      I.FlattenBlocks(parts);
      StoredPartsAreApart(t, u, parts);
      var row := ObjectRow(id, size, etag, T.Flatten(parts));
      var unused := UploadIds(t.uploads[u]) - T.PartIds(parts);
      I.CommittedShape(t, u, row, unused, now);
      forall b ensures CommittedRow(t, T.Committed(t, u, row, unused, now), u, parts, now, b) {
        RowCommitted(t, u, row, parts, now, b);
      }
    }
  }

  lemma RowCommitted(t: Tables, u: UploadId, row: ObjectRow, parts: seq<T.PartSnapshot>, now: int, b: BlockId)
    requires Valid(t) && u in t.uploads && Ids(row.pieces) == T.PartIds(parts) <= UploadIds(t.uploads[u])
    requires Valid(T.Committed(t, u, row, UploadIds(t.uploads[u]) - T.PartIds(parts), now))
    ensures CommittedRow(t, T.Committed(t, u, row, UploadIds(t.uploads[u]) - T.PartIds(parts), now), u, parts, now, b)
  {
    var name, ids, held := t.uploads[u].name, T.PartIds(parts), UploadIds(t.uploads[u]);
    var t' := T.Committed(t, u, row, held - ids, now);
    var removed := T.RemoveObject(t, name, now);
    var installed := T.Install(removed, name, row, false);
    RemovedCell(t, name, now, b);
    if b in PiecesIn(t, name) {
      PieceRow(t, name, b);
    }
    if b in held {
      HeldOnce(t, u, b);
    }
    if b in ids {
      InstallCell(removed, name, row, false, b);
    } else {
      InstallOther(removed, name, row, false, b);
    }
    ReleaseCell(installed.(uploads := t.uploads - {u}), held - ids, now, b);
    CommittedCell(t, t', u, ids, now, b);
  }

  /** From the cell of the block to what it means. */
  lemma CommittedCell(t: Tables, t': Tables, u: UploadId, ids: set<BlockId>, now: int, b: BlockId)
    requires Valid(t) && Valid(t') && u in t.uploads && ids <= UploadIds(t.uploads[u])
    requires b in ids ==> b in t.blocks && CellOf(t', b) == Cell(Some(BlockRow(t.blocks[b].message, 1, true)), None)
    requires b in UploadIds(t.uploads[u]) - ids ==> b in t.blocks && CellOf(t', b) == LessOne(t.blocks[b], now)
    requires b in PiecesIn(t, t.uploads[u].name) ==> b in t.blocks && CellOf(t', b) == LessOne(t.blocks[b], now)
    requires b !in UploadIds(t.uploads[u]) && b !in PiecesIn(t, t.uploads[u].name) ==> CellOf(t', b) == CellOf(t, b)
    ensures if b in ids then
              b in t.blocks && b in t'.blocks && t'.blocks[b] == BlockRow(t.blocks[b].message, 1, true) && b !in t'.queue
            else if b in UploadIds(t.uploads[u]) then Waiting(t', b, now)
            else if b in PiecesIn(t, t.uploads[u].name) then Loses(t, t', b, now)
            else Same(t, t', b)
  {
    if b in UploadIds(t.uploads[u]) {
      HeldOnce(t, u, b);
      if b !in ids {
        QueuedIsFree(t', b);
      }
    } else if b in PiecesIn(t, t.uploads[u].name) {
      PieceRow(t, t.uploads[u].name, b);
      LosesCell(t, t', b, now);
    } else {
      SameCell(t, t', b);
    }
  }

  // ---- the collector's transactions ----

  /** A block is a candidate exactly when it is queued, due, and not given up. */
  lemma CandidateIffDue(t: Tables, b: BlockId, timestamp: int)
    requires Valid(t)
    ensures T.IsCandidate(t, b, timestamp) <==> b in t.queue && !t.queue[b].orphan && t.queue[b].nextAttempt <= timestamp
    ensures forall now :: Waiting(t, b, now) && now <= timestamp ==> T.IsCandidate(t, b, timestamp)
  {
    I.MentionedMeansReferenced(t, b);
    if b in t.queue {
      QueuedIsFree(t, b);
    }
  }

  /** A queued block is gone after its deletion was reported, with its queue entry; no other block ever is. */
  lemma CollectedRow(t: Tables, b: BlockId)
    requires Valid(t)
    ensures var t' := T.GcSuccess(t, b);
      && (b in t.queue ==> b !in t'.blocks && b !in t'.queue)
      && (b !in t.queue ==> t' == t)
      && t'.objects == t.objects && t'.uploads == t.uploads && t'.buckets == t.buckets
      && forall c :: c != b ==> Same(t, t', c)
  {
    I.MentionedMeansReferenced(t, b);
    if b in t.queue {
      QueuedIsFree(t, b);
    } else if b in t.blocks {
      assert BlockOk(t, b);
    }
  }

  /** The rows that a claim touches. */
  lemma ClaimedShape(t: Tables, b: BlockId, now: int)
    ensures var (t', queued) := T.QueueStaleBlock(t, b, now);
      && t'.objects == t.objects && t'.uploads == t.uploads && t'.buckets == t.buckets
      && (forall c :: c != b ==> Same(t, t', c))
      && (queued && b !in t.queue ==>
            b in t'.blocks && t'.blocks[b].refCount == 0 && b in t'.queue && t'.queue[b] == QueueRow(0, now, false))
      && (!queued ==> t' == t)
  {
  }

  lemma ClaimedAgain(t: Tables, b: BlockId, now: int)
    requires b in t.blocks && b in t.queue && t.blocks[b].refCount == 0
    ensures T.QueueStaleBlock(t, b, now).0 == t
  {
    var t' := T.QueueStaleBlock(t, b, now).0;
    assert t'.blocks == t.blocks && t'.queue == t.queue;
  }

  /** A claim makes an unreferenced block wait, unless it waits already or is committed, and touches no other. */
  lemma ClaimedRow(t: Tables, b: BlockId, now: int)
    requires Valid(t)
    ensures var (t', queued) := T.QueueStaleBlock(t, b, now);
      && (queued <==> b in t.blocks && !t.blocks[b].committed && !Referenced(t, b))
      && (if queued && b !in t.queue then Waiting(t', b, now) else t' == t)
      && t'.objects == t.objects && t'.uploads == t.uploads && t'.buckets == t.buckets
      && forall c :: c != b ==> Same(t, t', c)
  {
    I.QueueStaleBlockKeepsValid(t, b, now);
    ClaimedShape(t, b, now);
    if b in t.queue {
      QueuedIsFree(t, b);
      ClaimedAgain(t, b, now);
    }
    hide Valid, T.QueueStaleBlock;
  }
}
