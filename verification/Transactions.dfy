/**
 * What each database transaction does to the tables, as one set-based update of the whole state.
 * `Database` proves the row-by-row code against these functions; here they are shown to keep `Valid`.
 */
module Transactions {
  import opened Prelude
  import opened Schema
  import opened Conditions

  datatype Failure =
    | NoSuchKey | NoSuchUpload | NoSuchBucket | InvalidPart | InvalidLayout
    | SlowDown | PreconditionFailed | ForeignKey | NotUnique

  /** A part as a client read it earlier, presented again at commit. */
  datatype PartSnapshot = PartSnapshot(number: PartNumber, row: PartRow)

  /** An object as `get_object` returned it earlier, presented again as a copy source. */
  datatype ObjectSnapshot = ObjectSnapshot(name: Name, row: ObjectRow)

  // ---- building blocks ----

  function Dropped(row: BlockRow): BlockRow {
    row.(refCount := if row.refCount > 0 then row.refCount - 1 else 0)
  }

  /** Every block in `ids` loses one reference; those left with none enter the queue. */
  function Release(t: Tables, ids: set<BlockId>, now: int): Tables {
    var emptied := set b | b in ids && b in t.blocks && Dropped(t.blocks[b]).refCount == 0;
    t.(blocks := map b | b in t.blocks :: if b in ids then Dropped(t.blocks[b]) else t.blocks[b],
       queue := map b | b in t.queue.Keys + emptied :: if b in t.queue then t.queue[b] else QueueRow(0, now, false))
  }

  function PiecesAt(t: Tables, name: Name): seq<Piece> {
    if name in t.objects then t.objects[name].pieces else []
  }

  function EtagAt(t: Tables, name: Name): Option<string> {
    if name in t.objects then Some(t.objects[name].etag) else None
  }

  function RemoveObject(t: Tables, name: Name, now: int): Tables {
    Release(t.(objects := t.objects - {name}), Ids(PiecesAt(t, name)), now)
  }

  /** Stores `row` under a free name; `copied` says whether its blocks gain a reference or bring their own. */
  function Install(t: Tables, name: Name, row: ObjectRow, copied: bool): Tables {
    var ids := Ids(row.pieces);
    t.(objects := t.objects[name := row],
       blocks := map b | b in t.blocks :: if b in ids then Adopted(t.blocks[b], copied) else t.blocks[b],
       queue := t.queue - ids)
  }

  function Adopted(row: BlockRow, copied: bool): BlockRow {
    row.(refCount := if copied then row.refCount + 1 else if row.refCount < 1 then 1 else row.refCount,
         committed := true)
  }

  // ---- part lists ----

  /** The pieces of the parts in order, with offsets that run through the whole object. */
  function Flatten(parts: seq<PartSnapshot>): seq<Piece>
    requires PartsFit(parts)
    ensures TotalSize(Flatten(parts)) == PartsTotal(parts)
    ensures Contiguous(Flatten(parts))
  {
    if |parts| == 0 then []
    else
      var init := parts[..|parts| - 1];
      PartsTotalBounds(parts, |parts| - 1);
      RebasedContiguous(Flatten(init), parts[|parts| - 1].row.pieces);
      Rebased(Flatten(init), parts[|parts| - 1].row.pieces)
  }

  function PartsTotal(parts: seq<PartSnapshot>): int {
    if |parts| == 0 then 0 else PartsTotal(parts[..|parts| - 1]) + TotalSize(parts[|parts| - 1].row.pieces)
  }

  /** `done` followed by `more`, whose offsets continue where `done` ends. */
  function Rebased(done: seq<Piece>, more: seq<Piece>): (r: seq<Piece>)
    requires Contiguous(done) && Contiguous(more)
    requires TotalSize(done) + TotalSize(more) <= I64_MAX
    ensures TotalSize(r) == TotalSize(done) + TotalSize(more)
    ensures |r| == |done| + |more|
  {
    if |more| == 0 then done
    else
      WholeSizeBounds(done);
      ContiguousPrefix(more, |more| - 1);
      TotalSizeBounds(more, |more| - 1);
      var init := Rebased(done, more[..|more| - 1]);
      var last := more[|more| - 1];
      var r := init + [Piece(last.id, TotalSize(init), last.size)];
      assert r[..|r| - 1] == init;
      r
  }

  lemma {:induction false} RebasedContiguous(done: seq<Piece>, more: seq<Piece>)
    requires Contiguous(done) && Contiguous(more)
    requires TotalSize(done) + TotalSize(more) <= I64_MAX
    ensures Contiguous(Rebased(done, more))
  {
    if |more| > 0 {
      ContiguousPrefix(more, |more| - 1);
      TotalSizeBounds(more, |more| - 1);
      RebasedContiguous(done, more[..|more| - 1]);
      var init := Rebased(done, more[..|more| - 1]);
      var r := Rebased(done, more);
      assert r[..|init|] == init;
      forall i | 0 <= i < |r| ensures r[i].size > 0 && r[i].offset == TotalSize(r[..i]) {
        assert r[..i] == init[..i];
        if i < |init| {
          assert r[i] == init[i];
        } else {
          assert init[..i] == init;
        }
      }
    }
  }

  lemma RebasedUnfolds(done: seq<Piece>, more: seq<Piece>)
    requires Contiguous(done) && Contiguous(more) && |more| > 0
    requires TotalSize(done) + TotalSize(more) <= I64_MAX
    ensures var init, last := more[..|more| - 1], more[|more| - 1];
      && Contiguous(init) && 0 <= TotalSize(done) + TotalSize(init) <= I64_MAX
      && Rebased(done, more) == Rebased(done, init) + [Piece(last.id, TotalSize(done) + TotalSize(init), last.size)]
  {
    ContiguousPrefix(more, |more| - 1);
    TotalSizeBounds(more, |more| - 1);
    TotalSizeBounds(done, 0);
  }

  /** Rebasing changes offsets only. */
  lemma {:induction false} RebasedKeepsBlocks(done: seq<Piece>, more: seq<Piece>)
    requires Contiguous(done) && Contiguous(more)
    requires TotalSize(done) + TotalSize(more) <= I64_MAX
    ensures SameBlocks(done, more, Rebased(done, more))
  {
    if |more| > 0 {
      ContiguousPrefix(more, |more| - 1);
      TotalSizeBounds(more, |more| - 1);
      var init, last := more[..|more| - 1], more[|more| - 1];
      RebasedKeepsBlocks(done, init);
      RebasedUnfolds(done, more);
      OneMoreBlock(done, init, Rebased(done, init), last, Rebased(done, more)[|done| + |init|]);
      assert more == init + [last];
    }
  }

  lemma OneMoreBlock(done: seq<Piece>, more: seq<Piece>, r: seq<Piece>, last: Piece, piece: Piece)
    requires SameBlocks(done, more, r) && piece.id == last.id && piece.size == last.size
    ensures SameBlocks(done, more + [last], r + [piece])
  {
    var all, rebased := more + [last], r + [piece];
    assert rebased[..|done|] == r[..|done|];
    forall k | 0 <= k < |all| ensures rebased[|done| + k].id == all[k].id && rebased[|done| + k].size == all[k].size {
      assert k < |more| ==> rebased[|done| + k] == r[|done| + k] && all[k] == more[k];
    }
  }

  /** `r` is `done` followed by pieces with the blocks and sizes of `more`. */
  predicate SameBlocks(done: seq<Piece>, more: seq<Piece>, r: seq<Piece>) {
    && |r| == |done| + |more| && r[..|done|] == done
    && (forall k :: |done| <= k < |r| ==> r[k].id == more[k - |done|].id && r[k].size == more[k - |done|].size)
  }

  lemma ContiguousPrefix(pieces: seq<Piece>, n: nat)
    requires Contiguous(pieces) && n <= |pieces|
    ensures Contiguous(pieces[..n])
  {
    forall i | 0 <= i < n ensures pieces[..n][..i] == pieces[..i] {
    }
  }

  lemma WholeSizeBounds(pieces: seq<Piece>)
    requires Contiguous(pieces)
    ensures 0 <= TotalSize(pieces)
  {
    TotalSizeBounds(pieces, |pieces|);
    assert pieces[..|pieces|] == pieces;
  }

  /** A prefix of contiguous pieces is no longer than the whole. */
  lemma {:induction false} TotalSizeBounds(pieces: seq<Piece>, n: nat)
    requires Contiguous(pieces) && n <= |pieces|
    ensures 0 <= TotalSize(pieces[..n]) <= TotalSize(pieces)
    decreases |pieces|
  {
    if n == |pieces| {
      assert pieces[..n] == pieces;
      if n > 0 {
        ContiguousPrefix(pieces, n - 1);
        TotalSizeBounds(pieces[..n - 1], n - 1);
      }
    } else {
      ContiguousPrefix(pieces, |pieces| - 1);
      TotalSizeBounds(pieces[..|pieces| - 1], n);
      assert pieces[..|pieces| - 1][..n] == pieces[..n];
    }
  }

  function PartIds(parts: seq<PartSnapshot>): set<BlockId> {
    set i, b | 0 <= i < |parts| && b in Ids(parts[i].row.pieces) :: b
  }

  /** No block occurs twice, within a part or across parts. */
  predicate PartsDistinct(parts: seq<PartSnapshot>) {
    && (forall i :: 0 <= i < |parts| ==> Distinct(parts[i].row.pieces))
    && (forall i, j :: 0 <= i < j < |parts| ==> Ids(parts[i].row.pieces) !! Ids(parts[j].row.pieces))
  }

  /** Every part is contiguous and the total fits 64 bits. */
  predicate PartsFit(parts: seq<PartSnapshot>) {
    && (forall i :: 0 <= i < |parts| ==> Contiguous(parts[i].row.pieces))
    && PartsTotal(parts) <= I64_MAX
  }

  /** What `validate_parts_layout` accepts, and its result is `PartsTotal`. */
  predicate PartsLayoutOk(parts: seq<PartSnapshot>) {
    && PartsFit(parts)
    && PartsDistinct(parts)
    && (forall i :: 0 <= i < |parts| ==> TotalSize(parts[i].row.pieces) == parts[i].row.size)
  }

  /** A prefix of the part list has a total between 0 and the whole. */
  lemma {:induction false} PartsTotalBounds(parts: seq<PartSnapshot>, n: nat)
    requires forall i :: 0 <= i < |parts| ==> Contiguous(parts[i].row.pieces)
    requires n <= |parts|
    ensures 0 <= PartsTotal(parts[..n]) <= PartsTotal(parts)
    decreases |parts|
  {
    if |parts| == 0 {
    } else {
      var last := parts[|parts| - 1].row.pieces;
      TotalSizeBounds(last, |last|);
      assert last[..|last|] == last;
      if n == |parts| {
        assert parts[..n] == parts;
        PartsTotalBounds(parts[..n - 1], n - 1);
        assert parts[..n - 1][..n - 1] == parts[..n - 1];
      } else {
        PartsTotalBounds(parts[..|parts| - 1], n);
        assert parts[..|parts| - 1][..n] == parts[..n];
      }
    }
  }

  /** The snapshot still equals what the upload has persisted; other parts may exist. */
  predicate PartsMatch(upload: UploadRow, parts: seq<PartSnapshot>) {
    && (forall i, j :: 0 <= i < j < |parts| ==> parts[i].number != parts[j].number)
    && (forall i :: 0 <= i < |parts| ==> PartMatches(upload, parts[i]))
  }

  predicate PartMatches(upload: UploadRow, part: PartSnapshot) {
    && part.number in upload.parts
    && upload.parts[part.number].size == part.row.size
    && NormalizeEtag(upload.parts[part.number].etag) == NormalizeEtag(part.row.etag)
    && upload.parts[part.number].pieces == part.row.pieces
  }

  // ---- the transactions ----

  function CreateUpload(t: Tables, u: UploadId, name: Name, now: int): Result<Tables, Failure> {
    if name.bucket !in t.buckets then Err(NoSuchBucket)
    else if u in t.uploads then Err(NotUnique)
    else Ok(t.(uploads := t.uploads[u := UploadRow(name, now, map[])]))
  }

  function DeleteBucket(t: Tables, bucket: string): Result<Tables, Failure> {
    if bucket !in t.buckets then Err(NoSuchBucket)
    else if (exists n :: n in t.objects && n.bucket == bucket)
         || (exists u :: u in t.uploads && t.uploads[u].name.bucket == bucket) then Ok(t)
    else Ok(t.(buckets := t.buckets - {bucket}))
  }

  function AddStagedBlock(t: Tables, id: BlockId, message: MessageId): Result<Tables, Failure> {
    if id in t.blocks || exists b :: b in t.blocks && t.blocks[b].message == message then Err(NotUnique)
    else Ok(t.(blocks := t.blocks[id := BlockRow(message, 1, false)]))
  }

  function ReplacePart(t: Tables, u: UploadId, p: PartNumber, size: i64, etag: string, pieces: seq<Piece>, now: int)
    : Result<Tables, Failure>
  {
    if u !in t.uploads then Err(NoSuchUpload)
    else if Ids(pieces) * t.queue.Keys != {} then Err(SlowDown)
    else if !Distinct(pieces) then Err(InvalidPart)
    else if !(Ids(pieces) <= t.blocks.Keys) then Err(ForeignKey)
    else
      Ok(Release(t.(uploads := WithPart(t.uploads, u, p, PartRow(size, etag, pieces))),
                 Ids(PartPieces(t, u, p)) - Ids(pieces), now))
  }

  function WithPart(uploads: map<UploadId, UploadRow>, u: UploadId, p: PartNumber, row: PartRow): map<UploadId,
                    UploadRow>
    requires u in uploads
  {
    uploads[u := uploads[u].(parts := uploads[u].parts[p := row])]
  }

  function PartPieces(t: Tables, u: UploadId, p: PartNumber): seq<Piece> {
    if u in t.uploads && p in t.uploads[u].parts then t.uploads[u].parts[p].pieces else []
  }

  function CommitUpload(t: Tables, u: UploadId, size: i64, etag: string, parts: seq<PartSnapshot>,
                        condition: Condition, id: ObjectId, now: int): Result<Option<Tables>, Failure>
  {
    if !PartsLayoutOk(parts) || PartsTotal(parts) != size then Err(InvalidLayout)
    else if u !in t.uploads then Ok(None)
    else
      var upload := t.uploads[u];
      if !PartsMatch(upload, parts) then Err(InvalidPart)
      else if PartIds(parts) * t.queue.Keys != {} then Err(SlowDown)
      else if !condition.Allows(EtagAt(t, upload.name)) then Err(PreconditionFailed)
      else
        var unused := UploadIds(upload) - PartIds(parts);
        Ok(Some(Committed(t, u, ObjectRow(id, size, etag, Flatten(parts)), unused, now)))
  }

  /** The object replaces what its name held, the upload goes away, and its unused blocks are released. */
  function Committed(t: Tables, u: UploadId, row: ObjectRow, unused: set<BlockId>, now: int): Tables
    requires u in t.uploads
  {
    var name := t.uploads[u].name;
    var installed := Install(RemoveObject(t, name, now), name, row, false);
    Release(installed.(uploads := t.uploads - {u}), unused, now)
  }

  function AbortUpload(t: Tables, u: UploadId, now: int): Option<Tables> {
    if u !in t.uploads then None
    else Some(Release(t.(uploads := t.uploads - {u}), UploadIds(t.uploads[u]), now))
  }

  function DeleteObject(t: Tables, name: Name, condition: Condition, now: int): Result<Option<Tables>, Failure> {
    if !condition.Allows(EtagAt(t, name)) then Err(PreconditionFailed)
    else if name !in t.objects then Ok(None)
    else Ok(Some(RemoveObject(t, name, now)))
  }

  function CopyObject(t: Tables, source: ObjectSnapshot, name: Name, condition: Condition, id: ObjectId, now: int)
    : Result<Tables, Failure>
  {
    if source.name !in t.objects || t.objects[source.name].id != source.row.id then Err(NoSuchKey)
    else if Ids(source.row.pieces) * t.queue.Keys != {} then Err(SlowDown)
    else if !condition.Allows(EtagAt(t, name)) then Err(PreconditionFailed)
    else if !(Ids(source.row.pieces) <= t.blocks.Keys) then Err(ForeignKey)
    else Ok(Install(RemoveObject(t, name, now), name, source.row.(id := id), true))
  }

  /** The new state, and whether the block is now waiting for deletion. */
  function QueueStaleBlock(t: Tables, b: BlockId, now: int): (Tables, bool) {
    if b in t.blocks && !t.blocks[b].committed && !Mentioned(t, b) then
      var row := t.blocks[b];
      var refCount := if row.refCount > 0 then 0 else row.refCount;
      if refCount == 0 then
        (t.(blocks := t.blocks[b := row.(refCount := 0)],
            queue := if b in t.queue then t.queue else t.queue[b := QueueRow(0, now, false)]), true)
      else (t, false)
    else (t, false)
  }

  /** A row of `object_blocks` or `multipart_part_blocks` mentions `b`. */
  predicate Mentioned(t: Tables, b: BlockId) {
    || (exists n :: n in t.objects && b in Ids(t.objects[n].pieces))
    || (exists u :: u in t.uploads && b in UploadIds(t.uploads[u]))
  }

  /** What the garbage collector reads as ready for deletion. */
  predicate IsCandidate(t: Tables, b: BlockId, timestamp: int) {
    && b in t.queue && b in t.blocks && !t.queue[b].orphan && t.blocks[b].refCount == 0
    && t.queue[b].nextAttempt <= timestamp && !Mentioned(t, b)
  }

  function GcSuccess(t: Tables, b: BlockId): Tables {
    if b in t.blocks && t.blocks[b].refCount == 0 && !Mentioned(t, b)
    then t.(blocks := t.blocks - {b}, queue := t.queue - {b})
    else t
  }

  function GcFailure(t: Tables, b: BlockId, nextAttempt: int): Tables {
    if b !in t.queue then t
    else t.(queue := t.queue[b := t.queue[b].(attempts := t.queue[b].attempts + 1, nextAttempt := nextAttempt)])
  }

  function GcOrphan(t: Tables, b: BlockId): Tables {
    if b !in t.queue then t else t.(queue := t.queue[b := t.queue[b].(orphan := true)])
  }
}
