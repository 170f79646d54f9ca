/** The tables of the metadata database and the invariant every transaction keeps. */
module Schema {
  import opened Prelude

  type BlockId = nat
  type MessageId = nat
  type ObjectId = nat
  type UploadId = nat

  /** 0 for the one part of a plain put, 1 to 10,000 for the parts of a multipart upload. */
  type PartNumber = nat

  datatype Name = Name(bucket: string, key: string)

  /** A row of `object_blocks` or `multipart_part_blocks`; its ordinal is its position in the sequence. */
  datatype Piece = Piece(id: BlockId, offset: i64, size: i64)

  /** `message` stands for the unique pair (chat_id, message_id). */
  datatype BlockRow = BlockRow(message: MessageId, refCount: int, committed: bool)

  datatype QueueRow = QueueRow(attempts: nat, nextAttempt: int, orphan: bool)

  datatype ObjectRow = ObjectRow(id: ObjectId, size: i64, etag: string, pieces: seq<Piece>)

  datatype PartRow = PartRow(size: i64, etag: string, pieces: seq<Piece>)

  /** Parts and their pieces go away with their upload, as the cascading foreign keys have it. */
  datatype UploadRow = UploadRow(name: Name, createdAt: int, parts: map<PartNumber, PartRow>)

  datatype Tables = Tables(
    buckets: set<string>,
    blocks: map<BlockId, BlockRow>,
    queue: map<BlockId, QueueRow>,
    objects: map<Name, ObjectRow>,
    uploads: map<UploadId, UploadRow>)

  const EMPTY := Tables({}, map[], map[], map[], map[])

  function Ids(pieces: seq<Piece>): set<BlockId> {
    set i | 0 <= i < |pieces| :: pieces[i].id
  }

  predicate Distinct(pieces: seq<Piece>) {
    forall i, j :: 0 <= i < j < |pieces| ==> pieces[i].id != pieces[j].id
  }

  // ---- who refers to a block ----

  /** The objects whose pieces mention block `b`. */
  function Holders(objects: map<Name, ObjectRow>, b: BlockId): set<Name> {
    set n | n in objects && b in Ids(objects[n].pieces)
  }

  function HolderCount(objects: map<Name, ObjectRow>, b: BlockId): nat {
    |Holders(objects, b)|
  }

  predicate PartHolds(uploads: map<UploadId, UploadRow>, u: UploadId, p: PartNumber, b: BlockId) {
    u in uploads && p in uploads[u].parts && b in Ids(uploads[u].parts[p].pieces)
  }

  ghost predicate InSomePart(uploads: map<UploadId, UploadRow>, b: BlockId) {
    exists u, p :: PartHolds(uploads, u, p, b)
  }

  ghost predicate Referenced(t: Tables, b: BlockId) {
    HolderCount(t.objects, b) > 0 || InSomePart(t.uploads, b)
  }

  /** The blocks held by the parts of one upload. */
  function UploadIds(upload: UploadRow): set<BlockId> {
    set p, b | p in upload.parts && b in Ids(upload.parts[p].pieces) :: b
  }

  // ---- layout ----

  function TotalSize(pieces: seq<Piece>): int {
    if |pieces| == 0 then 0 else TotalSize(pieces[..|pieces| - 1]) + pieces[|pieces| - 1].size
  }

  /** Positive pieces that start at offset 0 and leave no gap. */
  predicate Contiguous(pieces: seq<Piece>) {
    forall i :: 0 <= i < |pieces| ==> pieces[i].size > 0 && pieces[i].offset == TotalSize(pieces[..i])
  }

  /** What `validate_object_layout` accepts. */
  predicate ValidLayout(pieces: seq<Piece>, size: int) {
    Contiguous(pieces) && Distinct(pieces) && TotalSize(pieces) == size
  }

  // ---- the invariant ----

  /** How a block row fits the rows around it: whether a part has it, how many objects do, whether it is queued. */
  predicate RowOk(row: BlockRow, inPart: bool, holders: nat, queued: bool) {
    if inPart then holders == 0 && row.refCount == 1 && !row.committed && !queued
    else if holders > 0 then row.refCount == holders && row.committed && !queued
    else (row.refCount == 1 && !row.committed && !queued) || (row.refCount == 0 && queued)
  }

  /** The reference count and the queue agree with the rows that mention block `b`. */
  ghost predicate BlockOk(t: Tables, b: BlockId)
    requires b in t.blocks
  {
    RowOk(t.blocks[b], InSomePart(t.uploads, b), HolderCount(t.objects, b), b in t.queue)
  }

  ghost predicate ObjectsOk(t: Tables) {
    && (forall n :: n in t.objects ==>
          ValidLayout(t.objects[n].pieces, t.objects[n].size) && Ids(t.objects[n].pieces) <= t.blocks.Keys)
    && (forall n, m :: n in t.objects && m in t.objects && t.objects[n].id == t.objects[m].id ==> n == m)
  }

  ghost predicate UploadsOk(t: Tables) {
    && (forall u :: u in t.uploads ==> t.uploads[u].name.bucket in t.buckets)
    && (forall u, p :: u in t.uploads && p in t.uploads[u].parts ==>
          Distinct(t.uploads[u].parts[p].pieces) && Ids(t.uploads[u].parts[p].pieces) <= t.blocks.Keys)
    && (forall u, p, v, q, b :: PartHolds(t.uploads, u, p, b) && PartHolds(t.uploads, v, q, b) ==> u == v && p == q)
  }

  ghost predicate Valid(t: Tables) {
    && t.queue.Keys <= t.blocks.Keys
    && ObjectsOk(t)
    && UploadsOk(t)
    && (forall b :: b in t.blocks ==> BlockOk(t, b))
  }

  // ---- exact row counts ----

  /** The rows of `object_blocks` that mention block `b`, by object and ordinal. */
  function ObjectBlockRows(t: Tables, b: BlockId): set<(Name, nat)> {
    set n, i: nat | n in t.objects && i < |t.objects[n].pieces| && t.objects[n].pieces[i].id == b :: (n, i)
  }

  /** The rows of `multipart_part_blocks` that mention block `b`, by upload, part and ordinal. */
  function PartBlockRows(t: Tables, b: BlockId): set<(UploadId, PartNumber, nat)> {
    set u, p, i: nat |
      u in t.uploads && p in t.uploads[u].parts && i < |t.uploads[u].parts[p].pieces|
      && t.uploads[u].parts[p].pieces[i].id == b :: (u, p, i)
  }

  /** With distinct pieces there is one row for each object in `names` that mentions `b`. */
  lemma {:induction false} RowsMatchHolders(t: Tables, b: BlockId, names: set<Name>, rows: set<(Name, nat)>)
    requires forall n :: n in t.objects ==> Distinct(t.objects[n].pieces)
    requires names <= Holders(t.objects, b)
    requires rows == set r | r in ObjectBlockRows(t, b) && r.0 in names
    ensures |rows| == |names|
    decreases names
  {
    if names == {} {
      assert rows == {};
    } else {
      var n :| n in names;
      var i: nat :| i < |t.objects[n].pieces| && t.objects[n].pieces[i].id == b;
      assert (n, i) in rows;
      var rest := rows - {(n, i)};
      forall r | r in rows && r.0 == n ensures r == (n, i) {
        assert t.objects[n].pieces[r.1].id == b;
      }
      assert rest == set r | r in ObjectBlockRows(t, b) && r.0 in names - {n};
      RowsMatchHolders(t, b, names - {n}, rest);
    }
  }

  lemma RowsMatchParts(t: Tables, b: BlockId)
    requires UploadsOk(t)
    ensures InSomePart(t.uploads, b) <==> |PartBlockRows(t, b)| == 1
    ensures !InSomePart(t.uploads, b) <==> PartBlockRows(t, b) == {}
  {
    var rows := PartBlockRows(t, b);
    forall r | r in rows ensures PartHolds(t.uploads, r.0, r.1, b) {
    }
    if InSomePart(t.uploads, b) {
      var u, p :| PartHolds(t.uploads, u, p, b);
      var i: nat :| i < |t.uploads[u].parts[p].pieces| && t.uploads[u].parts[p].pieces[i].id == b;
      assert rows == {(u, p, i)};
    }
    if rows != {} {
      var r :| r in rows;
      assert PartHolds(t.uploads, r.0, r.1, b);
    }
  }

  lemma ObjectRowCount(t: Tables, b: BlockId)
    requires ObjectsOk(t)
    ensures |ObjectBlockRows(t, b)| == |Holders(t.objects, b)|
  {
    var rows := ObjectBlockRows(t, b);
    var holders := Holders(t.objects, b);
    assert rows == set r | r in rows && r.0 in holders;
    RowsMatchHolders(t, b, holders, rows);
  }

  /**
   * Reference counts are exact: a referenced block counts its rows in both tables and is not queued;
   * an unreferenced one is staged with count 1 and unqueued, or has count 0 and is queued.
   */
  lemma RefCountsAreExact(t: Tables, b: BlockId)
    requires Valid(t) && b in t.blocks
    ensures |ObjectBlockRows(t, b)| + |PartBlockRows(t, b)| > 0 <==> Referenced(t, b)
    ensures Referenced(t, b) ==>
      t.blocks[b].refCount == |ObjectBlockRows(t, b)| + |PartBlockRows(t, b)| && b !in t.queue
    ensures !Referenced(t, b) ==>
      || (t.blocks[b].refCount == 1 && !t.blocks[b].committed && b !in t.queue)
      || (t.blocks[b].refCount == 0 && b in t.queue)
  {
    assert BlockOk(t, b);
    assert UploadsOk(t) && ObjectsOk(t);
    RowCounts(t, b);
  }

  lemma RowCounts(t: Tables, b: BlockId)
    requires UploadsOk(t) && ObjectsOk(t)
    ensures |ObjectBlockRows(t, b)| == |Holders(t.objects, b)|
    ensures |PartBlockRows(t, b)| == if InSomePart(t.uploads, b) then 1 else 0
  {
    ObjectRowCount(t, b);
    RowsMatchParts(t, b);
  }
}
