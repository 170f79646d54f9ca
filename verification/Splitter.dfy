/**
 * Cutting a request body into Telegram messages: the streaming splitter for a known length and the simple one
 * over a spooled file. Both upload exactly the blocks of `Cut`, whatever the framing of the body and in
 * whatever order the upload tasks finish.
 */
module Splitter {
  import opened Prelude
  import opened Permutations
  import Schema

  newtype byte = x: int | 0 <= x < 256

  type Bytes = seq<byte>

  type BlockId = Schema.BlockId

  /** One item of the body stream: a frame of bytes, or an error of the connection. */
  datatype Frame = Data(bytes: Bytes) | Broken

  /** What an upload task returns; `content` is what its Telegram message holds. */
  datatype Uploaded = Uploaded(id: BlockId, ordinal: nat, offset: int, size: int, content: Bytes)

  /** Start-up validation keeps the chunk size within this range. */
  type ChunkSize = n: nat | n <= 2_000_000_000

  datatype Config = Config(chunkSize: ChunkSize, concurrency: nat, maxObjectSize: i64)

  /**
   * The outside world of one upload: which frames the bandwidth limiter admits, which pipes to a task stay
   * open, which tasks succeed, and the row ids that the database gives out.
   */
  datatype World = World(admits: nat -> bool, pipeOk: nat -> bool, taskOk: nat -> bool, rowId: nat -> BlockId)

  datatype Error =
    | InvalidRequest | SourceFailed | EntityTooLarge | IncompleteBody | SlowDown
    | PipeFailed | TaskFailed | InvalidLayout | ZeroChunkSize

  /** The size of the block that starts at `offset` of a body of `total` bytes. */
  function BlockSize(chunkSize: ChunkSize, offset: i64, total: i64): Result<int, Error> {
    if chunkSize == 0 then Err(ZeroChunkSize)
    else if !(-0x8000_0000_0000_0000 <= total - offset <= I64_MAX) then Err(InvalidLayout)
    else if total - offset <= 0 then Err(InvalidLayout)
    else Ok(Min(total - offset, chunkSize))
  }

  // ---- the reference cut ----

  /** The blocks of `body` from `offset` on: all of the chunk size but perhaps the last. */
  function CutFrom(body: Bytes, chunkSize: nat, rowId: nat -> BlockId, offset: nat, ordinal: nat): seq<Uploaded>
    requires chunkSize > 0
    decreases |body| - offset
  {
    if offset >= |body| then []
    else
      var size := Min(chunkSize, |body| - offset);
      [Uploaded(rowId(ordinal), ordinal, offset, size, body[offset..offset + size])]
      + CutFrom(body, chunkSize, rowId, offset + size, ordinal + 1)
  }

  function Cut(body: Bytes, chunkSize: nat, rowId: nat -> BlockId): seq<Uploaded> {
    if chunkSize == 0 then [] else CutFrom(body, chunkSize, rowId, 0, 0)
  }

  function Joined(frames: seq<Frame>): Bytes {
    if |frames| == 0 then []
    else Joined(frames[..|frames| - 1]) + (if frames[|frames| - 1].Data? then frames[|frames| - 1].bytes else [])
  }

  /** The body is the data of its frames in order. */
  lemma {:induction false} JoinedInOrder(a: seq<Frame>, b: seq<Frame>, bytes: Bytes)
    ensures Joined([Data(bytes)]) == bytes
    ensures Joined(a + b) == Joined(a) + Joined(b)
    decreases |b|
  {
    assert [Data(bytes)][..0] == [] && Joined([]) == [];
    if b == [] {
      assert a + b == a;
    } else {
      JoinedInOrder(a, b[..|b| - 1], bytes);
      assert (a + b)[..|a + b| - 1] == a + b[..|b| - 1];
    }
  }

  // ---- progress of a cut ----

  function End(blocks: seq<Uploaded>): int {
    if |blocks| == 0 then 0 else blocks[|blocks| - 1].offset + blocks[|blocks| - 1].size
  }

  /** `blocks` are the first blocks of a body of `total` bytes that begins with `received`. */
  ghost predicate WellCut(blocks: seq<Uploaded>, received: Bytes, total: int, chunkSize: nat, rowId: nat -> BlockId) {
    forall k :: 0 <= k < |blocks| ==> GoodBlock(blocks, k, received, total, chunkSize, rowId)
  }

  ghost predicate GoodBlock(blocks: seq<Uploaded>, k: nat, received: Bytes, total: int, chunkSize: nat,
                            rowId: nat -> BlockId)
    requires k < |blocks|
  {
    var b := blocks[k];
    && b.ordinal == k && b.id == rowId(k)
    && b.offset == End(blocks[..k]) && b.offset >= 0
    && 0 < b.size == Min(chunkSize, total - b.offset)
    && b.offset + b.size <= |received|
    && b.content == received[b.offset..b.offset + b.size]
  }

  lemma WellCutGrows(blocks: seq<Uploaded>, received: Bytes, more: Bytes, total: int, chunkSize: nat,
                     rowId: nat -> BlockId)
    requires WellCut(blocks, received, total, chunkSize, rowId)
    ensures WellCut(blocks, received + more, total, chunkSize, rowId)
  {
    forall k | 0 <= k < |blocks| ensures GoodBlock(blocks, k, received + more, total, chunkSize, rowId) {
      assert GoodBlock(blocks, k, received, total, chunkSize, rowId);
      var b := blocks[k];
      assert (received + more)[b.offset..b.offset + b.size] == received[b.offset..b.offset + b.size];
    }
  }

  lemma WellCutExtends(blocks: seq<Uploaded>, b: Uploaded, received: Bytes, total: int, chunkSize: nat,
                       rowId: nat -> BlockId)
    requires WellCut(blocks, received, total, chunkSize, rowId)
    requires b.ordinal == |blocks| && b.id == rowId(|blocks|) && b.offset == End(blocks) >= 0
    requires 0 < b.size == Min(chunkSize, total - b.offset) && b.offset + b.size <= |received|
    requires b.content == received[b.offset..b.offset + b.size]
    ensures WellCut(blocks + [b], received, total, chunkSize, rowId)
    ensures End(blocks + [b]) == b.offset + b.size
  {
    var more := blocks + [b];
    forall k | 0 <= k < |more| ensures GoodBlock(more, k, received, total, chunkSize, rowId) {
      assert more[..k] == blocks[..k];
      if k < |blocks| {
        assert GoodBlock(blocks, k, received, total, chunkSize, rowId);
      } else {
        assert blocks[..k] == blocks;
      }
    }
  }

  /** Blocks that reach the end of the body are the reference cut. */
  lemma {:induction false} WellCutIsCut(blocks: seq<Uploaded>, k: nat, body: Bytes, chunkSize: nat,
                                        rowId: nat -> BlockId)
    requires chunkSize > 0 && k <= |blocks|
    requires WellCut(blocks, body, |body|, chunkSize, rowId) && End(blocks) == |body|
    ensures 0 <= End(blocks[..k]) <= |body|
    ensures blocks[k..] == CutFrom(body, chunkSize, rowId, End(blocks[..k]), k)
    decreases |blocks| - k
  {
    if k == |blocks| {
      assert blocks[..k] == blocks;
    } else {
      assert GoodBlock(blocks, k, body, |body|, chunkSize, rowId);
      assert blocks[..k + 1][..k] == blocks[..k] && blocks[..k + 1][k] == blocks[k];
      WellCutIsCut(blocks, k + 1, body, chunkSize, rowId);
      assert blocks[k..] == [blocks[k]] + blocks[k + 1..];
    }
  }

  // ---- the set of upload tasks ----

  /** Takes any finished task; its error, if it has one, is the outcome. */
  method ReapOne(tasks: seq<Uploaded>, uploaded: seq<Uploaded>, world: World)
    returns (tasks': seq<Uploaded>, uploaded': seq<Uploaded>, failure: Option<Error>)
    requires tasks != []
    ensures |tasks'| == |tasks| - 1
    ensures failure.None? ==> multiset(tasks') + multiset(uploaded') == multiset(tasks) + multiset(uploaded)
    ensures failure.Some? ==> failure == Some(TaskFailed) && exists b :: b in tasks && !world.taskOk(b.ordinal)
  {
    var i: nat :| i < |tasks|;
    var block := tasks[i];
    tasks' := tasks[..i] + tasks[i + 1..];
    assert tasks == tasks[..i] + [block] + tasks[i + 1..];
    if !world.taskOk(block.ordinal) {
      return tasks', uploaded, Some(TaskFailed);
    }
    return tasks', uploaded + [block], None;
  }

  method DrainTasks(tasks: seq<Uploaded>, uploaded: seq<Uploaded>, failure: Option<Error>, world: World)
    returns (uploaded': seq<Uploaded>, failure': Option<Error>)
    ensures failure.Some? ==> failure' == failure
    ensures failure'.None? ==> multiset(uploaded') == multiset(tasks) + multiset(uploaded)
    ensures failure.None? && failure'.Some? ==> failure' == Some(TaskFailed) && exists b :: b in tasks && !world.taskOk(b.ordinal)
  {
    var left := tasks;
    uploaded', failure' := uploaded, failure;
    while left != []
      invariant failure.Some? ==> failure' == failure
      invariant multiset(left) <= multiset(tasks)
      invariant failure'.None? ==> multiset(left) + multiset(uploaded') == multiset(tasks) + multiset(uploaded)
      invariant failure.None? && failure'.Some? ==>
        failure' == Some(TaskFailed) && exists b :: b in tasks && !world.taskOk(b.ordinal)
      decreases |left|
    {
      var i: nat :| i < |left|;
      var block := left[i];
      assert left == left[..i] + [block] + left[i + 1..];
      assert block in multiset(left);
      assert block in tasks;
      left := left[..i] + left[i + 1..];
      if world.taskOk(block.ordinal) {
        uploaded' := uploaded' + [block];
      } else if failure'.None? {
        failure' := Some(TaskFailed);
      }
    }
  }

  /** `sort_by_key` on the ordinal. */
  function Insert(block: Uploaded, sorted: seq<Uploaded>): (r: seq<Uploaded>)
    ensures multiset(r) == multiset{block} + multiset(sorted)
  {
    if |sorted| == 0 then [block]
    else if block.ordinal <= sorted[0].ordinal then [block] + sorted
    else
      assert sorted == [sorted[0]] + sorted[1..];
      [sorted[0]] + Insert(block, sorted[1..])
  }

  predicate Ordered(blocks: seq<Uploaded>) {
    forall i, j :: 0 <= i < j < |blocks| ==> blocks[i].ordinal <= blocks[j].ordinal
  }

  lemma {:induction false} InsertKeepsOrder(block: Uploaded, sorted: seq<Uploaded>)
    requires Ordered(sorted)
    ensures Ordered(Insert(block, sorted))
  {
    if |sorted| > 0 && block.ordinal > sorted[0].ordinal {
      InsertKeepsOrder(block, sorted[1..]);
      var rest := Insert(block, sorted[1..]);
      forall x | x in rest ensures sorted[0].ordinal <= x.ordinal {
        assert x in multiset(rest);
        assert x == block || x in sorted[1..];
      }
    }
  }

  method SortByOrdinal(blocks: seq<Uploaded>) returns (r: seq<Uploaded>)
    ensures Ordered(r) && multiset(r) == multiset(blocks)
  {
    r := [];
    for i := 0 to |blocks|
      invariant Ordered(r) && multiset(r) == multiset(blocks[..i])
    {
      InsertKeepsOrder(blocks[i], r);
      r := Insert(blocks[i], r);
      assert blocks[..i + 1] == blocks[..i] + [blocks[i]];
    }
    assert blocks[..|blocks|] == blocks;
  }

  lemma FirstIsFirst(sorted: seq<Uploaded>, issued: seq<Uploaded>, first: nat)
    requires Ordered(sorted) && multiset(sorted) == multiset(issued) && issued != [] && sorted != []
    requires forall k :: 0 <= k < |issued| ==> issued[k].ordinal == first + k
    ensures sorted[0] == issued[0]
  {
    SameLength(sorted, issued);
    assert sorted[0] in issued && issued[0] in sorted;
    var i :| 0 <= i < |sorted| && sorted[i] == issued[0];
    assert sorted[0].ordinal <= issued[0].ordinal;
  }

  /** Sorting by ordinal recovers the order of issue, whatever the order of completion. */
  lemma {:induction false} SortedIsIssued(sorted: seq<Uploaded>, issued: seq<Uploaded>, first: nat)
    requires Ordered(sorted) && multiset(sorted) == multiset(issued)
    requires forall k :: 0 <= k < |issued| ==> issued[k].ordinal == first + k
    ensures sorted == issued
  {
    SameLength(sorted, issued);
    if |issued| > 0 {
      FirstIsFirst(sorted, issued, first);
      TailsPermute(sorted, issued);
      SortedIsIssued(sorted[1..], issued[1..], first + 1);
      assert sorted == [sorted[0]] + sorted[1..] && issued == [issued[0]] + issued[1..];
    }
  }
}
