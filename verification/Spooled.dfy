/** Uploading a body of unknown length: spool it to a file, then cut the file by its size. */
module Spooled {
  import opened Prelude
  import opened Splitter
  import K = KnownLength

  /** Everything outside works and the body is within the limit. */
  ghost predicate Good(frames: seq<Frame>, config: Config, world: World) {
    && (forall f :: 0 <= f < |frames| ==> frames[f].Data? && (frames[f].bytes == [] || world.admits(f)))
    && (|Joined(frames)| <= config.maxObjectSize) && 0 <= config.maxObjectSize
    && (config.chunkSize > 0 || Joined(frames) == [])
    && K.WorldServes(world)
  }

  /** Appends the frames to the spool file. */
  method SpoolBody(frames: seq<Frame>, config: Config, world: World) returns (r: Result<Bytes, Error>)
    ensures r.Ok? ==> r.value == Joined(frames) && |r.value| <= Max(config.maxObjectSize, 0)
    ensures r.Ok? ==> (forall f :: 0 <= f < |frames| ==> frames[f].Data?)
    ensures r.Err? ==> r.error != InvalidLayout && !Good(frames, config, world)
  {
    var file: Bytes := [];
    for f := 0 to |frames|
      invariant file == Joined(frames[..f]) && |file| <= Max(config.maxObjectSize, 0)
      invariant forall k :: 0 <= k < f ==> frames[k].Data?
    {
      assert frames[..f + 1][..f] == frames[..f];
      K.JoinedPrefix(frames, f + 1);
      if frames[f].Broken? {
        return Err(SourceFailed);
      }
      var data := frames[f].bytes;
      if |file| + |data| > I64_MAX || |file| + |data| > config.maxObjectSize {
        return Err(EntityTooLarge);
      }
      if data != [] && !world.admits(f) {
        return Err(SlowDown);
      }
      file := file + data;
    }
    assert frames[..|frames|] == frames;
    return Ok(file);
  }

  /** The blocks issued so far are the first ones of the cut; `offset` is where the next one starts. */
  ghost predicate Cutting(tasks: seq<Uploaded>, uploaded: seq<Uploaded>, offset: int, file: Bytes, config: Config,
                          world: World,
                          issued: seq<Uploaded>)
  {
    && WellCut(issued, file, |file|, config.chunkSize, world.rowId)
    && 0 <= offset == End(issued) <= |file|
    && multiset(tasks) + multiset(uploaded) == multiset(issued)
    && |tasks| < Max(config.concurrency, 1)
  }

  /** Starts one task for each block, never more at a time than the concurrency allows. */
  method UploadSpooled(file: Bytes, config: Config, world: World) returns (r: Result<seq<Uploaded>, Error>)
    requires |file| <= I64_MAX
    ensures r.Ok? ==> multiset(r.value) == multiset(Cut(file, config.chunkSize, world.rowId))
    ensures r.Ok? ==> config.chunkSize > 0 || file == []
    ensures r.Err? ==> r.error != InvalidLayout
    ensures (config.chunkSize > 0 || file == []) && K.WorldServes(world) ==> r.Ok?
  {
    var tasks: seq<Uploaded>, uploaded: seq<Uploaded> := [], [];
    var failure: Option<Error> := None;
    var offset: i64, ordinal: nat := 0, 0;
    ghost var issued: seq<Uploaded> := [];
    while offset < |file| && failure.None?
      invariant failure.None? ==> Cutting(tasks, uploaded, offset, file, config, world, issued) && ordinal == |issued|
      invariant failure.Some? ==> failure == Some(TaskFailed) && !K.WorldServes(world)
      decreases |file| - offset, failure.None?
    {
      var size := BlockSize(config.chunkSize, offset, |file|);
      if size.Err? {
        return Err(size.error);
      }
      var block := Uploaded(world.rowId(ordinal), ordinal, offset, size.value, file[offset..offset + size.value]);
      WellCutExtends(issued, block, file, |file|, config.chunkSize, world.rowId);
      tasks := tasks + [block];
      issued := issued + [block];
      ordinal := ordinal + 1;
      offset := offset + size.value;
      if |tasks| >= config.concurrency {
        tasks, uploaded, failure := ReapOne(tasks, uploaded, world);
      }
    }
    var failed;
    uploaded, failed := DrainTasks(tasks, uploaded, failure, world);
    if failed.Some? {
      return Err(failed.value);
    }
    K.WholeCut(issued, file, config, world);
    return Ok(uploaded);
  }

  method UploadUnknownLength(frames: seq<Frame>, config: Config, world: World) returns (r: Result<(seq<Uploaded>,
                             i64), Error>)
    ensures r.Ok? ==> multiset(r.value.0) == multiset(Cut(Joined(frames), config.chunkSize, world.rowId))
    ensures r.Ok? ==> r.value.1 == |Joined(frames)| <= Max(config.maxObjectSize, 0)
    ensures r.Ok? ==> (forall f :: 0 <= f < |frames| ==> frames[f].Data?) && (config.chunkSize > 0 || Joined(frames) == [])
    ensures r.Err? ==> r.error != InvalidLayout
    ensures Good(frames, config, world) ==> r.Ok?
  {
    var file := SpoolBody(frames, config, world);
    if file.Err? {
      return Err(file.error);
    }
    var blocks := UploadSpooled(file.value, config, world);
    if blocks.Err? {
      return Err(blocks.error);
    }
    return Ok((blocks.value, |file.value|));
  }
}

/** One part upload, by either splitter, as the pieces of a part. */
module PartUpload {
  import opened Prelude
  import opened Splitter
  import Schema
  import K = KnownLength
  import S = Spooled

  type Piece = Schema.Piece

  function ToPiece(b: Uploaded): Piece
    requires 0 <= b.offset <= I64_MAX && 0 <= b.size <= I64_MAX
  {
    Schema.Piece(b.id, b.offset, b.size)
  }

  /** Every block lies within a body of 64-bit size. */
  predicate InRange(blocks: seq<Uploaded>) {
    forall k :: 0 <= k < |blocks| ==> 0 <= blocks[k].offset <= I64_MAX && 0 <= blocks[k].size <= I64_MAX
  }

  function ToPieces(blocks: seq<Uploaded>): (pieces: seq<Piece>)
    requires InRange(blocks)
    ensures |pieces| == |blocks|
    ensures forall k :: 0 <= k < |blocks| ==> pieces[k] == ToPiece(blocks[k])
  {
    if |blocks| == 0 then []
    else
      assert forall k :: 0 <= k < |blocks| - 1 ==> blocks[..|blocks| - 1][k] == blocks[k];
      ToPieces(blocks[..|blocks| - 1]) + [ToPiece(blocks[|blocks| - 1])]
  }

  /** Block `k` of a cut that starts at `offset`: where it lies, what it holds, and that only the last may be short. */
  ghost predicate Shaped(blocks: seq<Uploaded>, k: nat, body: Bytes, chunkSize: nat, rowId: nat -> BlockId,
                         offset: nat, ordinal: nat)
    requires k < |blocks|
  {
    var b := blocks[k];
    && b.ordinal == ordinal + k && b.id == rowId(ordinal + k)
    && b.offset == (if k == 0 then offset else blocks[k - 1].offset + blocks[k - 1].size)
    && offset <= b.offset < b.offset + b.size <= |body|
    && b.content == body[b.offset..b.offset + b.size]
    && (if k < |blocks| - 1 then b.size == chunkSize else b.size <= chunkSize && b.offset + b.size == |body|)
  }

  lemma {:induction false} CutShape(body: Bytes, chunkSize: nat, rowId: nat -> BlockId, offset: nat, ordinal: nat)
    requires chunkSize > 0
    ensures var blocks := CutFrom(body, chunkSize, rowId, offset, ordinal);
      && (offset < |body| <==> |blocks| > 0)
      && (forall k :: 0 <= k < |blocks| ==> Shaped(blocks, k, body, chunkSize, rowId, offset, ordinal))
    decreases |body| - offset
  {
    if offset < |body| {
      var size := Min(chunkSize, |body| - offset);
      CutShape(body, chunkSize, rowId, offset + size, ordinal + 1);
      var rest := CutFrom(body, chunkSize, rowId, offset + size, ordinal + 1);
      var first := Uploaded(rowId(ordinal), ordinal, offset, size, body[offset..offset + size]);
      var blocks := [first] + rest;
      forall k | 0 <= k < |blocks| ensures Shaped(blocks, k, body, chunkSize, rowId, offset, ordinal) {
        if k > 0 {
          ShapedAfter(first, rest, k - 1, body, chunkSize, rowId, offset, ordinal);
        }
      }
    }
  }

  lemma ShapedAfter(first: Uploaded, rest: seq<Uploaded>, k: nat, body: Bytes, chunkSize: nat, rowId: nat -> BlockId,
                    offset: nat, ordinal: nat)
    requires k < |rest| && first.offset == offset && 0 < first.size
    requires Shaped(rest, k, body, chunkSize, rowId, offset + first.size, ordinal + 1)
    ensures Shaped([first] + rest, k + 1, body, chunkSize, rowId, offset, ordinal)
  {
  }

  lemma CutInRange(body: Bytes, chunkSize: nat, rowId: nat -> BlockId)
    requires |body| <= I64_MAX
    ensures InRange(Cut(body, chunkSize, rowId))
  {
    if chunkSize > 0 {
      CutShape(body, chunkSize, rowId, 0, 0);
      var blocks := Cut(body, chunkSize, rowId);
      forall k | 0 <= k < |blocks| ensures 0 <= blocks[k].offset <= I64_MAX && 0 <= blocks[k].size <= I64_MAX {
        assert Shaped(blocks, k, body, chunkSize, rowId, 0, 0);
      }
    }
  }

  lemma {:induction false} SizeUpTo(body: Bytes, chunkSize: nat, rowId: nat -> BlockId, n: nat)
    requires chunkSize > 0 && |body| <= I64_MAX && n <= |Cut(body, chunkSize, rowId)|
    ensures InRange(Cut(body, chunkSize, rowId))
    ensures Schema.TotalSize(ToPieces(Cut(body, chunkSize, rowId))[..n]) == End(Cut(body, chunkSize, rowId)[..n])
  {
    CutInRange(body, chunkSize, rowId);
    var blocks := Cut(body, chunkSize, rowId);
    if n > 0 {
      SizeUpTo(body, chunkSize, rowId, n - 1);
      CutShape(body, chunkSize, rowId, 0, 0);
      assert Shaped(blocks, n - 1, body, chunkSize, rowId, 0, 0);
      assert ToPieces(blocks)[..n][..n - 1] == ToPieces(blocks)[..n - 1];
    }
  }

  lemma CutContiguous(body: Bytes, chunkSize: nat, rowId: nat -> BlockId)
    requires |body| <= I64_MAX && chunkSize > 0 && InRange(Cut(body, chunkSize, rowId))
    ensures Schema.Contiguous(ToPieces(Cut(body, chunkSize, rowId)))
  {
    var blocks := Cut(body, chunkSize, rowId);
    var pieces := ToPieces(blocks);
    CutShape(body, chunkSize, rowId, 0, 0);
    forall k | 0 <= k < |pieces| ensures pieces[k].size > 0 && pieces[k].offset == Schema.TotalSize(pieces[..k]) {
      assert Shaped(blocks, k, body, chunkSize, rowId, 0, 0);
      SizeUpTo(body, chunkSize, rowId, k);
    }
  }

  lemma CutDistinct(body: Bytes, chunkSize: nat, rowId: nat -> BlockId)
    requires chunkSize > 0 && InRange(Cut(body, chunkSize, rowId))
    requires forall i: nat, j: nat :: i != j ==> rowId(i) != rowId(j)
    ensures Schema.Distinct(ToPieces(Cut(body, chunkSize, rowId)))
  {
    var blocks := Cut(body, chunkSize, rowId);
    CutShape(body, chunkSize, rowId, 0, 0);
    forall k | 0 <= k < |blocks| ensures blocks[k].id == rowId(k) {
      assert Shaped(blocks, k, body, chunkSize, rowId, 0, 0);
    }
  }

  lemma CutTotal(body: Bytes, chunkSize: nat, rowId: nat -> BlockId)
    requires |body| <= I64_MAX && chunkSize > 0 && InRange(Cut(body, chunkSize, rowId))
    ensures Schema.TotalSize(ToPieces(Cut(body, chunkSize, rowId))) == |body|
  {
    var blocks := Cut(body, chunkSize, rowId);
    var pieces := ToPieces(blocks);
    CutShape(body, chunkSize, rowId, 0, 0);
    SizeUpTo(body, chunkSize, rowId, |pieces|);
    assert pieces[..|pieces|] == pieces && blocks[..|blocks|] == blocks;
    if |blocks| > 0 {
      assert Shaped(blocks, |blocks| - 1, body, chunkSize, rowId, 0, 0);
    }
  }

  /** The pieces of a cut always pass `validate_parts_layout`: contiguous, distinct, and as long as the body. */
  lemma CutLayoutIsValid(body: Bytes, chunkSize: nat, rowId: nat -> BlockId)
    requires |body| <= I64_MAX && (chunkSize > 0 || body == [])
    requires forall i: nat, j: nat :: i != j ==> rowId(i) != rowId(j)
    ensures InRange(Cut(body, chunkSize, rowId))
    ensures Schema.ValidLayout(ToPieces(Cut(body, chunkSize, rowId)), |body|)
  {
    CutInRange(body, chunkSize, rowId);
    if chunkSize > 0 {
      CutContiguous(body, chunkSize, rowId);
      CutDistinct(body, chunkSize, rowId);
      CutTotal(body, chunkSize, rowId);
    }
  }

  /** The error of an upload, or the part it made. */
  method UploadPart(frames: seq<Frame>, expected: Option<i64>, config: Config, world: World)
    returns (r: Result<(seq<Uploaded>, i64), Error>)
    ensures r.Ok? ==> r.value.0 == Cut(Joined(frames), config.chunkSize, world.rowId)
    ensures r.Ok? ==> r.value.1 == |Joined(frames)| && (config.chunkSize > 0 || Joined(frames) == [])
    ensures r.Ok? ==> (forall f :: 0 <= f < |frames| ==> frames[f].Data?)
    ensures r.Err? ==> r.error != InvalidLayout
    ensures expected.Some? && K.Good(frames, expected.value, config, world) ==> r.Ok?
    ensures expected.None? && S.Good(frames, config, world) ==> r.Ok?
  {
    var blocks: seq<Uploaded>, total: i64;
    match expected {
      case Some(length) =>
        var known := K.UploadKnownLength(frames, length, config, world);
        if known.Err? {
          return Err(known.error);
        }
        blocks, total := known.value, length;
      case None =>
        var spooled := S.UploadUnknownLength(frames, config, world);
        if spooled.Err? {
          return Err(spooled.error);
        }
        blocks, total := spooled.value.0, spooled.value.1;
    }
    var sorted := SortByOrdinal(blocks);
    var body := Joined(frames);
    if config.chunkSize > 0 {
      CutShape(body, config.chunkSize, world.rowId, 0, 0);
      var cut := Cut(body, config.chunkSize, world.rowId);
      forall k | 0 <= k < |cut| ensures cut[k].ordinal == k {
        assert Shaped(cut, k, body, config.chunkSize, world.rowId, 0, 0);
      }
    }
    SortedIsIssued(sorted, Cut(body, config.chunkSize, world.rowId), 0);
    return Ok((sorted, total));
  }
}
