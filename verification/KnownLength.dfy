/** Uploading a body of announced length while it arrives, one pipe at a time. */
module KnownLength {
  import opened Prelude
  import opened Splitter

  /** The block being filled: an upload task with an open pipe. */
  datatype Pipe = Pipe(ordinal: nat, offset: i64, size: int, written: Bytes)

  datatype Progress = Progress(tasks: seq<Uploaded>, uploaded: seq<Uploaded>, current: Option<Pipe>, ordinal: nat, offset: i64)

  const START := Progress([], [], None, 0, 0)

  /** The blocks finished so far are a well-formed cut, and the open pipe holds the rest of what was received. */
  ghost predicate Going(s: Progress, issued: seq<Uploaded>, received: Bytes, total: i64, config: Config, world: World) {
    && WellCut(issued, received, total, config.chunkSize, world.rowId)
    && multiset(s.tasks) + multiset(s.uploaded) == multiset(issued)
    && s.offset == End(issued) && 0 <= s.offset
    && match s.current
       case None => s.ordinal == |issued| && s.offset == |received|
       case Some(pipe) =>
         && s.ordinal == |issued| + 1 && pipe.ordinal == |issued| && pipe.offset == s.offset
         && 0 < pipe.size == Min(config.chunkSize, total - s.offset)
         && |pipe.written| < pipe.size && s.offset <= |received| && pipe.written == received[s.offset..]
  }

  /** The announced length is in range and everything outside works. */
  ghost predicate Good(frames: seq<Frame>, total: i64, config: Config, world: World) {
    && (forall f :: 0 <= f < |frames| ==> frames[f].Data? && (frames[f].bytes == [] || world.admits(f)))
    && |Joined(frames)| == total && total <= config.maxObjectSize
    && (config.chunkSize > 0 || total == 0)
    && WorldServes(world)
  }

  ghost predicate WorldServes(world: World) {
    forall k: nat :: world.pipeOk(k) && world.taskOk(k)
  }

  function Finished(pipe: Pipe, world: World): Uploaded {
    Uploaded(world.rowId(pipe.ordinal), pipe.ordinal, pipe.offset, pipe.size, pipe.written)
  }

  /** A pipe that is filled to its size, before its block joins the finished ones. */
  ghost predicate Full(s: Progress, issued: seq<Uploaded>, received: Bytes, total: i64, config: Config, world: World) {
    && s.current.Some?
    && multiset(s.tasks) + multiset(s.uploaded) == multiset(issued)
    && s.ordinal == |issued| + 1 && 0 <= s.offset && s.offset + s.current.value.size == |received| <= total
    && WellCut(issued + [Finished(s.current.value, world)], received, total, config.chunkSize, world.rowId)
    && End(issued + [Finished(s.current.value, world)]) == |received|
  }

  lemma PipeOpens(s: Progress, issued: seq<Uploaded>, received: Bytes, total: i64, config: Config, world: World)
    requires Going(s, issued, received, total, config, world) && s.current.None? && |received| < total
    ensures var size := BlockSize(config.chunkSize, s.offset, total);
      if config.chunkSize == 0 then size == Err(ZeroChunkSize)
      else size.Ok? && Going(s.(current := Some(Pipe(s.ordinal, s.offset, size.value, [])), ordinal := s.ordinal + 1),
                             issued, received, total, config, world)
  {
  }

  lemma PipeFills(s: Progress, issued: seq<Uploaded>, received: Bytes, piece: Bytes, total: i64, config: Config,
                  world: World)
    requires Going(s, issued, received, total, config, world) && s.current.Some?
    requires |s.current.value.written| + |piece| <= s.current.value.size && |received| + |piece| <= total
    ensures var pipe := s.current.value.(written := s.current.value.written + piece);
      var s' := s.(current := Some(pipe));
      if |pipe.written| < pipe.size then Going(s', issued, received + piece, total, config, world)
      else Full(s', issued, received + piece, total, config, world)
  {
    WellCutGrows(issued, received, piece, total, config.chunkSize, world.rowId);
    var pipe := s.current.value.(written := s.current.value.written + piece);
    var all := received + piece;
    assert all[s.offset..] == received[s.offset..] + piece;
    if |pipe.written| == pipe.size {
      assert all[s.offset..s.offset + pipe.size] == all[s.offset..];
      WellCutExtends(issued, Finished(pipe, world), all, total, config.chunkSize, world.rowId);
    }
  }

  /** A failure while feeding is never a layout error and always has a cause outside. */
  predicate FeedFailure(failure: Error, config: Config) {
    failure != InvalidLayout && (failure == ZeroChunkSize ==> config.chunkSize == 0)
  }

  /** Opens a pipe for the next block unless one is open. */
  method OpenPipe(s0: Progress, total: i64, config: Config, world: World, ghost issued: seq<Uploaded>,
                  ghost received: Bytes)
    returns (s: Progress, failure: Option<Error>)
    requires Going(s0, issued, received, total, config, world) && |received| < total
    ensures s.tasks == s0.tasks
    ensures failure.None? ==> s.current.Some? && Going(s, issued, received, total, config, world)
    ensures failure.Some? ==> failure.value == ZeroChunkSize && config.chunkSize == 0
  {
    s, failure := s0, None;
    if s.current.None? {
      PipeOpens(s, issued, received, total, config, world);
      var size := BlockSize(config.chunkSize, s.offset, total);
      if size.Err? {
        return s, Some(size.error);
      }
      s := s.(current := Some(Pipe(s.ordinal, s.offset, size.value, [])), ordinal := s.ordinal + 1);
    }
  }

  /** Writes as much of the frame as the open pipe takes. */
  method FillPipe(data: Bytes, position: nat, s0: Progress, total: i64, config: Config, world: World,
                  ghost issued0: seq<Uploaded>, ghost received: Bytes)
    returns (s: Progress, amount: nat, failure: Option<Error>, ghost issued: seq<Uploaded>)
    requires position < |data| && s0.current.Some? && |received| + |data| - position <= total
    requires Going(s0, issued0, received, total, config, world) && |s0.tasks| < Max(config.concurrency, 1)
    ensures 0 < amount <= |data| - position
    ensures failure.None? ==> Going(s, issued, received + data[position..position + amount], total, config, world)
    ensures failure.None? ==> |s.tasks| < Max(config.concurrency, 1)
    ensures failure.Some? ==> FeedFailure(failure.value, config) && failure.value != ZeroChunkSize && !WorldServes(world)
  {
    s, failure, issued := s0, None, issued0;
    var pipe := s.current.value;
    amount := Min(pipe.size - |pipe.written|, |data| - position);
    if !world.pipeOk(pipe.ordinal) {
      return s, amount, Some(PipeFailed), issued;
    }
    var piece := data[position..position + amount];
    PipeFills(s, issued, received, piece, total, config, world);
    pipe := pipe.(written := pipe.written + piece);
    s := s.(current := Some(pipe));
    if |pipe.written| == pipe.size {
      s, failure, issued := Complete(s, pipe, total, config, world, issued, received + piece);
    }
  }

  /** The loop over the bytes of one frame. */
  method Feed(data: Bytes, s0: Progress, total: i64, config: Config, world: World,
              ghost issued0: seq<Uploaded>, ghost before: Bytes)
    returns (s: Progress, failure: Option<Error>, ghost issued: seq<Uploaded>)
    requires Going(s0, issued0, before, total, config, world) && |before| + |data| <= total
    requires |s0.tasks| < Max(config.concurrency, 1)
    ensures failure.None? ==> Going(s, issued, before + data, total, config, world)
    ensures failure.None? ==> |s.tasks| < Max(config.concurrency, 1)
    ensures failure.Some? ==> FeedFailure(failure.value, config) && data != []
    ensures failure.Some? && failure.value != ZeroChunkSize ==> !WorldServes(world)
  {
    s, failure, issued := s0, None, issued0;
    var position: nat := 0;
    assert before + data[..0] == before;
    while position < |data|
      invariant position <= |data| && failure.None?
      invariant Going(s, issued, before + data[..position], total, config, world)
      invariant |s.tasks| < Max(config.concurrency, 1)
    {
      ghost var received := before + data[..position];
      s, failure := OpenPipe(s, total, config, world, issued, received);
      if failure.Some? {
        return s, failure, issued;
      }
      var amount;
      s, amount, failure, issued := FillPipe(data, position, s, total, config, world, issued, received);
      if failure.Some? {
        return s, failure, issued;
      }
      assert before + data[..position + amount] == received + data[position..position + amount];
      position := position + amount;
    }
    assert data[..|data|] == data;
  }

  /** Hands the full pipe to the set of tasks, reaps one task when it is full, and moves on. */
  method Complete(s0: Progress, pipe: Pipe, total: i64, config: Config, world: World,
                  ghost issued0: seq<Uploaded>, ghost received: Bytes)
    returns (s: Progress, failure: Option<Error>, ghost issued: seq<Uploaded>)
    requires |s0.tasks| < Max(config.concurrency, 1)
    requires s0.current == Some(pipe) && Full(s0, issued0, received, total, config, world)
    ensures failure.None? ==> Going(s, issued, received, total, config, world)
    ensures failure.None? ==> |s.tasks| < Max(config.concurrency, 1)
    ensures failure.Some? ==> failure == Some(TaskFailed) && !WorldServes(world)
  {
    issued := issued0 + [Finished(pipe, world)];
    s := s0.(current := None, tasks := s0.tasks + [Finished(pipe, world)]);
    failure := None;
    if |s.tasks| >= config.concurrency {
      var tasks, uploaded, failed := ReapOne(s.tasks, s.uploaded, world);
      if failed.Some? {
        return s, failed, issued;
      }
      s := s.(tasks := tasks, uploaded := uploaded);
    }
    s := s.(offset := s.offset + pipe.size);
  }

  /** The loop state between frames: the first frames are received, or something has failed for a reason. */
  ghost predicate Receiving(frames: seq<Frame>, f: nat, expected: i64, config: Config, world: World, s: Progress,
                            total: i64,
                            failure: Option<Error>, issued: seq<Uploaded>)
    requires f <= |frames|
  {
    if failure.Some? then failure.value != InvalidLayout && !Good(frames, expected, config, world)
    else
      && total == |Joined(frames[..f])| <= expected
      && (total == 0 || total <= config.maxObjectSize)
      && Going(s, issued, Joined(frames[..f]), expected, config, world)
      && |s.tasks| < Max(config.concurrency, 1)
      && (forall k :: 0 <= k < f ==> frames[k].Data?)
  }

  /** One turn of the loop over the frames. */
  method TakeFrame(frames: seq<Frame>, f: nat, expected: i64, config: Config, world: World, s0: Progress, total0: i64,
                   ghost issued0: seq<Uploaded>)
    returns (s: Progress, total: i64, failure: Option<Error>, ghost issued: seq<Uploaded>)
    requires f < |frames|
    requires Receiving(frames, f, expected, config, world, s0, total0, None, issued0)
    ensures Receiving(frames, f + 1, expected, config, world, s, total, failure, issued)
  {
    s, total, failure, issued := s0, total0, None, issued0;
    assert frames[..f + 1][..f] == frames[..f];
    JoinedPrefix(frames, f + 1);
    match frames[f] {
      case Broken =>
        failure := Some(SourceFailed);
      case Data(data) =>
        var next := if total + |data| <= I64_MAX then Some(total + |data|) else None;
        if next.None? || next.value > config.maxObjectSize {
          failure := Some(EntityTooLarge);
        } else if next.value > expected {
          failure := Some(IncompleteBody);
        } else if data != [] && !world.admits(f) {
          failure := Some(SlowDown);
        } else {
          total := next.value;
          s, failure, issued := Feed(data, s, expected, config, world, issued, Joined(frames[..f]));
          assert Joined(frames[..f + 1]) == Joined(frames[..f]) + data;
        }
    }
  }

  /** After the last frame: close a pipe that is still open, wait for every task, and check the length. */
  method Finish(s: Progress, failure: Option<Error>, total: i64, expected: i64, config: Config, world: World,
                ghost issued: seq<Uploaded>, ghost received: Bytes)
    returns (r: Result<seq<Uploaded>, Error>)
    requires failure.None? ==> total == |received| <= expected && Going(s, issued, received, expected, config, world)
    ensures failure.Some? ==> r == Err(failure.value)
    ensures r.Ok? ==> total == expected && multiset(r.value) == multiset(Cut(received, config.chunkSize, world.rowId))
    ensures r.Ok? ==> config.chunkSize > 0 || received == []
    ensures failure.None? && total == expected && WorldServes(world) ==> r.Ok?
    ensures r.Err? && failure.None? ==> r.error != InvalidLayout
  {
    var tasks, failed := s.tasks, failure;
    if s.current.Some? {
      if world.pipeOk(s.current.value.ordinal) {
        tasks := tasks + [Finished(s.current.value, world)];
      } else if failed.None? {
        failed := Some(PipeFailed);
      }
    }
    var uploaded;
    uploaded, failed := DrainTasks(tasks, s.uploaded, failed, world);
    if failed.Some? {
      return Err(failed.value);
    }
    if total != expected {
      return Err(IncompleteBody);
    }
    WholeCut(issued, received, config, world);
    return Ok(uploaded);
  }

  /**
   * Uploads the body; on success the blocks, put in order, are exactly the reference cut of the whole body.
   * It succeeds whenever the announced length is right and the outside world works.
   */
  method UploadKnownLength(frames: seq<Frame>, expected: i64, config: Config, world: World)
    returns (r: Result<seq<Uploaded>, Error>)
    ensures r.Ok? ==> |Joined(frames)| == expected && (expected == 0 || expected <= config.maxObjectSize)
    ensures r.Ok? ==> multiset(r.value) == multiset(Cut(Joined(frames), config.chunkSize, world.rowId))
    ensures r.Ok? ==> (forall f :: 0 <= f < |frames| ==> frames[f].Data?) && (config.chunkSize > 0 || Joined(frames) == [])
    ensures r.Err? ==> r.error != InvalidLayout
    ensures Good(frames, expected, config, world) ==> r.Ok?
  {
    if expected < 0 {
      return Err(InvalidRequest);
    }
    var s := START;
    var failure: Option<Error> := None;
    var total: i64 := 0;
    ghost var issued: seq<Uploaded> := [];
    var f := 0;
    while f < |frames| && failure.None?
      invariant f <= |frames|
      invariant Receiving(frames, f, expected, config, world, s, total, failure, issued)
    {
      s, total, failure, issued := TakeFrame(frames, f, expected, config, world, s, total, issued);
      f := f + 1;
    }
    assert frames[..|frames|] == frames;
    r := Finish(s, failure, total, expected, config, world, issued, Joined(frames[..f]));
  }

  lemma {:induction false} JoinedPrefix(frames: seq<Frame>, n: nat)
    requires n <= |frames|
    ensures |Joined(frames[..n])| <= |Joined(frames)|
    decreases |frames| - n
  {
    if n == |frames| {
      assert frames[..n] == frames;
    } else {
      assert frames[..n + 1][..n] == frames[..n];
      JoinedPrefix(frames, n + 1);
    }
  }

  lemma WholeCut(issued: seq<Uploaded>, body: Bytes, config: Config, world: World)
    requires WellCut(issued, body, |body|, config.chunkSize, world.rowId) && End(issued) == |body|
    ensures issued == Cut(body, config.chunkSize, world.rowId)
    ensures config.chunkSize > 0 || body == []
  {
    if config.chunkSize == 0 {
      assert |issued| > 0 ==> GoodBlock(issued, 0, body, |body|, config.chunkSize, world.rowId);
    } else {
      WellCutIsCut(issued, 0, body, config.chunkSize, world.rowId);
      assert issued[..0] == [] && issued[0..] == issued;
    }
  }
}
