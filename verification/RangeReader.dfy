/** Reading a byte range of an object out of the messages that hold its blocks. */
module RangeReader {
  import opened Prelude
  import opened Splitter
  import opened ExactRange
  import Schema

  type Piece = Schema.Piece

  /** The answer of Telegram to a download: a source with the bytes to skip in it, or a failure. */
  datatype Fetched = Fetched(items: seq<Item>, skip: nat) | Refused

  /** The outside world of one read, by block: free download slots, answers, and the bandwidth limiter by chunk. */
  datatype World = World(slotOpen: nat -> bool, fetch: nat -> Fetched, admits: nat -> bool)

  /** What `download_stream` is asked for: the part of block `k` within start..=end, relative to the block. */
  function ReadStart(piece: Piece, start: int): int {
    Max(start, piece.offset) - piece.offset
  }

  function ReadEnd(piece: Piece, end: int): int {
    Min(end, piece.offset + piece.size - 1) - piece.offset
  }

  predicate Skipped(piece: Piece, start: int, end: int) {
    piece.offset + piece.size - 1 < start || piece.offset > end
  }

  predicate Stored(pieces: seq<Piece>, docs: seq<Bytes>) {
    |pieces| == |docs| && forall k :: 0 <= k < |pieces| ==> pieces[k].size == |docs[k]| > 0
  }

  /** The bytes of block `k` that belong to start..=end. */
  function Clip(piece: Piece, doc: Bytes, start: int, end: int): Bytes
    requires piece.size == |doc| > 0
  {
    if Skipped(piece, start, end) || start > end then [] else doc[ReadStart(piece, start)..ReadEnd(piece, end) + 1]
  }

  function Clips(pieces: seq<Piece>, docs: seq<Bytes>, start: int, end: int, k: nat): Bytes
    requires Stored(pieces, docs) && k <= |pieces|
    decreases |pieces| - k
  {
    if k == |pieces| then [] else Clip(pieces[k], docs[k], start, end) + Clips(pieces, docs, start, end, k + 1)
  }

  /** Telegram never answers with wrong bytes, though it may refuse or stop early. */
  ghost predicate Truthful(pieces: seq<Piece>, docs: seq<Bytes>, start: int, end: int, world: World)
    requires Stored(pieces, docs)
  {
    forall k :: 0 <= k < |pieces| && world.fetch(k).Fetched? && !Skipped(pieces[k], start, end) ==>
      var clip := Clip(pieces[k], docs[k], start, end);
      Expected(world.fetch(k).items, world.fetch(k).skip, |clip|) <= clip
  }

  /** Nothing is refused and no source is short. */
  ghost predicate Healthy(pieces: seq<Piece>, docs: seq<Bytes>, start: int, end: int, world: World)
    requires Stored(pieces, docs)
  {
    && (forall k: nat :: world.slotOpen(k) && world.admits(k) && world.fetch(k).Fetched?)
    && (forall k :: 0 <= k < |pieces| && !Skipped(pieces[k], start, end) ==>
          var clip := Clip(pieces[k], docs[k], start, end);
          Expected(world.fetch(k).items, world.fetch(k).skip, |clip|) == clip)
  }

  // ---- what Telegram's ways of fetching give ----

  /** An answer by one of the ways of fetching, with the skip that it uses; the source may stop early. */
  ghost predicate Serves(answer: Fetched, document: Bytes, start: int, end: int)
    requires 0 <= start <= end < |document|
  {
    answer.Fetched? ==> exists way: Fetch :: ServesBy(way, answer, document, start)
  }

  ghost predicate ServesBy(way: Fetch, answer: Fetched, document: Bytes, start: int)
    requires 0 <= start < |document| && answer.Fetched?
  {
    && answer.skip == start - Origin(way, start)
    && Available(answer.items) <= document[Origin(way, start)..]
  }

  /** An answer whose source does not stop before the range is complete. */
  ghost predicate ServesAll(answer: Fetched, document: Bytes, start: int, end: int)
    requires 0 <= start <= end < |document|
  {
    && answer.Fetched? && Serves(answer, document, start, end)
    && |Available(answer.items)| > answer.skip + end - start
  }

  lemma WindowOfPrefix(a: Bytes, b: Bytes, skip: nat, length: nat)
    requires a <= b
    ensures Window(a, skip, length) <= Window(b, skip, length)
    ensures |a| >= skip + length ==> Window(a, skip, length) == Window(b, skip, length)
  {
  }

  /** Whichever way is used, what it delivers is the start of the requested range, and all of it from a long source. */
  lemma ServedRange(answer: Fetched, document: Bytes, start: int, end: int)
    requires 0 <= start <= end < |document| && answer.Fetched? && Serves(answer, document, start, end)
    ensures Expected(answer.items, answer.skip, end - start + 1) <= document[start..end + 1]
    ensures ServesAll(answer, document, start, end) ==>
      Expected(answer.items, answer.skip, end - start + 1) == document[start..end + 1]
  {
    var way: Fetch :| ServesBy(way, answer, document, start);
    var source := document[Origin(way, start)..];
    EveryFetchGivesTheRange(document, way, start, end, source);
    WindowOfPrefix(Available(answer.items), source, answer.skip, end - start + 1);
  }

  /** Every block that overlaps the range is asked for a proper range of its document. */
  lemma AskedRange(piece: Piece, doc: Bytes, start: int, end: int)
    requires piece.size == |doc| > 0 && start <= end && !Skipped(piece, start, end)
    ensures 0 <= ReadStart(piece, start) <= ReadEnd(piece, end) < |doc|
    ensures Clip(piece, doc, start, end) == doc[ReadStart(piece, start)..ReadEnd(piece, end) + 1]
  {
  }

  /** The answers of Telegram to the requests of one read. */
  ghost predicate WorldServes(pieces: seq<Piece>, docs: seq<Bytes>, start: int, end: int, world: World, all: bool)
    requires Stored(pieces, docs) && start <= end
  {
    forall k :: 0 <= k < |pieces| && !Skipped(pieces[k], start, end) ==>
      var from, to := ReadStart(pieces[k], start), ReadEnd(pieces[k], end);
      if all then ServesAll(world.fetch(k), docs[k], from, to) else Serves(world.fetch(k), docs[k], from, to)
  }

  lemma ServedClip(piece: Piece, doc: Bytes, start: int, end: int, answer: Fetched)
    requires piece.size == |doc| > 0 && start <= end && !Skipped(piece, start, end) && answer.Fetched?
    requires Serves(answer, doc, ReadStart(piece, start), ReadEnd(piece, end))
    ensures var clip := Clip(piece, doc, start, end); Expected(answer.items, answer.skip, |clip|) <= clip
    ensures ServesAll(answer, doc, ReadStart(piece, start), ReadEnd(piece, end)) ==>
      var clip := Clip(piece, doc, start, end); Expected(answer.items, answer.skip, |clip|) == clip
  {
    AskedRange(piece, doc, start, end);
    ServedRange(answer, doc, ReadStart(piece, start), ReadEnd(piece, end));
  }

  /** Serving by the ways of fetching is what `ReadRange` asks of the world. */
  lemma ServedWorldIsTruthful(pieces: seq<Piece>, docs: seq<Bytes>, start: int, end: int, world: World)
    requires Stored(pieces, docs) && start <= end && WorldServes(pieces, docs, start, end, world, false)
    ensures Truthful(pieces, docs, start, end, world)
  {
    forall k | 0 <= k < |pieces| && world.fetch(k).Fetched? && !Skipped(pieces[k], start, end)
      ensures var clip := Clip(pieces[k], docs[k], start, end);
        Expected(world.fetch(k).items, world.fetch(k).skip, |clip|) <= clip
    {
      ServedClip(pieces[k], docs[k], start, end, world.fetch(k));
    }
  }

  lemma ServedWorldIsHealthy(pieces: seq<Piece>, docs: seq<Bytes>, start: int, end: int, world: World)
    requires Stored(pieces, docs) && start <= end && WorldServes(pieces, docs, start, end, world, true)
    requires forall k: nat :: world.slotOpen(k) && world.admits(k) && world.fetch(k).Fetched?
    ensures Healthy(pieces, docs, start, end, world)
  {
    forall k | 0 <= k < |pieces| && !Skipped(pieces[k], start, end)
      ensures var clip := Clip(pieces[k], docs[k], start, end);
        Expected(world.fetch(k).items, world.fetch(k).skip, |clip|) == clip
    {
      ServedClip(pieces[k], docs[k], start, end, world.fetch(k));
    }
  }

  lemma TakeFromFront(owed: Bytes, pending: Bytes, bytes: Bytes, rest: Bytes, later: Bytes)
    requires pending == bytes + rest && pending <= owed
    ensures |bytes| <= |owed| && owed + later == bytes + (owed[|bytes|..] + later) && rest <= owed[|bytes|..]
    ensures pending == owed ==> rest == owed[|bytes|..]
  {
    assert owed == bytes + owed[|bytes|..];
  }

  class RangeStream {
    const pieces: seq<Piece>
    ghost const docs: seq<Bytes>
    const start: int
    const end: int
    const world: World
    var index: nat
    var current: ExactStream?
    var terminated: bool
    var emitted: nat
    ghost var owed: Bytes  // what the current block still has to deliver

    constructor (pieces: seq<Piece>, ghost docs: seq<Bytes>, start: int, end: int, world: World)
      requires Stored(pieces, docs) && start <= end
      ensures this.pieces == pieces && this.docs == docs && this.start == start && this.end == end && this.world == world
      ensures Valid() && !terminated && current == null
      ensures Rest() == Clips(pieces, docs, start, end, 0)
    {
      this.pieces, this.docs, this.start, this.end, this.world := pieces, docs, start, end, world;
      index, current, terminated, emitted, owed := 0, null, false, 0, [];
    }

    ghost predicate Valid()
      reads this, current
    {
      && Stored(pieces, docs) && index <= |pieces| && start <= end
      && (current == null ==> owed == [])
      && (current != null && !terminated ==> OnTrack(current))
    }

    ghost predicate OnTrack(stream: ExactStream)
      requires Stored(pieces, docs)
      reads this, stream
    {
      && !stream.terminated && |owed| == stream.remaining && stream.Pending() <= owed
      && (Healthy(pieces, docs, start, end, world) ==> stream.Pending() == owed)
    }

    /** The bytes of the range that are still to come. */
    ghost function Rest(): Bytes
      requires Stored(pieces, docs) && index <= |pieces|
      reads this
    {
      owed + Clips(pieces, docs, start, end, index)
    }

    function SourceLeft(): nat
      reads this, current
    {
      if current == null then 0 else 1 + |current.source|
    }

    /** Asks the current source for its next chunk; None when the block is done. */
    method PullCurrent() returns (r: Option<Result<Bytes, ()>>)
      requires Valid() && !terminated && current != null
      modifies this, current
      ensures Valid() && index == old(index)
      ensures r.None? ==> current == null && !terminated && Rest() == old(Rest())
      ensures r.Some? ==> current == old(current)
      ensures r.Some? && r.value.Ok? ==>
        !terminated && r.value.value != [] && old(Rest()) == r.value.value + Rest() && SourceLeft() < old(SourceLeft())
      ensures r.Some? && r.value.Err? ==> terminated && !Healthy(pieces, docs, start, end, world)
    {
      ghost var before := current.Pending();
      r := current.Next();
      match r {
        case Some(Ok(bytes)) =>
          TakeFromFront(owed, before, bytes, current.Pending(), Clips(pieces, docs, start, end, index));
          owed := owed[|bytes|..];
          if !world.admits(emitted) {
            terminated := true;
            return Some(Err(()));
          }
          emitted := emitted + 1;
        case Some(Err(_)) =>
          terminated := true;
        case None =>
          current := null;
      }
    }

    /** Moves on to the next block, opening its source if it overlaps the range. */
    method OpenNext() returns (ok: bool)
      requires Valid() && !terminated && current == null && index < |pieces|
      requires Truthful(pieces, docs, start, end, world)
      modifies this
      ensures Valid() && index == old(index) + 1
      ensures current == null || fresh(current)
      ensures ok ==> !terminated && Rest() == old(Rest())
      ensures !ok ==> terminated && !Healthy(pieces, docs, start, end, world)
    {
      var k := index;
      index := index + 1;
      if Skipped(pieces[k], start, end) {
        return true;
      }
      if !world.slotOpen(k) {
        terminated := true;
        return false;
      }
      var fetched := world.fetch(k);
      if fetched.Refused? {
        terminated := true;
        return false;
      }
      owed := Clip(pieces[k], docs[k], start, end);
      current := new ExactStream(fetched.items, fetched.skip, ReadEnd(pieces[k], end) - ReadStart(pieces[k], start) + 1);
      return true;
    }

    /** The next chunk of the range, an error, or the end of the body. */
    method Next() returns (r: Option<Result<Bytes, ()>>)
      requires Valid() && Truthful(pieces, docs, start, end, world)
      modifies this, current
      ensures Valid()
      ensures current == null || current == old(current) || fresh(current)
      ensures r.None? ==> terminated == old(terminated) && (!terminated ==> Rest() == old(Rest()) == [])
      ensures r.Some? && r.value.Ok? ==> !terminated && r.value.value != [] && old(Rest()) == r.value.value + Rest()
      ensures r.Some? && r.value.Err? ==> terminated && !Healthy(pieces, docs, start, end, world)
      ensures r.Some? ==> !old(terminated)
      ensures r.Some? && r.value.Ok? ==>
        index > old(index) || (index == old(index) && SourceLeft() < old(SourceLeft()))
    {
      if terminated {
        return None;
      }
      while true
        invariant Valid() && !terminated
        invariant current == null || current == old(current) || fresh(current)
        invariant Rest() == old(Rest())
        invariant index > old(index) || (index == old(index) && SourceLeft() <= old(SourceLeft()))
        decreases |pieces| - index
      {
        if current != null {
          r := PullCurrent();
          if r.Some? {
            return r;
          }
        }
        if index >= |pieces| {
          return None;
        }
        var ok := OpenNext();
        if !ok {
          return Some(Err(()));
        }
      }
      return None;
    }
  }

  /** One turn of the loop that reads a body to its end. */
  method ReadStep(stream: RangeStream, out: Bytes) returns (out': Bytes, more: bool, failed: bool)
    requires stream.Valid() && !stream.terminated
    requires Truthful(stream.pieces, stream.docs, stream.start, stream.end, stream.world)
    modifies stream, stream.current
    ensures stream.Valid()
    ensures stream.current == null || stream.current == old(stream.current) || fresh(stream.current)
    ensures more ==> !failed && !stream.terminated && out' + stream.Rest() == old(out + stream.Rest())
    ensures more ==>
      || stream.index > old(stream.index)
      || (stream.index == old(stream.index) && stream.SourceLeft() < old(stream.SourceLeft()))
    ensures !more && !failed ==> out' == old(out + stream.Rest())
    ensures failed ==> out' <= old(out + stream.Rest())
    ensures failed ==> !Healthy(stream.pieces, stream.docs, stream.start, stream.end, stream.world)
  {
    hide Truthful, Healthy, Clips;
    ghost var rest := stream.Rest();
    var r := stream.Next();
    match r {
      case None =>
        assert out + [] == out;
        return out, false, false;
      case Some(Err(_)) =>
        assert out <= out + rest;
        return out, false, true;
      case Some(Ok(bytes)) =>
        assert out + (bytes + stream.Rest()) == (out + bytes) + stream.Rest();
        return out + bytes, true, false;
    }
  }

  /** Reading a range to its end gives a prefix of the wanted bytes, and all of them unless an error is reported. */
  method ReadRange(pieces: seq<Piece>, ghost docs: seq<Bytes>, start: int, end: int, world: World)
    returns (out: Bytes, failed: bool)
    requires Stored(pieces, docs) && start <= end
    requires Truthful(pieces, docs, start, end, world)
    ensures out <= Clips(pieces, docs, start, end, 0)
    ensures !failed ==> out == Clips(pieces, docs, start, end, 0)
    ensures Healthy(pieces, docs, start, end, world) ==> !failed
  {
    var stream := new RangeStream(pieces, docs, start, end, world);
    ghost var wanted := stream.Rest();
    var more: bool;
    out, more, failed := [], true, false;
    while more
      invariant fresh(stream) && (stream.current != null ==> fresh(stream.current))
      invariant stream.Valid()
      invariant more ==> !failed && !stream.terminated && out + stream.Rest() == wanted
      invariant !more && !failed ==> out == wanted
      invariant failed ==> out <= wanted && !Healthy(pieces, docs, start, end, world)
      decreases more, |pieces| - stream.index, stream.SourceLeft()
    {
      out, more, failed := ReadStep(stream, out);
    }
  }
}
