/** Streaming exactly the requested bytes out of a source that yields them in arbitrary chunks. */
module ExactRange {
  import opened Prelude
  import opened Splitter

  /** One item of a source: a chunk, possibly empty, or an error. A source may also just end. */
  datatype Item = Chunk(bytes: Bytes) | Fault

  /** What the source yields before its first error. */
  function Available(items: seq<Item>): Bytes {
    if |items| == 0 || items[0].Fault? then [] else items[0].bytes + Available(items[1..])
  }

  lemma OneChunk(bytes: Bytes)
    ensures Available([Chunk(bytes)]) == bytes
  {
    assert [Chunk(bytes)][1..] == [] && Available([]) == [];
  }

  /** What a source yields is its chunks in order, up to the first error. */
  lemma {:induction false} ChunksInOrder(a: seq<Item>, b: seq<Item>, bytes: Bytes)
    requires Fault !in a
    ensures Available([Chunk(bytes)]) == bytes
    ensures Available(a + b) == Available(a) + Available(b)
    ensures Available(a + [Fault] + b) == Available(a)
    decreases |a|
  {
    OneChunk(bytes);
    if a == [] {
      assert a + b == b && a + [Fault] + b == [Fault] + b;
    } else {
      ChunksInOrder(a[1..], b, bytes);
      assert a[0] in a && a[0].Chunk?;
      assert (a + b)[1..] == a[1..] + b && (a + [Fault] + b)[1..] == a[1..] + [Fault] + b;
    }
  }

  /** The first `length` bytes after the first `skip`, as far as they exist. */
  function Window(source: Bytes, skip: nat, length: nat): Bytes {
    if skip >= |source| then [] else source[skip..Min(skip + length, |source|)]
  }

  function Expected(items: seq<Item>, skip: nat, length: nat): Bytes {
    Window(Available(items), skip, length)
  }

  /** How the expected bytes change when the first item is consumed. */
  lemma ExpectedStep(items: seq<Item>, skip: nat, length: nat)
    requires items != []
    ensures match items[0]
      case Fault => Expected(items, skip, length) == []
      case Chunk(chunk) =>
        if skip >= |chunk| then Expected(items, skip, length) == Expected(items[1..], skip - |chunk|, length)
        else
          var taken := Min(length, |chunk| - skip);
          && Expected(items, skip, length) == chunk[skip..][..taken] + Expected(items[1..], 0, length - taken)
          && |Expected(items, skip, length)| == taken + |Expected(items[1..], 0, length - taken)|
  {
  }

  class ExactStream {
    var source: seq<Item>
    var skip: nat
    var remaining: nat
    var terminated: bool

    constructor (source: seq<Item>, skip: nat, length: nat)
      ensures this.source == source && this.skip == skip && remaining == length && !terminated
    {
      this.source, this.skip, remaining, terminated := source, skip, length, false;
    }

    /** The bytes that are still to come. */
    ghost function Pending(): Bytes
      reads this
    {
      if terminated then [] else Expected(source, skip, remaining)
    }

    /** The source stops before the range is complete. */
    ghost predicate Short()
      reads this
    {
      !terminated && |Pending()| < remaining
    }

    method Take(chunk: Bytes) returns (r: Bytes)
      modifies `remaining
      ensures r == chunk[..Min(old(remaining), |chunk|)]
      ensures remaining == old(remaining) - |r|
    {
      var length := Min(remaining, |chunk|);
      remaining := remaining - length;
      if length == |chunk| {
        assert chunk[..length] == chunk;
        return chunk;
      }
      return chunk[..length];
    }

    /** Consumes the source up to the first byte that is wanted; what that chunk still holds is `rest`. */
    method Seek() returns (rest: Option<Bytes>)
      requires !terminated && remaining > 0
      modifies `source, `skip
      ensures |source| <= |old(source)|
      ensures match rest
        case None => old(Pending()) == []
        case Some(bytes) =>
          && bytes != [] && skip == 0 && |source| < |old(source)|
          && old(Pending()) == bytes[..Min(remaining, |bytes|)] + Expected(source, 0, remaining - Min(remaining, |bytes|))
    {
      while source != []
        invariant Pending() == old(Pending()) && |source| <= |old(source)|
        decreases |source|
      {
        ExpectedStep(source, skip, remaining);
        var item := source[0];
        source := source[1..];
        if item.Fault? {
          return None;
        }
        var chunk := item.bytes;
        if chunk == [] {
          continue;
        }
        if skip >= |chunk| {
          skip := skip - |chunk|;
          continue;
        }
        rest := Some(chunk[skip..]);
        skip := 0;
        return rest;
      }
      return None;
    }

    /** The next piece of the range, an error, or the end of the stream. */
    method Next() returns (r: Option<Result<Bytes, ()>>)
      modifies this
      ensures r.None? <==> old(terminated) || old(remaining) == 0
      ensures r.None? ==> terminated == old(terminated) && remaining == old(remaining) && source == old(source)
      ensures r.None? ==> Pending() == old(Pending())
      ensures r.Some? ==> |source| < |old(source)| || (terminated && !old(terminated))
      ensures r.Some? && r.value.Ok? ==>
        && r.value.value != [] && !terminated && |source| < |old(source)|
        && old(Pending()) == r.value.value + Pending()
        && remaining == old(remaining) - |r.value.value| && Short() == old(Short())
      ensures r.Some? && r.value.Err? ==> terminated && old(Pending()) == [] && old(Short())
    {
      if terminated || remaining == 0 {
        return None;
      }
      var rest := Seek();
      if rest.None? {
        terminated := true;
        return Some(Err(()));
      }
      var taken := Take(rest.value);
      return Some(Ok(taken));
    }
  }

  /** One turn of the loop that reads a stream to its end. */
  method ReadStep(stream: ExactStream, out: Bytes) returns (out': Bytes, more: bool, failed: bool)
    requires !stream.terminated
    modifies stream
    ensures out' + stream.Pending() == out + old(stream.Pending())
    ensures more ==> !failed && !stream.terminated && |stream.source| < |old(stream.source)|
    ensures !failed ==> !stream.terminated && stream.remaining + |out'| == old(stream.remaining) + |out|
    ensures !failed ==> stream.Short() == old(stream.Short())
    ensures !more && !failed ==> stream.remaining == 0
    ensures failed ==> !more && stream.terminated && old(stream.Short())
  {
    ghost var before := stream.Pending();
    var r := stream.Next();
    match r {
      case None => return out, false, false;
      case Some(Err(_)) => return out, false, true;
      case Some(Ok(bytes)) =>
        assert out + (bytes + stream.Pending()) == (out + bytes) + stream.Pending();
        return out + bytes, true, false;
    }
  }

  /** Reading a stream to its end: the wanted bytes and nothing else, then an error if and only if the source is short. */
  method ReadAll(items: seq<Item>, skip: nat, length: nat) returns (out: Bytes, failed: bool)
    ensures out == Window(Available(items), skip, length)
    ensures failed <==> |Available(items)| < skip + length && length > 0
  {
    var stream := new ExactStream(items, skip, length);
    ghost var wanted := stream.Pending();
    var more: bool;
    out, more, failed := [], true, false;
    while more
      invariant wanted == out + stream.Pending()
      invariant more ==> !failed
      invariant !failed ==> !stream.terminated && stream.remaining + |out| == length
      invariant !failed ==> (stream.Short() <==> |wanted| < length)
      invariant !failed && !more ==> stream.remaining == 0
      invariant failed ==> stream.terminated && |wanted| < length
      decreases more, |stream.source|
    {
      out, more, failed := ReadStep(stream, out);
    }
  }

  /** Once a stream has ended, by an error or at its end, it yields nothing more. */
  method ReadPastTheEnd(stream: ExactStream) returns (r: Option<Result<Bytes, ()>>)
    requires stream.terminated || stream.remaining == 0
    modifies stream
    ensures r == None && stream.terminated == old(stream.terminated) && stream.remaining == old(stream.remaining)
  {
    r := stream.Next();
  }

  // ---- the ways a document is fetched ----

  const DOWNLOAD_CHUNK_SIZE: nat := 512 * 1024

  /** A local file or a 206 response starts at the range; a 200 response at 0; chunked access at a chunk boundary. */
  datatype Fetch = FromStart | WholeDocument | ChunkAligned

  function Origin(fetch: Fetch, start: nat): nat {
    match fetch
    case FromStart => start
    case WholeDocument => 0
    case ChunkAligned => start / DOWNLOAD_CHUNK_SIZE * DOWNLOAD_CHUNK_SIZE
  }

  /** With the skip that each way of fetching uses, the window is the requested range of the document. */
  lemma EveryFetchGivesTheRange(document: Bytes, fetch: Fetch, start: nat, end: nat, source: Bytes)
    requires start <= end < |document|
    requires source == document[Origin(fetch, start)..]
      || (fetch.FromStart? && source == document[start..end + 1])
    ensures 0 <= start - Origin(fetch, start)
    ensures fetch.ChunkAligned? ==> start - Origin(fetch, start) < DOWNLOAD_CHUNK_SIZE
    ensures Window(source, start - Origin(fetch, start), end - start + 1) == document[start..end + 1]
  {
  }
}
