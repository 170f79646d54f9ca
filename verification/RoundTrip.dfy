/** What was uploaded is what is read: from request bodies to blocks, to a committed object, to any byte range. */
module RoundTrip {
  import opened Prelude
  import opened Splitter
  import opened RangeReader
  import opened PartUpload
  import Schema
  import T = Transactions
  import I = Invariants

  type Store = map<BlockId, Bytes>

  /** The messages behind the pieces, joined in order. */
  function Content(pieces: seq<Piece>, store: Store): Bytes {
    if |pieces| == 0 then []
    else Content(pieces[..|pieces| - 1], store) + BlockContent(store, pieces[|pieces| - 1].id)
  }

  function BlockContent(store: Store, b: BlockId): Bytes {
    if b in store then store[b] else []
  }

  function Docs(pieces: seq<Piece>, store: Store): seq<Bytes> {
    seq(|pieces|, k requires 0 <= k < |pieces| => BlockContent(store, pieces[k].id))
  }

  /** Every piece has the size of its message. */
  predicate Sized(pieces: seq<Piece>, store: Store) {
    forall k :: 0 <= k < |pieces| ==> pieces[k].size == |BlockContent(store, pieces[k].id)| > 0
  }

  /** Positions start..=end of `whole`, as far as they exist. */
  function Slice(whole: Bytes, start: int, end: int): Bytes {
    var from, to := Max(start, 0), Min(end + 1, |whole|);
    if from < to then whole[from..to] else []
  }

  function JoinedBodies(bodies: seq<Bytes>): Bytes {
    if |bodies| == 0 then [] else JoinedBodies(bodies[..|bodies| - 1]) + bodies[|bodies| - 1]
  }

  // ---- a range of an object ----

  /** Bodies are joined in order, nothing between them. */
  lemma {:induction false} BodiesInOrder(a: seq<Bytes>, b: seq<Bytes>, body: Bytes)
    ensures JoinedBodies([body]) == body
    ensures JoinedBodies(a + b) == JoinedBodies(a) + JoinedBodies(b)
    decreases |b|
  {
    assert [body][..0] == [] && JoinedBodies([]) == [];
    if b == [] {
      assert a + b == a;
    } else {
      BodiesInOrder(a, b[..|b| - 1], body);
      assert (a + b)[..|a + b| - 1] == a + b[..|b| - 1];
    }
  }

  lemma {:induction false} JoinedLength(pieces: seq<Piece>, docs: seq<Bytes>, n: nat)
    requires Stored(pieces, docs) && n <= |pieces|
    ensures |JoinedBodies(docs[..n])| == Schema.TotalSize(pieces[..n])
  {
    if n > 0 {
      JoinedLength(pieces, docs, n - 1);
      assert pieces[..n][..n - 1] == pieces[..n - 1] && docs[..n][..n - 1] == docs[..n - 1];
    }
  }

  lemma {:induction false} JoinedSplit(docs: seq<Bytes>, n: nat) returns (after: Bytes)
    requires n <= |docs|
    ensures JoinedBodies(docs) == JoinedBodies(docs[..n]) + after
    decreases |docs|
  {
    if n == |docs| {
      after := [];
      assert docs[..n] == docs;
      assert JoinedBodies(docs) + [] == JoinedBodies(docs);
    } else {
      var init := docs[..|docs| - 1];
      var rest := JoinedSplit(init, n);
      after := rest + docs[|docs| - 1];
      assert init[..n] == docs[..n];
      assert (JoinedBodies(docs[..n]) + rest) + docs[|docs| - 1] == JoinedBodies(docs[..n]) + after;
    }
  }

  /** Clipping one block takes its share of the range. */
  lemma ClipIsSlice(piece: Piece, doc: Bytes, before: Bytes, after: Bytes, start: int, end: int)
    requires piece.size == |doc| > 0 && piece.offset == |before| && start <= end
    ensures var whole := before + doc + after;
      Clip(piece, doc, start, end) + Slice(whole, Max(start, |before| + |doc|), end) == Slice(whole, Max(start, |before|), end)
  {
    var whole := before + doc + after;
    if !Skipped(piece, start, end) {
      var from, to := ReadStart(piece, start), ReadEnd(piece, end) + 1;
      SliceInside(before, doc, after, from, to);
      if end >= |before| + |doc| {
        var last := Min(end + 1, |whole|);
        SplitSlice(whole, |before| + from, |before| + to, last);
      }
    }
  }

  lemma SplitSlice(s: Bytes, a: nat, b: nat, c: nat)
    requires a <= b <= c <= |s|
    ensures s[a..c] == s[a..b] + s[b..c]
  {
  }

  lemma SliceInside(before: Bytes, doc: Bytes, after: Bytes, from: nat, to: nat)
    requires from <= to <= |doc|
    ensures (before + doc + after)[|before| + from..|before| + to] == doc[from..to]
  {
  }

  /** The part of the range that lies in block `k` and after it. */
  function Share(pieces: seq<Piece>, docs: seq<Bytes>, start: int, end: int, k: nat): Bytes
    requires k <= |pieces|
  {
    Slice(JoinedBodies(docs), Max(start, Schema.TotalSize(pieces[..k])), end)
  }

  lemma NoShareAtTheEnd(pieces: seq<Piece>, docs: seq<Bytes>, start: int, end: int)
    requires Stored(pieces, docs)
    ensures Share(pieces, docs, start, end, |pieces|) == []
  {
    JoinedLength(pieces, docs, |pieces|);
    assert docs[..|docs|] == docs;
  }

  lemma ClipStep(pieces: seq<Piece>, docs: seq<Bytes>, start: int, end: int, k: nat)
    requires Schema.Contiguous(pieces) && Stored(pieces, docs) && start <= end && k < |pieces|
    ensures Clip(pieces[k], docs[k], start, end) + Share(pieces, docs, start, end, k + 1) == Share(pieces, docs, start, end, k)
  {
    JoinedLength(pieces, docs, k);
    JoinedLength(pieces, docs, k + 1);
    var after := JoinedSplit(docs, k + 1);
    assert docs[..k + 1][..k] == docs[..k] && docs[..k + 1][k] == docs[k];
    ClipIsSlice(pieces[k], docs[k], JoinedBodies(docs[..k]), after, start, end);
  }

  lemma {:induction false} ClipsFrom(pieces: seq<Piece>, docs: seq<Bytes>, start: int, end: int, k: nat)
    requires Schema.Contiguous(pieces) && Stored(pieces, docs) && start <= end && k <= |pieces|
    ensures Clips(pieces, docs, start, end, k) == Share(pieces, docs, start, end, k)
    decreases |pieces| - k
  {
    if k == |pieces| {
      NoShareAtTheEnd(pieces, docs, start, end);
    } else {
      ClipsFrom(pieces, docs, start, end, k + 1);
      ClipStep(pieces, docs, start, end, k);
    }
  }

  /** Clipping every block of an object and joining the clips gives exactly the requested slice. */
  lemma ClipsAreTheSlice(pieces: seq<Piece>, docs: seq<Bytes>, start: int, end: int)
    requires Schema.Contiguous(pieces) && Stored(pieces, docs) && start <= end
    ensures Clips(pieces, docs, start, end, 0) == Slice(JoinedBodies(docs), start, end)
  {
    ClipsFrom(pieces, docs, start, end, 0);
    assert pieces[..0] == [];
  }

  lemma {:induction false} ContentIsJoinedDocs(pieces: seq<Piece>, store: Store)
    ensures Content(pieces, store) == JoinedBodies(Docs(pieces, store))
  {
    if |pieces| > 0 {
      ContentIsJoinedDocs(pieces[..|pieces| - 1], store);
      assert Docs(pieces, store)[..|pieces| - 1] == Docs(pieces[..|pieces| - 1], store);
    }
  }

  // ---- from bodies to an object ----

  /** The messages of these blocks are in the store. */
  predicate Kept(blocks: seq<Uploaded>, store: Store) {
    forall k :: 0 <= k < |blocks| ==> blocks[k].id in store && store[blocks[k].id] == blocks[k].content
  }

  lemma CutBlock(body: Bytes, chunkSize: nat, rowId: nat -> BlockId, store: Store, n: nat)
    requires chunkSize > 0 && Kept(Cut(body, chunkSize, rowId), store) && n < |Cut(body, chunkSize, rowId)|
    ensures var blocks := Cut(body, chunkSize, rowId); var from, to := End(blocks[..n]), End(blocks[..n + 1]);
      && 0 <= from < to <= |body| && blocks[n].size == to - from
      && BlockContent(store, blocks[n].id) == body[from..to]
      && (n == |blocks| - 1 ==> to == |body|)
  {
    var blocks := Cut(body, chunkSize, rowId);
    CutShape(body, chunkSize, rowId, 0, 0);
    assert Shaped(blocks, n, body, chunkSize, rowId, 0, 0);
    assert blocks[..n + 1][n] == blocks[n];
    assert n > 0 ==> blocks[..n][n - 1] == blocks[n - 1];
  }

  /** The content of a cut, up to any block, is the body up to where that block ends. */
  lemma {:induction false} CutContent(body: Bytes, chunkSize: nat, rowId: nat -> BlockId, store: Store,
                                      pieces: seq<Piece>, n: nat)
    requires chunkSize > 0 && Kept(Cut(body, chunkSize, rowId), store)
    requires |pieces| == |Cut(body, chunkSize, rowId)| && n <= |pieces|
    requires forall k :: 0 <= k < |pieces| ==> pieces[k].id == Cut(body, chunkSize, rowId)[k].id
    ensures var blocks := Cut(body, chunkSize, rowId);
      && 0 <= End(blocks[..n]) <= |body|
      && Content(pieces[..n], store) == body[..End(blocks[..n])]
  {
    if n > 0 {
      CutContent(body, chunkSize, rowId, store, pieces, n - 1);
      CutBlock(body, chunkSize, rowId, store, n - 1);
      var blocks := Cut(body, chunkSize, rowId);
      var from, to := End(blocks[..n - 1]), End(blocks[..n]);
      assert pieces[..n][..n - 1] == pieces[..n - 1];
      assert body[..from] + body[from..to] == body[..to];
    }
  }

  lemma CutSized(body: Bytes, chunkSize: nat, rowId: nat -> BlockId, store: Store)
    requires Kept(Cut(body, chunkSize, rowId), store) && InRange(Cut(body, chunkSize, rowId))
    ensures Sized(ToPieces(Cut(body, chunkSize, rowId)), store)
  {
    var blocks := Cut(body, chunkSize, rowId);
    var pieces := ToPieces(blocks);
    forall k | 0 <= k < |blocks| ensures pieces[k].size == |BlockContent(store, pieces[k].id)| > 0 {
      CutBlock(body, chunkSize, rowId, store, k);
    }
  }

  lemma CutEnd(body: Bytes, chunkSize: nat, rowId: nat -> BlockId, store: Store)
    requires chunkSize > 0 && Kept(Cut(body, chunkSize, rowId), store)
    ensures End(Cut(body, chunkSize, rowId)) == |body|
  {
    var blocks := Cut(body, chunkSize, rowId);
    assert blocks[..|blocks|] == blocks;
    if |blocks| > 0 {
      CutBlock(body, chunkSize, rowId, store, |blocks| - 1);
    } else {
      CutShape(body, chunkSize, rowId, 0, 0);
    }
  }

  /** The blocks of an upload hold its body. */
  lemma CutHoldsTheBody(body: Bytes, chunkSize: nat, rowId: nat -> BlockId, store: Store)
    requires |body| <= I64_MAX && (chunkSize > 0 || body == [])
    requires Kept(Cut(body, chunkSize, rowId), store) && InRange(Cut(body, chunkSize, rowId))
    ensures Content(ToPieces(Cut(body, chunkSize, rowId)), store) == body
    ensures Sized(ToPieces(Cut(body, chunkSize, rowId)), store)
  {
    CutSized(body, chunkSize, rowId, store);
    if chunkSize > 0 {
      var blocks := Cut(body, chunkSize, rowId);
      var pieces := ToPieces(blocks);
      CutContent(body, chunkSize, rowId, store, pieces, |pieces|);
      CutEnd(body, chunkSize, rowId, store);
      assert pieces[..|pieces|] == pieces && blocks[..|blocks|] == blocks;
      assert body[..|body|] == body;
    }
  }

  lemma JoinedInTurn(a: Bytes, b: Bytes, c: Bytes)
    ensures (a + b) + c == a + (b + c)
  {
  }

  /** Rebasing offsets does not change what the blocks hold. */
  lemma {:induction false} RebasedContent(done: seq<Piece>, more: seq<Piece>, store: Store)
    requires Schema.Contiguous(done) && Schema.Contiguous(more)
    requires Schema.TotalSize(done) + Schema.TotalSize(more) <= I64_MAX
    ensures Content(T.Rebased(done, more), store) == Content(done, store) + Content(more, store)
  {
    if |more| > 0 {
      var init, last := more[..|more| - 1], more[|more| - 1];
      T.RebasedUnfolds(done, more);
      RebasedContent(done, init, store);
      var moved := Schema.Piece(last.id, Schema.TotalSize(done) + Schema.TotalSize(init), last.size);
      AppendedContent(T.Rebased(done, init), moved, store);
      JoinedInTurn(Content(done, store), Content(init, store), BlockContent(store, last.id));
    }
  }

  lemma AppendedContent(pieces: seq<Piece>, piece: Piece, store: Store)
    ensures Content(pieces + [piece], store) == Content(pieces, store) + BlockContent(store, piece.id)
  {
  }

  lemma RebasedSized(done: seq<Piece>, more: seq<Piece>, store: Store)
    requires Schema.Contiguous(done) && Schema.Contiguous(more)
    requires Schema.TotalSize(done) + Schema.TotalSize(more) <= I64_MAX
    requires Sized(done, store) && Sized(more, store)
    ensures Sized(T.Rebased(done, more), store)
  {
    T.RebasedKeepsBlocks(done, more);
    var r := T.Rebased(done, more);
    forall k | 0 <= k < |r| ensures r[k].size == |BlockContent(store, r[k].id)| > 0 {
      if k < |done| {
        assert r[k] == r[..|done|][k];
      }
    }
  }

  /** Part `i` of the object is what one upload made of body `i`. */
  ghost predicate MadeFrom(part: T.PartSnapshot, body: Bytes, chunkSize: nat, rowId: nat -> BlockId, store: Store) {
    && |body| <= I64_MAX && (chunkSize > 0 || body == [])
    && InRange(Cut(body, chunkSize, rowId)) && Kept(Cut(body, chunkSize, rowId), store)
    && part.row.pieces == ToPieces(Cut(body, chunkSize, rowId))
  }

  lemma {:induction false} FlattenedContent(parts: seq<T.PartSnapshot>, bodies: seq<Bytes>, chunkSizes: seq<nat>,
                                            rowIds: seq<nat -> BlockId>, store: Store)
    requires |parts| == |bodies| == |chunkSizes| == |rowIds|
    requires T.PartsFit(parts)
    requires forall i :: 0 <= i < |parts| ==> MadeFrom(parts[i], bodies[i], chunkSizes[i], rowIds[i], store)
    ensures Content(T.Flatten(parts), store) == JoinedBodies(bodies)
    ensures Sized(T.Flatten(parts), store)
  {
    if |parts| > 0 {
      var n := |parts| - 1;
      T.PartsTotalBounds(parts, n);
      forall i | 0 <= i < n ensures MadeFrom(parts[..n][i], bodies[..n][i], chunkSizes[..n][i], rowIds[..n][i], store) {
        assert MadeFrom(parts[i], bodies[i], chunkSizes[i], rowIds[i], store);
      }
      FlattenedContent(parts[..n], bodies[..n], chunkSizes[..n], rowIds[..n], store);
      assert MadeFrom(parts[n], bodies[n], chunkSizes[n], rowIds[n], store);
      CutHoldsTheBody(bodies[n], chunkSizes[n], rowIds[n], store);
      RebasedContent(T.Flatten(parts[..n]), parts[n].row.pieces, store);
      RebasedSized(T.Flatten(parts[..n]), parts[n].row.pieces, store);
    }
  }

  lemma SizedIsStored(pieces: seq<Piece>, store: Store)
    requires Sized(pieces, store) && Schema.Contiguous(pieces)
    ensures Stored(pieces, Docs(pieces, store))
    ensures |Content(pieces, store)| == Schema.TotalSize(pieces)
  {
    ContentIsJoinedDocs(pieces, store);
    JoinedLength(pieces, Docs(pieces, store), |pieces|);
    assert pieces[..|pieces|] == pieces && Docs(pieces, store)[..|pieces|] == Docs(pieces, store);
  }

  /**
   * The round trip: commit parts made from any bodies, with any chunk sizes, and read any range of the object.
   * What is streamed is that slice of the bodies joined in the order of the parts.
   */
  lemma ReadsWhatWasWritten(parts: seq<T.PartSnapshot>, bodies: seq<Bytes>, chunkSizes: seq<nat>,
                            rowIds: seq<nat -> BlockId>, store: Store, start: int, end: int)
    requires |parts| == |bodies| == |chunkSizes| == |rowIds|
    requires T.PartsLayoutOk(parts) && start <= end
    requires forall i :: 0 <= i < |parts| ==> MadeFrom(parts[i], bodies[i], chunkSizes[i], rowIds[i], store)
    ensures var pieces := T.Flatten(parts);
      && Schema.ValidLayout(pieces, |JoinedBodies(bodies)|)
      && Stored(pieces, Docs(pieces, store))
      && Clips(pieces, Docs(pieces, store), start, end, 0) == Slice(JoinedBodies(bodies), start, end)
  {
    var pieces := T.Flatten(parts);
    FlattenedContent(parts, bodies, chunkSizes, rowIds, store);
    SizedIsStored(pieces, store);
    ContentIsJoinedDocs(pieces, store);
    ClipsAreTheSlice(pieces, Docs(pieces, store), start, end);
    I.FlattenedLayoutIsValid(parts, T.PartsTotal(parts));
  }
}
