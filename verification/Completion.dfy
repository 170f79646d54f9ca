/** Completing a multipart upload: from the client's list of parts to the snapshot that the commit verifies. */
module Completion {
  import opened Prelude
  import opened Schema
  import opened Conditions
  import T = Transactions
  import Store

  const MIN_MULTIPART_PART := 5 * 1024 * 1024
  const MAX_MULTIPART_PARTS := 10_000
  const MD5_LENGTH := 16

  /** One line of the client's list. */
  datatype Requested = Requested(number: PartNumber, etag: string)

  /** `hex::decode`, and the digest of the concatenated digests with the count, stay uninterpreted. */
  datatype Digests = Digests(decode: string -> Option<seq<nat>>, composite: (seq<nat>, nat) -> string)

  datatype Error = InvalidPart | InvalidPartOrder | EntityTooSmall | EntityTooLarge | TooLarge

  datatype Selection = Selection(parts: seq<T.PartSnapshot>, size: i64, etag: string)

  type Stored = map<PartNumber, PartRow>

  /** What the record of an upload says it is for. */
  datatype Kind = Put | Multipart

  // ---- what a list selects ----

  predicate InOrder(requested: seq<Requested>) {
    forall i :: 0 <= i < |requested| - 1 ==> requested[i].number < requested[i + 1].number
  }

  /** Line `i` names a stored part with the same ETag, large enough unless it is the last, with a usable digest. */
  predicate LineOk(requested: seq<Requested>, i: nat, stored: Stored, digests: Digests)
    requires i < |requested|
  {
    var line := requested[i];
    && line.number in stored
    && NormalizeEtag(stored[line.number].etag) == NormalizeEtag(line.etag)
    && (i + 1 < |requested| ==> stored[line.number].size >= MIN_MULTIPART_PART)
    && DigestOf(stored[line.number], digests).Some?
  }

  function DigestOf(part: PartRow, digests: Digests): Option<seq<nat>> {
    match digests.decode(NormalizeEtag(part.etag))
    case Some(d) => if |d| == MD5_LENGTH then Some(d) else None
    case None => None
  }

  function SizeOf(requested: seq<Requested>, n: nat, stored: Stored): int
    requires n <= |requested|
  {
    if n == 0 then 0
    else SizeOf(requested, n - 1, stored) + if requested[n - 1].number in stored then stored[requested[n - 1].number].size else 0
  }

  function DigestsOf(requested: seq<Requested>, n: nat, stored: Stored, digests: Digests): seq<nat>
    requires n <= |requested|
  {
    if n == 0 then []
    else
      DigestsOf(requested, n - 1, stored, digests)
      + if requested[n - 1].number in stored
        then DigestOf(stored[requested[n - 1].number], digests).GetOr([]) else []
  }

  predicate Fits(size: int, maxObjectSize: i64) {
    -I64_MAX - 1 <= size <= I64_MAX && size <= maxObjectSize
  }

  ghost predicate Selectable(requested: seq<Requested>, stored: Stored, maxObjectSize: i64, digests: Digests) {
    && 0 < |requested| <= MAX_MULTIPART_PARTS && InOrder(requested)
    && (forall i :: 0 <= i < |requested| ==> LineOk(requested, i, stored, digests))
    && (forall n :: 0 < n <= |requested| ==> Fits(SizeOf(requested, n, stored), maxObjectSize))
  }

  /** The parts may be completed in this way: at most 10,000, in order, as stored, and none but the last below 5 MiB. */
  ghost predicate MayComplete(requested: seq<Requested>, stored: Stored, maxObjectSize: i64, digests: Digests) {
    && 0 < |requested| <= 10_000
    && (forall i, j :: 0 <= i < j < |requested| ==> requested[i].number < requested[j].number)
    && (forall i :: 0 <= i < |requested| ==> requested[i].number in stored)
    && (forall i :: 0 <= i < |requested| ==>
          NormalizeEtag(requested[i].etag) == NormalizeEtag(stored[requested[i].number].etag))
    && (forall i :: 0 <= i < |requested| - 1 ==> stored[requested[i].number].size >= 5_242_880)
    && (forall i :: 0 <= i < |requested| ==>
          var d := digests.decode(NormalizeEtag(requested[i].etag)); d.Some? && |d.value| == 16)
    && (forall n :: 0 < n <= |requested| ==> -0x8000_0000_0000_0000 <= SizeOf(requested, n, stored) <= maxObjectSize)
  }

  lemma LineMeans(requested: seq<Requested>, i: nat, stored: Stored, digests: Digests)
    requires i < |requested|
    ensures var line := requested[i];
      LineOk(requested, i, stored, digests) <==>
        && line.number in stored && NormalizeEtag(line.etag) == NormalizeEtag(stored[line.number].etag)
        && (i < |requested| - 1 ==> stored[line.number].size >= 5_242_880)
        && var d := digests.decode(NormalizeEtag(line.etag)); d.Some? && |d.value| == 16
  {
  }

  /** The lists that are accepted, in plain words. */
  lemma SelectableMeans(requested: seq<Requested>, stored: Stored, maxObjectSize: i64, digests: Digests)
    ensures Selectable(requested, stored, maxObjectSize, digests) <==> MayComplete(requested, stored, maxObjectSize, digests)
  {
    forall i | 0 <= i < |requested|
      ensures var line := requested[i];
        LineOk(requested, i, stored, digests) <==>
          && line.number in stored && NormalizeEtag(line.etag) == NormalizeEtag(stored[line.number].etag)
          && (i < |requested| - 1 ==> stored[line.number].size >= 5_242_880)
          && var d := digests.decode(NormalizeEtag(line.etag)); d.Some? && |d.value| == 16
    {
      LineMeans(requested, i, stored, digests);
    }
    hide LineOk;
    if Selectable(requested, stored, maxObjectSize, digests) {
      forall i, j | 0 <= i < j < |requested| ensures requested[i].number < requested[j].number {
        OrderIsStrict(requested, i, j);
      }
      forall i | 0 <= i < |requested| ensures LineOk(requested, i, stored, digests) {
      }
      forall n | 0 < n <= |requested| ensures Fits(SizeOf(requested, n, stored), maxObjectSize) {
      }
    }
    if MayComplete(requested, stored, maxObjectSize, digests) {
      forall n | 0 < n <= |requested| ensures Fits(SizeOf(requested, n, stored), maxObjectSize) {
      }
    }
  }

  function PartNamed(line: Requested, stored: Stored): T.PartSnapshot {
    T.PartSnapshot(line.number, if line.number in stored then stored[line.number] else PartRow(0, "", []))
  }

  /** The stored parts that the first `n` lines name, in that order. */
  function Chosen(requested: seq<Requested>, n: nat, stored: Stored): seq<T.PartSnapshot>
    requires n <= |requested|
  {
    seq(n, i requires 0 <= i < n => PartNamed(requested[i], stored))
  }

  lemma {:induction false} OrderIsStrict(requested: seq<Requested>, i: nat, j: nat)
    requires InOrder(requested) && i < j < |requested|
    ensures requested[i].number < requested[j].number
    decreases j - i
  {
    if i + 1 < j {
      OrderIsStrict(requested, i, j - 1);
    }
  }

  /** Every line has a stored part whose digest is that of the line, 16 bytes long. */
  ghost predicate Digested(requested: seq<Requested>, stored: Stored, digests: Digests) {
    forall i :: 0 <= i < |requested| ==> LineDigest(requested[i], stored, digests).Some?
  }

  function LineDigest(line: Requested, stored: Stored, digests: Digests): (r: Option<seq<nat>>)
    ensures r.Some? ==> |r.value| == 16 && line.number in stored && DigestOf(stored[line.number], digests) == r
  {
    if line.number in stored then DigestOf(stored[line.number], digests) else None
  }

  lemma MayCompleteIsDigested(requested: seq<Requested>, stored: Stored, maxObjectSize: i64, digests: Digests)
    requires MayComplete(requested, stored, maxObjectSize, digests)
    ensures Digested(requested, stored, digests)
    ensures forall i :: 0 <= i < |requested| ==>
      LineDigest(requested[i], stored, digests) == digests.decode(NormalizeEtag(requested[i].etag))
  {
    forall i | 0 <= i < |requested|
      ensures LineDigest(requested[i], stored, digests) == digests.decode(NormalizeEtag(requested[i].etag))
      ensures LineDigest(requested[i], stored, digests).Some?
    {
      var d := digests.decode(NormalizeEtag(requested[i].etag));
      assert d.Some? && |d.value| == 16;
    }
  }

  lemma {:induction false} DigestAt(requested: seq<Requested>, n: nat, stored: Stored, digests: Digests, i: nat)
    requires Digested(requested, stored, digests) && n <= |requested|
    ensures |DigestsOf(requested, n, stored, digests)| == 16 * n
    ensures i < n ==>
      Some(DigestsOf(requested, n, stored, digests)[16 * i..16 * i + 16]) == LineDigest(requested[i], stored, digests)
  {
    if n > 0 {
      DigestAt(requested, n - 1, stored, digests, i);
      var before, digest := DigestsOf(requested, n - 1, stored, digests), LineDigest(requested[n - 1], stored, digests);
      assert digest.Some?;
      assert DigestsOf(requested, n, stored, digests) == before + digest.value;
      SliceOfSum(before, digest.value, n - 1, i);
    }
  }

  lemma SliceOfSum(before: seq<nat>, more: seq<nat>, n: nat, i: nat)
    requires |before| == 16 * n && |more| == 16
    ensures |before + more| == 16 * (n + 1)
    ensures i < n ==> (before + more)[16 * i..16 * i + 16] == before[16 * i..16 * i + 16]
    ensures i == n ==> (before + more)[16 * i..16 * i + 16] == more
  {
  }

  /** For a list that may be completed: the part of each line in order, and the digest of each, 16 bytes long. */
  lemma InListOrder(requested: seq<Requested>, stored: Stored, maxObjectSize: i64, digests: Digests, i: nat)
    requires MayComplete(requested, stored, maxObjectSize, digests) && i < |requested|
    ensures var parts, hashed := Chosen(requested, |requested|, stored), DigestsOf(requested, |requested|, stored, digests);
      && |parts| == |requested| && parts[i] == T.PartSnapshot(requested[i].number, stored[requested[i].number])
      && |hashed| == 16 * |requested|
      && Some(hashed[16 * i..16 * i + 16]) == digests.decode(NormalizeEtag(requested[i].etag))
  {
    MayCompleteIsDigested(requested, stored, maxObjectSize, digests);
    DigestAt(requested, |requested|, stored, digests, i);
  }

  method CheckOrder(requested: seq<Requested>) returns (ok: bool)
    ensures ok <==> InOrder(requested)
  {
    var i := 1;
    while i < |requested|
      invariant forall k :: 0 <= k < i - 1 && k < |requested| - 1 ==> requested[k].number < requested[k + 1].number
      invariant 1 <= i
    {
      if requested[i - 1].number >= requested[i].number {
        return false;
      }
      i := i + 1;
    }
    return true;
  }

  // ---- the loop ----

  /** The first `n` lines are accepted; their parts are taken out of the map. */
  ghost predicate Taken(requested: seq<Requested>, n: nat, stored: Stored, left: Stored, ordered: seq<T.PartSnapshot>,
                        size: int, hashed: seq<nat>, maxObjectSize: i64, digests: Digests)
    requires n <= |requested|
  {
    && left == stored - (set k | 0 <= k < n :: requested[k].number)
    && (forall i :: 0 <= i < n ==> LineOk(requested, i, stored, digests))
    && (forall k :: 0 < k <= n ==> Fits(SizeOf(requested, k, stored), maxObjectSize))
    && ordered == Chosen(requested, n, stored)
    && size == SizeOf(requested, n, stored) && hashed == DigestsOf(requested, n, stored, digests)
  }

  lemma TakenStep(requested: seq<Requested>, n: nat, stored: Stored, left: Stored, ordered: seq<T.PartSnapshot>,
                  size: int,
                  hashed: seq<nat>, maxObjectSize: i64, digests: Digests)
    requires n < |requested| && Taken(requested, n, stored, left, ordered, size, hashed, maxObjectSize, digests)
    requires LineOk(requested, n, stored, digests)
    requires Fits(size + stored[requested[n].number].size, maxObjectSize)
    ensures var part := stored[requested[n].number];
      Taken(requested, n + 1, stored, left - {requested[n].number}, ordered + [T.PartSnapshot(requested[n].number, part)],
            size + part.size, hashed + DigestOf(part, digests).value, maxObjectSize, digests)
  {
  }

  /** A part is still in the map exactly when it is stored: the numbers increase. */
  lemma StillThere(requested: seq<Requested>, n: nat, stored: Stored)
    requires InOrder(requested) && n < |requested|
    ensures requested[n].number !in (set k | 0 <= k < n :: requested[k].number)
  {
    forall k | 0 <= k < n ensures requested[k].number != requested[n].number {
      OrderIsStrict(requested, k, n);
    }
  }

  /** Checks one line and takes its part. */
  method TakeLine(requested: seq<Requested>, n: nat, left: Stored, size: i64, maxObjectSize: i64, digests: Digests,
                  ghost stored: Stored)
    returns (r: Result<(PartRow, seq<nat>, i64), Error>)
    requires n < |requested| && InOrder(requested)
    requires left == stored - (set k | 0 <= k < n :: requested[k].number)
    ensures r.Ok? <==> LineOk(requested, n, stored, digests) && Fits(size + stored[requested[n].number].size, maxObjectSize)
    ensures r.Ok? ==>
      var part := stored[requested[n].number];
      r.value == (part, DigestOf(part, digests).value, size + part.size)
    ensures r.Err? ==>
      match r.error
      case EntityTooSmall => n + 1 < |requested| && PartNamed(requested[n], stored).row.size < MIN_MULTIPART_PART
      case InvalidPart => !LineOk(requested, n, stored, digests)
      case InvalidPartOrder => false
      case _ => LineOk(requested, n, stored, digests)
  {
    StillThere(requested, n, stored);
    var line := requested[n];
    if line.number !in left {
      return Err(InvalidPart);
    }
    var part := left[line.number];
    if NormalizeEtag(part.etag) != NormalizeEtag(line.etag) {
      return Err(InvalidPart);
    }
    if n + 1 != |requested| && part.size < MIN_MULTIPART_PART {
      return Err(EntityTooSmall);
    }
    var digest := digests.decode(NormalizeEtag(part.etag));
    if digest.None? || |digest.value| != MD5_LENGTH {
      return Err(InvalidPart);
    }
    var next := CheckedAdd(size, part.size);
    if next.None? {
      return Err(TooLarge);
    }
    if next.value > maxObjectSize {
      return Err(EntityTooLarge);
    }
    return Ok((part, digest.value, next.value));
  }

  /** Accepts exactly the selectable lists, and then yields the named parts in order, their total and their ETag. */
  method SelectParts(requested: seq<Requested>, stored: Stored, maxObjectSize: i64, digests: Digests)
    returns (r: Result<Selection, Error>)
    ensures r.Ok? <==> Selectable(requested, stored, maxObjectSize, digests)
    ensures r.Ok? <==> MayComplete(requested, stored, maxObjectSize, digests)
    ensures r.Ok? ==> r.value == SelectionOf(requested, stored, digests)
    ensures r == Err(InvalidPartOrder) <==> 0 < |requested| <= MAX_MULTIPART_PARTS && !InOrder(requested)
  {
    SelectableMeans(requested, stored, maxObjectSize, digests);
    hide MayComplete;
    if requested == [] || |requested| > MAX_MULTIPART_PARTS {
      return Err(InvalidPart);
    }
    var inOrder := CheckOrder(requested);
    if !inOrder {
      return Err(InvalidPartOrder);
    }
    var left := stored;
    var ordered: seq<T.PartSnapshot>, size: i64, hashed: seq<nat> := [], 0, [];
    for n := 0 to |requested|
      invariant Taken(requested, n, stored, left, ordered, size, hashed, maxObjectSize, digests)
    {
      var taken := TakeLine(requested, n, left, size, maxObjectSize, digests, stored);
      if taken.Err? {
        assert LineOk(requested, n, stored, digests) ==> !Fits(SizeOf(requested, n + 1, stored), maxObjectSize);
        return Err(taken.error);
      }
      var (part, digest, total) := taken.value;
      TakenStep(requested, n, stored, left, ordered, size, hashed, maxObjectSize, digests);
      left, ordered := left - {requested[n].number}, ordered + [T.PartSnapshot(requested[n].number, part)];
      size, hashed := total, hashed + digest;
    }
    return Ok(Selection(ordered, size, digests.composite(hashed, |requested|)));
  }

  // ---- completion against the tables ----

  /** The pieces of each stored part are a valid layout of the part's size, as every upload makes them. */
  ghost predicate PartsWellFormed(stored: Stored) {
    forall p :: p in stored ==> ValidLayout(stored[p].pieces, stored[p].size)
  }

  lemma {:induction false} ChosenTotal(requested: seq<Requested>, n: nat, stored: Stored)
    requires n <= |requested| && (forall i :: 0 <= i < n ==> requested[i].number in stored)
    requires PartsWellFormed(stored)
    ensures T.PartsTotal(Chosen(requested, n, stored)) == SizeOf(requested, n, stored)
  {
    if n > 0 {
      ChosenTotal(requested, n - 1, stored);
      var parts := Chosen(requested, n, stored);
      assert parts[..n - 1] == Chosen(requested, n - 1, stored);
    }
  }

  lemma ChosenDistinct(t: Tables, u: UploadId, requested: seq<Requested>)
    requires UploadsOk(t) && u in t.uploads && InOrder(requested)
    requires forall i :: 0 <= i < |requested| ==> requested[i].number in t.uploads[u].parts
    ensures T.PartsDistinct(Chosen(requested, |requested|, t.uploads[u].parts))
    ensures T.PartsMatch(t.uploads[u], Chosen(requested, |requested|, t.uploads[u].parts))
  {
    var stored := t.uploads[u].parts;
    var parts := Chosen(requested, |requested|, stored);
    forall i, j | 0 <= i < j < |parts|
      ensures parts[i].number != parts[j].number && Ids(parts[i].row.pieces) !! Ids(parts[j].row.pieces)
    {
      OrderIsStrict(requested, i, j);
      forall b | b in Ids(parts[i].row.pieces) ensures b !in Ids(parts[j].row.pieces) {
        assert PartHolds(t.uploads, u, parts[i].number, b);
        assert b in Ids(parts[j].row.pieces) ==> PartHolds(t.uploads, u, parts[j].number, b);
      }
    }
  }

  lemma ChosenNotQueued(t: Tables, u: UploadId, requested: seq<Requested>)
    requires Valid(t) && u in t.uploads
    requires forall i :: 0 <= i < |requested| ==> requested[i].number in t.uploads[u].parts
    ensures T.PartIds(Chosen(requested, |requested|, t.uploads[u].parts)) * t.queue.Keys == {}
  {
    var parts := Chosen(requested, |requested|, t.uploads[u].parts);
    forall b | b in T.PartIds(parts) ensures b !in t.queue {
      var i :| 0 <= i < |parts| && b in Ids(parts[i].row.pieces);
      assert PartHolds(t.uploads, u, parts[i].number, b);
      assert InSomePart(t.uploads, b) && b in t.blocks;
      assert BlockOk(t, b);
    }
  }

  /**
   * A list that is accepted for the parts as they are now is committed: nothing that the commit checks again can
   * fail, so a completion is refused after selection only if the upload or its parts changed in between.
   */
  lemma AcceptedListCommits(t: Tables, u: UploadId, requested: seq<Requested>, maxObjectSize: i64, digests: Digests,
                            etag: string, id: ObjectId, now: int)
    requires Valid(t) && u in t.uploads && PartsWellFormed(t.uploads[u].parts)
    requires Selectable(requested, t.uploads[u].parts, maxObjectSize, digests)
    ensures var stored := t.uploads[u].parts;
      var r := T.CommitUpload(t, u, SizeOf(requested, |requested|, stored), etag, Chosen(requested, |requested|, stored),
                              UNCONDITIONAL, id, now);
      r.Ok? && r.value.Some?
  {
    var stored := t.uploads[u].parts;
    var parts := Chosen(requested, |requested|, stored);
    forall i | 0 <= i < |requested| ensures requested[i].number in stored {
      assert LineOk(requested, i, stored, digests);
    }
    ChosenTotal(requested, |requested|, stored);
    ChosenDistinct(t, u, requested);
    ChosenNotQueued(t, u, requested);
    assert T.PartsLayoutOk(parts);
  }

  /** The upload is gone and its name holds the parts of the list, which the upload still had when it was committed. */
  ghost predicate Completed(t: Tables, t': Tables, u: UploadId, requested: seq<Requested>, stored: Stored,
                            digests: Digests)
  {
    && u in t.uploads && T.PartsMatch(t.uploads[u], Chosen(requested, |requested|, stored))
    && u !in t'.uploads
    && T.PartsFit(Chosen(requested, |requested|, stored))
    && Fits(SizeOf(requested, |requested|, stored), I64_MAX)
    && T.PiecesAt(t', t.uploads[u].name) == T.Flatten(Chosen(requested, |requested|, stored))
    && T.EtagAt(t', t.uploads[u].name)
       == Some(digests.composite(DigestsOf(requested, |requested|, stored, digests), |requested|))
  }

  /**
   * The whole operation; `kind` and `stored` are what the upload and its parts were when they were read, however long
   * ago, with no kind if there was no upload.
   */
  method CompleteMultipart(db: Store.Db, u: UploadId, kind: Option<Kind>, requested: seq<Requested>, stored: Stored,
                           maxObjectSize: i64, digests: Digests, id: ObjectId, now: int) returns (ok: bool)
    requires Valid(db.tables)
    requires forall n :: n in db.tables.objects ==> db.tables.objects[n].id != id
    modifies db
    ensures Valid(db.tables)
    ensures !ok ==> db.tables == old(db.tables)
    ensures ok ==> kind == Some(Multipart) && Selectable(requested, stored, maxObjectSize, digests)
    ensures ok ==> MayComplete(requested, stored, maxObjectSize, digests)
    ensures ok ==> Completed(old(db.tables), db.tables, u, requested, stored, digests)
    ensures u in old(db.tables).uploads && stored == old(db.tables).uploads[u].parts && PartsWellFormed(stored) ==>
      (ok <==> kind == Some(Multipart) && Selectable(requested, stored, maxObjectSize, digests))
  {
    if kind != Some(Multipart) {
      return false;
    }
    SelectableMeans(requested, stored, maxObjectSize, digests);
    var selection := SelectParts(requested, stored, maxObjectSize, digests);
    if selection.Err? {
      return false;
    }
    var chosen := selection.value;
    ok := CommitSelection(db, u, requested, stored, maxObjectSize, digests, chosen, id, now);
  }

  method CommitSelection(db: Store.Db, u: UploadId, ghost requested: seq<Requested>, ghost stored: Stored,
                         ghost maxObjectSize: i64, ghost digests: Digests, chosen: Selection, id: ObjectId, now: int)
    returns (ok: bool)
    requires Valid(db.tables)
    requires forall n :: n in db.tables.objects ==> db.tables.objects[n].id != id
    requires Selectable(requested, stored, maxObjectSize, digests)
    requires chosen == SelectionOf(requested, stored, digests)
    modifies db
    ensures Valid(db.tables)
    ensures !ok ==> db.tables == old(db.tables)
    ensures ok ==> Completed(old(db.tables), db.tables, u, requested, stored, digests)
    ensures u in old(db.tables).uploads && stored == old(db.tables).uploads[u].parts && PartsWellFormed(stored) ==> ok
  {
    ghost var start := db.tables;
    if u in start.uploads && stored == start.uploads[u].parts && PartsWellFormed(stored) {
      AcceptedListCommits(start, u, requested, maxObjectSize, digests, chosen.etag, id, now);
    }
    var r := db.CommitUpload(u, chosen.size, chosen.etag, chosen.parts, UNCONDITIONAL, id, now);
    ok := r.Ok? && r.value.Some?;
    if ok {
      CommittedFacts(start, db.tables, u, chosen, id, now);
    }
  }

  /** What selecting an acceptable list gives. */
  function SelectionOf(requested: seq<Requested>, stored: Stored, digests: Digests): Selection
    requires Fits(SizeOf(requested, |requested|, stored), I64_MAX)
  {
    Selection(Chosen(requested, |requested|, stored), SizeOf(requested, |requested|, stored),
              digests.composite(DigestsOf(requested, |requested|, stored, digests), |requested|))
  }

  lemma CommittedFacts(t: Tables, t': Tables, u: UploadId, chosen: Selection, id: ObjectId, now: int)
    requires t.queue.Keys <= t.blocks.Keys
    requires T.CommitUpload(t, u, chosen.size, chosen.etag, chosen.parts, UNCONDITIONAL, id, now) == Ok(Some(t'))
    ensures u in t.uploads && T.PartsMatch(t.uploads[u], chosen.parts) && T.PartsFit(chosen.parts) && u !in t'.uploads
    ensures T.PiecesAt(t', t.uploads[u].name) == T.Flatten(chosen.parts)
    ensures T.EtagAt(t', t.uploads[u].name) == Some(chosen.etag)
  {
  }
}
