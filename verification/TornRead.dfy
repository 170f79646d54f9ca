/** A run in which a reused object id tears a read: the engine returns the size and ETag of one object with the block of another. */
module TornRead {
  import opened Prelude
  import opened Schema
  import opened Conditions
  import opened Lifecycle
  import opened ReusedIds
  import E = Engine
  import I = Invariants
  import T = Transactions

  // ---- a run that tears a read ----

  const KEY := Name("bucket", "key")

  function Sent(b: BlockId, etag: string): E.Upload {
    E.Upload(3, etag, [Schema.Piece(b, 0, 3)])
  }

  function PartsOf(b: BlockId, etag: string): seq<T.PartSnapshot> {
    [T.PartSnapshot(0, E.RowOf(Sent(b, etag)))]
  }

  /** Two requests have each sent one block of three bytes. */
  const SETUP: seq<Event> := [
    Request(CreateBucket("bucket")),
    Upload(SendMessage(10)), Upload(StageBlock(10, 1)),
    Upload(SendMessage(20)), Upload(StageBlock(20, 2))]

  /** A put of block `b` under `KEY` that is given the object id 1. */
  function PutEvents(u: UploadId, b: BlockId, etag: string): seq<Event> {
    [Request(CreateUpload(u, KEY, 0)),
     Upload(PutPart(u, 0, 3, etag, [Schema.Piece(b, 0, 3)], 0)),
     Request(Commit(u, 3, etag, PartsOf(b, etag), UNCONDITIONAL, 1, 0))]
  }

  function TearingRun(): seq<Event> {
    SETUP + PutEvents(0, 1, "old") + [Request(ReadRow(KEY))] + PutEvents(1, 2, "new")
    + [Request(ReadPieces(SeenRow(KEY, 1, 3, "old")))]
  }

  lemma {:induction false} RunSplits(s: Sys, a: seq<Event>, b: seq<Event>)
    ensures AnyIdRun(s, a + b) == AnyIdRun(AnyIdRun(s, a), b)
  {
    if b == [] {
      assert a + b == a;
    } else {
      RunSplits(s, a, b[..|b| - 1]);
      assert (a + b)[..|a + b| - 1] == a + b[..|b| - 1];
    }
  }

  lemma RunOfOne(s: Sys, e: Event)
    ensures AnyIdRun(s, [e]) == AnyIdStep(s, e)
  {
    assert [e][..0] == [];
  }

  lemma RunPlusOne(s: Sys, events: seq<Event>, e: Event)
    ensures AnyIdRun(s, events + [e]) == AnyIdStep(AnyIdRun(s, events), e)
  {
    RunSplits(s, events, [e]);
    RunOfOne(AnyIdRun(s, events), e);
  }

  lemma RunOfThree(s: Sys, a: Event, b: Event, c: Event)
    ensures AnyIdRun(s, [a, b, c]) == AnyIdStep(AnyIdStep(AnyIdStep(s, a), b), c)
  {
    RunOfOne(s, a);
    RunPlusOne(s, [a], b);
    RunPlusOne(s, [a] + [b], c);
    assert [a, b, c] == [a] + [b] + [c];
  }

  /** A state in which block `b` can be put under `KEY` by a new upload `u`. */
  ghost predicate Ready(s: Sys, u: UploadId, b: BlockId) {
    && "bucket" in s.t.buckets && u !in s.usedUploads && u !in s.t.uploads
    && b in s.t.blocks && b in s.inFlight && b !in s.t.queue && s.t.queue.Keys <= s.t.blocks.Keys
    && (forall n :: n in s.t.objects ==> n == KEY)
  }

  lemma OnePieceIsValid(b: BlockId, etag: string)
    ensures ValidLayout(Sent(b, etag).pieces, 3) && Ids(Sent(b, etag).pieces) == {b}
  {
    var pieces := Sent(b, etag).pieces;
    assert pieces[..0] == [] && pieces[0].id == b;
  }

  lemma PutSteps(s: Sys, u: UploadId, b: BlockId, etag: string)
    requires Ready(s, u, b)
    ensures var events := PutEvents(u, b, etag);
      var s2 := AnyIdStep(AnyIdStep(s, events[0]), events[1]);
      && s2.t == E.Created(s.t, u, KEY, 0, map[0 := E.RowOf(Sent(b, etag))])
      && s2.inFlight == s.inFlight - {b} && s2.usedUploads == s.usedUploads + {u}
      && s2.seen == s.seen && s2.snapshots == s.snapshots
  {
    OnePieceIsValid(b, etag);
    var s1 := AnyIdStep(s, Request(CreateUpload(u, KEY, 0)));
    assert s1.t == E.Created(s.t, u, KEY, 0, map[]) && s1.inFlight == s.inFlight;
    E.PartReplaced(s.t, u, KEY, Sent(b, etag), 0);
  }

  lemma ReleasedQueue(t: Tables, ids: set<BlockId>, now: int)
    ensures T.Release(t, ids, now).queue.Keys <= t.queue.Keys + ids
  {
  }

  lemma CommittedQueue(t: Tables, u: UploadId, row: ObjectRow, unused: set<BlockId>, now: int)
    requires u in t.uploads
    ensures T.Committed(t, u, row, unused, now).queue.Keys
      <= t.queue.Keys + Ids(T.PiecesAt(t, t.uploads[u].name)) + unused
  {
    var name := t.uploads[u].name;
    ReleasedQueue(t.(objects := t.objects - {name}), Ids(T.PiecesAt(t, name)), now);
    var installed := T.Install(T.RemoveObject(t, name, now), name, row, false);
    ReleasedQueue(installed.(uploads := t.uploads - {u}), unused, now);
  }

  /** What a put of block `b` under `KEY` makes of the tables. */
  ghost predicate PutTables(t: Tables, t': Tables, b: BlockId, etag: string) {
    && t'.objects == map[KEY := E.Stored(1, Sent(b, etag))] && t'.uploads == t.uploads
    && t'.blocks.Keys == t.blocks.Keys && t'.buckets == t.buckets
    && t'.queue.Keys <= t.queue.Keys + Ids(T.PiecesAt(t, KEY)) && t'.queue.Keys <= t'.blocks.Keys
  }

  lemma CommitFrames(t: Tables, t1: Tables, u: UploadId, b: BlockId, etag: string)
    requires t1 == E.Created(t, u, KEY, 0, map[0 := E.RowOf(Sent(b, etag))]) && t.queue.Keys <= t.blocks.Keys
    requires ValidLayout(Sent(b, etag).pieces, 3)
    ensures var t' := T.Committed(t1, u, E.Stored(1, Sent(b, etag)), {}, 0);
      && t'.blocks.Keys == t.blocks.Keys && t'.buckets == t.buckets && t'.queue.Keys <= t'.blocks.Keys
      && t'.queue.Keys <= t.queue.Keys + Ids(T.PiecesAt(t, KEY))
  {
    var row := E.Stored(1, Sent(b, etag));
    I.CommittedShape(t1, u, row, {}, 0);
    CommittedQueue(t1, u, row, {}, 0);
  }

  lemma NothingUnused(t1: Tables, u: UploadId, b: BlockId, etag: string)
    requires u in t1.uploads && t1.uploads[u].parts == map[0 := E.RowOf(Sent(b, etag))]
    ensures UploadIds(t1.uploads[u]) - T.PartIds(PartsOf(b, etag)) == {}
  {
    E.OnlyPart(Sent(b, etag));
  }

  lemma CommitTables(t: Tables, t1: Tables, u: UploadId, b: BlockId, etag: string)
    requires t1 == E.Created(t, u, KEY, 0, map[0 := E.RowOf(Sent(b, etag))]) && u !in t.uploads
    requires t.queue.Keys <= t.blocks.Keys && b !in t.queue && forall n :: n in t.objects ==> n == KEY
    ensures var r := T.CommitUpload(t1, u, 3, etag, PartsOf(b, etag), UNCONDITIONAL, 1, 0);
      r.Ok? && r.value.Some? && PutTables(t, r.value.value, b, etag)
  {
    OnePieceIsValid(b, etag);
    E.PartCommitted(t, u, KEY, Sent(b, etag), UNCONDITIONAL, 1, 0);
    CommitIs(t1, u, b, etag);
    CommitFrames(t, t1, u, b, etag);
    assert t.objects[KEY := E.Stored(1, Sent(b, etag))] == map[KEY := E.Stored(1, Sent(b, etag))];
  }

  lemma CommitIs(t1: Tables, u: UploadId, b: BlockId, etag: string)
    requires u in t1.uploads && t1.uploads[u].parts == map[0 := E.RowOf(Sent(b, etag))]
    requires T.CommitUpload(t1, u, 3, etag, PartsOf(b, etag), UNCONDITIONAL, 1, 0).Ok?
    ensures T.CommitUpload(t1, u, 3, etag, PartsOf(b, etag), UNCONDITIONAL, 1, 0)
      == Ok(Some(T.Committed(t1, u, E.Stored(1, Sent(b, etag)), {}, 0)))
  {
    OnePieceIsValid(b, etag);
    E.OnlyPart(Sent(b, etag));
    NothingUnused(t1, u, b, etag);
  }

  lemma CommitState(s: Sys, u: UploadId, b: BlockId, etag: string)
    requires u in s.t.uploads && s.t.uploads[u].name == KEY && forall n :: n in s.t.objects ==> n == KEY
    requires var r := T.CommitUpload(s.t, u, 3, etag, PartsOf(b, etag), UNCONDITIONAL, 1, 0); r.Ok? && r.value.Some?
    ensures var s' := AnyIdStep(s, PutEvents(u, b, etag)[2]);
      && s'.t == T.CommitUpload(s.t, u, 3, etag, PartsOf(b, etag), UNCONDITIONAL, 1, 0).value.value
      && s'.inFlight == s.inFlight && s'.usedUploads == s.usedUploads && s'.seen == s.seen && s'.snapshots == s.snapshots
  {
    assert FreeId(s.t, KEY, 1);
  }

  /** The put stores its block under the id 1, whatever row it replaces. */
  lemma PutStores(s: Sys, u: UploadId, b: BlockId, etag: string)
    requires Ready(s, u, b)
    ensures var s' := AnyIdRun(s, PutEvents(u, b, etag));
      && PutTables(s.t, s'.t, b, etag)
      && s'.inFlight == s.inFlight - {b} && s'.usedUploads == s.usedUploads + {u}
      && s'.seen == s.seen && s'.snapshots == s.snapshots
  {
    var events := PutEvents(u, b, etag);
    RunOfThree(s, events[0], events[1], events[2]);
    PutSteps(s, u, b, etag);
    var s2 := AnyIdStep(AnyIdStep(s, events[0]), events[1]);
    CommitTables(s.t, s2.t, u, b, etag);
    CommitState(s2, u, b, etag);
  }

  lemma MessageSent(s: Sys, m: MessageId)
    requires m !in s.sent
    ensures var s' := AnyIdStep(s, Upload(SendMessage(m)));
      s' == s.(live := s.live + {m}, sent := s.sent + {m}, unregistered := s.unregistered + {m})
  {
  }

  /** Recording a message that was sent. */
  lemma BlockStaged(s: Sys, m: MessageId, b: BlockId)
    requires m in s.unregistered && b !in RecordedIds(s) && b !in s.t.blocks
    requires forall c :: c in s.t.blocks ==> s.t.blocks[c].message != m
    ensures AnyIdStep(s, Upload(StageBlock(m, b)))
      == s.(t := s.t.(blocks := s.t.blocks[b := BlockRow(m, 1, false)]), recorded := s.recorded[m := b],
            unregistered := s.unregistered - {m}, inFlight := s.inFlight[b := m])
  {
  }

  lemma FirstThree()
    ensures AnyIdRun(INITIAL, SETUP[..3])
      == INITIAL.(t := EMPTY.(buckets := {"bucket"}, blocks := map[1 := BlockRow(10, 1, false)]),
                  live := {10}, sent := {10}, recorded := map[10 := 1], inFlight := map[1 := 10])
  {
    RunOfThree(INITIAL, SETUP[0], SETUP[1], SETUP[2]);
    assert SETUP[..3] == [SETUP[0], SETUP[1], SETUP[2]];
    var s1 := INITIAL.(t := EMPTY.(buckets := {"bucket"}));
    assert AnyIdStep(INITIAL, SETUP[0]) == s1;
    MessageSent(s1, 10);
    BlockStaged(AnyIdStep(s1, SETUP[1]), 10, 1);
  }

  lemma LastTwo(s: Sys)
    requires s.sent == {10} && s.recorded == map[10 := 1] && s.t.blocks == map[1 := BlockRow(10, 1, false)]
    ensures var s' := AnyIdRun(s, SETUP[3..]);
      s' == s.(t := s.t.(blocks := s.t.blocks[2 := BlockRow(20, 1, false)]), live := s'.live, sent := s'.sent,
               recorded := s'.recorded, unregistered := s'.unregistered, inFlight := s.inFlight[2 := 20])
  {
    var e, f := SETUP[3], SETUP[4];
    RunOfOne(s, e);
    RunPlusOne(s, [e], f);
    assert SETUP[3..] == [e] + [f];
    MessageSent(s, 20);
    BlockStaged(AnyIdStep(s, e), 20, 2);
  }

  lemma SetupState()
    ensures var s := AnyIdRun(INITIAL, SETUP);
      && Ready(s, 0, 1) && s.t.objects == map[] && s.t.queue == map[] && s.t.uploads == map[] && s.usedUploads == {}
      && s.t.blocks.Keys == {1, 2} && s.inFlight.Keys == {1, 2} && s.seen == {} && s.snapshots == {}
  {
    RunSplits(INITIAL, SETUP[..3], SETUP[3..]);
    assert SETUP == SETUP[..3] + SETUP[3..];
    FirstThree();
    LastTwo(AnyIdRun(INITIAL, SETUP[..3]));
  }

  /** Reading a row changes nothing but what was seen. */
  lemma RowIsSeen(s: Sys)
    requires s.t.objects == map[KEY := E.Stored(1, Sent(1, "old"))]
    ensures AnyIdStep(s, Request(ReadRow(KEY))) == s.(seen := s.seen + {SeenRow(KEY, 1, 3, "old")})
  {
  }

  lemma PiecesAreRead(s: Sys)
    requires s.t.objects == map[KEY := E.Stored(1, Sent(2, "new"))] && SeenRow(KEY, 1, 3, "old") in s.seen
    ensures var mixed := T.ObjectSnapshot(KEY, ObjectRow(1, 3, "old", [Schema.Piece(2, 0, 3)]));
      mixed in AnyIdStep(s, Request(ReadPieces(SeenRow(KEY, 1, 3, "old")))).snapshots
  {
    OnePieceIsValid(2, "new");
    PiecesOfRow(s.t, KEY);
  }

  /**
   * A read that races with one overwrite of the only object: the new row gets the id of the old one, as SQLite's rule
   * has it, and the engine returns the size and ETag of the old object with the block of the new one.
   */
  lemma ReusedObjectIdTearsARead()
    ensures var mixed := T.ObjectSnapshot(KEY, ObjectRow(1, 3, "old", [Schema.Piece(2, 0, 3)]));
      mixed in AnyIdRun(INITIAL, TearingRun()).snapshots
    ensures LargestPlusOne(AnyIdRun(INITIAL, SETUP).t, KEY, 1)
    ensures var s1 := AnyIdRun(INITIAL, SETUP + PutEvents(0, 1, "old"));
      s1.t.objects == map[KEY := ObjectRow(1, 3, "old", [Schema.Piece(1, 0, 3)])] && LargestPlusOne(s1.t, KEY, 1)
    ensures var s2 := AnyIdRun(INITIAL, SETUP + PutEvents(0, 1, "old") + [Request(ReadRow(KEY))] + PutEvents(1, 2, "new"));
      s2.t.objects == map[KEY := ObjectRow(1, 3, "new", [Schema.Piece(2, 0, 3)])]
  {
    SetupState();
    var a := SETUP + PutEvents(0, 1, "old");
    RunSplits(INITIAL, SETUP, PutEvents(0, 1, "old"));
    PutStores(AnyIdRun(INITIAL, SETUP), 0, 1, "old");
    var s1 := AnyIdRun(INITIAL, a);
    var b := a + [Request(ReadRow(KEY))];
    RunSplits(INITIAL, a, [Request(ReadRow(KEY))]);
    RunOfOne(s1, Request(ReadRow(KEY)));
    RowIsSeen(s1);
    var s2 := AnyIdRun(INITIAL, b);
    RunSplits(INITIAL, b, PutEvents(1, 2, "new"));
    PutStores(s2, 1, 2, "new");
    var last := Request(ReadPieces(SeenRow(KEY, 1, 3, "old")));
    var s3 := AnyIdRun(INITIAL, b + PutEvents(1, 2, "new"));
    RunSplits(INITIAL, b + PutEvents(1, 2, "new"), [last]);
    RunOfOne(s3, last);
    PiecesAreRead(s3);
    assert TearingRun() == b + PutEvents(1, 2, "new") + [last];
  }
}
