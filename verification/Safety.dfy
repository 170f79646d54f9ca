/** Safety over every run: no object or part ever refers to a block whose Telegram message is gone. */
module Safety {
  import opened Prelude
  import opened Schema
  import opened Conditions
  import opened Lifecycle
  import T = Transactions
  import I = Invariants

  // ---- the inductive invariant ----

  /** Block `b` is referenced, or its owner may still put it into a part. */
  ghost predicate Usable(s: Sys, b: BlockId) {
    b in s.t.blocks && (Referenced(s.t, b) || (b in s.inFlight && b !in s.t.queue))
  }

  /** Deleting `m` cannot hurt: its row can never be referenced again. */
  ghost predicate Expendable(s: Sys, m: MessageId) {
    m in s.recorded && !Usable(s, s.recorded[m])
  }

  ghost predicate RowsRecorded(s: Sys) {
    && (forall b :: b in s.t.blocks ==> s.t.blocks[b].message in s.recorded && s.recorded[s.t.blocks[b].message] == b)
    && (forall m :: m in s.recorded ==> m in s.sent)
    && s.t.uploads.Keys <= s.usedUploads
  }

  ghost predicate MessagesOk(s: Sys) {
    s.unregistered <= s.live <= s.sent && s.unregistered !! s.recorded.Keys
  }

  ghost predicate OwnedOk(s: Sys, owned: map<BlockId, MessageId>) {
    forall b :: b in owned ==> owned[b] in s.recorded && s.recorded[owned[b]] == b && !Referenced(s.t, b)
  }

  ghost predicate TargetsOk(s: Sys) {
    && (forall m :: m in s.abandoned ==> Expendable(s, m))
    && (forall c :: c in s.cleaners && !c.ToReport? ==> Expendable(s, c.message))
    && (forall g :: g in s.collectors && g.Candidate? ==> Expendable(s, g.message))
  }

  ghost predicate LiveOk(s: Sys) {
    forall b :: Usable(s, b) ==> s.t.blocks[b].message in s.live
  }

  /** Object ids name immutable rows, and every read agrees with them. */
  ghost predicate HistoryOk(s: Sys) {
    && (forall n :: n in s.t.objects ==>
          s.t.objects[n].id in s.history && s.history[s.t.objects[n].id] == T.ObjectSnapshot(n, s.t.objects[n]))
    && (forall id :: id in s.history ==> ValidLayout(s.history[id].row.pieces, s.history[id].row.size))
    && (forall r :: r in s.seen ==> r.id in s.history && SeenAs(r, s.history[r.id]))
    && (forall x :: x in s.snapshots ==> x.row.id in s.history && s.history[x.row.id] == x)
  }

  predicate SeenAs(r: SeenRow, x: ObjectSnapshot) {
    x.name == r.name && x.row.id == r.id && x.row.size == r.size && x.row.etag == r.etag
  }

  ghost predicate Inv(s: Sys) {
    && Valid(s.t)
    && RowsRecorded(s)
    && MessagesOk(s)
    && OwnedOk(s, s.inFlight)
    && OwnedOk(s, s.condemned)
    && s.inFlight.Keys !! s.condemned.Keys
    && TargetsOk(s)
    && LiveOk(s)
    && HistoryOk(s)
  }

  // ---- changing the tables ----

  /** A transaction that only removes objects and references leaves every other part of the state in order. */
  lemma TablesStep(s: Sys, t': Tables)
    requires Inv(s) && Valid(t') && I.Evolves(s.t, t', {})
    requires t'.uploads.Keys <= s.usedUploads
    requires forall n :: n in t'.objects ==> n in s.t.objects && t'.objects[n] == s.t.objects[n]
    ensures Inv(s.(t := t'))
  {
    var s' := s.(t := t');
    forall b | b in t'.blocks ensures I.EvolvesAt(s.t, t', {}, b) {
    }
    StaysUnusable(s, s');
    OwnedStays(s, s', s.inFlight);
    OwnedStays(s, s', s.condemned);
  }

  ghost predicate NothingGained(s: Sys, s': Sys) {
    && s'.recorded == s.recorded
    && (forall b :: Usable(s', b) ==> Usable(s, b) && s'.t.blocks[b].message == s.t.blocks[b].message)
  }

  lemma StaysUnusable(s: Sys, s': Sys)
    requires I.Evolves(s.t, s'.t, {}) && s'.recorded == s.recorded && s'.inFlight == s.inFlight
    ensures NothingGained(s, s')
    ensures forall m :: Expendable(s, m) ==> Expendable(s', m)
  {
  }

  lemma OwnedStays(s: Sys, s': Sys, owned: map<BlockId, MessageId>)
    requires Valid(s.t) && Valid(s'.t) && I.Evolves(s.t, s'.t, {}) && s'.recorded == s.recorded
    requires OwnedOk(s, owned)
    ensures OwnedOk(s', owned)
  {
  }

  lemma ReferencedExists(t: Tables, b: BlockId)
    requires Valid(t) && Referenced(t, b)
    ensures b in t.blocks && b !in t.queue
  {
  }

  // ---- changing what the actors hold ----

  /** Telegram loses a message that nothing usable needs. */
  lemma MessageDeleted(s: Sys, m: MessageId, removed: bool)
    requires Inv(s) && Expendable(s, m)
    ensures Inv(Telegram(s, m, removed))
    ensures Telegram(s, m, removed).t == s.t
  {
  }

  lemma NextCleanerKeeps(s: Sys, c: Cleaner, next: Option<Cleaner>)
    requires Inv(s)
    requires next.Some? && !next.value.ToReport? ==> Expendable(s, next.value.message)
    ensures Inv(NextCleaner(s, c, next))
  {
  }

  lemma NextCollectorKeeps(s: Sys, g: Collector, next: Option<Collector>)
    requires Inv(s)
    requires next.Some? && next.value.Candidate? ==> Expendable(s, next.value.message)
    ensures Inv(NextCollector(s, g, next))
  {
  }

  // ---- steps of one upload ----

  lemma SendMessageKeeps(s: Sys, m: MessageId)
    requires Inv(s) && m !in s.sent
    ensures Inv(UploadEffect(s, SendMessage(m)))
  {
  }

  lemma DropUnregisteredKeeps(s: Sys, m: MessageId, removed: bool)
    requires Inv(s) && m in s.unregistered
    ensures Inv(UploadEffect(s, DropUnregistered(m, removed)))
  {
    var s' := UploadEffect(s, DropUnregistered(m, removed));
    assert forall b :: Usable(s', b) <==> Usable(s, b);
    assert forall x :: Expendable(s, x) ==> Expendable(s', x);
  }

  lemma StagedTables(s: Sys, m: MessageId, b: BlockId)
    requires Inv(s) && b !in RecordedIds(s)
    requires T.AddStagedBlock(s.t, b, m).Ok?
    ensures Valid(T.AddStagedBlock(s.t, b, m).value)
    ensures b !in s.t.blocks && !Referenced(s.t, b)
  {
    I.AddStagedBlockKeepsValid(s.t, b, m);
    if Referenced(s.t, b) {
      ReferencedExists(s.t, b);
    }
  }

  /** Until someone owns it, a new row changes nothing for the other blocks. */
  lemma StagedKeeps(s: Sys, m: MessageId, b: BlockId)
    requires Inv(s) && m in s.unregistered && b !in RecordedIds(s)
    requires T.AddStagedBlock(s.t, b, m).Ok?
    ensures Inv(Stage(s, m, b)) && Expendable(Stage(s, m, b), m)
    ensures b !in s.inFlight && b !in s.condemned
  {
    StagedTables(s, m, b);
    StagedUsable(s, m, b);
    var s' := Stage(s, m, b);
    assert s'.t.objects == s.t.objects && s'.t.uploads == s.t.uploads;
    assert OwnedOk(s', s.inFlight) && OwnedOk(s', s.condemned);
    assert RowsRecorded(s');
  }

  lemma StagedUsable(s: Sys, m: MessageId, b: BlockId)
    requires Inv(s) && m in s.unregistered && b !in RecordedIds(s)
    requires T.AddStagedBlock(s.t, b, m).Ok?
    ensures b !in s.inFlight && b !in s.condemned
    ensures forall c :: Usable(Stage(s, m, b), c) <==> Usable(s, c)
    ensures forall x :: Expendable(s, x) ==> Expendable(Stage(s, m, b), x)
    ensures Expendable(Stage(s, m, b), m)
  {
    StagedTables(s, m, b);
    var s' := Stage(s, m, b);
    assert s'.t.objects == s.t.objects && s'.t.uploads == s.t.uploads && s'.t.queue == s.t.queue;
  }

  lemma StageThenCancelKeeps(s: Sys, m: MessageId, b: BlockId)
    requires Inv(s) && m in s.unregistered && b !in RecordedIds(s)
    ensures Inv(DoStageThenCancel(s, m, b))
  {
    if T.AddStagedBlock(s.t, b, m).Ok? {
      StagedKeeps(s, m, b);
      var s0 := Stage(s, m, b);
      var s' := s0.(abandoned := s.abandoned + {m});
      assert forall c :: Usable(s', c) <==> Usable(s0, c);
      assert forall x :: Expendable(s0, x) <==> Expendable(s', x);
    }
  }

  /** No actor is about to delete the message of block `b`. */
  ghost predicate TargetsAvoid(s: Sys, b: BlockId) {
    && (forall m :: m in s.abandoned ==> m in s.recorded && s.recorded[m] != b)
    && (forall c :: c in s.cleaners && !c.ToReport? ==> c.message in s.recorded && s.recorded[c.message] != b)
    && (forall g :: g in s.collectors && g.Candidate? ==> g.message in s.recorded && s.recorded[g.message] != b)
  }

  lemma OwnerKeeps(s: Sys, m: MessageId, b: BlockId)
    requires Inv(s) && TargetsAvoid(s, b)
    requires b !in s.inFlight && b !in s.condemned && !Referenced(s.t, b)
    requires m in s.recorded && s.recorded[m] == b && m in s.live
    requires b in s.t.blocks && s.t.blocks[b].message == m
    ensures Inv(s.(inFlight := s.inFlight[b := m]))
  {
    var s' := s.(inFlight := s.inFlight[b := m]);
    UsableExcept(s, m, b);
    TargetsKept(s, s', b);
  }

  lemma UsableExcept(s: Sys, m: MessageId, b: BlockId)
    ensures forall c :: c != b ==> (Usable(s.(inFlight := s.inFlight[b := m]), c) <==> Usable(s, c))
  {
  }

  lemma TargetsKept(s: Sys, s': Sys, b: BlockId)
    requires TargetsOk(s) && TargetsAvoid(s, b)
    requires s'.recorded == s.recorded && s'.abandoned == s.abandoned
    requires s'.cleaners == s.cleaners && s'.collectors == s.collectors
    requires forall c :: c != b ==> (Usable(s', c) <==> Usable(s, c))
    ensures TargetsOk(s')
  {
  }

  /** A new row refers to a message that is not deleted and that nobody else is going to delete. */
  lemma StageBlockKeeps(s: Sys, m: MessageId, b: BlockId)
    requires Inv(s) && m in s.unregistered && b !in RecordedIds(s)
    ensures Inv(DoStageBlock(s, m, b))
  {
    if T.AddStagedBlock(s.t, b, m).Ok? {
      StagedKeeps(s, m, b);
      StagedIsFree(s, m, b);
      OwnerKeeps(Stage(s, m, b), m, b);
    }
  }

  lemma StagedIsFree(s: Sys, m: MessageId, b: BlockId)
    requires Inv(s) && m in s.unregistered && b !in RecordedIds(s)
    requires T.AddStagedBlock(s.t, b, m).Ok?
    ensures var s0 := Stage(s, m, b);
      && TargetsAvoid(s0, b) && !Referenced(s0.t, b)
      && m in s0.recorded && s0.recorded[m] == b && m in s0.live
      && b in s0.t.blocks && s0.t.blocks[b].message == m
  {
  }

  lemma DropAbandonedKeeps(s: Sys, m: MessageId, removed: bool)
    requires Inv(s) && m in s.abandoned
    ensures Inv(UploadEffect(s, DropAbandoned(m, removed)))
  {
    var s0 := s.(abandoned := s.abandoned - {m});
    assert forall b :: Usable(s0, b) <==> Usable(s, b);
    assert forall x :: Expendable(s, x) <==> Expendable(s0, x);
    MessageDeleted(s0, m, removed);
  }

  // ---- steps of the owner of a staged block ----

  lemma PutPartKeeps(s: Sys, u: UploadId, p: PartNumber, size: i64, etag: string, pieces: seq<Piece>, now: int)
    requires Inv(s) && MayPut(s, u, p, pieces)
    ensures Inv(DoPutPart(s, u, p, size, etag, pieces, now))
  {
    if T.ReplacePart(s.t, u, p, size, etag, pieces, now).Ok? {
      MayPutMayReceive(s, u, p, pieces);
      I.ReplacePartKeepsValid(s.t, u, p, size, etag, pieces, now);
      var s' := DoPutPart(s, u, p, size, etag, pieces, now);
      forall b | Usable(s', b) ensures Usable(s, b) && s'.t.blocks[b].message == s.t.blocks[b].message {
        assert I.EvolvesAt(s.t, s'.t, Ids(pieces), b);
      }
      assert forall m :: Expendable(s, m) ==> Expendable(s', m);
      OwnedExcept(s, s', s.inFlight, Ids(pieces));
      OwnedExcept(s, s', s.condemned, Ids(pieces));
    }
  }

  lemma MayPutMayReceive(s: Sys, u: UploadId, p: PartNumber, pieces: seq<Piece>)
    requires Inv(s) && MayPut(s, u, p, pieces)
    ensures I.MayReceive(s.t, u, p, pieces)
    ensures forall b :: b in Ids(pieces) ==> b in s.inFlight || Referenced(s.t, b)
  {
    forall b | b in Ids(pieces)
      ensures !Referenced(s.t, b) || PartHolds(s.t.uploads, u, p, b)
      ensures b in s.inFlight || Referenced(s.t, b)
    {
      if b !in s.inFlight {
        assert PartHolds(s.t.uploads, u, p, b);
      }
    }
  }

  /** Putting blocks into a part ends their owner's hold on them; no condemned block is among them. */
  lemma OwnedExcept(s: Sys, s': Sys, owned: map<BlockId, MessageId>, put: set<BlockId>)
    requires Valid(s.t) && Valid(s'.t) && I.Evolves(s.t, s'.t, put) && s'.recorded == s.recorded
    requires OwnedOk(s, owned)
    ensures OwnedOk(s', owned - put)
  {
  }

  lemma CondemnKeeps(s: Sys, b: BlockId)
    requires Inv(s) && b in s.inFlight
    ensures Inv(UploadEffect(s, Condemn(b)))
  {
    var s' := UploadEffect(s, Condemn(b));
    assert forall c :: Usable(s', c) ==> Usable(s, c);
    assert forall x :: Expendable(s, x) ==> Expendable(s', x);
  }

  lemma ForgetKeeps(s: Sys, b: BlockId)
    requires Inv(s) && b in s.inFlight
    ensures Inv(UploadEffect(s, Forget(b)))
  {
    var s' := UploadEffect(s, Forget(b));
    assert forall c :: Usable(s', c) ==> Usable(s, c);
    assert forall x :: Expendable(s, x) ==> Expendable(s', x);
  }

  // ---- cleaners ----

  lemma StartCleanerKeeps(s: Sys, b: BlockId)
    requires Inv(s) && b in s.condemned
    ensures Inv(CleanupEffect(s, StartCleaner(b)))
  {
  }

  lemma QueueStaleKeeps(s: Sys, b: BlockId, now: int)
    requires Inv(s)
    ensures var s' := s.(t := T.QueueStaleBlock(s.t, b, now).0);
      Inv(s') && forall m :: Expendable(s, m) ==> Expendable(s', m)
  {
    I.QueueStaleBlockKeepsValid(s.t, b, now);
    var s' := s.(t := T.QueueStaleBlock(s.t, b, now).0);
    TablesStep(s, s'.t);
    StaysUnusable(s, s');
  }

  lemma GcSuccessKeeps(s: Sys, b: BlockId)
    requires Inv(s)
    ensures Inv(s.(t := T.GcSuccess(s.t, b)))
  {
    I.GcSuccessKeepsValid(s.t, b);
    TablesStep(s, T.GcSuccess(s.t, b));
  }

  lemma CleanupStepKeeps(s: Sys, e: CleanupEvent)
    requires Inv(s) && CleanupEnabled(s, e)
    ensures Inv(CleanupEffect(s, e))
  {
    match e {
      case StartCleaner(b) => StartCleanerKeeps(s, b);
      case CleanerQueues(c, dbFails, now) =>
        if dbFails {
          NextCleanerKeeps(s, c, Some(ToDelete(c.id, c.message, false)));
        } else {
          QueueStaleKeeps(s, c.id, now);
          var (t', queued) := T.QueueStaleBlock(s.t, c.id, now);
          NextCleanerKeeps(s.(t := t'), c, if queued then Some(ToDelete(c.id, c.message, true)) else None);
        }
      case CleanerDeletes(c, outcome) =>
        var removed := outcome.Removed? || (outcome.Unclear? && outcome.removed);
        MessageDeleted(s, c.message, removed);
        NextCleanerKeeps(Telegram(s, c.message, removed), c, if c.queued && !outcome.Unclear? then Some(ToReport(c.id)) else None);
      case CleanerReports(c, dbFails) =>
        GcSuccessKeeps(s, c.id);
        NextCleanerKeeps(if dbFails then s else s.(t := T.GcSuccess(s.t, c.id)), c, None);
    }
  }

  // ---- the garbage collector ----

  lemma PickCandidateKeeps(s: Sys, b: BlockId, now: int)
    requires Inv(s) && T.IsCandidate(s.t, b, now)
    ensures Inv(CollectorEffect(s, PickCandidate(b, now)))
  {
  }

  lemma GcMarkKeeps(s: Sys, b: BlockId, nextAttempt: int)
    requires Inv(s)
    ensures Inv(s.(t := T.GcFailure(s.t, b, nextAttempt))) && Inv(s.(t := T.GcOrphan(s.t, b)))
    ensures forall m :: Expendable(s, m) ==> Expendable(s.(t := T.GcFailure(s.t, b, nextAttempt)), m)
  {
    I.GcFailureKeepsValid(s.t, b, nextAttempt);
    TablesStep(s, T.GcFailure(s.t, b, nextAttempt));
    TablesStep(s, T.GcOrphan(s.t, b));
    StaysUnusable(s, s.(t := T.GcFailure(s.t, b, nextAttempt)));
  }

  lemma CollectorDeletesKeeps(s: Sys, g: Collector, outcome: Outcome, nextAttempt: int)
    requires Inv(s) && g in s.collectors && g.Candidate?
    ensures Inv(DoCollectorDeletes(s, g, outcome, nextAttempt))
  {
    if outcome.Unclear? {
      GcMarkKeeps(s, g.id, nextAttempt);
      var s0 := s.(t := T.GcFailure(s.t, g.id, nextAttempt));
      MessageDeleted(s0, g.message, outcome.removed);
      NextCollectorKeeps(Telegram(s0, g.message, outcome.removed), g, None);
    } else {
      MessageDeleted(s, g.message, outcome.Removed?);
      NextCollectorKeeps(Telegram(s, g.message, outcome.Removed?), g, Some(Collected(g.id)));
    }
  }

  lemma CollectorEndsKeeps(s: Sys, g: Collector)
    requires Inv(s)
    ensures Inv(NextCollector(s, g, None))
    ensures Inv(NextCollector(s.(t := T.GcOrphan(s.t, g.id)), g, None))
    ensures Inv(NextCollector(s.(t := T.GcSuccess(s.t, g.id)), g, None))
  {
    NextCollectorKeeps(s, g, None);
    GcMarkKeeps(s, g.id, 0);
    NextCollectorKeeps(s.(t := T.GcOrphan(s.t, g.id)), g, None);
    GcSuccessKeeps(s, g.id);
    NextCollectorKeeps(s.(t := T.GcSuccess(s.t, g.id)), g, None);
  }

  // ---- other requests ----

  lemma DeleteBucketKeeps(s: Sys, bucket: string)
    requires Inv(s)
    ensures Inv(WithTables(s, T.DeleteBucket(s.t, bucket)))
  {
    var r := T.DeleteBucket(s.t, bucket);
    if r.Ok? && r.value != s.t {
      I.BucketsKeepValid(s.t, s.t.buckets - {bucket});
      TablesStep(s, r.value);
    }
  }

  lemma CreateBucketKeeps(s: Sys, bucket: string)
    requires Inv(s)
    ensures Inv(s.(t := s.t.(buckets := s.t.buckets + {bucket})))
  {
    I.BucketsKeepValid(s.t, s.t.buckets + {bucket});
    TablesStep(s, s.t.(buckets := s.t.buckets + {bucket}));
  }

  lemma CreateUploadKeeps(s: Sys, u: UploadId, name: Name, now: int)
    requires Inv(s) && u !in s.usedUploads
    ensures Inv(WithTables(s.(usedUploads := s.usedUploads + {u}), T.CreateUpload(s.t, u, name, now)))
  {
    var s0 := s.(usedUploads := s.usedUploads + {u});
    assert forall b :: Usable(s0, b) <==> Usable(s, b);
    assert forall x :: Expendable(s, x) <==> Expendable(s0, x);
    var r := T.CreateUpload(s.t, u, name, now);
    if r.Ok? {
      I.CreateUploadKeepsValid(s.t, u, name, now);
      TablesStep(s0, r.value);
    }
  }

  lemma AbortKeeps(s: Sys, u: UploadId, now: int)
    requires Inv(s) && u in s.t.uploads
    ensures Inv(s.(t := T.AbortUpload(s.t, u, now).value))
  {
    I.AbortUploadKeepsValid(s.t, u, now);
    TablesStep(s, T.AbortUpload(s.t, u, now).value);
  }

  lemma DeleteKeeps(s: Sys, name: Name, now: int)
    requires Inv(s)
    ensures Inv(s.(t := T.RemoveObject(s.t, name, now)))
  {
    I.RemoveObjectKeepsValid(s.t, name, now);
    TablesStep(s, T.RemoveObject(s.t, name, now));
  }

  lemma HistoryGrows(s: Sys, s': Sys, x: ObjectSnapshot)
    requires HistoryOk(s)
    requires x.row.id !in s.history && ValidLayout(x.row.pieces, x.row.size)
    requires s'.t.objects == s.t.objects[x.name := x.row] && s'.history == s.history[x.row.id := x]
    requires s'.seen == s.seen && s'.snapshots == s.snapshots
    ensures HistoryOk(s')
  {
  }

  /** A new immutable object row enters the history together with the tables. */
  lemma ObjectStored(s: Sys, t': Tables, x: ObjectSnapshot)
    requires Inv(s) && Valid(t') && I.Evolves(s.t, t', {})
    requires t'.uploads.Keys <= s.usedUploads
    requires x.row.id !in s.history && ValidLayout(x.row.pieces, x.row.size)
    requires t'.objects == s.t.objects[x.name := x.row]
    ensures Inv(s.(t := t', history := s.history[x.row.id := x]))
  {
    var s' := s.(t := t', history := s.history[x.row.id := x]);
    HistoryGrows(s, s', x);
    StaysUnusable(s, s');
    OwnedStays(s, s', s.inFlight);
    OwnedStays(s, s', s.condemned);
    assert RowsRecorded(s') by {
      forall b | b in t'.blocks ensures I.EvolvesAt(s.t, t', {}, b) {
      }
    }
  }

  lemma CommitKeeps(s: Sys, u: UploadId, size: i64, etag: string, parts: seq<T.PartSnapshot>, condition: Condition,
                    id: ObjectId, now: int)
    requires Inv(s) && id !in s.history
    ensures Inv(DoCommit(s, u, size, etag, parts, condition, id, now))
  {
    var r := T.CommitUpload(s.t, u, size, etag, parts, condition, id, now);
    if r.Ok? && r.value.Some? {
      I.CommitUploadKeepsValid(s.t, u, size, etag, parts, condition, id, now);
      CommitStoresOne(s.t, u, size, etag, parts, condition, id, now);
      ObjectStored(s, r.value.value, T.ObjectSnapshot(s.t.uploads[u].name, ObjectRow(id, size, etag, T.Flatten(parts))));
    }
  }

  lemma CommitStoresOne(t: Tables, u: UploadId, size: i64, etag: string, parts: seq<T.PartSnapshot>,
                        condition: Condition,
                        id: ObjectId, now: int)
    requires t.queue.Keys <= t.blocks.Keys
    requires var r := T.CommitUpload(t, u, size, etag, parts, condition, id, now); r.Ok? && r.value.Some?
    ensures u in t.uploads && T.PartsFit(parts)
    ensures var t' := T.CommitUpload(t, u, size, etag, parts, condition, id, now).value.value;
      var row := ObjectRow(id, size, etag, T.Flatten(parts));
      && ValidLayout(row.pieces, size)
      && t'.objects == t.objects[t.uploads[u].name := row] && t'.uploads.Keys <= t.uploads.Keys
  {
    I.FlattenedLayoutIsValid(parts, size);
    var row := ObjectRow(id, size, etag, T.Flatten(parts));
    I.CommittedShape(t, u, row, UploadIds(t.uploads[u]) - T.PartIds(parts), now);
    var name := t.uploads[u].name;
    assert (t.objects - {name})[name := row] == t.objects[name := row];
  }

  lemma CopyKeeps(s: Sys, source: ObjectSnapshot, name: Name, condition: Condition, id: ObjectId, now: int)
    requires Inv(s) && id !in s.history && source in s.snapshots
    ensures Inv(DoCopy(s, source, name, condition, id, now))
  {
    var r := T.CopyObject(s.t, source, name, condition, id, now);
    if r.Ok? {
      I.CopyObjectKeepsValid(s.t, source, name, condition, id, now);
      I.SwapShape(s.t, name, source.row.(id := id), now);
      ObjectStored(s, r.value, T.ObjectSnapshot(name, source.row.(id := id)));
    }
  }

  lemma ReadRowKeeps(s: Sys, name: Name)
    requires Inv(s) && name in s.t.objects
    ensures Inv(DoReadRow(s, name))
  {
    var row := s.t.objects[name];
    var seen := SeenRow(name, row.id, row.size, row.etag);
    assert s.history[row.id] == T.ObjectSnapshot(name, row);
    SeenKeeps(s, seen);
  }

  lemma SeenKeeps(s: Sys, seen: SeenRow)
    requires Inv(s) && seen.id in s.history && SeenAs(seen, s.history[seen.id])
    ensures Inv(s.(seen := s.seen + {seen}))
  {
  }

  lemma SnapshotKeeps(s: Sys, x: ObjectSnapshot)
    requires Inv(s) && x.row.id in s.history && s.history[x.row.id] == x
    ensures Inv(s.(snapshots := s.snapshots + {x}))
  {
  }

  lemma ReadPiecesKeeps(s: Sys, row: SeenRow)
    requires Inv(s) && row in s.seen
    ensures Inv(RequestEffect(s, ReadPieces(row)))
  {
    ReadIsExact(s, row);
    if Assembled(s.t, row).Some? {
      SnapshotKeeps(s, Assembled(s.t, row).value);
    }
  }

  /** The second query finds the immutable pieces or none; with none, only an empty object passes validation. */
  lemma ReadIsExact(s: Sys, row: SeenRow)
    requires Inv(s) && row in s.seen
    ensures Assembled(s.t, row).Some? ==>
      Assembled(s.t, row).value == s.history[row.id] && Assembled(s.t, row).value.row.id == row.id
  {
    var x := s.history[row.id];
    var pieces := PiecesOf(s.t, row.id);
    if ValidLayout(pieces, row.size) {
      if exists n :: n in s.t.objects && s.t.objects[n].id == row.id {
        assert pieces == x.row.pieces;
      } else {
        assert pieces == [];
        EmptyOfSizeZero(x.row.pieces);
      }
    }
  }

  lemma EmptyOfSizeZero(pieces: seq<Piece>)
    requires Contiguous(pieces) && TotalSize(pieces) == 0
    ensures pieces == []
  {
    if |pieces| > 0 {
      T.TotalSizeBounds(pieces, |pieces| - 1);
    }
  }

  lemma RestartKeeps(s: Sys)
    requires Inv(s)
    ensures Inv(DoRestart(s))
  {
  }

  // ---- every step, every run ----

  lemma UploadStepKeeps(s: Sys, e: UploadEvent)
    requires Inv(s) && UploadEnabled(s, e)
    ensures Inv(UploadEffect(s, e))
  {
    match e {
      case SendMessage(m) => SendMessageKeeps(s, m);
      case DropUnregistered(m, removed) => DropUnregisteredKeeps(s, m, removed);
      case StageBlock(m, b) => StageBlockKeeps(s, m, b);
      case StageThenCancel(m, b) => StageThenCancelKeeps(s, m, b);
      case DropAbandoned(m, removed) => DropAbandonedKeeps(s, m, removed);
      case PutPart(u, p, size, etag, pieces, now) => PutPartKeeps(s, u, p, size, etag, pieces, now);
      case Condemn(b) => CondemnKeeps(s, b);
      case Forget(b) => ForgetKeeps(s, b);
    }
  }

  lemma RequestStepKeeps(s: Sys, e: RequestEvent)
    requires Inv(s) && RequestEnabled(s, e)
    ensures Inv(RequestEffect(s, e))
  {
    match e {
      case CreateBucket(bucket) => CreateBucketKeeps(s, bucket);
      case DeleteBucket(bucket) => DeleteBucketKeeps(s, bucket);
      case CreateUpload(u, name, now) => CreateUploadKeeps(s, u, name, now);
      case Commit(u, size, etag, parts, condition, id, now) => CommitKeeps(s, u, size, etag, parts, condition, id, now);
      case Abort(u, now) =>
        if u in s.t.uploads {
          AbortKeeps(s, u, now);
        }
      case Delete(name, condition, now) => DeleteKeeps(s, name, now);
      case ReadRow(name) => ReadRowKeeps(s, name);
      case ReadPieces(row) => ReadPiecesKeeps(s, row);
      case Copy(source, name, condition, id, now) => CopyKeeps(s, source, name, condition, id, now);
    }
  }

  lemma CollectorStepKeeps(s: Sys, e: CollectorEvent)
    requires Inv(s) && CollectorEnabled(s, e)
    ensures Inv(CollectorEffect(s, e))
  {
    match e {
      case QueueStale(b, now) => QueueStaleKeeps(s, b, now);
      case PickCandidate(b, now) => PickCandidateKeeps(s, b, now);
      case BatchFails(g, removed) => MessageDeleted(s, g.message, removed);
      case CollectorDeletes(g, outcome, nextAttempt) => CollectorDeletesKeeps(s, g, outcome, nextAttempt);
      case CollectorOrphans(g) => CollectorEndsKeeps(s, g);
      case CollectorReports(g) => CollectorEndsKeeps(s, g);
      case CollectorStops(g) => CollectorEndsKeeps(s, g);
    }
  }

  /** Every step of every actor keeps the invariant. */
  lemma StepKeepsInv(s: Sys, e: Event)
    requires Inv(s)
    ensures Inv(Step(s, e))
  {
    if Enabled(s, e) {
      match e {
        case Upload(up) => UploadStepKeeps(s, up);
        case Cleanup(clean) => CleanupStepKeeps(s, clean);
        case Request(req) => RequestStepKeeps(s, req);
        case Collect(gc) => CollectorStepKeeps(s, gc);
        case Restart => RestartKeeps(s);
      }
    }
  }

  lemma {:induction false} RunKeepsInv(events: seq<Event>)
    ensures Inv(Run(INITIAL, events))
  {
    if |events| == 0 {
      assert Valid(EMPTY);
    } else {
      RunKeepsInv(events[..|events| - 1]);
      StepKeepsInv(Run(INITIAL, events[..|events| - 1]), events[|events| - 1]);
    }
  }
}
