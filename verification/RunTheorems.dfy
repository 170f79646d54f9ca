/** What holds at every point of every run, and between two points of one run. */
module RunTheorems {
  import opened Prelude
  import opened Schema
  import opened Conditions
  import opened Text
  import opened Lifecycle
  import opened Safety
  import T = Transactions
  import I = Invariants

  ghost function StateAt(events: seq<Event>, i: nat): Sys
    requires i <= |events|
  {
    Run(INITIAL, events[..i])
  }

  lemma StateAfter(events: seq<Event>, i: nat)
    requires i < |events|
    ensures StateAt(events, i + 1) == Step(StateAt(events, i), events[i])
    ensures Inv(StateAt(events, i))
  {
    assert events[..i + 1][..i] == events[..i];
    RunKeepsInv(events[..i]);
  }

  // ---- what a request changes ----

  /** The object row that event `e` stores, if it is a commit or copy that succeeds in `s`. */
  function Written(s: Sys, e: RequestEvent): Option<ObjectSnapshot> {
    match e
    case Commit(u, size, etag, parts, condition, id, now) =>
      var r := T.CommitUpload(s.t, u, size, etag, parts, condition, id, now);
      if r.Ok? && r.value.Some?
      then Some(T.ObjectSnapshot(s.t.uploads[u].name, ObjectRow(id, size, etag, T.Flatten(parts))))
      else None
    case Copy(source, name, condition, id, now) =>
      if T.CopyObject(s.t, source, name, condition, id, now).Ok?
      then Some(T.ObjectSnapshot(name, source.row.(id := id)))
      else None
    case _ => None
  }

  function DeletedName(s: Sys, e: RequestEvent): Option<Name> {
    if e.Delete? && e.name in s.t.objects && e.condition.Allows(T.EtagAt(s.t, e.name)) then Some(e.name) else None
  }

  /** The upload that event `e` ends, by committing or by aborting it. */
  function Finished(s: Sys, e: RequestEvent): Option<UploadId> {
    if e.Commit? && Written(s, e).Some? then Some(e.u)
    else if e.Abort? && e.u in s.t.uploads then Some(e.u)
    else None
  }

  ghost predicate ObjectsBecome(s: Sys, s': Sys, written: Option<ObjectSnapshot>, deleted: Option<Name>) {
    match written
    case Some(x) =>
      && s'.t.objects == s.t.objects[x.name := x.row]
      && s'.history == s.history[x.row.id := x]
    case None =>
      && s'.t.objects == (if deleted.Some? then s.t.objects - {deleted.value} else s.t.objects)
      && s'.history == s.history
  }

  ghost predicate MessagesUntouched(s: Sys, s': Sys) {
    s'.live == s.live && s'.sent == s.sent && s'.recorded == s.recorded
  }

  lemma CommittedChanges(s: Sys, u: UploadId, row: ObjectRow, unused: set<BlockId>, now: int)
    requires Valid(s.t) && u in s.t.uploads
    ensures var t' := T.Committed(s.t, u, row, unused, now);
      t'.objects == s.t.objects[s.t.uploads[u].name := row] && t'.uploads == s.t.uploads - {u}
  {
    I.CommittedShape(s.t, u, row, unused, now);
    var name := s.t.uploads[u].name;
    assert (s.t.objects - {name})[name := row] == s.t.objects[name := row];
  }

  lemma CommitChanges(s: Sys, e: RequestEvent)
    requires Inv(s) && RequestEnabled(s, e) && e.Commit?
    ensures var s' := RequestEffect(s, e);
      && ObjectsBecome(s, s', Written(s, e), None)
      && MessagesUntouched(s, s') && s'.usedUploads == s.usedUploads
      && s'.t.uploads == (if Written(s, e).Some? then s.t.uploads - {e.u} else s.t.uploads)
    ensures Written(s, e).Some? ==> e.u in s.t.uploads && e.condition.Allows(T.EtagAt(s.t, Written(s, e).value.name))
  {
    if Written(s, e).Some? {
      CommittedChanges(s, e.u, Written(s, e).value.row, UploadIds(s.t.uploads[e.u]) - T.PartIds(e.parts), e.now);
    }
  }

  lemma CopiedChanges(s: Sys, source: ObjectSnapshot, name: Name, condition: Condition, id: ObjectId, now: int)
    requires Valid(s.t) && T.CopyObject(s.t, source, name, condition, id, now).Ok?
    ensures var t' := T.CopyObject(s.t, source, name, condition, id, now).value;
      t'.objects == s.t.objects[name := source.row.(id := id)] && t'.uploads == s.t.uploads
    ensures condition.Allows(T.EtagAt(s.t, name))
  {
    I.SwapShape(s.t, name, source.row.(id := id), now);
  }

  lemma CopyChanges(s: Sys, e: RequestEvent)
    requires Inv(s) && RequestEnabled(s, e) && e.Copy?
    ensures var s' := RequestEffect(s, e);
      && ObjectsBecome(s, s', Written(s, e), None)
      && MessagesUntouched(s, s') && s'.usedUploads == s.usedUploads && s'.t.uploads == s.t.uploads
    ensures Written(s, e).Some? ==> e.condition.Allows(T.EtagAt(s.t, e.name))
  {
    if Written(s, e).Some? {
      CopiedChanges(s, e.source, e.name, e.condition, e.id, e.now);
    }
  }

  lemma DeleteChanges(s: Sys, e: RequestEvent)
    requires RequestEnabled(s, e) && e.Delete?
    ensures var s' := RequestEffect(s, e);
      && ObjectsBecome(s, s', None, DeletedName(s, e))
      && MessagesUntouched(s, s') && s'.usedUploads == s.usedUploads && s'.t.uploads == s.t.uploads
  {
    var t' := T.RemoveObject(s.t, e.name, e.now);
    assert t'.objects == s.t.objects - {e.name} && t'.uploads == s.t.uploads;
  }

  lemma AbortChanges(s: Sys, e: RequestEvent)
    requires RequestEnabled(s, e) && e.Abort?
    ensures var s' := RequestEffect(s, e);
      && ObjectsBecome(s, s', None, None)
      && MessagesUntouched(s, s') && s'.usedUploads == s.usedUploads && s'.t.uploads == s.t.uploads - {e.u}
  {
  }

  lemma RequestChanges(s: Sys, e: RequestEvent)
    requires Inv(s) && RequestEnabled(s, e)
    ensures var s' := RequestEffect(s, e);
      && ObjectsBecome(s, s', Written(s, e), DeletedName(s, e))
      && MessagesUntouched(s, s')
      && s'.usedUploads == (if e.CreateUpload? then s.usedUploads + {e.u} else s.usedUploads)
      && s'.t.uploads.Keys <= (if e.CreateUpload? then s.t.uploads.Keys + {e.u} else s.t.uploads.Keys)
      && (Finished(s, e).Some? ==> Finished(s, e).value in s.t.uploads && Finished(s, e).value !in s'.t.uploads)
  {
    if e.Commit? {
      CommitChanges(s, e);
    } else if e.Copy? {
      CopyChanges(s, e);
    } else if e.Delete? {
      DeleteChanges(s, e);
    } else if e.Abort? {
      AbortChanges(s, e);
    } else {
      OtherRequestChanges(s, e);
    }
  }

  lemma DeleteBucketTables(t: Tables, bucket: string)
    ensures T.DeleteBucket(t, bucket).Ok? ==>
      T.DeleteBucket(t, bucket).value.objects == t.objects && T.DeleteBucket(t, bucket).value.uploads == t.uploads
  {
  }

  lemma ReadChanges(s: Sys, e: RequestEvent)
    requires RequestEnabled(s, e) && (e.ReadRow? || e.ReadPieces?)
    ensures RequestEffect(s, e).t == s.t && RequestEffect(s, e).history == s.history
    ensures MessagesUntouched(s, RequestEffect(s, e)) && RequestEffect(s, e).usedUploads == s.usedUploads
  {
  }

  lemma OtherRequestChanges(s: Sys, e: RequestEvent)
    requires RequestEnabled(s, e) && !e.Commit? && !e.Copy? && !e.Delete? && !e.Abort?
    ensures var s' := RequestEffect(s, e);
      && ObjectsBecome(s, s', None, None)
      && MessagesUntouched(s, s')
      && s'.usedUploads == (if e.CreateUpload? then s.usedUploads + {e.u} else s.usedUploads)
      && s'.t.uploads.Keys <= (if e.CreateUpload? then s.t.uploads.Keys + {e.u} else s.t.uploads.Keys)
  {
    if e.DeleteBucket? {
      DeleteBucketTables(s.t, e.bucket);
    } else if e.ReadRow? || e.ReadPieces? {
      ReadChanges(s, e);
    }
  }

  /** A step that leaves objects, uploads and histories alone and sends no message. */
  ghost predicate OnlyCollects(s: Sys, s': Sys) {
    && s'.t.objects == s.t.objects && s'.t.uploads == s.t.uploads
    && s'.history == s.history && s'.usedUploads == s.usedUploads
    && s'.sent == s.sent && s'.recorded == s.recorded && s'.live <= s.live
  }

  lemma GcTables(t: Tables, b: BlockId, now: int)
    ensures T.QueueStaleBlock(t, b, now).0.objects == t.objects && T.QueueStaleBlock(t, b, now).0.uploads == t.uploads
    ensures T.GcSuccess(t, b).objects == t.objects && T.GcSuccess(t, b).uploads == t.uploads
  {
  }

  lemma GcMarks(t: Tables, b: BlockId, now: int)
    ensures T.GcFailure(t, b, now).objects == t.objects && T.GcFailure(t, b, now).uploads == t.uploads
    ensures T.GcOrphan(t, b).objects == t.objects && T.GcOrphan(t, b).uploads == t.uploads
  {
  }

  lemma QueueingOnlyCollects(s: Sys, c: Cleaner, dbFails: bool, now: int)
    requires c.ToQueue?
    ensures OnlyCollects(s, DoCleanerQueues(s, c, dbFails, now))
  {
  }

  lemma DeletingOnlyCollects(s: Sys, c: Cleaner, outcome: Outcome)
    requires c.ToDelete?
    ensures OnlyCollects(s, DoCleanerDeletes(s, c, outcome))
  {
    assert DoCleanerDeletes(s, c, outcome).t == s.t;
  }

  lemma CleanupOnlyCollects(s: Sys, e: CleanupEvent)
    requires CleanupEnabled(s, e)
    ensures OnlyCollects(s, CleanupEffect(s, e))
  {
    match e {
      case StartCleaner(_) =>
      case CleanerQueues(c, dbFails, now) => QueueingOnlyCollects(s, c, dbFails, now);
      case CleanerDeletes(c, outcome) => DeletingOnlyCollects(s, c, outcome);
      case CleanerReports(c, _) => GcTables(s.t, c.id, 0);
    }
  }

  lemma CollectingOnlyCollects(s: Sys, g: Collector, outcome: Outcome, nextAttempt: int)
    requires g.Candidate?
    ensures OnlyCollects(s, DoCollectorDeletes(s, g, outcome, nextAttempt))
  {
    GcMarks(s.t, g.id, nextAttempt);
    if outcome.Unclear? {
      var s0 := s.(t := T.GcFailure(s.t, g.id, nextAttempt));
      assert OnlyCollects(s, s0);
      assert OnlyCollects(s0, Telegram(s0, g.message, outcome.removed));
    }
  }

  lemma CollectorOnlyCollects(s: Sys, e: CollectorEvent)
    requires CollectorEnabled(s, e)
    ensures OnlyCollects(s, CollectorEffect(s, e))
  {
    match e {
      case QueueStale(b, now) => GcTables(s.t, b, now);
      case CollectorDeletes(g, outcome, nextAttempt) => CollectingOnlyCollects(s, g, outcome, nextAttempt);
      case CollectorOrphans(g) => GcMarks(s.t, g.id, 0);
      case CollectorReports(g) => GcTables(s.t, g.id, 0);
      case _ =>
    }
  }

  // ---- garbage collection ----

  lemma StepKeepsDeleted(s: Sys, e: Event, m: MessageId)
    requires Inv(s) && m in s.sent && m !in s.live
    ensures m in Step(s, e).sent && m !in Step(s, e).live
  {
    if Enabled(s, e) {
      match e {
        case Upload(up) => UploadKeepsDeleted(s, up, m);
        case Cleanup(clean) => CleanupOnlyCollects(s, clean);
        case Request(req) => RequestChanges(s, req);
        case Collect(gc) => CollectorOnlyCollects(s, gc);
        case Restart =>
      }
    }
  }

  lemma UploadKeepsDeleted(s: Sys, e: UploadEvent, m: MessageId)
    requires UploadEnabled(s, e) && m in s.sent && m !in s.live
    ensures m in UploadEffect(s, e).sent && m !in UploadEffect(s, e).live
  {
  }

  lemma {:induction false} DeletedForever(events: seq<Event>, i: nat, j: nat, m: MessageId)
    requires i <= j <= |events|
    requires m in StateAt(events, i).sent && m !in StateAt(events, i).live
    ensures m in StateAt(events, j).sent && m !in StateAt(events, j).live
    decreases j - i
  {
    if i < j {
      StateAfter(events, i);
      StepKeepsDeleted(StateAt(events, i), events[i], m);
      DeletedForever(events, i + 1, j, m);
    }
  }

  /**
   * Once a message is deleted, by a cleaner, a collector or a guard, no object and no part refers to its
   * block: not at that moment and not at any later one, whatever else runs in between.
   */
  lemma CollectionIsSafe(events: seq<Event>, i: nat, j: nat, m: MessageId, b: BlockId)
    requires i <= j <= |events|
    requires m in StateAt(events, i).sent && m !in StateAt(events, i).live
    requires b in StateAt(events, j).t.blocks && StateAt(events, j).t.blocks[b].message == m
    ensures !Referenced(StateAt(events, j).t, b)
  {
    DeletedForever(events, i, j, m);
    RunKeepsInv(events[..j]);
    assert LiveOk(StateAt(events, j));
    assert !Usable(StateAt(events, j), b);
  }

  /** Every piece of every stored object has a row whose message Telegram still holds. */
  lemma StoredObjectsAreReadable(events: seq<Event>, name: Name, i: nat)
    requires name in Run(INITIAL, events).t.objects && i < |Run(INITIAL, events).t.objects[name].pieces|
    ensures var s := Run(INITIAL, events);
      var b := s.t.objects[name].pieces[i].id;
      b in s.t.blocks && s.t.blocks[b].message in s.live && b !in s.t.queue
  {
    var s := Run(INITIAL, events);
    RunKeepsInv(events);
    var b := s.t.objects[name].pieces[i].id;
    assert b in Ids(s.t.objects[name].pieces);
    I.CountHeld(s.t.objects, name, b);
    ReferencedExists(s.t, b);
    assert Usable(s, b);
  }

  /** Reference counts are exact whenever no transaction is running. */
  lemma RefCountsAreExactInRuns(events: seq<Event>, b: BlockId)
    requires b in Run(INITIAL, events).t.blocks
    ensures var t := Run(INITIAL, events).t;
      var rows := |ObjectBlockRows(t, b)| + |PartBlockRows(t, b)|;
      && (rows > 0 ==> t.blocks[b].refCount == rows && b !in t.queue)
      && (rows == 0 ==>
            || (t.blocks[b].refCount == 1 && !t.blocks[b].committed && b !in t.queue)
            || (t.blocks[b].refCount == 0 && b in t.queue))
  {
    RunKeepsInv(events);
    RefCountsAreExact(Run(INITIAL, events).t, b);
  }

  // ---- being queued is absorbing ----

  /** No step takes a block out of the queue without deleting its row, or inserts a row under a used id. */
  ghost predicate QueueKept(s: Sys, s': Sys) {
    && (forall b :: b in s.t.queue ==> b in s'.t.queue || b !in s'.t.blocks)
    && (forall b :: b in RecordedIds(s) && b !in s.t.blocks ==> b !in s'.t.blocks)
    && RecordedIds(s) <= RecordedIds(s')
  }

  lemma EvolvedQueueKept(s: Sys, s': Sys, gain: set<BlockId>)
    requires I.Evolves(s.t, s'.t, gain) && s'.recorded == s.recorded
    ensures QueueKept(s, s')
  {
  }

  lemma EvolvesToItself(t: Tables)
    ensures I.Evolves(t, t, {})
  {
  }

  lemma UploadQueueKept(s: Sys, e: UploadEvent)
    requires Inv(s) && UploadEnabled(s, e)
    ensures QueueKept(s, UploadEffect(s, e))
  {
    match e {
      case StageBlock(m, b) => StageQueueKept(s, m, b);
      case StageThenCancel(m, b) => StageQueueKept(s, m, b);
      case PutPart(u, p, size, etag, pieces, now) =>
        EvolvesToItself(s.t);
        MayPutMayReceive(s, u, p, pieces);
        I.ReplacePartKeepsValid(s.t, u, p, size, etag, pieces, now);
        EvolvedQueueKept(s, UploadEffect(s, e), if T.ReplacePart(s.t, u, p, size, etag, pieces, now).Ok? then Ids(pieces) else {});
      case _ =>
        EvolvesToItself(s.t);
        EvolvedQueueKept(s, UploadEffect(s, e), {});
    }
  }

  lemma StageQueueKept(s: Sys, m: MessageId, b: BlockId)
    requires Inv(s) && m in s.unregistered && b !in RecordedIds(s)
    ensures QueueKept(s, Stage(s, m, b))
  {
    var s' := Stage(s, m, b);
    forall c | c in RecordedIds(s) ensures c in RecordedIds(s') {
      var x :| x in s.recorded && s.recorded[x] == c;
      assert x != m;
      assert s'.recorded[x] == c;
    }
  }

  lemma CleanupEvolves(s: Sys, e: CleanupEvent)
    requires Inv(s) && CleanupEnabled(s, e)
    ensures I.Evolves(s.t, CleanupEffect(s, e).t, {})
  {
    EvolvesToItself(s.t);
    match e {
      case CleanerQueues(c, _, now) => I.QueueStaleBlockKeepsValid(s.t, c.id, now);
      case CleanerReports(c, _) => I.GcSuccessKeepsValid(s.t, c.id);
      case _ =>
    }
  }

  lemma RequestEvolves(s: Sys, e: RequestEvent)
    requires Inv(s) && RequestEnabled(s, e)
    ensures I.Evolves(s.t, RequestEffect(s, e).t, {})
  {
    EvolvesToItself(s.t);
    match e {
      case CreateBucket(bucket) => I.BucketsKeepValid(s.t, s.t.buckets + {bucket});
      case DeleteBucket(bucket) =>
        if T.DeleteBucket(s.t, bucket).Ok? && T.DeleteBucket(s.t, bucket).value != s.t {
          I.BucketsKeepValid(s.t, s.t.buckets - {bucket});
        }
      case CreateUpload(u, name, now) => I.CreateUploadKeepsValid(s.t, u, name, now);
      case Commit(u, size, etag, parts, condition, id, now) =>
        I.CommitUploadKeepsValid(s.t, u, size, etag, parts, condition, id, now);
      case Abort(u, now) =>
        if u in s.t.uploads {
          I.AbortUploadKeepsValid(s.t, u, now);
        }
      case Delete(name, _, now) => I.RemoveObjectKeepsValid(s.t, name, now);
      case Copy(source, name, condition, id, now) => I.CopyObjectKeepsValid(s.t, source, name, condition, id, now);
      case _ =>
    }
  }

  lemma CollectorEvolves(s: Sys, e: CollectorEvent)
    requires Inv(s) && CollectorEnabled(s, e)
    ensures I.Evolves(s.t, CollectorEffect(s, e).t, {})
  {
    EvolvesToItself(s.t);
    match e {
      case QueueStale(b, now) => I.QueueStaleBlockKeepsValid(s.t, b, now);
      case CollectorDeletes(g, outcome, nextAttempt) =>
        I.GcFailureKeepsValid(s.t, g.id, nextAttempt);
        DeletionTables(s, g, outcome, nextAttempt);
      case CollectorOrphans(g) => I.GcFailureKeepsValid(s.t, g.id, 0);
      case CollectorReports(g) => I.GcSuccessKeepsValid(s.t, g.id);
      case _ =>
    }
  }

  lemma DeletionTables(s: Sys, g: Collector, outcome: Outcome, nextAttempt: int)
    requires g.Candidate?
    ensures DoCollectorDeletes(s, g, outcome, nextAttempt).t
      == if outcome.Unclear? then T.GcFailure(s.t, g.id, nextAttempt) else s.t
  {
  }

  lemma StepQueueKept(s: Sys, e: Event)
    requires Inv(s)
    ensures QueueKept(s, Step(s, e))
  {
    if Enabled(s, e) {
      match e {
        case Upload(up) => UploadQueueKept(s, up);
        case Cleanup(clean) =>
          CleanupEvolves(s, clean);
          CleanupOnlyCollects(s, clean);
          EvolvedQueueKept(s, CleanupEffect(s, clean), {});
        case Request(req) =>
          RequestEvolves(s, req);
          RequestChanges(s, req);
          EvolvedQueueKept(s, RequestEffect(s, req), {});
        case Collect(gc) =>
          CollectorEvolves(s, gc);
          CollectorOnlyCollects(s, gc);
          EvolvedQueueKept(s, CollectorEffect(s, gc), {});
        case Restart =>
      }
    }
  }

  /** A queued block stays queued, with count 0 and unreferenced, until its row is deleted for good. */
  lemma {:induction false} QueuedIsAbsorbing(events: seq<Event>, i: nat, j: nat, b: BlockId)
    requires i <= j <= |events|
    requires b in StateAt(events, i).t.queue ||
      (b in RecordedIds(StateAt(events, i)) && b !in StateAt(events, i).t.blocks)
    ensures var t := StateAt(events, j).t;
      b in t.blocks ==> b in t.queue && t.blocks[b].refCount == 0 && !Referenced(t, b)
    decreases j - i
  {
    RunKeepsInv(events[..i]);
    var s := StateAt(events, i);
    if b in s.t.queue {
      assert s.recorded[s.t.blocks[b].message] in RecordedIds(s);
      assert BlockOk(s.t, b);
    }
    if i < j {
      StateAfter(events, i);
      StepQueueKept(s, events[i]);
      QueuedIsAbsorbing(events, i + 1, j, b);
    }
  }

  // ---- reads ----

  lemma OtherStepsKeepObjects(s: Sys, e: Event)
    requires Inv(s) && !e.Request?
    ensures Step(s, e).t.objects == s.t.objects && Step(s, e).history == s.history
    ensures Step(s, e).usedUploads == s.usedUploads && Step(s, e).t.uploads.Keys == s.t.uploads.Keys
  {
    if Enabled(s, e) {
      match e {
        case Upload(up) => UploadKeepsObjects(s, up);
        case Cleanup(clean) => CleanupOnlyCollects(s, clean);
        case Collect(gc) => CollectorOnlyCollects(s, gc);
        case Restart =>
      }
    }
  }

  lemma UploadKeepsObjects(s: Sys, e: UploadEvent)
    requires UploadEnabled(s, e)
    ensures var s' := UploadEffect(s, e);
      s'.t.objects == s.t.objects && s'.history == s.history
      && s'.usedUploads == s.usedUploads && s'.t.uploads.Keys == s.t.uploads.Keys
  {
    match e
    case PutPart(u, p, size, etag, pieces, now) => PutPartKeepsObjects(s, u, p, size, etag, pieces, now);
    case StageBlock(m, b) => StageKeepsObjects(s, m, b);
    case StageThenCancel(m, b) => StageKeepsObjects(s, m, b);
    case _ =>
  }

  lemma StageKeepsObjects(s: Sys, m: MessageId, b: BlockId)
    ensures var s' := Stage(s, m, b);
      s'.t.objects == s.t.objects && s'.history == s.history
      && s'.usedUploads == s.usedUploads && s'.t.uploads == s.t.uploads
  {
  }

  lemma PutPartKeepsObjects(s: Sys, u: UploadId, p: PartNumber, size: i64, etag: string, pieces: seq<Piece>, now: int)
    ensures var s' := DoPutPart(s, u, p, size, etag, pieces, now);
      s'.t.objects == s.t.objects && s'.history == s.history
      && s'.usedUploads == s.usedUploads && s'.t.uploads.Keys == s.t.uploads.Keys
  {
  }

  lemma HistoryStep(s: Sys, e: Event, id: ObjectId)
    requires Inv(s) && id in Step(s, e).history
    ensures (id in s.history && Step(s, e).history[id] == s.history[id])
      || (var x := Step(s, e).history[id]; x.name in Step(s, e).t.objects && Step(s, e).t.objects[x.name] == x.row)
  {
    if e.Request? {
      if RequestEnabled(s, e.req) {
        RequestChanges(s, e.req);
      }
    } else {
      OtherStepsKeepObjects(s, e);
    }
  }

  /** Every object row in the history was stored under its name at some point of the run. */
  lemma {:induction false} HistoryWasStored(events: seq<Event>, i: nat, id: ObjectId) returns (k: nat)
    requires i <= |events| && id in StateAt(events, i).history
    ensures k <= i
    ensures var x := StateAt(events, i).history[id];
      x.name in StateAt(events, k).t.objects && StateAt(events, k).t.objects[x.name] == x.row
  {
    if i == 0 {
      assert false;
    } else {
      StateAfter(events, i - 1);
      HistoryStep(StateAt(events, i - 1), events[i - 1], id);
      var before := StateAt(events, i - 1);
      if id in before.history && StateAt(events, i).history[id] == before.history[id] {
        k := HistoryWasStored(events, i - 1, id);
      } else {
        k := i;
      }
    }
  }

  lemma UploadKeepsReads(s: Sys, e: UploadEvent)
    requires UploadEnabled(s, e)
    ensures UploadEffect(s, e).seen == s.seen && UploadEffect(s, e).snapshots == s.snapshots
  {
  }

  lemma CleanupKeepsReads(s: Sys, e: CleanupEvent)
    requires CleanupEnabled(s, e)
    ensures CleanupEffect(s, e).seen == s.seen && CleanupEffect(s, e).snapshots == s.snapshots
  {
  }

  lemma CollectorKeepsReads(s: Sys, e: CollectorEvent)
    requires CollectorEnabled(s, e)
    ensures CollectorEffect(s, e).seen == s.seen && CollectorEffect(s, e).snapshots == s.snapshots
  {
    match e
    case CollectorDeletes(g, outcome, nextAttempt) => DeletionKeepsReads(s, g, outcome, nextAttempt);
    case _ =>
  }

  lemma DeletionKeepsReads(s: Sys, g: Collector, outcome: Outcome, nextAttempt: int)
    requires g.Candidate?
    ensures var s' := DoCollectorDeletes(s, g, outcome, nextAttempt);
      s'.seen == s.seen && s'.snapshots == s.snapshots
  {
  }

  function SeenOf(x: ObjectSnapshot): SeenRow {
    SeenRow(x.name, x.row.id, x.row.size, x.row.etag)
  }

  /** What is seen, and what a read returns, come from the first and the second query. */
  ghost predicate ReadsFrom(s: Sys, s': Sys, e: Event) {
    && (forall row :: row in s'.seen ==>
          row in s.seen || (e == Request(ReadRow(row.name)) && row.name in s.t.objects
                            && row == SeenOf(T.ObjectSnapshot(row.name, s.t.objects[row.name]))))
    && (forall x :: x in s'.snapshots ==>
          x in s.snapshots || (e == Request(ReadPieces(SeenOf(x))) && SeenOf(x) in s.seen && Assembled(s.t, SeenOf(x)) == Some(x)))
  }

  lemma OtherRequestsKeepReads(s: Sys, e: RequestEvent)
    requires RequestEnabled(s, e) && !e.ReadRow? && !e.ReadPieces?
    ensures RequestEffect(s, e).seen == s.seen && RequestEffect(s, e).snapshots == s.snapshots
  {
  }

  lemma RowRead(s: Sys, name: Name)
    requires name in s.t.objects
    ensures DoReadRow(s, name) == s.(seen := s.seen + {SeenOf(T.ObjectSnapshot(name, s.t.objects[name]))})
  {
  }

  lemma PiecesRead(s: Sys, row: SeenRow)
    requires row in s.seen
    ensures var s' := RequestEffect(s, ReadPieces(row));
      && s'.seen == s.seen
      && s'.snapshots == s.snapshots + (if Assembled(s.t, row).Some? then {Assembled(s.t, row).value} else {})
    ensures Assembled(s.t, row).Some? ==> SeenOf(Assembled(s.t, row).value) == row
  {
  }

  lemma RequestReads(s: Sys, e: RequestEvent)
    requires RequestEnabled(s, e)
    ensures ReadsFrom(s, RequestEffect(s, e), Request(e))
  {
    if e.ReadRow? {
      RowRead(s, e.name);
    } else if e.ReadPieces? {
      PiecesRead(s, e.row);
    } else {
      OtherRequestsKeepReads(s, e);
    }
  }

  lemma StepReads(s: Sys, e: Event)
    ensures ReadsFrom(s, Step(s, e), e)
  {
    if Enabled(s, e) {
      match e
      case Upload(up) => UploadKeepsReads(s, up);
      case Cleanup(clean) => CleanupKeepsReads(s, clean);
      case Request(req) => RequestReads(s, req);
      case Collect(gc) => CollectorKeepsReads(s, gc);
      case Restart =>
    }
  }

  lemma {:induction false} SeenAtFirstQuery(events: seq<Event>, j: nat, row: SeenRow) returns (k: nat)
    requires j <= |events| && row in StateAt(events, j).seen
    ensures k < j && events[k] == Request(ReadRow(row.name))
    ensures row.name in StateAt(events, k).t.objects
    ensures row == SeenOf(T.ObjectSnapshot(row.name, StateAt(events, k).t.objects[row.name]))
  {
    k := j - 1;
    StateAfter(events, j - 1);
    StepReads(StateAt(events, j - 1), events[j - 1]);
    if row in StateAt(events, j - 1).seen {
      k := SeenAtFirstQuery(events, j - 1, row);
    }
  }

  lemma {:induction false} ReturnedAtSecondQuery(events: seq<Event>, j: nat, x: ObjectSnapshot) returns (k: nat)
    requires j <= |events| && x in StateAt(events, j).snapshots
    ensures k < j && events[k] == Request(ReadPieces(SeenOf(x)))
    ensures SeenOf(x) in StateAt(events, k).seen && Assembled(StateAt(events, k).t, SeenOf(x)) == Some(x)
  {
    k := j - 1;
    StateAfter(events, j - 1);
    StepReads(StateAt(events, j - 1), events[j - 1]);
    if x in StateAt(events, j - 1).snapshots {
      k := ReturnedAtSecondQuery(events, j - 1, x);
    }
  }

  lemma HistoryKept(s: Sys, e: Event, id: ObjectId)
    requires Inv(s) && id in s.history
    ensures id in Step(s, e).history && Step(s, e).history[id] == s.history[id]
  {
    if e.Request? {
      if RequestEnabled(s, e.req) {
        RequestChanges(s, e.req);
      }
    } else {
      OtherStepsKeepObjects(s, e);
    }
  }

  lemma {:induction false} HistoryStays(events: seq<Event>, i: nat, j: nat, id: ObjectId)
    requires i <= j <= |events| && id in StateAt(events, i).history
    ensures id in StateAt(events, j).history && StateAt(events, j).history[id] == StateAt(events, i).history[id]
    decreases j - i
  {
    if i < j {
      HistoryStays(events, i, j - 1, id);
      StateAfter(events, j - 1);
      HistoryKept(StateAt(events, j - 1), events[j - 1], id);
    }
  }

  /** A read of two queries returns the object exactly as it was stored at its first query, whatever runs in between. */
  lemma TornReadsNeverEscape(events: seq<Event>, x: ObjectSnapshot) returns (first: nat, second: nat)
    requires x in Run(INITIAL, events).snapshots
    ensures first < second < |events|
    ensures events[first] == Request(ReadRow(x.name)) && events[second] == Request(ReadPieces(SeenOf(x)))
    ensures x.name in StateAt(events, first).t.objects && StateAt(events, first).t.objects[x.name] == x.row
  {
    assert events[..|events|] == events;
    second := ReturnedAtSecondQuery(events, |events|, x);
    first := SeenAtFirstQuery(events, second, SeenOf(x));
    RunKeepsInv(events[..first]);
    RunKeepsInv(events[..second]);
    ReadIsExact(StateAt(events, second), SeenOf(x));
    HistoryStays(events, first, second, x.row.id);
  }

  /** When the source lock of a copy succeeds, what was read earlier is what is stored now, block for block. */
  lemma CopySourceIsCurrent(events: seq<Event>, source: ObjectSnapshot)
    requires source in Run(INITIAL, events).snapshots
    ensures var t := Run(INITIAL, events).t;
      source.name in t.objects && t.objects[source.name].id == source.row.id ==> t.objects[source.name] == source.row
  {
    RunKeepsInv(events);
  }

  // ---- conditional writes ----

  /** Event `e` stores an object under `name`. */
  predicate Writes(s: Sys, e: Event, name: Name) {
    e.Request? && RequestEnabled(s, e.req) && Written(s, e.req).Some? && Written(s, e.req).value.name == name
  }

  predicate Deletes(s: Sys, e: Event, name: Name) {
    e.Request? && DeletedName(s, e.req) == Some(name)
  }

  function ConditionOf(e: RequestEvent): Condition {
    if e.Commit? || e.Copy? || e.Delete? then e.condition else UNCONDITIONAL
  }

  /** A name changes hands only through a write or delete whose condition holds for the ETag in force at that moment. */
  lemma StoredNameStep(s: Sys, e: Event, name: Name)
    requires Inv(s)
    ensures Writes(s, e, name) ==>
      name in Step(s, e).t.objects && ConditionOf(e.req).Allows(T.EtagAt(s.t, name))
    ensures Deletes(s, e, name) ==> name !in Step(s, e).t.objects && ConditionOf(e.req).Allows(T.EtagAt(s.t, name))
    ensures T.EtagAt(Step(s, e).t, name) != T.EtagAt(s.t, name) ==> Writes(s, e, name) || Deletes(s, e, name)
    ensures name in s.t.objects && name !in Step(s, e).t.objects ==> Deletes(s, e, name)
  {
    if e.Request? {
      if RequestEnabled(s, e.req) {
        RequestChanges(s, e.req);
        if e.req.Commit? {
          CommitChanges(s, e.req);
        } else if e.req.Copy? {
          CopyChanges(s, e.req);
        }
      }
    } else {
      OtherStepsKeepObjects(s, e);
    }
  }

  /** A write or delete under a list of tags touches only a name that holds one of them, or for If-None-Match none. */
  lemma ListedTagsProtect(s: Sys, e: Event, name: Name, fields: seq<string>, tags: seq<string>)
    requires Inv(s) && ListOf(fields, tags) && (Writes(s, e, name) || Deletes(s, e, name))
    ensures ConditionOf(e.req) == Condition(Some(Join(fields, ',')), None) ==>
      name in s.t.objects && s.t.objects[name].etag in tags
    ensures ConditionOf(e.req) == Condition(None, Some(Join(fields, ','))) ==>
      name in s.t.objects ==> s.t.objects[name].etag !in tags
    ensures ConditionOf(e.req) == Condition(Some("*"), None) ==> name in s.t.objects
    ensures ConditionOf(e.req) == Condition(None, Some("*")) ==> name !in s.t.objects
  {
    StoredNameStep(s, e, name);
    ConditionsMean(fields, tags, T.EtagAt(s.t, name), "", "");
  }

  /** A request whose condition fails leaves the whole state unchanged. */
  lemma FailedConditionChangesNothing(s: Sys, e: Event)
    requires e.Request? && (e.req.Commit? || e.req.Copy? || e.req.Delete?)
    requires e.req.Commit? ==> e.req.u in s.t.uploads
    requires var name := if e.req.Commit? then s.t.uploads[e.req.u].name else e.req.name;
      !ConditionOf(e.req).Allows(T.EtagAt(s.t, name))
    ensures Step(s, e) == s
  {
  }

  lemma {:induction false} GoneMeansDeleted(events: seq<Event>, i: nat, j: nat, name: Name) returns (k: nat)
    requires i <= j <= |events|
    requires name in StateAt(events, i).t.objects && name !in StateAt(events, j).t.objects
    ensures i <= k < j && Deletes(StateAt(events, k), events[k], name)
    decreases j - i
  {
    if Deletes(StateAt(events, i), events[i], name) {
      k := i;
    } else {
      NameStays(events, i, name);
      k := GoneMeansDeleted(events, i + 1, j, name);
    }
  }

  lemma NameStays(events: seq<Event>, i: nat, name: Name)
    requires i < |events| && name in StateAt(events, i).t.objects
    requires !Deletes(StateAt(events, i), events[i], name)
    ensures name in StateAt(events, i + 1).t.objects
  {
    StateAfter(events, i);
    StoredNameStep(StateAt(events, i), events[i], name);
  }

  /** Between two create-only writes of one name that both succeed there is a successful delete of it. */
  lemma CreateOnlyWritesNeedADelete(events: seq<Event>, i: nat, j: nat, name: Name) returns (k: nat)
    requires i < j < |events|
    requires Writes(StateAt(events, i), events[i], name)
    requires Writes(StateAt(events, j), events[j], name) && ConditionOf(events[j].req) == CREATE_ONLY
    ensures i < k < j && Deletes(StateAt(events, k), events[k], name)
  {
    StateAfter(events, i);
    StoredNameStep(StateAt(events, i), events[i], name);
    StateAfter(events, j);
    StoredNameStep(StateAt(events, j), events[j], name);
    k := GoneMeansDeleted(events, i + 1, j, name);
  }

  // ---- one end for each upload ----

  predicate Finishes(s: Sys, e: Event, u: UploadId) {
    e.Request? && RequestEnabled(s, e.req) && Finished(s, e.req) == Some(u)
  }

  lemma FinishStep(s: Sys, e: Event, u: UploadId)
    requires Inv(s)
    ensures Finishes(s, e, u) ==> u in s.t.uploads
    ensures Finishes(s, e, u) || (u in s.usedUploads && u !in s.t.uploads) ==>
      u in Step(s, e).usedUploads && u !in Step(s, e).t.uploads
  {
    assert u in s.t.uploads ==> u in s.usedUploads;
    if e.Request? {
      if RequestEnabled(s, e.req) {
        RequestChanges(s, e.req);
      }
    } else {
      OtherStepsKeepObjects(s, e);
    }
  }

  lemma {:induction false} FinishedStays(events: seq<Event>, i: nat, j: nat, u: UploadId)
    requires i <= j <= |events|
    requires u in StateAt(events, i).usedUploads && u !in StateAt(events, i).t.uploads
    ensures u !in StateAt(events, j).t.uploads
    decreases j - i
  {
    if i < j {
      StateAfter(events, i);
      FinishStep(StateAt(events, i), events[i], u);
      FinishedStays(events, i + 1, j, u);
    }
  }

  /** Over any interleaving at most one commit or abort of an upload takes effect. */
  lemma UploadFinishesOnce(events: seq<Event>, i: nat, j: nat, u: UploadId)
    requires i < j < |events|
    requires Finishes(StateAt(events, i), events[i], u)
    ensures !Finishes(StateAt(events, j), events[j], u)
  {
    StateAfter(events, i);
    FinishStep(StateAt(events, i), events[i], u);
    FinishedStays(events, i + 1, j, u);
    StateAfter(events, j);
    FinishStep(StateAt(events, j), events[j], u);
  }

  lemma CommittedConserves(t: Tables, u: UploadId, row: ObjectRow, now: int, b: BlockId)
    requires Valid(t) && u in t.uploads && b in UploadIds(t.uploads[u])
    requires Ids(row.pieces) <= UploadIds(t.uploads[u])
    ensures var t' := T.Committed(t, u, row, UploadIds(t.uploads[u]) - Ids(row.pieces), now);
      var name := t.uploads[u].name;
      && name in t'.objects && t'.objects[name] == row && b in t'.blocks
      && (b in Ids(row.pieces) <==> b !in t'.queue)
      && (forall n :: n in t'.objects && n != name ==> b !in Ids(t'.objects[n].pieces))
  {
    var unused := UploadIds(t.uploads[u]) - Ids(row.pieces);
    I.PartsWithout(t, u);
    assert BlockOk(t, b);
    I.CommittedAt(t, u, row, unused, now, b);
    I.CommittedShape(t, u, row, unused, now);
    forall n | n in t.objects ensures b !in Ids(t.objects[n].pieces) {
      if b in Ids(t.objects[n].pieces) {
        I.CountHeld(t.objects, n, b);
      }
    }
  }

  /** After a commit each block of the upload is in the new object or in the queue, never both and never neither. */
  lemma CommitConservesBlocks(t: Tables, u: UploadId, size: i64, etag: string, parts: seq<T.PartSnapshot>,
                              condition: Condition, id: ObjectId, now: int, b: BlockId)
    requires Valid(t) && u in t.uploads && b in UploadIds(t.uploads[u])
    requires T.CommitUpload(t, u, size, etag, parts, condition, id, now).Ok?
    ensures var t' := T.CommitUpload(t, u, size, etag, parts, condition, id, now).value.value;
      var name := t.uploads[u].name;
      && T.PartsMatch(t.uploads[u], parts)
      && name in t'.objects && b in t'.blocks
      && (b in Ids(t'.objects[name].pieces) <==> b in T.PartIds(parts))
      && (b in Ids(t'.objects[name].pieces) <==> b !in t'.queue)
      && (forall n :: n in t'.objects && n != name ==> b !in Ids(t'.objects[n].pieces))
  {
    I.FlattenBlocks(parts);
    I.MatchedPartsAreHeld(t, u, parts);
    CommittedConserves(t, u, ObjectRow(id, size, etag, T.Flatten(parts)), now, b);
  }

  /** After an abort every block of the upload is queued and unreferenced. */
  lemma AbortConservesBlocks(t: Tables, u: UploadId, now: int, b: BlockId)
    requires Valid(t) && u in t.uploads && b in UploadIds(t.uploads[u])
    ensures var t' := T.AbortUpload(t, u, now).value;
      b in t'.blocks && b in t'.queue && t'.blocks[b].refCount == 0 && !Referenced(t', b)
  {
    I.PartsWithout(t, u);
    assert b in t.blocks;
    assert BlockOk(t, b);
  }
}
