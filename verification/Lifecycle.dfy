/**
 * The service as a state machine over its atomic steps: database transactions, Telegram calls, and the
 * moves of the multi-step actors between them. Any interleaving is a sequence of events; an event whose
 * guard does not hold leaves the state alone.
 */
module Lifecycle {
  import opened Prelude
  import opened Schema
  import opened Conditions
  import T = Transactions

  type Piece = Schema.Piece
  type ObjectSnapshot = T.ObjectSnapshot

  /** `cleanup_untracked_block` for one reference, by what it does next. */
  datatype Cleaner =
    | ToQueue(id: BlockId, message: MessageId)
    | ToDelete(id: BlockId, message: MessageId, queued: bool)
    | ToReport(id: BlockId)

  /** A candidate read from the queue by the garbage collector, by what happens to it next. */
  datatype Collector =
    | Candidate(id: BlockId, message: MessageId)
    | Collected(id: BlockId)

  /** The first query of `get_object`: everything but the pieces. */
  datatype SeenRow = SeenRow(name: Name, id: ObjectId, size: i64, etag: string)

  /** The answer to a delete call; `Unclear(removed)` is an error that may come after the message is gone. */
  datatype Outcome = Removed | Missing | Unclear(removed: bool)

  datatype Sys = Sys(
    t: Tables,
    live: set<MessageId>,                    // messages Telegram still has
    sent: set<MessageId>,                    // messages ever sent
    recorded: map<MessageId, BlockId>,       // block rows ever inserted
    usedUploads: set<UploadId>,              // upload ids ever given out
    history: map<ObjectId, ObjectSnapshot>,  // object rows ever inserted
    unregistered: set<MessageId>,            // uploaded, guarded, not yet in a row
    abandoned: set<MessageId>,               // in a row, but the cancelled task's guard will delete the message
    inFlight: map<BlockId, MessageId>,       // owned by the request that uploaded it
    condemned: map<BlockId, MessageId>,      // given up by that request, to be cleaned up
    cleaners: multiset<Cleaner>,
    collectors: multiset<Collector>,
    seen: set<SeenRow>,
    snapshots: set<ObjectSnapshot>)          // what the engine's get_object returned

  const INITIAL := Sys(EMPTY, {}, {}, map[], {}, map[], {}, {}, map[], map[], multiset{}, multiset{}, {}, {})

  /** An upload task, and the request that owns the staged block it hands over. */
  datatype UploadEvent =
    | SendMessage(m: MessageId)
    | DropUnregistered(m: MessageId, removed: bool)
    | StageBlock(m: MessageId, b: BlockId)
    | StageThenCancel(m: MessageId, b: BlockId)
    | DropAbandoned(m: MessageId, removed: bool)
    | PutPart(u: UploadId, p: PartNumber, size: i64, etag: string, pieces: seq<Piece>, now: int)
    | Condemn(b: BlockId)
    | Forget(b: BlockId)

  /** Cleanup of a condemned block; the same block may be cleaned more than once. */
  datatype CleanupEvent =
    | StartCleaner(b: BlockId)
    | CleanerQueues(c: Cleaner, dbFails: bool, now: int)
    | CleanerDeletes(c: Cleaner, outcome: Outcome)
    | CleanerReports(c: Cleaner, dbFails: bool)

  datatype RequestEvent =
    | CreateBucket(bucket: string)
    | DeleteBucket(bucket: string)
    | CreateUpload(u: UploadId, name: Name, now: int)
    | Commit(u: UploadId, size: i64, etag: string, parts: seq<T.PartSnapshot>, condition: Condition, id: ObjectId, now: int)
    | Abort(u: UploadId, now: int)
    | Delete(name: Name, condition: Condition, now: int)
    | ReadRow(name: Name)
    | ReadPieces(row: SeenRow)
    | Copy(source: ObjectSnapshot, name: Name, condition: Condition, id: ObjectId, now: int)

  /** Garbage collection, in the background or right after a release. */
  datatype CollectorEvent =
    | QueueStale(b: BlockId, now: int)
    | PickCandidate(b: BlockId, now: int)
    | BatchFails(g: Collector, removed: bool)
    | CollectorDeletes(g: Collector, outcome: Outcome, nextAttempt: int)
    | CollectorOrphans(g: Collector)
    | CollectorReports(g: Collector)
    | CollectorStops(g: Collector)

  datatype Event =
    | Upload(up: UploadEvent)
    | Cleanup(clean: CleanupEvent)
    | Request(req: RequestEvent)
    | Collect(gc: CollectorEvent)
    | Restart  // the process ends and starts again with the same database

  function WithTables(s: Sys, r: Result<Tables, T.Failure>): Sys {
    if r.Ok? then s.(t := r.value) else s
  }

  /** Deletes `m` in Telegram when `removed` says the call reached it. */
  function Telegram(s: Sys, m: MessageId, removed: bool): Sys {
    if removed then s.(live := s.live - {m}) else s
  }

  ghost function PiecesOf(t: Tables, id: ObjectId): seq<Piece> {
    if n :| n in t.objects && t.objects[n].id == id then t.objects[n].pieces else []
  }

  /** The engine's view of a two-step read: rejected unless its layout is valid. */
  ghost function Assembled(t: Tables, row: SeenRow): Option<ObjectSnapshot> {
    var pieces := PiecesOf(t, row.id);
    if ValidLayout(pieces, row.size)
    then Some(T.ObjectSnapshot(row.name, ObjectRow(row.id, row.size, row.etag, pieces)))
    else None
  }

  /** A request may put into a part the blocks it owns, or present those the part already holds. */
  predicate MayPut(s: Sys, u: UploadId, p: PartNumber, pieces: seq<Piece>) {
    Ids(pieces) <= s.inFlight.Keys + Ids(T.PartPieces(s.t, u, p))
  }

  function RecordedIds(s: Sys): set<BlockId> {
    set m | m in s.recorded :: s.recorded[m]
  }

  // ---- guards: a new row id, message or upload id was never used before ----

  predicate UploadEnabled(s: Sys, e: UploadEvent) {
    match e
    case SendMessage(m) => m !in s.sent
    case DropUnregistered(m, _) => m in s.unregistered
    case StageBlock(m, b) => m in s.unregistered && b !in RecordedIds(s)
    case StageThenCancel(m, b) => m in s.unregistered && b !in RecordedIds(s)
    case DropAbandoned(m, _) => m in s.abandoned
    case PutPart(u, p, _, _, pieces, _) => MayPut(s, u, p, pieces)
    case Condemn(b) => b in s.inFlight
    case Forget(b) => b in s.inFlight
  }

  predicate CleanupEnabled(s: Sys, e: CleanupEvent) {
    match e
    case StartCleaner(b) => b in s.condemned
    case CleanerQueues(c, _, _) => c in s.cleaners && c.ToQueue?
    case CleanerDeletes(c, _) => c in s.cleaners && c.ToDelete?
    case CleanerReports(c, _) => c in s.cleaners && c.ToReport?
  }

  predicate RequestEnabled(s: Sys, e: RequestEvent) {
    match e
    case CreateUpload(u, _, _) => u !in s.usedUploads
    case Commit(_, _, _, _, _, id, _) => id !in s.history
    case ReadRow(name) => name in s.t.objects
    case ReadPieces(row) => row in s.seen
    case Copy(source, _, _, id, _) => source in s.snapshots && id !in s.history
    case _ => true
  }

  predicate CollectorEnabled(s: Sys, e: CollectorEvent) {
    match e
    case QueueStale(_, _) => true
    case PickCandidate(b, now) => T.IsCandidate(s.t, b, now)
    case BatchFails(g, _) => g in s.collectors && g.Candidate?
    case CollectorDeletes(g, _, _) => g in s.collectors && g.Candidate?
    case CollectorOrphans(g) => g in s.collectors && g.Candidate?
    case CollectorReports(g) => g in s.collectors && g.Collected?
    case CollectorStops(g) => g in s.collectors
  }

  predicate Enabled(s: Sys, e: Event) {
    match e
    case Upload(up) => UploadEnabled(s, up)
    case Cleanup(clean) => CleanupEnabled(s, clean)
    case Request(req) => RequestEnabled(s, req)
    case Collect(gc) => CollectorEnabled(s, gc)
    case Restart => true
  }

  // ---- effects ----

  function Stage(s: Sys, m: MessageId, b: BlockId): Sys {
    match T.AddStagedBlock(s.t, b, m)
    case Err(_) => s
    case Ok(t') => s.(t := t', recorded := s.recorded[m := b], unregistered := s.unregistered - {m})
  }

  function DoPutPart(s: Sys, u: UploadId, p: PartNumber, size: i64, etag: string, pieces: seq<Piece>, now: int): Sys {
    match T.ReplacePart(s.t, u, p, size, etag, pieces, now)
    case Err(_) => s
    case Ok(t') => s.(t := t', inFlight := s.inFlight - Ids(pieces))
  }

  function NextCleaner(s: Sys, c: Cleaner, next: Option<Cleaner>): Sys {
    s.(cleaners := s.cleaners - multiset{c} + if next.Some? then multiset{next.value} else multiset{})
  }

  function DoCleanerQueues(s: Sys, c: Cleaner, dbFails: bool, now: int): Sys
    requires c.ToQueue?
  {
    if dbFails then NextCleaner(s, c, Some(ToDelete(c.id, c.message, false)))
    else
      var (t', queued) := T.QueueStaleBlock(s.t, c.id, now);
      NextCleaner(s.(t := t'), c, if queued then Some(ToDelete(c.id, c.message, true)) else None)
  }

  function DoCleanerDeletes(s: Sys, c: Cleaner, outcome: Outcome): Sys
    requires c.ToDelete?
  {
    match outcome
    case Unclear(removed) => NextCleaner(Telegram(s, c.message, removed), c, None)
    case _ => NextCleaner(Telegram(s, c.message, outcome.Removed?), c, if c.queued then Some(ToReport(c.id)) else None)
  }

  function DoStageBlock(s: Sys, m: MessageId, b: BlockId): Sys {
    if T.AddStagedBlock(s.t, b, m).Err? then s else Stage(s, m, b).(inFlight := s.inFlight[b := m])
  }

  function DoStageThenCancel(s: Sys, m: MessageId, b: BlockId): Sys {
    if T.AddStagedBlock(s.t, b, m).Err? then s else Stage(s, m, b).(abandoned := s.abandoned + {m})
  }

  function DoReadRow(s: Sys, name: Name): Sys
    requires name in s.t.objects
  {
    var row := s.t.objects[name];
    s.(seen := s.seen + {SeenRow(name, row.id, row.size, row.etag)})
  }

  function DoCommit(s: Sys, u: UploadId, size: i64, etag: string, parts: seq<T.PartSnapshot>, condition: Condition,
                    id: ObjectId, now: int): Sys
  {
    match T.CommitUpload(s.t, u, size, etag, parts, condition, id, now)
    case Ok(Some(t')) =>
      var name := s.t.uploads[u].name;
      s.(t := t', history := s.history[id := T.ObjectSnapshot(name, ObjectRow(id, size, etag, T.Flatten(parts)))])
    case _ => s
  }

  function DoCopy(s: Sys, source: ObjectSnapshot, name: Name, condition: Condition, id: ObjectId, now: int): Sys {
    match T.CopyObject(s.t, source, name, condition, id, now)
    case Ok(t') => s.(t := t', history := s.history[id := T.ObjectSnapshot(name, source.row.(id := id))])
    case Err(_) => s
  }

  function NextCollector(s: Sys, g: Collector, next: Option<Collector>): Sys {
    s.(collectors := s.collectors - multiset{g} + if next.Some? then multiset{next.value} else multiset{})
  }

  function DoCollectorDeletes(s: Sys, g: Collector, outcome: Outcome, nextAttempt: int): Sys
    requires g.Candidate?
  {
    match outcome
    case Unclear(removed) =>
      NextCollector(Telegram(s.(t := T.GcFailure(s.t, g.id, nextAttempt)), g.message, removed), g, None)
    case _ => NextCollector(Telegram(s, g.message, outcome.Removed?), g, Some(Collected(g.id)))
  }

  function DoRestart(s: Sys): Sys {
    s.(unregistered := {}, abandoned := {}, inFlight := map[], condemned := map[],
       cleaners := multiset{}, collectors := multiset{}, seen := {}, snapshots := {})
  }

  function UploadEffect(s: Sys, e: UploadEvent): Sys
    requires UploadEnabled(s, e)
  {
    match e
    case SendMessage(m) =>
      s.(live := s.live + {m}, sent := s.sent + {m}, unregistered := s.unregistered + {m})
    case DropUnregistered(m, removed) => Telegram(s.(unregistered := s.unregistered - {m}), m, removed)
    case StageBlock(m, b) => DoStageBlock(s, m, b)
    case StageThenCancel(m, b) => DoStageThenCancel(s, m, b)
    case DropAbandoned(m, removed) => Telegram(s.(abandoned := s.abandoned - {m}), m, removed)
    case PutPart(u, p, size, etag, pieces, now) => DoPutPart(s, u, p, size, etag, pieces, now)
    case Condemn(b) => s.(inFlight := s.inFlight - {b}, condemned := s.condemned[b := s.inFlight[b]])
    case Forget(b) => s.(inFlight := s.inFlight - {b})
  }

  function CleanupEffect(s: Sys, e: CleanupEvent): Sys
    requires CleanupEnabled(s, e)
  {
    match e
    case StartCleaner(b) => s.(cleaners := s.cleaners + multiset{ToQueue(b, s.condemned[b])})
    case CleanerQueues(c, dbFails, now) => DoCleanerQueues(s, c, dbFails, now)
    case CleanerDeletes(c, outcome) => DoCleanerDeletes(s, c, outcome)
    case CleanerReports(c, dbFails) =>
      NextCleaner(if dbFails then s else s.(t := T.GcSuccess(s.t, c.id)), c, None)
  }

  ghost function RequestEffect(s: Sys, e: RequestEvent): Sys
    requires RequestEnabled(s, e)
  {
    match e
    case CreateBucket(bucket) => s.(t := s.t.(buckets := s.t.buckets + {bucket}))
    case DeleteBucket(bucket) => WithTables(s, T.DeleteBucket(s.t, bucket))
    case CreateUpload(u, name, now) =>
      WithTables(s.(usedUploads := s.usedUploads + {u}), T.CreateUpload(s.t, u, name, now))
    case Commit(u, size, etag, parts, condition, id, now) => DoCommit(s, u, size, etag, parts, condition, id, now)
    case Abort(u, now) =>
      if u in s.t.uploads then s.(t := T.AbortUpload(s.t, u, now).value) else s
    case Delete(name, condition, now) =>
      var r := T.DeleteObject(s.t, name, condition, now);
      if r.Ok? && r.value.Some? then s.(t := r.value.value) else s
    case ReadRow(name) => DoReadRow(s, name)
    case ReadPieces(row) =>
      var r := Assembled(s.t, row);
      if r.Some? then s.(snapshots := s.snapshots + {r.value}) else s
    case Copy(source, name, condition, id, now) => DoCopy(s, source, name, condition, id, now)
  }

  function CollectorEffect(s: Sys, e: CollectorEvent): Sys
    requires CollectorEnabled(s, e)
  {
    match e
    case QueueStale(b, now) => s.(t := T.QueueStaleBlock(s.t, b, now).0)
    case PickCandidate(b, now) => s.(collectors := s.collectors + multiset{Candidate(b, s.t.blocks[b].message)})
    case BatchFails(g, removed) => Telegram(s, g.message, removed)
    case CollectorDeletes(g, outcome, nextAttempt) => DoCollectorDeletes(s, g, outcome, nextAttempt)
    case CollectorOrphans(g) => NextCollector(s.(t := T.GcOrphan(s.t, g.id)), g, None)
    case CollectorReports(g) => NextCollector(s.(t := T.GcSuccess(s.t, g.id)), g, None)
    case CollectorStops(g) => NextCollector(s, g, None)
  }

  ghost function Effect(s: Sys, e: Event): Sys
    requires Enabled(s, e)
  {
    match e
    case Upload(up) => UploadEffect(s, up)
    case Cleanup(clean) => CleanupEffect(s, clean)
    case Request(req) => RequestEffect(s, req)
    case Collect(gc) => CollectorEffect(s, gc)
    case Restart => DoRestart(s)
  }

  ghost function Step(s: Sys, e: Event): Sys {
    if Enabled(s, e) then Effect(s, e) else s
  }

  /** The state after a run of events. */
  ghost function Run(s: Sys, events: seq<Event>): Sys {
    if |events| == 0 then s else Step(Run(s, events[..|events| - 1]), events[|events| - 1])
  }
}
