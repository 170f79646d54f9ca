/** What the service can do from any state it reaches: the steps of each actor, undisturbed, do their work. */
module Progress {
  import opened Prelude
  import opened Schema
  import opened Conditions
  import opened Lifecycle
  import opened Safety
  import I = Invariants
  import O = Outcomes
  import T = Transactions

  // ---- collection ----

  lemma DueBlockIsPicked(s: Sys, b: BlockId, now: int)
    requires Inv(s) && b in s.t.queue && !s.t.queue[b].orphan && s.t.queue[b].nextAttempt <= now
    ensures b in s.t.blocks
    ensures Step(s, Collect(PickCandidate(b, now)))
      == s.(collectors := s.collectors + multiset{Candidate(b, s.t.blocks[b].message)})
  {
    O.QueuedIsFree(s.t, b);
    O.CandidateIffDue(s.t, b, now);
  }

  /** Three steps collect a block that is due: its message is gone, then its row and its queue entry. */
  lemma DueBlockIsCollected(s: Sys, b: BlockId, now: int, next: int)
    requires Inv(s) && b in s.t.queue && !s.t.queue[b].orphan && s.t.queue[b].nextAttempt <= now
    ensures b in s.t.blocks
    ensures var g := Candidate(b, s.t.blocks[b].message);
      var s1 := Step(s, Collect(PickCandidate(b, now)));
      var s2 := Step(s1, Collect(CollectorDeletes(g, Removed, next)));
      var s3 := Step(s2, Collect(CollectorReports(Collected(b))));
      && s3.live == s.live - {s.t.blocks[b].message}
      && b !in s3.t.blocks && b !in s3.t.queue
      && s3.t.objects == s.t.objects && s3.t.uploads == s.t.uploads
  {
    DueBlockIsPicked(s, b, now);
    O.CollectedRow(s.t, b);
    hide Inv, Valid, T.GcSuccess, T.IsCandidate;
    var g := Candidate(b, s.t.blocks[b].message);
    var s1 := Step(s, Collect(PickCandidate(b, now)));
    var s2 := Step(s1, Collect(CollectorDeletes(g, Removed, next)));
    assert s2.t == s.t && Collected(b) in s2.collectors;
  }

  lemma FailedRow(t: Tables, b: BlockId, next: int)
    requires Valid(t) && b in t.queue && !t.queue[b].orphan
    ensures var t' := T.GcFailure(t, b, next);
      && t'.blocks == t.blocks && t'.queue == t.queue[b := QueueRow(t.queue[b].attempts + 1, next, false)]
      && T.IsCandidate(t', b, next)
  {
    I.GcFailureKeepsValid(t, b, next);
    hide Valid;
    O.CandidateIffDue(T.GcFailure(t, b, next), b, next);
  }

  /** A delete that fails leaves the block queued, with one more attempt and a later date. */
  lemma FailedDeleteIsRetried(s: Sys, b: BlockId, now: int, next: int)
    requires Inv(s) && b in s.t.queue && !s.t.queue[b].orphan && s.t.queue[b].nextAttempt <= now
    ensures b in s.t.blocks
    ensures var g := Candidate(b, s.t.blocks[b].message);
      var s1 := Step(s, Collect(PickCandidate(b, now)));
      var s2 := Step(s1, Collect(CollectorDeletes(g, Unclear(false), next)));
      && s2.live == s.live && s2.t.blocks == s.t.blocks
      && s2.t.queue == s.t.queue[b := QueueRow(s.t.queue[b].attempts + 1, next, false)]
      && T.IsCandidate(s2.t, b, next)
  {
    DueBlockIsPicked(s, b, now);
    FailedRow(s.t, b, next);
    hide Inv, Valid, T.GcFailure, T.IsCandidate;
  }

  // ---- uploads and their cleanup ----

  /** The state after `m` was sent and recorded under `b` by the request that owns it. */
  ghost predicate Recorded(s: Sys, s': Sys, m: MessageId, b: BlockId) {
    && Valid(s'.t) && s'.t == s.t.(blocks := s.t.blocks[b := BlockRow(m, 1, false)])
    && m in s'.live && b in s'.inFlight && b !in s.t.queue && !Referenced(s'.t, b)
  }

  lemma SentBlockIsRecorded(s: Sys, m: MessageId, b: BlockId)
    requires Inv(s) && m !in s.sent && b !in RecordedIds(s)
    ensures Recorded(s, Step(Step(s, Upload(SendMessage(m))), Upload(StageBlock(m, b))), m, b)
  {
    var s1 := Step(s, Upload(SendMessage(m)));
    SendMessageKeeps(s, m);
    NewRow(s, m, b);
    StageBlockKeeps(s1, m, b);
  }

  lemma FreeBlockEntersPart(t: Tables, u: UploadId, p: PartNumber, b: BlockId, size: i64, etag: string, now: int)
    requires Valid(t) && u in t.uploads && b in t.blocks && b !in t.queue && !Referenced(t, b)
    ensures var pieces := [Schema.Piece(b, 0, size)];
      var r := T.ReplacePart(t, u, p, size, etag, pieces, now);
      && Ids(pieces) == {b} && r.Ok? && O.HasPart(t, r.value, u, p, PartRow(size, etag, pieces), now)
  {
    var pieces := [Schema.Piece(b, 0, size)];
    assert pieces[0].id in Ids(pieces);
    assert Ids(pieces) == {b} && Distinct(pieces);
    hide Valid, Referenced, O.HasPart, T.ReplacePart;
    O.PartReplaced(t, u, p, size, etag, pieces, now);
  }

  lemma RecordedBlockEntersPart(s: Sys, s0: Sys, u: UploadId, p: PartNumber, m: MessageId, b: BlockId, size: i64,
                                etag: string, now: int)
    requires Recorded(s, s0, m, b) && u in s.t.uploads
    ensures var pieces := [Schema.Piece(b, 0, size)];
      var s1 := Step(s0, Upload(PutPart(u, p, size, etag, pieces, now)));
      O.HasPart(s0.t, s1.t, u, p, PartRow(size, etag, pieces), now) && m in s1.live && b !in s1.inFlight
  {
    hide Valid, Referenced, O.HasPart, T.ReplacePart;
    FreeBlockEntersPart(s0.t, u, p, b, size, etag, now);
  }

  /** A message that is sent, recorded and put into a part is that part, and Telegram holds it. */
  lemma SentBlockEntersPart(s: Sys, u: UploadId, p: PartNumber, m: MessageId, b: BlockId, size: i64, etag: string, now: int)
    requires Inv(s) && u in s.t.uploads && m !in s.sent && b !in RecordedIds(s)
    ensures var s1 := Step(s, Upload(SendMessage(m)));
      var s2 := Step(s1, Upload(StageBlock(m, b)));
      var s3 := Step(s2, Upload(PutPart(u, p, size, etag, [Schema.Piece(b, 0, size)], now)));
      && s2.t == s.t.(blocks := s.t.blocks[b := BlockRow(m, 1, false)])
      && O.HasPart(s2.t, s3.t, u, p, PartRow(size, etag, [Schema.Piece(b, 0, size)]), now)
      && m in s3.live && b !in s3.inFlight
  {
    hide Step;
    SentBlockIsRecorded(s, m, b);
    RecordedBlockEntersPart(s, Step(Step(s, Upload(SendMessage(m))), Upload(StageBlock(m, b))), u, p, m, b, size, etag, now);
  }

  lemma NewRow(s: Sys, m: MessageId, b: BlockId)
    requires Inv(s) && m !in s.sent && b !in RecordedIds(s)
    ensures T.AddStagedBlock(s.t, b, m) == Ok(s.t.(blocks := s.t.blocks[b := BlockRow(m, 1, false)]))
    ensures b !in s.t.queue
  {
  }

  /** The state with the row of `b` waiting and its cleaner about to delete the message. */
  ghost predicate AboutToDelete(s: Sys, s': Sys, b: BlockId, m: MessageId, now: int) {
    && Valid(s'.t) && O.Waiting(s'.t, b, now) && ToDelete(b, m, true) in s'.cleaners
    && s'.live == s.live && s'.t.objects == s.t.objects && s'.t.uploads == s.t.uploads
  }

  lemma CondemnedBlockIsQueued(s: Sys, b: BlockId, now: int)
    requires Inv(s) && b in s.inFlight && b in s.t.blocks && b !in s.t.queue
    ensures var s1 := Step(Step(s, Upload(Condemn(b))), Cleanup(StartCleaner(b)));
      AboutToDelete(s, Step(s1, Cleanup(CleanerQueues(ToQueue(b, s.inFlight[b]), false, now))), b, s.inFlight[b], now)
  {
    var s1 := Step(Step(s, Upload(Condemn(b))), Cleanup(StartCleaner(b)));
    assert s1.t == s.t && s1.live == s.live && ToQueue(b, s.inFlight[b]) in s1.cleaners;
    StagedIsClaimed(s, b, now);
    hide Inv, Valid, O.Waiting, T.QueueStaleBlock;
  }

  lemma StagedIsClaimed(s: Sys, b: BlockId, now: int)
    requires Inv(s) && b in s.inFlight && b in s.t.blocks && b !in s.t.queue
    ensures var (t', queued) := T.QueueStaleBlock(s.t, b, now);
      && queued && Valid(t') && O.Waiting(t', b, now) && t'.objects == s.t.objects && t'.uploads == s.t.uploads
  {
    assert BlockOk(s.t, b);
    O.ClaimedRow(s.t, b, now);
    I.QueueStaleBlockKeepsValid(s.t, b, now);
  }

  lemma QueuedBlockIsCleaned(s: Sys, s0: Sys, b: BlockId, m: MessageId, now: int)
    requires AboutToDelete(s, s0, b, m, now)
    ensures var s1 := Step(s0, Cleanup(CleanerDeletes(ToDelete(b, m, true), Removed)));
      var s2 := Step(s1, Cleanup(CleanerReports(ToReport(b), false)));
      && s2.live == s.live - {m} && b !in s2.t.blocks && b !in s2.t.queue
      && s2.t.objects == s.t.objects && s2.t.uploads == s.t.uploads
  {
    var s1 := Step(s0, Cleanup(CleanerDeletes(ToDelete(b, m, true), Removed)));
    assert s1.t == s0.t && ToReport(b) in s1.cleaners;
    O.CollectedRow(s0.t, b);
  }

  /** The cleanup of a block that its request gave up: it is queued, its message deleted, its row removed. */
  lemma CondemnedBlockIsCleaned(s: Sys, b: BlockId, now: int)
    requires Inv(s) && b in s.inFlight && b in s.t.blocks && b !in s.t.queue
    ensures var m := s.inFlight[b];
      var s1 := Step(Step(s, Upload(Condemn(b))), Cleanup(StartCleaner(b)));
      var s2 := Step(s1, Cleanup(CleanerQueues(ToQueue(b, m), false, now)));
      var s3 := Step(s2, Cleanup(CleanerDeletes(ToDelete(b, m, true), Removed)));
      var s4 := Step(s3, Cleanup(CleanerReports(ToReport(b), false)));
      && s4.live == s.live - {m} && b !in s4.t.blocks && b !in s4.t.queue
      && s4.t.objects == s.t.objects && s4.t.uploads == s.t.uploads
  {
    hide Step;
    var s1 := Step(Step(s, Upload(Condemn(b))), Cleanup(StartCleaner(b)));
    CondemnedBlockIsQueued(s, b, now);
    QueuedBlockIsCleaned(s, Step(s1, Cleanup(CleanerQueues(ToQueue(b, s.inFlight[b]), false, now))), b, s.inFlight[b], now);
  }

  // ---- requests ----

  /** A read with nothing in between returns what is stored. */
  lemma StoredObjectIsRead(s: Sys, name: Name)
    requires Inv(s) && name in s.t.objects
    ensures var row := s.t.objects[name];
      var s1 := Step(s, Request(ReadRow(name)));
      var s2 := Step(s1, Request(ReadPieces(SeenRow(name, row.id, row.size, row.etag))));
      T.ObjectSnapshot(name, row) in s2.snapshots && s2.t == s.t
  {
  }

  /** A commit that nothing stands against stores the flattened parts. */
  lemma CommittableIsCommitted(s: Sys, u: UploadId, size: i64, etag: string, parts: seq<T.PartSnapshot>,
                               condition: Condition, id: ObjectId, now: int)
    requires Inv(s) && O.Committable(s.t, u, size, parts, condition) && id !in s.history
    ensures var s' := Step(s, Request(Commit(u, size, etag, parts, condition, id, now)));
      && T.PartsFit(parts) && u !in s'.t.uploads
      && s'.t.objects == s.t.objects[s.t.uploads[u].name := ObjectRow(id, size, etag, T.Flatten(parts))]
  {
    O.UploadCommitted(s.t, u, size, etag, parts, condition, id, now);
  }

  /** A copy of what was read and is still stored, under a condition that holds. */
  lemma CurrentSourceIsCopied(s: Sys, source: ObjectSnapshot, name: Name, condition: Condition, id: ObjectId, now: int)
    requires Inv(s) && source in s.snapshots && id !in s.history && condition.Allows(O.EtagIn(s.t, name))
    requires source.name in s.t.objects && s.t.objects[source.name].id == source.row.id
    ensures var s' := Step(s, Request(Copy(source, name, condition, id, now)));
      s'.t.objects == s.t.objects[name := ObjectRow(id, source.row.size, source.row.etag, source.row.pieces)]
  {
    hide O.Copied, T.CopyObject;
    O.ObjectCopied(s.t, source, name, condition, id, now);
    hide Valid;
  }

  /** A delete takes effect exactly when the object is stored and the condition holds for its ETag. */
  lemma DeleteTakesEffect(s: Sys, name: Name, condition: Condition, now: int)
    requires Inv(s)
    ensures var s' := Step(s, Request(Delete(name, condition, now)));
      s'.t.objects == if condition.Allows(O.EtagIn(s.t, name)) then s.t.objects - {name} else s.t.objects
  {
    O.ObjectDeleted(s.t, name, condition, now);
  }
}
