/** A multipart upload and a ranged read, from the frames that arrive to the bytes that leave. */
module EndToEnd {
  import opened Prelude
  import opened Conditions
  import opened Schema
  import opened Splitter
  import Database
  import E = Engine
  import I = Invariants
  import O = Outcomes
  import K = KnownLength
  import P = PartUpload
  import H = RangeHeader
  import R = RangeReader
  import RT = RoundTrip
  import S = Spooled
  import T = Transactions
  import Safety
  import Store

  /** What Telegram holds, by block. */
  type Messages = RT.Store

  /** The body of one part as it arrives under its number, and the outside world of its upload. */
  datatype Sending = Sending(number: PartNumber, frames: seq<Frame>, expected: Option<i64>, etag: string, world: World)

  function BodiesOf(sendings: seq<Sending>): seq<Bytes> {
    seq(|sendings|, i requires 0 <= i < |sendings| => Joined(sendings[i].frames))
  }

  ghost predicate Extends(a: Messages, b: Messages) {
    forall id :: id in a ==> id in b && b[id] == a[id]
  }

  // ---- recording the blocks of one part ----

  function BlockIds(blocks: seq<Uploaded>): set<BlockId> {
    set k | 0 <= k < |blocks| :: blocks[k].id
  }

  /** The tables with rows for `ids` and no other row new. */
  ghost predicate Recorded(t: Tables, t': Tables, ids: set<BlockId>, message: BlockId -> MessageId) {
    && t'.objects == t.objects && t'.buckets == t.buckets
    && t'.blocks.Keys == t.blocks.Keys + ids && ids !! t.blocks.Keys
    && forall b :: b in t'.blocks ==> t'.blocks[b].message == if b in t.blocks then t.blocks[b].message else message(b)
  }

  /** The tables with rows for `ids` and nothing else new. */
  ghost predicate Staged(t: Tables, t': Tables, ids: set<BlockId>, message: BlockId -> MessageId) {
    t'.uploads == t.uploads && t'.queue == t.queue && Recorded(t, t', ids, message)
  }

  /** No two blocks have the same id, and every block that has no row yet has a message of its own. */
  ghost predicate NewBlocks(t: Tables, blocks: seq<Uploaded>, message: BlockId -> MessageId) {
    && (forall k :: 0 <= k < |blocks| ==> blocks[k].id !in t.blocks)
    && (forall j, k :: 0 <= j < k < |blocks| ==> blocks[j].id != blocks[k].id)
    && OwnMessages(t, message)
  }

  ghost predicate OwnMessages(t: Tables, message: BlockId -> MessageId) {
    && (forall a, b :: message(a) == message(b) ==> a == b)
    && (forall b, c :: b in t.blocks && c !in t.blocks ==> t.blocks[b].message != message(c))
  }

  lemma RowIsNew(t: Tables, id: BlockId, message: BlockId -> MessageId)
    ensures T.AddStagedBlock(t, id, message(id)).Ok? ==>
      Staged(t, T.AddStagedBlock(t, id, message(id)).value, {id}, message)
    ensures id !in t.blocks && OwnMessages(t, message) ==> T.AddStagedBlock(t, id, message(id)).Ok?
  {
  }

  /** Records one uploaded block; its message is in Telegram already. */
  method StageBlock(db: Store.Db, block: Uploaded, message: BlockId -> MessageId, messages0: Messages)
    returns (ok: bool, messages: Messages)
    requires Valid(db.tables) && messages0.Keys <= db.tables.blocks.Keys
    modifies db
    ensures Valid(db.tables) && messages.Keys <= db.tables.blocks.Keys && Extends(messages0, messages)
    ensures ok ==> Staged(old(db.tables), db.tables, {block.id}, message)
    ensures ok ==> block.id in messages && messages[block.id] == block.content
    ensures !ok ==> db.tables == old(db.tables)
    ensures block.id !in old(db.tables).blocks && OwnMessages(old(db.tables), message) ==> ok
  {
    RowIsNew(db.tables, block.id, message);
    var r := db.AddStagedBlock(block.id, message(block.id));
    if r.Err? {
      return false, messages0;
    }
    return true, messages0[block.id := block.content];
  }

  lemma StagedAll(t: Tables, t1: Tables, t2: Tables, a: set<BlockId>, b: set<BlockId>, message: BlockId -> MessageId)
    requires Staged(t, t1, a, message) && Staged(t1, t2, b, message)
    ensures Staged(t, t2, a + b, message)
  {
  }

  lemma RecordedAll(t: Tables, t1: Tables, t2: Tables, a: set<BlockId>, b: set<BlockId>, message: BlockId -> MessageId)
    requires Recorded(t, t1, a, message) && Recorded(t1, t2, b, message)
    ensures Recorded(t, t2, a + b, message)
  {
  }

  lemma BlockIdsStep(blocks: seq<Uploaded>, i: nat)
    requires i < |blocks|
    ensures BlockIds(blocks[..i + 1]) == BlockIds(blocks[..i]) + {blocks[i].id}
    ensures (forall k :: 0 <= k < i ==> blocks[k].id != blocks[i].id) ==> blocks[i].id !in BlockIds(blocks[..i])
  {
    forall b | b in BlockIds(blocks[..i]) ensures b in BlockIds(blocks[..i + 1]) {
      var k :| 0 <= k < i && blocks[..i][k].id == b;
      assert blocks[..i + 1][k].id == b;
    }
    assert blocks[..i + 1][i].id == blocks[i].id;
  }

  /** The first `i` blocks have rows, and their messages are known. */
  ghost predicate StagedUpTo(t: Tables, t': Tables, blocks: seq<Uploaded>, i: nat, message: BlockId -> MessageId,
                             messages: Messages)
    requires i <= |blocks|
  {
    && messages.Keys <= t'.blocks.Keys
    && Staged(t, t', BlockIds(blocks[..i]), message) && RT.Kept(blocks[..i], messages)
  }

  lemma StagedNext(t: Tables, before: Tables, after: Tables, blocks: seq<Uploaded>, i: nat, message: BlockId -> MessageId,
                   messages: Messages, messages': Messages)
    requires i < |blocks| && StagedUpTo(t, before, blocks, i, message, messages)
    requires Staged(before, after, {blocks[i].id}, message)
    requires Extends(messages, messages') && messages'.Keys <= after.blocks.Keys
    requires blocks[i].id in messages' && messages'[blocks[i].id] == blocks[i].content
    ensures StagedUpTo(t, after, blocks, i + 1, message, messages')
  {
    BlockIdsStep(blocks, i);
    StagedAll(t, before, after, BlockIds(blocks[..i]), {blocks[i].id}, message);
    KeptNext(blocks, i, messages, messages');
  }

  lemma KeptNext(blocks: seq<Uploaded>, i: nat, messages: Messages, messages': Messages)
    requires i < |blocks| && RT.Kept(blocks[..i], messages) && Extends(messages, messages')
    requires blocks[i].id in messages' && messages'[blocks[i].id] == blocks[i].content
    ensures RT.Kept(blocks[..i + 1], messages')
  {
    forall k | 0 <= k < i + 1 ensures blocks[k].id in messages' && messages'[blocks[k].id] == blocks[k].content {
      assert k < i ==> blocks[..i][k] == blocks[k];
    }
  }

  /** With new blocks nothing stands against the next row. */
  lemma NextIsNew(t: Tables, before: Tables, blocks: seq<Uploaded>, i: nat, message: BlockId -> MessageId, messages: Messages)
    requires i < |blocks| && StagedUpTo(t, before, blocks, i, message, messages) && NewBlocks(t, blocks, message)
    ensures blocks[i].id !in before.blocks && OwnMessages(before, message)
  {
    BlockIdsStep(blocks, i);
    StillOwn(t, before, BlockIds(blocks[..i]), message);
  }

  method StageBlocks(db: Store.Db, blocks: seq<Uploaded>, message: BlockId -> MessageId, messages0: Messages)
    returns (ok: bool, messages: Messages)
    requires Valid(db.tables) && messages0.Keys <= db.tables.blocks.Keys
    modifies db
    ensures Valid(db.tables) && messages.Keys <= db.tables.blocks.Keys && Extends(messages0, messages)
    ensures ok ==> Staged(old(db.tables), db.tables, BlockIds(blocks), message) && RT.Kept(blocks, messages)
    ensures NewBlocks(old(db.tables), blocks, message) ==> ok
  {
    messages := messages0;
    ghost var start := db.tables;
    for i := 0 to |blocks|
      invariant Valid(db.tables) && StagedUpTo(start, db.tables, blocks, i, message, messages)
      invariant Extends(messages0, messages)
    {
      ghost var before, known := db.tables, messages;
      if NewBlocks(start, blocks, message) {
        NextIsNew(start, before, blocks, i, message, messages);
      }
      ok, messages := StageBlock(db, blocks[i], message, messages);
      if !ok {
        return false, messages;
      }
      StagedNext(start, before, db.tables, blocks, i, message, known, messages);
    }
    assert blocks[..|blocks|] == blocks;
    return true, messages;
  }

  lemma StillOwn(t: Tables, t': Tables, ids: set<BlockId>, message: BlockId -> MessageId)
    requires Recorded(t, t', ids, message)
    ensures OwnMessages(t, message) ==> OwnMessages(t', message)
  {
  }

  // ---- one part ----

  /**
   * The upload has this row under this number, whether or not it had one before, and its other parts as they were. The
   * blocks of the row are new, and those of the row it replaces wait for deletion.
   */
  ghost predicate PartPut(t: Tables, t': Tables, u: UploadId, p: PartNumber, row: PartRow, message: BlockId -> MessageId,
                          now: int)
  {
    && u in t.uploads
    && t'.uploads == t.uploads[u := UploadRow(t.uploads[u].name, t.uploads[u].createdAt, t.uploads[u].parts[p := row])]
    && Recorded(t, t', Ids(row.pieces), message)
    && forall b :: b in O.OldIds(t, u, p) ==> O.Waiting(t', b, now)
  }

  ghost predicate UploadWorks(sending: Sending, config: Config) {
    if sending.expected.Some? then K.Good(sending.frames, sending.expected.value, config, sending.world)
    else S.Good(sending.frames, config, sending.world)
  }

  function CutOf(sending: Sending, config: Config): seq<Uploaded> {
    Cut(Joined(sending.frames), config.chunkSize, sending.world.rowId)
  }

  /** Blocks without a row are in no object and no part. */
  lemma NewIsUnreferenced(t: Tables, t': Tables, ids: set<BlockId>, message: BlockId -> MessageId, b: BlockId)
    requires Valid(t) && Staged(t, t', ids, message) && b in ids
    ensures !Referenced(t', b)
  {
    if Referenced(t, b) {
      Safety.ReferencedExists(t, b);
    }
  }

  lemma PiecesIds(blocks: seq<Uploaded>)
    requires P.InRange(blocks)
    ensures Ids(P.ToPieces(blocks)) == BlockIds(blocks)
  {
    var pieces := P.ToPieces(blocks);
    forall k | 0 <= k < |blocks| ensures pieces[k].id == blocks[k].id {
    }
  }

  /** The blocks of a stored part have rows. */
  lemma OldIdsExist(t: Tables, u: UploadId, p: PartNumber)
    requires Valid(t)
    ensures O.OldIds(t, u, p) <= t.blocks.Keys
  {
    forall b | b in O.OldIds(t, u, p) ensures b in t.blocks {
      O.OnlyOldPartHeld(t, u, p, b);
    }
  }

  lemma StagedIsPut(t: Tables, t1: Tables, t2: Tables, u: UploadId, p: PartNumber, row: PartRow,
                    message: BlockId -> MessageId, now: int)
    requires Valid(t) && Staged(t, t1, Ids(row.pieces), message) && O.HasPart(t1, t2, u, p, row, now)
    ensures PartPut(t, t2, u, p, row, message, now)
  {
    OldIdsExist(t, u, p);
    hide Valid;
    var gone := O.OldIds(t, u, p);
    assert gone == O.OldIds(t1, u, p) - Ids(row.pieces);
    forall b | b !in gone ensures O.Same(t1, t2, b) {
    }
    forall b | b in gone ensures O.Waiting(t2, b, now) && b in t2.blocks {
    }
    assert t2.blocks.Keys == t1.blocks.Keys;
  }

  lemma DistinctPieces(blocks: seq<Uploaded>)
    requires P.InRange(blocks) && forall j, k :: 0 <= j < k < |blocks| ==> blocks[j].id != blocks[k].id
    ensures Distinct(P.ToPieces(blocks))
  {
  }

  /** Persists a part whose blocks have just been recorded. */
  method PutPart(db: Store.Db, u: UploadId, p: PartNumber, size: i64, etag: string, blocks: seq<Uploaded>,
                 message: BlockId -> MessageId, now: int, ghost start: Tables) returns (part: Option<T.PartSnapshot>)
    requires P.InRange(blocks) && Valid(start) && u in start.uploads
    requires Valid(db.tables) && Staged(start, db.tables, BlockIds(blocks), message)
    modifies db
    ensures Valid(db.tables) && old(db.tables).blocks.Keys <= db.tables.blocks.Keys
    ensures part.Some? ==>
      && part.value == T.PartSnapshot(p, PartRow(size, etag, P.ToPieces(blocks)))
      && PartPut(start, db.tables, u, p, part.value.row, message, now)
    ensures (forall j, k :: 0 <= j < k < |blocks| ==> blocks[j].id != blocks[k].id) ==> part.Some?
  {
    var pieces := P.ToPieces(blocks);
    PiecesIds(blocks);
    forall b | b in Ids(pieces) ensures !Referenced(db.tables, b) {
      NewIsUnreferenced(start, db.tables, Ids(pieces), message, b);
    }
    NoneInQueue(start, db.tables, Ids(pieces), message);
    var row := PartRow(size, etag, pieces);
    if forall j, k :: 0 <= j < k < |blocks| ==> blocks[j].id != blocks[k].id {
      DistinctPieces(blocks);
    }
    hide Valid;
    ghost var staged := db.tables;
    var r := db.ReplacePart(u, p, size, etag, pieces, now);
    if r.Err? {
      return None;
    }
    StagedIsPut(start, staged, db.tables, u, p, row, message, now);
    return Some(T.PartSnapshot(p, row));
  }

  lemma NoneInQueue(t: Tables, t': Tables, ids: set<BlockId>, message: BlockId -> MessageId)
    requires Valid(t) && Staged(t, t', ids, message)
    ensures ids <= t'.blocks.Keys - t'.queue.Keys
  {
    forall b | b in ids ensures b !in t.queue {
      if b in t.queue {
        O.QueuedIsFree(t, b);
      }
    }
  }

  /** The part is what its upload made of its body. */
  ghost predicate MadeOf(part: T.PartSnapshot, sending: Sending, config: Config, messages: Messages) {
    && part.row.size == |Joined(sending.frames)|
    && RT.MadeFrom(part, Joined(sending.frames), config.chunkSize, sending.world.rowId, messages)
  }

  /** Uploads one part: its body is cut into messages, these are recorded, and the part is persisted. */
  method SendPart(db: Store.Db, u: UploadId, sending: Sending, config: Config, message: BlockId -> MessageId,
                  messages0: Messages, now: int)
    returns (part: Option<T.PartSnapshot>, messages: Messages)
    requires Valid(db.tables) && u in db.tables.uploads
    requires messages0.Keys <= db.tables.blocks.Keys
    modifies db
    ensures Valid(db.tables) && messages.Keys <= db.tables.blocks.Keys && Extends(messages0, messages)
    ensures part.Some? ==>
      && part.value.number == sending.number && MadeOf(part.value, sending, config, messages)
      && PartPut(old(db.tables), db.tables, u, sending.number, part.value.row, message, now)
    ensures UploadWorks(sending, config) && NewBlocks(old(db.tables), CutOf(sending, config), message) ==> part.Some?
  {
    messages := messages0;
    var uploaded := P.UploadPart(sending.frames, sending.expected, config, sending.world);
    if uploaded.Err? {
      return None, messages;
    }
    var (blocks, size) := uploaded.value;
    P.CutInRange(Joined(sending.frames), config.chunkSize, sending.world.rowId);
    var ok;
    ok, messages := StageBlocks(db, blocks, message, messages);
    if !ok {
      return None, messages;
    }
    part := PutPart(db, u, sending.number, size, sending.etag, blocks, message, now, old(db.tables));
  }

  // ---- all parts ----

  /** No later part of `done` has the number of this one. */
  predicate IsLatest(done: seq<T.PartSnapshot>, i: nat)
    requires i < |done|
  {
    forall j :: i < j < |done| ==> done[j].number != done[i].number
  }

  /** Of every number that was sent the latest part, and the others as they were before. */
  ghost predicate HoldsLatest(before: map<PartNumber, PartRow>, after: map<PartNumber, PartRow>, done: seq<T.PartSnapshot>) {
    && (forall i :: 0 <= i < |done| && IsLatest(done, i) ==>
          done[i].number in after && after[done[i].number] == done[i].row)
    && forall p :: (exists i :: 0 <= i < |done| && done[i].number == p) || SamePart(before, after, p)
  }

  predicate SamePart(before: map<PartNumber, PartRow>, after: map<PartNumber, PartRow>, p: PartNumber) {
    (p in after <==> p in before) && (p in before ==> after[p] == before[p])
  }

  lemma LatestNext(before: map<PartNumber, PartRow>, after: map<PartNumber, PartRow>, done: seq<T.PartSnapshot>,
                   part: T.PartSnapshot)
    requires HoldsLatest(before, after, done)
    ensures HoldsLatest(before, after[part.number := part.row], done + [part])
  {
    var more, n, after' := done + [part], |done|, after[part.number := part.row];
    forall i | 0 <= i < |more| && IsLatest(more, i)
      ensures more[i].number in after' && after'[more[i].number] == more[i].row
    {
      if i < n {
        assert more[n].number != more[i].number;
        assert IsLatest(done, i) by {
          forall j | i < j < n ensures done[j].number != done[i].number {
            assert more[j].number != more[i].number;
          }
        }
      }
    }
    forall p ensures (exists i :: 0 <= i < |more| && more[i].number == p) || SamePart(before, after', p) {
      if i :| 0 <= i < n && done[i].number == p {
        assert more[i].number == p;
      } else if p == part.number {
        assert more[n].number == p;
      } else {
        assert SamePart(before, after, p);
      }
    }
  }

  /** The upload has the parts sent so far, their blocks have rows, and no other row or object is new. */
  ghost predicate Sent(start: Tables, t: Tables, u: UploadId, done: seq<T.PartSnapshot>, message: BlockId -> MessageId) {
    && u in start.uploads && u in t.uploads
    && t.uploads[u] == UploadRow(start.uploads[u].name, start.uploads[u].createdAt, t.uploads[u].parts)
    && t.uploads == start.uploads[u := t.uploads[u]]
    && HoldsLatest(start.uploads[u].parts, t.uploads[u].parts, done)
    && Recorded(start, t, T.PartIds(done), message)
  }

  lemma SentMore(start: Tables, t: Tables, t': Tables, u: UploadId, done: seq<T.PartSnapshot>, part: T.PartSnapshot,
                 message: BlockId -> MessageId, now: int)
    requires Sent(start, t, u, done, message) && PartPut(t, t', u, part.number, part.row, message, now)
    ensures Sent(start, t', u, done + [part], message)
  {
    var more := done + [part];
    assert more[..|done|] == done;
    I.PartIdsStep(more);
    LatestNext(start.uploads[u].parts, t.uploads[u].parts, done, part);
    RecordedAll(start, t, t', T.PartIds(done), Ids(part.row.pieces), message);
  }

  ghost predicate Made(done: seq<T.PartSnapshot>, sendings: seq<Sending>, config: Config, messages: Messages) {
    && |done| <= |sendings|
    && forall i :: 0 <= i < |done| ==>
         done[i].number == sendings[i].number && MadeOf(done[i], sendings[i], config, messages)
  }

  lemma MadeOneMore(done: seq<T.PartSnapshot>, part: T.PartSnapshot, sendings: seq<Sending>, config: Config, known: Messages,
                    messages: Messages)
    requires Made(done, sendings, config, known) && Extends(known, messages) && |done| < |sendings|
    requires part.number == sendings[|done|].number && MadeOf(part, sendings[|done|], config, messages)
    ensures Made(done + [part], sendings, config, messages)
  {
    MadeStays(done, sendings, config, known, messages);
    var more := done + [part];
    forall i | 0 <= i < |more| ensures MadeOf(more[i], sendings[i], config, messages) {
      assert i < |done| ==> more[i] == done[i];
    }
  }

  lemma MadeStays(done: seq<T.PartSnapshot>, sendings: seq<Sending>, config: Config, messages: Messages, messages': Messages)
    requires Made(done, sendings, config, messages) && Extends(messages, messages')
    ensures Made(done, sendings, config, messages')
  {
    forall i | 0 <= i < |done| ensures MadeOf(done[i], sendings[i], config, messages') {
      assert MadeOf(done[i], sendings[i], config, messages);
      assert RT.Kept(CutOf(sendings[i], config), messages');
    }
  }

  /** All row ids of the parts are new and different, and every block has a message of its own. */
  ghost predicate AllNew(t: Tables, sendings: seq<Sending>, message: BlockId -> MessageId) {
    && OwnMessages(t, message)
    && (forall i, k: nat :: 0 <= i < |sendings| ==> sendings[i].world.rowId(k) !in t.blocks)
    && (forall i, j, k: nat, l: nat :: 0 <= i < |sendings| && 0 <= j < |sendings| ==>
          sendings[i].world.rowId(k) == sendings[j].world.rowId(l) ==> i == j && k == l)
  }

  lemma CutIds(sending: Sending, config: Config)
    ensures var blocks := CutOf(sending, config);
      forall k :: 0 <= k < |blocks| ==> blocks[k].id == sending.world.rowId(k)
  {
    if config.chunkSize > 0 {
      P.CutShape(Joined(sending.frames), config.chunkSize, sending.world.rowId, 0, 0);
      var blocks := CutOf(sending, config);
      forall k | 0 <= k < |blocks| ensures blocks[k].id == sending.world.rowId(k) {
        assert P.Shaped(blocks, k, Joined(sending.frames), config.chunkSize, sending.world.rowId, 0, 0);
      }
    }
  }

  /** The ids of the parts so far come from their row ids. */
  lemma DoneIds(done: seq<T.PartSnapshot>, sendings: seq<Sending>, config: Config, messages: Messages, b: BlockId)
    returns (j: nat, l: nat)
    requires Made(done, sendings, config, messages) && b in T.PartIds(done)
    ensures j < |done| && sendings[j].world.rowId(l) == b
  {
    j :| 0 <= j < |done| && b in Ids(done[j].row.pieces);
    assert MadeOf(done[j], sendings[j], config, messages);
    CutIds(sendings[j], config);
    PiecesIds(CutOf(sendings[j], config));
    l :| 0 <= l < |CutOf(sendings[j], config)| && CutOf(sendings[j], config)[l].id == b;
  }

  lemma NextPartIsNew(start: Tables, t: Tables, u: UploadId, done: seq<T.PartSnapshot>, sendings: seq<Sending>, config: Config,
                      message: BlockId -> MessageId, messages: Messages)
    requires Sent(start, t, u, done, message) && Made(done, sendings, config, messages) && |done| < |sendings|
    requires AllNew(start, sendings, message)
    ensures NewBlocks(t, CutOf(sendings[|done|], config), message)
  {
    var i := |done|;
    var blocks := CutOf(sendings[i], config);
    CutIds(sendings[i], config);
    forall k | 0 <= k < |blocks| ensures blocks[k].id !in t.blocks {
      if blocks[k].id in T.PartIds(done) {
        var j, l := DoneIds(done, sendings, config, messages, blocks[k].id);
      }
    }
    StillOwn(start, t, T.PartIds(done), message);
  }

  ghost predicate AllWorks(t: Tables, sendings: seq<Sending>, config: Config, message: BlockId -> MessageId) {
    AllNew(t, sendings, message) && forall i :: 0 <= i < |sendings| ==> UploadWorks(sendings[i], config)
  }

  /** The parts so far, as they are in the tables and in Telegram. */
  ghost predicate SentSoFar(start: Tables, t: Tables, u: UploadId, done: seq<T.PartSnapshot>, sendings: seq<Sending>,
                            config: Config, message: BlockId -> MessageId, messages: Messages)
  {
    && messages.Keys <= t.blocks.Keys
    && Sent(start, t, u, done, message) && Made(done, sendings, config, messages)
  }

  lemma NothingSent(t: Tables, u: UploadId, sendings: seq<Sending>, config: Config, message: BlockId -> MessageId)
    requires u in t.uploads
    ensures SentSoFar(t, t, u, [], sendings, config, message, map[])
  {
    assert T.PartIds([]) == {};
    assert forall p :: SamePart(t.uploads[u].parts, t.uploads[u].parts, p);
  }

  lemma SentOneMore(start: Tables, t: Tables, t': Tables, u: UploadId, done: seq<T.PartSnapshot>, part: T.PartSnapshot,
                    sendings: seq<Sending>, config: Config, message: BlockId -> MessageId, known: Messages,
                    messages: Messages, now: int)
    requires SentSoFar(start, t, u, done, sendings, config, message, known) && |done| < |sendings|
    requires PartPut(t, t', u, part.number, part.row, message, now) && part.number == sendings[|done|].number
    requires Extends(known, messages) && messages.Keys <= t'.blocks.Keys
    requires MadeOf(part, sendings[|done|], config, messages)
    ensures SentSoFar(start, t', u, done + [part], sendings, config, message, messages)
  {
    SentMore(start, t, t', u, done, part, message, now);
    MadeOneMore(done, part, sendings, config, known, messages);
  }

  method SendNext(db: Store.Db, u: UploadId, sendings: seq<Sending>, config: Config, message: BlockId -> MessageId,
                  done: seq<T.PartSnapshot>, messages0: Messages, now: int, ghost start: Tables)
    returns (part: Option<T.PartSnapshot>, messages: Messages)
    requires Valid(db.tables) && |done| < |sendings|
    requires SentSoFar(start, db.tables, u, done, sendings, config, message, messages0)
    modifies db
    ensures Valid(db.tables)
    ensures part.Some? ==> SentSoFar(start, db.tables, u, done + [part.value], sendings, config, message, messages)
    ensures AllWorks(start, sendings, config, message) ==> part.Some?
  {
    if AllWorks(start, sendings, config, message) {
      NextPartIsNew(start, db.tables, u, done, sendings, config, message, messages0);
    }
    part, messages := SendPart(db, u, sendings[|done|], config, message, messages0, now);
    if part.Some? {
      SentOneMore(start, old(db.tables), db.tables, u, done, part.value, sendings, config, message, messages0, messages, now);
    }
  }

  /** Uploads parts one after the other, in any number and order; a number that was sent before is replaced. */
  method SendParts(db: Store.Db, u: UploadId, sendings: seq<Sending>, config: Config, message: BlockId -> MessageId, now: int)
    returns (parts: Option<seq<T.PartSnapshot>>, messages: Messages)
    requires Valid(db.tables) && u in db.tables.uploads
    modifies db
    ensures Valid(db.tables)
    ensures parts.Some? ==>
      |parts.value| == |sendings| && SentSoFar(old(db.tables), db.tables, u, parts.value, sendings, config, message, messages)
    ensures AllWorks(old(db.tables), sendings, config, message) ==> parts.Some?
  {
    var done: seq<T.PartSnapshot> := [];
    messages := map[];
    NothingSent(db.tables, u, sendings, config, message);
    for i := 0 to |sendings|
      invariant Valid(db.tables) && |done| == i
      invariant SentSoFar(old(db.tables), db.tables, u, done, sendings, config, message, messages)
    {
      var part;
      part, messages := SendNext(db, u, sendings, config, message, done, messages, now, old(db.tables));
      if part.None? {
        return None, messages;
      }
      done := done + [part.value];
    }
    return Some(done), messages;
  }

  // ---- the parts that are completed ----

  /** Different numbers, and of each number the sending that came last. */
  predicate PicksLatest(sendings: seq<Sending>, picks: seq<nat>) {
    && (forall k :: 0 <= k < |picks| ==> picks[k] < |sendings|)
    && (forall k, j :: 0 <= k < |picks| && picks[k] < j < |sendings| ==> sendings[j].number != sendings[picks[k]].number)
    && (forall j, k :: 0 <= j < k < |picks| ==> sendings[picks[j]].number != sendings[picks[k]].number)
  }

  function Picked<X>(all: seq<X>, picks: seq<nat>): (some: seq<X>)
    requires forall k :: 0 <= k < |picks| ==> picks[k] < |all|
    ensures |some| == |picks| && forall k :: 0 <= k < |picks| ==> some[k] == all[picks[k]]
  {
    seq(|picks|, k requires 0 <= k < |picks| => all[picks[k]])
  }

  /** What was sent under the picked numbers is what the upload has. */
  lemma PickedMatch(start: Tables, t: Tables, u: UploadId, done: seq<T.PartSnapshot>, sendings: seq<Sending>, config: Config,
                    message: BlockId -> MessageId, messages: Messages, picks: seq<nat>)
    requires SentSoFar(start, t, u, done, sendings, config, message, messages) && |done| == |sendings|
    requires PicksLatest(sendings, picks)
    ensures Made(Picked(done, picks), Picked(sendings, picks), config, messages)
    ensures T.PartsMatch(t.uploads[u], Picked(done, picks))
  {
    forall k | 0 <= k < |picks| ensures T.PartMatches(t.uploads[u], done[picks[k]]) {
      assert IsLatest(done, picks[k]);
    }
  }

  // ---- the commit ----

  lemma AllLaidOut(done: seq<T.PartSnapshot>, sendings: seq<Sending>, config: Config, messages: Messages)
    requires Made(done, sendings, config, messages)
    ensures forall i :: 0 <= i < |done| ==> Contiguous(done[i].row.pieces) && TotalSize(done[i].row.pieces) == done[i].row.size
  {
    forall i | 0 <= i < |done| ensures Contiguous(done[i].row.pieces) && TotalSize(done[i].row.pieces) == done[i].row.size {
      PartIsLaidOut(done[i], sendings[i], config, messages);
    }
  }

  lemma {:induction false} TotalOfParts(done: seq<T.PartSnapshot>, sendings: seq<Sending>, n: nat)
    requires n <= |done| == |sendings|
    requires forall i :: 0 <= i < |done| ==> TotalSize(done[i].row.pieces) == |Joined(sendings[i].frames)|
    ensures T.PartsTotal(done[..n]) == |RT.JoinedBodies(BodiesOf(sendings[..n]))|
  {
    if n > 0 {
      TotalOfParts(done, sendings, n - 1);
      assert done[..n][..n - 1] == done[..n - 1];
      JoinedNext(sendings, n - 1);
    }
  }

  lemma PartIsLaidOut(part: T.PartSnapshot, sending: Sending, config: Config, messages: Messages)
    requires MadeOf(part, sending, config, messages)
    ensures Contiguous(part.row.pieces) && TotalSize(part.row.pieces) == part.row.size
  {
    if config.chunkSize > 0 {
      P.CutContiguous(Joined(sending.frames), config.chunkSize, sending.world.rowId);
      P.CutTotal(Joined(sending.frames), config.chunkSize, sending.world.rowId);
    }
  }

  lemma SizeOfParts(done: seq<T.PartSnapshot>, sendings: seq<Sending>, config: Config, messages: Messages)
    requires Made(done, sendings, config, messages) && |done| == |sendings|
    ensures T.PartsTotal(done) == |RT.JoinedBodies(BodiesOf(sendings))|
  {
    AllLaidOut(done, sendings, config, messages);
    forall i | 0 <= i < |done| ensures TotalSize(done[i].row.pieces) == |Joined(sendings[i].frames)| {
      assert MadeOf(done[i], sendings[i], config, messages);
    }
    TotalOfParts(done, sendings, |done|);
    assert sendings[..|done|] == sendings && done[..|done|] == done;
  }

  /** Nothing but the condition and the total stands against committing stored parts. */
  lemma PartsCommit(t: Tables, u: UploadId, parts: seq<T.PartSnapshot>, sendings: seq<Sending>, config: Config,
                    messages: Messages, size: i64, etag: string, condition: Condition, id: ObjectId, now: int)
    requires Valid(t) && u in t.uploads && T.PartsMatch(t.uploads[u], parts)
    requires Made(parts, sendings, config, messages) && |parts| == |sendings|
    requires size == |RT.JoinedBodies(BodiesOf(sendings))|
    ensures condition.Allows(T.EtagAt(t, t.uploads[u].name)) ==>
      var r := T.CommitUpload(t, u, size, etag, parts, condition, id, now); r.Ok? && r.value.Some?
  {
    AllLaidOut(parts, sendings, config, messages);
    SizeOfParts(parts, sendings, config, messages);
    O.StoredPartsAreApart(t, u, parts);
    assert T.PartsLayoutOk(parts);
  }

  /** Adds up the sizes of the parts, as the completion does. */
  method AddSizes(parts: seq<T.PartSnapshot>, ghost sendings: seq<Sending>, ghost config: Config, ghost messages: Messages)
    returns (size: Option<i64>)
    requires |parts| == |sendings| && Made(parts, sendings, config, messages)
    ensures size.Some? ==> size.value == |RT.JoinedBodies(BodiesOf(sendings))|
    ensures |RT.JoinedBodies(BodiesOf(sendings))| <= I64_MAX ==> size.Some?
  {
    var total: i64 := 0;
    assert BodiesOf(sendings[..0]) == [];
    for i := 0 to |parts|
      invariant total == |RT.JoinedBodies(BodiesOf(sendings[..i]))|
    {
      assert MadeOf(parts[i], sendings[i], config, messages);
      JoinedNext(sendings, i);
      var next := CheckedAdd(total, parts[i].row.size);
      if next.None? {
        JoinedGrows(sendings, i + 1);
        return None;
      }
      total := next.value;
    }
    assert sendings[..|parts|] == sendings;
    return Some(total);
  }

  lemma JoinedNext(sendings: seq<Sending>, i: nat)
    requires i < |sendings|
    ensures RT.JoinedBodies(BodiesOf(sendings[..i + 1])) == RT.JoinedBodies(BodiesOf(sendings[..i])) + Joined(sendings[i].frames)
  {
    var bodies := BodiesOf(sendings[..i + 1]);
    assert bodies[..i] == BodiesOf(sendings[..i]) && bodies[i] == Joined(sendings[i].frames);
  }

  lemma {:induction false} JoinedGrows(sendings: seq<Sending>, i: nat)
    requires i <= |sendings|
    ensures |RT.JoinedBodies(BodiesOf(sendings[..i]))| <= |RT.JoinedBodies(BodiesOf(sendings))|
    decreases |sendings| - i
  {
    if i == |sendings| {
      assert sendings[..i] == sendings;
    } else {
      JoinedNext(sendings, i);
      JoinedGrows(sendings, i + 1);
    }
  }

  // ---- the read ----

  /** How Telegram answers the requests of one read, by block, document and range. */
  datatype Reader = Reader(slotOpen: nat -> bool, admits: nat -> bool, answer: (nat, Bytes, int, int) -> R.Fetched)

  /** Every answer is one of the ways of fetching, though Telegram may refuse or stop early. */
  ghost predicate Honest(reader: Reader) {
    forall k, document, from, to :: 0 <= from <= to < |document| ==>
      R.Serves(reader.answer(k, document, from, to), document, from, to)
  }

  /** Nothing is refused and nothing stops early. */
  ghost predicate Reliable(reader: Reader) {
    && (forall k: nat :: reader.slotOpen(k) && reader.admits(k))
    && forall k, document, from, to :: 0 <= from <= to < |document| ==>
         R.ServesAll(reader.answer(k, document, from, to), document, from, to)
  }

  function WorldOf(reader: Reader, pieces: seq<Piece>, docs: seq<Bytes>, start: int, end: int): R.World
    requires R.Stored(pieces, docs) && start <= end
  {
    R.World(reader.slotOpen,
            k => if 0 <= k < |docs| && !R.Skipped(pieces[k], start, end)
                 then reader.answer(k, docs[k], R.ReadStart(pieces[k], start), R.ReadEnd(pieces[k], end))
                 else R.Fetched([], 0),
            reader.admits)
  }

  lemma WorldIsServed(reader: Reader, pieces: seq<Piece>, docs: seq<Bytes>, start: int, end: int)
    requires R.Stored(pieces, docs) && start <= end && Honest(reader)
    ensures R.Truthful(pieces, docs, start, end, WorldOf(reader, pieces, docs, start, end))
    ensures Reliable(reader) ==> R.Healthy(pieces, docs, start, end, WorldOf(reader, pieces, docs, start, end))
  {
    var world := WorldOf(reader, pieces, docs, start, end);
    forall k | 0 <= k < |pieces| && !R.Skipped(pieces[k], start, end)
      ensures R.Serves(world.fetch(k), docs[k], R.ReadStart(pieces[k], start), R.ReadEnd(pieces[k], end))
      ensures Reliable(reader) ==>
        R.ServesAll(world.fetch(k), docs[k], R.ReadStart(pieces[k], start), R.ReadEnd(pieces[k], end))
    {
      R.AskedRange(pieces[k], docs[k], start, end);
    }
    R.ServedWorldIsTruthful(pieces, docs, start, end, world);
    if Reliable(reader) {
      R.ServedWorldIsHealthy(pieces, docs, start, end, world);
    }
  }

  lemma WholeSize(row: ObjectRow, messages: Messages)
    requires ValidLayout(row.pieces, row.size) && R.Stored(row.pieces, RT.Docs(row.pieces, messages))
    ensures |RT.JoinedBodies(RT.Docs(row.pieces, messages))| == row.size >= 0
  {
    RT.JoinedLength(row.pieces, RT.Docs(row.pieces, messages), |row.pieces|);
    assert row.pieces[..|row.pieces|] == row.pieces;
    assert RT.Docs(row.pieces, messages)[..|row.pieces|] == RT.Docs(row.pieces, messages);
  }

  /** The header can be met: there is none, or the object is empty, or it asks for some positions of the object. */
  ghost predicate Understood(range: Option<string>, size: nat) {
    range.Some? && size > 0 ==> exists start, end :: H.Asks(range.value, size, start, end)
  }

  /** Everything without a header, and otherwise the positions that the header asks for. */
  ghost predicate Delivers(whole: Bytes, range: Option<string>, bytes: Bytes) {
    if range.None? || whole == [] then bytes == whole
    else exists start, end :: H.Asks(range.value, |whole|, start, end) && IsStretch(whole, start, end, bytes)
  }

  /** The positions start..=end; a suffix that is longer than the whole starts before it. */
  predicate IsStretch(whole: Bytes, start: int, end: int, bytes: Bytes) {
    var from := if start < 0 then 0 else start;
    from <= end < |whole| && bytes == whole[from..end + 1]
  }

  lemma SliceDelivers(whole: Bytes, range: Option<string>, size: i64)
    requires size == |whole| > 0
    ensures var parsed := H.ParseRange(range, size);
      && (parsed.Ok? ==> Delivers(whole, range, RT.Slice(whole, parsed.value.start, parsed.value.end)))
      && (parsed.Ok? <==> Understood(range, size))
  {
    var parsed := H.ParseRange(range, size);
    if parsed.Ok? {
      H.ParsedRangesAreBounded(range, size);
      var start, end := parsed.value.start, parsed.value.end;
      H.ParsesWhatIsAsked(range, size, start, end);
      assert IsStretch(whole, start, end, RT.Slice(whole, start, end));
      if range.None? {
        assert whole[0..size] == whole;
      } else {
        assert H.Asks(range.value, size, start, end);
      }
    } else if range.Some? {
      forall start, end ensures !H.Asks(range.value, size, start, end) {
        H.ParsesWhatIsAsked(range, size, start, end);
      }
    } else {
      H.ParsesWhatIsAsked(range, size, 0, 0);
    }
  }

  /** A ranged read of a stored object: layout check, range, and the stream of its blocks. */
  method ReadObject(row: ObjectRow, messages: Messages, range: Option<string>, reader: Reader) returns (r: Option<Bytes>)
    requires ValidLayout(row.pieces, row.size) && Honest(reader)
    requires R.Stored(row.pieces, RT.Docs(row.pieces, messages))
    ensures var whole := RT.JoinedBodies(RT.Docs(row.pieces, messages));
      && |whole| == row.size
      && (r.Some? ==> Delivers(whole, range, r.value))
      && (Reliable(reader) && Understood(range, |whole|) ==> r.Some?)
  {
    var ok := E.ValidateObjectLayout(row.pieces, row.size);
    var parsed := H.ParseRange(range, row.size);
    var docs := RT.Docs(row.pieces, messages);
    ghost var whole := RT.JoinedBodies(docs);
    WholeSize(row, messages);
    if row.size > 0 {
      SliceDelivers(whole, range, row.size);
    }
    if !ok || parsed.Err? {
      return None;
    }
    var start, end := parsed.value.start, parsed.value.end;
    if row.size == 0 {
      return Some([]);
    }
    H.ParsedRangesAreBounded(range, row.size);
    WorldIsServed(reader, row.pieces, docs, start, end);
    RT.ClipsAreTheSlice(row.pieces, docs, start, end);
    var out, failed := R.ReadRange(row.pieces, docs, start, end, WorldOf(reader, row.pieces, docs, start, end));
    return if failed then None else Some(out);
  }

  // ---- from frames to bytes ----

  function RowIdsOf(sendings: seq<Sending>): (ids: seq<nat -> BlockId>)
    ensures |ids| == |sendings| && forall i :: 0 <= i < |ids| ==> ids[i] == sendings[i].world.rowId
  {
    if |sendings| == 0 then [] else [sendings[0].world.rowId] + RowIdsOf(sendings[1..])
  }

  function SizesOf(sendings: seq<Sending>, config: Config): (sizes: seq<nat>)
    ensures |sizes| == |sendings| && forall i :: 0 <= i < |sizes| ==> sizes[i] == config.chunkSize
  {
    if |sendings| == 0 then [] else [config.chunkSize] + SizesOf(sendings[1..], config)
  }

  /** What was committed is readable, and its messages joined are the bodies. */
  lemma CommittedContent(done: seq<T.PartSnapshot>, sendings: seq<Sending>, config: Config, messages: Messages)
    requires Made(done, sendings, config, messages) && |done| == |sendings| && T.PartsLayoutOk(done)
    ensures R.Stored(T.Flatten(done), RT.Docs(T.Flatten(done), messages))
    ensures RT.JoinedBodies(RT.Docs(T.Flatten(done), messages)) == RT.JoinedBodies(BodiesOf(sendings))
    ensures ValidLayout(T.Flatten(done), |RT.JoinedBodies(BodiesOf(sendings))|)
  {
    var bodies, sizes, ids := BodiesOf(sendings), SizesOf(sendings, config), RowIdsOf(sendings);
    forall i | 0 <= i < |done| ensures RT.MadeFrom(done[i], bodies[i], sizes[i], ids[i], messages) {
      assert MadeOf(done[i], sendings[i], config, messages);
    }
    RT.ReadsWhatWasWritten(done, bodies, sizes, ids, messages, 0, 0);
    RT.FlattenedContent(done, bodies, sizes, ids, messages);
    RT.ContentIsJoinedDocs(T.Flatten(done), messages);
  }

  /**
   * A client sends parts in frames of any sizes, in any order, some of them again, completes the upload with some of the
   * numbers, and asks for a range: if it gets an answer, that is what it asked for of the picked bodies joined, each the
   * last one sent under its number; and it gets one whenever everything outside works.
   */
  method WriteThenRead(db: Store.Db, u: UploadId, sendings: seq<Sending>, picks: seq<nat>, config: Config,
                       message: BlockId -> MessageId, etag: string, condition: Condition, id: ObjectId, now: int,
                       range: Option<string>, reader: Reader)
    returns (r: Option<Bytes>)
    requires Valid(db.tables) && u in db.tables.uploads && PicksLatest(sendings, picks)
    requires (forall n :: n in db.tables.objects ==> db.tables.objects[n].id != id) && Honest(reader)
    modifies db
    ensures Valid(db.tables)
    ensures var whole := RT.JoinedBodies(BodiesOf(Picked(sendings, picks)));
      r.Some? ==> |whole| <= I64_MAX && Delivers(whole, range, r.value)
    ensures var whole := RT.JoinedBodies(BodiesOf(Picked(sendings, picks)));
      && AllWorks(old(db.tables), sendings, config, message) && Reliable(reader)
      && |whole| <= I64_MAX && Understood(range, |whole|)
      && condition.Allows(T.EtagAt(old(db.tables), old(db.tables).uploads[u].name))
      ==> r.Some?
  {
    var name := db.tables.uploads[u].name;
    var all, messages := SendParts(db, u, sendings, config, message, now);
    if all.None? {
      return None;
    }
    ghost var sent := db.tables;
    PickedMatch(old(db.tables), sent, u, all.value, sendings, config, message, messages, picks);
    var parts := Picked(all.value, picks);
    ghost var made := Picked(sendings, picks);
    var size := AddSizes(parts, made, config, messages);
    if size.None? {
      return None;
    }
    PartsCommit(sent, u, parts, made, config, messages, size.value, etag, condition, id, now);
    var committed := db.CommitUpload(u, size.value, etag, parts, condition, id, now);
    if committed.Err? || committed.value.None? {
      return None;
    }
    I.CommitStores(sent, u, size.value, etag, parts, condition, id, now);
    CommittedContent(parts, made, config, messages);
    r := ReadObject(db.tables.objects[name], messages, range, reader);
  }

  /** One number is sent twice, and without a Range header the second body is read back. */
  method SendTwiceThenRead(db: Store.Db, u: UploadId, first: Sending, second: Sending, config: Config,
                           message: BlockId -> MessageId, etag: string, condition: Condition, id: ObjectId, now: int,
                           reader: Reader)
    returns (r: Option<Bytes>)
    requires Valid(db.tables) && u in db.tables.uploads && first.number == second.number
    requires (forall n :: n in db.tables.objects ==> db.tables.objects[n].id != id) && Honest(reader)
    modifies db
    ensures Valid(db.tables)
    ensures r.Some? ==> r.value == Joined(second.frames)
    ensures AllWorks(old(db.tables), [first, second], config, message) && Reliable(reader)
      && |Joined(second.frames)| <= I64_MAX
      && condition.Allows(T.EtagAt(old(db.tables), old(db.tables).uploads[u].name))
      ==> r.Some?
  {
    var sendings := [first, second];
    ghost var bodies := BodiesOf(Picked(sendings, [1]));
    assert bodies == [Joined(second.frames)];
    assert RT.JoinedBodies(bodies[..0]) == [];
    assert RT.JoinedBodies(bodies) == Joined(second.frames);
    r := WriteThenRead(db, u, sendings, [1], config, message, etag, condition, id, now, None, reader);
  }
}
