/** The operations of the metadata database, each one transaction over the current tables. */
module Store {
  import opened Prelude
  import opened Schema
  import opened Conditions
  import opened Database
  import T = Transactions
  import I = Invariants
  import O = Outcomes

  /** Accepts parts whose blocks are positive, contiguous, distinct and sum up to the recorded sizes, all in 64 bits. */
  method ValidatePartsLayout(parts: seq<T.PartSnapshot>) returns (r: Option<i64>)
    ensures r.Some? <==> T.PartsLayoutOk(parts)
    ensures r.Some? ==> r.value == T.PartsTotal(parts)
  {
    var total: i64 := 0;
    var seen: set<BlockId> := {};
    assert parts[..0] == [];
    for i := 0 to |parts|
      invariant T.PartsLayoutOk(parts[..i])
      invariant total == T.PartsTotal(parts[..i])
      invariant seen == T.PartIds(parts[..i])
    {
      var offset: Option<i64>;
      offset, seen := ValidatePart(parts[i].row.pieces, seen);
      PrefixOfValidParts(parts, i);
      if offset.None? {
        return None;
      }
      if offset.value != parts[i].row.size {
        return None;
      }
      var next := CheckedAdd(total, offset.value);
      assert parts[..i + 1][..i] == parts[..i] && parts[..i + 1][i] == parts[i];
      assert T.PartsTotal(parts[..i + 1]) == total + offset.value;
      T.WholeSizeBounds(parts[i].row.pieces);
      T.PartsTotalBounds(parts[..i], i);
      if next.None? {
        return None;
      }
      ExtendValidParts(parts, i);
      total := next.value;
    }
    assert parts[..|parts|] == parts;
    return Some(total);
  }

  /** The inner loop: one part, against the blocks already seen in earlier parts. */
  method ValidatePart(pieces: seq<Piece>, seen: set<BlockId>) returns (r: Option<i64>, seen': set<BlockId>)
    ensures r.Some? <==> Contiguous(pieces) && Distinct(pieces) && Ids(pieces) !! seen && TotalSize(pieces) <= I64_MAX
    ensures r.Some? ==> r.value == TotalSize(pieces) && seen' == seen + Ids(pieces)
  {
    var offset: i64 := 0;
    seen' := seen;
    IdsEmpty(pieces);
    assert Contiguous(pieces[..0]) && Distinct(pieces[..0]) && TotalSize(pieces[..0]) == 0;
    hide Contiguous, Distinct, TotalSize;
    for j := 0 to |pieces|
      invariant Contiguous(pieces[..j]) && Distinct(pieces[..j])
      invariant Ids(pieces[..j]) !! seen && seen' == seen + Ids(pieces[..j])
      invariant offset == TotalSize(pieces[..j])
    {
      PieceStep(pieces, j);
      DistinctStep(pieces, j);
      if pieces[j].size <= 0 || pieces[j].offset != offset {
        return None, seen';
      }
      if pieces[j].id in seen' {
        return None, seen';
      }
      seen' := seen' + {pieces[j].id};
      var next := CheckedAdd(offset, pieces[j].size);
      if next.None? {
        return None, seen';
      }
      offset := next.value;
    }
    assert pieces[..|pieces|] == pieces;
    return Some(offset), seen';
  }

  lemma PieceStep(pieces: seq<Piece>, j: nat)
    requires j < |pieces| && Contiguous(pieces[..j])
    ensures Contiguous(pieces[..j + 1]) <==> pieces[j].size > 0 && pieces[j].offset == TotalSize(pieces[..j])
    ensures TotalSize(pieces[..j + 1]) == TotalSize(pieces[..j]) + pieces[j].size
    ensures 0 <= TotalSize(pieces[..j])
    ensures Contiguous(pieces) ==> Contiguous(pieces[..j + 1]) && TotalSize(pieces[..j + 1]) <= TotalSize(pieces)
  {
    T.WholeSizeBounds(pieces[..j]);
    AppendPiece(pieces[..j], pieces[j]);
    assert pieces[..j + 1] == pieces[..j] + [pieces[j]];
    if Contiguous(pieces) {
      T.ContiguousPrefix(pieces, j + 1);
      T.TotalSizeBounds(pieces, j + 1);
    }
  }

  lemma AppendPiece(pieces: seq<Piece>, piece: Piece)
    requires Contiguous(pieces)
    ensures Contiguous(pieces + [piece]) <==> piece.size > 0 && piece.offset == TotalSize(pieces)
    ensures TotalSize(pieces + [piece]) == TotalSize(pieces) + piece.size
  {
    var more := pieces + [piece];
    assert more[..|pieces|] == pieces && more[|pieces|] == piece;
    forall k | 0 <= k < |pieces| ensures more[k] == pieces[k] && more[..k] == pieces[..k] {
    }
  }

  lemma DistinctStep(pieces: seq<Piece>, j: nat)
    requires j < |pieces| && Distinct(pieces[..j])
    ensures Ids(pieces[..j + 1]) == Ids(pieces[..j]) + {pieces[j].id}
    ensures Distinct(pieces[..j + 1]) <==> pieces[j].id !in Ids(pieces[..j])
    ensures Distinct(pieces) ==> Distinct(pieces[..j + 1])
    ensures pieces[j].id in Ids(pieces)
  {
  }

  lemma PrefixOfValidParts(parts: seq<T.PartSnapshot>, i: nat)
    requires i < |parts|
    ensures T.PartsLayoutOk(parts) ==>
      var pieces := parts[i].row.pieces;
      && Contiguous(pieces) && Distinct(pieces) && Ids(pieces) !! T.PartIds(parts[..i])
      && TotalSize(pieces) <= I64_MAX && TotalSize(pieces) == parts[i].row.size
      && T.PartsTotal(parts[..i + 1]) <= I64_MAX
  {
    if T.PartsLayoutOk(parts) {
      NextPartIds(parts, i);
      NextPartFits(parts, i);
      T.PartsTotalBounds(parts, i);
      T.PartsTotalBounds(parts[..i], i);
      T.PartsTotalBounds(parts, i + 1);
    }
  }

  lemma ExtendValidParts(parts: seq<T.PartSnapshot>, i: nat)
    requires i < |parts| && T.PartsLayoutOk(parts[..i])
    requires var pieces := parts[i].row.pieces;
      && Contiguous(pieces) && Distinct(pieces) && Ids(pieces) !! T.PartIds(parts[..i])
      && TotalSize(pieces) == parts[i].row.size
    requires T.PartsTotal(parts[..i + 1]) <= I64_MAX
    ensures T.PartsLayoutOk(parts[..i + 1])
    ensures T.PartIds(parts[..i + 1]) == T.PartIds(parts[..i]) + Ids(parts[i].row.pieces)
  {
    var more := parts[..i + 1];
    assert more[..i] == parts[..i] && more[i] == parts[i];
    I.PartIdsStep(more);
    forall j | 0 <= j < i + 1
      ensures Contiguous(more[j].row.pieces) && Distinct(more[j].row.pieces)
      ensures TotalSize(more[j].row.pieces) == more[j].row.size
    {
      assert j < i ==> more[j] == parts[..i][j];
    }
    forall j, k | 0 <= j < k < i + 1 ensures Ids(more[j].row.pieces) !! Ids(more[k].row.pieces) {
      if k < i {
        assert more[j] == parts[..i][j] && more[k] == parts[..i][k];
      } else {
        assert Ids(parts[..i][j].row.pieces) <= T.PartIds(parts[..i]);
      }
    }
  }

  class Db {
    var tables: Tables

    constructor ()
      ensures tables == EMPTY && Valid(tables)
    {
      tables := EMPTY;
      new;
      assert Valid(EMPTY);
    }

    method CreateUpload(u: UploadId, name: Name, now: int) returns (r: Result<(), Failure>)
      requires Valid(tables)
      modifies this
      ensures Valid(tables)
      ensures match T.CreateUpload(old(tables), u, name, now)
              case Ok(t') => r == Ok(()) && tables == t'
              case Err(e) => r == Err(e) && tables == old(tables)
    {
      I.CreateUploadKeepsValid(tables, u, name, now);
      if name.bucket !in tables.buckets {
        return Err(T.NoSuchBucket);
      }
      if u in tables.uploads {
        return Err(T.NotUnique);
      }
      tables := tables.(uploads := tables.uploads[u := UploadRow(name, now, map[])]);
      return Ok(());
    }

    method AddStagedBlock(id: BlockId, message: MessageId) returns (r: Result<BlockId, Failure>)
      requires Valid(tables)
      modifies this
      ensures Valid(tables)
      ensures match T.AddStagedBlock(old(tables), id, message)
              case Ok(t') => r == Ok(id) && tables == t'
              case Err(e) => r == Err(e) && tables == old(tables)
    {
      I.AddStagedBlockKeepsValid(tables, id, message);
      if id in tables.blocks || exists b :: b in tables.blocks && tables.blocks[b].message == message {
        return Err(T.NotUnique);
      }
      tables := tables.(blocks := tables.blocks[id := BlockRow(message, 1, false)]);
      return Ok(id);
    }

    /** Replaces the part and returns the pieces that lost their reference. */
    method ReplacePart(u: UploadId, p: PartNumber, size: i64, etag: string, pieces: seq<Piece>, now: int)
      returns (r: Result<seq<Piece>, Failure>)
      requires Valid(tables) && I.MayReceive(tables, u, p, pieces)
      modifies this
      ensures Valid(tables)
      ensures match T.ReplacePart(old(tables), u, p, size, etag, pieces, now)
              case Ok(t') => r.Ok? && tables == t'
                && Ids(r.value) == Ids(T.PartPieces(old(tables), u, p)) - Ids(pieces)
              case Err(e) => r == Err(e) && tables == old(tables)
      ensures r.Ok? <==>
        u in old(tables).uploads && Distinct(pieces) && Ids(pieces) <= old(tables).blocks.Keys - old(tables).queue.Keys
      ensures r.Ok? ==> O.HasPart(old(tables), tables, u, p, PartRow(size, etag, pieces), now)
    {
      I.ReplacePartKeepsValid(tables, u, p, size, etag, pieces, now);
      O.PartReplaced(tables, u, p, size, etag, pieces, now);
      var tx := new Transaction(tables);
      if u !in tx.uploads {
        return Err(T.NoSuchUpload);
      }
      var queued := tx.AnyQueued(pieces);
      if queued {
        return Err(T.SlowDown);
      }
      var unique, ids := DistinctIds(pieces);
      if !unique {
        return Err(T.InvalidPart);
      }
      var released := ReplaceRows(tx, u, p, PartRow(size, etag, pieces), ids, now);
      var exist := BlocksExist(pieces, tx.blocks);
      if !exist {
        return Err(T.ForeignKey);
      }
      tables := tx.View();
      return Ok(released);
    }

    /** Stores the parts as an object; None when the upload is gone. */
    method CommitUpload(u: UploadId, size: i64, etag: string, parts: seq<T.PartSnapshot>, condition: Condition,
                        id: ObjectId, now: int)
      returns (r: Result<Option<seq<Piece>>, Failure>)
      requires Valid(tables)
      requires forall n :: n in tables.objects ==> tables.objects[n].id != id
      modifies this
      ensures Valid(tables)
      ensures match T.CommitUpload(old(tables), u, size, etag, parts, condition, id, now)
              case Ok(Some(t')) => r.Ok? && r.value.Some? && tables == t'
                && Ids(r.value.value) == Ids(T.PiecesAt(old(tables), old(tables).uploads[u].name))
                                       + (UploadIds(old(tables).uploads[u]) - T.PartIds(parts))
              case Ok(None) => r == Ok(None) && tables == old(tables)
              case Err(e) => r == Err(e) && tables == old(tables)
    {
      I.CommitUploadKeepsValid(tables, u, size, etag, parts, condition, id, now);
      var total := ValidatePartsLayout(parts);
      if total != Some(size) {
        return Err(T.InvalidLayout);
      }
      var tx := new Transaction(tables);
      if u !in tx.uploads {
        return Ok(None);
      }
      var upload := tx.uploads[u];
      var ok := tx.VerifyParts(u, parts);
      if !ok {
        return Err(T.InvalidPart);
      }
      var queued := AnyPartQueued(tx, parts);
      if queued {
        return Err(T.SlowDown);
      }
      var removed := tx.RemoveExistingObject(upload.name, condition, now);
      if removed.Err? {
        return Err(removed.error);
      }
      var released := if removed.value.Some? then removed.value.value else [];
      I.MatchedPartsAreHeld(tables, u, parts);
      var unused := CommitRows(tx, u, ObjectRow(id, size, etag, []), parts, now);
      AppendedIds(released, unused);
      tables := tx.View();
      return Ok(Some(released + unused));
    }

    /** Ends the upload; None when it is gone. */
    method AbortUpload(u: UploadId, now: int) returns (r: Option<seq<Piece>>)
      requires Valid(tables)
      modifies this
      ensures Valid(tables)
      ensures match T.AbortUpload(old(tables), u, now)
              case Some(t') => r.Some? && tables == t' && Ids(r.value) == UploadIds(old(tables).uploads[u])
              case None => r == None && tables == old(tables)
    {
      var tx := new Transaction(tables);
      if u !in tx.uploads {
        return None;
      }
      I.AbortUploadKeepsValid(tables, u, now);
      var parts := tx.uploads[u].parts;
      OwnParts(tx.uploads, u);
      tx.uploads := tx.uploads - {u};
      var released := ReleaseParts(tx, parts, {}, now);
      tables := tx.View();
      return Some(released);
    }

    /** Aborts every upload created before `before` and counts them; nothing else changes but their blocks. */
    method ExpireUploads(before: int, now: int) returns (count: nat)
      requires Valid(tables)
      modifies this
      ensures Valid(tables)
      ensures tables == AbortAll(old(tables), Expired(old(tables), before), now)
      ensures count == |Expired(old(tables), before)|
      ensures OnlyExpires(old(tables), tables, before, now)
    {
      var todo := Expired(tables, before);
      ghost var all := todo;
      count := 0;
      AbortNone(tables, now);
      assert tables.uploads - (all - todo) == tables.uploads;
      while todo != {}
        invariant Valid(tables) && tables == AbortAll(old(tables), all - todo, now)
        invariant todo <= all && all <= old(tables).uploads.Keys
        invariant count + |todo| == |all|
      {
        var u :| u in todo;
        ghost var gone := all - todo;
        assert u !in gone && all - (todo - {u}) == gone + {u};
        AbortOneMore(old(tables), gone, u, now);
        var r := AbortUpload(u, now);
        if r.Some? {
          count := count + 1;
        }
        todo := todo - {u};
      }
      assert all - todo == all;
      UploadsExpired(old(tables), before, now);
    }

    method DeleteObject(name: Name, condition: Condition, now: int) returns (r: Result<Option<seq<Piece>>, Failure>)
      requires Valid(tables)
      modifies this
      ensures Valid(tables)
      ensures match T.DeleteObject(old(tables), name, condition, now)
              case Ok(Some(t')) => r.Ok? && r.value.Some? && tables == t' && Ids(r.value.value) == Ids(old(tables).objects[name].pieces)
              case Ok(None) => r == Ok(None) && tables == old(tables)
              case Err(e) => r == Err(e) && tables == old(tables)
    {
      I.RemoveObjectKeepsValid(tables, name, now);
      var tx := new Transaction(tables);
      var removed := tx.RemoveExistingObject(name, condition, now);
      if removed.Err? {
        return Err(removed.error);
      }
      if removed.value.None? {
        return Ok(None);
      }
      tables := tx.View();
      return removed;
    }

    /** Stores the pieces of an earlier read under another name, if that read is still current. */
    method CopyObject(source: T.ObjectSnapshot, name: Name, condition: Condition, id: ObjectId, now: int)
      returns (r: Result<seq<Piece>, Failure>)
      requires Valid(tables) && I.SnapshotIsCurrent(tables, source)
      requires Distinct(source.row.pieces)
      requires forall n :: n in tables.objects ==> tables.objects[n].id != id
      modifies this
      ensures Valid(tables)
      ensures match T.CopyObject(old(tables), source, name, condition, id, now)
              case Ok(t') => r.Ok? && tables == t' && Ids(r.value) == Ids(T.PiecesAt(old(tables), name))
              case Err(e) => r == Err(e) && tables == old(tables)
    {
      I.CopyObjectKeepsValid(tables, source, name, condition, id, now);
      var tx := new Transaction(tables);
      if source.name !in tx.objects || tx.objects[source.name].id != source.row.id {
        return Err(T.NoSuchKey);
      }
      var queued := tx.AnyQueued(source.row.pieces);
      if queued {
        return Err(T.SlowDown);
      }
      var removed := tx.RemoveExistingObject(name, condition, now);
      if removed.Err? {
        return Err(removed.error);
      }
      assert tx.blocks.Keys == tables.blocks.Keys;
      var ok := tx.InsertCopiedBlocks(name, source.row.(id := id, pieces := []), source.row.pieces);
      if !ok {
        return Err(T.ForeignKey);
      }
      tables := tx.View();
      return Ok(if removed.value.Some? then removed.value.value else []);
    }

    /** Claims an unreferenced staged block for deletion. */
    method QueueStaleBlock(b: BlockId, now: int) returns (queued: bool)
      requires Valid(tables)
      modifies this
      ensures Valid(tables)
      ensures (tables, queued) == T.QueueStaleBlock(old(tables), b, now)
      ensures queued <==> b in old(tables).blocks && !Referenced(old(tables), b) && !old(tables).blocks[b].committed
    {
      I.QueueStaleBlockKeepsValid(tables, b, now);
      if b in tables.blocks {
        assert BlockOk(tables, b);
      }
      var tx := new Transaction(tables);
      if b in tx.blocks && !tx.blocks[b].committed && tx.blocks[b].refCount > 0 && !T.Mentioned(tx.View(), b) {
        tx.blocks := tx.blocks[b := tx.blocks[b].(refCount := 0)];
      }
      if b in tx.blocks && !tx.blocks[b].committed && tx.blocks[b].refCount == 0 && !T.Mentioned(tx.View(), b) && b !in tx.queue {
        tx.queue := tx.queue[b := QueueRow(0, now, false)];
      }
      queued := b in tx.blocks && b in tx.queue && !tx.blocks[b].committed && tx.blocks[b].refCount == 0 && !T.Mentioned(tx.View(), b);
      ghost var expected := T.QueueStaleBlock(tables, b, now).0;
      assert tx.blocks == expected.blocks && tx.queue == expected.queue;
      tables := tx.View();
    }

    /** Deletes the row of a block whose message is gone; its queue entry goes with it. */
    method GcSuccess(b: BlockId)
      requires Valid(tables)
      modifies this
      ensures Valid(tables) && tables == T.GcSuccess(old(tables), b)
      ensures b in old(tables).queue ==> b !in tables.blocks && b !in tables.queue
      ensures b !in old(tables).queue ==> tables == old(tables)
    {
      I.GcSuccessKeepsValid(tables, b);
      O.CollectedRow(tables, b);
      if b in tables.blocks && tables.blocks[b].refCount == 0 && !T.Mentioned(tables, b) {
        tables := tables.(blocks := tables.blocks - {b}, queue := tables.queue - {b});
      }
    }

    method GcFailure(b: BlockId, nextAttempt: int)
      requires Valid(tables)
      modifies this
      ensures Valid(tables) && tables == T.GcFailure(old(tables), b, nextAttempt)
      ensures tables == old(tables).(queue := tables.queue)
      ensures tables.queue == if b !in old(tables).queue then old(tables).queue
        else var row := old(tables).queue[b]; old(tables).queue[b := QueueRow(row.attempts + 1, nextAttempt, row.orphan)]
    {
      I.GcFailureKeepsValid(tables, b, nextAttempt);
      if b in tables.queue {
        var row := tables.queue[b];
        var queue := tables.queue[b := row.(attempts := row.attempts + 1, nextAttempt := nextAttempt)];
        assert tables.(queue := queue) == T.GcFailure(tables, b, nextAttempt);
        tables := tables.(queue := queue);
      }
    }

    method GcOrphan(b: BlockId)
      requires Valid(tables)
      modifies this
      ensures Valid(tables) && tables == T.GcOrphan(old(tables), b)
      ensures tables == old(tables).(queue := tables.queue)
      ensures tables.queue == if b !in old(tables).queue then old(tables).queue
        else var row := old(tables).queue[b]; old(tables).queue[b := QueueRow(row.attempts, row.nextAttempt, true)]
    {
      I.GcFailureKeepsValid(tables, b, 0);
      if b in tables.queue {
        tables := tables.(queue := tables.queue[b := tables.queue[b].(orphan := true)]);
      }
    }
  }

  // ---- loops over part lists ----

  /** Deletes the old part, releases those of its blocks that are not `kept`, and inserts the new rows. */
  method ReplaceRows(tx: Transaction, u: UploadId, p: PartNumber, row: PartRow, kept: set<BlockId>, now: int)
    returns (released: seq<Piece>)
    requires u in tx.uploads && Distinct(T.PartPieces(tx.View(), u, p))
    modifies tx
    ensures tx.View() == T.Release(old(tx.View()).(uploads := T.WithPart(old(tx.uploads), u, p, row)),
                                   Ids(T.PartPieces(old(tx.View()), u, p)) - kept, now)
    ensures tx.blocks.Keys == old(tx.blocks).Keys
    ensures Ids(released) == Ids(T.PartPieces(old(tx.View()), u, p)) - kept
  {
    var upload := tx.uploads[u];
    var prior := if p in upload.parts then upload.parts[p].pieces else [];
    tx.uploads := tx.uploads[u := upload.(parts := upload.parts - {p})];
    released := tx.DecrementBlocks(prior, kept, now);
    var parts := tx.uploads[u].parts[p := row];
    tx.uploads := tx.uploads[u := tx.uploads[u].(parts := parts)];
    assert parts == upload.parts[p := row];
    assert tx.uploads == T.WithPart(old(tx.uploads), u, p, row);
  }

  function Expired(t: Tables, before: int): set<UploadId> {
    set u | u in t.uploads && t.uploads[u].createdAt < before
  }

  function HeldBy(t: Tables, us: set<UploadId>): set<BlockId> {
    set u, b | u in us && u in t.uploads && b in UploadIds(t.uploads[u]) :: b
  }

  /** Several uploads gone at once, with every block they held released. */
  function AbortAll(t: Tables, us: set<UploadId>, now: int): Tables {
    T.Release(t.(uploads := t.uploads - us), HeldBy(t, us), now)
  }

  /** The upload was old and one of its parts has the block. */
  ghost predicate HeldByOld(t: Tables, before: int, u: UploadId, p: PartNumber, b: BlockId) {
    PartHolds(t.uploads, u, p, b) && t.uploads[u].createdAt < before
  }

  /** Exactly the uploads created before `before` are gone, and exactly their blocks wait for deletion. */
  ghost predicate OnlyExpires(t: Tables, t': Tables, before: int, now: int) {
    && (forall u :: u in t'.uploads <==> u in t.uploads && t.uploads[u].createdAt >= before)
    && (forall u :: u in t'.uploads ==> t'.uploads[u] == t.uploads[u])
    && t'.objects == t.objects && t'.buckets == t.buckets
    && (forall u, p, b :: HeldByOld(t, before, u, p, b) ==> O.Waiting(t', b, now))
    && (forall b :: O.Same(t, t', b) || exists u, p :: HeldByOld(t, before, u, p, b))
  }

  lemma UploadsExpired(t: Tables, before: int, now: int)
    requires Valid(t) && Valid(AbortAll(t, Expired(t, before), now))
    ensures OnlyExpires(t, AbortAll(t, Expired(t, before), now), before, now)
  {
    var us := Expired(t, before);
    var gone, t' := HeldBy(t, us), AbortAll(t, us, now);
    var without := t.(uploads := t.uploads - us);
    forall b | b in gone ensures b in t.blocks && t.blocks[b].refCount == 1 && b !in t.queue {
      var u :| u in us && u in t.uploads && b in UploadIds(t.uploads[u]);
      O.HeldOnce(t, u, b);
    }
    O.Released(without, gone, now);
    O.SameRows(t, without, t', gone, now);
    forall u, p, b | HeldByOld(t, before, u, p, b) ensures b in gone {
      assert u in us && b in UploadIds(t.uploads[u]);
    }
    forall b | b in gone ensures exists u, p :: HeldByOld(t, before, u, p, b) {
      var u :| u in us && u in t.uploads && b in UploadIds(t.uploads[u]);
      var p :| p in t.uploads[u].parts && b in Ids(t.uploads[u].parts[p].pieces);
      assert HeldByOld(t, before, u, p, b);
    }
  }

  lemma AbortNone(t: Tables, now: int)
    ensures AbortAll(t, {}, now) == t
  {
  }

  /** Aborting uploads one by one or together is the same, because no block is in two uploads. */
  lemma AbortOneMore(t: Tables, us: set<UploadId>, u: UploadId, now: int)
    requires Valid(t) && u in t.uploads && u !in us
    ensures T.AbortUpload(AbortAll(t, us, now), u, now) == Some(AbortAll(t, us + {u}, now))
  {
    var a, b := HeldBy(t, us), UploadIds(t.uploads[u]);
    forall x | x in a && x in b ensures false {
      var v :| v in us && v in t.uploads && x in UploadIds(t.uploads[v]);
      var p :| p in t.uploads[v].parts && x in Ids(t.uploads[v].parts[p].pieces);
      var q :| q in t.uploads[u].parts && x in Ids(t.uploads[u].parts[q].pieces);
      assert PartHolds(t.uploads, v, p, x) && PartHolds(t.uploads, u, q, x);
    }
    assert HeldBy(t, us + {u}) == a + b;
    assert t.uploads - us - {u} == t.uploads - (us + {u});
    ReleaseUnion(t.(uploads := t.uploads - us - {u}), a, b, now);
    ReleaseFramesUploads(t.(uploads := t.uploads - us), a, u, now);
  }

  lemma ReleaseFramesUploads(t: Tables, a: set<BlockId>, u: UploadId, now: int)
    ensures T.Release(t, a, now).(uploads := t.uploads - {u}) == T.Release(t.(uploads := t.uploads - {u}), a, now)
  {
  }

  method DistinctIds(pieces: seq<Piece>) returns (unique: bool, ids: set<BlockId>)
    ensures unique <==> Distinct(pieces)
    ensures unique ==> ids == Ids(pieces)
  {
    ids := {};
    IdsEmpty(pieces);
    for i := 0 to |pieces|
      invariant ids == Ids(pieces[..i]) && Distinct(pieces[..i])
    {
      IdsStep(pieces, i);
      if pieces[i].id in ids {
        return false, ids;
      }
      ids := ids + {pieces[i].id};
    }
    assert pieces[..|pieces|] == pieces;
    return true, ids;
  }

  method BlocksExist(pieces: seq<Piece>, blocks: map<BlockId, BlockRow>) returns (exist: bool)
    ensures exist <==> Ids(pieces) <= blocks.Keys
  {
    for i := 0 to |pieces|
      invariant forall k :: 0 <= k < i ==> pieces[k].id in blocks
    {
      if pieces[i].id !in blocks {
        assert pieces[i].id in Ids(pieces);
        return false;
      }
    }
    return true;
  }

  method AnyPartQueued(tx: Transaction, parts: seq<T.PartSnapshot>) returns (found: bool)
    ensures found <==> T.PartIds(parts) * tx.queue.Keys != {}
  {
    for i := 0 to |parts|
      invariant forall k :: 0 <= k < i ==> Ids(parts[k].row.pieces) * tx.queue.Keys == {}
    {
      var queued := tx.AnyQueued(parts[i].row.pieces);
      if queued {
        var b :| b in Ids(parts[i].row.pieces) * tx.queue.Keys;
        assert b in T.PartIds(parts) * tx.queue.Keys;
        return true;
      }
    }
    forall b | b in T.PartIds(parts) ensures b !in tx.queue {
      var i :| 0 <= i < |parts| && b in Ids(parts[i].row.pieces);
      assert b !in Ids(parts[i].row.pieces) * tx.queue.Keys;
    }
    return false;
  }

  function PartsIds(parts: map<PartNumber, PartRow>, numbers: set<PartNumber>): set<BlockId> {
    set p, b | p in numbers && p in parts && b in Ids(parts[p].pieces) :: b
  }

  lemma AppendedIds(a: seq<Piece>, b: seq<Piece>)
    ensures Ids(a + b) == Ids(a) + Ids(b)
  {
    assert forall i :: 0 <= i < |a| ==> (a + b)[i] == a[i];
    assert forall i :: 0 <= i < |b| ==> (a + b)[|a| + i] == b[i];
    forall x | x in Ids(a) ensures x in Ids(a + b) {
      var i :| 0 <= i < |a| && a[i].id == x;
      assert (a + b)[i].id == x;
    }
    forall x | x in Ids(b) ensures x in Ids(a + b) {
      var i :| 0 <= i < |b| && b[i].id == x;
      assert (a + b)[|a| + i].id == x;
    }
  }

  method AnyNumber(numbers: set<PartNumber>) returns (p: PartNumber)
    requires numbers != {}
    ensures p in numbers
  {
    p :| p in numbers;
  }

  /** Releases the blocks of every part but the `skipped` ones; no block is in two parts. */
  method ReleaseParts(tx: Transaction, parts: map<PartNumber, PartRow>, skipped: set<PartNumber>,
                      now: int) returns (released: seq<Piece>)
    requires forall p :: p in parts ==> Distinct(parts[p].pieces)
    requires forall p, q, b :: p in parts && q in parts && b in Ids(parts[p].pieces) && b in Ids(parts[q].pieces) ==> p == q
    modifies tx
    ensures tx.View() == T.Release(old(tx.View()), PartsIds(parts, parts.Keys - skipped), now)
    ensures Ids(released) == PartsIds(parts, parts.Keys - skipped)
  {
    ghost var before := tx.View();
    var todo := parts.Keys;
    ghost var done: set<PartNumber> := {};
    released := [];
    ReleaseNothing(before, now);
    assert PartsIds(parts, done - skipped) == {};
    while todo != {}
      invariant todo !! done && todo + done == parts.Keys
      invariant tx.View() == T.Release(before, PartsIds(parts, done - skipped), now)
      invariant Ids(released) == PartsIds(parts, done - skipped)
    {
      var p := AnyNumber(todo);
      if p !in skipped {
        ghost var ids := PartsIds(parts, done - skipped);
        assert ids !! Ids(parts[p].pieces);
        assert PartsIds(parts, done + {p} - skipped) == ids + Ids(parts[p].pieces);
        var more := tx.DecrementBlocks(parts[p].pieces, {}, now);
        assert Ids(parts[p].pieces) - {} == Ids(parts[p].pieces);
        ReleaseUnion(before, ids, Ids(parts[p].pieces), now);
        AppendedIds(released, more);
        released := released + more;
      } else {
        assert done + {p} - skipped == done - skipped;
      }
      todo, done := todo - {p}, done + {p};
    }
    assert done == parts.Keys;
  }

  lemma ReleaseUnion(t: Tables, a: set<BlockId>, b: set<BlockId>, now: int)
    requires a !! b
    ensures T.Release(T.Release(t, a, now), b, now) == T.Release(t, a + b, now)
  {
    var two := T.Release(T.Release(t, a, now), b, now);
    var one := T.Release(t, a + b, now);
    assert two.blocks == one.blocks;
    assert two.queue == one.queue;
  }

  lemma OwnParts(uploads: map<UploadId, UploadRow>, u: UploadId)
    requires u in uploads
    requires forall p, q, b :: PartHolds(uploads, u, p, b) && PartHolds(uploads, u, q, b) ==> p == q
    ensures var parts := uploads[u].parts;
      forall p, q, b :: p in parts && q in parts && b in Ids(parts[p].pieces) && b in Ids(parts[q].pieces) ==> p == q
    ensures PartsIds(uploads[u].parts, uploads[u].parts.Keys - {}) == UploadIds(uploads[u])
  {
    var parts := uploads[u].parts;
    assert parts.Keys - {} == parts.Keys;
    forall p, q, b | p in parts && q in parts && b in Ids(parts[p].pieces) && b in Ids(parts[q].pieces)
      ensures p == q
    {
      assert PartHolds(uploads, u, p, b) && PartHolds(uploads, u, q, b);
    }
  }

  /** Releases the blocks of uploaded parts that the completion did not use. */
  method ReleaseUnused(tx: Transaction, u: UploadId, parts: seq<T.PartSnapshot>,
                       now: int) returns (released: seq<Piece>)
    requires u in tx.uploads && T.PartsMatch(tx.uploads[u], parts)
    requires forall p :: p in tx.uploads[u].parts ==> Distinct(tx.uploads[u].parts[p].pieces)
    requires forall p, q, b :: PartHolds(tx.uploads, u, p, b) && PartHolds(tx.uploads, u, q, b) ==> p == q
    modifies tx
    ensures tx.View() == T.Release(old(tx.View()), UploadIds(old(tx.uploads)[u]) - T.PartIds(parts), now)
    ensures Ids(released) == UploadIds(old(tx.uploads)[u]) - T.PartIds(parts)
  {
    var used: set<PartNumber> := {};
    for i := 0 to |parts|
      invariant used == set k | 0 <= k < i :: parts[k].number
    {
      used := used + {parts[i].number};
    }
    var upload := tx.uploads[u];
    OwnParts(tx.uploads, u);
    UnusedIds(tx.uploads, u, parts, used);
    released := ReleaseParts(tx, upload.parts, used, now);
  }

  /** The rows of the new object, then the release of unused parts, then the end of the upload. */
  method CommitRows(tx: Transaction, u: UploadId, row: ObjectRow, parts: seq<T.PartSnapshot>, now: int)
    returns (released: seq<Piece>)
    requires u in tx.uploads && T.PartsMatch(tx.uploads[u], parts)
    requires forall p :: p in tx.uploads[u].parts ==> Distinct(tx.uploads[u].parts[p].pieces)
    requires forall p, q, b :: PartHolds(tx.uploads, u, p, b) && PartHolds(tx.uploads, u, q, b) ==> p == q
    requires T.PartsLayoutOk(parts) && T.PartIds(parts) <= tx.blocks.Keys
    requires tx.uploads[u].name !in tx.objects && row.pieces == []
    modifies tx
    ensures var t := old(tx.View());
      var installed := T.Install(t, t.uploads[u].name, row.(pieces := T.Flatten(parts)), false);
      tx.View() == T.Release(installed.(uploads := t.uploads - {u}), UploadIds(t.uploads[u]) - T.PartIds(parts), now)
    ensures Ids(released) == UploadIds(old(tx.uploads)[u]) - T.PartIds(parts)
  {
    tx.InsertCommittedBlocks(tx.uploads[u].name, row, parts);
    released := ReleaseUnused(tx, u, parts, now);
    tx.uploads := tx.uploads - {u};
  }

  lemma UnusedIds(uploads: map<UploadId, UploadRow>, u: UploadId, parts: seq<T.PartSnapshot>, used: set<PartNumber>)
    requires u in uploads && T.PartsMatch(uploads[u], parts)
    requires forall p, q, b :: PartHolds(uploads, u, p, b) && PartHolds(uploads, u, q, b) ==> p == q
    requires used == set k | 0 <= k < |parts| :: parts[k].number
    ensures PartsIds(uploads[u].parts, uploads[u].parts.Keys - used) == UploadIds(uploads[u]) - T.PartIds(parts)
  {
    var stored := uploads[u].parts;
    forall b | b in PartsIds(stored, stored.Keys - used) ensures b in UploadIds(uploads[u]) && b !in T.PartIds(parts) {
      var p :| p in stored.Keys - used && b in Ids(stored[p].pieces);
      assert PartHolds(uploads, u, p, b);
      forall i | 0 <= i < |parts| ensures b !in Ids(parts[i].row.pieces) {
        assert T.PartMatches(uploads[u], parts[i]);
        assert b in Ids(parts[i].row.pieces) ==> PartHolds(uploads, u, parts[i].number, b);
      }
    }
    forall b | b in UploadIds(uploads[u]) && b !in T.PartIds(parts) ensures b in PartsIds(stored, stored.Keys - used) {
      var p :| p in stored && b in Ids(stored[p].pieces);
      forall i | 0 <= i < |parts| ensures parts[i].number != p {
        assert T.PartMatches(uploads[u], parts[i]);
      }
    }
  }
}
