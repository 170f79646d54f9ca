/**
 * The database operations as the row-by-row code they are, proved against the set-based functions of
 * `Transactions`. A transaction works on its own copy of the tables; only `commit` makes the copy current,
 * so every early return is a rollback.
 */
module Database {
  import opened Prelude
  import opened Schema
  import opened Conditions
  import T = Transactions
  import I = Invariants

  type Failure = T.Failure

  // ---- how single-row updates add up ----

  lemma ReleaseNothing(t: Tables, now: int)
    ensures T.Release(t, {}, now) == t
  {
  }

  lemma ReleaseOneMore(t: Tables, ids: set<BlockId>, b: BlockId, now: int)
    requires b !in ids
    ensures T.Release(T.Release(t, ids, now), {b}, now) == T.Release(t, ids + {b}, now)
  {
    var one := T.Release(T.Release(t, ids, now), {b}, now);
    var all := T.Release(t, ids + {b}, now);
    assert one.blocks == all.blocks;
    assert one.queue == all.queue;
  }

  lemma IdsStep(pieces: seq<Piece>, i: nat)
    requires i < |pieces|
    ensures Ids(pieces[..i + 1]) == Ids(pieces[..i]) + {pieces[i].id}
    ensures Distinct(pieces) ==> pieces[i].id !in Ids(pieces[..i])
  {
  }

  lemma IdsEmpty(pieces: seq<Piece>)
    ensures Ids(pieces[..0]) == {}
  {
  }

  /** The first `i` parts are different and match; `persisted` are the parts that none of them has taken. */
  ghost predicate Checked(upload: UploadRow, parts: seq<T.PartSnapshot>, i: nat, seen: set<PartNumber>,
                          persisted: map<PartNumber, PartRow>)
    requires i <= |parts|
  {
    && seen == (set k | 0 <= k < i :: parts[k].number)
    && persisted == upload.parts - seen
    && (forall j, k :: 0 <= j < k < i ==> parts[j].number != parts[k].number)
    && (forall k :: 0 <= k < i ==> T.PartMatches(upload, parts[k]))
  }

  lemma CheckedStep(upload: UploadRow, parts: seq<T.PartSnapshot>, i: nat, seen: set<PartNumber>,
                    persisted: map<PartNumber, PartRow>)
    requires i < |parts| && Checked(upload, parts, i, seen, persisted)
    requires parts[i].number !in seen && T.PartMatches(upload, parts[i])
    ensures Checked(upload, parts, i + 1, seen + {parts[i].number}, persisted - {parts[i].number})
  {
    assert upload.parts - seen - {parts[i].number} == upload.parts - (seen + {parts[i].number});
  }

  lemma InstallNothing(t: Tables, name: Name, row: ObjectRow, copied: bool)
    requires row.pieces == []
    ensures T.Install(t, name, row, copied) == t.(objects := t.objects[name := row])
  {
  }

  lemma InstallOneMore(t: Tables, name: Name, row: ObjectRow, copied: bool, piece: Piece)
    requires piece.id !in Ids(row.pieces) && piece.id in t.blocks
    ensures var before := T.Install(t, name, row, copied);
      var more := row.(pieces := row.pieces + [piece]);
      T.Install(t, name, more, copied) == before.(
        objects := t.objects[name := more],
        blocks := before.blocks[piece.id := T.Adopted(t.blocks[piece.id], copied)],
        queue := before.queue - {piece.id})
  {
    var pieces := row.pieces + [piece];
    assert pieces[..|row.pieces|] == row.pieces && pieces[..|row.pieces| + 1] == pieces;
    IdsStep(pieces, |row.pieces|);
    var before := T.Install(t, name, row, copied);
    var after := T.Install(t, name, row.(pieces := pieces), copied);
    assert after.blocks == before.blocks[piece.id := T.Adopted(t.blocks[piece.id], copied)];
    assert after.queue == before.queue - {piece.id};
  }

  /** The persisted part equals the presented one, its ETag up to quotes and blanks. */
  predicate SamePart(actual: PartRow, row: PartRow) {
    actual.size == row.size && NormalizeEtag(actual.etag) == NormalizeEtag(row.etag) && actual.pieces == row.pieces
  }

  // ---- a transaction ----

  class Transaction {
    var buckets: set<string>
    var blocks: map<BlockId, BlockRow>
    var queue: map<BlockId, QueueRow>
    var objects: map<Name, ObjectRow>
    var uploads: map<UploadId, UploadRow>

    constructor (t: Tables)
      ensures View() == t
    {
      buckets, blocks, queue, objects, uploads := t.buckets, t.blocks, t.queue, t.objects, t.uploads;
    }

    function View(): Tables
      reads this
    {
      Tables(buckets, blocks, queue, objects, uploads)
    }

    method DecrementBlock(b: BlockId, now: int)
      modifies this
      ensures View() == T.Release(old(View()), {b}, now)
    {
      if b in blocks {
        var count := blocks[b].refCount;
        blocks := blocks[b := blocks[b].(refCount := if count > 0 then count - 1 else 0)];
      }
      if b in blocks && blocks[b].refCount == 0 {
        if b !in queue {
          queue := queue[b := QueueRow(0, now, false)];
        }
      }
      assert blocks == T.Release(old(View()), {b}, now).blocks;
      assert queue == T.Release(old(View()), {b}, now).queue;
    }

    /** Decrements the blocks of `pieces` that are not in `kept`, and returns them. */
    method DecrementBlocks(pieces: seq<Piece>, kept: set<BlockId>, now: int) returns (released: seq<Piece>)
      requires Distinct(pieces)
      modifies this
      ensures View() == T.Release(old(View()), Ids(pieces) - kept, now)
      ensures Ids(released) == Ids(pieces) - kept
    {
      ghost var before := View();
      released := [];
      ReleaseNothing(before, now);
      IdsEmpty(pieces);
      assert Ids(pieces[..0]) - kept == {};
      for i := 0 to |pieces|
        invariant View() == T.Release(before, Ids(pieces[..i]) - kept, now)
        invariant Ids(released) == Ids(pieces[..i]) - kept
      {
        IdsStep(pieces, i);
        if pieces[i].id !in kept {
          ReleaseOneMore(before, Ids(pieces[..i]) - kept, pieces[i].id, now);
          assert Ids(pieces[..i + 1]) - kept == Ids(pieces[..i]) - kept + {pieces[i].id};
          DecrementBlock(pieces[i].id, now);
          var more := released + [pieces[i]];
          assert more[..|released|] == released && more[..|released| + 1] == more;
          IdsStep(more, |released|);
          released := more;
        } else {
          assert Ids(pieces[..i + 1]) - kept == Ids(pieces[..i]) - kept;
        }
      }
      assert pieces[..|pieces|] == pieces;
    }

    method AnyQueued(pieces: seq<Piece>) returns (found: bool)
      ensures found <==> Ids(pieces) * queue.Keys != {}
    {
      for i := 0 to |pieces|
        invariant forall k :: 0 <= k < i ==> pieces[k].id !in queue
      {
        if pieces[i].id in queue {
          assert pieces[i].id in Ids(pieces) * queue.Keys;
          return true;
        }
      }
      return false;
    }

    method RemoveExistingObject(name: Name, condition: Condition, now: int) returns (r: Result<Option<seq<Piece>>,
                                Failure>)
      requires name in objects ==> Distinct(objects[name].pieces)
      modifies this
      ensures r.Ok? <==> condition.Allows(T.EtagAt(old(View()), name))
      ensures r.Err? ==> r.error == T.PreconditionFailed && View() == old(View())
      ensures r.Ok? ==> View() == T.RemoveObject(old(View()), name, now)
      ensures r.Ok? ==> (r.value.Some? <==> name in old(objects))
      ensures r.Ok? && r.value.Some? ==> Ids(r.value.value) == Ids(old(objects)[name].pieces)
    {
      var etag := if name in objects then Some(objects[name].etag) else None;
      if !condition.Allows(etag) {
        return Err(T.PreconditionFailed);
      }
      if name !in objects {
        ReleaseNothing(View(), now);
        assert objects - {name} == objects;
        assert Ids(T.PiecesAt(View(), name)) == {};
        return Ok(None);
      }
      var pieces := objects[name].pieces;
      objects := objects - {name};
      var released := DecrementBlocks(pieces, {}, now);
      assert Ids(pieces) - {} == Ids(pieces);
      return Ok(Some(released));
    }

    /** Compares the presented parts with what the upload has persisted, taking each persisted part once. */
    method VerifyParts(u: UploadId, parts: seq<T.PartSnapshot>) returns (ok: bool)
      requires u in uploads
      ensures ok <==> T.PartsMatch(uploads[u], parts)
    {
      var persisted := uploads[u].parts;
      var seen: set<PartNumber> := {};
      for i := 0 to |parts|
        invariant Checked(uploads[u], parts, i, seen, persisted)
      {
        var number := parts[i].number;
        if number in seen {
          return false;
        }
        if number !in persisted {
          assert !T.PartMatches(uploads[u], parts[i]);
          return false;
        }
        var same := SamePart(persisted[number], parts[i].row);
        if !same {
          assert !T.PartMatches(uploads[u], parts[i]);
          return false;
        }
        CheckedStep(uploads[u], parts, i, seen, persisted);
        seen := seen + {number};
        persisted := persisted - {number};
      }
      return true;
    }

    /** One row of `object_blocks`; its block loses its queue entry and gains or keeps its reference. */
    method InsertObjectBlock(name: Name, piece: Piece, copied: bool, ghost before: Tables, ghost row: ObjectRow)
      requires View() == T.Install(before, name, row, copied)
      requires piece.id in blocks && piece.id !in Ids(row.pieces)
      modifies this
      ensures View() == T.Install(before, name, row.(pieces := row.pieces + [piece]), copied)
    {
      InstallOneMore(before, name, row, copied, piece);
      var block := blocks[piece.id];
      if copied {
        block := block.(refCount := block.refCount + 1, committed := true);
      } else {
        block := block.(refCount := if block.refCount < 1 then 1 else block.refCount, committed := true);
      }
      blocks := blocks[piece.id := block];
      queue := queue - {piece.id};
      objects := objects[name := objects[name].(pieces := objects[name].pieces + [piece])];
    }

    /** Inserts the pieces of one part after those already inserted, with running offsets. */
    method InsertPart(name: Name, pieces: seq<Piece>, start: i64, ghost done: seq<Piece>, ghost before: Tables,
                      ghost row: ObjectRow)
      returns (offset: i64)
      requires Contiguous(done) && Contiguous(pieces) && TotalSize(done) + TotalSize(pieces) <= I64_MAX
      requires Distinct(pieces) && Ids(done) !! Ids(pieces) && Ids(pieces) <= before.blocks.Keys
      requires View() == T.Install(before, name, row.(pieces := done), false)
      requires start == TotalSize(done)
      modifies this
      ensures View() == T.Install(before, name, row.(pieces := T.Rebased(done, pieces)), false)
      ensures offset == TotalSize(done) + TotalSize(pieces)
    {
      RebasedStart(done, pieces);
      offset := start;
      ghost var partial := done;
      for j := 0 to |pieces|
        invariant RebasedSoFar(done, pieces, j, partial)
        invariant View() == T.Install(before, name, row.(pieces := partial), false)
        invariant offset == TotalSize(partial)
      {
        var piece := Piece(pieces[j].id, offset, pieces[j].size);
        NextPiece(done, pieces, j, partial, piece);
        InsertObjectBlock(name, piece, false, before, row.(pieces := partial));
        offset := offset + piece.size;
        partial := partial + [piece];
      }
      assert pieces[..|pieces|] == pieces;
    }

    /** Inserts the pieces of all parts as rows of the new object. */
    method InsertCommittedBlocks(name: Name, row: ObjectRow, parts: seq<T.PartSnapshot>)
      requires T.PartsLayoutOk(parts) && T.PartIds(parts) <= blocks.Keys
      requires name !in objects && row.pieces == []
      modifies this
      ensures View() == T.Install(old(View()), name, row.(pieces := T.Flatten(parts)), false)
    {
      ghost var before := View();
      InstallNothing(before, name, row, false);
      objects := objects[name := row];
      var offset: i64 := 0;
      ghost var done := [];
      assert parts[..0] == [];
      for i := 0 to |parts|
        invariant FlattenedSoFar(parts, i, done)
        invariant View() == T.Install(before, name, row.(pieces := done), false)
        invariant offset == TotalSize(done)
      {
        NextPart(parts, i, done);
        offset := InsertPart(name, parts[i].row.pieces, offset, done, before, row);
        done := T.Rebased(done, parts[i].row.pieces);
      }
      assert parts[..|parts|] == parts;
    }

    method InsertCopiedBlocks(name: Name, row: ObjectRow, pieces: seq<Piece>) returns (ok: bool)
      requires Distinct(pieces)
      requires name !in objects && row.pieces == []
      modifies this
      ensures ok <==> Ids(pieces) <= old(blocks).Keys
      ensures ok ==> View() == T.Install(old(View()), name, row.(pieces := pieces), true)
    {
      ghost var before := View();
      InstallNothing(before, name, row, true);
      objects := objects[name := row];
      assert pieces[..0] == [];
      for i := 0 to |pieces|
        invariant Ids(pieces[..i]) <= before.blocks.Keys
        invariant View() == T.Install(before, name, row.(pieces := pieces[..i]), true)
      {
        if pieces[i].id !in blocks {
          assert pieces[i].id in Ids(pieces);
          return false;
        }
        IdsStep(pieces, i);
        assert pieces[..i + 1] == pieces[..i] + [pieces[i]];
        InsertObjectBlock(name, pieces[i], true, before, row.(pieces := pieces[..i]));
      }
      assert pieces[..|pieces|] == pieces;
      return true;
    }
  }

  // ---- facts for the insertion loops ----

  ghost predicate RebasedSoFar(done: seq<Piece>, more: seq<Piece>, j: nat, partial: seq<Piece>)
    requires j <= |more|
  {
    && Contiguous(done) && Contiguous(more[..j])
    && TotalSize(done) + TotalSize(more[..j]) <= I64_MAX
    && partial == T.Rebased(done, more[..j])
  }

  lemma RebasedStart(done: seq<Piece>, more: seq<Piece>)
    requires Contiguous(done) && Contiguous(more) && TotalSize(done) + TotalSize(more) <= I64_MAX
    ensures RebasedSoFar(done, more, 0, done)
  {
    T.WholeSizeBounds(more);
    assert more[..0] == [];
  }

  /** The next piece of a part was not inserted before, and its offset is the size so far. */
  lemma NextPiece(done: seq<Piece>, more: seq<Piece>, j: nat, partial: seq<Piece>, piece: Piece)
    requires Contiguous(more) && TotalSize(done) + TotalSize(more) <= I64_MAX
    requires j < |more| && RebasedSoFar(done, more, j, partial)
    requires Distinct(more) && Ids(done) !! Ids(more)
    requires piece == Piece(more[j].id, TotalSize(partial), more[j].size)
    ensures RebasedSoFar(done, more, j + 1, partial + [piece])
    ensures TotalSize(partial + [piece]) == TotalSize(partial) + piece.size
    ensures -0x8000_0000_0000_0000 <= TotalSize(partial) + piece.size <= I64_MAX
    ensures piece.id !in Ids(partial) && piece.id in Ids(more)
  {
    T.ContiguousPrefix(more, j + 1);
    T.TotalSizeBounds(more, j + 1);
    assert more[..j + 1][..j] == more[..j];
    T.WholeSizeBounds(done);
    T.WholeSizeBounds(more[..j]);
    assert (partial + [piece])[..|partial|] == partial;
    I.RebasedBlocks(done, more[..j]);
    IdsStep(more, j);
  }

  lemma NextPartIds(parts: seq<T.PartSnapshot>, i: nat)
    requires T.PartsDistinct(parts) && i < |parts|
    ensures Distinct(parts[i].row.pieces) && Ids(parts[i].row.pieces) <= T.PartIds(parts)
    ensures T.PartsDistinct(parts[..i])
    ensures T.PartIds(parts[..i]) !! Ids(parts[i].row.pieces)
  {
  }

  lemma NextPartFits(parts: seq<T.PartSnapshot>, i: nat)
    requires T.PartsFit(parts) && i < |parts|
    ensures T.PartsFit(parts[..i]) && T.PartsFit(parts[..i + 1])
    ensures var pieces := parts[i].row.pieces; var done := T.Flatten(parts[..i]);
      && TotalSize(done) + TotalSize(pieces) <= I64_MAX
      && T.Flatten(parts[..i + 1]) == T.Rebased(done, pieces)
      && T.PartsTotal(parts[..i + 1]) == TotalSize(done) + TotalSize(pieces)
  {
    T.PartsTotalBounds(parts, i);
    T.PartsTotalBounds(parts, i + 1);
    assert parts[..i + 1][..i] == parts[..i] && parts[..i + 1][i] == parts[i];
  }

  ghost predicate FlattenedSoFar(parts: seq<T.PartSnapshot>, i: nat, done: seq<Piece>)
    requires i <= |parts|
  {
    T.PartsFit(parts[..i]) && done == T.Flatten(parts[..i])
  }

  /** The next part continues the flattened object with blocks of its own. */
  lemma NextPart(parts: seq<T.PartSnapshot>, i: nat, done: seq<Piece>)
    requires T.PartsLayoutOk(parts) && i < |parts| && FlattenedSoFar(parts, i, done)
    ensures var pieces := parts[i].row.pieces;
      && Contiguous(done) && Contiguous(pieces) && TotalSize(done) + TotalSize(pieces) <= I64_MAX
      && Distinct(pieces) && Ids(done) !! Ids(pieces) && Ids(pieces) <= T.PartIds(parts)
      && FlattenedSoFar(parts, i + 1, T.Rebased(done, pieces))
  {
    NextPartFits(parts, i);
    NextPartIds(parts, i);
    I.FlattenBlocks(parts[..i]);
  }
}
