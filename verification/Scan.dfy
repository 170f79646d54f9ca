/** The listing loop: batches of rows, seeks over groups, one page of entries. */
module Scan {
  import opened Prelude
  import opened KeyOrder
  import opened Listing

  /** One request: what it lists and how. */
  datatype Request = Request(prefix: string, delimiter: string, floor: string, maxKeys: nat)

  datatype Page = Page(contents: seq<string>, groups: seq<string>, truncated: bool, cursor: Option<string>)

  datatype State = State(contents: seq<string>, groups: seq<string>, seen: set<string>, lower: string, inclusive: bool)

  function KeysOf(entries: seq<Entry>): seq<string> {
    if |entries| == 0 then []
    else KeysOf(entries[..|entries| - 1]) + (if entries[|entries| - 1].Key? then [entries[|entries| - 1].text] else [])
  }

  function GroupsOf(entries: seq<Entry>): (r: seq<string>)
    ensures |KeysOf(entries)| + |r| == |entries|
  {
    if |entries| == 0 then []
    else GroupsOf(entries[..|entries| - 1]) + (if entries[|entries| - 1].Group? then [entries[|entries| - 1].text] else [])
  }

  /** All entries of the request over the first `n` matching keys. */
  function UpTo(ms: seq<string>, n: nat, r: Request): seq<Entry>
    requires n <= |ms|
  {
    Entries(ms[..n], r.prefix, r.delimiter, r.floor)
  }

  function At0(ms: seq<string>, i: nat, r: Request): Entry
    requires i < |ms|
  {
    EntryOf(ms[i], r.prefix, r.delimiter)
  }

  lemma UpToStep(ms: seq<string>, n: nat, r: Request)
    requires n < |ms|
    ensures var before, x := UpTo(ms, n, r), At0(ms, n, r);
      UpTo(ms, n + 1, r)
      == if Less(r.floor, x.text) && (before == [] || before[|before| - 1] != x) then before + [x] else before
  {
    assert ms[..n + 1][..n] == ms[..n];
  }

  /** Later keys only append entries. */
  lemma {:induction false} UpToGrows(ms: seq<string>, m: nat, n: nat, r: Request)
    requires m <= n <= |ms|
    ensures UpTo(ms, m, r) <= UpTo(ms, n, r)
    decreases n - m
  {
    hide Entries, EntryOf;
    if m < n {
      UpToGrows(ms, m, n - 1, r);
      UpToStep(ms, n - 1, r);
    }
  }

  /** Keys of the same entry add nothing after the first. */
  lemma {:induction false} SameEntryAddsNothing(ms: seq<string>, m: nat, n: nat, r: Request)
    requires m < n <= |ms|
    requires forall i :: m <= i < n ==> At0(ms, i, r) == At0(ms, m, r)
    ensures UpTo(ms, n, r) == UpTo(ms, m + 1, r)
    decreases n - m
  {
    if m + 1 < n {
      SameEntryAddsNothing(ms, m, n - 1, r);
      UpToStep(ms, m, r);
      UpToStep(ms, n - 1, r);
    }
  }

  /** A group that was emitted before is the last one emitted. */
  lemma SeenIsLast(ms: seq<string>, n: nat, r: Request)
    requires Sorted(ms) && AllStart(ms, r.prefix) && n < |ms|
    ensures var before, x := UpTo(ms, n, r), At0(ms, n, r);
      x in before <==> before != [] && before[|before| - 1] == x
  {
    var before, x := UpTo(ms, n, r), At0(ms, n, r);
    if x in before && before[|before| - 1] != x {
      var y := before[|before| - 1];
      var j :| 0 <= j < |before| && before[j] == x;
      EntriesIncrease(ms[..n], r.prefix, r.delimiter, r.floor);
      EntriesComeFromKeys(ms[..n], r.prefix, r.delimiter, r.floor, y);
      var i :| 0 <= i < n && EntryOf(ms[..n][i], r.prefix, r.delimiter) == y;
      EntryMonotone(ms[i], ms[n], r.prefix, r.delimiter);
      Total(x.text, y.text);
    }
  }

  /** Before the first key above the floor there is nothing to list. */
  lemma {:induction false} NothingBelowFloor(ms: seq<string>, n: nat, r: Request)
    requires AllStart(ms, r.prefix) && n <= |ms|
    requires forall i :: 0 <= i < n ==> !Above(ms[i], r.floor, false)
    ensures UpTo(ms, n, r) == []
  {
    if n > 0 {
      NothingBelowFloor(ms, n - 1, r);
      UpToStep(ms, n - 1, r);
      EntryStartsKey(ms[n - 1], r.prefix, r.delimiter);
      Mixed(r.floor, At0(ms, n - 1, r).text, ms[n - 1]);
    }
  }

  // ---- seeking ----

  lemma SeekPastKey(ms: seq<string>, n: nat)
    requires Sorted(ms) && n < |ms|
    ensures At(ms, n + 1, ms[n], false)
  {
    forall i | 0 <= i < n + 1 ensures !Above(ms[i], ms[n], false) {
      Irreflexive(ms[n]);
      Total(ms[i], ms[n]);
    }
  }

  /** The seek jumps over exactly the rest of the group. */
  lemma SeekPastGroup(ms: seq<string>, n: nat, r: Request, bound: string) returns (n': nat)
    requires Sorted(ms) && AllStart(ms, r.prefix) && n < |ms|
    requires At0(ms, n, r).Group? && Successor(At0(ms, n, r).text) == Some(bound)
    ensures n < n' <= |ms| && At(ms, n', bound, true)
    ensures forall i :: n <= i < n' ==> At0(ms, i, r) == At0(ms, n, r)
    ensures n' < |ms| ==> At0(ms, n', r) != At0(ms, n, r)
  {
    var g := At0(ms, n, r).text;
    GroupMembers(ms[n], ms[n], r.prefix, r.delimiter);
    n' := Position(ms, bound, true);
    RangeIsPrefix(g, ms[n]);
    Mixed(bound, ms[n], bound);
    assert n < n';
    forall i | n <= i < n' ensures At0(ms, i, r) == At0(ms, n, r) {
      RangeIsPrefix(g, ms[i]);
      Mixed(g, ms[n], ms[i]);
      Mixed(ms[i], bound, bound);
      GroupMembers(ms[n], ms[i], r.prefix, r.delimiter);
    }
    if n' < |ms| && At0(ms, n', r) == At0(ms, n, r) {
      GroupMembers(ms[n'], ms[n'], r.prefix, r.delimiter);
      RangeIsPrefix(g, ms[n']);
      Mixed(ms[n'], bound, bound);
    }
  }

  /** Without a successor every later key is in the group. */
  lemma LastGroup(ms: seq<string>, n: nat, r: Request)
    requires Sorted(ms) && AllStart(ms, r.prefix) && n < |ms|
    requires At0(ms, n, r).Group? && Successor(At0(ms, n, r).text).None?
    ensures forall i :: n <= i < |ms| ==> At0(ms, i, r) == At0(ms, n, r)
  {
    var g := At0(ms, n, r).text;
    GroupMembers(ms[n], ms[n], r.prefix, r.delimiter);
    RangeIsPrefix(g, ms[n]);
    forall i | n <= i < |ms| ensures At0(ms, i, r) == At0(ms, n, r) {
      Mixed(g, ms[n], ms[i]);
      RangeIsPrefix(g, ms[i]);
      GroupMembers(ms[n], ms[i], r.prefix, r.delimiter);
    }
  }

  // ---- the state of the loop ----

  /** The loop has listed the first `n` matching keys and its bound is where they end. */
  ghost predicate Listed(s: State, ms: seq<string>, n: nat, r: Request) {
    && At(ms, n, s.lower, s.inclusive)
    && (forall i :: n <= i < |ms| ==> Less(r.floor, ms[i]))
    && s.contents == KeysOf(UpTo(ms, n, r)) && s.groups == GroupsOf(UpTo(ms, n, r))
    && (forall g :: g in s.seen <==> Group(g) in UpTo(ms, n, r))
  }

  function WithKey(s: State, key: string): State {
    s.(contents := s.contents + [key], lower := key, inclusive := false)
  }

  /** The groups after a key of group `common`: emitted only above the floor and only once. */
  function WithGroup(s: State, common: string, floor: string): State {
    if Less(floor, common) && common !in s.seen
    then s.(groups := s.groups + [common], seen := s.seen + {common})
    else s
  }

  lemma ListedAfterKey(s: State, ms: seq<string>, n: nat, r: Request)
    requires Sorted(ms) && AllStart(ms, r.prefix)
    requires Listed(s, ms, n, r) && n < |ms| && At0(ms, n, r).Key?
    ensures Listed(WithKey(s, ms[n]), ms, n + 1, r)
  {
    var before := UpTo(ms, n, r);
    UpToStep(ms, n, r);
    KeyIsNew(ms, n, r);
    SeekPastKey(ms, n);
    assert (before + [Key(ms[n])])[..|before|] == before;
  }

  lemma GroupEmitted(s: State, ms: seq<string>, n: nat, r: Request)
    requires Sorted(ms) && AllStart(ms, r.prefix)
    requires Listed(s, ms, n, r) && n < |ms| && At0(ms, n, r).Group?
    ensures var s', out := WithGroup(s, At0(ms, n, r).text, r.floor), UpTo(ms, n + 1, r);
      && s'.contents == KeysOf(out) && s'.groups == GroupsOf(out)
      && (forall g :: g in s'.seen <==> Group(g) in out)
      && s'.lower == s.lower && s'.inclusive == s.inclusive
  {
    var before, common := UpTo(ms, n, r), At0(ms, n, r).text;
    UpToStep(ms, n, r);
    SeenIsLast(ms, n, r);
    assert (before + [Group(common)])[..|before|] == before;
  }

  lemma ListedAfterGroup(s: State, ms: seq<string>, n: nat, n': nat, r: Request, lower: string, inclusive: bool)
    requires Sorted(ms) && AllStart(ms, r.prefix)
    requires Listed(s, ms, n, r) && n < n' <= |ms| && At0(ms, n, r).Group?
    requires forall i :: n <= i < n' ==> At0(ms, i, r) == At0(ms, n, r)
    requires At(ms, n', lower, inclusive)
    ensures Listed(WithGroup(s, At0(ms, n, r).text, r.floor).(lower := lower, inclusive := inclusive), ms, n', r)
    ensures UpTo(ms, n', r) == UpTo(ms, n + 1, r)
  {
    GroupEmitted(s, ms, n, r);
    SameEntryAddsNothing(ms, n, n', r);
  }

  lemma KeyIsNew(ms: seq<string>, n: nat, r: Request)
    requires Sorted(ms) && AllStart(ms, r.prefix) && n < |ms| && At0(ms, n, r).Key?
    ensures Key(ms[n]) !in UpTo(ms, n, r)
  {
    forall i | 0 <= i < n ensures EntryOf(ms[..n][i], r.prefix, r.delimiter) != Key(ms[n]) {
      EntryStartsKey(ms[i], r.prefix, r.delimiter);
      Mixed(ms[n], ms[i], ms[n]);
      Irreflexive(ms[n]);
    }
    if Key(ms[n]) in UpTo(ms, n, r) {
      EntriesComeFromKeys(ms[..n], r.prefix, r.delimiter, r.floor, Key(ms[n]));
    }
  }

  lemma NextEntryDiffers(ms: seq<string>, n: nat, r: Request)
    requires Sorted(ms) && AllStart(ms, r.prefix) && n < |ms| && At0(ms, n, r).Key?
    ensures n + 1 < |ms| ==> At0(ms, n + 1, r) != At0(ms, n, r)
  {
    if n + 1 < |ms| && At0(ms, n + 1, r) == At0(ms, n, r) {
      Irreflexive(ms[n]);
    }
  }

  // ---- where a page ends ----

  /** The first row from `n` on that has another entry than `e`. */
  function SkipEntry(ms: seq<string>, n: nat, e: Entry, r: Request): (m: nat)
    requires n <= |ms|
    ensures n <= m <= |ms|
    decreases |ms| - n
  {
    if n == |ms| || At0(ms, n, r) != e then n else SkipEntry(ms, n + 1, e, r)
  }

  /** Where the scan goes on after row `i`: past the whole group if a seek can pass it, else at the next row. */
  function RowEnd(ms: seq<string>, i: nat, r: Request): (m: nat)
    requires i < |ms|
    ensures i < m <= |ms|
  {
    var e := At0(ms, i, r);
    if e.Group? && Successor(e.text).Some? then SkipEntry(ms, i + 1, e, r) else i + 1
  }

  /** How many rows it takes to fill the page, or all of them if they do not fill it. */
  function FillRow(ms: seq<string>, n: nat, r: Request): (m: nat)
    requires n <= |ms|
    ensures n <= m <= |ms|
    decreases |ms| - n
  {
    if n == |ms| || |UpTo(ms, n, r)| >= r.maxKeys then n else FillRow(ms, n + 1, r)
  }

  /** Where the scan of a page ends. */
  function PageEnd(ms: seq<string>, r: Request): (m: nat)
    ensures m <= |ms|
  {
    var f := FillRow(ms, 0, r);
    if f > 0 && |UpTo(ms, f, r)| >= r.maxKeys then RowEnd(ms, f - 1, r) else f
  }

  /** The page of a request: what was listed up to its end, and whether a row is left there. */
  function PageOf(ms: seq<string>, r: Request): Page {
    if r.maxKeys == 0 then Page([], [], false, None)
    else
      var n := PageEnd(ms, r);
      var out := UpTo(ms, n, r);
      Page(KeysOf(out), GroupsOf(out), n < |ms|, if n < |ms| && out != [] then Some(out[|out| - 1].text) else None)
  }

  lemma {:induction false} SkipEntryIs(ms: seq<string>, n: nat, m: nat, e: Entry, r: Request)
    requires n <= m <= |ms|
    requires forall i :: n <= i < m ==> At0(ms, i, r) == e
    requires m < |ms| ==> At0(ms, m, r) != e
    ensures SkipEntry(ms, n, e, r) == m
    decreases m - n
  {
    if n < m {
      SkipEntryIs(ms, n + 1, m, e, r);
    }
  }

  lemma {:induction false} SkipEntryMeans(ms: seq<string>, n: nat, e: Entry, r: Request)
    requires n <= |ms|
    ensures var m := SkipEntry(ms, n, e, r);
      && (forall i :: n <= i < m ==> At0(ms, i, r) == e)
      && (m < |ms| ==> At0(ms, m, r) != e)
    decreases |ms| - n
  {
    hide EntryOf;
    if n < |ms| && At0(ms, n, r) == e {
      SkipEntryMeans(ms, n + 1, e, r);
      var m := SkipEntry(ms, n + 1, e, r);
      assert SkipEntry(ms, n, e, r) == m;
      forall i | n <= i < m ensures At0(ms, i, r) == e {
        assert i == n || n + 1 <= i;
      }
    }
  }

  /** The page is filled by row `m` if it was not full before it. */
  lemma {:induction false} FillRowIs(ms: seq<string>, n: nat, m: nat, r: Request)
    requires n <= m < |ms| && |UpTo(ms, m, r)| < r.maxKeys <= |UpTo(ms, m + 1, r)|
    ensures FillRow(ms, n, r) == m + 1
    decreases m - n
  {
    UpToGrows(ms, n, m, r);
    if n < m {
      FillRowIs(ms, n + 1, m, r);
    }
  }

  lemma {:induction false} FillRowMeans(ms: seq<string>, n: nat, r: Request)
    requires n <= |ms| && |UpTo(ms, n, r)| < r.maxKeys
    ensures var f := FillRow(ms, n, r);
      if |UpTo(ms, f, r)| < r.maxKeys then f == |ms|
      else n < f && |UpTo(ms, f - 1, r)| < r.maxKeys
    decreases |ms| - n
  {
    if n < |ms| && |UpTo(ms, n + 1, r)| < r.maxKeys {
      FillRowMeans(ms, n + 1, r);
    }
  }

  lemma {:induction false} NeverFilled(ms: seq<string>, n: nat, r: Request)
    requires n <= |ms| && |UpTo(ms, |ms|, r)| < r.maxKeys
    ensures FillRow(ms, n, r) == |ms|
    decreases |ms| - n
  {
    UpToGrows(ms, n, |ms|, r);
    if n < |ms| {
      NeverFilled(ms, n + 1, r);
    }
  }

  // ---- the loop ----

  /** One row that is within the bound: the key `ms[n]`. */
  method TakeKey(s0: State, key: string, r: Request, ghost ms: seq<string>, ghost n: nat) returns (s: State)
    requires Sorted(ms) && AllStart(ms, r.prefix)
    requires Listed(s0, ms, n, r) && n < |ms| && key == ms[n]
    ensures Listed(s, ms, RowEnd(ms, n, r), r)
    ensures UpTo(ms, RowEnd(ms, n, r), r) == UpTo(ms, n + 1, r)
  {
    match CommonPrefix(key, r.prefix, r.delimiter) {
      case None =>
        s := WithKey(s0, key);
        ListedAfterKey(s0, ms, n, r);
      case Some(common) =>
        s := TakeGroup(s0, key, common, r, ms, n);
    }
  }

  /** A key of a group: the group is emitted once, and the bound moves past all of it when it has a successor. */
  method TakeGroup(s0: State, key: string, common: string, r: Request, ghost ms: seq<string>, ghost n: nat)
    returns (s: State)
    requires Sorted(ms) && AllStart(ms, r.prefix)
    requires Listed(s0, ms, n, r) && n < |ms| && key == ms[n] && At0(ms, n, r) == Group(common)
    ensures Listed(s, ms, RowEnd(ms, n, r), r)
    ensures UpTo(ms, RowEnd(ms, n, r), r) == UpTo(ms, n + 1, r)
  {
    s := WithGroup(s0, common, r.floor);
    var bound := Successor(common);
    if bound.Some? {
      ghost var after := SeekPastGroup(ms, n, r, bound.value);
      SkipEntryIs(ms, n + 1, after, Group(common), r);
      ListedAfterGroup(s0, ms, n, after, r, bound.value, true);
      s := s.(lower := bound.value, inclusive := true);
    } else {
      SeekPastKey(ms, n);
      ListedAfterGroup(s0, ms, n, n + 1, r, key, false);
      s := s.(lower := key, inclusive := false);
    }
  }

  /** The page is full, and `last` is the text of its last entry. */
  ghost predicate Filled(ms: seq<string>, n: nat, r: Request, last: string) {
    && n == PageEnd(ms, r)
    && |UpTo(ms, n, r)| == r.maxKeys > 0 && last == UpTo(ms, n, r)[r.maxKeys - 1].text
  }

  /** A row that fills the page ends it. */
  lemma RowFills(ms: seq<string>, i: nat, r: Request)
    requires i < |ms| && |UpTo(ms, i, r)| < r.maxKeys <= |UpTo(ms, i + 1, r)|
    requires UpTo(ms, RowEnd(ms, i, r), r) == UpTo(ms, i + 1, r)
    ensures Filled(ms, RowEnd(ms, i, r), r, At0(ms, i, r).text)
  {
    FillRowIs(ms, 0, i, r);
    UpToStep(ms, i, r);
  }

  /** The rows of one batch in order, skipping those that an earlier seek has covered. */
  method TakeBatch(s0: State, rows: seq<string>, r: Request, ghost ms: seq<string>, ghost n0: nat)
    returns (s: State, last: Option<string>, ghost n: nat)
    requires Sorted(ms) && AllStart(ms, r.prefix)
    requires Listed(s0, ms, n0, r) && n0 + |rows| <= |ms| && rows == ms[n0..n0 + |rows|]
    requires |UpTo(ms, n0, r)| < r.maxKeys
    ensures n <= |ms| && Listed(s, ms, n, r)
    ensures last.None? ==> n >= n0 + |rows| && |UpTo(ms, n, r)| < r.maxKeys
    ensures last.Some? ==> n > n0 && Filled(ms, n, r, last.value)
  {
    s, n, last := s0, n0, None;
    for j := 0 to |rows|
      invariant n0 + j <= n <= |ms| && Listed(s, ms, n, r)
      invariant |UpTo(ms, n, r)| < r.maxKeys
    {
      assert rows[j] == ms[n0 + j];
      if !Above(rows[j], s.lower, s.inclusive) {
        continue;
      }
      assert n == n0 + j;
      s := TakeKey(s, rows[j], r, ms, n);
      if |s.contents| + |s.groups| >= r.maxKeys {
        RowFills(ms, n, r);
        return s, Some(EntryOf(rows[j], r.prefix, r.delimiter).text), RowEnd(ms, n, r);
      }
      n := RowEnd(ms, n, r);
    }
  }

  lemma QueryIsSlice(keys: seq<string>, prefix: string, lower: string, inclusive: bool, n: nat, limit: nat)
    requires Sorted(keys) && At(Matching(keys, prefix), n, lower, inclusive)
    ensures var ms, rows := Matching(keys, prefix), Query(keys, prefix, lower, inclusive, limit);
      && |rows| == Min(limit, |ms| - n) && rows == ms[n..n + |rows|]
  {
    var ms := Matching(keys, prefix);
    RowsAreASuffix(keys, prefix, lower, inclusive, n);
    if |ms| - n > limit {
      assert ms[n..][..limit] == ms[n..n + limit];
    }
  }

  /** One query and the rows it returns; a short batch is the last one. */
  method NextBatch(keys: seq<string>, s0: State, r: Request, batch: nat, ghost ms: seq<string>, ghost n0: nat)
    returns (s: State, last: Option<string>, more: bool, ghost n: nat)
    requires Sorted(keys) && batch >= 1 && ms == Matching(keys, r.prefix) && Sorted(ms) && AllStart(ms, r.prefix)
    requires n0 <= |ms| && Listed(s0, ms, n0, r) && |UpTo(ms, n0, r)| < r.maxKeys
    ensures n0 <= n <= |ms| && Listed(s, ms, n, r)
    ensures last.None? ==> |UpTo(ms, n, r)| < r.maxKeys && (if more then n > n0 else n == |ms|)
    ensures last.Some? ==> Filled(ms, n, r, last.value)
  {
    QueryIsSlice(keys, r.prefix, s0.lower, s0.inclusive, n0, batch);
    var rows := Query(keys, r.prefix, s0.lower, s0.inclusive, batch);
    if rows == [] {
      return s0, None, false, n0;
    }
    s, last, n := TakeBatch(s0, rows, r, ms, n0);
    more := |rows| == batch;
  }

  lemma StartListed(ms: seq<string>, r: Request) returns (n: nat)
    requires Sorted(ms) && AllStart(ms, r.prefix)
    ensures n <= |ms| && Listed(State([], [], {}, r.floor, false), ms, n, r) && UpTo(ms, n, r) == []
  {
    n := Position(ms, r.floor, false);
    NothingBelowFloor(ms, n, r);
  }

  /** The page is full: one more query tells whether any key is left. */
  method FullPage(keys: seq<string>, s: State, last: string, r: Request, ghost n: nat) returns (page: Page)
    requires Sorted(keys) && n <= |Matching(keys, r.prefix)|
    requires Listed(s, Matching(keys, r.prefix), n, r) && Filled(Matching(keys, r.prefix), n, r, last)
    ensures page == PageOf(Matching(keys, r.prefix), r)
  {
    QueryIsSlice(keys, r.prefix, s.lower, s.inclusive, n, 1);
    var probe := Query(keys, r.prefix, s.lower, s.inclusive, 1);
    return Page(s.contents, s.groups, probe != [], if probe != [] then Some(last) else None);
  }

  /** One listing request: the same page for every positive size of the batches in which the index is read. */
  method ListObjects(keys: seq<string>, r: Request, batch: nat) returns (page: Page)
    requires Sorted(keys) && batch >= 1
    ensures page == PageOf(Matching(keys, r.prefix), r)
  {
    if r.maxKeys == 0 {
      return Page([], [], false, None);
    }
    ghost var ms := Matching(keys, r.prefix);
    MatchingIsSorted(keys, r.prefix);
    var s := State([], [], {}, r.floor, false);
    ghost var n: nat;
    n := StartListed(ms, r);
    var more := true;
    while more
      invariant n <= |ms| && Listed(s, ms, n, r)
      invariant |UpTo(ms, n, r)| < r.maxKeys
      invariant !more ==> n == |ms|
      decreases more, |ms| - n
    {
      var last;
      s, last, more, n := NextBatch(keys, s, r, batch, ms, n);
      if last.Some? {
        page := FullPage(keys, s, last.value, r, n);
        return;
      }
    }
    NeverFilled(ms, 0, r);
    return Page(s.contents, s.groups, false, None);
  }
}
