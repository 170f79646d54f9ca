/** Following the cursor from page to page lists everything once, in order, and ends. */
module Pagination {
  import opened Prelude
  import opened KeyOrder
  import opened Listing
  import opened Scan

  /** The whole listing above the floor of the request. */
  function All(ms: seq<string>, r: Request): seq<Entry> {
    Entries(ms, r.prefix, r.delimiter, r.floor)
  }

  // ---- one page ----

  /** The row that fills the page brings its last entry. */
  lemma FilledRow(ms: seq<string>, r: Request)
    requires r.maxKeys > 0 && |UpTo(ms, FillRow(ms, 0, r), r)| >= r.maxKeys
    ensures var f := FillRow(ms, 0, r);
      && f > 0 && UpTo(ms, f, r) == UpTo(ms, f - 1, r) + [At0(ms, f - 1, r)] && |UpTo(ms, f, r)| == r.maxKeys
  {
    assert UpTo(ms, 0, r) == [];
    FillRowMeans(ms, 0, r);
    UpToStep(ms, FillRow(ms, 0, r) - 1, r);
  }

  /** The rows that a seek passes bring nothing. */
  lemma PassedRowsAddNothing(ms: seq<string>, i: nat, r: Request)
    requires i < |ms|
    ensures UpTo(ms, RowEnd(ms, i, r), r) == UpTo(ms, i + 1, r)
  {
    var e := At0(ms, i, r);
    if e.Group? && Successor(e.text).Some? {
      var m := RowEnd(ms, i, r);
      SkipEntryMeans(ms, i + 1, e, r);
      forall k | i <= k < m ensures At0(ms, k, r) == e {
        assert k == i || i + 1 <= k;
      }
      SameEntryAddsNothing(ms, i, m, r);
    }
  }

  lemma EndOfFullPage(ms: seq<string>, r: Request)
    requires r.maxKeys > 0 && |UpTo(ms, FillRow(ms, 0, r), r)| >= r.maxKeys
    ensures var f, n := FillRow(ms, 0, r), PageEnd(ms, r);
      0 < f <= n && n == RowEnd(ms, f - 1, r) && UpTo(ms, n, r) == UpTo(ms, f, r)
  {
    FilledRow(ms, r);
    PassedRowsAddNothing(ms, FillRow(ms, 0, r) - 1, r);
  }

  /** The entries on a page are the first `maxKeys` of the whole listing. */
  lemma PageIsFirstEntries(ms: seq<string>, r: Request)
    requires r.maxKeys > 0
    ensures UpTo(ms, PageEnd(ms, r), r) == All(ms, r)[..Min(r.maxKeys, |All(ms, r)|)]
    ensures PageOf(ms, r).contents == KeysOf(All(ms, r)[..Min(r.maxKeys, |All(ms, r)|)])
    ensures PageOf(ms, r).groups == GroupsOf(All(ms, r)[..Min(r.maxKeys, |All(ms, r)|)])
  {
    var f, n := FillRow(ms, 0, r), PageEnd(ms, r);
    assert UpTo(ms, 0, r) == [];
    FillRowMeans(ms, 0, r);
    if |UpTo(ms, f, r)| >= r.maxKeys {
      FilledRow(ms, r);
      EndOfFullPage(ms, r);
    }
    UpToGrows(ms, n, |ms|, r);
    assert ms[..|ms|] == ms;
  }

  /** What a page that stops early leaves: another entry, or more of a group that no string follows. */
  lemma StopsEarly(ms: seq<string>, r: Request)
    requires Sorted(ms) && AllStart(ms, r.prefix) && r.maxKeys > 0 && PageEnd(ms, r) < |ms|
    ensures var n := PageEnd(ms, r);
      var out := UpTo(ms, n, r);
      && |out| == r.maxKeys
      && (At0(ms, n, r) != out[|out| - 1] || EndsInLastGroup(out))
  {
    assert UpTo(ms, 0, r) == [];
    FillRowMeans(ms, 0, r);
    FilledRow(ms, r);
    EndOfFullPage(ms, r);
    var f := FillRow(ms, 0, r);
    var e := At0(ms, f - 1, r);
    if e.Key? {
      NextEntryDiffers(ms, f - 1, r);
    } else {
      SkipEntryMeans(ms, f, e, r);
    }
  }

  /** The last entry is a group that no string follows: its text is all char::MAX. */
  predicate EndsInLastGroup(entries: seq<Entry>) {
    entries != [] && entries[|entries| - 1].Group? && Successor(entries[|entries| - 1].text).None?
  }

  lemma MoreToList(ms: seq<string>, n: nat, r: Request)
    requires n < |ms| && Sorted(ms) && AllStart(ms, r.prefix)
    requires UpTo(ms, n, r) != [] && At0(ms, n, r) != UpTo(ms, n, r)[|UpTo(ms, n, r)| - 1]
    ensures |All(ms, r)| > |UpTo(ms, n, r)|
  {
    hide Entries, EntryOf;
    var out := UpTo(ms, n, r);
    var last := out[|out| - 1];
    EntriesComeFromKeys(ms[..n], r.prefix, r.delimiter, r.floor, last);
    var i :| 0 <= i < n && EntryOf(ms[..n][i], r.prefix, r.delimiter) == last;
    EntryMonotone(ms[i], ms[n], r.prefix, r.delimiter);
    Transitive(r.floor, last.text, At0(ms, n, r).text);
    UpToStep(ms, n, r);
    UpToGrows(ms, n + 1, |ms|, r);
    assert ms[..|ms|] == ms;
  }

  lemma {:induction false} SameGroupToTheEnd(ms: seq<string>, n: nat, m: nat, r: Request, out: seq<Entry>)
    requires n <= m <= |ms| && out == UpTo(ms, n, r) && out != []
    requires forall i :: n <= i < m ==> At0(ms, i, r) == out[|out| - 1]
    ensures UpTo(ms, m, r) == out
    decreases m - n
  {
    if n < m {
      SameGroupToTheEnd(ms, n, m - 1, r, out);
      assert At0(ms, m - 1, r) == out[|out| - 1];
      UpToStep(ms, m - 1, r);
    }
  }

  lemma ComesFrom(ms: seq<string>, n: nat, r: Request, e: Entry) returns (i: nat)
    requires n <= |ms| && e in UpTo(ms, n, r)
    ensures i < n && At0(ms, i, r) == e && Less(r.floor, e.text)
  {
    EntriesComeFromKeys(ms[..n], r.prefix, r.delimiter, r.floor, e);
    i :| 0 <= i < n && EntryOf(ms[..n][i], r.prefix, r.delimiter) == e;
  }

  /** The rows from the first one of a group that no string follows are all in it, so it ends the listing. */
  lemma EndOfListing(ms: seq<string>, n: nat, r: Request)
    requires Sorted(ms) && AllStart(ms, r.prefix) && n <= |ms| && EndsInLastGroup(UpTo(ms, n, r))
    ensures All(ms, r) == UpTo(ms, n, r)
  {
    var out := UpTo(ms, n, r);
    var i := ComesFrom(ms, n, r, out[|out| - 1]);
    LastGroup(ms, i, r);
    SameGroupToTheEnd(ms, n, |ms|, r, out);
    assert ms[..|ms|] == ms;
  }

  // ---- the truncation flag ----

  /**
   * The listing fills the page exactly and ends in a group that no string follows, with at least two keys in it.
   * This depends on the keys and the request only.
   */
  predicate InVain(ms: seq<string>, r: Request) {
    var all := All(ms, r);
    && |all| == r.maxKeys && EndsInLastGroup(all)
    && |ms| >= 2 && At0(ms, |ms| - 2, r) == all[|all| - 1]
  }

  /** The flag is set exactly when entries are left or it is set in vain; it is exact if and only if it is not in vain. */
  lemma TruncationIsExactIff(ms: seq<string>, r: Request)
    requires Sorted(ms) && AllStart(ms, r.prefix) && r.maxKeys > 0
    ensures PageOf(ms, r).truncated <==> |All(ms, r)| > r.maxKeys || InVain(ms, r)
    ensures (PageOf(ms, r).truncated <==> |All(ms, r)| > r.maxKeys) <==> !InVain(ms, r)
  {
    hide Entries, EntryOf;
    var n, all := PageEnd(ms, r), All(ms, r);
    assert ms[..|ms|] == ms;
    PageIsFirstEntries(ms, r);
    if n < |ms| {
      StopsEarly(ms, r);
      if At0(ms, n, r) != UpTo(ms, n, r)[r.maxKeys - 1] {
        MoreToList(ms, n, r);
      } else {
        EndOfListing(ms, n, r);
        VainWhenStopped(ms, r);
      }
    } else if InVain(ms, r) {
      VainMeansStopped(ms, r);
    }
  }

  /** A page that stops in a group that no string follows stops right after its first row. */
  lemma VainWhenStopped(ms: seq<string>, r: Request)
    requires Sorted(ms) && AllStart(ms, r.prefix) && r.maxKeys > 0
    requires PageEnd(ms, r) < |ms| && EndsInLastGroup(UpTo(ms, PageEnd(ms, r), r))
    requires All(ms, r) == UpTo(ms, PageEnd(ms, r), r)
    ensures InVain(ms, r)
  {
    StopsEarly(ms, r);
    assert UpTo(ms, 0, r) == [];
    FillRowMeans(ms, 0, r);
    FilledRow(ms, r);
    EndOfFullPage(ms, r);
    LastGroup(ms, FillRow(ms, 0, r) - 1, r);
  }

  /** With two keys in such a group the page that it fills stops before the last one. */
  lemma VainMeansStopped(ms: seq<string>, r: Request)
    requires Sorted(ms) && AllStart(ms, r.prefix) && r.maxKeys > 0 && InVain(ms, r)
    ensures PageEnd(ms, r) < |ms|
  {
    var last := All(ms, r)[|All(ms, r)| - 1];
    ListedBeforeTheEnd(ms, r, last);
    GroupFillsAtItsFirstRow(ms, r, last);
  }

  /** The page ends right after the row that brings a last group that no string follows. */
  lemma GroupFillsAtItsFirstRow(ms: seq<string>, r: Request, last: Entry)
    requires Sorted(ms) && AllStart(ms, r.prefix) && r.maxKeys > 0 && ms != []
    requires |All(ms, r)| == r.maxKeys && EndsInLastGroup(All(ms, r)) && last == All(ms, r)[|All(ms, r)| - 1]
    requires last in UpTo(ms, |ms| - 1, r)
    ensures PageEnd(ms, r) < |ms|
  {
    var f := FillRow(ms, 0, r);
    FullWhenAllFill(ms, r);
    FilledRow(ms, r);
    EndOfFullPage(ms, r);
    PageIsFirstEntries(ms, r);
    AddedIsNew(ms, f - 1, r, At0(ms, f - 1, r));
    assert PageEnd(ms, r) == f && last == At0(ms, f - 1, r);
  }

  lemma ListedBeforeTheEnd(ms: seq<string>, r: Request, last: Entry)
    requires |ms| >= 2 && At0(ms, |ms| - 2, r) == last && last in All(ms, r)
    ensures last in UpTo(ms, |ms| - 1, r)
  {
    EntriesComeFromKeys(ms, r.prefix, r.delimiter, r.floor, last);
    EntriesCoverKeys(ms[..|ms| - 1], r.prefix, r.delimiter, r.floor, |ms| - 2);
  }

  lemma FullWhenAllFill(ms: seq<string>, r: Request)
    requires r.maxKeys > 0 && |All(ms, r)| >= r.maxKeys
    ensures |UpTo(ms, FillRow(ms, 0, r), r)| >= r.maxKeys
  {
    assert UpTo(ms, 0, r) == [];
    FillRowMeans(ms, 0, r);
    assert ms[..|ms|] == ms;
  }

  /** An entry that a row adds was not listed before. */
  lemma AddedIsNew(ms: seq<string>, n: nat, r: Request, e: Entry)
    requires Sorted(ms) && AllStart(ms, r.prefix) && n < |ms|
    requires UpTo(ms, n + 1, r) == UpTo(ms, n, r) + [e]
    ensures e !in UpTo(ms, n, r)
  {
    var out, all := UpTo(ms, n, r), UpTo(ms, n + 1, r);
    EntriesIncrease(ms[..n + 1], r.prefix, r.delimiter, r.floor);
    Irreflexive(e.text);
    forall i | 0 <= i < |out| ensures out[i] != e {
      assert all[i] == out[i] && all[|out|] == e;
    }
  }

  const MAX_CHAR := "\U{10FFFF}"

  /** A key that starts with char::MAX is in the group of char::MAX when that is the delimiter. */
  lemma MaxCharGroup(k: string)
    requires MAX_CHAR <= k
    ensures EntryOf(k, "", MAX_CHAR) == Group(MAX_CHAR)
  {
  }

  lemma OnlyOneGroup(r: Request, ms: seq<string>)
    requires r == Request("", MAX_CHAR, "", 1) && ms == [MAX_CHAR, MAX_CHAR + "a"]
    ensures UpTo(ms, 1, r) == [Group(MAX_CHAR)] == All(ms, r)
  {
    MaxCharGroup(ms[0]);
    MaxCharGroup(ms[1]);
    assert UpTo(ms, 0, r) == [];
    UpToStep(ms, 0, r);
    UpToStep(ms, 1, r);
    assert ms[..2] == ms;
  }

  lemma TwoKeysInVain(r: Request, ms: seq<string>)
    requires r == Request("", MAX_CHAR, "", 1) && ms == [MAX_CHAR, MAX_CHAR + "a"]
    ensures Sorted(ms) && AllStart(ms, "") && Matching(ms, "") == ms && InVain(ms, r)
  {
    hide Entries, EntryOf;
    OnlyOneGroup(r, ms);
    MaxCharGroup(ms[0]);
    PrefixIsBelow(ms[0], ms[1]);
    assert ms[..1] == [ms[0]] && Matching([], "") == [];
    assert MAX_CHAR[..0] == "";
    assert Successor(MAX_CHAR) == Successor("");
  }

  /** The flag can be set in vain: two keys in the group of char::MAX, listed one entry a page. */
  method TruncatedInVain(batch: nat) returns (page: Page)
    requires batch >= 1
    ensures page == Page([], [MAX_CHAR], true, Some(MAX_CHAR))
    ensures |All([MAX_CHAR, MAX_CHAR + "a"], Request("", MAX_CHAR, "", 1))| == 1
  {
    var r, keys := Request("", MAX_CHAR, "", 1), [MAX_CHAR, MAX_CHAR + "a"];
    TwoKeysInVain(r, keys);
    OnlyOneGroup(r, keys);
    TruncationIsExactIff(keys, r);
    PageIsFirstEntries(keys, r);
    page := ListObjects(keys, r, batch);
    assert [Group(MAX_CHAR)][..0] == [];
  }

  // ---- what is listed ----

  /** The entry is in the listing: above the floor, and some key with the prefix stands for it. */
  ghost predicate Lists(keys: seq<string>, r: Request, e: Entry) {
    Less(r.floor, e.text) && exists m :: StandsFor(keys, r, m, e)
  }

  ghost predicate StandsFor(keys: seq<string>, r: Request, m: string, e: Entry) {
    m in keys && r.prefix <= m && Contributes(m, r.prefix, r.delimiter, e)
  }

  predicate Ascending(texts: seq<string>) {
    forall i, j :: 0 <= i < j < |texts| ==> Less(texts[i], texts[j])
  }

  /** The whole listing has exactly the entries that some key stands for. */
  lemma ListedIff(keys: seq<string>, r: Request, e: Entry)
    requires Sorted(keys)
    ensures e in All(Matching(keys, r.prefix), r) <==> Lists(keys, r, e)
  {
    var ms := Matching(keys, r.prefix);
    MatchingIsSorted(keys, r.prefix);
    if e in All(ms, r) {
      EntriesComeFromKeys(ms, r.prefix, r.delimiter, r.floor, e);
      var i :| 0 <= i < |ms| && EntryOf(ms[i], r.prefix, r.delimiter) == e;
      EntryMeans(ms[i], r.prefix, r.delimiter, e);
      assert StandsFor(keys, r, ms[i], e);
    }
    if Lists(keys, r, e) {
      var m :| StandsFor(keys, r, m, e);
      EntryMeans(m, r.prefix, r.delimiter, e);
      var i :| 0 <= i < |ms| && ms[i] == m;
      EntriesCoverKeys(ms, r.prefix, r.delimiter, r.floor, i);
    }
  }

  lemma {:induction false} SplitMembers(entries: seq<Entry>, text: string)
    ensures text in KeysOf(entries) <==> Key(text) in entries
    ensures text in GroupsOf(entries) <==> Group(text) in entries
  {
    if |entries| > 0 {
      SplitMembers(entries[..|entries| - 1], text);
      assert entries == entries[..|entries| - 1] + [entries[|entries| - 1]];
    }
  }

  lemma {:induction false} SplitAscends(entries: seq<Entry>)
    requires Increasing(entries)
    ensures Ascending(KeysOf(entries)) && Ascending(GroupsOf(entries))
  {
    if |entries| > 0 {
      var init, last := entries[..|entries| - 1], entries[|entries| - 1];
      SplitAscends(init);
      var contents, groups := KeysOf(init), GroupsOf(init);
      forall i | 0 <= i < |contents| ensures Less(contents[i], last.text) {
        SplitMembers(init, contents[i]);
        assert Key(contents[i]) in init;
      }
      forall i | 0 <= i < |groups| ensures Less(groups[i], last.text) {
        SplitMembers(init, groups[i]);
        assert Group(groups[i]) in init;
      }
    }
  }

  /** The page's texts are, in ascending order, the entries of the listing up to the bound, if there is one. */
  ghost predicate Shows(keys: seq<string>, r: Request, contents: seq<string>, groups: seq<string>, bound: Option<string>) {
    && Ascending(contents) && Ascending(groups)
    && (forall k :: k in contents <==> Lists(keys, r, Key(k)) && (bound.Some? ==> LessEq(k, bound.value)))
    && (forall g :: g in groups <==> Lists(keys, r, Group(g)) && (bound.Some? ==> LessEq(g, bound.value)))
  }

  lemma FirstEntriesShow(keys: seq<string>, r: Request, n: nat, bound: Option<string>)
    requires Sorted(keys)
    requires var all := All(Matching(keys, r.prefix), r);
      n <= |all| && if bound.Some? then n > 0 && bound.value == all[n - 1].text else n == |all|
    ensures var first := All(Matching(keys, r.prefix), r)[..n];
      Shows(keys, r, KeysOf(first), GroupsOf(first), bound)
  {
    var all := All(Matching(keys, r.prefix), r);
    MatchingIsSorted(keys, r.prefix);
    EntriesIncrease(Matching(keys, r.prefix), r.prefix, r.delimiter, r.floor);
    SplitAscends(all[..n]);
    forall e: Entry ensures e in all[..n] <==> Lists(keys, r, e) && (bound.Some? ==> LessEq(e.text, bound.value)) {
      ListedIff(keys, r, e);
      FirstIffBelow(all, n, bound, e);
    }
    forall k ensures k in KeysOf(all[..n]) <==> Key(k) in all[..n] {
      SplitMembers(all[..n], k);
    }
    forall g ensures g in GroupsOf(all[..n]) <==> Group(g) in all[..n] {
      SplitMembers(all[..n], g);
    }
  }

  lemma AllShown(keys: seq<string>, r: Request)
    requires Sorted(keys)
    ensures var all := All(Matching(keys, r.prefix), r);
      Shows(keys, r, KeysOf(all), GroupsOf(all), None) && |KeysOf(all)| + |GroupsOf(all)| == |all|
  {
    var all := All(Matching(keys, r.prefix), r);
    assert all[..|all|] == all;
    FirstEntriesShow(keys, r, |all|, None);
  }

  lemma FirstIffBelow(all: seq<Entry>, n: nat, bound: Option<string>, e: Entry)
    requires Increasing(all) && n <= |all|
    requires if bound.Some? then n > 0 && bound.value == all[n - 1].text else n == |all|
    ensures e in all[..n] <==> e in all && (bound.Some? ==> LessEq(e.text, bound.value))
  {
    assert all[..|all|] == all;
    if bound.Some? && e in all {
      var i :| 0 <= i < |all| && all[i] == e;
      if i < n {
        assert all[..n][i] == e;
      } else {
        Irreflexive(e.text);
        Mixed(e.text, bound.value, e.text);
        forall j | 0 <= j < n ensures all[j] != e {
          assert Less(all[n - 1].text, all[i].text);
          assert j < n - 1 ==> Less(all[j].text, all[i].text);
        }
      }
    }
  }

  /**
   * One page: entries of the listing in order; all of them, or exactly `maxKeys`, and then those up to the cursor. Asked
   * for no entries, it is empty and final.
   */
  lemma PageMeans(keys: seq<string>, r: Request)
    requires Sorted(keys)
    ensures var page := PageOf(Matching(keys, r.prefix), r);
      if r.maxKeys == 0 then page == Page([], [], false, None)
      else
        && Shows(keys, r, page.contents, page.groups, page.cursor)
        && (page.truncated <==> page.cursor.Some?)
        && |page.contents| + |page.groups| <= r.maxKeys
        && (page.truncated ==> |page.contents| + |page.groups| == r.maxKeys)
  {
    var ms := Matching(keys, r.prefix);
    var all, page := All(ms, r), PageOf(ms, r);
    MatchingIsSorted(keys, r.prefix);
    if r.maxKeys > 0 {
      PageIsFirstEntries(ms, r);
      CursorOfPage(ms, r);
      FirstEntriesShow(keys, r, Min(r.maxKeys, |all|), page.cursor);
    }
  }

  // ---- from page to page ----

  function Beyond(entries: seq<Entry>, floor: string): seq<Entry> {
    if |entries| == 0 then []
    else
      var last := entries[|entries| - 1];
      Beyond(entries[..|entries| - 1], floor) + (if Less(floor, last.text) then [last] else [])
  }

  lemma {:induction false} BeyondMembers(entries: seq<Entry>, floor: string, e: Entry)
    ensures e in Beyond(entries, floor) <==> e in entries && Less(floor, e.text)
  {
    if |entries| > 0 {
      BeyondMembers(entries[..|entries| - 1], floor, e);
      assert entries == entries[..|entries| - 1] + [entries[|entries| - 1]];
    }
  }

  lemma BeyondAppend(entries: seq<Entry>, x: Entry, floor: string)
    ensures Beyond(entries + [x], floor) == Beyond(entries, floor) + (if Less(floor, x.text) then [x] else [])
  {
  }

  /** Raising the floor drops the entries up to it and keeps the rest. */
  lemma {:induction false} RaisedFloor(ms: seq<string>, n: nat, low: Request, high: Request)
    requires Sorted(ms) && AllStart(ms, low.prefix) && n <= |ms|
    requires high == low.(floor := high.floor) && LessEq(low.floor, high.floor)
    ensures UpTo(ms, n, high) == Beyond(UpTo(ms, n, low), high.floor)
    decreases n
  {
    if n == 0 {
      assert UpTo(ms, 0, low) == [] == UpTo(ms, 0, high);
    } else {
      var m := n - 1;
      var x := EntryOf(ms[m], low.prefix, low.delimiter);
      RaisedFloor(ms, m, low, high);
      assert UpTo(ms, m + 1, low) == Adding(UpTo(ms, m, low), x, low.floor) by {
        UpToAdds(ms, m, low);
      }
      assert UpTo(ms, m + 1, high) == Adding(UpTo(ms, m, high), x, high.floor) by {
        UpToAdds(ms, m, high);
      }
      RaisedStep(UpTo(ms, m, low), x, low.floor, high.floor);
    }
  }

  function Adding(entries: seq<Entry>, x: Entry, floor: string): seq<Entry> {
    if Less(floor, x.text) && x !in entries then entries + [x] else entries
  }

  lemma RaisedStep(entries: seq<Entry>, x: Entry, low: string, high: string)
    requires LessEq(low, high)
    ensures Adding(Beyond(entries, high), x, high) == Beyond(Adding(entries, x, low), high)
  {
    BeyondMembers(entries, high, x);
    Mixed(low, high, x.text);
    BeyondAppend(entries, x, high);
  }

  /** An entry is added when it is above the floor and was not listed before. */
  lemma UpToAdds(ms: seq<string>, n: nat, r: Request)
    requires Sorted(ms) && AllStart(ms, r.prefix) && n < |ms|
    ensures UpTo(ms, n + 1, r) == Adding(UpTo(ms, n, r), EntryOf(ms[n], r.prefix, r.delimiter), r.floor)
  {
    UpToStep(ms, n, r);
    SeenIsLast(ms, n, r);
  }

  lemma {:induction false} BeyondIncreasing(entries: seq<Entry>, i: nat)
    requires Increasing(entries) && i < |entries|
    ensures Beyond(entries, entries[i].text) == entries[i + 1..]
  {
    var last := entries[|entries| - 1];
    var init := entries[..|entries| - 1];
    var text := entries[i].text;
    if i == |entries| - 1 {
      Irreflexive(text);
      NothingBeyond(init, text);
    } else {
      BeyondIncreasing(init, i);
      assert init[i] == entries[i];
      assert entries[i + 1..] == init[i + 1..] + [last];
    }
  }

  lemma {:induction false} NothingBeyond(entries: seq<Entry>, text: string)
    requires forall e :: e in entries ==> Less(e.text, text)
    ensures Beyond(entries, text) == []
  {
    if |entries| > 0 {
      NothingBeyond(entries[..|entries| - 1], text);
      Total(entries[|entries| - 1].text, text);
    }
  }

  /** Listing again from the text of an entry continues right after it. */
  lemma Resume(ms: seq<string>, r: Request, i: nat)
    requires Sorted(ms) && AllStart(ms, r.prefix) && i < |All(ms, r)|
    ensures All(ms, r.(floor := All(ms, r)[i].text)) == All(ms, r)[i + 1..]
  {
    var all := All(ms, r);
    EntriesIncrease(ms, r.prefix, r.delimiter, r.floor);
    EntriesComeFromKeys(ms, r.prefix, r.delimiter, r.floor, all[i]);
    RaisedFloor(ms, |ms|, r, r.(floor := all[i].text));
    assert ms[..|ms|] == ms;
    BeyondIncreasing(all, i);
  }

  lemma {:induction false} KeysSplit(front: seq<Entry>, back: seq<Entry>)
    ensures KeysOf(front + back) == KeysOf(front) + KeysOf(back)
  {
    if back == [] {
      assert front + back == front;
    } else {
      var init := back[..|back| - 1];
      KeysSplit(front, init);
      assert (front + back)[..|front + back| - 1] == front + init;
      assert (front + back)[|front + back| - 1] == back[|back| - 1];
    }
  }

  lemma {:induction false} GroupsSplit(front: seq<Entry>, back: seq<Entry>)
    ensures GroupsOf(front + back) == GroupsOf(front) + GroupsOf(back)
  {
    if back == [] {
      assert front + back == front;
    } else {
      var init := back[..|back| - 1];
      GroupsSplit(front, init);
      assert (front + back)[..|front + back| - 1] == front + init;
      assert (front + back)[|front + back| - 1] == back[|back| - 1];
    }
  }

  /** The client has seen the first `done` entries; while more pages follow, the floor is where they end. */
  ghost predicate Followed(contents: seq<string>, groups: seq<string>, all: seq<Entry>, done: nat, ms: seq<string>,
                           r: Request,
                           more: bool)
  {
    && done <= |all| && contents == KeysOf(all[..done]) && groups == GroupsOf(all[..done])
    && (if more then All(ms, r) == all[done..] else done == |all|)
  }

  /** One more request of a client that follows the cursor. */
  method FollowOnce(keys: seq<string>, r: Request, batch: nat, contents0: seq<string>, groups0: seq<string>,
                    ghost ms: seq<string>, ghost all: seq<Entry>, ghost done0: nat)
    returns (contents: seq<string>, groups: seq<string>, cursor: Option<string>, ghost done: nat)
    requires Sorted(keys) && batch >= 1 && r.maxKeys >= 1
    requires ms == Matching(keys, r.prefix) && Sorted(ms) && AllStart(ms, r.prefix)
    requires Followed(contents0, groups0, all, done0, ms, r, true)
    ensures done0 <= done && (cursor.Some? ==> done == done0 + r.maxKeys)
    ensures Followed(contents, groups, all, done, ms, r.(floor := cursor.GetOr(r.floor)), cursor.Some?)
  {
    hide Entries;
    var page := ListObjects(keys, r, batch);
    var step := NextPage(page, ms, r, all, done0);
    contents, groups, cursor, done := contents0 + page.contents, groups0 + page.groups, page.cursor, done0 + step;
  }

  /** A client that follows the cursor: it sees every key and every group once, in order, in few pages. */
  method FollowCursor(keys: seq<string>, r: Request, batch: nat) returns (contents: seq<string>, groups: seq<string>,
                      pages: nat)
    requires Sorted(keys) && batch >= 1 && r.maxKeys >= 1
    ensures contents == KeysOf(All(Matching(keys, r.prefix), r))
    ensures groups == GroupsOf(All(Matching(keys, r.prefix), r))
    ensures Shows(keys, r, contents, groups, None)
    ensures pages >= 1 && (pages - 1) * r.maxKeys <= |contents| + |groups|
  {
    hide Shows, Entries;
    ghost var ms := Matching(keys, r.prefix);
    MatchingIsSorted(keys, r.prefix);
    ghost var all := All(ms, r);
    ghost var done: nat := 0;
    var floor, more := r.floor, true;
    contents, groups, pages := [], [], 0;
    while more
      invariant Followed(contents, groups, all, done, ms, r.(floor := floor), more)
      invariant more || pages >= 1
      invariant if more then done == pages * r.maxKeys else (pages - 1) * r.maxKeys <= done
      decreases more, |all| - done
    {
      var cursor;
      contents, groups, cursor, done := FollowOnce(keys, r.(floor := floor), batch, contents, groups, ms, all, done);
      pages, more, floor := pages + 1, cursor.Some?, cursor.GetOr(floor);
      assert pages * r.maxKeys == (pages - 1) * r.maxKeys + r.maxKeys;
    }
    assert all[..done] == all;
    AllShown(keys, r);
  }

  /** A truncated page is full and its cursor is the text of its last entry; any other page leaves nothing. */
  lemma CursorOfPage(ms: seq<string>, r: Request)
    requires Sorted(ms) && AllStart(ms, r.prefix) && r.maxKeys > 0
    ensures var page, all := PageOf(ms, r), All(ms, r);
      if page.truncated then |all| >= r.maxKeys && page.cursor == Some(all[r.maxKeys - 1].text)
      else |all| <= r.maxKeys && page.cursor == None
  {
    PageIsFirstEntries(ms, r);
    TruncationIsExactIff(ms, r);
  }

  lemma Advance(all: seq<Entry>, done: nat, step: nat)
    requires done + step <= |all|
    ensures KeysOf(all[..done + step]) == KeysOf(all[..done]) + KeysOf(all[done..][..step])
    ensures GroupsOf(all[..done + step]) == GroupsOf(all[..done]) + GroupsOf(all[done..][..step])
    ensures all[done..][step..] == all[done + step..]
    ensures step > 0 ==> all[done..][step - 1] == all[done + step - 1]
  {
    var out := all[done..][..step];
    assert all[..done + step] == all[..done] + out;
    KeysSplit(all[..done], out);
    GroupsSplit(all[..done], out);
  }

  /** What one more page adds, and where the next one continues. */
  lemma NextPage(page: Page, ms: seq<string>, r: Request, all: seq<Entry>, done: nat) returns (step: nat)
    requires Sorted(ms) && AllStart(ms, r.prefix) && r.maxKeys > 0
    requires page == PageOf(ms, r) && done <= |all| && All(ms, r) == all[done..]
    ensures done + step <= |all|
    ensures KeysOf(all[..done + step]) == KeysOf(all[..done]) + page.contents
    ensures GroupsOf(all[..done + step]) == GroupsOf(all[..done]) + page.groups
    ensures if page.truncated then step == r.maxKeys && All(ms, r.(floor := page.cursor.value)) == all[done + step..]
      else done + step == |all|
  {
    step := Min(r.maxKeys, |all| - done);
    PageIsFirstEntries(ms, r);
    CursorOfPage(ms, r);
    Advance(all, done, step);
    if page.truncated {
      Resume(ms, r, step - 1);
    }
  }

  /**
   * Listed from the start, each key is there: under its own name if no delimiter comes after the prefix, and otherwise as
   * the text that ends with the first one, so each of them has exactly one entry. This is for non-empty keys.
   */
  lemma ListingIsComplete(keys: seq<string>, r: Request, k: string)
    requires Sorted(keys) && r.floor == "" && k in keys && r.prefix <= k && k != ""
    ensures var all := All(Matching(keys, r.prefix), r);
      && Increasing(all)
      && (forall e :: e in all <==> Less("", e.text) && exists m :: StandsFor(keys, r, m, e))
      && (exists e :: e in all && Contributes(k, r.prefix, r.delimiter, e))
      && (forall e, e' :: Contributes(k, r.prefix, r.delimiter, e) && Contributes(k, r.prefix, r.delimiter, e') ==> e == e')
  {
    var ms, entry := Matching(keys, r.prefix), EntryOf(k, r.prefix, r.delimiter);
    MatchingIsSorted(keys, r.prefix);
    EntriesIncrease(ms, r.prefix, r.delimiter, r.floor);
    forall e ensures e in All(ms, r) <==> Lists(keys, r, e)
      ensures Contributes(k, r.prefix, r.delimiter, e) <==> e == entry
    {
      ListedIff(keys, r, e);
      EntryMeans(k, r.prefix, r.delimiter, e);
    }
    if entry.Group? {
      GroupMembers(k, k, r.prefix, r.delimiter);
    }
    assert StandsFor(keys, r, k, entry);
  }
}
