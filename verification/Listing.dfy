/**
 * Listing keys by prefix and delimiter. The scan jumps over whole groups of keys with one seek; here it is shown
 * to return the same page as grouping every key one by one.
 */
module Listing {
  import opened Prelude
  import opened KeyOrder

  /** The keys of one bucket in index order. */
  predicate Sorted(keys: seq<string>) {
    forall i, j :: 0 <= i < j < |keys| ==> Less(keys[i], keys[j])
  }

  // ---- the range query ----

  predicate Above(k: string, lower: string, inclusive: bool) {
    if inclusive then LessEq(lower, k) else Less(lower, k)
  }

  /** The rows that the SQL conditions select. */
  predicate Selected(k: string, prefix: string, lower: string, inclusive: bool) {
    var (from, incl) := if Less(lower, prefix) then (prefix, true) else (lower, inclusive);
    var upper := if prefix == "" then None else Successor(prefix);
    Above(k, from, incl) && (upper.Some? ==> Less(k, upper.value))
  }

  /** The rows that the conditions select, in order. */
  function Rows(keys: seq<string>, prefix: string, lower: string, inclusive: bool): seq<string> {
    if |keys| == 0 then []
    else
      var last := keys[|keys| - 1];
      Rows(keys[..|keys| - 1], prefix, lower, inclusive) + (if Selected(last, prefix, lower, inclusive) then [last] else [])
  }

  /** One query: the first `limit` selected keys in order. */
  function Query(keys: seq<string>, prefix: string, lower: string, inclusive: bool, limit: nat): seq<string> {
    var rows := Rows(keys, prefix, lower, inclusive);
    if |rows| <= limit then rows else rows[..limit]
  }

  /** The keys with the prefix: what a listing is about. */
  function Matching(keys: seq<string>, prefix: string): seq<string> {
    if |keys| == 0 then []
    else
      var last := keys[|keys| - 1];
      Matching(keys[..|keys| - 1], prefix) + (if prefix <= last then [last] else [])
  }

  /** The half-open range of the query selects by prefix and bound. */
  lemma SelectedMeans(k: string, prefix: string, lower: string, inclusive: bool)
    ensures Selected(k, prefix, lower, inclusive) <==> prefix <= k && Above(k, lower, inclusive)
  {
    RangeIsPrefix(prefix, k);
    Mixed(lower, prefix, k);
    Mixed(prefix, lower, k);
    Total(lower, prefix);
    if prefix == "" {
      assert LessEq(prefix, k);
    }
  }

  // ---- entries ----

  /** The first occurrence of a non-empty `needle`. */
  function Find(s: string, needle: string): (r: Option<nat>)
    ensures r.Some? ==> r.value + |needle| <= |s| && s[r.value..r.value + |needle|] == needle
  {
    if needle <= s then Some(0)
    else if |s| == 0 then None
    else
      match Find(s[1..], needle)
      case Some(i) => Some(i + 1)
      case None => None
  }

  function CommonPrefix(key: string, prefix: string, delimiter: string): Option<string> {
    if delimiter == "" then None
    else
      var rest := if prefix <= key then key[|prefix|..] else key;
      match Find(rest, delimiter)
      case None => None
      case Some(i) => Some(prefix + rest[..i + |delimiter|])
  }

  datatype Entry = Key(text: string) | Group(text: string)

  /** What a key contributes to a listing: itself, or the group it belongs to. */
  function EntryOf(key: string, prefix: string, delimiter: string): Entry {
    match CommonPrefix(key, prefix, delimiter)
    case None => Key(key)
    case Some(common) => Group(common)
  }

  /** The naive listing above `floor`: every key in order, each group once. */
  function Entries(keys: seq<string>, prefix: string, delimiter: string, floor: string): seq<Entry> {
    if |keys| == 0 then []
    else
      var before := Entries(keys[..|keys| - 1], prefix, delimiter, floor);
      var entry := EntryOf(keys[|keys| - 1], prefix, delimiter);
      if Less(floor, entry.text) && (before == [] || before[|before| - 1] != entry) then before + [entry] else before
  }

  // ---- when a key belongs to a group ----

  /** The delimiter stands at position `i` of the key. */
  predicate OccursAt(key: string, delimiter: string, i: int) {
    0 <= i && i + |delimiter| <= |key| && key[i..i + |delimiter|] == delimiter
  }

  /** Position `i` is the first one after the prefix at which the delimiter stands. */
  predicate FirstAfter(key: string, prefix: string, delimiter: string, i: int) {
    |prefix| <= i && OccursAt(key, delimiter, i) && forall j :: |prefix| <= j < i ==> !OccursAt(key, delimiter, j)
  }

  /**
   * What a key stands for in a listing: the text up to and with the first delimiter after the prefix; the key itself if
   * there is none.
   */
  ghost predicate Contributes(key: string, prefix: string, delimiter: string, e: Entry) {
    match e
    case Group(g) => delimiter != "" && exists i :: FirstAfter(key, prefix, delimiter, i) && g == key[..i + |delimiter|]
    case Key(k) => k == key && (delimiter == "" || forall i :: |prefix| <= i ==> !OccursAt(key, delimiter, i))
  }

  lemma OccursInTail(s: string, needle: string, n: nat, i: int)
    requires n <= |s| && i >= 0
    ensures OccursAt(s, needle, n + i) <==> OccursAt(s[n..], needle, i)
  {
    if n + i + |needle| <= |s| {
      assert s[n..][i..i + |needle|] == s[n + i..n + i + |needle|];
    }
  }

  lemma OccursAtStart(s: string, needle: string)
    ensures OccursAt(s, needle, 0) <==> needle <= s
  {
  }

  lemma {:induction false} FindMeans(s: string, needle: string)
    requires needle != ""
    ensures match Find(s, needle)
            case Some(i) => OccursAt(s, needle, i) && forall j :: 0 <= j < i ==> !OccursAt(s, needle, j)
            case None => forall j :: !OccursAt(s, needle, j)
  {
    OccursAtStart(s, needle);
    if !(needle <= s) && |s| > 0 {
      FindMeans(s[1..], needle);
      forall j | j >= 0 ensures OccursAt(s, needle, 1 + j) <==> OccursAt(s[1..], needle, j) {
        OccursInTail(s, needle, 1, j);
      }
      forall j | OccursAt(s, needle, j) ensures j >= 1 && OccursAt(s[1..], needle, j - 1) {
        assert 1 + (j - 1) == j;
      }
    }
  }

  lemma FirstIsUnique(key: string, prefix: string, delimiter: string, i: int, j: int)
    requires FirstAfter(key, prefix, delimiter, i) && FirstAfter(key, prefix, delimiter, j)
    ensures i == j
  {
  }

  /** The entry of a key is what it stands for, and nothing else is. */
  lemma EntryMeans(key: string, prefix: string, delimiter: string, e: Entry)
    requires prefix <= key
    ensures e == EntryOf(key, prefix, delimiter) <==> Contributes(key, prefix, delimiter, e)
  {
    if delimiter != "" {
      var n, rest := |prefix|, key[|prefix|..];
      FindMeans(rest, delimiter);
      forall j | j >= n ensures OccursAt(key, delimiter, j) <==> OccursAt(rest, delimiter, j - n) {
        OccursInTail(key, delimiter, n, j - n);
      }
      var found := Find(rest, delimiter);
      if found.Some? {
        FoundIsFirst(key, prefix, delimiter, found.value, e);
      } else {
        assert forall i :: !FirstAfter(key, prefix, delimiter, i);
      }
    }
  }

  lemma FoundFits(rest: string, delimiter: string, found: nat)
    requires Find(rest, delimiter) == Some(found)
    ensures found + |delimiter| <= |rest|
  {
  }

  lemma FoundGroup(key: string, prefix: string, delimiter: string, rest: string, found: nat)
    requires prefix <= key && key[|prefix|..] == rest && delimiter != ""
    requires Find(rest, delimiter) == Some(found) && found + |delimiter| <= |rest|
    ensures EntryOf(key, prefix, delimiter) == Group(prefix + rest[..found + |delimiter|])
  {
    hide Find;
  }

  lemma CutAfter(s: string, start: string, n: nat)
    requires start <= s && |start| + n <= |s|
    ensures start + s[|start|..][..n] == s[..|start| + n]
  {
  }

  lemma OnlyGroup(key: string, prefix: string, delimiter: string, i: int, e: Entry)
    requires delimiter != "" && FirstAfter(key, prefix, delimiter, i)
    ensures Contributes(key, prefix, delimiter, e) <==> e == Group(key[..i + |delimiter|])
  {
    if Contributes(key, prefix, delimiter, e) && e.Group? {
      var j :| FirstAfter(key, prefix, delimiter, j) && e.text == key[..j + |delimiter|];
      FirstIsUnique(key, prefix, delimiter, i, j);
    }
  }

  lemma FoundIsFirst(key: string, prefix: string, delimiter: string, found: nat, e: Entry)
    requires prefix <= key && delimiter != "" && Find(key[|prefix|..], delimiter) == Some(found)
    requires FirstAfter(key, prefix, delimiter, |prefix| + found)
    ensures e == EntryOf(key, prefix, delimiter) <==> Contributes(key, prefix, delimiter, e)
  {
    hide EntryOf, Contributes, Find;
    var rest := key[|prefix|..];
    FoundFits(rest, delimiter, found);
    FoundGroup(key, prefix, delimiter, rest, found);
    CutAfter(key, prefix, found + |delimiter|);
    OnlyGroup(key, prefix, delimiter, |prefix| + found, e);
  }

  // ---- groups are intervals ----

  lemma TailOfPrefix(p: string, t: string)
    requires p != "" && p <= t
    ensures p[1..] <= t[1..]
  {
  }

  lemma SharedStart(p: string, s: string, t: string, needle: string)
    requires p <= s && p <= t && |needle| <= |p|
    ensures needle <= s <==> needle <= t
  {
  }

  lemma AfterPrefix(prefix: string, a: string, t: string)
    requires prefix + a <= t
    ensures prefix <= t && a <= t[|prefix|..] && t == prefix + t[|prefix|..]
  {
  }

  lemma {:induction false} FindInPrefix(s: string, t: string, needle: string)
    requires needle != ""
    requires Find(s, needle).Some? && s[..Find(s, needle).value + |needle|] <= t
    ensures Find(t, needle) == Find(s, needle)
  {
    var i := Find(s, needle).value;
    if needle <= s {
      assert needle <= t;
    } else {
      var found := s[..i + |needle|];
      assert s[1..][..i - 1 + |needle|] == found[1..];
      TailOfPrefix(found, t);
      FindInPrefix(s[1..], t[1..], needle);
      SharedStart(found, s, t, needle);
    }
  }

  /** A group's text starts its keys, and every key that starts with it is in the group. */
  lemma GroupMembers(key: string, other: string, prefix: string, delimiter: string)
    requires prefix <= key && prefix <= other && EntryOf(key, prefix, delimiter).Group?
    ensures var g := EntryOf(key, prefix, delimiter).text;
      && prefix <= g <= key && |g| > |prefix|
      && (g <= other ==> EntryOf(other, prefix, delimiter) == Group(g))
  {
    var rest := key[|prefix|..];
    var i := Find(rest, delimiter).value;
    var g := prefix + rest[..i + |delimiter|];
    assert key == prefix + rest;
    assert g == key[..|g|];
    if g <= other {
      var rest' := other[|prefix|..];
      AfterPrefix(prefix, rest[..i + |delimiter|], other);
      FindInPrefix(rest, rest', delimiter);
      assert rest'[..i + |delimiter|] == rest[..i + |delimiter|];
    }
  }

  lemma EntryStartsKey(key: string, prefix: string, delimiter: string)
    requires prefix <= key
    ensures EntryOf(key, prefix, delimiter).text <= key
    ensures LessEq(EntryOf(key, prefix, delimiter).text, key)
  {
    if EntryOf(key, prefix, delimiter).Group? {
      GroupMembers(key, key, prefix, delimiter);
    }
    PrefixIsBelow(EntryOf(key, prefix, delimiter).text, key);
  }

  /** Strings between a string and an extension of it also extend it. */
  lemma Between(g: string, k: string, extended: string)
    requires g <= extended && LessEq(g, k) && LessEq(k, extended)
    ensures g <= k
  {
    RangeIsPrefix(g, k);
    RangeIsPrefix(g, extended);
    if Successor(g).Some? {
      Mixed(k, extended, Successor(g).value);
    }
  }

  /** Entries do not go back: a larger key has the same entry or one with a larger text. */
  lemma EntryMonotone(k1: string, k2: string, prefix: string, delimiter: string)
    requires prefix <= k1 && prefix <= k2 && Less(k1, k2)
    ensures var e1, e2 := EntryOf(k1, prefix, delimiter), EntryOf(k2, prefix, delimiter);
      e1 == e2 || (Less(e1.text, e2.text) && Less(k1, e2.text))
  {
    var e1, e2 := EntryOf(k1, prefix, delimiter), EntryOf(k2, prefix, delimiter);
    EntryStartsKey(k1, prefix, delimiter);
    EntryStartsKey(k2, prefix, delimiter);
    Mixed(e1.text, k1, e2.text);
    Mixed(k1, e2.text, k2);
    Mixed(k1, k2, k2);
    if !Less(k1, e2.text) {
      Between(e2.text, k1, k2);
      if e2.Group? {
        GroupMembers(k2, k1, prefix, delimiter);
      } else {
        Irreflexive(k1);
        assert false;
      }
    }
  }

  // ---- what the naive listing contains ----

  predicate Increasing(entries: seq<Entry>) {
    forall i, j :: 0 <= i < j < |entries| ==> Less(entries[i].text, entries[j].text)
  }

  predicate AllStart(keys: seq<string>, prefix: string) {
    forall i :: 0 <= i < |keys| ==> prefix <= keys[i]
  }

  lemma {:induction false} EntriesComeFromKeys(keys: seq<string>, prefix: string, delimiter: string, floor: string,
                                               e: Entry)
    requires e in Entries(keys, prefix, delimiter, floor)
    ensures Less(floor, e.text)
    ensures exists i :: 0 <= i < |keys| && EntryOf(keys[i], prefix, delimiter) == e
  {
    var init := keys[..|keys| - 1];
    if e in Entries(init, prefix, delimiter, floor) {
      EntriesComeFromKeys(init, prefix, delimiter, floor, e);
      var i :| 0 <= i < |init| && EntryOf(init[i], prefix, delimiter) == e;
      assert keys[i] == init[i];
    } else {
      assert e == EntryOf(keys[|keys| - 1], prefix, delimiter);
    }
  }

  /** The naive listing is in strictly increasing order: nothing appears twice. */
  lemma {:induction false} EntriesIncrease(keys: seq<string>, prefix: string, delimiter: string, floor: string)
    requires Sorted(keys) && AllStart(keys, prefix)
    ensures Increasing(Entries(keys, prefix, delimiter, floor))
  {
    if |keys| > 0 {
      var init, last := keys[..|keys| - 1], keys[|keys| - 1];
      EntriesIncrease(init, prefix, delimiter, floor);
      var before, x := Entries(init, prefix, delimiter, floor), EntryOf(last, prefix, delimiter);
      if before != [] && before[|before| - 1] != x {
        LastEntryIsBelow(keys, prefix, delimiter, floor);
        IncreasingAppend(before, x);
      }
    }
  }

  lemma LastEntryIsBelow(keys: seq<string>, prefix: string, delimiter: string, floor: string)
    requires Sorted(keys) && AllStart(keys, prefix) && keys != []
    requires var before := Entries(keys[..|keys| - 1], prefix, delimiter, floor);
      before != [] && before[|before| - 1] != EntryOf(keys[|keys| - 1], prefix, delimiter)
    ensures var before := Entries(keys[..|keys| - 1], prefix, delimiter, floor);
      Less(before[|before| - 1].text, EntryOf(keys[|keys| - 1], prefix, delimiter).text)
  {
    var before := Entries(keys[..|keys| - 1], prefix, delimiter, floor);
    var i := EarlierKey(keys, prefix, delimiter, floor, before[|before| - 1]);
    EntryMonotone(keys[i], keys[|keys| - 1], prefix, delimiter);
  }

  lemma EarlierKey(keys: seq<string>, prefix: string, delimiter: string, floor: string, e: Entry) returns (i: nat)
    requires keys != [] && e in Entries(keys[..|keys| - 1], prefix, delimiter, floor)
    ensures i < |keys| - 1 && EntryOf(keys[i], prefix, delimiter) == e
  {
    var init := keys[..|keys| - 1];
    EntriesComeFromKeys(init, prefix, delimiter, floor, e);
    i :| 0 <= i < |init| && EntryOf(init[i], prefix, delimiter) == e;
  }

  lemma IncreasingAppend(entries: seq<Entry>, x: Entry)
    requires Increasing(entries)
    requires entries != [] ==> Less(entries[|entries| - 1].text, x.text)
    ensures Increasing(entries + [x])
  {
    forall j | 0 <= j < |entries| ensures Less(entries[j].text, x.text) {
      if j < |entries| - 1 {
        Transitive(entries[j].text, entries[|entries| - 1].text, x.text);
      }
    }
  }

  /** Every key above the floor is represented. */
  lemma {:induction false} EntriesCoverKeys(keys: seq<string>, prefix: string, delimiter: string, floor: string, i: nat)
    requires i < |keys| && Less(floor, EntryOf(keys[i], prefix, delimiter).text)
    ensures EntryOf(keys[i], prefix, delimiter) in Entries(keys, prefix, delimiter, floor)
  {
    if i < |keys| - 1 {
      EntriesCoverKeys(keys[..|keys| - 1], prefix, delimiter, floor, i);
    }
  }

  // ---- positions in the listing ----

  /** The bound separates the first `n` keys from the rest. */
  ghost predicate At(keys: seq<string>, n: nat, lower: string, inclusive: bool) {
    && n <= |keys|
    && (forall i :: 0 <= i < n ==> !Above(keys[i], lower, inclusive))
    && (forall i :: n <= i < |keys| ==> Above(keys[i], lower, inclusive))
  }

  lemma AboveGrows(k1: string, k2: string, lower: string, inclusive: bool)
    requires Above(k1, lower, inclusive) && Less(k1, k2)
    ensures Above(k2, lower, inclusive)
  {
    Mixed(lower, k1, k2);
  }

  lemma {:induction false} Position(keys: seq<string>, lower: string, inclusive: bool) returns (n: nat)
    requires Sorted(keys)
    ensures At(keys, n, lower, inclusive)
  {
    if |keys| == 0 || !Above(keys[|keys| - 1], lower, inclusive) {
      n := |keys|;
      forall i | 0 <= i < n ensures !Above(keys[i], lower, inclusive) {
        if i < |keys| - 1 && Above(keys[i], lower, inclusive) {
          AboveGrows(keys[i], keys[|keys| - 1], lower, inclusive);
        }
      }
    } else {
      n := Position(keys[..|keys| - 1], lower, inclusive);
      forall i | n <= i < |keys| ensures Above(keys[i], lower, inclusive) {
        assert i < |keys| - 1 ==> keys[..|keys| - 1][i] == keys[i];
      }
      forall i | 0 <= i < n ensures !Above(keys[i], lower, inclusive) {
        assert keys[..|keys| - 1][i] == keys[i];
      }
    }
  }

  /** The selected rows are the matching keys above the bound. */
  lemma {:induction false} RowsAreASuffix(keys: seq<string>, prefix: string, lower: string, inclusive: bool, n: nat)
    requires Sorted(keys) && At(Matching(keys, prefix), n, lower, inclusive)
    ensures Rows(keys, prefix, lower, inclusive) == Matching(keys, prefix)[n..]
  {
    if |keys| > 0 {
      var init, last := keys[..|keys| - 1], keys[|keys| - 1];
      var all, before := Matching(keys, prefix), Matching(init, prefix);
      SelectedMeans(last, prefix, lower, inclusive);
      if prefix <= last {
        assert all == before + [last];
        assert all[|before|] == last;
        assert forall i :: 0 <= i < |before| ==> all[i] == before[i];
        if n == |all| {
          assert At(before, |before|, lower, inclusive);
          RowsAreASuffix(init, prefix, lower, inclusive, |before|);
        } else {
          assert At(before, n, lower, inclusive);
          RowsAreASuffix(init, prefix, lower, inclusive, n);
        }
      } else {
        assert all == before;
        RowsAreASuffix(init, prefix, lower, inclusive, n);
      }
    }
  }

  lemma {:induction false} MatchingIsSorted(keys: seq<string>, prefix: string)
    requires Sorted(keys)
    ensures Sorted(Matching(keys, prefix)) && AllStart(Matching(keys, prefix), prefix)
    ensures forall k :: k in Matching(keys, prefix) <==> k in keys && prefix <= k
  {
    if |keys| > 0 {
      var init, last := keys[..|keys| - 1], keys[|keys| - 1];
      MatchingIsSorted(init, prefix);
      var before := Matching(init, prefix);
      assert keys == init + [last];
      forall i | 0 <= i < |before| ensures Less(before[i], last) {
        assert before[i] in init;
        var j :| 0 <= j < |init| && init[j] == before[i];
        assert keys[j] == init[j];
      }
    }
  }
}
