/** The order of object keys: UTF-8 bytes in SQLite, code points here, and why they agree. */
module KeyOrder {
  import opened Prelude

  /** Lexicographic order by code point. */
  predicate Less(s: string, t: string) {
    |t| > 0 && (|s| == 0 || s[0] < t[0] || (s[0] == t[0] && Less(s[1..], t[1..])))
  }

  predicate LessEq(s: string, t: string) {
    s == t || Less(s, t)
  }

  lemma {:induction false} Irreflexive(s: string)
    ensures !Less(s, s)
  {
    if |s| > 0 {
      Irreflexive(s[1..]);
    }
  }

  lemma {:induction false} Transitive(s: string, t: string, u: string)
    requires Less(s, t) && Less(t, u)
    ensures Less(s, u)
  {
    if |s| > 0 && s[0] == t[0] == u[0] {
      Transitive(s[1..], t[1..], u[1..]);
    }
  }

  lemma {:induction false} Total(s: string, t: string)
    ensures Less(s, t) || s == t || Less(t, s)
    ensures !(Less(s, t) && Less(t, s))
  {
    if |s| > 0 && |t| > 0 && s[0] == t[0] {
      Total(s[1..], t[1..]);
      assert s == [s[0]] + s[1..] && t == [t[0]] + t[1..];
    }
  }

  lemma Mixed(s: string, t: string, u: string)
    ensures LessEq(s, t) && Less(t, u) ==> Less(s, u)
    ensures Less(s, t) && LessEq(t, u) ==> Less(s, u)
    ensures LessEq(s, t) && LessEq(t, u) ==> LessEq(s, u)
    ensures !Less(s, t) <==> LessEq(t, s)
  {
    Total(s, t);
    Irreflexive(s);
    if Less(s, t) && Less(t, u) {
      Transitive(s, t, u);
    }
  }

  lemma {:induction false} PrefixIsBelow(p: string, k: string)
    requires p <= k
    ensures LessEq(p, k)
  {
    if |p| == 0 {
    } else {
      PrefixIsBelow(p[1..], k[1..]);
      assert k == [k[0]] + k[1..] && p == [p[0]] + p[1..];
    }
  }

  // ---- UTF-8 (section 3 of RFC 3629) ----

  function EncodeChar(c: char): seq<nat> {
    var n := c as int;
    if n < 0x80 then [n]
    else if n < 0x800 then [0xC0 + n / 0x40, 0x80 + n % 0x40]
    else if n < 0x1_0000 then [0xE0 + n / 0x1000, 0x80 + n / 0x40 % 0x40, 0x80 + n % 0x40]
    else [0xF0 + n / 0x4_0000, 0x80 + n / 0x1000 % 0x40, 0x80 + n / 0x40 % 0x40, 0x80 + n % 0x40]
  }

  function Utf8(s: string): seq<nat> {
    if |s| == 0 then [] else EncodeChar(s[0]) + Utf8(s[1..])
  }

  predicate Trail(b: nat) {
    0x80 <= b < 0xC0
  }

  /** The lead byte tells how many bytes follow, and their payloads make up the code point (section 3 of RFC 3629). */
  lemma EncodedChar(c: char)
    ensures var e, n := EncodeChar(c), c as int;
      if n < 0x80 then e == [n]
      else if n < 0x800 then
        |e| == 2 && 0xC0 <= e[0] < 0xE0 && Trail(e[1]) && n == (e[0] - 0xC0) * 64 + (e[1] - 0x80)
      else if n < 0x1_0000 then
        && |e| == 3 && 0xE0 <= e[0] < 0xF0 && Trail(e[1]) && Trail(e[2])
        && n == (e[0] - 0xE0) * 4096 + (e[1] - 0x80) * 64 + (e[2] - 0x80)
      else
        && |e| == 4 && 0xF0 <= e[0] < 0xF8 && Trail(e[1]) && Trail(e[2]) && Trail(e[3])
        && n == (e[0] - 0xF0) * 262_144 + (e[1] - 0x80) * 4096 + (e[2] - 0x80) * 64 + (e[3] - 0x80)
  {
    var n := c as int;
    Base64(n);
    Base64(n / 64);
    Base64(n / 4096);
    DivDiv(n);
  }

  lemma Base64(n: int)
    requires n >= 0
    ensures n == n / 64 * 64 + n % 64 && 0 <= n % 64 < 64
  {
  }

  lemma DivDiv(n: int)
    requires n >= 0
    ensures n / 64 / 64 == n / 4096 && n / 4096 / 64 == n / 262_144
  {
  }

  predicate BytesLess(a: seq<nat>, b: seq<nat>) {
    |b| > 0 && (|a| == 0 || a[0] < b[0] || (a[0] == b[0] && BytesLess(a[1..], b[1..])))
  }

  lemma {:induction false} CommonStart(x: seq<nat>, a: seq<nat>, b: seq<nat>)
    ensures BytesLess(x + a, x + b) <==> BytesLess(a, b)
  {
    if |x| == 0 {
      assert x + a == a && x + b == b;
    } else {
      CommonStart(x[1..], a, b);
      assert (x + a)[1..] == x[1..] + a && (x + b)[1..] == x[1..] + b;
    }
  }

  /** Two byte sequences that differ first at `i`, whatever follows. */
  lemma DecidedAt(a: seq<nat>, b: seq<nat>, i: nat)
    requires i < |a| && i < |b| && a[..i] == b[..i] && a[i] < b[i]
    ensures BytesLess(a, b)
  {
    CommonStart(a[..i], a[i..], b[i..]);
    assert a == a[..i] + a[i..] && b == b[..i] + b[i..];
  }

  /** Encodings of different characters are ordered like the characters, and neither starts the other. */
  lemma CharOrder(c: char, d: char, x: seq<nat>, y: seq<nat>)
    requires c < d
    ensures BytesLess(EncodeChar(c) + x, EncodeChar(d) + y)
  {
    var a, b := EncodeChar(c), EncodeChar(d);
    var i := FirstDifference(c, d);
    assert (a + x)[..i] == a[..i] && (b + y)[..i] == b[..i];
    DecidedAt(a + x, b + y, i);
  }

  /** Numbers that agree above their last base-64 digit differ in that digit. */
  lemma LastDigit(m: nat, n: nat)
    requires m < n && m / 0x40 == n / 0x40
    ensures m % 0x40 < n % 0x40
  {
  }

  lemma HigherDigits(m: nat)
    ensures m / 0x40 / 0x40 == m / 0x1000
    ensures m / 0x1000 / 0x40 == m / 0x4_0000
  {
  }

  ghost predicate DifferFirstAt(a: seq<nat>, b: seq<nat>, i: nat) {
    i < |a| && i < |b| && a[..i] == b[..i] && a[i] < b[i]
  }

  lemma FirstDifference(c: char, d: char) returns (i: nat)
    requires c < d
    ensures DifferFirstAt(EncodeChar(c), EncodeChar(d), i)
  {
    if |EncodeChar(c)| < |EncodeChar(d)| || |EncodeChar(c)| == 1 {
      i := 0;
    } else if |EncodeChar(c)| == 2 {
      i := FirstOfTwo(c, d);
    } else if |EncodeChar(c)| == 3 {
      i := FirstOfThree(c, d);
    } else {
      i := FirstOfFour(c, d);
    }
  }

  lemma FirstOfTwo(c: char, d: char) returns (i: nat)
    requires c < d && |EncodeChar(c)| == |EncodeChar(d)| == 2
    ensures DifferFirstAt(EncodeChar(c), EncodeChar(d), i)
  {
    var m, n := c as int, d as int;
    if m / 0x40 == n / 0x40 {
      LastDigit(m, n);
      i := 1;
    } else {
      i := 0;
    }
  }

  lemma FirstOfThree(c: char, d: char) returns (i: nat)
    requires c < d && |EncodeChar(c)| == |EncodeChar(d)| == 3
    ensures DifferFirstAt(EncodeChar(c), EncodeChar(d), i)
  {
    var m, n := c as int, d as int;
    HigherDigits(m);
    HigherDigits(n);
    if m / 0x40 == n / 0x40 {
      LastDigit(m, n);
      i := 2;
    } else if m / 0x1000 == n / 0x1000 {
      LastDigit(m / 0x40, n / 0x40);
      i := 1;
    } else {
      i := 0;
    }
  }

  lemma FirstOfFour(c: char, d: char) returns (i: nat)
    requires c < d && |EncodeChar(c)| == |EncodeChar(d)| == 4
    ensures DifferFirstAt(EncodeChar(c), EncodeChar(d), i)
  {
    var m, n := c as int, d as int;
    HigherDigits(m);
    HigherDigits(n);
    if m / 0x40 == n / 0x40 {
      LastDigit(m, n);
      i := 3;
    } else if m / 0x1000 == n / 0x1000 {
      LastDigit(m / 0x40, n / 0x40);
      i := 2;
    } else if m / 0x4_0000 == n / 0x4_0000 {
      LastDigit(m / 0x1000, n / 0x1000);
      i := 1;
    } else {
      i := 0;
    }
  }

  lemma {:induction false} LessGivesBytesLess(s: string, t: string)
    requires Less(s, t)
    ensures BytesLess(Utf8(s), Utf8(t))
  {
    if |s| > 0 {
      if s[0] < t[0] {
        CharOrder(s[0], t[0], Utf8(s[1..]), Utf8(t[1..]));
      } else {
        LessGivesBytesLess(s[1..], t[1..]);
        CommonStart(EncodeChar(s[0]), Utf8(s[1..]), Utf8(t[1..]));
      }
    }
  }

  lemma {:induction false} BytesAsymmetric(a: seq<nat>, b: seq<nat>)
    ensures !(BytesLess(a, b) && BytesLess(b, a))
  {
    if |a| > 0 && |b| > 0 && a[0] == b[0] {
      BytesAsymmetric(a[1..], b[1..]);
    }
  }

  /** Comparing UTF-8 bytes is comparing code points. */
  lemma Utf8PreservesOrder(s: string, t: string)
    ensures BytesLess(Utf8(s), Utf8(t)) <==> Less(s, t)
  {
    Total(s, t);
    BytesAsymmetric(Utf8(s), Utf8(t));
    if Less(s, t) {
      LessGivesBytesLess(s, t);
    } else if Less(t, s) {
      LessGivesBytesLess(t, s);
    }
  }

  // ---- the successor of a prefix ----

  /** The next Unicode scalar value, jumping over the surrogates. */
  function NextChar(c: char): Option<char> {
    var n := c as int + 1;
    var n' := if 0xD800 <= n <= 0xDFFF then 0xE000 else n;
    if n' > 0x10FFFF then None else Some(n' as char)
  }

  function Successor(p: string): Option<string> {
    if |p| == 0 then None
    else
      match NextChar(p[|p| - 1])
      case Some(c) => Some(p[..|p| - 1] + [c])
      case None => Successor(p[..|p| - 1])
  }

  /** The loop that pops characters until one has a next character. */
  method KeySuccessor(value: string) returns (r: Option<string>)
    ensures r == Successor(value)
  {
    var characters := value;
    while |characters| > 0
      invariant Successor(value) == Successor(characters)
      decreases |characters|
    {
      var last := characters[|characters| - 1];
      characters := characters[..|characters| - 1];
      var next := NextChar(last);
      if next.Some? {
        return Some(characters + [next.value]);
      }
    }
    return None;
  }

  lemma NoCharBetween(c: char, d: char)
    ensures NextChar(c).Some? ==> (d < NextChar(c).value <==> d <= c)
    ensures NextChar(c).None? ==> d <= c
  {
  }

  /** The keys between a prefix and its successor are exactly those that start with it. */
  lemma {:induction false} RangeIsPrefix(p: string, k: string)
    ensures p <= k <==> LessEq(p, k) && (Successor(p).Some? ==> Less(k, Successor(p).value))
  {
    if |p| == 0 {
    } else if |k| == 0 {
    } else if k[0] != p[0] {
      FirstCharDecides(p, k);
    } else {
      TailRange(p, k);
    }
  }

  lemma {:induction false} FirstCharDecides(p: string, k: string)
    requires |p| > 0 && |k| > 0 && k[0] != p[0]
    ensures !(LessEq(p, k) && (Successor(p).Some? ==> Less(k, Successor(p).value)))
  {
    if |p| == 1 {
      NoCharBetween(p[0], k[0]);
      assert p[..0] == [];
    } else {
      var init := p[..|p| - 1];
      assert init[0] == p[0];
      if NextChar(p[|p| - 1]).None? {
        FirstCharDecides(init, k);
        assert LessEq(p, k) ==> LessEq(init, k);
      } else {
        assert Successor(p).value[0] == p[0];
      }
    }
  }

  lemma {:induction false} SuccessorOfTail(p: string)
    requires |p| > 1
    ensures Successor(p[1..]).Some? ==> Successor(p) == Some([p[0]] + Successor(p[1..]).value)
    ensures Successor(p[1..]).None? ==> Successor(p) == Successor([p[0]])
  {
    var init := p[..|p| - 1];
    assert p[1..][..|p| - 2] == init[1..];
    if NextChar(p[|p| - 1]).None? {
      if |p| > 2 {
        SuccessorOfTail(init);
      } else {
        assert init == [p[0]];
        assert init[1..] == [];
      }
    } else {
      var c := NextChar(p[|p| - 1]).value;
      assert init == [p[0]] + init[1..];
      assert Successor(p[1..]) == Some(init[1..] + [c]);
      assert [p[0]] + (init[1..] + [c]) == init + [c];
    }
  }

  lemma {:induction false} TailRange(p: string, k: string)
    requires |p| > 0 && |k| > 0 && k[0] == p[0]
    ensures p <= k <==> LessEq(p, k) && (Successor(p).Some? ==> Less(k, Successor(p).value))
    decreases |p|
  {
    assert p == [p[0]] + p[1..] && k == [k[0]] + k[1..];
    assert p <= k <==> p[1..] <= k[1..];
    assert LessEq(p, k) <==> LessEq(p[1..], k[1..]);
    if |p| == 1 {
      NoCharBetween(p[0], k[0]);
      assert p[..0] == [];
      PrefixIsBelow(p, k);
    } else {
      SuccessorOfTail(p);
      if k[1..] == "" {
        assert !(p <= k) && !LessEq(p, k);
      } else if k[1] != p[1] {
        FirstCharDecides(p[1..], k[1..]);
      } else {
        TailRange(p[1..], k[1..]);
      }
      if Successor(p[1..]).Some? {
        assert Successor(p).value[1..] == Successor(p[1..]).value;
      } else if Successor([p[0]]).Some? {
        NoCharBetween(p[0], k[0]);
        assert [p[0]][..0] == [];
      }
    }
  }

  /** `u` is above every string that starts with `p`. */
  ghost predicate Bounds(p: string, u: string) {
    forall k :: p <= k ==> Less(k, u)
  }

  /** The successor is above every string with the prefix, and no smaller string is. */
  lemma SuccessorIsLeastBound(p: string, u: string)
    requires Successor(p).Some?
    ensures Bounds(p, Successor(p).value)
    ensures Bounds(p, u) ==> LessEq(Successor(p).value, u)
  {
    var b := Successor(p).value;
    forall k | p <= k ensures Less(k, b) {
      RangeIsPrefix(p, k);
    }
    if Bounds(p, u) {
      Mixed(u, b, b);
      RangeIsPrefix(p, u);
      Irreflexive(u);
      assert Less(p, u);
    }
  }

  /** There is no successor exactly when no string is above all strings with the prefix. */
  lemma NoSuccessorMeansNoBound(p: string)
    ensures Successor(p).None? <==> forall u :: !Bounds(p, u)
  {
    if Successor(p).None? {
      forall u ensures !Bounds(p, u) {
        NotBounded(p, u);
      }
    } else {
      SuccessorIsLeastBound(p, "");
    }
  }

  lemma NotBounded(p: string, u: string)
    requires Successor(p).None?
    ensures !Bounds(p, u)
  {
    RangeIsPrefix(p, u);
    Irreflexive(u);
    Total(p, u);
    if p <= u {
      assert !Less(u, u);
    } else {
      assert p <= p && !Less(p, u);
    }
  }
}
