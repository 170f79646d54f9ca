/** The canonical query string of AWS Signature Version 4: one string per multiset of parameters. */
module CanonicalQuery {
  import opened Permutations
  import opened Text
  import opened KeyOrder

  datatype Param = Param(key: string, value: string)

  // ---- percent-encoding (sections 2.1 and 2.3 of RFC 3986) ----

  predicate Unreserved(b: nat) {
    || ('0' as int <= b <= '9' as int) || ('A' as int <= b <= 'Z' as int) || ('a' as int <= b <= 'z' as int)
    || b == '-' as int || b == '_' as int || b == '.' as int || b == '~' as int
  }

  const HEX := "0123456789ABCDEF"

  function EncodeByte(b: nat): string
    requires b < 256
  {
    if Unreserved(b) then [b as char] else ['%', HEX[b / 16], HEX[b % 16]]
  }

  /** An uppercase hexadecimal digit. */
  predicate IsHex(c: char, d: int) {
    || (0 <= d < 10 && c == '0' + d as char)
    || (10 <= d < 16 && c == 'A' + (d - 10) as char)
  }

  /** Letters, digits and four marks stand for themselves; every other byte is '%' and its two uppercase digits. */
  lemma ByteMeans(b: nat)
    requires b < 256
    ensures var e, c := EncodeByte(b), b as char;
      if '0' <= c <= '9' || 'A' <= c <= 'Z' || 'a' <= c <= 'z' || c in "-._~" then e == [c]
      else |e| == 3 && e[0] == '%' && IsHex(e[1], b / 16) && IsHex(e[2], b % 16)
  {
    HexIsHex(b / 16);
    HexIsHex(b % 16);
  }

  lemma HexIsHex(d: nat)
    requires d < 16
    ensures IsHex(HEX[d], d)
  {
  }

  predicate AreBytes(bs: seq<nat>) {
    forall i :: 0 <= i < |bs| ==> bs[i] < 256
  }

  function Encoded(bs: seq<nat>): string
    requires AreBytes(bs)
  {
    if |bs| == 0 then "" else EncodeByte(bs[0]) + Encoded(bs[1..])
  }

  lemma {:induction false} Utf8GivesBytes(s: string)
    ensures AreBytes(Utf8(s))
  {
    if |s| > 0 {
      Utf8GivesBytes(s[1..]);
    }
  }

  function Escape(value: string): string {
    Utf8GivesBytes(value);
    Encoded(Utf8(value))
  }

  lemma EncodedStep(bs: seq<nat>, i: nat)
    requires AreBytes(bs) && i < |bs|
    ensures Encoded(bs[i..]) == EncodeByte(bs[i]) + Encoded(bs[i + 1..])
  {
  }

  method PushByte(before: string, b: nat) returns (output: string)
    requires b < 256
    ensures output == before + EncodeByte(b)
  {
    if Unreserved(b) {
      output := before + [b as char];
    } else {
      output := before + ['%'];
      output := output + [HEX[b / 16]];
      output := output + [HEX[b % 16]];
    }
  }

  method EncodeBytes(bytes: seq<nat>) returns (output: string)
    requires AreBytes(bytes)
    ensures output == Encoded(bytes)
  {
    output := "";
    for i := 0 to |bytes|
      invariant output + Encoded(bytes[i..]) == Encoded(bytes)
    {
      EncodedStep(bytes, i);
      output := PushByte(output, bytes[i]);
    }
  }

  method AwsEncode(value: string) returns (output: string)
    ensures output == Escape(value)
  {
    Utf8GivesBytes(value);
    output := EncodeBytes(Utf8(value));
  }

  function HexValue(c: char): nat {
    if '0' <= c <= '9' then c as int - '0' as int
    else if 'A' <= c <= 'F' then c as int - 'A' as int + 10
    else 0
  }

  /** Percent-decoding: the inverse of the encoding. */
  function Decode(s: string): seq<nat> {
    if |s| == 0 then []
    else if s[0] == '%' && |s| >= 3 then [16 * HexValue(s[1]) + HexValue(s[2])] + Decode(s[3..])
    else [s[0] as int] + Decode(s[1..])
  }

  lemma HexRoundTrip(d: nat)
    requires d < 16
    ensures HexValue(HEX[d]) == d
    ensures HEX[d] != '&' && HEX[d] != '='
  {
  }

  lemma DecodeByte(b: nat, rest: string)
    requires b < 256
    ensures Decode(EncodeByte(b) + rest) == [b] + Decode(rest)
  {
    var s := EncodeByte(b) + rest;
    if Unreserved(b) {
      assert s[1..] == rest;
    } else {
      HexRoundTrip(b / 16);
      HexRoundTrip(b % 16);
      assert s[3..] == rest;
    }
  }

  lemma {:induction false} DecodeEncoded(bs: seq<nat>)
    requires AreBytes(bs)
    ensures Decode(Encoded(bs)) == bs
  {
    if |bs| > 0 {
      DecodeByte(bs[0], Encoded(bs[1..]));
      DecodeEncoded(bs[1..]);
    }
  }

  /** Different strings have different encodings. */
  lemma EscapeIsInjective(s: string, t: string)
    requires Escape(s) == Escape(t)
    ensures s == t
  {
    Utf8GivesBytes(s);
    Utf8GivesBytes(t);
    DecodeEncoded(Utf8(s));
    DecodeEncoded(Utf8(t));
    Utf8PreservesOrder(s, t);
    Utf8PreservesOrder(t, s);
    Total(s, t);
    BytesIrreflexive(Utf8(s));
  }

  lemma {:induction false} BytesIrreflexive(a: seq<nat>)
    ensures !BytesLess(a, a)
  {
    if |a| > 0 {
      BytesIrreflexive(a[1..]);
    }
  }

  lemma {:induction false} EncodedIsPlain(bs: seq<nat>)
    requires AreBytes(bs)
    ensures '&' !in Encoded(bs) && '=' !in Encoded(bs)
  {
    if |bs| > 0 {
      EncodedIsPlain(bs[1..]);
      if !Unreserved(bs[0]) {
        HexRoundTrip(bs[0] / 16);
        HexRoundTrip(bs[0] % 16);
      }
    }
  }

  /** The separators of the query never appear in an encoded key or value. */
  lemma EscapeIsPlain(s: string)
    ensures '&' !in Escape(s) && '=' !in Escape(s)
  {
    Utf8GivesBytes(s);
    EncodedIsPlain(Utf8(s));
  }

  // ---- the canonical form ----

  function Lower(c: char): char {
    if 'A' <= c <= 'Z' then c + 32 as char else c
  }

  predicate EqIgnoreAsciiCase(s: string, t: string) {
    |s| == |t| && forall i :: 0 <= i < |s| ==> Lower(s[i]) == Lower(t[i])
  }

  /** The signature itself is not signed: a presigned request drops it. */
  function Kept(query: seq<Param>, omitSignature: bool): seq<Param> {
    if |query| == 0 then []
    else
      (if omitSignature && EqIgnoreAsciiCase(query[0].key, "X-Amz-Signature") then [] else [query[0]])
      + Kept(query[1..], omitSignature)
  }

  function Escaped(p: Param): Param {
    Param(Escape(p.key), Escape(p.value))
  }

  function EscapeAll(params: seq<Param>): seq<Param> {
    if |params| == 0 then [] else [Escaped(params[0])] + EscapeAll(params[1..])
  }

  predicate Before(p: Param, q: Param) {
    Less(p.key, q.key) || (p.key == q.key && LessEq(p.value, q.value))
  }

  function Insert(p: Param, sorted: seq<Param>): seq<Param> {
    if |sorted| == 0 then [p]
    else if Before(p, sorted[0]) then [p] + sorted
    else [sorted[0]] + Insert(p, sorted[1..])
  }

  function Sort(params: seq<Param>): seq<Param> {
    if |params| == 0 then [] else Insert(params[0], Sort(params[1..]))
  }

  function Pairs(params: seq<Param>): seq<string> {
    if |params| == 0 then [] else [params[0].key + ['='] + params[0].value] + Pairs(params[1..])
  }

  function Canonical(query: seq<Param>, omitSignature: bool): string {
    Join(Pairs(Sort(EscapeAll(Kept(query, omitSignature)))), '&')
  }

  // ---- sorting is canonical ----

  predicate InOrder(params: seq<Param>) {
    forall i, j :: 0 <= i < j < |params| ==> Before(params[i], params[j])
  }

  lemma BeforeIsATotalOrder(p: Param, q: Param, r: Param)
    ensures Before(p, q) || Before(q, p)
    ensures Before(p, q) && Before(q, p) ==> p == q
    ensures Before(p, q) && Before(q, r) ==> Before(p, r)
  {
    Total(p.key, q.key);
    Total(p.value, q.value);
    Mixed(p.key, q.key, r.key);
    Mixed(p.value, q.value, r.value);
    Irreflexive(p.key);
  }

  lemma InOrderCons(p: Param, sorted: seq<Param>)
    requires InOrder(sorted) && (sorted == [] || Before(p, sorted[0]))
    ensures InOrder([p] + sorted)
  {
    forall j | 0 <= j < |sorted| ensures Before(p, sorted[j]) {
      BeforeIsATotalOrder(p, sorted[0], sorted[j]);
    }
  }

  lemma {:induction false} InsertPermutes(p: Param, sorted: seq<Param>)
    ensures multiset(Insert(p, sorted)) == multiset{p} + multiset(sorted)
  {
    if |sorted| > 0 && !Before(p, sorted[0]) {
      InsertPermutes(p, sorted[1..]);
      HeadAndTail(sorted);
    }
  }

  lemma {:induction false} InsertSorts(p: Param, sorted: seq<Param>)
    requires InOrder(sorted)
    ensures InOrder(Insert(p, sorted))
  {
    if |sorted| > 0 {
      if Before(p, sorted[0]) {
        InOrderCons(p, sorted);
      } else {
        InsertSorts(p, sorted[1..]);
        BeforeIsATotalOrder(p, sorted[0], p);
        InOrderCons(sorted[0], Insert(p, sorted[1..]));
      }
    }
  }

  lemma {:induction false} SortSorts(params: seq<Param>)
    ensures InOrder(Sort(params)) && multiset(Sort(params)) == multiset(params)
  {
    if |params| > 0 {
      SortSorts(params[1..]);
      InsertSorts(params[0], Sort(params[1..]));
      InsertPermutes(params[0], Sort(params[1..]));
      assert params == [params[0]] + params[1..];
    }
  }

  lemma HeadIsLeast(sorted: seq<Param>, p: Param)
    requires InOrder(sorted) && p in sorted
    ensures Before(sorted[0], p)
  {
  }

  lemma HeadsAgree(a: seq<Param>, b: seq<Param>)
    requires InOrder(a) && InOrder(b) && multiset(a) == multiset(b) && a != [] && b != []
    ensures a[0] == b[0]
  {
    SameLength(a, b);
    HeadIsLeast(a, b[0]);
    HeadIsLeast(b, a[0]);
    BeforeIsATotalOrder(a[0], b[0], a[0]);
  }

  /** Only one order of the same parameters is sorted. */
  lemma {:induction false} SortedIsUnique(a: seq<Param>, b: seq<Param>)
    requires InOrder(a) && InOrder(b) && multiset(a) == multiset(b)
    ensures a == b
  {
    SameLength(a, b);
    if |a| > 0 {
      HeadsAgree(a, b);
      TailsPermute(a, b);
      SortedIsUnique(a[1..], b[1..]);
      assert a == [a[0]] + a[1..] && b == [b[0]] + b[1..];
    }
  }

  // ---- encoding keeps multisets apart ----

  lemma EscapedIsInjective(p: Param, q: Param)
    ensures Escaped(p) == Escaped(q) <==> p == q
  {
    if Escaped(p) == Escaped(q) {
      EscapeIsInjective(p.key, q.key);
      EscapeIsInjective(p.value, q.value);
    }
  }

  lemma CountOne(params: seq<Param>, p: Param)
    requires params != []
    ensures multiset(params)[p] == (if params[0] == p then 1 else 0) + multiset(params[1..])[p]
  {
    assert params == [params[0]] + params[1..];
  }

  lemma {:induction false} EscapeKeepsCounts(params: seq<Param>, p: Param)
    ensures multiset(EscapeAll(params))[Escaped(p)] == multiset(params)[p]
  {
    if |params| > 0 {
      EscapeKeepsCounts(params[1..], p);
      EscapedIsInjective(params[0], p);
      CountOne(params, p);
      assert EscapeAll(params)[0] == Escaped(params[0]) && EscapeAll(params)[1..] == EscapeAll(params[1..]);
      CountOne(EscapeAll(params), Escaped(p));
    }
  }

  lemma {:induction false} EscapeAllMembers(params: seq<Param>, e: Param)
    requires e in EscapeAll(params)
    ensures exists p :: p in params && Escaped(p) == e
  {
    if e == Escaped(params[0]) {
    } else {
      EscapeAllMembers(params[1..], e);
      var p :| p in params[1..] && Escaped(p) == e;
      assert p in params;
    }
  }

  lemma EscapeAllIsPermutationInvariant(a: seq<Param>, b: seq<Param>)
    ensures multiset(EscapeAll(a)) == multiset(EscapeAll(b)) <==> multiset(a) == multiset(b)
  {
    var ea, eb := multiset(EscapeAll(a)), multiset(EscapeAll(b));
    if multiset(a) == multiset(b) {
      forall e ensures ea[e] == eb[e] {
        if e in ea {
          EscapeAllMembers(a, e);
        } else if e in eb {
          EscapeAllMembers(b, e);
        }
        if p :| Escaped(p) == e {
          EscapeKeepsCounts(a, p);
          EscapeKeepsCounts(b, p);
        }
      }
    }
    if ea == eb {
      forall p ensures multiset(a)[p] == multiset(b)[p] {
        EscapeKeepsCounts(a, p);
        EscapeKeepsCounts(b, p);
      }
    }
  }

  // ---- joining loses nothing ----

  predicate Plain(p: Param) {
    '&' !in p.key && '=' !in p.key && '&' !in p.value && '=' !in p.value
  }

  /** A pair is cut at its only '='. */
  lemma PairIsInjective(p: Param, q: Param)
    requires Plain(p) && Plain(q)
    requires p.key + ['='] + p.value == q.key + ['='] + q.value
    ensures p == q
  {
    SplitFirst(p.key, '=', p.value);
    SplitFirst(q.key, '=', q.value);
    SplitWhole(p.value, '=');
    SplitWhole(q.value, '=');
    assert [p.key] + [p.value] == [q.key] + [q.value];
    assert p.key == ([p.key] + [p.value])[0] && p.value == ([p.key] + [p.value])[1];
  }

  lemma {:induction false} PairsAreInjective(a: seq<Param>, b: seq<Param>)
    requires forall p :: p in a + b ==> Plain(p)
    requires Pairs(a) == Pairs(b)
    ensures a == b
  {
    if a != [] && b != [] {
      assert a[0] in a + b && b[0] in a + b;
      assert Pairs(a)[0] == Pairs(b)[0] && Pairs(a)[1..] == Pairs(b)[1..];
      PairIsInjective(a[0], b[0]);
      PairsAreInjective(a[1..], b[1..]);
      assert a == [a[0]] + a[1..] && b == [b[0]] + b[1..];
    }
  }

  lemma {:induction false} PairsHaveNoAmpersand(params: seq<Param>)
    requires forall p :: p in params ==> Plain(p)
    ensures |Pairs(params)| == |params|
    ensures forall s :: s in Pairs(params) ==> '&' !in s && s != ""
  {
    if params != [] {
      PairsHaveNoAmpersand(params[1..]);
      assert params[0] in params;
    }
  }

  lemma JoinIsEmptyIff(params: seq<Param>)
    requires forall p :: p in params ==> Plain(p)
    ensures Join(Pairs(params), '&') == "" <==> params == []
  {
  }

  lemma JoinIsInjective(a: seq<Param>, b: seq<Param>)
    requires forall p :: p in a + b ==> Plain(p)
    requires Join(Pairs(a), '&') == Join(Pairs(b), '&')
    ensures a == b
  {
    assert forall p :: p in a ==> p in a + b;
    assert forall p :: p in b ==> p in a + b;
    JoinIsEmptyIff(a);
    JoinIsEmptyIff(b);
    if a != [] {
      PairsHaveNoAmpersand(a);
      PairsHaveNoAmpersand(b);
      SplitJoin(Pairs(a), '&');
      SplitJoin(Pairs(b), '&');
      PairsAreInjective(a, b);
    }
  }

  lemma SortedEscapesArePlain(params: seq<Param>)
    ensures forall e :: e in Sort(EscapeAll(params)) ==> Plain(e)
  {
    SortSorts(EscapeAll(params));
    forall e | e in Sort(EscapeAll(params)) ensures Plain(e) {
      assert e in multiset(EscapeAll(params));
      EscapeAllMembers(params, e);
      var p :| p in params && Escaped(p) == e;
      EscapeIsPlain(p.key);
      EscapeIsPlain(p.value);
    }
  }

  /** Two queries have the same canonical string exactly when the signed parameters are permutations of each other. */
  lemma CanonicalIffPermutation(a: seq<Param>, b: seq<Param>, omitSignature: bool)
    ensures Canonical(a, omitSignature) == Canonical(b, omitSignature)
      <==> multiset(Kept(a, omitSignature)) == multiset(Kept(b, omitSignature))
  {
    var ka, kb := Kept(a, omitSignature), Kept(b, omitSignature);
    var sa, sb := Sort(EscapeAll(ka)), Sort(EscapeAll(kb));
    SortSorts(EscapeAll(ka));
    SortSorts(EscapeAll(kb));
    EscapeAllIsPermutationInvariant(ka, kb);
    if multiset(ka) == multiset(kb) {
      SortedIsUnique(sa, sb);
    }
    if Canonical(a, omitSignature) == Canonical(b, omitSignature) {
      SortedEscapesArePlain(ka);
      SortedEscapesArePlain(kb);
      JoinIsInjective(sa, sb);
    }
  }

  /** The parameters whose escapes are these. */
  lemma {:induction false} Unescaped(params: seq<Param>, escaped: seq<Param>) returns (order: seq<Param>)
    requires forall e :: e in escaped ==> e in EscapeAll(params)
    ensures EscapeAll(order) == escaped
  {
    if escaped == [] {
      order := [];
    } else {
      EscapeAllMembers(params, escaped[0]);
      var p :| p in params && Escaped(p) == escaped[0];
      var rest := Unescaped(params, escaped[1..]);
      order := [p] + rest;
      assert order[1..] == rest && escaped == [escaped[0]] + escaped[1..];
    }
  }

  lemma {:induction false} PairsAt(params: seq<Param>)
    ensures |Pairs(EscapeAll(params))| == |EscapeAll(params)| == |params|
    ensures forall i :: 0 <= i < |params| ==> EscapeAll(params)[i] == Escaped(params[i])
    ensures forall i :: 0 <= i < |params| ==>
      Pairs(EscapeAll(params))[i] == Escape(params[i].key) + "=" + Escape(params[i].value)
  {
    if params != [] {
      PairsAt(params[1..]);
      assert EscapeAll(params)[1..] == EscapeAll(params[1..]);
    }
  }

  /** In the order of their escaped keys, and of their escaped values where the keys are the same. */
  predicate EscapesAscend(p: Param, q: Param) {
    || Less(Escape(p.key), Escape(q.key))
    || (Escape(p.key) == Escape(q.key) && (Escape(p.value) == Escape(q.value) || Less(Escape(p.value), Escape(q.value))))
  }

  /** Cut at '&', the canonical string is the escaped parameters that are signed, each once, in order. */
  lemma CanonicalMeans(query: seq<Param>, omitSignature: bool) returns (order: seq<Param>)
    ensures multiset(order) == multiset(Kept(query, omitSignature))
    ensures forall i, j :: 0 <= i < j < |order| ==> EscapesAscend(order[i], order[j])
    ensures order == [] ==> Canonical(query, omitSignature) == ""
    ensures order != [] ==>
      var fields := Split(Canonical(query, omitSignature), '&');
      && |fields| == |order|
      && forall i :: 0 <= i < |order| ==> fields[i] == Escape(order[i].key) + "=" + Escape(order[i].value)
  {
    var kept := Kept(query, omitSignature);
    var sorted := Sort(EscapeAll(kept));
    SortSorts(EscapeAll(kept));
    SameLength(sorted, EscapeAll(kept));
    order := Unescaped(kept, sorted);
    EscapeAllIsPermutationInvariant(order, kept);
    PairsAt(order);
    forall i, j | 0 <= i < j < |order| ensures EscapesAscend(order[i], order[j]) {
      assert Before(sorted[i], sorted[j]);
    }
    SortedEscapesArePlain(kept);
    PairsHaveNoAmpersand(sorted);
    if order != [] {
      SplitJoin(Pairs(sorted), '&');
    }
  }

  lemma KeptUnfolds(query: seq<Param>, omitSignature: bool)
    requires |query| > 0
    ensures var dropped := omitSignature && EqIgnoreAsciiCase(query[0].key, "X-Amz-Signature");
      multiset(Kept(query, omitSignature))
      == multiset(Kept(query[1..], omitSignature)) + if dropped then multiset{} else multiset{query[0]}
  {
    var rest := Kept(query[1..], omitSignature);
    assert Kept(query, omitSignature) == rest || Kept(query, omitSignature) == [query[0]] + rest;
  }

  /** What is dropped for a presigned request: every spelling of the signature parameter, and nothing else. */
  lemma {:induction false} KeptMeans(query: seq<Param>, p: Param)
    ensures multiset(Kept(query, false)) == multiset(query)
    ensures multiset(Kept(query, true))[p] == if EqIgnoreAsciiCase(p.key, "X-Amz-Signature") then 0 else multiset(query)[p]
  {
    if |query| > 0 {
      KeptMeans(query[1..], p);
      assert query == [query[0]] + query[1..];
      assert multiset(query) == multiset{query[0]} + multiset(query[1..]);
      KeptUnfolds(query, true);
      KeptUnfolds(query, false);
    }
  }
}
