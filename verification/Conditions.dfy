/** Conditional request headers (sections 13.1.1 and 13.1.2 of RFC 9110) as evaluated against a stored ETag. */
module Conditions {
  import opened Prelude
  import opened Text

  /** `char::is_whitespace`: the Unicode White_Space property. */
  predicate IsWhitespace(c: char) {
    var n := c as int;
    9 <= n <= 13 || n == 0x20 || n == 0x85 || n == 0xA0 || n == 0x1680 || 0x2000 <= n <= 0x200A
    || n == 0x2028 || n == 0x2029 || n == 0x202F || n == 0x205F || n == 0x3000
  }

  function TrimStart(s: string, drop: char -> bool): (r: string)
    ensures |r| <= |s|
  {
    if s != "" && drop(s[0]) then TrimStart(s[1..], drop) else s
  }

  function TrimEnd(s: string, drop: char -> bool): (r: string)
    ensures |r| <= |s|
  {
    if s != "" && drop(s[|s| - 1]) then TrimEnd(s[..|s| - 1], drop) else s
  }

  function Trim(s: string, drop: char -> bool): string {
    TrimEnd(TrimStart(s, drop), drop)
  }

  predicate IsQuote(c: char) {
    c == '"'
  }

  function NormalizeEtag(value: string): string {
    Trim(Trim(value, IsWhitespace), IsQuote)
  }

  predicate EtagMatches(value: string, etag: Option<string>) {
    match etag
    case None => false
    case Some(current) =>
      value == "*" || exists candidate :: candidate in Split(value, ',') && NormalizeEtag(candidate) == current
  }

  datatype Condition = Condition(ifMatch: Option<string>, ifNoneMatch: Option<string>) {
    predicate Allows(etag: Option<string>) {
      && (ifMatch.Some? ==> EtagMatches(ifMatch.value, etag))
      && (ifNoneMatch.Some? ==> !EtagMatches(ifNoneMatch.value, etag))
    }
  }

  const CREATE_ONLY := Condition(None, Some("*"))

  const UNCONDITIONAL := Condition(None, None)

  /** A bare entity tag: what is stored as an ETag, and what a header quotes. */
  predicate BareEtag(e: string) {
    && e != "" && ',' !in e && '"' !in e
    && !IsWhitespace(e[0]) && !IsWhitespace(e[|e| - 1])
  }

  function Quoted(e: string): string {
    "\"" + e + "\""
  }

  /** Optional whitespace (section 5.6.3 of RFC 9110). */
  predicate Blank(s: string) {
    forall i :: 0 <= i < |s| ==> s[i] == ' ' || s[i] == '\t'
  }

  lemma {:induction false} TrimStartDrops(before: string, rest: string, drop: char -> bool)
    requires forall i :: 0 <= i < |before| ==> drop(before[i])
    requires rest != "" && !drop(rest[0])
    ensures TrimStart(before + rest, drop) == rest
  {
    if before == "" {
      assert before + rest == rest;
    } else {
      TrimStartDrops(before[1..], rest, drop);
      assert (before + rest)[1..] == before[1..] + rest;
    }
  }

  lemma {:induction false} TrimEndDrops(rest: string, after: string, drop: char -> bool)
    requires forall i :: 0 <= i < |after| ==> drop(after[i])
    requires rest != "" && !drop(rest[|rest| - 1])
    ensures TrimEnd(rest + after, drop) == rest
  {
    if after == "" {
      assert rest + after == rest;
    } else {
      var init := after[..|after| - 1];
      TrimEndDrops(rest, init, drop);
      assert (rest + after)[..|rest + after| - 1] == rest + init;
    }
  }

  lemma TrimDrops(before: string, middle: string, after: string, drop: char -> bool)
    requires forall i :: 0 <= i < |before| ==> drop(before[i])
    requires forall i :: 0 <= i < |after| ==> drop(after[i])
    requires middle != "" && !drop(middle[0]) && !drop(middle[|middle| - 1])
    ensures Trim(before + middle + after, drop) == middle
  {
    assert before + middle + after == before + (middle + after);
    TrimStartDrops(before, middle + after, drop);
    TrimEndDrops(middle, after, drop);
  }

  /** What is dropped stands before and after, and what is left neither begins nor ends with it. */
  ghost predicate Around(s: string, before: string, middle: string, after: string, drop: char -> bool) {
    && s == before + middle + after
    && (forall i :: 0 <= i < |before| ==> drop(before[i])) && (forall i :: 0 <= i < |after| ==> drop(after[i]))
    && (middle != "" ==> !drop(middle[0]) && !drop(middle[|middle| - 1]))
  }

  ghost predicate Strips(s: string, middle: string, drop: char -> bool) {
    exists before, after :: Around(s, before, middle, after, drop)
  }

  lemma {:induction false} StartOf(s: string, drop: char -> bool) returns (before: string)
    ensures s == before + TrimStart(s, drop) && forall i :: 0 <= i < |before| ==> drop(before[i])
    ensures TrimStart(s, drop) != "" ==> !drop(TrimStart(s, drop)[0])
  {
    before := "";
    if s != "" && drop(s[0]) {
      before := StartOf(s[1..], drop);
      before := [s[0]] + before;
    }
  }

  lemma {:induction false} EndOf(s: string, drop: char -> bool) returns (after: string)
    ensures s == TrimEnd(s, drop) + after && forall i :: 0 <= i < |after| ==> drop(after[i])
    ensures TrimEnd(s, drop) != "" ==> !drop(TrimEnd(s, drop)[|TrimEnd(s, drop)| - 1])
  {
    after := "";
    if s != "" && drop(s[|s| - 1]) {
      after := EndOf(s[..|s| - 1], drop);
      after := after + [s[|s| - 1]];
    }
  }

  lemma TrimStrips(s: string, drop: char -> bool)
    ensures Strips(s, Trim(s, drop), drop)
  {
    var before := StartOf(s, drop);
    var after := EndOf(TrimStart(s, drop), drop);
    assert Around(s, before, Trim(s, drop), after, drop);
  }

  /** Trimming is the only way to strip all of it. */
  lemma TrimIff(s: string, middle: string, drop: char -> bool)
    ensures middle == Trim(s, drop) <==> Strips(s, middle, drop)
  {
    TrimStrips(s, drop);
    if before, after :| Around(s, before, middle, after, drop) {
      if middle != "" {
        TrimDrops(before, middle, after, drop);
      } else {
        var b, a :| Around(s, b, Trim(s, drop), a, drop);
        assert forall i :: 0 <= i < |s| ==> drop(s[i]);
        assert Trim(s, drop) != "" ==> s[|b|] == Trim(s, drop)[0];
      }
    }
  }

  /** A normalized ETag is the value without the whitespace around it and then without the quotes around that. */
  lemma NormalizeMeans(value: string, core: string)
    ensures core == NormalizeEtag(value)
      <==> exists inner :: Strips(value, inner, IsWhitespace) && Strips(inner, core, IsQuote)
  {
    var inner := Trim(value, IsWhitespace);
    TrimIff(value, inner, IsWhitespace);
    TrimIff(inner, core, IsQuote);
    forall other | Strips(value, other, IsWhitespace) ensures other == inner {
      TrimIff(value, other, IsWhitespace);
    }
  }

  /** Normalizing undoes quoting and drops the whitespace around a tag. */
  lemma QuotedNormalizes(before: string, e: string, after: string)
    requires Blank(before) && Blank(after) && BareEtag(e)
    ensures NormalizeEtag(before + Quoted(e) + after) == e
    ensures NormalizeEtag(before + e + after) == e
  {
    var q := Quoted(e);
    assert q[0] == '"' && q[|q| - 1] == '"';
    assert e[0] != '"' && e[|e| - 1] != '"';
    TrimDrops(before, q, after, IsWhitespace);
    TrimDrops(before, e, after, IsWhitespace);
    TrimDrops("\"", e, "\"", IsQuote);
    TrimDrops("", e, "", IsQuote);
    assert "" + e + "" == e;
  }

  /** The field holds the tag, quoted or bare, with optional whitespace around it. */
  predicate Holds(field: string, before: string, tag: string, after: string) {
    && Blank(before) && Blank(after) && BareEtag(tag)
    && (field == before + Quoted(tag) + after || (field == before + tag + after && tag != "*"))
  }

  /** `fields` list `tags`, one each. */
  ghost predicate ListOf(fields: seq<string>, tags: seq<string>) {
    && |fields| == |tags| > 0
    && forall i :: 0 <= i < |tags| ==> exists before, after :: Holds(fields[i], before, tags[i], after)
  }

  /** A header that lists tags matches exactly the tags it lists. */
  lemma HeaderListMatchesItsTags(fields: seq<string>, tags: seq<string>, etag: string)
    requires ListOf(fields, tags)
    ensures EtagMatches(Join(fields, ','), Some(etag)) <==> etag in tags
  {
    forall i | 0 <= i < |tags| ensures NormalizeEtag(fields[i]) == tags[i] && ',' !in fields[i] && fields[i] != "*" {
      var before, after :| Holds(fields[i], before, tags[i], after);
      FieldOfTag(fields[i], before, tags[i], after);
    }
    SplitJoin(fields, ',');
    NoStar(fields);
    if etag in tags {
      var i :| 0 <= i < |tags| && tags[i] == etag;
      assert fields[i] in fields;
    }
  }

  lemma FieldOfTag(field: string, before: string, tag: string, after: string)
    requires Holds(field, before, tag, after)
    ensures NormalizeEtag(field) == tag && ',' !in field && field != "*"
  {
    QuotedNormalizes(before, tag, after);
  }

  lemma NoStar(fields: seq<string>)
    requires |fields| > 0 && forall f :: f in fields ==> ',' !in f && f != "*"
    ensures Join(fields, ',') != "*"
  {
    SplitJoin(fields, ',');
    SplitWhole("*", ',');
    assert fields[0] in fields && "*" in ["*"];
  }

  /**
   * What a condition allows (sections 13.1.1 and 13.1.2 of RFC 9110): If-Match only an object with one of the listed
   * tags, If-None-Match anything but that, `*` standing for every object, and two headers what both allow.
   */
  lemma ConditionsMean(fields: seq<string>, tags: seq<string>, etag: Option<string>, a: string, b: string)
    requires ListOf(fields, tags)
    ensures Condition(Some(Join(fields, ',')), None).Allows(etag) <==> etag.Some? && etag.value in tags
    ensures Condition(None, Some(Join(fields, ','))).Allows(etag) <==> etag.None? || etag.value !in tags
    ensures Condition(Some("*"), None).Allows(etag) <==> etag.Some?
    ensures Condition(None, Some("*")).Allows(etag) <==> etag.None?
    ensures Condition(Some(a), Some(b)).Allows(etag)
      <==> Condition(Some(a), None).Allows(etag) && Condition(None, Some(b)).Allows(etag)
    ensures Condition(None, None).Allows(etag)
  {
    if etag.Some? {
      HeaderListMatchesItsTags(fields, tags, etag.value);
    }
  }

  /** Create-only writes are allowed exactly when no object is stored; if-match never is then. */
  lemma CreateOnlyMeansAbsent(etag: Option<string>, list: string)
    ensures CREATE_ONLY.Allows(etag) <==> etag.None?
    ensures Condition(Some(list), None).Allows(etag) ==> etag.Some?
    ensures UNCONDITIONAL.Allows(etag)
  {
  }
}
