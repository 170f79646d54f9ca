/** The Range request header (section 14.1.2 of RFC 9110), and how the announced length compares with the body. */
module RangeHeader {
  import opened Prelude
  import opened Splitter
  import RoundTrip

  /** `start` and `end` are inclusive; `partial` says whether a range was asked for. */
  datatype Range = Range(start: int, end: int, partial: bool)

  predicate IsDigit(c: char) {
    '0' <= c <= '9'
  }

  function DigitsValue(s: string): Option<nat> {
    if |s| == 0 then None
    else
      var last := s[|s| - 1];
      if !IsDigit(last) then None
      else if |s| == 1 then Some(last as int - '0' as int)
      else
        match DigitsValue(s[..|s| - 1])
        case None => None
        case Some(n) => Some(10 * n + (last as int - '0' as int))
  }

  /** `str::parse::<i64>`: an optional sign, then digits, within range. */
  function ParseI64(s: string): Option<i64> {
    var negative := |s| > 0 && s[0] == '-';
    var digits := if |s| > 0 && (s[0] == '-' || s[0] == '+') then s[1..] else s;
    match DigitsValue(digits)
    case None => None
    case Some(n) =>
      var sign: int := if negative then -1 else 1;
      var value := sign * n;
      if -0x8000_0000_0000_0000 <= value <= I64_MAX then Some(value) else None
  }

  function FirstDash(s: string): (i: nat)
    ensures i <= |s|
    ensures forall k :: 0 <= k < i ==> s[k] != '-'
    ensures i < |s| ==> s[i] == '-'
  {
    if |s| == 0 || s[0] == '-' then 0 else 1 + FirstDash(s[1..])
  }

  const UNIT := "bytes="

  function ParseRange(value: Option<string>, size: i64): Result<Range, ()> {
    if size == 0 then Ok(Range(0, -1, false))
    else
      match value
      case None => Ok(Range(0, size - 1, false))
      case Some(text) =>
        if !(UNIT <= text) then Err(())
        else
          var spec := text[|UNIT|..];
          if ',' in spec then Err(())
          else
            var dash := FirstDash(spec);
            if dash == |spec| then Err(())
            else ParseBounds(spec[..dash], spec[dash + 1..], size)
  }

  function ParseBounds(first: string, last: string, size: i64): Result<Range, ()> {
    if first == "" then
      match ParseI64(last)
      case None => Err(())
      case Some(suffix) => if suffix <= 0 then Err(()) else Ok(Range(size - suffix, size - 1, true))
    else
      match ParseI64(first)
      case None => Err(())
      case Some(start) =>
        if start < 0 || start >= size then Err(())
        else if last == "" then Ok(Range(start, size - 1, true))
        else
          match ParseI64(last)
          case None => Err(())
          case Some(end) => if Min(end, size - 1) < start then Err(()) else Ok(Range(start, Min(end, size - 1), true))
  }

  // ---- printing numbers ----

  function Digit(d: nat): char
    requires d < 10
  {
    '0' + d as char
  }

  function Decimal(n: nat): (s: string)
    ensures |s| > 0 && forall i :: 0 <= i < |s| ==> IsDigit(s[i])
  {
    if n < 10 then [Digit(n)] else Decimal(n / 10) + [Digit(n % 10)]
  }

  lemma {:induction false} DecimalValue(n: nat)
    ensures DigitsValue(Decimal(n)) == Some(n)
  {
    if n >= 10 {
      DecimalValue(n / 10);
      var s := Decimal(n);
      assert s[..|s| - 1] == Decimal(n / 10);
    }
  }

  lemma DigitsParse(s: string, n: nat)
    requires s != "" && IsDigit(s[0]) && DigitsValue(s) == Some(n) && n <= I64_MAX
    ensures ParseI64(s) == Some(n)
  {
  }

  lemma DecimalParses(n: nat)
    requires n <= I64_MAX
    ensures ParseI64(Decimal(n)) == Some(n)
  {
    DecimalValue(n);
    DigitsParse(Decimal(n), n);
  }

  // ---- what counts as a number ----

  function Zeros(n: nat): string {
    seq(n, _ => '0')
  }

  /** `s` writes `n`: a sign or none, any number of zeros, and the decimal digits. */
  predicate Written(s: string, sign: string, zeros: nat, n: int) {
    && (sign == "" || sign == "+" || sign == "-")
    && (if sign == "-" then n <= 0 else n >= 0)
    && s == sign + Zeros(zeros) + Decimal(if n < 0 then -n else n)
  }

  /** `s` writes a number that fits 64 bits. */
  ghost predicate Numeral(s: string, n: int) {
    -0x8000_0000_0000_0000 <= n <= I64_MAX && exists sign, zeros :: Written(s, sign, zeros, n)
  }

  lemma {:induction false} LeadingZeros(zeros: nat, s: string)
    requires DigitsValue(s).Some?
    ensures DigitsValue(Zeros(zeros) + s) == DigitsValue(s)
    decreases |s| + zeros
  {
    var t := Zeros(zeros) + s;
    if zeros == 0 {
      assert t == s;
    } else if |s| == 1 {
      LeadingZeros(zeros - 1, "0");
      assert t[..|t| - 1] == Zeros(zeros - 1) + "0";
    } else {
      LeadingZeros(zeros, s[..|s| - 1]);
      assert t[..|t| - 1] == Zeros(zeros) + s[..|s| - 1];
    }
  }

  /** The digits of a number after its leading zeros. */
  lemma {:induction false} DigitsWritten(s: string, n: nat) returns (zeros: nat)
    requires DigitsValue(s) == Some(n)
    ensures s == Zeros(zeros) + Decimal(n)
  {
    var last := s[|s| - 1];
    if |s| == 1 {
      zeros := 0;
    } else {
      var init := s[..|s| - 1];
      var m := DigitsValue(init).value;
      zeros := DigitsWritten(init, m);
      assert s == init + [last];
      if m == 0 {
        zeros := zeros + 1;
        assert Zeros(zeros) == init;
      }
    }
  }

  lemma {:induction false} OnlyDigits(s: string)
    requires DigitsValue(s).Some?
    ensures forall i :: 0 <= i < |s| ==> IsDigit(s[i])
  {
    if |s| > 1 {
      OnlyDigits(s[..|s| - 1]);
    }
  }

  /** A sign in front of digits is taken off. */
  lemma SignedDigits(sign: string, digits: string, n: int)
    requires sign == "" || sign == "+" || sign == "-"
    requires n >= 0 && DigitsValue(digits) == Some(n)
    ensures var value: int := if sign == "-" then -n else n;
      ParseI64(sign + digits) == if -0x8000_0000_0000_0000 <= value <= I64_MAX then Some(value) else None
  {
    OnlyDigits(digits);
    var s := sign + digits;
    assert s[|sign|..] == digits;
    assert s[0] == if sign == "" then digits[0] else sign[0];
  }

  lemma NumeralParses(s: string, n: int)
    requires Numeral(s, n)
    ensures ParseI64(s) == Some(n)
  {
    var abs := if n < 0 then -n else n;
    var sign, zeros :| Written(s, sign, zeros, n);
    DecimalValue(abs);
    LeadingZeros(zeros, Decimal(abs));
    SignedDigits(sign, Zeros(zeros) + Decimal(abs), abs);
    assert s == sign + (Zeros(zeros) + Decimal(abs));
  }

  function SignOf(s: string): string {
    if |s| > 0 && (s[0] == '-' || s[0] == '+') then s[..1] else ""
  }

  lemma ParsedDigits(s: string, n: int)
    requires ParseI64(s) == Some(n)
    ensures -0x8000_0000_0000_0000 <= n <= I64_MAX
    ensures if SignOf(s) == "-" then n <= 0 else n >= 0
    ensures DigitsValue(s[|SignOf(s)|..]) == Some(if n < 0 then -n else n)
  {
  }

  lemma ParsedIsNumeral(s: string, n: int)
    requires ParseI64(s) == Some(n)
    ensures Numeral(s, n) && ',' !in s
  {
    ParsedDigits(s, n);
    var sign, digits := SignOf(s), s[|SignOf(s)|..];
    var zeros := DigitsWritten(digits, if n < 0 then -n else n);
    OnlyDigits(digits);
    assert s == sign + digits;
    assert sign == "" || sign == "+" || sign == "-";
    assert Written(s, sign, zeros, n);
  }

  /** The parser accepts exactly the numerals that fit, and gives their number. */
  lemma ParsesNumerals(s: string, n: int)
    ensures ParseI64(s) == Some(n) <==> Numeral(s, n)
    ensures ParseI64(s) == Some(n) ==> ',' !in s
  {
    if Numeral(s, n) {
      NumeralParses(s, n);
    }
    if ParseI64(s) == Some(n) {
      ParsedIsNumeral(s, n);
    }
  }

  // ---- what a header asks for ----

  /** The two bounds of a header ask for the positions start..=end of an object of `size` bytes. */
  ghost predicate BoundsAsk(first: string, last: string, size: int, start: int, end: int) {
    if first == "" then end == size - 1 && start < size && Numeral(last, size - start)
    else
      && Numeral(first, start) && 0 <= start < size
      && (if last == "" then end == size - 1
          else exists n :: Numeral(last, n) && n >= start && end == Min(n, size - 1))
  }

  /** The header is bytes=first-last, and asks for these positions. */
  ghost predicate Asks(text: string, size: int, start: int, end: int) {
    exists first, last :: AsksBy(text, first, last, size, start, end)
  }

  ghost predicate AsksBy(text: string, first: string, last: string, size: int, start: int, end: int) {
    text == "bytes=" + first + "-" + last && '-' !in first && BoundsAsk(first, last, size, start, end)
  }

  lemma BoundsParse(first: string, last: string, size: i64, start: int, end: int)
    requires size > 0
    ensures ParseBounds(first, last, size) == Ok(Range(start, end, true)) <==> BoundsAsk(first, last, size, start, end)
    ensures BoundsAsk(first, last, size, start, end) ==> ',' !in first && ',' !in last
    ensures ParseBounds(first, last, size).Ok? ==> ParseBounds(first, last, size).value.partial
  {
    if first == "" {
      ParsesNumerals(last, size - start);
    } else {
      ParsesNumerals(first, start);
      if 0 <= start < size {
        LastBound(last, size, start, end);
      }
    }
  }

  lemma LastBound(last: string, size: i64, start: int, end: int)
    requires 0 <= start < size
    ensures (ParseI64(last).Some? && Min(ParseI64(last).value, size - 1) >= start && end == Min(ParseI64(last).value, size - 1))
      <==> exists n :: Numeral(last, n) && n >= start && end == Min(n, size - 1)
  {
    if ParseI64(last).Some? {
      ParsesNumerals(last, ParseI64(last).value);
    }
    forall n | Numeral(last, n) ensures ParseI64(last) == Some(n) {
      ParsesNumerals(last, n);
    }
  }

  lemma DashAfter(s: string, t: string)
    requires '-' !in s
    ensures FirstDash(s + "-" + t) == |s|
  {
    var i := FirstDash(s + "-" + t);
    assert (s + "-" + t)[|s|] == '-';
    assert forall k :: 0 <= k < |s| ==> (s + "-" + t)[k] == s[k];
  }

  lemma SpecSplits(first: string, last: string, size: i64)
    requires '-' !in first && ',' !in first && ',' !in last && size > 0
    ensures ParseRange(Some(UNIT + first + "-" + last), size) == ParseBounds(first, last, size)
  {
    var text := UNIT + first + "-" + last;
    var spec := first + "-" + last;
    assert text == UNIT + spec;
    assert text[|UNIT|..] == spec;
    DashAfter(first, last);
    assert spec[..|first|] == first && spec[|first| + 1..] == last;
  }

  /** A header is understood exactly when it asks for some positions, and then as those; without one all is sent. */
  lemma ParsesWhatIsAsked(value: Option<string>, size: i64, start: int, end: int)
    requires size > 0
    ensures value.Some? ==> (ParseRange(value, size) == Ok(Range(start, end, true)) <==> Asks(value.value, size, start, end))
    ensures value.None? ==> ParseRange(value, size) == Ok(Range(0, size - 1, false))
    ensures ParseRange(value, size).Ok? ==> (ParseRange(value, size).value.partial <==> value.Some?)
  {
    if value.Some? {
      var text := value.value;
      forall first, last | AsksBy(text, first, last, size, start, end)
        ensures ParseRange(value, size) == Ok(Range(start, end, true))
      {
        BoundsParse(first, last, size, start, end);
        SpecSplits(first, last, size);
      }
      if ParseRange(value, size).Ok? {
        HeaderSplits(text, size);
        var spec := text[|UNIT|..];
        var dash := FirstDash(spec);
        BoundsParse(spec[..dash], spec[dash + 1..], size, start, end);
        assert BoundsAsk(spec[..dash], spec[dash + 1..], size, start, end) ==>
          AsksBy(text, spec[..dash], spec[dash + 1..], size, start, end);
      }
    }
  }

  lemma HeaderSplits(text: string, size: i64)
    requires size > 0 && ParseRange(Some(text), size).Ok?
    ensures UNIT <= text && FirstDash(text[|UNIT|..]) < |text[|UNIT|..]|
    ensures var spec := text[|UNIT|..]; var dash := FirstDash(spec);
      && text == "bytes=" + spec[..dash] + "-" + spec[dash + 1..] && '-' !in spec[..dash]
      && ParseRange(Some(text), size) == ParseBounds(spec[..dash], spec[dash + 1..], size)
  {
  }

  /** A printed range is understood: first-last, first-, and -suffix. */
  lemma PrintedRanges(a: nat, b: nat, size: i64)
    requires size > 0 && a <= I64_MAX && b <= I64_MAX
    ensures ParseRange(Some(UNIT + Decimal(a) + "-" + Decimal(b)), size)
         == if a < size && a <= b then Ok(Range(a, Min(b, size - 1), true)) else Err(())
    ensures ParseRange(Some(UNIT + Decimal(a) + "-" + ""), size)
         == if a < size then Ok(Range(a, size - 1, true)) else Err(())
    ensures ParseRange(Some(UNIT + "" + "-" + Decimal(b)), size)
         == if b > 0 then Ok(Range(size - b, size - 1, true)) else Err(())
  {
    DecimalParses(a);
    DecimalParses(b);
    SpecSplits(Decimal(a), Decimal(b), size);
    SpecSplits(Decimal(a), "", size);
    SpecSplits("", Decimal(b), size);
  }

  // ---- the announced length ----

  /** The Content-Length of the response, from the parsed range. */
  function AnnouncedLength(r: Range): int {
    r.end - r.start + 1
  }

  /** A suffix longer than the object: the parsed start is negative. */
  predicate LongSuffix(r: Range) {
    r.start < 0
  }

  lemma ParsedRangesAreBounded(value: Option<string>, size: i64)
    requires size > 0 && ParseRange(value, size).Ok?
    ensures var r := ParseRange(value, size).value;
      r.start <= r.end < size && 0 <= r.end
    ensures var r := ParseRange(value, size).value;
      LongSuffix(r) ==> r.partial && r.end == size - 1
  {
  }

  /** The number in a header of the form bytes=-n. */
  function SuffixOf(value: Option<string>): Option<i64> {
    if value.Some? && UNIT <= value.value && |value.value| > |UNIT| && value.value[|UNIT|] == '-'
    then ParseI64(value.value[|UNIT| + 1..])
    else None
  }

  /** A client asks for more last bytes than there are. */
  predicate AsksBeyondStart(value: Option<string>, size: i64) {
    SuffixOf(value).Some? && SuffixOf(value).value > size
  }

  /** The start is negative exactly for the headers that ask for a longer suffix than the object. */
  lemma LongSuffixIffAsked(value: Option<string>, size: i64)
    requires size > 0 && ParseRange(value, size).Ok?
    ensures LongSuffix(ParseRange(value, size).value) <==> AsksBeyondStart(value, size)
  {
    if value.Some? && UNIT <= value.value {
      var spec := value.value[|UNIT|..];
      var dash := FirstDash(spec);
      if dash < |spec| {
        assert dash == 0 <==> spec[0] == '-';
        assert spec[..dash] == "" <==> dash == 0;
        assert spec[1..] == value.value[|UNIT| + 1..];
      }
    }
  }

  /**
   * The body that is streamed for a range header is the announced number of bytes exactly when the header does not ask
   * for a suffix longer than the object; if it does, the whole object is streamed under a larger announced length.
   */
  lemma AnnouncedLengthIsExactIff(value: Option<string>, whole: Bytes)
    requires 0 < |whole| <= I64_MAX && ParseRange(value, |whole|).Ok?
    ensures var r := ParseRange(value, |whole|).value;
      && (|RoundTrip.Slice(whole, r.start, r.end)| == AnnouncedLength(r) <==> !AsksBeyondStart(value, |whole|))
      && (if AsksBeyondStart(value, |whole|)
          then RoundTrip.Slice(whole, r.start, r.end) == whole && AnnouncedLength(r) > |whole|
          else 0 <= r.start <= r.end < |whole| && RoundTrip.Slice(whole, r.start, r.end) == whole[r.start..r.end + 1])
  {
    ParsedRangesAreBounded(value, |whole|);
    LongSuffixIffAsked(value, |whole|);
  }

  /** The guard fails for a concrete request: the last five bytes of a three-byte object. */
  lemma LongSuffixOverstatesLength(whole: Bytes)
    requires |whole| == 3
    ensures ParseRange(Some("bytes=-5"), 3) == Ok(Range(-2, 2, true))
    ensures AnnouncedLength(Range(-2, 2, true)) == 5 && RoundTrip.Slice(whole, -2, 2) == whole
  {
  }
}
