/** Result types, machine integers and the string operations shared by the other modules. */
module Prelude {

  datatype Option<+T> = None | Some(value: T) {
    function GetOr(other: T): T {
      if Some? then value else other
    }
  }

  datatype Result<+T, +E> = Ok(value: T) | Err(error: E)

  const I64_MAX: int := 0x7FFF_FFFF_FFFF_FFFF

  /** A signed 64-bit integer: an arithmetic result is only assignable after proving that it does not overflow. */
  type i64 = x: int | -0x8000_0000_0000_0000 <= x <= 0x7FFF_FFFF_FFFF_FFFF

  /** `checked_add`: None on overflow. */
  function CheckedAdd(a: i64, b: i64): Option<i64> {
    if -0x8000_0000_0000_0000 <= a + b <= I64_MAX then Some(a + b) else None
  }

  function Min(a: int, b: int): int {
    if a <= b then a else b
  }

  function Max(a: int, b: int): int {
    if a <= b then b else a
  }
}

/** Rearranging sequences. */
module Permutations {

  lemma HeadAndTail<T>(s: seq<T>)
    requires s != []
    ensures multiset(s) == multiset{s[0]} + multiset(s[1..])
  {
    assert s == [s[0]] + s[1..];
  }

  lemma SameLength<T>(a: seq<T>, b: seq<T>)
    requires multiset(a) == multiset(b)
    ensures |a| == |b| && forall x :: x in a <==> x in b
  {
    assert |multiset(a)| == |a| && |multiset(b)| == |b|;
    assert forall x :: x in a <==> x in multiset(a);
    assert forall x :: x in b <==> x in multiset(b);
  }

  /** Permutations with the same head have permuted tails. */
  lemma TailsPermute<T>(a: seq<T>, b: seq<T>)
    requires multiset(a) == multiset(b) && a != [] && b != [] && a[0] == b[0]
    ensures multiset(a[1..]) == multiset(b[1..])
  {
    HeadAndTail(a);
    HeadAndTail(b);
    assert multiset(a[1..]) == multiset(a) - multiset{a[0]};
    assert multiset(b[1..]) == multiset(b) - multiset{b[0]};
  }
}

/** Splitting and joining on a separator character. */
module Text {

  /** The fields of `s` between the occurrences of `c`, as `str::split` yields them; never empty. */
  function Split(s: string, c: char): (fields: seq<string>)
    ensures |fields| > 0
  {
    if s == "" then [""]
    else
      var rest := Split(s[1..], c);
      if s[0] == c then [""] + rest
      else [[s[0]] + rest[0]] + rest[1..]
  }

  function Join(fields: seq<string>, c: char): string
  {
    if |fields| == 0 then ""
    else if |fields| == 1 then fields[0]
    else fields[0] + [c] + Join(fields[1..], c)
  }

  lemma {:induction false} SplitFirst(f: string, c: char, tail: string)
    requires c !in f
    ensures Split(f + [c] + tail, c) == [f] + Split(tail, c)
  {
    if f == "" {
      assert f + [c] + tail == [c] + tail;
    } else {
      SplitFirst(f[1..], c, tail);
      assert (f + [c] + tail)[1..] == f[1..] + [c] + tail;
      assert [f[0]] + f[1..] == f;
    }
  }

  lemma {:induction false} SplitWhole(f: string, c: char)
    requires c !in f
    ensures Split(f, c) == [f]
  {
    if f != "" {
      SplitWhole(f[1..], c);
      assert [f[0]] + f[1..] == f;
    }
  }

  /** Splitting undoes joining when no field contains the separator. */
  lemma {:induction false} SplitJoin(fields: seq<string>, c: char)
    requires |fields| > 0
    requires forall f :: f in fields ==> c !in f
    ensures Split(Join(fields, c), c) == fields
  {
    if |fields| == 1 {
      SplitWhole(fields[0], c);
    } else {
      SplitFirst(fields[0], c, Join(fields[1..], c));
      SplitJoin(fields[1..], c);
      assert [fields[0]] + fields[1..] == fields;
    }
  }
}
