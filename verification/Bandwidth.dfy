/** The bandwidth schedule: each grant takes the next free slot of the line, or is refused and takes nothing. */
module Bandwidth {
  import opened Prelude

  type Duration = d: real | d >= 0.0

  /** One call: the clock reading it brings, taken before the lock, and the longest wait it accepts. */
  datatype Call = Call(now: real, bytes: nat, maxWait: Option<Duration>)

  /** A granted stretch of the line. */
  datatype Slot = Slot(start: real, bytes: nat)

  function Time(bytes: nat, rate: nat): real
    requires rate > 0
  {
    bytes as real / rate as real
  }

  function End(s: Slot, rate: nat): real
    requires rate > 0
  {
    s.start + Time(s.bytes, rate)
  }

  function StartFor(next: Option<real>, now: real): real {
    if next.Some? && next.value > now then next.value else now
  }

  function FreeAfter(rate: nat, next: Option<real>, c: Call): real
    requires rate > 0
  {
    End(Slot(StartFor(next, c.now), c.bytes), rate)
  }

  predicate Granted(next: Option<real>, c: Call) {
    c.maxWait.Some? ==> StartFor(next, c.now) - c.now <= c.maxWait.value
  }

  class RateSchedule {
    var next: Option<real>

    constructor ()
      ensures next == None
    {
      next := None;
    }

    /**
     * The wait that the caller must observe, or `None` when it is longer than the caller accepts. With a poisoned lock
     * the schedule is out of reach and the caller waits for the time of its own bytes.
     */
    method Reserve(rate: nat, bytes: nat, maxWait: Option<Duration>, now: real, poisoned: bool) returns (wait: Option<real>)
      modifies this
      ensures rate == 0 ==> wait == Some(0.0) && next == old(next)
      ensures rate > 0 && poisoned ==> wait == Some(Time(bytes, rate)) && next == old(next)
      ensures rate > 0 && !poisoned ==>
        var call := Call(now, bytes, maxWait);
        && (wait.Some? <==> Granted(old(next), call))
        && (wait.Some? ==> wait.value == StartFor(old(next), now) - now)
        && next == Run(rate, old(next), [call]).1
      ensures rate > 0 && !poisoned ==>
        var delay := if old(next).Some? && old(next).value > now then old(next).value - now else 0.0;
        && (wait.None? <==> maxWait.Some? && delay > maxWait.value)
        && (if wait.None? then next == old(next)
            else wait.value == delay && next == Some(now + delay + bytes as real / rate as real))
    {
      if rate == 0 {
        return Some(0.0);
      }
      var duration := Time(bytes, rate);
      if poisoned {
        return Some(duration);
      }
      var start := if next.Some? && next.value > now then next.value else now;
      var delay := start - now;
      Single(rate, next, Call(now, bytes, maxWait));
      if maxWait.Some? && delay > maxWait.value {
        return None;
      }
      next := Some(start + duration);
      return Some(delay);
    }
  }

  // ---- whole runs ----

  /** The slots that a run of calls is granted, in order, and the schedule it leaves. */
  function Run(rate: nat, next: Option<real>, calls: seq<Call>): (seq<Slot>, Option<real>)
    requires rate > 0
    decreases |calls|
  {
    if |calls| == 0 then ([], next)
    else
      var c := calls[0];
      if !Granted(next, c) then Run(rate, next, calls[1..])
      else
        var slot := Slot(StartFor(next, c.now), c.bytes);
        var (slots, last) := Run(rate, Some(FreeAfter(rate, next, c)), calls[1..]);
        ([slot] + slots, last)
  }

  lemma Single(rate: nat, next: Option<real>, c: Call)
    requires rate > 0
    ensures Run(rate, next, [c]).1
      == if Granted(next, c) then Some(FreeAfter(rate, next, c)) else next
  {
  }

  /**
   * What the last call of a run gets: it is refused exactly when it would have waited longer than it accepts, and
   * otherwise its slot begins at its own clock reading, or where the line becomes free if that is later.
   */
  lemma {:induction false} LastCall(rate: nat, next: Option<real>, calls: seq<Call>, c: Call)
    requires rate > 0
    ensures var (slots, last) := Run(rate, next, calls);
      var delay := if last.Some? && last.value > c.now then last.value - c.now else 0.0;
      Run(rate, next, calls + [c])
      == if c.maxWait.Some? && delay > c.maxWait.value then (slots, last)
         else (slots + [Slot(c.now + delay, c.bytes)], Some(c.now + delay + c.bytes as real / rate as real))
    decreases |calls|
  {
    var all := calls + [c];
    if calls == [] {
      var slot := Slot(StartFor(next, c.now), c.bytes);
      assert all == [c] && all[1..] == [];
      assert Run(rate, Some(FreeAfter(rate, next, c)), []).0 == [];
      assert [slot] + [] == [] + [slot];
    } else {
      var first, rest := calls[0], calls[1..];
      assert all[0] == first && all[1..] == rest + [c];
      if Granted(next, first) {
        var then' := Some(FreeAfter(rate, next, first));
        var slots, last := Run(rate, then', rest).0, Run(rate, then', rest).1;
        LastCall(rate, then', rest, c);
        var delay := if last.Some? && last.value > c.now then last.value - c.now else 0.0;
        var slot, more := Slot(StartFor(next, first.now), first.bytes), Slot(c.now + delay, c.bytes);
        assert [slot] + (slots + [more]) == ([slot] + slots) + [more];
      } else {
        LastCall(rate, next, rest, c);
      }
    }
  }

  /** No slot begins before the line is free. */
  lemma {:induction false} SlotsFollow(rate: nat, next: Option<real>, calls: seq<Call>, i: nat)
    requires rate > 0 && i < |Run(rate, next, calls).0|
    ensures next.Some? ==> next.value <= Run(rate, next, calls).0[i].start
    decreases |calls|
  {
    var c := calls[0];
    if !Granted(next, c) {
      SlotsFollow(rate, next, calls[1..], i);
    } else if i > 0 {
      SlotsFollow(rate, Some(FreeAfter(rate, next, c)), calls[1..], i - 1);
    }
  }

  /** Two granted slots never overlap, whatever the clock readings are and in whatever order they come. */
  lemma {:induction false} SlotsAreDisjoint(rate: nat, next: Option<real>, calls: seq<Call>, i: nat, j: nat)
    requires rate > 0 && i < j < |Run(rate, next, calls).0|
    ensures End(Run(rate, next, calls).0[i], rate) <= Run(rate, next, calls).0[j].start
    decreases |calls|
  {
    var c := calls[0];
    if !Granted(next, c) {
      SlotsAreDisjoint(rate, next, calls[1..], i, j);
    } else {
      var then' := Some(FreeAfter(rate, next, c));
      if i == 0 {
        SlotsFollow(rate, then', calls[1..], j - 1);
      } else {
        SlotsAreDisjoint(rate, then', calls[1..], i - 1, j - 1);
      }
    }
  }

  /** The calls that were granted. */
  function Accepted(rate: nat, next: Option<real>, calls: seq<Call>): seq<Call>
    requires rate > 0
    decreases |calls|
  {
    if |calls| == 0 then []
    else
      var c := calls[0];
      if !Granted(next, c) then Accepted(rate, next, calls[1..])
      else [c] + Accepted(rate, Some(FreeAfter(rate, next, c)), calls[1..])
  }

  /** Refused calls leave no trace: without them the same slots are granted, and every remaining call is granted. */
  lemma {:induction false} RefusedCallsChangeNothing(rate: nat, next: Option<real>, calls: seq<Call>)
    requires rate > 0
    ensures Run(rate, next, Accepted(rate, next, calls)) == Run(rate, next, calls)
    ensures |Run(rate, next, calls).0| == |Accepted(rate, next, calls)|
    decreases |calls|
  {
    if |calls| > 0 {
      var c := calls[0];
      if !Granted(next, c) {
        RefusedCallsChangeNothing(rate, next, calls[1..]);
      } else {
        var then' := Some(FreeAfter(rate, next, c));
        RefusedCallsChangeNothing(rate, then', calls[1..]);
        assert Accepted(rate, next, calls)[1..] == Accepted(rate, then', calls[1..]);
      }
    }
  }

  /**
   * A granted call waits no longer than it accepts and never gets a slot in its past; a slot later than the call's
   * own clock reading begins exactly where the line became free, so no capacity is lost.
   */
  lemma {:induction false} GrantsAreTimely(rate: nat, next: Option<real>, calls: seq<Call>, i: nat)
    requires rate > 0 && i < |Run(rate, next, calls).0|
    ensures |Accepted(rate, next, calls)| == |Run(rate, next, calls).0|
    ensures var c, slots := Accepted(rate, next, calls)[i], Run(rate, next, calls).0;
      && slots[i].bytes == c.bytes && c.now <= slots[i].start
      && (c.maxWait.Some? ==> slots[i].start - c.now <= c.maxWait.value)
      && (slots[i].start > c.now ==>
        if i > 0 then slots[i].start == slots[i - 1].start + slots[i - 1].bytes as real / rate as real
        else next == Some(slots[0].start))
    decreases |calls|
  {
    RefusedCallsChangeNothing(rate, next, calls);
    var c := calls[0];
    if !Granted(next, c) {
      GrantsAreTimely(rate, next, calls[1..], i);
    } else if i > 0 {
      GrantsAreTimely(rate, Some(FreeAfter(rate, next, c)), calls[1..], i - 1);
    }
  }

  // ---- the rate bound ----

  /** Bytes of the slots that begin in the window. */
  function BytesIn(slots: seq<Slot>, from: real, to: real): nat {
    if |slots| == 0 then 0
    else
      var s := slots[|slots| - 1];
      BytesIn(slots[..|slots| - 1], from, to) + if from <= s.start <= to then s.bytes else 0
  }

  /** Each slot that begins in the window counts with its bytes, and no other does. */
  lemma {:induction false} BytesInSplit(a: seq<Slot>, b: seq<Slot>, s: Slot, from: real, to: real)
    ensures BytesIn([s], from, to) == if from <= s.start <= to then s.bytes else 0
    ensures BytesIn(a + b, from, to) == BytesIn(a, from, to) + BytesIn(b, from, to)
    decreases |b|
  {
    assert [s][..0] == [];
    if b == [] {
      assert a + b == a;
    } else {
      var init := b[..|b| - 1];
      BytesInSplit(a, init, s, from, to);
      assert (a + b)[..|a + b| - 1] == a + init;
    }
  }

  ghost predicate Disjoint(slots: seq<Slot>, rate: nat)
    requires rate > 0
  {
    forall i, j :: 0 <= i < j < |slots| ==> End(slots[i], rate) <= slots[j].start
  }

  lemma TimesAdd(a: nat, b: nat, rate: nat)
    requires rate > 0
    ensures Time(a + b, rate) == Time(a, rate) + Time(b, rate)
  {
  }

  /** At most what the rate allows in the stretch, and one more reservation. */
  predicate WithinRate(total: nat, one: nat, stretch: real, rate: nat) {
    total as real <= rate as real * stretch + one as real
  }

  /** `total` bytes that fit a stretch of line and one more slot. */
  lemma BytesFit(total: nat, one: nat, stretch: real, rate: nat)
    requires rate > 0 && Time(total, rate) <= stretch + Time(one, rate)
    ensures WithinRate(total, one, stretch, rate)
  {
  }

  /** The line is busy from the start of the window to the end of the last slot that begins in it, at least in sum. */
  lemma {:induction false} FilledUpTo(slots: seq<Slot>, rate: nat, from: real, to: real) returns (k: nat)
    requires rate > 0 && Disjoint(slots, rate)
    ensures BytesIn(slots, from, to) > 0 ==>
      && k < |slots| && from <= slots[k].start <= to
      && Time(BytesIn(slots, from, to), rate) <= End(slots[k], rate) - from
  {
    if |slots| == 0 {
      k := 0;
    } else {
      var n := |slots| - 1;
      k := FilledUpTo(slots[..n], rate, from, to);
      if from <= slots[n].start <= to {
        TimesAdd(BytesIn(slots[..n], from, to), slots[n].bytes, rate);
        k := n;
      }
    }
  }

  lemma WindowBound(slots: seq<Slot>, rate: nat, from: real, to: real) returns (k: nat)
    requires rate > 0 && Disjoint(slots, rate)
    ensures BytesIn(slots, from, to) > 0 ==>
      && k < |slots| && from <= slots[k].start <= to
      && Time(BytesIn(slots, from, to), rate) <= (to - from) + Time(slots[k].bytes, rate)
  {
    k := FilledUpTo(slots, rate, from, to);
  }

  lemma RunIsDisjoint(rate: nat, next: Option<real>, calls: seq<Call>)
    requires rate > 0
    ensures Disjoint(Run(rate, next, calls).0, rate)
  {
    var slots := Run(rate, next, calls).0;
    forall i, j | 0 <= i < j < |slots| ensures End(slots[i], rate) <= slots[j].start {
      SlotsAreDisjoint(rate, next, calls, i, j);
    }
  }

  lemma WindowBytes(slots: seq<Slot>, rate: nat, from: real, length: real) returns (k: nat)
    requires rate > 0 && Disjoint(slots, rate)
    ensures BytesIn(slots, from, from + length) > 0 ==>
      && k < |slots| && from <= slots[k].start <= from + length
      && WithinRate(BytesIn(slots, from, from + length), slots[k].bytes, length, rate)
  {
    k := WindowBound(slots, rate, from, from + length);
    if BytesIn(slots, from, from + length) > 0 {
      BytesFit(BytesIn(slots, from, from + length), slots[k].bytes, length, rate);
    }
  }

  /** In any window, the bytes of all slots that begin in it exceed what the rate allows by at most one of them. */
  lemma RateBound(rate: nat, next: Option<real>, calls: seq<Call>, from: real, length: real) returns (k: nat)
    requires rate > 0
    ensures var slots := Run(rate, next, calls).0;
      BytesIn(slots, from, from + length) > 0 ==>
        && k < |slots| && from <= slots[k].start <= from + length
        && WithinRate(BytesIn(slots, from, from + length), slots[k].bytes, length, rate)
  {
    RunIsDisjoint(rate, next, calls);
    k := WindowBytes(Run(rate, next, calls).0, rate, from, length);
  }
}
