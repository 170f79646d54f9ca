/**
 * The registry that upload tasks put their staged blocks in, and the guard that empties it when the upload fails,
 * is cancelled or is dropped. Tasks and guard run concurrently; each step below is one lock section or one await.
 */
module CleanupRegistry {
  type Ref = nat

  datatype Registry = Registry(closed: bool, references: seq<Ref>) {
    /** A closed registry refuses the block; its task then cleans it up at once. */
    function Push(r: Ref): Registry {
      if closed then this else this.(references := references + [r])
    }

    function Close(): Registry {
      this.(closed := true)
    }

    function Clear(): Registry {
      this.(references := [])
    }
  }

  // ---- the objects ----

  class UploadCleanup {
    var closed: bool
    var references: seq<Ref>
    /** The blocks that were given to a detached cleanup task. */
    var spawned: seq<Ref>

    ghost function View(): Registry
      reads this
    {
      Registry(closed, references)
    }

    constructor ()
      ensures View() == Registry(false, []) && spawned == []
    {
      closed, references, spawned := false, [], [];
    }

    method SpawnCleanup(rs: seq<Ref>)
      modifies this
      ensures View() == old(View()) && spawned == old(spawned) + rs
    {
      if rs == [] {
        return;
      }
      spawned := spawned + rs;
    }

    method Register(r: Ref)
      modifies this
      ensures View() == old(View()).Push(r)
      ensures closed == old(closed) && references == if closed then old(references) else old(references) + [r]
      ensures spawned == if old(closed) then old(spawned) + [r] else old(spawned)
    {
      var cleanupNow := closed;
      if !closed {
        references := references + [r];
      }
      if cleanupNow {
        SpawnCleanup([r]);
      }
    }

    method CloseAndTake() returns (taken: seq<Ref>)
      modifies this
      ensures View() == old(View()).Close().Clear() && closed && references == [] && taken == old(references) && spawned == old(spawned)
    {
      closed := true;
      taken, references := references, [];
    }

    method Close()
      modifies this
      ensures View() == old(View()).Close() && closed && references == old(references) && spawned == old(spawned)
    {
      closed := true;
    }

    method Clear()
      modifies this
      ensures View() == old(View()).Clear() && closed == old(closed) && references == [] && spawned == old(spawned)
    {
      references := [];
    }
  }

  class UploadCleanupGuard {
    const cleanup: UploadCleanup
    var armed: bool

    constructor ()
      ensures armed && fresh(cleanup) && cleanup.View() == Registry(false, []) && cleanup.spawned == []
    {
      cleanup := new UploadCleanup();
      armed := true;
    }

    /** Cleans every registered block itself, in order; nothing is left for `Drop`. */
    method Cleanup() returns (cleaned: seq<Ref>)
      modifies this, cleanup
      ensures cleaned == old(cleanup.references) && cleanup.View() == Registry(true, []) && !armed
      ensures cleanup.spawned == old(cleanup.spawned)
    {
      cleanup.Close();
      var snapshot := cleanup.references;
      cleaned := [];
      for i := 0 to |snapshot|
        invariant cleaned == snapshot[..i]
        invariant cleanup.View() == Registry(true, snapshot) && cleanup.spawned == old(cleanup.spawned)
      {
        cleaned := cleaned + [snapshot[i]];
      }
      cleanup.Clear();
      armed := false;
    }

    /** The upload succeeded: the blocks belong to the part now and nobody cleans them. */
    method Disarm()
      modifies this, cleanup
      ensures !armed && cleanup.View() == Registry(true, []) && cleanup.spawned == old(cleanup.spawned)
    {
      armed := false;
      var _ := cleanup.CloseAndTake();
    }

    /** What dropping the guard does: an armed guard hands everything to a detached task. */
    method Drop()
      modifies this, cleanup
      ensures !armed
      ensures if old(armed)
        then cleanup.View() == Registry(true, []) && cleanup.spawned == old(cleanup.spawned) + old(cleanup.references)
        else cleanup.View() == old(cleanup.View()) && cleanup.spawned == old(cleanup.spawned)
    {
      if !armed {
        return;
      }
      armed := false;
      var taken := cleanup.CloseAndTake();
      cleanup.SpawnCleanup(taken);
    }
  }

  // ---- every interleaving ----

  /** Where the guard is. It is armed in the first four places. */
  datatype Guard =
    | Working
    | Closed
    | Sweeping(todo: seq<Ref>)
    | Swept
    | Disarming
    | Dropping(taken: seq<Ref>)
    | Gone

  /**
   * `late` are the tasks that found the registry closed and have yet to spawn their own cleanup. The last three fields
   * are history: blocks ever registered, blocks whose cleanup ran to its end or was given to a detached task, and
   * blocks in the registry when the guard was disarmed.
   */
  datatype State = State(
    reg: Registry, guard: Guard, late: set<Ref>,
    registered: set<Ref>, handed: set<Ref>, kept: set<Ref>)

  datatype Event =
    | Register(r: Ref)
    | SpawnLate(r: Ref)
    | Close
    | Snapshot
    | FinishOne
    | Clear
    | Retire
    | Disarm
    | Release
    | Drop
    | SpawnTaken

  function Elements(rs: seq<Ref>): set<Ref> {
    set r | r in rs
  }

  predicate Armed(g: Guard) {
    g.Working? || g.Closed? || g.Sweeping? || g.Swept?
  }

  /** A task registers its own block, once. Cancellation drops the guard wherever it is armed. */
  predicate Enabled(s: State, e: Event) {
    match e
    case Register(r) => r !in s.registered
    case SpawnLate(r) => r in s.late
    case Close => s.guard.Working?
    case Snapshot => s.guard.Closed?
    case FinishOne => s.guard.Sweeping? && s.guard.todo != []
    case Clear => s.guard.Sweeping? && s.guard.todo == []
    case Retire => s.guard.Swept?
    case Disarm => s.guard.Working?
    case Release => s.guard.Disarming?
    case Drop => Armed(s.guard)
    case SpawnTaken => s.guard.Dropping?
  }

  function Step(s: State, e: Event): State
    requires Enabled(s, e)
  {
    match e
    case Register(r) =>
      s.(reg := s.reg.Push(r), registered := s.registered + {r}, late := if s.reg.closed then s.late + {r} else s.late)
    case SpawnLate(r) => s.(late := s.late - {r}, handed := s.handed + {r})
    case Close => s.(reg := s.reg.Close(), guard := Closed)
    case Snapshot => s.(guard := Sweeping(s.reg.references))
    case FinishOne => s.(guard := Sweeping(s.guard.todo[1..]), handed := s.handed + {s.guard.todo[0]})
    case Clear => s.(reg := s.reg.Clear(), guard := Swept)
    case Retire => s.(guard := Gone)
    case Disarm => s.(guard := Disarming)
    case Release =>
      s.(reg := s.reg.Close().Clear(), guard := Gone, kept := s.kept + Elements(s.reg.references))
    case Drop => s.(reg := s.reg.Close().Clear(), guard := Dropping(s.reg.references))
    case SpawnTaken => s.(guard := Gone, handed := s.handed + Elements(s.guard.taken))
  }

  const START := State(Registry(false, []), Working, {}, {}, {}, {})

  /** The states of a run: each follows from the one before by some event. */
  ghost predicate Run(states: seq<State>, events: seq<Event>) {
    && |states| == |events| + 1 && states[0] == START
    && forall i :: 0 <= i < |events| ==> Enabled(states[i], events[i]) && states[i + 1] == Step(states[i], events[i])
  }

  /** The blocks that the guard still has to hand over or may yet release. */
  function Held(s: State): set<Ref> {
    Elements(s.reg.references) + if s.guard.Dropping? then Elements(s.guard.taken) else {}
  }

  /** Every registered block is held, late, handed over or kept; kept blocks are never cleaned. */
  ghost predicate Accounted(s: State) {
    && s.registered == Held(s) + s.late + s.handed + s.kept
    && s.kept !! (Held(s) + s.late + s.handed)
  }

  /** Closing comes before looking, and looking before clearing, so nothing arrives unseen in between. */
  ghost predicate Ordered(s: State) {
    && (s.guard.Working? || s.guard.Disarming? ==> !s.reg.closed && s.late == {} && s.handed == {} && s.kept == {})
    && (!s.guard.Working? && !s.guard.Disarming? ==> s.reg.closed)
    && (s.guard.Sweeping? ==> Elements(s.reg.references) <= s.handed + Elements(s.guard.todo))
    && (s.guard.Sweeping? ==> Elements(s.guard.todo) <= Elements(s.reg.references))
    && (s.guard.Swept? || s.guard.Dropping? || s.guard.Gone? ==> s.reg.references == [])
  }

  lemma StepKeepsOrder(s: State, e: Event)
    requires Enabled(s, e) && Ordered(s)
    ensures Ordered(Step(s, e))
  {
  }

  lemma StepKeepsAccount(s: State, e: Event)
    requires Enabled(s, e) && Ordered(s) && Accounted(s)
    ensures Accounted(Step(s, e))
  {
  }

  lemma {:induction false} RunIsAccounted(states: seq<State>, events: seq<Event>)
    requires Run(states, events)
    ensures Ordered(states[|events|]) && Accounted(states[|events|])
    decreases |events|
  {
    if |events| > 0 {
      var n := |events| - 1;
      RunIsAccounted(states[..n + 1], events[..n]);
      StepKeepsOrder(states[n], events[n]);
      StepKeepsAccount(states[n], events[n]);
    }
  }

  lemma {:induction false} KeptOnlyByRelease(states: seq<State>, events: seq<Event>)
    requires Run(states, events) && Release !in events
    ensures states[|events|].kept == {}
    decreases |events|
  {
    if |events| > 0 {
      var n := |events| - 1;
      KeptOnlyByRelease(states[..n + 1], events[..n]);
      assert events[n] in events;
    }
  }

  /**
   * Once the guard is gone and every late task has spawned its cleanup, each registered block was cleaned or handed
   * over, or was in the registry when the guard was disarmed, and never both. Without a disarm all were handed over.
   */
  lemma NothingIsLost(states: seq<State>, events: seq<Event>)
    requires Run(states, events)
    requires states[|events|].guard.Gone? && states[|events|].late == {}
    ensures var s := states[|events|];
      && s.registered == s.handed + s.kept && s.handed !! s.kept
      && (Release !in events ==> s.registered == s.handed)
  {
    RunIsAccounted(states, events);
    if Release !in events {
      KeptOnlyByRelease(states, events);
    }
  }

  /** At no moment of any run is a registered block out of sight. */
  lemma NothingIsOutOfSight(states: seq<State>, events: seq<Event>, i: nat, r: Ref)
    requires Run(states, events) && i <= |events| && r in states[i].registered
    ensures var s := states[i];
      || r in s.reg.references
      || (s.guard.Dropping? && r in s.guard.taken)
      || r in s.late || r in s.handed || r in s.kept
  {
    RunIsAccounted(states[..i + 1], events[..i]);
    var s := states[i];
    assert r in Held(s) + s.late + s.handed + s.kept;
  }

  /** A disarm keeps exactly what the registry holds at that moment, and what it keeps is never cleaned, then or later. */
  lemma DisarmKeepsTheRegistry(states: seq<State>, events: seq<Event>, i: nat, j: nat)
    requires Run(states, events) && i < j <= |events| && events[i] == Release
    ensures states[j].kept == Elements(states[i].reg.references) == states[i].registered
    ensures states[j].kept !! states[j].handed
  {
    RunIsAccounted(states[..i + 1], events[..i]);
    assert states[i + 1] == Step(states[i], events[i]);
    GoneKeepsNoMore(states, events, i + 1, j);
    RunIsAccounted(states[..j + 1], events[..j]);
  }

  lemma {:induction false} GoneKeepsNoMore(states: seq<State>, events: seq<Event>, i: nat, j: nat)
    requires Run(states, events) && i <= j <= |events| && states[i].guard.Gone?
    ensures states[j].guard.Gone? && states[j].kept == states[i].kept
    decreases j - i
  {
    if i < j {
      GoneKeepsNoMore(states, events, i, j - 1);
      assert Enabled(states[j - 1], events[j - 1]) && states[j] == Step(states[j - 1], events[j - 1]);
    }
  }
}
