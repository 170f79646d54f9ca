/** One pass of the garbage collector: what it asks Telegram and what it reports to the database. */
module Collector {
  import opened Prelude
  import opened Schema
  import T = Transactions
  import I = Invariants
  import O = Outcomes
  import Store

  datatype Backend = BotApi | Grammers

  datatype Garbage = Garbage(block: BlockId, message: MessageId, backend: Backend, messageDate: int)

  datatype Answer = Removed | Missing | Failed

  /** How Telegram answers in this pass: one batch call for each backend, or one call for each message. */
  datatype Telegram = Telegram(batchWorks: map<Backend, bool>, single: map<MessageId, Answer>) {
    function Batch(backend: Backend): bool {
      backend in batchWorks && batchWorks[backend]
    }

    function Single(m: MessageId): Answer {
      if m in single then single[m] else Failed
    }
  }

  datatype Report = Succeeded(block: BlockId) | Retry(block: BlockId, nextAttempt: int) | Orphaned(block: BlockId)

  const DAY := 24 * 3600
  const MAX_GC_LIMIT := 100_000

  /** A bot may not delete messages older than 48 hours. */
  predicate WindowExpired(g: Garbage, timestamp: int) {
    g.backend == BotApi && g.messageDate > 0 && g.messageDate < timestamp - 2 * DAY
  }

  function Told(t: Tables, r: Report): Tables {
    match r
    case Succeeded(b) => T.GcSuccess(t, b)
    case Retry(b, next) => T.GcFailure(t, b, next)
    case Orphaned(b) => T.GcOrphan(t, b)
  }

  function Applied(t: Tables, reports: seq<Report>): Tables {
    if |reports| == 0 then t else Told(Applied(t, reports[..|reports| - 1]), reports[|reports| - 1])
  }

  lemma AppliedStep(t: Tables, reports: seq<Report>, r: Report)
    ensures Applied(t, reports + [r]) == Told(Applied(t, reports), r)
  {
  }

  // ---- what each candidate's report must be ----

  /** The candidates that go to `backend`, in order. */
  function Group(cs: seq<Garbage>, backend: Backend, timestamp: int): seq<Garbage> {
    if |cs| == 0 then []
    else
      var c := cs[|cs| - 1];
      Group(cs[..|cs| - 1], backend, timestamp) + if c.backend == backend && !WindowExpired(c, timestamp) then [c] else []
  }

  /** A batch counts for several messages at once; alone or after a failed batch each message has its own answer. */
  function ReportFor(c: Garbage, group: nat, tg: Telegram, timestamp: int): Report {
    if WindowExpired(c, timestamp) then Orphaned(c.block)
    else if (group > 1 && tg.Batch(c.backend)) || tg.Single(c.message) != Failed then Succeeded(c.block)
    else Retry(c.block, timestamp + 300)
  }

  function GroupReports(group: seq<Garbage>, size: nat, tg: Telegram, timestamp: int): seq<Report> {
    if |group| == 0 then []
    else
      GroupReports(group[..|group| - 1], size, tg, timestamp) + [ReportFor(group[|group| - 1], size, tg, timestamp)]
  }

  /** How many candidates go to each backend: whether there is a batch call at all depends on it. */
  datatype Sizes = Sizes(bot: nat, user: nat) {
    function Of(backend: Backend): nat {
      if backend == BotApi then bot else user
    }
  }

  function SizesOf(cs: seq<Garbage>, timestamp: int): Sizes {
    Sizes(|Group(cs, BotApi, timestamp)|, |Group(cs, Grammers, timestamp)|)
  }

  /** The report that every candidate is due. */
  function Due(cs: seq<Garbage>, sizes: Sizes, tg: Telegram, timestamp: int): multiset<Report> {
    if |cs| == 0 then multiset{}
    else
      var c := cs[|cs| - 1];
      Due(cs[..|cs| - 1], sizes, tg, timestamp) + multiset{ReportFor(c, sizes.Of(c.backend), tg, timestamp)}
  }

  function Orphans(cs: seq<Garbage>, timestamp: int): seq<Report> {
    if |cs| == 0 then []
    else
      var c := cs[|cs| - 1];
      Orphans(cs[..|cs| - 1], timestamp) + if WindowExpired(c, timestamp) then [Orphaned(c.block)] else []
  }

  /** The reports of the candidates that go to one backend. */
  function BackendReports(cs: seq<Garbage>, backend: Backend, sizes: Sizes, tg: Telegram,
                          timestamp: int): multiset<Report> {
    multiset(GroupReports(Group(cs, backend, timestamp), sizes.Of(backend), tg, timestamp))
  }

  lemma OneMoreReport(cs: seq<Garbage>, backend: Backend, sizes: Sizes, tg: Telegram, timestamp: int)
    requires cs != []
    ensures var c := cs[|cs| - 1];
      BackendReports(cs, backend, sizes, tg, timestamp)
      == BackendReports(cs[..|cs| - 1], backend, sizes, tg, timestamp)
         + (if c.backend == backend && !WindowExpired(c, timestamp)
            then multiset{ReportFor(c, sizes.Of(backend), tg, timestamp)} else multiset{})
  {
    var g, c := Group(cs[..|cs| - 1], backend, timestamp), cs[|cs| - 1];
    if c.backend == backend && !WindowExpired(c, timestamp) {
      assert (g + [c])[..|g|] == g;
      assert Group(cs, backend, timestamp) == g + [c];
    } else {
      assert Group(cs, backend, timestamp) == g;
    }
  }

  /** Orphaning first and then going backend by backend gives every candidate its one report. */
  lemma {:induction false} GroupingLosesNothing(cs: seq<Garbage>, sizes: Sizes, tg: Telegram, timestamp: int)
    ensures Due(cs, sizes, tg, timestamp)
      == multiset(Orphans(cs, timestamp)) + BackendReports(cs, BotApi, sizes, tg, timestamp)
         + BackendReports(cs, Grammers, sizes, tg, timestamp)
  {
    if |cs| > 0 {
      GroupingLosesNothing(cs[..|cs| - 1], sizes, tg, timestamp);
      OneMoreReport(cs, BotApi, sizes, tg, timestamp);
      OneMoreReport(cs, Grammers, sizes, tg, timestamp);
      OrphansStep(cs, timestamp);
    }
  }

  lemma OrphansStep(cs: seq<Garbage>, timestamp: int)
    requires cs != []
    ensures var c := cs[|cs| - 1];
      multiset(Orphans(cs, timestamp)) == multiset(Orphans(cs[..|cs| - 1], timestamp))
        + (if WindowExpired(c, timestamp) then multiset{Orphaned(c.block)} else multiset{})
  {
  }

  // ---- what a pass does to each candidate ----

  /** The candidates are different blocks, all queued. */
  ghost predicate Queued(t: Tables, cs: seq<Garbage>) {
    && (forall i, j :: 0 <= i < j < |cs| ==> cs[i].block != cs[j].block)
    && (forall i :: 0 <= i < |cs| ==> cs[i].block in t.queue)
  }

  /** Sent through the Bot API more than 48 hours ago. */
  predicate TooOld(c: Garbage, timestamp: int) {
    c.backend == BotApi && 0 < c.messageDate < timestamp - 48 * 3600
  }

  /** Telegram deleted the message in one call with others, or alone, or did not have it any more. */
  ghost predicate Gone(cs: seq<Garbage>, i: nat, tg: Telegram, timestamp: int)
    requires i < |cs|
  {
    || (&& cs[i].backend in tg.batchWorks && tg.batchWorks[cs[i].backend]
        && exists j :: 0 <= j < |cs| && j != i && cs[j].backend == cs[i].backend && !TooOld(cs[j], timestamp))
    || (cs[i].message in tg.single && tg.single[cs[i].message] != Failed)
  }

  /**
   * The outcome for one candidate: given up if it is too old, else without row and entry if its message is gone, else
   * kept for another attempt five minutes later.
   */
  ghost predicate Handled(t: Tables, t': Tables, cs: seq<Garbage>, i: nat, tg: Telegram, timestamp: int)
    requires i < |cs|
  {
    var b := cs[i].block;
    b in t.queue && b in t.blocks
    && if !TooOld(cs[i], timestamp) && Gone(cs, i, tg, timestamp) then b !in t'.blocks && b !in t'.queue
       else
         && b in t'.blocks && t'.blocks[b] == t.blocks[b] && b in t'.queue
         && t'.queue[b] == if TooOld(cs[i], timestamp) then QueueRow(t.queue[b].attempts, t.queue[b].nextAttempt, true)
                           else QueueRow(t.queue[b].attempts + 1, timestamp + 300, t.queue[b].orphan)
  }

  /** The tables after a pass: every candidate has its outcome, or none yet if an error ended the pass. */
  ghost predicate Passed(t: Tables, t': Tables, cs: seq<Garbage>, tg: Telegram, timestamp: int, all: bool) {
    && t'.objects == t.objects && t'.uploads == t.uploads
    && (forall i :: 0 <= i < |cs| ==> Handled(t, t', cs, i, tg, timestamp) || (!all && O.Same(t, t', cs[i].block)))
    && (forall b :: O.Same(t, t', b) || exists i :: 0 <= i < |cs| && cs[i].block == b)
  }

  lemma CollectedOther(t: Tables, c: BlockId, b: BlockId)
    requires Valid(t) && b != c
    ensures Valid(T.GcSuccess(t, c)) && O.Same(t, T.GcSuccess(t, c), b)
    ensures T.GcSuccess(t, c).objects == t.objects && T.GcSuccess(t, c).uploads == t.uploads
  {
    I.GcSuccessKeepsValid(t, c);
    hide Valid;
    O.CollectedRow(t, c);
  }

  lemma FailedOther(t: Tables, c: BlockId, next: int, b: BlockId)
    requires Valid(t) && b != c
    ensures Valid(T.GcFailure(t, c, next)) && O.Same(t, T.GcFailure(t, c, next), b)
    ensures Valid(T.GcOrphan(t, c)) && O.Same(t, T.GcOrphan(t, c), b)
  {
    I.GcFailureKeepsValid(t, c, next);
    hide Valid;
  }

  lemma ToldOther(t: Tables, r: Report, b: BlockId)
    requires Valid(t) && b != r.block
    ensures Valid(Told(t, r)) && O.Same(t, Told(t, r), b)
    ensures Told(t, r).objects == t.objects && Told(t, r).uploads == t.uploads
  {
    hide Valid;
    match r {
      case Succeeded(c) => CollectedOther(t, c, b);
      case Retry(c, next) => FailedOther(t, c, next, b);
      case Orphaned(c) => FailedOther(t, c, 0, b);
    }
  }

  /** A block that no report is about stays as it is. */
  lemma {:induction false} AppliedOther(t: Tables, reports: seq<Report>, b: BlockId)
    requires Valid(t) && forall k :: 0 <= k < |reports| ==> reports[k].block != b
    ensures Valid(Applied(t, reports)) && O.Same(t, Applied(t, reports), b)
    ensures Applied(t, reports).objects == t.objects && Applied(t, reports).uploads == t.uploads
  {
    if |reports| > 0 {
      var init := reports[..|reports| - 1];
      AppliedOther(t, init, b);
      ToldOther(Applied(t, init), reports[|reports| - 1], b);
    }
  }

  /** What one report does to its block. */
  ghost predicate TakesEffect(t: Tables, t': Tables, r: Report) {
    var b := r.block;
    b in t.queue && b in t.blocks
    && match r
       case Succeeded(_) => b !in t'.blocks && b !in t'.queue
       case Retry(_, next) =>
         && b in t'.blocks && t'.blocks[b] == t.blocks[b]
         && b in t'.queue && t'.queue[b] == QueueRow(t.queue[b].attempts + 1, next, t.queue[b].orphan)
       case Orphaned(_) =>
         && b in t'.blocks && t'.blocks[b] == t.blocks[b]
         && b in t'.queue && t'.queue[b] == QueueRow(t.queue[b].attempts, t.queue[b].nextAttempt, true)
  }

  lemma ToldHere(t: Tables, r: Report)
    requires Valid(t) && r.block in t.queue
    ensures Valid(Told(t, r)) && TakesEffect(t, Told(t, r), r)
    ensures Told(t, r).objects == t.objects && Told(t, r).uploads == t.uploads
  {
    O.QueuedIsFree(t, r.block);
    O.CollectedRow(t, r.block);
    I.GcSuccessKeepsValid(t, r.block);
    I.GcFailureKeepsValid(t, r.block, if r.Retry? then r.nextAttempt else 0);
  }

  /** The only report about a queued block takes effect. */
  lemma {:induction false} AppliedOnce(t: Tables, reports: seq<Report>, k: nat)
    requires Valid(t) && k < |reports| && reports[k].block in t.queue
    requires forall j :: 0 <= j < |reports| && j != k ==> reports[j].block != reports[k].block
    ensures Valid(Applied(t, reports)) && TakesEffect(t, Applied(t, reports), reports[k])
    ensures Applied(t, reports).objects == t.objects && Applied(t, reports).uploads == t.uploads
  {
    var n := |reports| - 1;
    var init := reports[..n];
    if k == n {
      AppliedOther(t, init, reports[n].block);
      O.QueuedIsFree(t, reports[n].block);
      ToldHere(Applied(t, init), reports[n]);
    } else {
      AppliedOnce(t, init, k);
      ToldOther(Applied(t, init), reports[n], reports[k].block);
    }
  }

  lemma {:induction false} DueReport(cs: seq<Garbage>, sizes: Sizes, tg: Telegram, timestamp: int, r: Report) returns (i: nat)
    requires r in Due(cs, sizes, tg, timestamp)
    ensures i < |cs| && r == ReportFor(cs[i], sizes.Of(cs[i].backend), tg, timestamp) && r.block == cs[i].block
  {
    var n := |cs| - 1;
    i := n;
    if r in Due(cs[..n], sizes, tg, timestamp) {
      i := DueReport(cs[..n], sizes, tg, timestamp, r);
    }
  }

  /** Each of several different candidates is due one report. */
  lemma {:induction false} DueOnce(cs: seq<Garbage>, sizes: Sizes, tg: Telegram, timestamp: int, i: nat)
    requires i < |cs| && forall j, k :: 0 <= j < k < |cs| ==> cs[j].block != cs[k].block
    ensures Due(cs, sizes, tg, timestamp)[ReportFor(cs[i], sizes.Of(cs[i].backend), tg, timestamp)] == 1
  {
    var n := |cs| - 1;
    var r := ReportFor(cs[i], sizes.Of(cs[i].backend), tg, timestamp);
    if i < n {
      DueOnce(cs[..n], sizes, tg, timestamp, i);
      assert ReportFor(cs[n], sizes.Of(cs[n].backend), tg, timestamp).block == cs[n].block != r.block;
    } else if r in Due(cs[..n], sizes, tg, timestamp) {
      var j := DueReport(cs[..n], sizes, tg, timestamp, r);
    }
  }

  lemma TwoAreTwo(s: seq<Report>, j: nat, k: nat)
    requires j < k < |s| && s[j] == s[k]
    ensures multiset(s)[s[j]] >= 2
  {
    assert s == s[..k] + [s[k]] + s[k + 1..];
    assert s[..k][j] in multiset(s[..k]);
  }

  /** Every report about a candidate is the one it is due, and there is no second one. */
  lemma OneReport(cs: seq<Garbage>, reports: seq<Report>, sizes: Sizes, tg: Telegram, timestamp: int, i: nat, k: nat)
    requires i < |cs| && forall a, b :: 0 <= a < b < |cs| ==> cs[a].block != cs[b].block
    requires multiset(reports) <= Due(cs, sizes, tg, timestamp)
    requires k < |reports| && reports[k].block == cs[i].block
    ensures reports[k] == ReportFor(cs[i], sizes.Of(cs[i].backend), tg, timestamp)
    ensures forall j :: 0 <= j < |reports| && j != k ==> reports[j].block != reports[k].block
  {
    var r := ReportFor(cs[i], sizes.Of(cs[i].backend), tg, timestamp);
    forall j | 0 <= j < |reports| && reports[j].block == cs[i].block ensures reports[j] == r {
      assert reports[j] in multiset(reports);
      var a := DueReport(cs, sizes, tg, timestamp, reports[j]);
    }
    DueOnce(cs, sizes, tg, timestamp, i);
    forall j | 0 <= j < |reports| && j != k ensures reports[j].block != cs[i].block {
      if reports[j].block == cs[i].block {
        TwoAreTwo(reports, if j < k then j else k, if j < k then k else j);
      }
    }
  }

  function Members(cs: seq<Garbage>, backend: Backend, timestamp: int): set<nat> {
    set i: nat | i < |cs| && cs[i].backend == backend && !WindowExpired(cs[i], timestamp)
  }

  lemma {:induction false} GroupSize(cs: seq<Garbage>, backend: Backend, timestamp: int)
    ensures |Group(cs, backend, timestamp)| == |Members(cs, backend, timestamp)|
  {
    if |cs| > 0 {
      var n := |cs| - 1;
      GroupSize(cs[..n], backend, timestamp);
      var here := cs[n].backend == backend && !WindowExpired(cs[n], timestamp);
      assert Members(cs, backend, timestamp) == Members(cs[..n], backend, timestamp) + if here then {n} else {};
    }
  }

  /** There is a batch call for a candidate exactly when another one goes the same way. */
  lemma BatchIffOthers(cs: seq<Garbage>, i: nat, timestamp: int)
    requires i < |cs| && !TooOld(cs[i], timestamp)
    ensures SizesOf(cs, timestamp).Of(cs[i].backend) > 1
      <==> exists j :: 0 <= j < |cs| && j != i && cs[j].backend == cs[i].backend && !TooOld(cs[j], timestamp)
  {
    var members := Members(cs, cs[i].backend, timestamp);
    GroupSize(cs, cs[i].backend, timestamp);
    assert i in members;
    if j :| 0 <= j < |cs| && j != i && cs[j].backend == cs[i].backend && !TooOld(cs[j], timestamp) {
      assert {i, j} <= members && |{i, j}| == 2;
      SubsetIsSmaller({i, j}, members);
    } else {
      assert members == {i};
    }
  }

  lemma SubsetIsSmaller(a: set<nat>, b: set<nat>)
    requires a <= b
    ensures |a| <= |b|
  {
    assert b == a + (b - a);
  }

  lemma DueIsHandled(t: Tables, t': Tables, cs: seq<Garbage>, i: nat, tg: Telegram, timestamp: int)
    requires i < |cs|
    requires TakesEffect(t, t', ReportFor(cs[i], SizesOf(cs, timestamp).Of(cs[i].backend), tg, timestamp))
    ensures Handled(t, t', cs, i, tg, timestamp)
  {
    if !TooOld(cs[i], timestamp) {
      BatchIffOthers(cs, i, timestamp);
    }
  }

  /** Every candidate is among the reports when these are all that are due. */
  lemma AllReported(cs: seq<Garbage>, reports: seq<Report>, tg: Telegram, timestamp: int, i: nat)
    requires i < |cs| && multiset(reports) == Due(cs, SizesOf(cs, timestamp), tg, timestamp)
    requires forall j, k :: 0 <= j < k < |cs| ==> cs[j].block != cs[k].block
    ensures exists k :: 0 <= k < |reports| && reports[k].block == cs[i].block
  {
    var r := ReportFor(cs[i], SizesOf(cs, timestamp).Of(cs[i].backend), tg, timestamp);
    DueOnce(cs, SizesOf(cs, timestamp), tg, timestamp, i);
    assert r in multiset(reports);
    assert r in reports;
  }

  /** Applying what is due, or some of it, gives the candidates their outcomes. */
  lemma PassMeans(t: Tables, cs: seq<Garbage>, reports: seq<Report>, tg: Telegram, timestamp: int)
    requires Valid(t) && Queued(t, cs) && multiset(reports) <= Due(cs, SizesOf(cs, timestamp), tg, timestamp)
    ensures Passed(t, Applied(t, reports), cs, tg, timestamp,
                   multiset(reports) == Due(cs, SizesOf(cs, timestamp), tg, timestamp))
  {
    var sizes, t' := SizesOf(cs, timestamp), Applied(t, reports);
    AppliedKeepsRest(t, reports);
    forall i | 0 <= i < |cs|
      ensures Handled(t, t', cs, i, tg, timestamp)
        || (multiset(reports) != Due(cs, sizes, tg, timestamp) && O.Same(t, t', cs[i].block))
    {
      if k :| 0 <= k < |reports| && reports[k].block == cs[i].block {
        OneReport(cs, reports, sizes, tg, timestamp, i, k);
        AppliedOnce(t, reports, k);
        DueIsHandled(t, t', cs, i, tg, timestamp);
      } else {
        AppliedOther(t, reports, cs[i].block);
        if multiset(reports) == Due(cs, sizes, tg, timestamp) {
          AllReported(cs, reports, tg, timestamp, i);
        }
      }
    }
    forall b ensures O.Same(t, t', b) || exists i :: 0 <= i < |cs| && cs[i].block == b {
      if k :| 0 <= k < |reports| && reports[k].block == b {
        assert reports[k] in multiset(reports);
        var i := DueReport(cs, sizes, tg, timestamp, reports[k]);
      } else {
        AppliedOther(t, reports, b);
      }
    }
  }

  lemma PassEnds(t: Tables, cs: seq<Garbage>, reports: seq<Report>, tg: Telegram, timestamp: int, all: bool)
    requires Valid(t) && multiset(reports) <= Due(cs, SizesOf(cs, timestamp), tg, timestamp)
    requires all ==> multiset(reports) == Due(cs, SizesOf(cs, timestamp), tg, timestamp)
    ensures Queued(t, cs) ==> Passed(t, Applied(t, reports), cs, tg, timestamp, all)
  {
    if Queued(t, cs) {
      PassMeans(t, cs, reports, tg, timestamp);
    }
  }

  lemma {:induction false} AppliedKeepsRest(t: Tables, reports: seq<Report>)
    ensures Applied(t, reports).objects == t.objects && Applied(t, reports).uploads == t.uploads
  {
    if |reports| > 0 {
      AppliedKeepsRest(t, reports[..|reports| - 1]);
    }
  }

  // ---- the pass ----

  /** Applies one report to the database; `lost` are the blocks for which the database fails. */
  method Tell(db: Store.Db, lost: set<BlockId>, ghost start: Tables, ghost reports: seq<Report>, r: Report)
    returns (ok: bool)
    requires Valid(db.tables) && db.tables == Applied(start, reports)
    modifies db
    ensures ok <==> r.block !in lost
    ensures Valid(db.tables) && db.tables == Applied(start, if ok then reports + [r] else reports)
  {
    AppliedStep(start, reports, r);
    if r.block in lost {
      return false;
    }
    match r {
      case Succeeded(b) => db.GcSuccess(b);
      case Retry(b, next) => db.GcFailure(b, next);
      case Orphaned(b) => db.GcOrphan(b);
    }
    return true;
  }

  /** No candidate's report is lost. */
  predicate NoneLost(cs: seq<Garbage>, lost: set<BlockId>) {
    forall i :: 0 <= i < |cs| ==> cs[i].block !in lost
  }

  lemma {:induction false} GroupReportsPrefix(group: seq<Garbage>, i: nat, size: nat, tg: Telegram, timestamp: int)
    requires i <= |group|
    ensures GroupReports(group[..i], size, tg, timestamp) <= GroupReports(group, size, tg, timestamp)
    decreases |group|
  {
    if i == |group| {
      assert group[..i] == group;
    } else {
      var init := group[..|group| - 1];
      assert init[..i] == group[..i];
      GroupReportsPrefix(init, i, size, tg, timestamp);
    }
  }

  lemma {:induction false} OrphansPrefix(cs: seq<Garbage>, i: nat, timestamp: int)
    requires i <= |cs|
    ensures Orphans(cs[..i], timestamp) <= Orphans(cs, timestamp)
    decreases |cs|
  {
    if i == |cs| {
      assert cs[..i] == cs;
    } else {
      var init := cs[..|cs| - 1];
      assert init[..i] == cs[..i];
      OrphansPrefix(init, i, timestamp);
    }
  }

  lemma OneMoreOfGroup(group: seq<Garbage>, i: nat, size: nat, tg: Telegram, timestamp: int)
    requires i < |group|
    ensures GroupReports(group[..i + 1], size, tg, timestamp)
      == GroupReports(group[..i], size, tg, timestamp) + [ReportFor(group[i], size, tg, timestamp)]
  {
    assert group[..i + 1][..i] == group[..i];
  }

  /** One message of a group: covered by the batch call, or deleted by a call of its own. */
  method DeleteOne(db: Store.Db, c: Garbage, batch: bool, tg: Telegram, lost: set<BlockId>, timestamp: int,
                   ghost start: Tables, ghost before: seq<Report>, ghost size: nat) returns (report: Report, ok: bool)
    requires Valid(db.tables) && db.tables == Applied(start, before)
    requires !WindowExpired(c, timestamp) && batch == (size > 1 && tg.Batch(c.backend))
    modifies db
    ensures report == ReportFor(c, size, tg, timestamp) && (ok <==> c.block !in lost)
    ensures Valid(db.tables) && db.tables == Applied(start, if ok then before + [report] else before)
  {
    report := if batch || tg.Single(c.message) != Failed then Succeeded(c.block) else Retry(c.block, timestamp + 300);
    ok := Tell(db, lost, start, before, report);
  }

  /**
   * Deletes the messages of one group: in one call, or one by one when that fails or there is only one. A database
   * error ends it, with the reports so far applied.
   */
  method DeleteGroup(db: Store.Db, group: seq<Garbage>, backend: Backend, tg: Telegram, lost: set<BlockId>,
                     timestamp: int, ghost start: Tables, ghost before: seq<Report>)
    returns (reports: seq<Report>, ok: bool)
    requires Valid(db.tables) && db.tables == Applied(start, before)
    requires forall i :: 0 <= i < |group| ==> group[i].backend == backend && !WindowExpired(group[i], timestamp)
    modifies db
    ensures reports <= GroupReports(group, |group|, tg, timestamp)
    ensures ok ==> reports == GroupReports(group, |group|, tg, timestamp)
    ensures NoneLost(group, lost) ==> ok
    ensures Valid(db.tables) && db.tables == Applied(start, before + reports)
  {
    reports := [];
    ghost var done := before;
    assert before + [] == before;
    var batch := |group| > 1 && tg.Batch(backend);
    for i := 0 to |group|
      invariant reports == GroupReports(group[..i], |group|, tg, timestamp) && done == before + reports
      invariant Valid(db.tables) && db.tables == Applied(start, done)
    {
      OneMoreOfGroup(group, i, |group|, tg, timestamp);
      var report;
      report, ok := DeleteOne(db, group[i], batch, tg, lost, timestamp, start, done, |group|);
      if !ok {
        GroupReportsPrefix(group, i, |group|, tg, timestamp);
        return reports, false;
      }
      done, reports := done + [report], reports + [report];
    }
    assert group[..|group|] == group;
    return reports, true;
  }

  ghost predicate HasGroup(groups: seq<(Backend, seq<Garbage>)>, b: Backend) {
    exists k :: 0 <= k < |groups| && groups[k].0 == b
  }

  /** The candidates seen so far: orphans are reported, the others wait in one group for each backend. */
  ghost predicate Grouped(groups: seq<(Backend, seq<Garbage>)>, cs: seq<Garbage>, timestamp: int) {
    && (forall j, k :: 0 <= j < k < |groups| ==> groups[j].0 != groups[k].0)
    && (forall k :: 0 <= k < |groups| ==> groups[k].1 == Group(cs, groups[k].0, timestamp))
    && (forall b: Backend :: Group(cs, b, timestamp) != [] ==> HasGroup(groups, b))
  }

  function FindGroup(groups: seq<(Backend, seq<Garbage>)>, backend: Backend): (k: nat)
    ensures k <= |groups| && (k < |groups| ==> groups[k].0 == backend)
    ensures k == |groups| ==> forall j :: 0 <= j < |groups| ==> groups[j].0 != backend
  {
    if |groups| == 0 then 0
    else if groups[0].0 == backend then 0
    else 1 + FindGroup(groups[1..], backend)
  }

  /** Puts a candidate into the group of its backend. */
  function AddTo(groups: seq<(Backend, seq<Garbage>)>, c: Garbage): (r: seq<(Backend, seq<Garbage>)>)
    ensures HasGroup(r, c.backend) && forall b :: HasGroup(groups, b) ==> HasGroup(r, b)
  {
    var k := FindGroup(groups, c.backend);
    if k < |groups| then
      var r := groups[k := (c.backend, groups[k].1 + [c])];
      assert r[k].0 == c.backend && forall j :: 0 <= j < |groups| ==> r[j].0 == groups[j].0;
      r
    else
      var r := groups + [(c.backend, [c])];
      assert r[|groups|].0 == c.backend && forall j :: 0 <= j < |groups| ==> r[j] == groups[j];
      r
  }

  lemma GroupStep(cs: seq<Garbage>, i: nat, b: Backend, timestamp: int)
    requires i < |cs|
    ensures Group(cs[..i + 1], b, timestamp)
      == Group(cs[..i], b, timestamp) + (if cs[i].backend == b && !WindowExpired(cs[i], timestamp) then [cs[i]] else [])
  {
    assert cs[..i + 1][..i] == cs[..i];
  }

  lemma GroupedStep(groups: seq<(Backend, seq<Garbage>)>, cs: seq<Garbage>, i: nat, timestamp: int)
    requires i < |cs| && Grouped(groups, cs[..i], timestamp)
    ensures Grouped(if WindowExpired(cs[i], timestamp) then groups else AddTo(groups, cs[i]), cs[..i + 1], timestamp)
  {
    var c := cs[i];
    var after := if WindowExpired(c, timestamp) then groups else AddTo(groups, c);
    forall b: Backend ensures Group(cs[..i + 1], b, timestamp)
      == Group(cs[..i], b, timestamp) + (if c.backend == b && !WindowExpired(c, timestamp) then [c] else [])
    {
      GroupStep(cs, i, b, timestamp);
    }
    if !WindowExpired(c, timestamp) {
      AddedGroups(groups, c, cs[..i], timestamp);
    }
  }

  /** Adding to a group changes that group only; a new group starts with one candidate. */
  lemma AddedGroups(groups: seq<(Backend, seq<Garbage>)>, c: Garbage, cs: seq<Garbage>, timestamp: int)
    requires Grouped(groups, cs, timestamp)
    ensures var after := AddTo(groups, c);
      && (forall j, k :: 0 <= j < k < |after| ==> after[j].0 != after[k].0)
      && (forall k :: 0 <= k < |after| ==>
            after[k].1 == Group(cs, after[k].0, timestamp) + (if after[k].0 == c.backend then [c] else []))
  {
  }

  lemma {:induction false} GroupMembersFit(cs: seq<Garbage>, backend: Backend, timestamp: int)
    ensures forall i :: 0 <= i < |Group(cs, backend, timestamp)| ==>
      Group(cs, backend, timestamp)[i].backend == backend && !WindowExpired(Group(cs, backend, timestamp)[i], timestamp)
  {
    if |cs| > 0 {
      GroupMembersFit(cs[..|cs| - 1], backend, timestamp);
    }
  }

  lemma GroupsFit(groups: seq<(Backend, seq<Garbage>)>, cs: seq<Garbage>, timestamp: int)
    requires Grouped(groups, cs, timestamp)
    ensures forall k, i :: 0 <= k < |groups| && 0 <= i < |groups[k].1| ==>
      groups[k].1[i].backend == groups[k].0 && !WindowExpired(groups[k].1[i], timestamp)
  {
    forall k | 0 <= k < |groups| ensures groups[k].1 == Group(cs, groups[k].0, timestamp) {
    }
    GroupMembersFit(cs, BotApi, timestamp);
    GroupMembersFit(cs, Grammers, timestamp);
  }

  /** The reports of all groups. */
  function Remaining(groups: seq<(Backend, seq<Garbage>)>, tg: Telegram, timestamp: int): multiset<Report> {
    if |groups| == 0 then multiset{}
    else
      multiset(GroupReports(groups[0].1, |groups[0].1|, tg, timestamp)) + Remaining(groups[1..], tg, timestamp)
  }

  lemma OneOf(groups: seq<(Backend, seq<Garbage>)>, cs: seq<Garbage>, k: nat, tg: Telegram, timestamp: int)
    requires Grouped(groups, cs, timestamp) && k < |groups|
    ensures multiset(GroupReports(groups[k].1, |groups[k].1|, tg, timestamp))
      == BackendReports(cs, groups[k].0, SizesOf(cs, timestamp), tg, timestamp)
  {
  }

  lemma NoneOf(groups: seq<(Backend, seq<Garbage>)>, cs: seq<Garbage>, b: Backend, tg: Telegram, timestamp: int)
    requires Grouped(groups, cs, timestamp) && !HasGroup(groups, b)
    ensures BackendReports(cs, b, SizesOf(cs, timestamp), tg, timestamp) == multiset{}
  {
  }

  /** There are only two backends, so the groups are at most two. */
  lemma TwoGroups(groups: seq<(Backend, seq<Garbage>)>, cs: seq<Garbage>, tg: Telegram, timestamp: int)
    requires Grouped(groups, cs, timestamp)
    ensures Remaining(groups, tg, timestamp)
      == BackendReports(cs, BotApi, SizesOf(cs, timestamp), tg, timestamp)
         + BackendReports(cs, Grammers, SizesOf(cs, timestamp), tg, timestamp)
  {
    AtMostTwo(groups, cs, timestamp);
    if |groups| == 0 {
      NoneOf(groups, cs, BotApi, tg, timestamp);
      NoneOf(groups, cs, Grammers, tg, timestamp);
    } else if |groups| == 1 {
      OneGroup(groups, cs, tg, timestamp);
    } else {
      RemainingOfTwo(groups, tg, timestamp);
      OneOf(groups, cs, 0, tg, timestamp);
      OneOf(groups, cs, 1, tg, timestamp);
      assert groups[0].0 != groups[1].0;
    }
  }

  lemma OneGroup(groups: seq<(Backend, seq<Garbage>)>, cs: seq<Garbage>, tg: Telegram, timestamp: int)
    requires Grouped(groups, cs, timestamp) && |groups| == 1
    ensures Remaining(groups, tg, timestamp)
      == BackendReports(cs, BotApi, SizesOf(cs, timestamp), tg, timestamp)
         + BackendReports(cs, Grammers, SizesOf(cs, timestamp), tg, timestamp)
  {
    assert Remaining(groups[1..], tg, timestamp) == multiset{};
    OneOf(groups, cs, 0, tg, timestamp);
    if groups[0].0 == BotApi {
      NoneOf(groups, cs, Grammers, tg, timestamp);
    } else {
      NoneOf(groups, cs, BotApi, tg, timestamp);
    }
  }

  function BackendAt(groups: seq<(Backend, seq<Garbage>)>, k: nat): Backend {
    if k < |groups| then groups[k].0 else BotApi
  }

  lemma TwoOfThreeAgree(a: Backend, b: Backend, c: Backend)
    ensures a == b || b == c || a == c
  {
  }

  lemma AtMostTwo(groups: seq<(Backend, seq<Garbage>)>, cs: seq<Garbage>, timestamp: int)
    requires Grouped(groups, cs, timestamp)
    ensures |groups| <= 2
  {
    TwoOfThreeAgree(BackendAt(groups, 0), BackendAt(groups, 1), BackendAt(groups, 2));
  }

  lemma RemainingOfTwo(groups: seq<(Backend, seq<Garbage>)>, tg: Telegram, timestamp: int)
    requires |groups| == 2
    ensures Remaining(groups, tg, timestamp)
      == multiset(GroupReports(groups[0].1, |groups[0].1|, tg, timestamp))
         + multiset(GroupReports(groups[1].1, |groups[1].1|, tg, timestamp))
  {
    var rest := groups[1..];
    assert rest[0] == groups[1] && rest[1..] == [];
    assert Remaining(rest[1..], tg, timestamp) == multiset{};
  }

  /** The first loop: orphans are reported, the others are put into groups. */
  method GroupCandidates(db: Store.Db, cs: seq<Garbage>, lost: set<BlockId>, timestamp: int)
    returns (groups: seq<(Backend, seq<Garbage>)>, reports: seq<Report>, ok: bool)
    requires Valid(db.tables)
    modifies db
    ensures Valid(db.tables) && db.tables == Applied(old(db.tables), reports)
    ensures reports <= Orphans(cs, timestamp)
    ensures ok ==> reports == Orphans(cs, timestamp) && Grouped(groups, cs, timestamp)
    ensures NoneLost(cs, lost) ==> ok
  {
    groups, reports := [], [];
    for i := 0 to |cs|
      invariant reports == Orphans(cs[..i], timestamp) && Grouped(groups, cs[..i], timestamp)
      invariant Valid(db.tables) && db.tables == Applied(old(db.tables), reports)
    {
      var c := cs[i];
      GroupedStep(groups, cs, i, timestamp);
      OrphansPrefix(cs, i, timestamp);
      assert cs[..i + 1][..i] == cs[..i];
      if WindowExpired(c, timestamp) {
        ok := Tell(db, lost, old(db.tables), reports, Orphaned(c.block));
        if !ok {
          return groups, reports, false;
        }
        reports := reports + [Orphaned(c.block)];
        continue;
      }
      groups := AddTo(groups, c);
    }
    assert cs[..|cs|] == cs;
    return groups, reports, true;
  }

  /**
   * Every candidate of a pass is reported exactly once, and only as Telegram answered. A database error ends the pass:
   * then some of these reports are applied and no other.
   */
  method ProcessGcCandidates(db: Store.Db, cs: seq<Garbage>, tg: Telegram, lost: set<BlockId>, timestamp: int)
    returns (processed: Option<nat>, reports: seq<Report>)
    requires Valid(db.tables)
    modifies db
    ensures Valid(db.tables) && db.tables == Applied(old(db.tables), reports)
    ensures multiset(reports) <= Due(cs, SizesOf(cs, timestamp), tg, timestamp)
    ensures processed.Some? ==>
      multiset(reports) == Due(cs, SizesOf(cs, timestamp), tg, timestamp) && processed.value == |reports| == |cs|
    ensures NoneLost(cs, lost) ==> processed.Some?
    ensures Queued(old(db.tables), cs) ==> Passed(old(db.tables), db.tables, cs, tg, timestamp, processed.Some?)
  {
    hide Valid, Queued, Passed;
    var groups, ok;
    groups, reports, ok := GroupCandidates(db, cs, lost, timestamp);
    GroupingLosesNothing(cs, SizesOf(cs, timestamp), tg, timestamp);
    DueCount(cs, SizesOf(cs, timestamp), tg, timestamp);
    if !ok {
      PrefixIsPart(reports, Orphans(cs, timestamp));
      PassEnds(old(db.tables), cs, reports, tg, timestamp, false);
      return None, reports;
    }
    TwoGroups(groups, cs, tg, timestamp);
    GroupsFit(groups, cs, timestamp);
    GroupsAreFrom(groups, cs, lost, timestamp);
    reports, ok := DeleteGroups(db, groups, tg, lost, timestamp, old(db.tables), reports);
    assert |multiset(reports)| == |reports|;
    PassEnds(old(db.tables), cs, reports, tg, timestamp, ok);
    return if ok then Some(|reports|) else None, reports;
  }

  lemma PrefixIsPart(a: seq<Report>, b: seq<Report>)
    requires a <= b
    ensures multiset(a) <= multiset(b)
  {
    assert b == a + b[|a|..];
  }

  lemma {:induction false} GroupIsFrom(cs: seq<Garbage>, backend: Backend, lost: set<BlockId>, timestamp: int)
    requires NoneLost(cs, lost)
    ensures NoneLost(Group(cs, backend, timestamp), lost)
  {
    if |cs| > 0 {
      GroupIsFrom(cs[..|cs| - 1], backend, lost, timestamp);
    }
  }

  lemma GroupsAreFrom(groups: seq<(Backend, seq<Garbage>)>, cs: seq<Garbage>, lost: set<BlockId>, timestamp: int)
    requires Grouped(groups, cs, timestamp)
    ensures NoneLost(cs, lost) ==> forall k :: 0 <= k < |groups| ==> NoneLost(groups[k].1, lost)
  {
    if NoneLost(cs, lost) {
      forall k | 0 <= k < |groups| ensures NoneLost(groups[k].1, lost) {
        GroupIsFrom(cs, groups[k].0, lost, timestamp);
      }
    }
  }

  /** The second loop: one group after the other. */
  method DeleteGroups(db: Store.Db, groups: seq<(Backend, seq<Garbage>)>, tg: Telegram, lost: set<BlockId>, timestamp: int,
                      ghost start: Tables, before: seq<Report>) returns (reports: seq<Report>, ok: bool)
    requires Valid(db.tables) && db.tables == Applied(start, before)
    requires forall k, i :: 0 <= k < |groups| && 0 <= i < |groups[k].1| ==>
      groups[k].1[i].backend == groups[k].0 && !WindowExpired(groups[k].1[i], timestamp)
    modifies db
    ensures Valid(db.tables) && db.tables == Applied(start, reports)
    ensures multiset(reports) <= multiset(before) + Remaining(groups, tg, timestamp)
    ensures ok ==> multiset(reports) == multiset(before) + Remaining(groups, tg, timestamp)
    ensures (forall k :: 0 <= k < |groups| ==> NoneLost(groups[k].1, lost)) ==> ok
  {
    reports := before;
    assert groups[0..] == groups;
    for k := 0 to |groups|
      invariant multiset(reports) + Remaining(groups[k..], tg, timestamp)
             == multiset(before) + Remaining(groups, tg, timestamp)
      invariant Valid(db.tables) && db.tables == Applied(start, reports)
    {
      var more;
      more, ok := DeleteGroup(db, groups[k].1, groups[k].0, tg, lost, timestamp, start, reports);
      PrefixIsPart(more, GroupReports(groups[k].1, |groups[k].1|, tg, timestamp));
      assert groups[k..][1..] == groups[k + 1..];
      reports := reports + more;
      if !ok {
        return reports, false;
      }
    }
    return reports, true;
  }

  lemma {:induction false} DueCount(cs: seq<Garbage>, sizes: Sizes, tg: Telegram, timestamp: int)
    ensures |Due(cs, sizes, tg, timestamp)| == |cs|
  {
    if |cs| > 0 {
      DueCount(cs[..|cs| - 1], sizes, tg, timestamp);
    }
  }

  /** The stale blocks claimed one by one, and how many were claimed. */
  function Claimed(t: Tables, stale: seq<BlockId>, now: int): (Tables, nat) {
    if |stale| == 0 then (t, 0)
    else
      var (before, n) := Claimed(t, stale[..|stale| - 1], now);
      var (after, queued) := T.QueueStaleBlock(before, stale[|stale| - 1], now);
      (after, if queued then n + 1 else n)
  }

  /** A block that nothing needs: not committed, and in no object and no part. */
  ghost predicate Unneeded(t: Tables, b: BlockId) {
    b in t.blocks && !t.blocks[b].committed && !Referenced(t, b)
  }

  /** The unneeded blocks in `stale` wait in the queue, and the others are as before. */
  ghost predicate OnlyClaims(t: Tables, t': Tables, stale: seq<BlockId>, now: int) {
    && t'.objects == t.objects && t'.uploads == t.uploads && t'.buckets == t.buckets
    && forall b :: if b in stale && Unneeded(t, b) && b !in t.queue then ClaimedAt(t, t', b, now) else O.Same(t, t', b)
  }

  ghost predicate ClaimedAt(t: Tables, t': Tables, b: BlockId, now: int)
    requires b in t.blocks
  {
    O.Waiting(t', b, now) && t'.blocks[b] == t.blocks[b].(refCount := 0)
  }

  lemma StillUnneeded(t: Tables, t1: Tables, stale: seq<BlockId>, now: int, b: BlockId)
    requires OnlyClaims(t, t1, stale, now)
    ensures Unneeded(t1, b) <==> Unneeded(t, b)
    ensures b in t1.queue <==> b in t.queue || (b in stale && Unneeded(t, b))
  {
  }

  lemma ClaimKeepsRow(t: Tables, b: BlockId, now: int)
    ensures var (t', queued) := T.QueueStaleBlock(t, b, now);
      queued ==> b in t.blocks && b in t'.blocks && t'.blocks[b] == t.blocks[b].(refCount := 0)
  {
  }

  lemma ClaimedNext(t: Tables, t1: Tables, stale: seq<BlockId>, now: int, b: BlockId)
    requires Valid(t1) && OnlyClaims(t, t1, stale, now)
    ensures OnlyClaims(t, T.QueueStaleBlock(t1, b, now).0, stale + [b], now)
    ensures T.QueueStaleBlock(t1, b, now).1 <==> Unneeded(t, b)
  {
    O.ClaimedRow(t1, b, now);
    ClaimKeepsRow(t1, b, now);
    StillUnneeded(t, t1, stale, now, b);
    hide Valid;
    var t' := T.QueueStaleBlock(t1, b, now).0;
    forall c ensures
      if c in stale + [b] && Unneeded(t, c) && c !in t.queue then ClaimedAt(t, t', c, now) else O.Same(t, t', c)
    {
      if c != b {
        assert O.Same(t1, t', c);
      }
    }
  }

  lemma OneMoreUnneeded(t: Tables, stale: seq<BlockId>)
    requires stale != []
    ensures |UnneededIn(t, stale)|
      == |UnneededIn(t, stale[..|stale| - 1])| + if Unneeded(t, stale[|stale| - 1]) then 1 else 0
  {
    var k := |stale| - 1;
    assert UnneededIn(t, stale) == UnneededIn(t, stale[..k]) + if Unneeded(t, stale[k]) then {k} else {};
  }

  lemma NothingClaimed(t: Tables, now: int)
    ensures OnlyClaims(t, t, [], now) && |UnneededIn(t, [])| == 0
  {
    assert UnneededIn(t, []) == {};
  }

  /** The positions at which an unneeded block was found. */
  ghost function UnneededIn(t: Tables, stale: seq<BlockId>): set<nat> {
    set i: nat | i < |stale| && Unneeded(t, stale[i])
  }

  /** Every unneeded block that was found is claimed, and counted. */
  lemma {:induction false} ClaimedMeans(t: Tables, stale: seq<BlockId>, now: int)
    requires Valid(t)
    ensures var (t', n) := Claimed(t, stale, now);
      Valid(t') && OnlyClaims(t, t', stale, now) && n == |UnneededIn(t, stale)|
  {
    hide Valid, OnlyClaims, T.QueueStaleBlock, Unneeded;
    if |stale| == 0 {
      NothingClaimed(t, now);
    } else {
      var k := |stale| - 1;
      var init, b := stale[..k], stale[k];
      ClaimedMeans(t, init, now);
      var t1 := Claimed(t, init, now).0;
      I.QueueStaleBlockKeepsValid(t1, b, now);
      ClaimedNext(t, t1, init, now, b);
      assert init + [b] == stale;
      OneMoreUnneeded(t, stale);
    }
  }

  /** Claims one more block. */
  method ClaimOne(db: Store.Db, b: BlockId, timestamp: int, ghost start: Tables, ghost before: seq<BlockId>,
                  ghost n: nat)
    returns (queued: bool)
    requires Valid(db.tables) && (db.tables, n) == Claimed(start, before, timestamp)
    modifies db
    ensures Valid(db.tables)
    ensures (db.tables, if queued then n + 1 else n) == Claimed(start, before + [b], timestamp)
  {
    assert (before + [b])[..|before|] == before;
    queued := db.QueueStaleBlock(b, timestamp);
  }

  method ClaimStale(db: Store.Db, stale: seq<BlockId>, timestamp: int) returns (processed: nat)
    requires Valid(db.tables)
    modifies db
    ensures Valid(db.tables) && processed <= |stale|
    ensures (db.tables, processed) == Claimed(old(db.tables), stale, timestamp)
  {
    processed := 0;
    for i := 0 to |stale|
      invariant Valid(db.tables) && processed <= i
      invariant (db.tables, processed) == Claimed(old(db.tables), stale[..i], timestamp)
    {
      assert stale[..i + 1] == stale[..i] + [stale[i]];
      var queued := ClaimOne(db, stale[i], timestamp, old(db.tables), stale[..i], processed);
      if queued {
        processed := processed + 1;
      }
    }
    assert stale[..|stale|] == stale;
  }

  /** Why a run of the collector ends early. */
  datatype Stop = BadLimit | DatabaseError

  /**
   * One run: expired uploads first, then the stale blocks that the query found, then candidates for what is left
   * of the limit. `found` is what the candidate query selects at that moment, before its own limit.
   */
  method RunGc(db: Store.Db, limit: nat, stale: seq<BlockId>, found: seq<Garbage>, tg: Telegram, lost: set<BlockId>,
               timestamp: int)
    returns (r: Result<nat, Stop>, reports: seq<Report>)
    requires Valid(db.tables) && |stale| <= limit
    modifies db
    ensures Valid(db.tables)
    ensures r == Err(BadLimit) <==> limit == 0 || limit > MAX_GC_LIMIT
    ensures r == Err(BadLimit) ==> db.tables == old(db.tables)
    ensures r != Err(BadLimit) ==>
      var expired := Store.Expired(old(db.tables), timestamp - 7 * DAY);
      var (claimed, n) := Claimed(Store.AbortAll(old(db.tables), expired, timestamp), stale, timestamp);
      && n + |reports| <= limit && db.tables == Applied(claimed, reports)
      && multiset(reports) <= DueFirst(found, limit - n, tg, timestamp)
      && (r.Ok? ==> r.value == n + |reports| && multiset(reports) == DueFirst(found, limit - n, tg, timestamp))
    ensures r != Err(BadLimit) ==>
      var expired := Store.Expired(old(db.tables), timestamp - 7 * DAY);
      var (claimed, n) := Claimed(Store.AbortAll(old(db.tables), expired, timestamp), stale, timestamp);
      var candidates := if |found| <= limit - n then found else found[..limit - n];
      && (r.Ok? ==> r.value == n + |candidates|)
      && (Queued(claimed, candidates) ==> Passed(claimed, db.tables, candidates, tg, timestamp, r.Ok?))
    ensures NoneLost(found, lost) ==> r != Err(DatabaseError)
  {
    hide Valid, Queued, Passed, Claimed, Store.Expired, Store.AbortAll;
    reports := [];
    if limit == 0 || limit > MAX_GC_LIMIT {
      return Err(BadLimit), reports;
    }
    var _ := db.ExpireUploads(timestamp - 7 * DAY, timestamp);
    var processed := ClaimStale(db, stale, timestamp);
    var remaining := limit - processed;
    if remaining == 0 {
      PassEnds(db.tables, [], reports, tg, timestamp, true);
      return Ok(processed), reports;
    }
    var candidates := First(found, remaining);
    assert |found| <= remaining ==> candidates == found;
    DueCount(candidates, SizesOf(candidates, timestamp), tg, timestamp);
    var n;
    n, reports := ProcessGcCandidates(db, candidates, tg, lost, timestamp);
    PartIsNoLonger(reports, Due(candidates, SizesOf(candidates, timestamp), tg, timestamp));
    return if n.Some? then Ok(processed + n.value) else Err(DatabaseError), reports;
  }

  lemma PartIsNoLonger(reports: seq<Report>, due: multiset<Report>)
    requires multiset(reports) <= due
    ensures |reports| <= |due|
  {
    assert |multiset(reports)| == |reports|;
    assert due == multiset(reports) + (due - multiset(reports));
  }

  function First(found: seq<Garbage>, limit: nat): seq<Garbage> {
    found[..Min(limit, |found|)]
  }

  function DueFirst(found: seq<Garbage>, limit: nat, tg: Telegram, timestamp: int): multiset<Report> {
    Due(First(found, limit), SizesOf(First(found, limit), timestamp), tg, timestamp)
  }
}
