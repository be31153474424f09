/**
 Runs with one worker that never crashes: it claims again only when its last batch is
 reported. Enqueues, replays, purges and clock ticks still come in between. The attempt
 budget, the backoff timeline and the finality of delivered records hold under this hypothesis.
 */
module SoloWorker {
  import opened Common
  import opened Deliveries
  import opened Protocol

  predicate SoloStep<S>(w: World<S>, s: Step, c: Settings) {
    && !s.Crash?
    && (s.Claim? ==> w.jobs == {})
    && (s.WriteRetry? ==> s.maxAttempts == c.maxAttempts && s.backoffSeconds == c.backoffSeconds)
  }

  ghost predicate SoloRun(ws: seq<World<Box>>, ss: seq<Step>, c: Settings) {
    Run(ws, ss) && forall i {:trigger ss[i]} :: 0 <= i < |ss| ==> SoloStep(ws[i], ss[i], c)
  }

  // -------------------------------------------------------- jobs and records

  /** The deliveries in the worker's hands are exactly the records being delivered. */
  ghost predicate Matched(w: World<Box>) {
    && (forall j :: j in w.jobs ==>
          && j.id in w.store && w.store[j.id].status == Delivering
          && (j.read.Some? ==> j.read.value == w.store[j.id].attemptCount))
    && (forall j, k :: j in w.jobs && k in w.jobs && j.id == k.id ==> j == k)
    && (forall id :: id in w.store && w.store[id].status == Delivering ==> exists j :: j in w.jobs && j.id == id)
  }

  predicate WithinBudget(d: Delivery, c: Settings) {
    && (Waiting(d) ==> d.attemptCount < c.Budget())
    && (d.status == Pending ==> d.attemptCount == 0)
    && (d.status == Delivering ==> 1 <= d.attemptCount <= c.Budget())
    && (d.status == DeadLetter ==> d.attemptCount == c.Budget())
  }

  ghost predicate Budgeted(w: World<Box>, c: Settings) {
    forall id :: id in w.store ==> WithinBudget(w.store[id], c)
  }

  lemma ClaimKeepsMatched(w: World<Box>, s: Step, w': World<Box>)
    requires Matched(w) && Next(w, s, w') && s.Claim? && w.jobs == {}
    ensures Matched(w')
  {
  }

  lemma ReportKeepsMatched(w: World<Box>, s: Step, w': World<Box>)
    requires Matched(w) && Next(w, s, w') && (s.Finish? || s.WriteRetry?)
    ensures Matched(w')
  {
    forall j | j in w'.jobs ensures j.id in w'.store && w'.store[j.id] == w.store[j.id] {
      assert j in w.jobs && j != s.job;
    }
    forall id | id in w'.store && w'.store[id].status == Delivering
      ensures exists j :: j in w'.jobs && j.id == id
    {
      assert w'.store[id] == w.store[id] && id != s.job.id;
      var j :| j in w.jobs && j.id == id;
      assert j in w'.jobs;
    }
  }

  lemma ReadKeepsMatched(w: World<Box>, s: Step, w': World<Box>)
    requires Matched(w) && Next(w, s, w') && s.ReadAttempts?
    ensures Matched(w')
  {
  }

  lemma OtherStepSparesHeld(w: World<Box>, s: Step, w': World<Box>, id: string)
    requires Inv(w) && Next(w, s, w') && (s.Advance? || s.Enqueue? || s.ReplayOne?)
    requires id in w.store && w.store[id].status == Delivering
    ensures id in w'.store && w'.store[id] == w.store[id]
  {
  }

  lemma OtherStepHoldsNoMore(w: World<Box>, s: Step, w': World<Box>, id: string)
    requires Inv(w) && Next(w, s, w') && (s.Advance? || s.Enqueue? || s.ReplayOne?)
    requires id in w'.store && w'.store[id].status == Delivering
    ensures id in w.store && w.store[id].status == Delivering
  {
  }

  lemma OtherStepKeepsMatched(w: World<Box>, s: Step, w': World<Box>)
    requires Inv(w) && Matched(w) && Next(w, s, w') && (s.Advance? || s.Enqueue? || s.ReplayOne?)
    ensures Matched(w')
  {
    assert w'.jobs == w.jobs;
    forall j | j in w'.jobs ensures j.id in w'.store && w'.store[j.id] == w.store[j.id] {
      OtherStepSparesHeld(w, s, w', j.id);
    }
    forall id | id in w'.store && w'.store[id].status == Delivering
      ensures exists j :: j in w'.jobs && j.id == id
    {
      OtherStepHoldsNoMore(w, s, w', id);
      var j :| j in w.jobs && j.id == id;
    }
  }

  lemma StepKeepsMatched(w: World<Box>, s: Step, w': World<Box>, c: Settings)
    requires Inv(w) && Matched(w) && Next(w, s, w') && SoloStep(w, s, c)
    ensures Matched(w')
  {
    match s
    case Claim(_, _, _) => ClaimKeepsMatched(w, s, w');
    case Finish(_, _) => ReportKeepsMatched(w, s, w');
    case WriteRetry(_, _, _, _) => ReportKeepsMatched(w, s, w');
    case ReadAttempts(_, _) => ReadKeepsMatched(w, s, w');
    case _ => OtherStepKeepsMatched(w, s, w');
  }

  lemma RecordKeepsBudget(w: World<Box>, s: Step, w': World<Box>, c: Settings, id: string)
    requires Matched(w) && Budgeted(w, c) && Next(w, s, w') && SoloStep(w, s, c) && id in w.store && id in w'.store
    requires !(s.Enqueue? && s.created && id == s.request.id)
    ensures WithinBudget(w'.store[id], c)
  {
    RecordAfter(w, s, w', id);
    assert WithinBudget(w.store[id], c);
    if s.Claim? && id in s.taken {
      assert w.store[id].status != Delivering;
    } else if WritesReport(s) && s.job.id == id {
      assert s.job in w.jobs;
    }
  }

  lemma StepKeepsBudget(w: World<Box>, s: Step, w': World<Box>, c: Settings)
    requires Matched(w) && Budgeted(w, c) && Next(w, s, w') && SoloStep(w, s, c)
    ensures Budgeted(w', c)
  {
    StepKeepsOrigins(w, s, w');
    forall id | id in w'.store ensures WithinBudget(w'.store[id], c) {
      if !(s.Enqueue? && s.created && id == s.request.id) { RecordKeepsBudget(w, s, w', c, id); }
    }
  }

  lemma {:induction false} SoloReachable(ws: seq<World<Box>>, ss: seq<Step>, c: Settings, i: nat)
    requires SoloRun(ws, ss, c) && i < |ws|
    ensures Inv(ws[i]) && Matched(ws[i]) && Budgeted(ws[i], c)
  {
    Reachable(ws, ss, i);
    if i > 0 {
      SoloReachable(ws, ss, c, i - 1);
      StepKeepsMatched(ws[i - 1], ss[i - 1], ws[i], c);
      StepKeepsBudget(ws[i - 1], ss[i - 1], ws[i], c);
    }
  }

  // ---------------------------------------------------------------- finality

  lemma SoloStepKeepsDelivered(w: World<Box>, s: Step, w': World<Box>, id: string)
    requires Matched(w) && Next(w, s, w')
    requires id in w.used && (id in w.store ==> w.store[id].status == Delivered)
    ensures id in w'.used
    ensures id in w'.store ==> id in w.store && w'.store[id] == w.store[id]
  {
  }

  /** The one worker may outlast its leases: as it reports before it claims again, delivered stays delivered. */
  lemma {:induction false} SoloDeliveredIsFinal(ws: seq<World<Box>>, ss: seq<Step>, c: Settings, i: nat, j: nat,
                                                id: string)
    requires SoloRun(ws, ss, c) && i <= j < |ws|
    requires id in ws[i].store && ws[i].store[id].status == Delivered
    ensures id in ws[j].used
    ensures id in ws[j].store ==> ws[j].store[id] == ws[i].store[id]
  {
    SoloReachable(ws, ss, c, i);
    if j > i {
      SoloDeliveredIsFinal(ws, ss, c, i, j - 1, id);
      SoloReachable(ws, ss, c, j - 1);
      SoloStepKeepsDelivered(ws[j - 1], ss[j - 1], ws[j], id);
    }
  }

  // ---------------------------------------------------------- attempt budget

  /**
   A waiting delivery always has an attempt left, and retry_or_dead_letter gives up on exactly
   the attempt that exhausts the budget, never earlier and never later.
   */
  lemma AttemptBudget(ws: seq<World<Box>>, ss: seq<Step>, c: Settings, i: nat, id: string)
    requires SoloRun(ws, ss, c) && i < |ss| && id in ws[i].store
    ensures Waiting(ws[i].store[id]) ==> ws[i].store[id].attemptCount < c.Budget()
    ensures ws[i].store[id].status == DeadLetter ==> ws[i].store[id].attemptCount == c.Budget()
    ensures ss[i].WriteRetry? && ss[i].job.id == id ==>
      id in ws[i + 1].store
      && ws[i + 1].store[id].status == (if ws[i].store[id].attemptCount == c.Budget() then DeadLetter else Retry)
  {
    SoloReachable(ws, ss, c, i);
    assert Next(ws[i], ss[i], ws[i + 1]) && SoloStep(ws[i], ss[i], c);
    assert WithinBudget(ws[i].store[id], c);
  }

  // --------------------------------------------------------- backoff timeline

  /** Milliseconds the first `k - 1` backoffs add up to: base * (2^(k-1) - 1) seconds. */
  function Elapsed(c: Settings, k: nat): int
    requires k >= 1
  {
    Max(0, c.backoffSeconds) * (Pow2(k - 1) - 1) * 1000
  }

  lemma ElapsedGrows(c: Settings, k: nat)
    requires k >= 1
    ensures Elapsed(c, k) + Backoff(c.backoffSeconds, k) * 1000 == Elapsed(c, k + 1)
  {
  }

  /** Where the delivery stands on the timeline that its claim at `t` opened. */
  ghost predicate OnTimeline(d: Delivery, clock: int, t: int, c: Settings) {
    && (d.status == Delivering ==>
          d.attemptCount >= 1 && d.lastAttemptAt.Some? &&
            t + Elapsed(c, d.attemptCount) <= d.lastAttemptAt.value <= clock)
    && (d.status == Retry ==> d.attemptCount >= 1 && AsInt(d.nextAttemptAt) >= t + Elapsed(c, d.attemptCount + 1))
  }

  predicate Restarts(w: World<Box>, s: Step, id: string) {
    Claims(s, id) && id in w.store && w.store[id].attemptCount == 0
  }

  lemma ReportStaysOnTimeline(w: World<Box>, s: Step, w': World<Box>, c: Settings, t: int, id: string)
    requires Matched(w) && Next(w, s, w') && SoloStep(w, s, c) && ReportsOn(s, id)
    requires id in w.store && OnTimeline(w.store[id], w.clock, t, c)
    ensures OnTimeline(w'.store[id], w'.clock, t, c)
  {
    assert s.job in w.jobs;
    ElapsedGrows(c, w.store[id].attemptCount);
  }

  /** The claim that opens a timeline, or the next one along it. */
  lemma ClaimStaysOnTimeline(w: World<Box>, s: Step, w': World<Box>, c: Settings, t: int, id: string)
    requires Matched(w) && Budgeted(w, c) && Next(w, s, w') && SoloStep(w, s, c) && Claims(s, id)
    requires if w.store[id].attemptCount == 0 then t == w.clock else OnTimeline(w.store[id], w.clock, t, c)
    ensures OnTimeline(w'.store[id], w'.clock, t, c)
    ensures w.clock >= t + Elapsed(c, w.store[id].attemptCount + 1)
  {
  }

  lemma OtherStepStaysOnTimeline(w: World<Box>, s: Step, w': World<Box>, c: Settings, t: int, id: string)
    requires Inv(w) && Next(w, s, w') && !ReportsOn(s, id) && !Claims(s, id)
    requires id in w.used && (id in w.store ==> OnTimeline(w.store[id], w.clock, t, c))
    ensures id in w'.store ==> OnTimeline(w'.store[id], w'.clock, t, c)
  {
    if id in w'.store {
      assert id in w.store;
      assert w'.store[id] == w.store[id] || w'.store[id].status == Pending;
    }
  }

  /** Between the two steps no claim opens the timeline anew. */
  predicate NoRestart(ws: seq<World<Box>>, ss: seq<Step>, f: nat, i: nat, id: string)
    requires |ws| == |ss| + 1 && i <= |ss|
  {
    forall m {:trigger ss[m]} :: f < m < i ==> !Restarts(ws[m], ss[m], id)
  }

  lemma NoRestartSoFar(ws: seq<World<Box>>, ss: seq<Step>, f: nat, i: nat, id: string)
    requires |ws| == |ss| + 1 && f < i < |ss| && NoRestart(ws, ss, f, i + 1, id)
    ensures NoRestart(ws, ss, f, i, id) && !Restarts(ws[i], ss[i], id)
  {
  }

  /** Claims of the delivery among the steps from `f` up to `i`. */
  function ClaimCount(ss: seq<Step>, f: nat, i: nat, id: string): nat
    requires f <= i <= |ss|
  {
    if i == f then 0 else ClaimCount(ss, f, i - 1, id) + if Claims(ss[i - 1], id) then 1 else 0
  }

  lemma ClaimCounts(ss: seq<Step>, f: nat, i: nat, id: string)
    requires f <= i < |ss|
    ensures ClaimCount(ss, f, i + 1, id) == ClaimCount(ss, f, i, id) + if Claims(ss[i], id) then 1 else 0
  {
  }

  /** Where the timeline opened at `t` stands after `n` claims. */
  ghost predicate Standing(w: World<Box>, c: Settings, t: int, n: nat, id: string) {
    && id in w.used
    && (id in w.store ==>
          OnTimeline(w.store[id], w.clock, t, c) && (w.store[id].attemptCount == n || w.store[id].attemptCount == 0))
  }

  /** Only claims and replays touch the count. */
  lemma CountAfter(w: World<Box>, s: Step, w': World<Box>, id: string)
    requires Inv(w) && Next(w, s, w') && id in w.used && id in w'.store
    ensures id in w.store
    ensures Claims(s, id) ==> w'.store[id].attemptCount == w.store[id].attemptCount + 1
    ensures !Claims(s, id) ==> w'.store[id].attemptCount == w.store[id].attemptCount || w'.store[id].attemptCount == 0
  {
    StepKeepsOrigins(w, s, w');
    RecordAfter(w, s, w', id);
  }

  lemma StepStaysOnTimeline(w: World<Box>, s: Step, w': World<Box>, c: Settings, t: int, n: nat, id: string)
    requires Inv(w) && Matched(w) && Budgeted(w, c) && Next(w, s, w') && SoloStep(w, s, c)
    requires Standing(w, c, t, n, id) && !Restarts(w, s, id)
    ensures Standing(w', c, t, n + if Claims(s, id) then 1 else 0, id)
  {
    if id in w'.store {
      CountAfter(w, s, w', id);
      if Claims(s, id) {
        ClaimStaysOnTimeline(w, s, w', c, t, id);
      } else if ReportsOn(s, id) {
        ReportStaysOnTimeline(w, s, w', c, t, id);
      } else {
        OtherStepStaysOnTimeline(w, s, w', c, t, id);
      }
    }
  }

  lemma RestartOpens(w: World<Box>, s: Step, w': World<Box>, c: Settings, id: string)
    requires Inv(w) && Matched(w) && Budgeted(w, c) && Next(w, s, w') && SoloStep(w, s, c) && Restarts(w, s, id)
    ensures Standing(w', c, w.clock, 1, id)
  {
    ClaimStaysOnTimeline(w, s, w', c, w.clock, id);
    CountAfter(w, s, w', id);
  }

  /** The timeline's hypothesis and its step, with the run taken out. */
  ghost predicate Carries(ws: seq<World<Box>>, ss: seq<Step>, c: Settings, t: int, f: nat, i: nat, id: string) {
    && |ws| == |ss| + 1 && f < i < |ws|
    && Standing(ws[f + 1], c, t, 1, id)
    && forall k, n: nat {:trigger Standing(ws[k], c, t, n, id)} :: f < k < i && Standing(ws[k], c, t, n, id) ==>
         Standing(ws[k + 1], c, t, n + if Claims(ss[k], id) then 1 else 0, id)
  }

  lemma {:induction false} CarriedAlong(ws: seq<World<Box>>, ss: seq<Step>, c: Settings, t: int, f: nat, i: nat,
                                        id: string)
    requires Carries(ws, ss, c, t, f, i, id) && Claims(ss[f], id)
    ensures Standing(ws[i], c, t, ClaimCount(ss, f, i, id), id)
    decreases i
  {
    if i == f + 1 {
      assert ClaimCount(ss, f, f + 1, id) == ClaimCount(ss, f, f, id) + 1;
    } else {
      CarriedAlong(ws, ss, c, t, f, i - 1, id);
      var s, n := ss[i - 1], ClaimCount(ss, f, i - 1, id);
      assert Standing(ws[i - 1], c, t, n, id);
    }
  }

  lemma RunStepStands(ws: seq<World<Box>>, ss: seq<Step>, c: Settings, t: int, n: nat, k: nat, id: string)
    requires SoloRun(ws, ss, c) && k < |ss| && !Restarts(ws[k], ss[k], id) && Standing(ws[k], c, t, n, id)
    ensures Standing(ws[k + 1], c, t, n + if Claims(ss[k], id) then 1 else 0, id)
  {
    SoloReachable(ws, ss, c, k);
    assert Next(ws[k], ss[k], ws[k + 1]) && SoloStep(ws[k], ss[k], c);
    StepStaysOnTimeline(ws[k], ss[k], ws[k + 1], c, t, n, id);
  }

  lemma RunStepOpens(ws: seq<World<Box>>, ss: seq<Step>, c: Settings, f: nat, id: string)
    requires SoloRun(ws, ss, c) && f < |ss| && Restarts(ws[f], ss[f], id)
    ensures Standing(ws[f + 1], c, ws[f].clock, 1, id)
  {
    SoloReachable(ws, ss, c, f);
    assert Next(ws[f], ss[f], ws[f + 1]) && SoloStep(ws[f], ss[f], c);
    RestartOpens(ws[f], ss[f], ws[f + 1], c, id);
  }

  /** From a restart on, the stored count is the number of claims, or a replay has reset it. */
  lemma TimelineHolds(ws: seq<World<Box>>, ss: seq<Step>, c: Settings, f: nat, i: nat, id: string)
    requires SoloRun(ws, ss, c) && f < i < |ws|
    requires Restarts(ws[f], ss[f], id) && NoRestart(ws, ss, f, i, id)
    ensures Standing(ws[i], c, ws[f].clock, ClaimCount(ss, f, i, id), id)
  {
    var t := ws[f].clock;
    RunStepOpens(ws, ss, c, f, id);
    forall k, n: nat {:trigger Standing(ws[k], c, t, n, id)} | f < k < i && Standing(ws[k], c, t, n, id)
      ensures Standing(ws[k + 1], c, t, n + if Claims(ss[k], id) then 1 else 0, id)
    {
      RunStepStands(ws, ss, c, t, n, k, id);
    }
    CarriedAlong(ws, ss, c, t, f, i, id);
  }

  lemma ClaimInTime(w: World<Box>, s: Step, w': World<Box>, c: Settings, t: int, n: nat, id: string)
    requires Matched(w) && Budgeted(w, c) && Next(w, s, w') && SoloStep(w, s, c)
    requires Standing(w, c, t, n, id) && Claims(s, id) && !Restarts(w, s, id)
    ensures id in w.store && w.store[id].attemptCount == n && w.clock - t >= Elapsed(c, n + 1)
  {
    ClaimStaysOnTimeline(w, s, w', c, t, id);
  }

  lemma NextClaim(ws: seq<World<Box>>, ss: seq<Step>, c: Settings, t: int, n: nat, m: nat, k: nat, id: string)
    requires SoloRun(ws, ss, c) && k < |ss| && Claims(ss[k], id) && !Restarts(ws[k], ss[k], id)
    requires Standing(ws[k], c, t, n, id) && m == n + 1
    ensures id in ws[k].store && ws[k].store[id].attemptCount == n && ws[k].clock - t >= Elapsed(c, m)
  {
    SoloReachable(ws, ss, c, k);
    assert Next(ws[k], ss[k], ws[k + 1]) && SoloStep(ws[k], ss[k], c);
    ClaimInTime(ws[k], ss[k], ws[k + 1], c, t, n, id);
  }

  /**
   Counting the claims of a delivery since the first one after it was enqueued or replayed, the
   k-th comes at least base * (2^(k-1) - 1) seconds after the first.
   */
  lemma BackoffTimeline(ws: seq<World<Box>>, ss: seq<Step>, c: Settings, f: nat, i: nat, id: string)
    requires SoloRun(ws, ss, c) && f < i < |ss|
    requires Restarts(ws[f], ss[f], id) && NoRestart(ws, ss, f, i + 1, id)
    requires Claims(ss[i], id)
    ensures id in ws[i].store && ws[i].store[id].attemptCount == ClaimCount(ss, f, i, id)
    ensures ws[i].clock - ws[f].clock >= Elapsed(c, ClaimCount(ss, f, i + 1, id))
  {
    var n := ClaimCount(ss, f, i, id);
    ClaimCounts(ss, f, i, id);
    NoRestartSoFar(ws, ss, f, i, id);
    TimelineHolds(ws, ss, c, f, i, id);
    NextClaim(ws, ss, c, ws[f].clock, n, ClaimCount(ss, f, i + 1, id), i, id);
  }
}
