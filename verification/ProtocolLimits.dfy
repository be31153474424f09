/**
 What the outbox does not promise without its scheduling hypotheses: the exact steps that take a
 delivered record back or a delivery over its attempt budget, and short runs that show them.
 */
module ProtocolLimits {
  import opened Common
  import opened Deliveries
  import opened Protocol
  import opened SoloWorker

  /**
   `_update` checks neither status nor lease. So a delivered record stops being delivered in
   exactly one way: a report other than an acknowledgement arrives for it, which its former
   holder can only send late.
   */
  lemma DeliveredIsUndoneExactly(w: World<Box>, s: Step, w': World<Box>, id: string)
    requires Inv(w) && Next(w, s, w')
    requires id in w.store && w.store[id].status == Delivered && id in w'.store
    ensures w'.store[id].status != Delivered <==> ReportsOn(s, id) && !(s.Finish? && s.report.Acknowledge?)
    ensures Exclusive(w) && Timely(w, s) ==> !ReportsOn(s, id)
  {
    assert s.Finish? || s.WriteRetry? ==> s.job in w.jobs;
    assert s.WriteRetry? ==> s.job.read.Some?;
  }

  /** The step writes a report other than an acknowledgement on the stored record. */
  predicate Undoes(w: World<Box>, s: Step, id: string) {
    id in w.store && ReportsOn(s, id) && !(s.Finish? && s.report.Acknowledge?)
  }

  ghost predicate DeliveredOrPurged(w: World<Box>, id: string) {
    id in w.used && (id in w.store ==> w.store[id].status == Delivered)
  }

  lemma DeliveredNext(w: World<Box>, s: Step, w': World<Box>, id: string)
    requires Inv(w) && Next(w, s, w') && DeliveredOrPurged(w, id)
    ensures DeliveredOrPurged(w', id) <==> !Undoes(w, s, id)
  {
    assert s.Finish? || s.WriteRetry? ==> s.job in w.jobs;
    if id in w'.store {
      StepKeepsOrigins(w, s, w');
      RecordAfter(w, s, w', id);
    }
  }

  ghost predicate DeliveredThroughout(ws: seq<World<Box>>, i: nat, j: nat, id: string)
    requires j < |ws|
  {
    forall k {:trigger ws[k]} :: i <= k <= j ==> DeliveredOrPurged(ws[k], id)
  }

  predicate NeverUndone(ws: seq<World<Box>>, ss: seq<Step>, i: nat, j: nat, id: string)
    requires |ws| == |ss| + 1 && j <= |ss|
  {
    forall k {:trigger ss[k]} :: i <= k < j ==> !Undoes(ws[k], ss[k], id)
  }

  /** What the steps of a run do to a delivered record, and no more. */
  ghost predicate Undoings(ws: seq<World<Box>>, ss: seq<Step>, id: string) {
    && |ws| == |ss| + 1
    && forall k {:trigger ss[k]} :: 0 <= k < |ss| && DeliveredOrPurged(ws[k], id) ==>
         (DeliveredOrPurged(ws[k + 1], id) <==> !Undoes(ws[k], ss[k], id))
  }

  lemma {:induction false} ThroughoutExactly(ws: seq<World<Box>>, ss: seq<Step>, i: nat, j: nat, id: string)
    requires Undoings(ws, ss, id) && i <= j < |ws| && DeliveredOrPurged(ws[i], id)
    ensures DeliveredThroughout(ws, i, j, id) <==> NeverUndone(ws, ss, i, j, id)
  {
    if i < j {
      ThroughoutExactly(ws, ss, i, j - 1, id);
      var s := ss[j - 1];
    }
  }

  lemma RunStepUndoes(ws: seq<World<Box>>, ss: seq<Step>, k: nat, id: string)
    requires Run(ws, ss) && k < |ss| && DeliveredOrPurged(ws[k], id)
    ensures DeliveredOrPurged(ws[k + 1], id) <==> !Undoes(ws[k], ss[k], id)
  {
    Reachable(ws, ss, k);
    assert Next(ws[k], ss[k], ws[k + 1]);
    DeliveredNext(ws[k], ss[k], ws[k + 1], id);
  }

  /**
   Over any run: a delivered record stays delivered until it is purged for good, exactly while no
   step writes a report other than an acknowledgement on it.
   */
  lemma DeliveredStaysExactly(ws: seq<World<Box>>, ss: seq<Step>, i: nat, j: nat, id: string)
    requires Run(ws, ss) && i <= j < |ws| && id in ws[i].store && ws[i].store[id].status == Delivered
    ensures DeliveredThroughout(ws, i, j, id) <==> NeverUndone(ws, ss, i, j, id)
  {
    Reachable(ws, ss, i);
    forall k | 0 <= k < |ss| && DeliveredOrPurged(ws[k], id)
      ensures DeliveredOrPurged(ws[k + 1], id) <==> !Undoes(ws[k], ss[k], id)
    {
      RunStepUndoes(ws, ss, k, id);
    }
    ThroughoutExactly(ws, ss, i, j, id);
  }

  // ---------------------------------------------------------- attempt budget

  predicate UniformRetries(s: Step, c: Settings) {
    s.WriteRetry? ==> s.maxAttempts == c.maxAttempts
  }

  /** Claims a delivery whose holder let its lease lapse on the last attempt of the budget. */
  ghost predicate OverClaims(w: World<Box>, s: Step, c: Settings) {
    s.Claim? && exists id ::
      id in s.taken && id in w.store && w.store[id].status == Delivering && w.store[id].attemptCount == c.Budget()
  }

  /** Decides between retry and dead letter on an attempt count that says otherwise than the stored one. */
  predicate StaleRetry(w: World<Box>, s: Step, c: Settings) {
    s.WriteRetry? && s.job.read.Some? && s.job.id in w.store
    && var stored := w.store[s.job.id].attemptCount;
       if s.job.read.value >= c.Budget() then stored != c.Budget() else stored >= c.Budget()
  }

  /** A step breaks the attempt budget exactly when it over-claims or writes a stale retry. */
  lemma BudgetBreaksExactly(w: World<Box>, s: Step, w': World<Box>, c: Settings)
    requires Budgeted(w, c) && Next(w, s, w') && UniformRetries(s, c)
    ensures !Budgeted(w', c) <==> OverClaims(w, s, c) || StaleRetry(w, s, c)
  {
    if OverClaims(w, s, c) {
      var id :| id in s.taken && id in w.store && w.store[id].status == Delivering &&
        w.store[id].attemptCount == c.Budget();
      assert !WithinBudget(w'.store[id], c);
    } else if StaleRetry(w, s, c) {
      assert !WithinBudget(w'.store[s.job.id], c);
    } else {
      forall id | id in w'.store ensures WithinBudget(w'.store[id], c) {
        if id in w.store {
          assert WithinBudget(w.store[id], c);
          if !(s.Enqueue? && s.created && id == s.request.id) { RecordAfter(w, s, w', id); }
        }
      }
    }
  }

  /** Over any run: the budget has held so far exactly when no step over-claimed or wrote a stale retry. */
  lemma {:induction false} BudgetHoldsExactly(ws: seq<World<Box>>, ss: seq<Step>, c: Settings, n: nat)
    requires Run(ws, ss) && n < |ws| && forall k {:trigger ss[k]} :: 0 <= k < |ss| ==> UniformRetries(ss[k], c)
    ensures (forall i :: 0 <= i <= n ==> Budgeted(ws[i], c)) <==>
      forall k {:trigger ss[k]} :: 0 <= k < n ==> !OverClaims(ws[k], ss[k], c) && !StaleRetry(ws[k], ss[k], c)
  {
    if n > 0 {
      BudgetHoldsExactly(ws, ss, c, n - 1);
      if Budgeted(ws[n - 1], c) {
        assert Next(ws[n - 1], ss[n - 1], ws[n]) && UniformRetries(ss[n - 1], c);
        BudgetBreaksExactly(ws[n - 1], ss[n - 1], ws[n], c);
      }
    }
  }

  /** A worker still entitled to report has read the stored count. */
  ghost predicate ReadsAgree(w: World<Box>) {
    forall j :: j in w.jobs && Live(w, j) && j.read.Some? ==>
      j.id in w.store && j.read.value == w.store[j.id].attemptCount
  }

  lemma StepKeepsReads(w: World<Box>, s: Step, w': World<Box>)
    requires Inv(w) && Exclusive(w) && ReadsAgree(w) && Next(w, s, w') && Timely(w, s)
    ensures ReadsAgree(w')
  {
    forall j | j in w'.jobs && Live(w', j) && j.read.Some?
      ensures j.id in w'.store && j.read.value == w'.store[j.id].attemptCount
    {
      if s.ReadAttempts? && j == s.job.(read := s.attempts) {
        assert s.job in w.jobs && Live(w, s.job);
      } else {
        assert j in w.jobs && Live(w, j) && Held(w, j.id);
        if s.Claim? && j.id in s.taken { ClaimFindsNoHolder(w, s, j.id); }
      }
    }
  }

  lemma {:induction false} ReadsReachable(ws: seq<World<Box>>, ss: seq<Step>, i: nat)
    requires TimelyRun(ws, ss) && i < |ws|
    ensures Inv(ws[i]) && Exclusive(ws[i]) && ReadsAgree(ws[i])
  {
    TimelyReachable(ws, ss, i);
    if i > 0 {
      ReadsReachable(ws, ss, i - 1);
      StepKeepsReads(ws[i - 1], ss[i - 1], ws[i]);
    }
  }

  lemma TimelyRetryIsFresh(w: World<Box>, s: Step, c: Settings)
    requires Exclusive(w) && ReadsAgree(w) && Budgeted(w, c) && Enabled(w, s) && Timely(w, s)
    ensures !StaleRetry(w, s, c)
  {
    if s.WriteRetry? {
      assert s.job in w.jobs && Live(w, s.job);
      assert WithinBudget(w.store[s.job.id], c);
    }
  }

  /** When reports are timely only one way is left: claiming an abandoned last attempt again. */
  lemma {:induction false} TimelyBudgetExactly(ws: seq<World<Box>>, ss: seq<Step>, c: Settings, n: nat)
    requires TimelyRun(ws, ss) && n < |ws| && forall k {:trigger ss[k]} :: 0 <= k < |ss| ==> UniformRetries(ss[k], c)
    ensures (forall i :: 0 <= i <= n ==> Budgeted(ws[i], c)) <==>
      forall k {:trigger ss[k]} :: 0 <= k < n ==> !OverClaims(ws[k], ss[k], c)
  {
    if n > 0 {
      TimelyBudgetExactly(ws, ss, c, n - 1);
      if Budgeted(ws[n - 1], c) {
        assert Next(ws[n - 1], ss[n - 1], ws[n]) && UniformRetries(ss[n - 1], c) && Timely(ws[n - 1], ss[n - 1]);
        ReadsReachable(ws, ss, n - 1);
        TimelyRetryIsFresh(ws[n - 1], ss[n - 1], c);
        BudgetBreaksExactly(ws[n - 1], ss[n - 1], ws[n], c);
      }
    }
  }

  // ------------------------------------------------------------- sample runs

  const SAMPLE :=
    Event(None, Some("evt"), None, Some("meta"), Some("instagram"), Some("acc"), Some("conn"),
          None, None, None, None, "None", "")

  const REQUEST := Request("a", SAMPLE, None, None, 7)

  function Then(w: World<Box>, s: Step): World<Box> {
    After(w, s, BoxAfter(w.store, w.clock, s))
  }

  function Start(): World<Box> {
    World(1, map[], {}, 0, {})
  }

  /** Enqueue one delivery, claim it for one second, and let the lease lapse. */
  function Lapsed(): World<Box> {
    var w1 := Then(Start(), Enqueue(REQUEST, {}, true));
    var w2 := Then(w1, Claim(1, 1, {"a"}));
    Then(w2, Advance(1001))
  }

  lemma LapsedIsReachable() returns (ws: seq<World<Box>>, ss: seq<Step>)
    ensures TimelyRun(ws, ss) && |ss| == 3 && ws[3] == Lapsed() && forall k :: 0 <= k < |ss| ==> !ss[k].Crash?
    ensures Lapsed().clock == 1001 && Lapsed().claims == 1 && Lapsed().jobs == {Job("a", 0, 1001, None)}
    ensures Lapsed().store.Keys == {"a"} && Lapsed().store["a"] == Claimed(NewDelivery(REQUEST, 1), 1, 1)
  {
    ss := [Enqueue(REQUEST, {}, true), Claim(1, 1, {"a"}), Advance(1001)];
    var w1 := Then(Start(), ss[0]);
    var w2 := Then(w1, ss[1]);
    assert Minus(map[], {}) == map[];
    assert w1.store == map["a" := NewDelivery(REQUEST, 1)];
    assert w2.jobs == {Job("a", 0, 1001, None)};
    ws := [Start(), w1, w2, Lapsed()];
    assert Next(ws[0], ss[0], ws[1]);
    assert Next(ws[1], ss[1], ws[2]);
    assert Next(ws[2], ss[2], ws[3]);
  }

  lemma Extend(ws: seq<World<Box>>, ss: seq<Step>, s: Step)
    requires Run(ws, ss) && Enabled(ws[|ss|], s) && BoxAllows(ws[|ss|].store, ws[|ss|].clock, s)
    ensures Run(ws + [Then(ws[|ss|], s)], ss + [s])
  {
  }

  /** Another worker claims the abandoned delivery; both now hold it. */
  lemma ClaimedTwice() returns (ws: seq<World<Box>>, ss: seq<Step>)
    ensures Run(ws, ss) && |ss| == 4 && ws[4].clock == 1001
    ensures Job("a", 0, 1001, None) in ws[4].jobs && Job("a", 1, 2001, None) in ws[4].jobs
    ensures ws[4].store.Keys == {"a"} && ws[4].store["a"].attemptCount == 2 && ws[4].store["a"].status == Delivering
  {
    ws, ss := LapsedIsReachable();
    var again := Claim(1, 1, {"a"});
    Extend(ws, ss, again);
    var w4 := Then(ws[3], again);
    assert Job("a", 1, 2001, None) in NewJobs({"a"}, 1, 2001);
    ws, ss := ws + [w4], ss + [again];
  }

  lemma LateReader() returns (ws: seq<World<Box>>, ss: seq<Step>)
    ensures Run(ws, ss) && |ss| == 4 && (forall k :: 0 <= k < |ss| ==> !ss[k].Crash?) && ws[4].clock == 1001
    ensures ws[4].jobs == {Job("a", 0, 1001, Some(1))}
    ensures ws[4].store.Keys == {"a"} && ws[4].store["a"] == Claimed(NewDelivery(REQUEST, 1), 1, 1)
  {
    ws, ss := LapsedIsReachable();
    var read := ReadAttempts(Job("a", 0, 1001, None), Some(1));
    Extend(ws, ss, read);
    ws, ss := ws + [Then(ws[3], read)], ss + [read];
  }

  /** With no crash at all: a retry decided on an old count leaves a delivery waiting with its two attempts used up. */
  lemma StaleRetryExceedsBudget(c: Settings) returns (ws: seq<World<Box>>, ss: seq<Step>)
    requires c.maxAttempts == 2
    ensures Run(ws, ss) && |ss| == 6 && forall k :: 0 <= k < |ss| ==> !ss[k].Crash?
    ensures StaleRetry(ws[5], ss[5], c) && !Budgeted(ws[6], c)
    ensures "a" in ws[6].store && ws[6].store["a"].status == Retry && ws[6].store["a"].attemptCount == c.Budget()
  {
    ws, ss := LateReader();
    var again, late := Claim(1, 1, {"a"}), WriteRetry(Job("a", 0, 1001, Some(1)), "late", 2, 0);
    Extend(ws, ss, again);
    ws, ss := ws + [Then(ws[4], again)], ss + [again];
    assert late.job in ws[5].jobs && "a" in ws[5].store && ws[5].store["a"].attemptCount == 2;
    Extend(ws, ss, late);
    ws, ss := ws + [Then(ws[5], late)], ss + [late];
    assert ws[6].store == Update(ws[5].store, "a", RetryReport(1, "late", 2, 0), ws[5].clock);
    assert !WithinBudget(ws[6].store["a"], c);
  }

  /** A worker that reports after its lease lapsed fails a delivery another worker delivered. */
  lemma LateReportUndoesDelivery() returns (ws: seq<World<Box>>, ss: seq<Step>)
    ensures Run(ws, ss) && |ss| == 6
    ensures "a" in ws[5].store && ws[5].store["a"].status == Delivered
    ensures "a" in ws[6].store && ws[6].store["a"].status == Failed
  {
    ws, ss := ClaimedTwice();
    var done, late :=
      Finish(Job("a", 1, 2001, None), Acknowledge(false)), Finish(Job("a", 0, 1001, None), Reject("late"));
    var w5 := Then(ws[4], done);
    Extend(ws, ss, done);
    ws, ss := ws + [w5], ss + [done];
    assert late.job in w5.jobs;
    Extend(ws, ss, late);
    ws, ss := ws + [Then(w5, late)], ss + [late];
  }

  lemma CrashedHolder() returns (ws: seq<World<Box>>, ss: seq<Step>)
    ensures TimelyRun(ws, ss) && |ss| == 4 && ss[3].Crash? && ws[4].clock == 1001
    ensures ws[4].store.Keys == {"a"} && ws[4].store["a"] == Claimed(NewDelivery(REQUEST, 1), 1, 1)
  {
    ws, ss := LapsedIsReachable();
    var crash := Crash(ws[3].jobs);
    Extend(ws, ss, crash);
    ws, ss := ws + [Then(ws[3], crash)], ss + [crash];
  }

  /** Claiming an abandoned lease again is not capped: one crash, and a budget of one attempt is exceeded. */
  lemma CrashExceedsBudget(c: Settings) returns (ws: seq<World<Box>>, ss: seq<Step>)
    requires c.maxAttempts == 1
    ensures TimelyRun(ws, ss) && |ss| == 5 && ss[3].Crash?
    ensures Budgeted(ws[4], c) && OverClaims(ws[4], ss[4], c) && !Budgeted(ws[5], c)
    ensures "a" in ws[5].store && ws[5].store["a"].attemptCount == 2 > c.Budget()
  {
    ws, ss := CrashedHolder();
    var again := Claim(1, 1, {"a"});
    Extend(ws, ss, again);
    ws, ss := ws + [Then(ws[4], again)], ss + [again];
    assert WithinBudget(ws[4].store["a"], c) && !WithinBudget(ws[5].store["a"], c);
  }
}
