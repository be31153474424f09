/**
 Settlement in the protocol, so for both stores: with one worker that does not crash, no new
 event and no replay, every claim uses attempts up, every claimed delivery gets exactly one
 report, and the outbox ends with delivered, failed and dead-lettered records only.
 */
module Settlement {
  import opened Common
  import opened Deliveries
  import opened Protocol
  import opened SoloWorker
  import opened ClaimChoice
  import J = JsonOutbox
  import R = JsonRuns
  import P = PgOutbox
  import A = StoreAgreement

  /** No new event and no replay. */
  predicate Closed(s: Step) {
    !(s.Enqueue? && s.created) && !s.ReplayOne?
  }

  predicate Open(d: Delivery) {
    Waiting(d) || d.status == Delivering
  }

  ghost predicate Settled(box: Box) {
    forall id :: id in box ==> !Open(box[id])
  }

  // ---------------------------------------------------------- attempts left

  /** The attempts still to be made, one by one: which delivery, and after how many others. */
  function AttemptsLeft(box: Box, c: Settings): set<(string, int)> {
    set id, k: int | id in box && box[id].attemptCount <= k < c.Budget() && Open(box[id]) :: (id, k)
  }

  /** The attempt a claim of each of these makes. */
  function NextAttempts(box: Box, taken: set<string>): set<(string, int)>
    requires taken <= box.Keys
  {
    set id | id in taken :: (id, box[id].attemptCount as int)
  }

  lemma {:induction false} OneAttemptEach(box: Box, taken: set<string>)
    requires taken <= box.Keys
    ensures |NextAttempts(box, taken)| == |taken|
    decreases |taken|
  {
    if taken != {} {
      var id :| id in taken;
      OneAttemptEach(box, taken - {id});
      assert NextAttempts(box, taken) == NextAttempts(box, taken - {id}) + {(id, box[id].attemptCount as int)};
    }
  }

  lemma ReportedWasOpen(w: World<Box>, s: Step, id: string)
    requires Matched(w) && Enabled(w, s) && WritesReport(s) && s.job.id == id
    ensures id in w.store && w.store[id].status == Delivering
  {
    assert s.job in w.jobs;
  }

  /** A report leaves an open record of one that was in hand, with its count. */
  lemma ReportedStays(w: World<Box>, s: Step, w': World<Box>, id: string)
    requires Matched(w) && Next(w, s, w') && WritesReport(s) && s.job.id == id && id in w'.store
    ensures id in w.store && Open(w.store[id]) && w'.store[id].attemptCount == w.store[id].attemptCount
  {
    ReportedWasOpen(w, s, id);
    RecordAfter(w, s, w', id);
  }

  lemma StillOpenWasOpen(w: World<Box>, s: Step, w': World<Box>, id: string)
    requires Inv(w) && Matched(w) && Next(w, s, w') && Closed(s) && id in w'.store && Open(w'.store[id])
    ensures id in w.store && Open(w.store[id])
    ensures w'.store[id].attemptCount == w.store[id].attemptCount + if Claims(s, id) then 1 else 0
  {
    if WritesReport(s) && s.job.id == id {
      ReportedStays(w, s, w', id);
    } else {
      StepKeepsOrigins(w, s, w');
      RecordAfter(w, s, w', id);
    }
  }

  /** No step adds an attempt. */
  lemma AttemptsShrink(w: World<Box>, s: Step, w': World<Box>, c: Settings)
    requires Inv(w) && Matched(w) && Next(w, s, w') && Closed(s)
    ensures AttemptsLeft(w'.store, c) <= AttemptsLeft(w.store, c)
  {
    forall p | p in AttemptsLeft(w'.store, c) ensures p in AttemptsLeft(w.store, c) {
      StillOpenWasOpen(w, s, w', p.0);
    }
  }

  /** A claim makes one attempt of each delivery it takes. */
  lemma ClaimUsesUp(w: World<Box>, s: Step, w': World<Box>, c: Settings)
    requires Inv(w) && Matched(w) && Budgeted(w, c) && Next(w, s, w') && SoloStep(w, s, c) && s.Claim?
    ensures |AttemptsLeft(w'.store, c)| + |s.taken| <= |AttemptsLeft(w.store, c)|
  {
    var before, after, made := AttemptsLeft(w.store, c), AttemptsLeft(w'.store, c), NextAttempts(w.store, s.taken);
    AttemptsShrink(w, s, w', c);
    forall id | id in s.taken ensures (id, w.store[id].attemptCount as int) in before {
      assert WithinBudget(w.store[id], c);
      assert w.store[id].status != Delivering;
    }
    forall p | p in after ensures p !in made { StillOpenWasOpen(w, s, w', p.0); }
    OneAttemptEach(w.store, s.taken);
    assert |after + made| == |after| + |made|;
    SubsetSize(after + made, before);
  }

  // ------------------------------------------------------------- over a run

  /** The steps from `i` up to `j` bring nothing new. */
  predicate ClosedBetween(ss: seq<Step>, i: nat, j: nat) {
    forall k {:trigger ss[k]} :: i <= k < j && k < |ss| ==> Closed(ss[k])
  }

  /** Deliveries claimed in the steps from `i` up to `j`. */
  function Attempted(ss: seq<Step>, i: nat, j: nat): nat
    requires i <= j <= |ss|
  {
    if j == i then 0 else Attempted(ss, i, j - 1) + if ss[j - 1].Claim? then |ss[j - 1].taken| else 0
  }

  lemma RunStepUsesUp(ws: seq<World<Box>>, ss: seq<Step>, c: Settings, k: nat)
    requires SoloRun(ws, ss, c) && k < |ss| && Closed(ss[k])
    ensures |AttemptsLeft(ws[k + 1].store, c)| + (if ss[k].Claim? then |ss[k].taken| else 0) <=
      |AttemptsLeft(ws[k].store, c)|
  {
    SoloReachable(ws, ss, c, k);
    assert Next(ws[k], ss[k], ws[k + 1]) && SoloStep(ws[k], ss[k], c);
    if ss[k].Claim? {
      ClaimUsesUp(ws[k], ss[k], ws[k + 1], c);
    } else {
      AttemptsShrink(ws[k], ss[k], ws[k + 1], c);
      SubsetSize(AttemptsLeft(ws[k + 1].store, c), AttemptsLeft(ws[k].store, c));
    }
  }

  /** How many attempts are left in each world. */
  function LeftCounts(ws: seq<World<Box>>, c: Settings): seq<nat> {
    seq(|ws|, k requires 0 <= k < |ws| => |AttemptsLeft(ws[k].store, c)|)
  }

  lemma {:induction false} AttemptsAddUp(left: seq<nat>, ss: seq<Step>, i: nat, j: nat)
    requires |left| == |ss| + 1 && i <= j < |left|
    requires forall k {:trigger ss[k]} :: i <= k < j ==>
      left[k + 1] + (if ss[k].Claim? then |ss[k].taken| else 0) <= left[k]
    ensures Attempted(ss, i, j) + left[j] <= left[i]
  {
    if i < j {
      AttemptsAddUp(left, ss, i, j - 1);
      var s := ss[j - 1];
    }
  }

  ghost predicate UsesUp(ws: seq<World<Box>>, ss: seq<Step>, c: Settings, k: nat)
    requires |ws| == |ss| + 1 && k < |ss|
  {
    |AttemptsLeft(ws[k + 1].store, c)| + (if ss[k].Claim? then |ss[k].taken| else 0) <= |AttemptsLeft(ws[k].store, c)|
  }

  lemma AllUseUp(ws: seq<World<Box>>, ss: seq<Step>, c: Settings, i: nat, j: nat)
    requires SoloRun(ws, ss, c) && i <= j < |ws| && ClosedBetween(ss, i, j)
    ensures forall k :: i <= k < j ==> UsesUp(ws, ss, c, k)
  {
    forall k | i <= k < j ensures UsesUp(ws, ss, c, k) {
      var s := ss[k];
      RunStepUsesUp(ws, ss, c, k);
    }
  }

  /** The same, with the run taken out. */
  lemma AttemptsCount(ws: seq<World<Box>>, ss: seq<Step>, c: Settings, i: nat, j: nat)
    requires |ws| == |ss| + 1 && i <= j < |ws| && forall k :: i <= k < j ==> UsesUp(ws, ss, c, k)
    ensures Attempted(ss, i, j) + |AttemptsLeft(ws[j].store, c)| <= |AttemptsLeft(ws[i].store, c)|
  {
    var left := LeftCounts(ws, c);
    forall k {:trigger ss[k]} | i <= k < j
      ensures left[k + 1] + (if ss[k].Claim? then |ss[k].taken| else 0) <= left[k]
    {
      assert UsesUp(ws, ss, c, k);
    }
    AttemptsAddUp(left, ss, i, j);
  }

  /** Whatever Core answers, attempts made plus attempts left never exceed the attempts left at the start. */
  lemma AttemptsBounded(ws: seq<World<Box>>, ss: seq<Step>, c: Settings, i: nat, j: nat)
    requires SoloRun(ws, ss, c) && i <= j < |ws| && ClosedBetween(ss, i, j)
    ensures Attempted(ss, i, j) + |AttemptsLeft(ws[j].store, c)| <= |AttemptsLeft(ws[i].store, c)|
  {
    AllUseUp(ws, ss, c, i, j);
    AttemptsCount(ws, ss, c, i, j);
  }

  // --------------------------------------------------------------- settling

  ghost predicate AllDue(w: World<Box>) {
    forall id :: id in w.store && Waiting(w.store[id]) ==> AsInt(w.store[id].nextAttemptAt) <= w.clock
  }

  /** A claim that comes when everything waiting is due and takes as much as it may. */
  ghost predicate Patient(w: World<Box>, s: Step) {
    s.Claim? && AllDue(w) && Choice(w.store, w.clock, Max(1, s.limit), s.taken)
  }

  ghost function PatientOnes(ws: seq<World<Box>>, ss: seq<Step>): seq<bool>
    requires |ws| == |ss| + 1
  {
    seq(|ss|, k requires 0 <= k < |ss| => Patient(ws[k], ss[k]))
  }

  function Count(flags: seq<bool>, i: nat, j: nat): nat
    requires i <= j <= |flags|
  {
    if j == i then 0 else Count(flags, i, j - 1) + if flags[j - 1] then 1 else 0
  }

  ghost function PatientClaims(ws: seq<World<Box>>, ss: seq<Step>, i: nat, j: nat): nat
    requires |ws| == |ss| + 1 && i <= j <= |ss|
  {
    Count(PatientOnes(ws, ss), i, j)
  }

  /** Nothing waits and nothing is in hand. */
  lemma NothingLeft(w: World<Box>, c: Settings)
    requires Matched(w) && Budgeted(w, c) && w.jobs == {} && AttemptsLeft(w.store, c) == {}
    ensures Settled(w.store)
  {
    forall id | id in w.store ensures !Open(w.store[id]) {
      assert WithinBudget(w.store[id], c);
      assert (id, w.store[id].attemptCount as int) !in AttemptsLeft(w.store, c);
    }
  }

  /** A patient claim that takes nothing finds the outbox settled. */
  lemma EmptyPatientClaim(w: World<Box>, s: Step)
    requires Matched(w) && Patient(w, s) && w.jobs == {} && s.taken == {}
    ensures Settled(w.store)
  {
    forall id | id in w.store ensures !Open(w.store[id]) {
      assert id !in EligibleIds(w.store, w.clock);
    }
  }

  lemma SettledHasNoAttempts(box: Box, c: Settings)
    requires Settled(box)
    ensures AttemptsLeft(box, c) == {}
  {
  }

  lemma PatientStep(ws: seq<World<Box>>, ss: seq<Step>, c: Settings, k: nat)
    requires SoloRun(ws, ss, c) && k < |ss| && Closed(ss[k]) && Patient(ws[k], ss[k])
    ensures |AttemptsLeft(ws[k + 1].store, c)| < |AttemptsLeft(ws[k].store, c)| ||
      AttemptsLeft(ws[k + 1].store, c) == {}
  {
    SoloReachable(ws, ss, c, k);
    assert SoloStep(ws[k], ss[k], c);
    RunStepUsesUp(ws, ss, c, k);
    if ss[k].taken == {} {
      EmptyPatientClaim(ws[k], ss[k]);
      SettledHasNoAttempts(ws[k].store, c);
    }
  }

  predicate DropsAt(left: seq<nat>, patient: seq<bool>, k: nat) {
    k < |patient| && |left| == |patient| + 1
    && left[k + 1] <= left[k] && (patient[k] ==> left[k + 1] < left[k] || left[k + 1] == 0)
  }

  lemma {:induction false} PatienceAddsUp(left: seq<nat>, patient: seq<bool>, i: nat, j: nat)
    requires |left| == |patient| + 1 && i <= j < |left|
    requires forall k :: i <= k < j ==> DropsAt(left, patient, k)
    ensures left[j] + Count(patient, i, j) <= left[i] || left[j] == 0
  {
    if i < j {
      PatienceAddsUp(left, patient, i, j - 1);
      assert DropsAt(left, patient, j - 1);
    }
  }

  lemma CountsShrink(ws: seq<World<Box>>, ss: seq<Step>, c: Settings, k: nat)
    requires SoloRun(ws, ss, c) && k < |ss| && Closed(ss[k])
    ensures Shrinks(ws, ss, c, k)
  {
    RunStepUsesUp(ws, ss, c, k);
    if Patient(ws[k], ss[k]) { PatientStep(ws, ss, c, k); }
  }

  /** No step adds attempts, and a patient claim takes one away or finds none left. */
  ghost predicate Shrinks(ws: seq<World<Box>>, ss: seq<Step>, c: Settings, k: nat)
    requires |ws| == |ss| + 1 && k < |ss|
  {
    var before, after := |AttemptsLeft(ws[k].store, c)|, |AttemptsLeft(ws[k + 1].store, c)|;
    after <= before && (Patient(ws[k], ss[k]) ==> after < before || after == 0)
  }

  lemma AllShrink(ws: seq<World<Box>>, ss: seq<Step>, c: Settings, i: nat, j: nat)
    requires SoloRun(ws, ss, c) && i <= j < |ws| && ClosedBetween(ss, i, j)
    ensures forall k :: i <= k < j ==> Shrinks(ws, ss, c, k)
  {
    forall k | i <= k < j ensures Shrinks(ws, ss, c, k) {
      var s := ss[k];
      CountsShrink(ws, ss, c, k);
    }
  }

  /** The same, with the run taken out. */
  lemma PatienceCounts(ws: seq<World<Box>>, ss: seq<Step>, c: Settings, i: nat, j: nat)
    requires |ws| == |ss| + 1 && i <= j < |ws| && forall k :: i <= k < j ==> Shrinks(ws, ss, c, k)
    ensures |AttemptsLeft(ws[j].store, c)| + PatientClaims(ws, ss, i, j) <= |AttemptsLeft(ws[i].store, c)| ||
      |AttemptsLeft(ws[j].store, c)| == 0
  {
    var left, patient := LeftCounts(ws, c), PatientOnes(ws, ss);
    forall k | i <= k < j ensures DropsAt(left, patient, k) {
      assert Shrinks(ws, ss, c, k);
    }
    PatienceAddsUp(left, patient, i, j);
  }

  lemma PatienceUsesUp(ws: seq<World<Box>>, ss: seq<Step>, c: Settings, i: nat, j: nat)
    requires SoloRun(ws, ss, c) && i <= j < |ws| && ClosedBetween(ss, i, j)
    ensures |AttemptsLeft(ws[j].store, c)| + PatientClaims(ws, ss, i, j) <= |AttemptsLeft(ws[i].store, c)| ||
      |AttemptsLeft(ws[j].store, c)| == 0
  {
    AllShrink(ws, ss, c, i, j);
    PatienceCounts(ws, ss, c, i, j);
  }

  /**
   With no new event and no replay, once as many patient claims as there were attempts left have
   been made and reported, every record is delivered, failed or dead-lettered.
   */
  lemma RunSettles(ws: seq<World<Box>>, ss: seq<Step>, c: Settings, i: nat, j: nat)
    requires SoloRun(ws, ss, c) && i <= j < |ws| && ClosedBetween(ss, i, j) && ws[j].jobs == {}
    requires PatientClaims(ws, ss, i, j) >= |AttemptsLeft(ws[i].store, c)|
    ensures Settled(ws[j].store)
  {
    PatienceUsesUp(ws, ss, c, i, j);
    SoloReachable(ws, ss, c, j);
    NothingLeft(ws[j], c);
  }

  // -------------------------------------------------------- one report each

  /** Reports written on the delivery in the steps from `i` up to `j`. */
  function Reports(ss: seq<Step>, i: nat, j: nat, id: string): nat
    requires i <= j <= |ss|
  {
    if j == i then 0 else Reports(ss, i, j - 1, id) + if ReportedIn(ss[j - 1], id) then 1 else 0
  }

  ghost predicate InHand(w: World<Box>, id: string) {
    exists j :: j in w.jobs && j.id == id
  }

  lemma ClaimPutsInHand(w: World<Box>, s: Step, w': World<Box>, id: string)
    requires Next(w, s, w') && Claims(s, id)
    ensures InHand(w', id)
  {
    assert Job(id, w.claims, LeaseEnd(w.clock, s.leaseSeconds), None) in w'.jobs;
  }

  /** A delivery leaves the worker's hands by a report on it and in no other way. */
  lemma ReportEndsHold(w: World<Box>, s: Step, w': World<Box>, c: Settings, id: string)
    requires Matched(w) && Next(w, s, w') && SoloStep(w, s, c) && !Claims(s, id)
    ensures InHand(w', id) <==> InHand(w, id) && !(WritesReport(s) && s.job.id == id)
    ensures WritesReport(s) && s.job.id == id ==> InHand(w, id)
  {
    if InHand(w, id) && !(WritesReport(s) && s.job.id == id) {
      var j :| j in w.jobs && j.id == id;
      if s.ReadAttempts? && s.job == j {
        assert j.(read := s.attempts) in w'.jobs;
      } else {
        assert j in w'.jobs;
      }
    }
    if s.Finish? || s.WriteRetry? { assert s.job in w.jobs; }
  }

  predicate ReportedIn(s: Step, id: string) {
    WritesReport(s) && s.job.id == id
  }

  /** Step `k` ends the hold on the delivery exactly by reporting on it. */
  ghost predicate HoldStep(ws: seq<World<Box>>, ss: seq<Step>, id: string, k: nat)
    requires |ws| == |ss| + 1 && k < |ss|
  {
    && (InHand(ws[k + 1], id) <==> InHand(ws[k], id) && !ReportedIn(ss[k], id))
    && (ReportedIn(ss[k], id) ==> InHand(ws[k], id))
  }

  lemma RunStepHolds(ws: seq<World<Box>>, ss: seq<Step>, c: Settings, id: string, k: nat)
    requires SoloRun(ws, ss, c) && k < |ss| && !Claims(ss[k], id)
    ensures HoldStep(ws, ss, id, k)
  {
    SoloReachable(ws, ss, c, k);
    assert Next(ws[k], ss[k], ws[k + 1]) && SoloStep(ws[k], ss[k], c);
    ReportEndsHold(ws[k], ss[k], ws[k + 1], c, id);
  }

  /** From a hold on, with the run taken out: held, or reported on once. */
  lemma {:induction false} HeldOrReported(ws: seq<World<Box>>, ss: seq<Step>, i: nat, j: nat, id: string)
    requires |ws| == |ss| + 1 && i <= j < |ws| && InHand(ws[i], id)
    requires forall k :: i <= k < j ==> HoldStep(ws, ss, id, k)
    ensures Reports(ss, i, j, id) == if InHand(ws[j], id) then 0 else 1
    decreases j
  {
    if i < j {
      HeldOrReported(ws, ss, i, j - 1, id);
      assert HoldStep(ws, ss, id, j - 1);
    }
  }

  lemma RunStepTakes(ws: seq<World<Box>>, ss: seq<Step>, i: nat, id: string)
    requires Run(ws, ss) && i < |ss| && Claims(ss[i], id)
    ensures InHand(ws[i + 1], id)
  {
    assert Next(ws[i], ss[i], ws[i + 1]);
    ClaimPutsInHand(ws[i], ss[i], ws[i + 1], id);
  }

  lemma AllHold(ws: seq<World<Box>>, ss: seq<Step>, c: Settings, i: nat, j: nat, id: string)
    requires SoloRun(ws, ss, c) && i <= j < |ws|
    requires forall k {:trigger ss[k]} :: i <= k < j ==> !Claims(ss[k], id)
    ensures forall k :: i <= k < j ==> HoldStep(ws, ss, id, k)
  {
    forall k | i <= k < j ensures HoldStep(ws, ss, id, k) {
      var s := ss[k];
      RunStepHolds(ws, ss, c, id, k);
    }
  }

  /** Every claimed delivery gets exactly one report before the worker's hands are empty again. */
  lemma ClaimedGetsOneReport(ws: seq<World<Box>>, ss: seq<Step>, c: Settings, i: nat, j: nat, id: string)
    requires SoloRun(ws, ss, c) && i < j < |ws| && Claims(ss[i], id) && ws[j].jobs == {}
    requires forall k {:trigger ss[k]} :: i < k < j ==> !Claims(ss[k], id)
    ensures Reports(ss, i + 1, j, id) == 1
  {
    RunStepTakes(ws, ss, i, id);
    AllHold(ws, ss, c, i + 1, j, id);
    HeldOrReported(ws, ss, i + 1, j, id);
  }

  // ---------------------------------------------------------------- both stores

  /** The list's claims take as much as they may, always ... */
  lemma ListClaimsAreChoices(w: R.ListWorld, s: Step)
    requires J.UniqueIds(w.store) && s.Claim? && R.Answers(w.store, w.clock, s)
    ensures Choice(R.Abs(w).store, w.clock, Max(1, s.limit), s.taken)
  {
    A.ListTakesAChoice(w.store, w.clock, s.limit);
  }

  /** ... and the table's where no row is locked. */
  lemma TableClaimsAreChoices(w: P.TableWorld, s: Step, selected: seq<string>)
    requires P.Consistent(w.store) && (forall id :: id in w.store ==> Coherent(w.store[id].doc)) && s.Claim?
    requires P.DueAnswer(w.store, {}, w.clock, Max(1, s.limit), selected) && s.taken == Elements(selected)
    ensures Choice(P.Abs(w).store, w.clock, Max(1, s.limit), s.taken)
  {
    A.AnswerIsAChoice(w.store, {}, w.clock, Max(1, s.limit), selected);
    assert P.Docs(w.store) - {} == P.Docs(w.store);
  }

  lemma ListSettles(ws: seq<R.ListWorld>, ss: seq<Step>, c: Settings, i: nat, j: nat)
    requires R.ListRun(ws, ss) && SoloRun(R.AbsAll(ws), ss, c) && i <= j < |ws| && ClosedBetween(ss, i, j)
    requires ws[j].jobs == {} && PatientClaims(R.AbsAll(ws), ss, i, j) >= |AttemptsLeft(J.Contents(ws[i].store), c)|
    ensures forall k :: 0 <= k < |ws[j].store| ==> !Open(ws[j].store[k])
  {
    RunSettles(R.AbsAll(ws), ss, c, i, j);
    R.ListStaysSound(ws, ss, j);
    A.ListContents(ws[j].store);
    forall k | 0 <= k < |ws[j].store| ensures !Open(ws[j].store[k]) {
      assert J.Contents(ws[j].store)[ws[j].store[k].id] == ws[j].store[k];
    }
  }

  lemma TableSettles(ws: seq<P.TableWorld>, ss: seq<Step>, c: Settings, i: nat, j: nat)
    requires P.TableRun(ws, ss) && SoloRun(P.AbsAll(ws), ss, c) && i <= j < |ws| && ClosedBetween(ss, i, j)
    requires ws[j].jobs == {} && PatientClaims(P.AbsAll(ws), ss, i, j) >= |AttemptsLeft(P.Docs(ws[i].store), c)|
    ensures forall id :: id in ws[j].store ==> !Open(ws[j].store[id].doc)
  {
    RunSettles(P.AbsAll(ws), ss, c, i, j);
    forall id | id in ws[j].store ensures !Open(ws[j].store[id].doc) { assert id in P.Docs(ws[j].store); }
  }
}
