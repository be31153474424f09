/**
 Bounded waiting in the list store: with one worker that never crashes, no replay and a backoff
 of at least a second, a due delivery is overtaken by nobody, whatever is enqueued or retried
 meanwhile, so it is claimed after at most r / L + 1 batches of size L.
 */
module BoundedWaiting {
  import opened Common
  import opened Deliveries
  import opened Protocol
  import opened SoloWorker
  import opened JsonOutbox
  import opened JsonRuns

  /** Waiting records that the next claims will take before `id`. */
  ghost function Ahead(ds: Records, id: string): set<string>
    requires FindIndex(ds, id) < |ds|
  {
    set j: nat | j < |ds| && Waiting(ds[j]) && Before(ds, j, FindIndex(ds, id)) :: ds[j].id
  }

  ghost predicate Due(w: ListWorld, id: string) {
    var p := FindIndex(w.store, id);
    p < |w.store| && Waiting(w.store[p]) && AsInt(w.store[p].nextAttemptAt) <= w.clock
  }

  /** One step of the window under study. */
  predicate Steady(s: Step, batch: nat) {
    && !s.ReplayOne?
    && (s.Claim? ==> Max(1, s.limit) == batch)
    && (s.WriteRetry? ==> s.backoffSeconds >= 1)
  }

  /** What the invariants say about a list between two steps. */
  ghost predicate Steadied(w: ListWorld) {
    && UniqueIds(w.store) && Inv(Abs(w)) && Matched(Abs(w))
  }

  lemma ListFacts(w: ListWorld)
    requires Steadied(w)
    ensures forall i :: 0 <= i < |w.store| ==> w.store[i].createdAt <= w.clock
    ensures forall i :: 0 <= i < |w.store| && w.store[i].status == Delivering ==>
      exists j :: j in w.jobs && j.id == w.store[i].id
    ensures forall j :: j in w.jobs ==>
      FindIndex(w.store, j.id) < |w.store| && w.store[FindIndex(w.store, j.id)].status == Delivering
  {
    var ds := w.store;
    ContentsRepresented(ds, Contents(ds));
    forall j | j in w.jobs ensures FindIndex(ds, j.id) < |ds| && ds[FindIndex(ds, j.id)].status == Delivering {
      assert Contents(ds)[ds[FindIndex(ds, j.id)].id] == ds[FindIndex(ds, j.id)];
    }
  }

  // --------------------------------------------------- nobody overtakes

  lemma SurvivorPlace(ds: Records, now: int, retentionDays: int, p: nat) returns (k: nat)
    requires p < |ds| && !Expired(ds[p], now, retentionDays)
    ensures k < |Survivors(ds, now, retentionDays)| && Survivors(ds, now, retentionDays)[k] == p
  {
    assert p in Survivors(ds, now, retentionDays);
    k :| 0 <= k < |Survivors(ds, now, retentionDays)| && Survivors(ds, now, retentionDays)[k] == p;
  }

  /** A record that survives an enqueue keeps its place among the survivors. */
  lemma EnqueueKeepsPlace(ds: Records, r: Request, now: int, id: string) returns (ps: seq<nat>, k: nat)
    requires UniqueIds(Enqueued(ds, r, now)) && Created(ds, r)
    requires FindIndex(ds, id) < |ds| && Waiting(ds[FindIndex(ds, id)])
    ensures var es := Enqueued(ds, r, now);
      && |es| == |ps| + 1 && k < |ps| && ps[k] == FindIndex(ds, id) && FindIndex(es, id) == k
      && es[|ps|] == NewDelivery(r, now)
      && (forall j :: 0 <= j < |ps| ==> ps[j] < |ds| && es[j] == ds[ps[j]])
      && (forall i, j :: 0 <= i < j < |ps| ==> ps[i] < ps[j])
  {
    var es, p := Enqueued(ds, r, now), FindIndex(ds, id);
    ps := Survivors(ds, now, r.retentionDays);
    k := SurvivorPlace(ds, now, r.retentionDays, p);
    assert es == WithoutExpired(ds, now, r.retentionDays) + [NewDelivery(r, now)];
    assert es[k] == ds[p];
    FindAt(es, k);
  }

  lemma EnqueueOvertakesNobody(ds: Records, r: Request, now: int, id: string)
    requires UniqueIds(Enqueued(ds, r, now))
    requires FindIndex(ds, id) < |ds| && Waiting(ds[FindIndex(ds, id)])
    requires AsInt(ds[FindIndex(ds, id)].nextAttemptAt) <= now && ds[FindIndex(ds, id)].createdAt <= now
    ensures var es := Enqueued(ds, r, now);
      && FindIndex(es, id) < |es| && es[FindIndex(es, id)] == ds[FindIndex(ds, id)]
      && Ahead(es, id) <= Ahead(ds, id)
  {
    if Created(ds, r) {
      var es, p := Enqueued(ds, r, now), FindIndex(ds, id);
      var ps, k := EnqueueKeepsPlace(ds, r, now, id);
      forall x | x in Ahead(es, id) ensures x in Ahead(ds, id) {
        var j: nat :| j < |es| && Waiting(es[j]) && Before(es, j, k) && es[j].id == x;
        assert j < |ps|;
        assert Before(ds, ps[j], p) && ds[ps[j]].id == x;
      }
    }
  }

  lemma ReportKeepsPlaces(ds: Records, holder: string, report: Report, now: int, id: string)
    requires UniqueIds(ds) && FindIndex(ds, id) < |ds|
    ensures var es := Updated(ds, holder, report, now);
      && UniqueIds(es) && |es| == |ds| && FindIndex(es, id) == FindIndex(ds, id)
      && forall i: nat :: i < |ds| && ds[i].id != holder ==> es[i] == ds[i]
  {
    var es := Updated(ds, holder, report, now);
    assert forall i :: 0 <= i < |ds| ==> es[i].id == ds[i].id;
    FindAt(es, FindIndex(ds, id));
  }

  lemma ReportOvertakesNobody(ds: Records, holder: string, report: Report, now: int, id: string)
    requires UniqueIds(ds)
    requires FindIndex(ds, holder) < |ds| && ds[FindIndex(ds, holder)].status == Delivering
    requires FindIndex(ds, id) < |ds| && Waiting(ds[FindIndex(ds, id)])
    requires AsInt(ds[FindIndex(ds, id)].nextAttemptAt) <= now
    requires report.Reschedule? ==> report.delaySeconds >= 1
    ensures var es := Updated(ds, holder, report, now);
      && FindIndex(es, id) == FindIndex(ds, id) && es[FindIndex(ds, id)] == ds[FindIndex(ds, id)]
      && Ahead(es, id) <= Ahead(ds, id)
  {
    var es, p := Updated(ds, holder, report, now), FindIndex(ds, id);
    ReportKeepsPlaces(ds, holder, report, now, id);
    assert es[p] == ds[p];
    forall x | x in Ahead(es, id) ensures x in Ahead(ds, id) {
      var j: nat :| j < |es| && Waiting(es[j]) && Before(es, j, p) && es[j].id == x;
      assert j != FindIndex(ds, holder);
      assert es[j] == ds[j] && Before(ds, j, p);
    }
  }

  lemma TakenFromAhead(ds: Records, now: int, limit: int, id: string)
    requires UniqueIds(ds) && forall i :: 0 <= i < |ds| ==> ds[i].status != Delivering
    requires FindIndex(ds, id) < |ds| && Eligible(ds[FindIndex(ds, id)], now)
    requires id !in IdsAt(ds, Taken(ds, now, limit))
    ensures var taken := IdsAt(ds, Taken(ds, now, limit)); |taken| == Max(1, limit) && taken <= Ahead(ds, id)
  {
    var picks, p := Taken(ds, now, limit), FindIndex(ds, id);
    TakenIsLeast(ds, now, limit);
    OrderNoRepeats(ds, picks);
    IdsAtSize(ds, picks);
    assert p !in picks;
    forall x | x in picks ensures ds[x].id in Ahead(ds, id) {
      assert Eligible(ds[x], now) && Before(ds, x, p);
    }
  }

  lemma ClaimKeepsPlace(ds: Records, picks: seq<nat>, now: int, leaseSeconds: int, id: string)
    requires UniqueIds(ds) && FindIndex(ds, id) < |ds| && FindIndex(ds, id) !in picks
    ensures var es := ClaimedList(ds, picks, now, leaseSeconds);
      FindIndex(es, id) == FindIndex(ds, id) && es[FindIndex(ds, id)] == ds[FindIndex(ds, id)]
  {
  }

  lemma StillAhead(ds: Records, picks: seq<nat>, now: int, leaseSeconds: int, id: string, x: string)
    requires UniqueIds(ds) && FindIndex(ds, id) < |ds| && FindIndex(ds, id) !in picks
    requires forall k :: k in picks ==> k < |ds|
    requires FindIndex(ClaimedList(ds, picks, now, leaseSeconds), id) == FindIndex(ds, id)
    requires x in Ahead(ClaimedList(ds, picks, now, leaseSeconds), id)
    ensures x in Ahead(ds, id) && x !in IdsAt(ds, picks)
  {
  }

  /** A batch that leaves a due record behind takes a whole batch of records from ahead of it. */
  lemma ClaimEatsAhead(ds: Records, now: int, limit: int, leaseSeconds: int, id: string)
    requires UniqueIds(ds) && forall i :: 0 <= i < |ds| ==> ds[i].status != Delivering
    requires FindIndex(ds, id) < |ds| && Eligible(ds[FindIndex(ds, id)], now)
    requires id !in IdsAt(ds, Taken(ds, now, limit))
    ensures var es := ClaimedList(ds, Taken(ds, now, limit), now, leaseSeconds);
      && FindIndex(es, id) < |es| && es[FindIndex(es, id)] == ds[FindIndex(ds, id)]
      && |Ahead(es, id)| + Max(1, limit) <= |Ahead(ds, id)|
  {
    var picks := Taken(ds, now, limit);
    var es, taken := ClaimedList(ds, picks, now, leaseSeconds), IdsAt(ds, picks);
    TakenFromAhead(ds, now, limit, id);
    ClaimKeepsPlace(ds, picks, now, leaseSeconds, id);
    forall x | x in Ahead(es, id) ensures x in Ahead(ds, id) - taken {
      StillAhead(ds, picks, now, leaseSeconds, id, x);
    }
    SubsetSize(Ahead(es, id), Ahead(ds, id) - taken);
  }

  lemma ReportKeepsDue(w: ListWorld, holder: string, report: Report, id: string)
    requires Steadied(w) && Due(w, id) && (exists j :: j in w.jobs && j.id == holder)
    requires report.Reschedule? ==> report.delaySeconds >= 1
    ensures var es := Updated(w.store, holder, report, w.clock);
      && FindIndex(es, id) == FindIndex(w.store, id) && es[FindIndex(w.store, id)] == w.store[FindIndex(w.store, id)]
      && |Ahead(es, id)| <= |Ahead(w.store, id)|
  {
    ListFacts(w);
    ReportOvertakesNobody(w.store, holder, report, w.clock, id);
    SubsetSize(Ahead(Updated(w.store, holder, report, w.clock), id), Ahead(w.store, id));
  }

  lemma ReportStepOvertakesNobody(w: ListWorld, s: Step, w': ListWorld, c: Settings, id: string, batch: nat)
    requires Steadied(w) && Due(w, id) && ListNext(w, s, w') && UniqueIds(w'.store)
    requires SoloStep(Abs(w), s, c) && Steady(s, batch) && (s.Finish? || s.WriteRetry?)
    ensures Due(w', id) && |Ahead(w'.store, id)| <= |Ahead(w.store, id)|
  {
    assert s.job in w.jobs;
    if s.Finish? {
      ReportKeepsDue(w, s.job.id, s.report, id);
    } else {
      BackoffAtLeastOne(s.backoffSeconds, s.job.read.value);
      ReportKeepsDue(w, s.job.id, RetryReport(s.job.read.value, s.error, s.maxAttempts, s.backoffSeconds), id);
    }
  }

  lemma StepOvertakesNobody(w: ListWorld, s: Step, w': ListWorld, c: Settings, id: string, batch: nat)
    requires Steadied(w) && Due(w, id) && ListNext(w, s, w') && UniqueIds(w'.store)
    requires SoloStep(Abs(w), s, c) && Steady(s, batch) && !Claims(s, id)
    ensures Due(w', id)
    ensures |Ahead(w'.store, id)| + (if s.Claim? then batch else 0) <= |Ahead(w.store, id)|
  {
    if s.Enqueue? {
      ListFacts(w);
      EnqueueOvertakesNobody(w.store, s.request, w.clock, id);
      SubsetSize(Ahead(w'.store, id), Ahead(w.store, id));
    } else if s.Claim? {
      ListFacts(w);
      ClaimEatsAhead(w.store, w.clock, s.limit, s.leaseSeconds, id);
    } else if s.Finish? || s.WriteRetry? {
      ReportStepOvertakesNobody(w, s, w', c, id, batch);
    }
  }

  function ClaimCalls(ss: seq<Step>): nat {
    if ss == [] then 0 else ClaimCalls(ss[..|ss| - 1]) + if ss[|ss| - 1].Claim? then 1 else 0
  }

  ghost predicate SoloListRun(ws: seq<ListWorld>, ss: seq<Step>, c: Settings) {
    ListRun(ws, ss) && forall i {:trigger ss[i]} :: 0 <= i < |ss| ==> SoloStep(Abs(ws[i]), ss[i], c)
  }

  lemma SteadiedEverywhere(ws: seq<ListWorld>, ss: seq<Step>, c: Settings, i: nat)
    requires SoloListRun(ws, ss, c) && i < |ws|
    ensures Steadied(ws[i])
  {
    ListRunsFollow(ws, ss);
    assert SoloRun(AbsAll(ws), ss, c);
    SoloReachable(AbsAll(ws), ss, c, i);
  }

  lemma ClaimCallsGrow(ss: seq<Step>, a: nat, b: nat, batch: nat)
    requires a <= b < |ss|
    ensures ClaimCalls(ss[a..b + 1]) * batch == ClaimCalls(ss[a..b]) * batch + (if ss[b].Claim? then batch else 0)
  {
    assert ss[a..b + 1][..b - a] == ss[a..b] && ss[a..b + 1][b - a] == ss[b];
    var n := ClaimCalls(ss[a..b]);
    assert (n + 1) * batch == n * batch + batch;
  }

  lemma WindowStep(ws: seq<ListWorld>, ss: seq<Step>, c: Settings, id: string, batch: nat, k: nat)
    requires SoloListRun(ws, ss, c) && k < |ss| && Due(ws[k], id) && Steady(ss[k], batch) && !Claims(ss[k], id)
    ensures Due(ws[k + 1], id)
    ensures |Ahead(ws[k + 1].store, id)| + (if ss[k].Claim? then batch else 0) <= |Ahead(ws[k].store, id)|
  {
    SteadiedEverywhere(ws, ss, c, k);
    SteadiedEverywhere(ws, ss, c, k + 1);
    StepOvertakesNobody(ws[k], ss[k], ws[k + 1], c, id, batch);
  }

  /** From a store where `id` is due the step leaves it due, nobody new ahead, and a batch less after a claim. */
  ghost predicate Shrinks(w: ListWorld, s: Step, w': ListWorld, id: string, batch: nat) {
    Due(w, id) ==>
      Due(w', id) && |Ahead(w'.store, id)| + (if s.Claim? then batch else 0) <= |Ahead(w.store, id)|
  }

  ghost predicate Shrinking(ws: seq<ListWorld>, ss: seq<Step>, id: string, batch: nat, a: nat, b: nat)
    requires b <= |ss| < |ws|
  {
    forall k {:trigger ss[k]} :: a <= k < b ==> Shrinks(ws[k], ss[k], ws[k + 1], id, batch)
  }

  lemma {:induction false} ShrinksBy(ws: seq<ListWorld>, ss: seq<Step>, id: string, batch: nat, a: nat, k: nat, b: nat)
    requires a <= k <= b <= |ss| < |ws| && Shrinking(ws, ss, id, batch, a, b) && Due(ws[a], id)
    ensures Due(ws[k], id)
    ensures |Ahead(ws[k].store, id)| + ClaimCalls(ss[a..k]) * batch <= |Ahead(ws[a].store, id)|
  {
    if a < k {
      ShrinksBy(ws, ss, id, batch, a, k - 1, b);
      ClaimCallsGrow(ss, a, k - 1, batch);
      assert Shrinks(ws[k - 1], ss[k - 1], ws[k], id, batch);
    } else {
      assert ss[a..k] == [];
    }
  }

  /** Over a window in which `id` is not claimed, the queue ahead of it falls by a batch per claim. */
  lemma QueueShrinks(ws: seq<ListWorld>, ss: seq<Step>, c: Settings, id: string, batch: nat, a: nat, b: nat)
    requires SoloListRun(ws, ss, c) && a <= b < |ws| && Due(ws[a], id)
    requires forall k {:trigger ss[k]} :: a <= k < b ==> Steady(ss[k], batch) && !Claims(ss[k], id)
    ensures Due(ws[b], id)
    ensures |Ahead(ws[b].store, id)| + ClaimCalls(ss[a..b]) * batch <= |Ahead(ws[a].store, id)|
  {
    forall k: nat {:trigger ss[k]} | a <= k < b ensures Shrinks(ws[k], ss[k], ws[k + 1], id, batch) {
      if Due(ws[k], id) { WindowStep(ws, ss, c, id, batch, k); }
    }
    ShrinksBy(ws, ss, id, batch, a, b, b);
  }

  lemma FullBatches(r: nat, batch: nat, n: nat)
    requires batch >= 1 && n >= r / batch + 1
    ensures n * batch > r
  {
    Scale(r / batch + 1, n, batch, batch);
  }

  /**
   With r waiting deliveries ahead of it, a due delivery is claimed within r / batch + 1 calls
   of claim_due.
   */
  lemma ClaimedWithinBound(ws: seq<ListWorld>, ss: seq<Step>, c: Settings, id: string, batch: nat, a: nat, b: nat)
    requires SoloListRun(ws, ss, c) && a <= b < |ws| && Due(ws[a], id) && batch >= 1
    requires forall k {:trigger ss[k]} :: a <= k < b ==> Steady(ss[k], batch)
    requires ClaimCalls(ss[a..b]) >= |Ahead(ws[a].store, id)| / batch + 1
    ensures exists k :: a <= k < b && Claims(ss[k], id)
  {
    if !(exists k :: a <= k < b && Claims(ss[k], id)) {
      QueueShrinks(ws, ss, c, id, batch, a, b);
      FullBatches(|Ahead(ws[a].store, id)|, batch, ClaimCalls(ss[a..b]));
    }
  }
}
