/**
 A tick of the dispatcher, over either store, is a stretch of a single worker's run: one claim,
 then for each delivery the clock's advance and its report, in one step or in the two of
 retry_or_dead_letter. So what holds of such runs holds of ticks, on both stores.
 */
module Ticks {
  import opened Common
  import opened Deliveries
  import opened Protocol
  import opened SoloWorker
  import opened Settlement
  import D = Dispatcher
  import J = JsonOutbox
  import R = JsonRuns
  import P = PgOutbox

  // ----------------------------------------------------- a tick on the contents

  function Delivered(box: Box, d: Delivery, a: D.Attempt, c: Settings, now: int): Box {
    if d.id in box && !D.Aborts(d, a) then Update(box, d.id, D.ReportFor(d, a, box[d.id].attemptCount, c), now) else box
  }

  function DeliveredFirst(box: Box, claimed: seq<Delivery>, k: nat, t: D.Tick, c: Settings): Box
    requires k <= |claimed|
  {
    if k == 0 then box
    else Delivered(DeliveredFirst(box, claimed, k - 1, t, c), claimed[k - 1], t.attempt(k - 1), c, t.at(k - 1))
  }

  function HandedOut(box: Box, ids: seq<string>, now: int, leaseSeconds: int): seq<Delivery>
    requires forall id :: id in ids ==> id in box
  {
    seq(|ids|, m requires 0 <= m < |ids| => Claimed(box[ids[m]], now, leaseSeconds))
  }

  /** The deliveries are claimed together and dealt with in this order, up to the first exception that escapes. */
  function Ticked(box: Box, ids: seq<string>, t: D.Tick, c: Settings): Box
    requires forall id :: id in ids ==> id in box
  {
    var claimed := HandedOut(box, ids, t.now, c.leaseSeconds);
    DeliveredFirst(ClaimAll(box, Elements(ids), t.now, c.leaseSeconds), claimed, D.Handled(claimed, |claimed|, t), t, c)
  }

  // ------------------------------------------------------------ the list's tick

  lemma ListDelivers(ds: J.Records, box: Box, d: Delivery, a: D.Attempt, c: Settings, now: int)
    requires R.Represents(ds, box)
    ensures R.Represents(D.DeliverOne(ds, d, a, c, now), Delivered(box, d, a, c, now))
  {
    var i := J.FindIndex(ds, d.id);
    if i < |ds| {
      assert ds[i].id in box && box[d.id] == ds[i];
      if !D.Aborts(d, a) { R.UpdateFollows(ds, box, d.id, D.ReportFor(d, a, ds[i].attemptCount, c), now); }
    }
  }

  lemma {:induction false} ListDeliversFirst(ds: J.Records, box: Box, claimed: seq<Delivery>, k: nat, t: D.Tick,
                                             c: Settings)
    requires R.Represents(ds, box) && k <= |claimed|
    ensures R.Represents(D.DeliverFirst(ds, claimed, k, t, c), DeliveredFirst(box, claimed, k, t, c))
    decreases k
  {
    if k > 0 {
      ListDeliversFirst(ds, box, claimed, k - 1, t, c);
      ListDelivers(D.DeliverFirst(ds, claimed, k - 1, t, c), DeliveredFirst(box, claimed, k - 1, t, c),
        claimed[k - 1], t.attempt(k - 1), c, t.at(k - 1));
    }
  }

  function BatchIds(ds: J.Records, t: D.Tick, c: Settings): seq<string>
  {
    var picks := D.Batch(ds, t, c);
    assert J.InOrder(ds, picks);
    seq(|picks|, m requires 0 <= m < |picks| => ds[picks[m]].id)
  }

  lemma BatchIsThere(ds: J.Records, box: Box, t: D.Tick, c: Settings)
    requires R.Represents(ds, box)
    ensures NoRepeats(BatchIds(ds, t, c)) && Elements(BatchIds(ds, t, c)) == R.IdsAt(ds, D.Batch(ds, t, c))
    ensures forall id :: id in BatchIds(ds, t, c) ==> id in box
    ensures HandedOut(box, BatchIds(ds, t, c), t.now, c.leaseSeconds) ==
      J.HandedOut(ds, D.Batch(ds, t, c), t.now, c.leaseSeconds)
  {
    var picks, ids := D.Batch(ds, t, c), BatchIds(ds, t, c);
    J.OrderNoRepeats(ds, picks);
    forall a, b | 0 <= a < b < |ids| ensures ids[a] != ids[b] {
      R.FindAt(ds, picks[a]);
      R.FindAt(ds, picks[b]);
      assert picks[a] != picks[b];
    }
    forall id | id in R.IdsAt(ds, picks) ensures id in ids {
      var x :| x in picks && ds[x].id == id;
      var m :| 0 <= m < |picks| && picks[m] == x;
      assert ids[m] == id;
    }
    forall m | 0 <= m < |ids| ensures ids[m] in R.IdsAt(ds, picks) && ids[m] in box && box[ids[m]] == ds[picks[m]] {
      assert picks[m] in picks;
    }
  }

  /** The list's tick, read as a map. */
  lemma ListTicks(ds: J.Records, box: Box, t: D.Tick, c: Settings)
    requires R.Represents(ds, box)
    ensures forall id :: id in BatchIds(ds, t, c) ==> id in box
    ensures R.Represents(D.AfterTick(ds, t, c), Ticked(box, BatchIds(ds, t, c), t, c))
  {
    var picks, ids := D.Batch(ds, t, c), BatchIds(ds, t, c);
    BatchIsThere(ds, box, t, c);
    R.ClaimFollows(ds, box, t.now, c.batchSize, c.leaseSeconds);
    ListDeliversFirst(J.ClaimedList(ds, picks, t.now, c.leaseSeconds),
      ClaimAll(box, Elements(ids), t.now, c.leaseSeconds),
      J.HandedOut(ds, picks, t.now, c.leaseSeconds), D.HandledIn(ds, t, c), t, c);
  }

  // ----------------------------------------------------------- the table's tick

  function RowDelivered(rows: P.Table, d: Delivery, a: D.Attempt, c: Settings, now: int): P.Table {
    if d.id in rows && !D.Aborts(d, a)
    then P.UpdatedTable(rows, d.id, D.ReportFor(d, a, rows[d.id].doc.attemptCount, c), now)
    else rows
  }

  function RowsDelivered(rows: P.Table, claimed: seq<Delivery>, k: nat, t: D.Tick, c: Settings): P.Table
    requires k <= |claimed|
  {
    if k == 0 then rows
    else RowDelivered(RowsDelivered(rows, claimed, k - 1, t, c), claimed[k - 1], t.attempt(k - 1), c, t.at(k - 1))
  }

  /** The same dispatcher over the table store, where the database selected these rows. */
  function TableTicked(rows: P.Table, selected: seq<string>, t: D.Tick, c: Settings): P.Table
    requires forall id :: id in selected ==> id in rows
  {
    var claimed := HandedOut(P.Docs(rows), selected, t.now, c.leaseSeconds);
    RowsDelivered(P.ClaimedTable(rows, Elements(selected), t.now, c.leaseSeconds), claimed,
      D.Handled(claimed, |claimed|, t), t, c)
  }

  lemma {:induction false} RowsDeliver(rows: P.Table, claimed: seq<Delivery>, k: nat, t: D.Tick, c: Settings)
    requires P.Consistent(rows) && k <= |claimed|
    ensures P.Consistent(RowsDelivered(rows, claimed, k, t, c))
    ensures P.Docs(RowsDelivered(rows, claimed, k, t, c)) == DeliveredFirst(P.Docs(rows), claimed, k, t, c)
  {
    if k > 0 {
      var part, d, a := RowsDelivered(rows, claimed, k - 1, t, c), claimed[k - 1], t.attempt(k - 1);
      RowsDeliver(rows, claimed, k - 1, t, c);
      if d.id in part && !D.Aborts(d, a) {
        P.UpdateFollows(part, d.id, D.ReportFor(d, a, part[d.id].doc.attemptCount, c), t.at(k - 1));
      }
    }
  }

  /** The table's tick, read as a map. */
  lemma TableTicks(rows: P.Table, selected: seq<string>, t: D.Tick, c: Settings)
    requires P.Consistent(rows) && forall id :: id in selected ==> id in rows
    ensures P.Consistent(TableTicked(rows, selected, t, c))
    ensures P.Docs(TableTicked(rows, selected, t, c)) == Ticked(P.Docs(rows), selected, t, c)
  {
    var claimed := HandedOut(P.Docs(rows), selected, t.now, c.leaseSeconds);
    P.ClaimedDocs(rows, Elements(selected), t.now, c.leaseSeconds);
    RowsDeliver(P.ClaimedTable(rows, Elements(selected), t.now, c.leaseSeconds), claimed,
      D.Handled(claimed, |claimed|, t), t, c);
  }

  // -------------------------------------------------------- a stretch of a run

  /** Consecutive steps of the single worker that bring nothing new. */
  ghost predicate Stretch(ws: seq<World<Box>>, ss: seq<Step>, c: Settings) {
    && |ws| == |ss| + 1
    && forall i {:trigger ss[i]} :: 0 <= i < |ss| ==>
        Next(ws[i], ss[i], ws[i + 1]) && SoloStep(ws[i], ss[i], c) && Closed(ss[i])
  }

  function Then(w: World<Box>, s: Step): World<Box> {
    After(w, s, BoxAfter(w.store, w.clock, s))
  }

  lemma Longer(ws: seq<World<Box>>, ss: seq<Step>, c: Settings, s: Step)
    requires Stretch(ws, ss, c) && Enabled(ws[|ss|], s) && BoxAllows(ws[|ss|].store, ws[|ss|].clock, s)
    requires SoloStep(ws[|ss|], s, c) && Closed(s)
    ensures Stretch(ws + [Then(ws[|ss|], s)], ss + [s], c)
  {
    var xs, ts := ws + [Then(ws[|ss|], s)], ss + [s];
    forall i {:trigger ts[i]} | 0 <= i < |ts|
      ensures Next(xs[i], ts[i], xs[i + 1]) && SoloStep(xs[i], ts[i], c) && Closed(ts[i])
    {
      if i < |ss| { assert ts[i] == ss[i]; }
    }
  }

  /** Jobs nobody has read the attempts of yet. */
  ghost predicate Unread(jobs: set<Job>) {
    forall j :: j in jobs ==> j.read == None
  }

  lemma FinishSteps(ws: seq<World<Box>>, ss: seq<Step>, c: Settings, job: Job, report: Report)
    returns (xs: seq<World<Box>>, ts: seq<Step>)
    requires Stretch(ws, ss, c) && job in ws[|ss|].jobs && Unread(ws[|ss|].jobs)
    requires (report.Acknowledge? || report.Reject?)
    ensures Stretch(xs, ts, c) && xs[0] == ws[0] && |ts| == |ss| + 1 && (ss != [] ==> ts[0] == ss[0])
    ensures xs[|ts|] ==
      ws[|ss|].(store := Update(ws[|ss|].store, job.id, report, ws[|ss|].clock), jobs := ws[|ss|].jobs - {job})
  {
    var s := Finish(job, report);
    Longer(ws, ss, c, s);
    xs, ts := ws + [Then(ws[|ss|], s)], ss + [s];
  }

  lemma RetrySteps(ws: seq<World<Box>>, ss: seq<Step>, c: Settings, job: Job, error: string)
    returns (xs: seq<World<Box>>, ts: seq<Step>)
    requires Stretch(ws, ss, c) && job in ws[|ss|].jobs && Unread(ws[|ss|].jobs) && job.id in ws[|ss|].store
    ensures Stretch(xs, ts, c) && xs[0] == ws[0] && |ts| == |ss| + 2 && (ss != [] ==> ts[0] == ss[0])
    ensures var w := ws[|ss|];
      var report := RetryReport(w.store[job.id].attemptCount, error, c.maxAttempts, c.backoffSeconds);
      xs[|ts|] == w.(store := Update(w.store, job.id, report, w.clock), jobs := w.jobs - {job})
  {
    var w := ws[|ss|];
    var n := w.store[job.id].attemptCount;
    var read := ReadAttempts(job, Some(n));
    Longer(ws, ss, c, read);
    xs, ts := ws + [Then(w, read)], ss + [read];
    var job' := job.(read := Some(n));
    assert job' !in w.jobs;
    var write := WriteRetry(job', error, c.maxAttempts, c.backoffSeconds);
    var v := xs[|ts|];
    assert v.jobs == w.jobs - {job} + {job'} && v.store == w.store;
    Longer(xs, ts, c, write);
    xs, ts := xs + [Then(v, write)], ts + [write];
    assert v.jobs - {job'} == w.jobs - {job};
  }

  /** The report on one delivery in hand. */
  lemma ReportSteps(ws: seq<World<Box>>, ss: seq<Step>, c: Settings, job: Job, d: Delivery, a: D.Attempt)
    returns (xs: seq<World<Box>>, ts: seq<Step>)
    requires Stretch(ws, ss, c) && job in ws[|ss|].jobs && Unread(ws[|ss|].jobs) && job.id in ws[|ss|].store
    requires d.id == job.id && !D.Aborts(d, a)
    ensures Stretch(xs, ts, c) && xs[0] == ws[0] && |ts| > |ss| && (ss != [] ==> ts[0] == ss[0])
    ensures var w := ws[|ss|]; xs[|ts|] == w.(store := Delivered(w.store, d, a, c, w.clock), jobs := w.jobs - {job})
  {
    match D.Judge(d, a)
    case Acknowledged(duplicate) => xs, ts := FinishSteps(ws, ss, c, job, Acknowledge(duplicate));
    case Permanent(error) => xs, ts := FinishSteps(ws, ss, c, job, Reject(error));
    case Transient(error) => xs, ts := RetrySteps(ws, ss, c, job, error);
  }

  lemma ClockSteps(ws: seq<World<Box>>, ss: seq<Step>, c: Settings, now: int)
    returns (xs: seq<World<Box>>, ts: seq<Step>)
    requires Stretch(ws, ss, c) && ws[|ss|].clock <= now
    ensures Stretch(xs, ts, c) && xs[0] == ws[0] && |ts| == |ss| + 1 && (ss != [] ==> ts[0] == ss[0])
    ensures xs[|ts|] == ws[|ss|].(clock := now)
  {
    Longer(ws, ss, c, Advance(now));
    xs, ts := ws + [Then(ws[|ss|], Advance(now))], ss + [Advance(now)];
  }

  /** The jobs of the deliveries from the k-th on. */
  function JobsFrom(ids: seq<string>, k: nat, claimNo: nat, lease: int): set<Job>
    requires k <= |ids|
  {
    set m | k <= m < |ids| :: Job(ids[m], claimNo, lease, None)
  }

  lemma JobsLess(ids: seq<string>, k: nat, claimNo: nat, lease: int)
    requires NoRepeats(ids) && k < |ids|
    ensures JobsFrom(ids, k, claimNo, lease) - {Job(ids[k], claimNo, lease, None)} ==
      JobsFrom(ids, k + 1, claimNo, lease)
  {
  }

  lemma {:induction false} DeliveriesStay(box: Box, claimed: seq<Delivery>, k: nat, t: D.Tick, c: Settings)
    requires k <= |claimed|
    ensures DeliveredFirst(box, claimed, k, t, c).Keys == box.Keys
  {
    if k > 0 { DeliveriesStay(box, claimed, k - 1, t, c); }
  }

  /** Reports come one after the other, none before the claim. */
  ghost predicate Timed(t: D.Tick) {
    t.now <= t.at(0) && forall k: nat :: t.at(k) <= t.at(k + 1)
  }

  lemma ClaimSteps(w: World<Box>, ids: seq<string>, c: Settings, claim: Step)
    returns (xs: seq<World<Box>>, ts: seq<Step>)
    requires w.jobs == {} && claim == Claim(c.batchSize, c.leaseSeconds, Elements(ids))
    requires BoxAllows(w.store, w.clock, claim)
    ensures Stretch(xs, ts, c) && xs[0] == w && ts == [claim]
    ensures xs[1].store == ClaimAll(w.store, Elements(ids), w.clock, c.leaseSeconds) && xs[1].clock == w.clock
    ensures xs[1].jobs == JobsFrom(ids, 0, w.claims, LeaseEnd(w.clock, c.leaseSeconds))
  {
    Longer([w], [], c, claim);
    xs, ts := [w, Then(w, claim)], [claim];
    assert [w] + [Then(w, claim)] == xs && [] + [claim] == ts;
    assert NewJobs(Elements(ids), w.claims, LeaseEnd(w.clock, c.leaseSeconds)) ==
      JobsFrom(ids, 0, w.claims, LeaseEnd(w.clock, c.leaseSeconds));
  }

  /** One delivery further: the clock advances to its report. */
  lemma NextDelivery(ws: seq<World<Box>>, ss: seq<Step>, c: Settings, ids: seq<string>, k: nat,
                     claimNo: nat, lease: int,
                     d: Delivery, a: D.Attempt, now: int)
    returns (xs: seq<World<Box>>, ts: seq<Step>)
    requires Stretch(ws, ss, c) && NoRepeats(ids) && k < |ids| && d.id == ids[k] && !D.Aborts(d, a)
    requires ws[|ss|].jobs == JobsFrom(ids, k, claimNo, lease) && ids[k] in ws[|ss|].store && ws[|ss|].clock <= now
    ensures Stretch(xs, ts, c) && xs[0] == ws[0] && |ts| > |ss| && (ss != [] ==> ts[0] == ss[0])
    ensures xs[|ts|].store == Delivered(ws[|ss|].store, d, a, c, now)
    ensures xs[|ts|].jobs == JobsFrom(ids, k + 1, claimNo, lease) && xs[|ts|].clock == now
  {
    xs, ts := ClockSteps(ws, ss, c, now);
    xs, ts := ReportSteps(xs, ts, c, Job(ids[k], claimNo, lease, None), d, a);
    JobsLess(ids, k, claimNo, lease);
  }

  lemma NextIsThere(box: Box, ids: seq<string>, k: nat, t: D.Tick, c: Settings)
    requires (forall id :: id in ids ==> id in box && box[id].id == id) && k < |ids|
    ensures var claimed := HandedOut(box, ids, t.now, c.leaseSeconds);
      && claimed[k].id == ids[k]
      && ids[k] in DeliveredFirst(ClaimAll(box, Elements(ids), t.now, c.leaseSeconds), claimed, k, t, c)
  {
    assert ids[k] in ids;
    DeliveriesStay(ClaimAll(box, Elements(ids), t.now, c.leaseSeconds),
      HandedOut(box, ids, t.now, c.leaseSeconds), k, t, c);
  }

  /** Where the tick stands after `k` deliveries. */
  ghost predicate TickAt(v: World<Box>, w: World<Box>, ids: seq<string>, t: D.Tick, c: Settings, k: nat)
    requires (forall id :: id in ids ==> id in w.store) && k <= |ids|
  {
    && v.store == DeliveredFirst(ClaimAll(w.store, Elements(ids), t.now, c.leaseSeconds),
                                 HandedOut(w.store, ids, t.now, c.leaseSeconds), k, t, c)
    && v.jobs == JobsFrom(ids, k, w.claims, LeaseEnd(t.now, c.leaseSeconds))
    && v.clock <= t.at(k)
  }

  lemma {:induction false} TickSteps(w: World<Box>, ids: seq<string>, t: D.Tick, c: Settings, claim: Step, k: nat)
    returns (xs: seq<World<Box>>, ts: seq<Step>)
    requires w.jobs == {} && w.clock == t.now && NoRepeats(ids)
    requires (forall id :: id in ids ==> id in w.store && w.store[id].id == id)
    requires claim == Claim(c.batchSize, c.leaseSeconds, Elements(ids)) && BoxAllows(w.store, w.clock, claim)
    requires D.Normal(t) && Timed(t) && k <= |ids|
    ensures Stretch(xs, ts, c) && xs[0] == w && |ts| > 0 && ts[0] == claim && TickAt(xs[|ts|], w, ids, t, c, k)
    decreases k
  {
    if k == 0 {
      xs, ts := ClaimSteps(w, ids, c, claim);
    } else {
      xs, ts := TickSteps(w, ids, t, c, claim, k - 1);
      NextIsThere(w.store, ids, k - 1, t, c);
      var d := HandedOut(w.store, ids, t.now, c.leaseSeconds)[k - 1];
      xs, ts := NextDelivery(xs, ts, c, ids, k - 1, w.claims, LeaseEnd(t.now, c.leaseSeconds), d, t.attempt(k - 1),
        t.at(k - 1));
    }
  }

  lemma NormalHandlesAll(claimed: seq<Delivery>, t: D.Tick)
    requires D.Normal(t)
    ensures D.Handled(claimed, |claimed|, t) == |claimed|
  {
  }

  /** A tick that runs to its end is a stretch of a single worker's run that leaves its hands empty. */
  lemma TickIsAStretch(w: World<Box>, ids: seq<string>, t: D.Tick, c: Settings)
    returns (xs: seq<World<Box>>, ts: seq<Step>)
    requires w.jobs == {} && w.clock == t.now && NoRepeats(ids)
    requires (forall id :: id in ids ==> id in w.store && w.store[id].id == id)
    requires BoxAllows(w.store, w.clock, Claim(c.batchSize, c.leaseSeconds, Elements(ids)))
    requires D.Normal(t) && Timed(t)
    ensures Stretch(xs, ts, c) && xs[0] == w && |ts| > 0 && ts[0] == Claim(c.batchSize, c.leaseSeconds, Elements(ids))
    ensures xs[|ts|].store == Ticked(w.store, ids, t, c) && xs[|ts|].jobs == {}
  {
    NormalHandlesAll(HandedOut(w.store, ids, t.now, c.leaseSeconds), t);
    xs, ts := TickSteps(w, ids, t, c, Claim(c.batchSize, c.leaseSeconds, Elements(ids)), |ids|);
  }

  /** The list dispatcher's tick, as a stretch of the protocol. */
  lemma ListTickIsAStretch(w: R.ListWorld, t: D.Tick, c: Settings) returns (xs: seq<World<Box>>, ts: seq<Step>)
    requires J.UniqueIds(w.store) && w.jobs == {} && w.clock == t.now && D.Normal(t) && Timed(t)
    ensures Stretch(xs, ts, c) && xs[0] == R.Abs(w) && |ts| > 0
    ensures ts[0] == Claim(c.batchSize, c.leaseSeconds, R.IdsAt(w.store, D.Batch(w.store, t, c)))
    ensures xs[|ts|].store == J.Contents(D.AfterTick(w.store, t, c)) && xs[|ts|].jobs == {}
  {
    var ds, box, ids := w.store, J.Contents(w.store), BatchIds(w.store, t, c);
    R.ContentsRepresented(ds, box);
    BatchIsThere(ds, box, t, c);
    ListTicks(ds, box, t, c);
    R.ContentsRepresented(D.AfterTick(ds, t, c), Ticked(box, ids, t, c));
    R.ClaimAllowed(ds, box, t.now, c.batchSize, c.leaseSeconds);
    xs, ts := TickIsAStretch(R.Abs(w), ids, t, c);
  }

  /** The table dispatcher's tick, whatever rows the database selected. */
  lemma TableTickIsAStretch(w: P.TableWorld, locked: set<string>, selected: seq<string>, t: D.Tick, c: Settings)
    returns (xs: seq<World<Box>>, ts: seq<Step>)
    requires P.Consistent(w.store) && (forall id :: id in w.store ==> Coherent(w.store[id].doc))
    requires P.DueAnswer(w.store, locked, t.now, Max(1, c.batchSize), selected)
    requires w.jobs == {} && w.clock == t.now && D.Normal(t) && Timed(t)
    ensures Stretch(xs, ts, c) && xs[0] == P.Abs(w) && |ts| > 0
    ensures ts[0] == Claim(c.batchSize, c.leaseSeconds, Elements(selected))
    ensures xs[|ts|].store == P.Docs(TableTicked(w.store, selected, t, c)) && xs[|ts|].jobs == {}
  {
    P.ClaimAllowed(w.store, t.now, c.batchSize, c.leaseSeconds, locked, selected);
    TableTicks(w.store, selected, t, c);
    xs, ts := TickIsAStretch(P.Abs(w), selected, t, c);
  }
}
