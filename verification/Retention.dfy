/**
 How long the outbox remembers a confirmed delivery, over whole runs: what it keeps, it still
 recognises when the provider sends the same event again.
 */
module Retention {
  import opened Common
  import opened Deliveries
  import opened Protocol
  import L = DeliveryLaws

  predicate Confirms(s: Step, id: string) {
    s.Finish? && s.job.id == id && s.report.Acknowledge?
  }

  /** Confirmed at `t` or later, for as long as it is there. */
  ghost predicate ConfirmedSince(w: World<Box>, id: string, t: int) {
    && id in w.used && t <= w.clock
    && (id in w.store ==> w.store[id].deliveredAt.Some? && w.store[id].deliveredAt.value >= t)
  }

  lemma StepKeepsConfirmed(w: World<Box>, s: Step, w': World<Box>, id: string, t: int)
    requires Next(w, s, w') && w.store.Keys <= w.used && ConfirmedSince(w, id, t)
    ensures ConfirmedSince(w', id, t)
  {
    if id in w'.store { RecordAfter(w, s, w', id); }
  }

  lemma {:induction false} ConfirmedThroughout(ws: seq<World<Box>>, ss: seq<Step>, i: nat, j: nat, id: string)
    requires Run(ws, ss) && i < j < |ws| && Confirms(ss[i], id) && id in ws[i].store
    ensures ConfirmedSince(ws[j], id, ws[i].clock)
  {
    assert Next(ws[j - 1], ss[j - 1], ws[j]);
    Reachable(ws, ss, j - 1);
    if j == i + 1 {
      RecordAfter(ws[i], ss[i], ws[j], id);
    } else {
      ConfirmedThroughout(ws, ss, i, j - 1, id);
      StepKeepsConfirmed(ws[j - 1], ss[j - 1], ws[j], id, ws[i].clock);
    }
  }

  /** Only an enqueue drops a record, and only one it finds delivered and past retention. */
  lemma DroppedIsOld(w: World<Box>, s: Step, w': World<Box>, id: string)
    requires Next(w, s, w') && id in w.store && id !in w'.store
    ensures s.Enqueue? && L.PastRetention(w.store[id], w.clock, s.request.retentionDays)
  {
  }

  /** A record confirmed at one clock and dropped at another: more than the retention lies between. */
  lemma KeptForRetention(ws: seq<World<Box>>, ss: seq<Step>, i: nat, j: nat, id: string)
    requires Run(ws, ss) && i < j < |ss| && Confirms(ss[i], id) && id in ws[i].store
    requires id in ws[j].store && id !in ws[j + 1].store
    ensures ss[j].Enqueue? && ws[j].store[id].status == Delivered
    ensures var days := ss[j].request.retentionDays;
      ws[j].clock - ws[i].clock > (if days == 0 then 7 else if days < 1 then 1 else days) * 86_400_000
  {
    ConfirmedThroughout(ws, ss, i, j, id);
    assert Next(ws[j], ss[j], ws[j + 1]);
    DroppedIsOld(ws[j], ss[j], ws[j + 1], id);
  }

  /** Every enqueue after step `i` up to step `j` comes within its own retention of step `i`. */
  ghost predicate WithinRetention(ws: seq<World<Box>>, ss: seq<Step>, i: nat, j: nat)
    requires i < j < |ss| < |ws|
  {
    forall k {:trigger ss[k]} :: i < k <= j && ss[k].Enqueue? ==>
      var days := ss[k].request.retentionDays;
      ws[k].clock - ws[i].clock <= (if days == 0 then 7 else if days < 1 then 1 else days) * 86_400_000
  }

  lemma {:induction false} StaysWithinRetention(ws: seq<World<Box>>, ss: seq<Step>, i: nat, k: nat, j: nat, id: string)
    requires Run(ws, ss) && i < k <= j < |ss| && WithinRetention(ws, ss, i, j)
    requires Confirms(ss[i], id) && id in ws[i].store
    ensures id in ws[k].store && SameOrigin(ws[i].store[id], ws[k].store[id])
  {
    assert Next(ws[k - 1], ss[k - 1], ws[k]);
    if k > i + 1 {
      StaysWithinRetention(ws, ss, i, k - 1, j, id);
      if id !in ws[k].store { KeptForRetention(ws, ss, i, k - 1, id); }
    }
    Reachable(ws, ss, k - 1);
    StepKeepsOrigins(ws[k - 1], ss[k - 1], ws[k]);
  }

  /**
   A confirmed event that the provider sends again within the retention is never stored, and so
   never sent to Core, a second time: whatever other steps come between, in either store.
   */
  lemma RedeliveryIsRecognised(ws: seq<World<Box>>, ss: seq<Step>, i: nat, j: nat, id: string)
    requires Run(ws, ss) && i < j < |ss| && WithinRetention(ws, ss, i, j)
    requires Confirms(ss[i], id) && id in ws[i].store
    requires ss[j].Enqueue? && L.StandsFor(ws[i].store[id], ss[j].request.event)
    ensures !ss[j].created
  {
    StaysWithinRetention(ws, ss, i, j, j, id);
    ConfirmedThroughout(ws, ss, i, j, id);
    assert Next(ws[j], ss[j], ws[j + 1]);
    var d, e := ws[j].store[id], ss[j].request.event;
    L.IdentityByFields(d, e, d);
    assert id in Minus(ws[j].store, ss[j].purged) && Matches(d, e);
  }
}
