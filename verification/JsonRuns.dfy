/**
 Runs of the JSON outbox follow the protocol: each list operation, read through `Contents`,
 is a step the protocol allows. Whatever holds in every protocol run holds in every list run.
 */
module JsonRuns {
  import opened Common
  import opened Deliveries
  import opened Protocol
  import opened JsonOutbox

  function IdsAt(ds: Records, ps: seq<nat>): set<string>
    requires forall x :: x in ps ==> x < |ds|
  {
    set x | x in ps :: ds[x].id
  }

  function ExpiredIds(ds: Records, now: int, retentionDays: int): set<string> {
    set d | d in ds && Expired(d, now, retentionDays) :: d.id
  }

  /** What the list store answers to each step. */
  ghost predicate Answers(ds: Records, now: int, s: Step) {
    match s
    case Enqueue(r, purged, created) =>
      && created == Created(ds, r)
      && purged == if created then ExpiredIds(ds, now, r.retentionDays) else {}
    case Claim(limit, _, taken) => taken == IdsAt(ds, Taken(ds, now, limit))
    case ReadAttempts(job, attempts) =>
      attempts == if FindIndex(ds, job.id) < |ds| then Some(ds[FindIndex(ds, job.id)].attemptCount) else None
    case _ => true
  }

  function ListAfter(ds: Records, now: int, s: Step): Records {
    match s
    case Enqueue(r, _, _) => Enqueued(ds, r, now)
    case Claim(limit, leaseSeconds, _) => ClaimedList(ds, Taken(ds, now, limit), now, leaseSeconds)
    case Finish(job, report) => Updated(ds, job.id, report, now)
    case WriteRetry(job, error, maxAttempts, backoff) =>
      if job.read.Some? then Updated(ds, job.id, RetryReport(job.read.value, error, maxAttempts, backoff), now) else ds
    case ReplayOne(id, binding) => ReplayedList(ds, id, binding, now)
    case _ => ds
  }

  type ListWorld = World<Records>

  ghost predicate ListNext(w: ListWorld, s: Step, w': ListWorld) {
    Enabled(w, s) && Answers(w.store, w.clock, s) && w' == After(w, s, ListAfter(w.store, w.clock, s))
  }

  ghost predicate ListRun(ws: seq<ListWorld>, ss: seq<Step>) {
    && |ws| == |ss| + 1
    && ws[0].clock > 0 && ws[0].store == [] && ws[0].jobs == {} && ws[0].used == {}
    && forall i {:trigger ss[i]} :: 0 <= i < |ss| ==> ListNext(ws[i], ss[i], ws[i + 1])
  }

  ghost function Abs(w: ListWorld): World<Box> {
    World(w.clock, Contents(w.store), w.jobs, w.claims, w.used)
  }

  ghost function AbsAll(ws: seq<ListWorld>): seq<World<Box>> {
    seq(|ws|, i requires 0 <= i < |ws| => Abs(ws[i]))
  }

  // --------------------------------------------------------- one operation

  ghost predicate Represents(ds: Records, box: Box) {
    && UniqueIds(ds)
    && (forall i :: 0 <= i < |ds| ==> ds[i].id in box && box[ds[i].id] == ds[i])
    && (forall id :: id in box ==> FindIndex(ds, id) < |ds|)
  }

  lemma ContentsRepresented(ds: Records, box: Box)
    requires UniqueIds(ds)
    ensures Represents(ds, Contents(ds))
    ensures Represents(ds, box) ==> box == Contents(ds)
  {
    var contents := Contents(ds);
    forall i | 0 <= i < |ds| ensures ds[i].id in contents && contents[ds[i].id] == ds[i] {
      assert ds[i] in ds;
    }
    forall id | id in contents ensures FindIndex(ds, id) < |ds| {
      var d :| d in ds && d.id == id;
    }
    if Represents(ds, box) {
      forall id | id in box ensures id in contents && box[id] == contents[id] {
        assert ds[FindIndex(ds, id)].id == id;
      }
      assert box.Keys == contents.Keys;
    }
  }

  lemma FindAt(ds: Records, i: nat)
    requires UniqueIds(ds) && i < |ds|
    ensures FindIndex(ds, ds[i].id) == i
  {
  }

  lemma FoundIfThere(ds: Records, i: nat, id: string)
    requires i < |ds| && ds[i].id == id
    ensures FindIndex(ds, id) < |ds|
  {
  }

  /** Writing one record in place, id kept. */
  lemma WriteOne(ds: Records, box: Box, i: nat, d: Delivery)
    requires Represents(ds, box) && i < |ds| && d.id == ds[i].id
    ensures Represents(ds[i := d], box[d.id := d])
  {
    var es := ds[i := d];
    forall id | id in box[d.id := d] ensures FindIndex(es, id) < |es| {
      var k := FindIndex(ds, id);
      if id in box { assert ds[k].id == id; FoundIfThere(es, k, id); }
    }
  }

  lemma UpdateFollows(ds: Records, box: Box, id: string, report: Report, now: int)
    requires Represents(ds, box)
    ensures Represents(Updated(ds, id, report, now), Update(box, id, report, now))
  {
    var i := FindIndex(ds, id);
    if i < |ds| { WriteOne(ds, box, i, Reported(ds[i], report, now)); }
  }

  lemma ReplayFollows(ds: Records, box: Box, id: string, binding: Binding, now: int)
    requires Represents(ds, box)
    ensures Represents(ReplayedList(ds, id, binding, now), BoxAfter(box, now, ReplayOne(id, binding)))
  {
    var i := FindIndex(ds, id);
    if i < |ds| && BoundTo(ds[i].event, binding) { WriteOne(ds, box, i, Replayed(ds[i], now)); }
  }

  lemma IdsAtSize(ds: Records, ps: seq<nat>)
    requires UniqueIds(ds) && NoRepeats(ps) && forall x :: x in ps ==> x < |ds|
    ensures |IdsAt(ds, ps)| == |ps|
  {
    assert forall k :: 0 <= k < |ps| ==> ps[k] in ps;
    var ids := seq(|ps|, k requires 0 <= k < |ps| => ds[ps[k]].id);
    assert NoRepeats(ids) by {
      forall a, b | 0 <= a < b < |ps| ensures ds[ps[a]].id != ds[ps[b]].id { assert ps[a] != ps[b]; }
    }
    ElementCount(ids);
    forall x | x in ps ensures ds[x].id in ids {
      var k :| 0 <= k < |ps| && ps[k] == x;
      assert ids[k] == ds[x].id;
    }
    assert Elements(ids) == IdsAt(ds, ps);
  }

  lemma TakenAt(ds: Records, ps: seq<nat>, i: nat)
    requires UniqueIds(ds) && i < |ds| && forall x :: x in ps ==> x < |ds|
    ensures ds[i].id in IdsAt(ds, ps) <==> i in ps
  {
    if ds[i].id in IdsAt(ds, ps) {
      var x :| x in ps && ds[x].id == ds[i].id;
      FindAt(ds, i);
      FindAt(ds, x);
    }
  }

  lemma ClaimAllowed(ds: Records, box: Box, now: int, limit: int, leaseSeconds: int)
    requires Represents(ds, box)
    ensures BoxAllows(box, now, Claim(limit, leaseSeconds, IdsAt(ds, Taken(ds, now, limit))))
  {
    var picks := Taken(ds, now, limit);
    TakenIsLeast(ds, now, limit);
    OrderNoRepeats(ds, picks);
    IdsAtSize(ds, picks);
    forall id | id in IdsAt(ds, picks) ensures id in box && Eligible(box[id], now) {
      var x :| x in picks && ds[x].id == id;
    }
  }

  lemma ClaimFollows(ds: Records, box: Box, now: int, limit: int, leaseSeconds: int)
    requires Represents(ds, box)
    ensures var picks := Taken(ds, now, limit);
      var s := Claim(limit, leaseSeconds, IdsAt(ds, picks));
      BoxAllows(box, now, s) && Represents(ClaimedList(ds, picks, now, leaseSeconds), BoxAfter(box, now, s))
  {
    var picks := Taken(ds, now, limit);
    ClaimAllowed(ds, box, now, limit, leaseSeconds);
    ClaimWrites(ds, box, picks, now, leaseSeconds);
  }

  lemma ClaimWrites(ds: Records, box: Box, picks: seq<nat>, now: int, leaseSeconds: int)
    requires Represents(ds, box) && forall x :: x in picks ==> x < |ds|
    ensures Represents(ClaimedList(ds, picks, now, leaseSeconds), ClaimAll(box, IdsAt(ds, picks), now, leaseSeconds))
  {
    var es, after := ClaimedList(ds, picks, now, leaseSeconds), ClaimAll(box, IdsAt(ds, picks), now, leaseSeconds);
    forall i: nat | i < |ds| ensures es[i].id == ds[i].id && es[i].id in after && es[i] == after[es[i].id] {
      TakenAt(ds, picks, i);
    }
    forall id | id in after ensures FindIndex(es, id) < |es| {
      FoundIfThere(es, FindIndex(ds, id), id);
    }
  }

  lemma SurvivorsUnique(ds: Records, now: int, retentionDays: int)
    requires UniqueIds(ds)
    ensures UniqueIds(WithoutExpired(ds, now, retentionDays))
  {
    var es, ps := WithoutExpired(ds, now, retentionDays), Survivors(ds, now, retentionDays);
    forall j, k | 0 <= j < k < |es| ensures es[j].id != es[k].id {
      assert es[j] == ds[ps[j]] && es[k] == ds[ps[k]] && ps[j] < ps[k];
    }
  }

  lemma SurvivorFound(ds: Records, now: int, retentionDays: int, id: string)
    requires FindIndex(ds, id) < |ds| && !Expired(ds[FindIndex(ds, id)], now, retentionDays)
    ensures FindIndex(WithoutExpired(ds, now, retentionDays), id) < |WithoutExpired(ds, now, retentionDays)|
  {
    var es, ps, i := WithoutExpired(ds, now, retentionDays), Survivors(ds, now, retentionDays), FindIndex(ds, id);
    assert i in ps;
    var k :| 0 <= k < |ps| && ps[k] == i;
    FoundIfThere(es, k, id);
  }

  lemma PurgeFollows(ds: Records, box: Box, now: int, retentionDays: int)
    requires Represents(ds, box)
    ensures Represents(WithoutExpired(ds, now, retentionDays), Minus(box, ExpiredIds(ds, now, retentionDays)))
  {
    var es, gone := WithoutExpired(ds, now, retentionDays), ExpiredIds(ds, now, retentionDays);
    var ps := Survivors(ds, now, retentionDays);
    SurvivorsUnique(ds, now, retentionDays);
    forall k | 0 <= k < |es| ensures es[k].id in Minus(box, gone) && box[es[k].id] == es[k] {
      assert ps[k] in ps && es[k] == ds[ps[k]];
    }
    forall id | id in Minus(box, gone) ensures FindIndex(es, id) < |es| {
      assert ds[FindIndex(ds, id)] in ds;
      SurvivorFound(ds, now, retentionDays, id);
    }
  }

  lemma AppendFollows(ds: Records, box: Box, d: Delivery)
    requires Represents(ds, box) && d.id !in box
    ensures Represents(ds + [d], box[d.id := d])
  {
    var es := ds + [d];
    forall id | id in box[d.id := d] ensures FindIndex(es, id) < |es| {
      FoundIfThere(es, if id == d.id then |ds| else FindIndex(ds, id), id);
    }
  }

  lemma EnqueueFollows(ds: Records, box: Box, now: int, r: Request)
    requires Represents(ds, box) && (Created(ds, r) ==> r.id !in box)
    ensures var purged := if Created(ds, r) then ExpiredIds(ds, now, r.retentionDays) else {};
      var s := Enqueue(r, purged, Created(ds, r));
      BoxAllows(box, now, s) && Represents(Enqueued(ds, r, now), BoxAfter(box, now, s))
  {
    var m := FirstMatch(ds, r.event);
    if Created(ds, r) {
      var purged := ExpiredIds(ds, now, r.retentionDays);
      PurgeFollows(ds, box, now, r.retentionDays);
      AppendFollows(WithoutExpired(ds, now, r.retentionDays), Minus(box, purged), NewDelivery(r, now));
      forall id | id in box ensures !Matches(box[id], r.event) { assert box[id] == ds[FindIndex(ds, id)]; }
      forall id | id in purged ensures id in box && Expired(box[id], now, r.retentionDays) {
        var d :| d in ds && Expired(d, now, r.retentionDays) && d.id == id;
        var i :| 0 <= i < |ds| && ds[i] == d;
      }
    } else {
      assert Minus(box, {}) == box;
      if m < |ds| { assert ds[m].id in box && Matches(box[ds[m].id], r.event); }
    }
  }

  lemma OperationFollows(ds: Records, box: Box, now: int, s: Step)
    requires Represents(ds, box) && Answers(ds, now, s)
    requires s.Enqueue? && s.created ==> s.request.id !in box
    ensures BoxAllows(box, now, s) && Represents(ListAfter(ds, now, s), BoxAfter(box, now, s))
  {
    match s
    case Enqueue(r, _, _) => EnqueueFollows(ds, box, now, r);
    case Claim(limit, leaseSeconds, _) => ClaimFollows(ds, box, now, limit, leaseSeconds);
    case Finish(job, report) => UpdateFollows(ds, box, job.id, report, now);
    case WriteRetry(job, error, m, b) =>
      if job.read.Some? { UpdateFollows(ds, box, job.id, RetryReport(job.read.value, error, m, b), now); }
    case ReplayOne(id, binding) => ReplayFollows(ds, box, id, binding, now);
    case _ =>
  }

  // --------------------------------------------------------------- all runs

  /** Clock, jobs and ids in use do not look at the store. */
  lemma AbsAfter(w: ListWorld, s: Step, ds: Records)
    ensures Abs(After(w, s, ds)) == After(Abs(w), s, Contents(ds))
    ensures Enabled(w, s) <==> Enabled(Abs(w), s)
  {
  }

  lemma StepFollows(w: ListWorld, s: Step, w': ListWorld)
    requires ListNext(w, s, w') && UniqueIds(w.store) && Contents(w.store).Keys <= w.used
    ensures Next(Abs(w), s, Abs(w')) && UniqueIds(w'.store)
  {
    var box, es := Contents(w.store), ListAfter(w.store, w.clock, s);
    ContentsRepresented(w.store, box);
    OperationFollows(w.store, box, w.clock, s);
    ContentsRepresented(es, BoxAfter(box, w.clock, s));
    AbsAfter(w, s, es);
    assert w'.store == es;
  }

  lemma {:induction false} ListStaysSound(ws: seq<ListWorld>, ss: seq<Step>, i: nat)
    requires ListRun(ws, ss) && i < |ws|
    ensures UniqueIds(ws[i].store) && Inv(Abs(ws[i]))
  {
    if i == 0 {
      assert Contents([]) == map[];
    } else {
      ListStaysSound(ws, ss, i - 1);
      StepFollows(ws[i - 1], ss[i - 1], ws[i]);
      StepKeepsInv(Abs(ws[i - 1]), ss[i - 1], Abs(ws[i]));
    }
  }

  /** Every run of the list store is a run of the protocol. */
  lemma ListRunsFollow(ws: seq<ListWorld>, ss: seq<Step>)
    requires ListRun(ws, ss)
    ensures Run(AbsAll(ws), ss)
    ensures forall i :: 0 <= i < |ws| ==> UniqueIds(ws[i].store)
  {
    assert Contents([]) == map[];
    forall i | 0 <= i < |ws| ensures UniqueIds(ws[i].store) { ListStaysSound(ws, ss, i); }
    forall i {:trigger ss[i]} | 0 <= i < |ss| ensures Next(AbsAll(ws)[i], ss[i], AbsAll(ws)[i + 1]) {
      ListStaysSound(ws, ss, i);
      StepFollows(ws[i], ss[i], ws[i + 1]);
    }
  }

  /** Deduplication and field coherence of the list itself, over every interleaving. */
  lemma ListIsSound(ws: seq<ListWorld>, ss: seq<Step>, i: nat)
    requires ListRun(ws, ss) && i < |ws|
    ensures UniqueIds(ws[i].store)
    ensures forall a :: 0 <= a < |ws[i].store| ==> Coherent(ws[i].store[a])
    ensures forall a, b :: 0 <= a < b < |ws[i].store| ==> !SameIdentity(ws[i].store[a], ws[i].store[b])
  {
    ListStaysSound(ws, ss, i);
    var ds := ws[i].store;
    ContentsRepresented(ds, Contents(ds));
    forall a, b | 0 <= a < b < |ds| ensures !SameIdentity(ds[a], ds[b]) {
      assert Contents(ds)[ds[a].id] == ds[a] && Contents(ds)[ds[b].id] == ds[b];
    }
  }
}
