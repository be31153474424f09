/**
 The outbox as a protocol: one store, a clock, and workers that hold claimed deliveries.
 Every step is one locked section or one transaction; retry_or_dead_letter takes two, a read
 and a write, so they are two steps. Runs interleave steps freely.

 The store is a map from delivery id to record. The list store and the table store are shown
 to follow it step by step elsewhere, so what is proved here holds for both.
 */
module Protocol {
  import opened Common
  import opened Deliveries

  type Box = map<string, Delivery>

  /** A delivery in a worker's hands, with the lease of its own claim. */
  datatype Job = Job(id: string, claimNo: nat, lease: int, read: Option<nat>)

  datatype World<S> = World(clock: int, store: S, jobs: set<Job>, claims: nat, used: set<string>)

  datatype Step =
    | Advance(now: int)
    | Enqueue(request: Request, purged: set<string>, created: bool)
    | Claim(limit: int, leaseSeconds: int, taken: set<string>)
    | Finish(job: Job, report: Report)
    | ReadAttempts(job: Job, attempts: Option<nat>)
    | WriteRetry(job: Job, error: string, maxAttempts: int, backoffSeconds: int)
    | ReplayOne(id: string, binding: Binding)
    | Crash(lost: set<Job>)

  // ------------------------------------------------------------ store effects

  function Minus(box: Box, ids: set<string>): Box {
    box - ids
  }

  ghost predicate Known(box: Box, e: Event) {
    exists id :: id in box && Matches(box[id], e)
  }

  function Update(box: Box, id: string, report: Report, now: int): Box {
    if id in box then box[id := Reported(box[id], report, now)] else box
  }

  function ClaimAll(box: Box, taken: set<string>, now: int, leaseSeconds: int): Box {
    map id | id in box :: if id in taken then Claimed(box[id], now, leaseSeconds) else box[id]
  }

  function BoxAfter(box: Box, now: int, s: Step): Box {
    match s
    case Advance(_) => box
    case Enqueue(r, purged, created) =>
      if created then Minus(box, purged)[r.id := NewDelivery(r, now)] else Minus(box, purged)
    case Claim(_, leaseSeconds, taken) => ClaimAll(box, taken, now, leaseSeconds)
    case Finish(job, report) => Update(box, job.id, report, now)
    case ReadAttempts(_, _) => box
    case WriteRetry(job, error, maxAttempts, backoff) =>
      if job.read.Some? then Update(box, job.id, RetryReport(job.read.value, error, maxAttempts, backoff), now) else box
    case ReplayOne(id, binding) =>
      if id in box && BoundTo(box[id].event, binding) then box[id := Replayed(box[id], now)] else box
    case Crash(_) => box
  }

  /** What a store may answer: which records it may purge, refuse or hand out. */
  ghost predicate BoxAllows(box: Box, now: int, s: Step) {
    match s
    case Enqueue(r, purged, created) =>
      && (forall id :: id in purged ==> id in box && Expired(box[id], now, r.retentionDays))
      && (created ==> HasIdentity(r.event) && !Known(Minus(box, purged), r.event))
      && (!created && HasIdentity(r.event) ==> Known(Minus(box, purged), r.event))
      && (!HasIdentity(r.event) ==> purged == {})
    case Claim(limit, _, taken) =>
      && |taken| <= Max(1, limit)
      && forall id :: id in taken ==> id in box && Eligible(box[id], now)
    case ReadAttempts(job, attempts) =>
      attempts == if job.id in box then Some(box[job.id].attemptCount) else None
    case _ => true
  }

  // ------------------------------------------------------- workers and clock

  function NewJobs(taken: set<string>, claimNo: nat, lease: int): set<Job> {
    set id | id in taken :: Job(id, claimNo, lease, None)
  }

  ghost predicate Enabled<S>(w: World<S>, s: Step) {
    match s
    case Advance(now) => w.clock <= now
    case Enqueue(r, _, created) => created ==> r.id !in w.used
    case Claim(_, _, _) => true
    case Finish(job, report) => job in w.jobs && job.read == None && (report.Acknowledge? || report.Reject?)
    case ReadAttempts(job, _) => job in w.jobs && job.read == None
    case WriteRetry(job, _, _, _) => job in w.jobs && job.read.Some?
    case ReplayOne(_, _) => true
    case Crash(lost) => lost <= w.jobs
  }

  /** The world after `s`, given the store it leaves. */
  function After<S>(w: World<S>, s: Step, store: S): World<S> {
    var w := w.(store := store);
    match s
    case Advance(now) => w.(clock := now)
    case Enqueue(r, _, created) => if created then w.(used := w.used + {r.id}) else w
    case Claim(_, leaseSeconds, taken) =>
      w.(jobs := w.jobs + NewJobs(taken, w.claims, LeaseEnd(w.clock, leaseSeconds)), claims := w.claims + 1)
    case Finish(job, _) => w.(jobs := w.jobs - {job})
    case ReadAttempts(job, attempts) =>
      w.(jobs := w.jobs - {job} + if attempts.Some? then {job.(read := attempts)} else {})
    case WriteRetry(job, _, _, _) => w.(jobs := w.jobs - {job})
    case ReplayOne(_, _) => w
    case Crash(lost) => w.(jobs := w.jobs - lost)
  }

  ghost predicate Next(w: World<Box>, s: Step, w': World<Box>) {
    && Enabled(w, s)
    && BoxAllows(w.store, w.clock, s)
    && w' == After(w, s, BoxAfter(w.store, w.clock, s))
  }

  ghost predicate Initial(w: World<Box>) {
    w.clock > 0 && w.store == map[] && w.jobs == {} && w.used == {}
  }

  ghost predicate Run(ws: seq<World<Box>>, ss: seq<Step>) {
    && |ws| == |ss| + 1
    && Initial(ws[0])
    && forall i {:trigger ss[i]} :: 0 <= i < |ss| ==> Next(ws[i], ss[i], ws[i + 1])
  }

  // ------------------------------------------- what every interleaving keeps

  ghost predicate Distinct(box: Box) {
    forall a, b :: a in box && b in box && a != b ==> !SameIdentity(box[a], box[b])
  }

  ghost predicate WellKept(d: Delivery, id: string, clock: int) {
    d.id == id && Coherent(d) && d.eventId == Text(d.event.eventId) && d.createdAt <= clock
  }

  ghost predicate Sound(box: Box, clock: int) {
    forall id :: id in box ==> WellKept(box[id], id, clock)
  }

  ghost predicate Inv(w: World<Box>) {
    && w.clock > 0
    && w.store.Keys <= w.used
    && Sound(w.store, w.clock)
    && Distinct(w.store)
    && (forall j :: j in w.jobs ==> j.id in w.used && j.claimNo < w.claims)
  }

  predicate WritesReport(s: Step) {
    s.Finish? || (s.WriteRetry? && s.job.read.Some?)
  }

  function ReportOf(s: Step): Report
    requires WritesReport(s)
  {
    match s
    case Finish(_, report) => report
    case WriteRetry(job, error, maxAttempts, backoff) => RetryReport(job.read.value, error, maxAttempts, backoff)
  }

  /** What a step leaves of a record that was there before. */
  lemma RecordAfter(w: World<Box>, s: Step, w': World<Box>, id: string)
    requires Next(w, s, w') && id in w.store && id in w'.store
    requires !(s.Enqueue? && s.created && id == s.request.id)
    ensures var d := w.store[id];
      w'.store[id] ==
        if s.Claim? && id in s.taken then Claimed(d, w.clock, s.leaseSeconds)
        else if WritesReport(s) && s.job.id == id then Reported(d, ReportOf(s), w.clock)
        else if s.ReplayOne? && s.id == id && BoundTo(d.event, s.binding) then Replayed(d, w.clock)
        else d
  {
  }

  lemma RecordStaysWellKept(w: World<Box>, s: Step, w': World<Box>, id: string)
    requires Inv(w) && Next(w, s, w') && id in w'.store
    ensures WellKept(w'.store[id], id, w'.clock)
  {
    if id in w.store {
      RecordAfter(w, s, w', id);
      WritesKeepCoherence(w.store[id], w.clock, if s.Claim? then s.leaseSeconds else 0,
        if WritesReport(s) then ReportOf(s) else GiveUp(""));
    }
  }

  lemma StepKeepsSound(w: World<Box>, s: Step, w': World<Box>)
    requires Inv(w) && Next(w, s, w')
    ensures Sound(w'.store, w'.clock) && w'.store.Keys <= w'.used && w'.clock > 0
  {
    forall id | id in w'.store ensures WellKept(w'.store[id], id, w'.clock) { RecordStaysWellKept(w, s, w', id); }
  }

  /** A record that was there before keeps its origin; the only newcomer is the created one. */
  lemma StepKeepsOrigins(w: World<Box>, s: Step, w': World<Box>)
    requires Next(w, s, w')
    ensures forall id :: id in w'.store && !(s.Enqueue? && s.created && id == s.request.id) ==>
      id in w.store && SameOrigin(w.store[id], w'.store[id])
    ensures s.Enqueue? && s.created ==>
      s.request.id in w'.store && w'.store[s.request.id] == NewDelivery(s.request, w.clock)
  {
  }

  /** A created event has the identity of no record left by the purge. */
  lemma NewcomerIsDistinct(w: World<Box>, s: Step, w': World<Box>, id: string)
    requires Next(w, s, w') && s.Enqueue? && s.created && id in w'.store && id != s.request.id
    requires w'.store[id].eventId == Text(w'.store[id].event.eventId)
    ensures !SameIdentity(w'.store[id], w'.store[s.request.id]) && !SameIdentity(w'.store[s.request.id], w'.store[id])
  {
    var kept := Minus(w.store, s.purged);
    assert id in kept && w'.store[id] == kept[id] && !Matches(kept[id], s.request.event);
  }

  lemma StepKeepsDistinct(w: World<Box>, s: Step, w': World<Box>)
    requires Inv(w) && Next(w, s, w')
    ensures Distinct(w'.store)
  {
    StepKeepsOrigins(w, s, w');
    forall a, b | a in w'.store && b in w'.store && a != b
      ensures !SameIdentity(w'.store[a], w'.store[b])
    {
      if s.Enqueue? && s.created && a == s.request.id {
        NewcomerIsDistinct(w, s, w', b);
      } else if s.Enqueue? && s.created && b == s.request.id {
        NewcomerIsDistinct(w, s, w', a);
      } else {
        assert !SameIdentity(w.store[a], w.store[b]);
      }
    }
  }

  lemma StepKeepsJobs(w: World<Box>, s: Step, w': World<Box>)
    requires Inv(w) && Next(w, s, w')
    ensures forall j :: j in w'.jobs ==> j.id in w'.used && j.claimNo < w'.claims
  {
  }

  lemma StepKeepsInv(w: World<Box>, s: Step, w': World<Box>)
    requires Inv(w) && Next(w, s, w')
    ensures Inv(w')
  {
    StepKeepsSound(w, s, w');
    StepKeepsDistinct(w, s, w');
    StepKeepsJobs(w, s, w');
  }

  /** Deduplication and field coherence, in every store any interleaving reaches. */
  lemma {:induction false} Reachable(ws: seq<World<Box>>, ss: seq<Step>, i: nat)
    requires Run(ws, ss) && i < |ws|
    ensures Inv(ws[i])
  {
    if i > 0 {
      Reachable(ws, ss, i - 1);
      StepKeepsInv(ws[i - 1], ss[i - 1], ws[i]);
    }
  }

  // ------------------------------------------------------------------- no loss

  /** Step `s` drops the record `id`: it found it delivered, longer ago than the retention in days. */
  ghost predicate PurgesDelivered(w: World<Box>, s: Step, id: string) {
    && s.Enqueue? && id in s.purged && id in w.store
    && w.store[id].status == Delivered && w.store[id].deliveredAt.Some?
    && w.clock - w.store[id].deliveredAt.value
         > (if s.request.retentionDays == 0 then 7 else Max(1, s.request.retentionDays)) * 86_400_000
  }

  ghost predicate Keeps(box: Box, r: Request) {
    r.id in box && box[r.id].event == r.event && box[r.id].eventId == Text(r.event.eventId)
  }

  lemma StepKeepsOrPurges(w: World<Box>, s: Step, w': World<Box>, r: Request)
    requires Inv(w) && Next(w, s, w') && Keeps(w.store, r)
    ensures Keeps(w'.store, r) || PurgesDelivered(w, s, r.id)
  {
    if r.id in w'.store { StepKeepsOrigins(w, s, w'); }
  }

  /**
   An event whose enqueue returned created stays in the store, its event untouched, until a
   purge that finds it delivered and past retention.
   */
  lemma {:induction false} NoLoss(ws: seq<World<Box>>, ss: seq<Step>, i: nat, j: nat)
    requires Run(ws, ss) && i < j < |ws|
    requires ss[i].Enqueue? && ss[i].created
    ensures Keeps(ws[j].store, ss[i].request) ||
      exists k :: i < k < j && PurgesDelivered(ws[k], ss[k], ss[i].request.id)
  {
    assert Next(ws[j - 1], ss[j - 1], ws[j]);
    if j == i + 1 {
      assert ws[j].store == BoxAfter(ws[i].store, ws[i].clock, ss[i]);
    } else {
      NoLoss(ws, ss, i, j - 1);
      if Keeps(ws[j - 1].store, ss[i].request) {
        Reachable(ws, ss, j - 1);
        StepKeepsOrPurges(ws[j - 1], ss[j - 1], ws[j], ss[i].request);
      }
    }
  }

  // ----------------------------------------------------------- claim exclusion

  predicate ReportsOn(s: Step, id: string) {
    (s.Finish? && s.job.id == id) || (s.WriteRetry? && s.job.id == id)
  }

  predicate Claims(s: Step, id: string) {
    s.Claim? && id in s.taken
  }

  ghost predicate LeasedUntil(w: World<Box>, id: string, t: int) {
    id in w.store && w.store[id].status == Delivering && AsInt(w.store[id].leaseExpiresAt) >= t
  }

  /** A lease only moves forward until it is reported on. */
  lemma StepKeepsLease(w: World<Box>, s: Step, w': World<Box>, id: string, t: int)
    requires Inv(w) && Next(w, s, w') && !ReportsOn(s, id) && LeasedUntil(w, id, t)
    ensures LeasedUntil(w', id, t) && w.clock <= w'.clock
  {
  }

  lemma {:induction false} LeaseHolds(ws: seq<World<Box>>, ss: seq<Step>, i: nat, j: nat, id: string)
    requires Run(ws, ss) && i < j < |ws|
    requires Claims(ss[i], id)
    requires forall k :: i < k < j ==> !ReportsOn(ss[k], id)
    ensures LeasedUntil(ws[j], id, LeaseEnd(ws[i].clock, ss[i].leaseSeconds))
    ensures ws[i].clock <= ws[j].clock
  {
    assert Next(ws[j - 1], ss[j - 1], ws[j]);
    if j > i + 1 {
      LeaseHolds(ws, ss, i, j - 1, id);
      Reachable(ws, ss, j - 1);
      StepKeepsLease(ws[j - 1], ss[j - 1], ws[j], id, LeaseEnd(ws[i].clock, ss[i].leaseSeconds));
    }
  }

  /**
   Two claims of one delivery with no report between them are at least the first claim's
   lease apart, whatever else happens meanwhile: crashes, replays, purges, other workers.
   */
  lemma ClaimExclusion(ws: seq<World<Box>>, ss: seq<Step>, i: nat, j: nat, id: string)
    requires Run(ws, ss) && i < j < |ss|
    requires Claims(ss[i], id) && Claims(ss[j], id)
    requires forall k :: i < k < j ==> !ReportsOn(ss[k], id)
    ensures ws[j].clock - ws[i].clock >= Max(1, ss[i].leaseSeconds) * 1000
  {
    LeaseHolds(ws, ss, i, j, id);
    assert Next(ws[j], ss[j], ws[j + 1]);
  }

  // ----------------------------------------------- exclusivity and finality

  predicate Live<S>(w: World<S>, j: Job) {
    w.clock < j.lease
  }

  /** The scheduling hypothesis: a worker only reports while the lease of its own claim runs. */
  predicate Timely<S>(w: World<S>, s: Step) {
    match s
    case Finish(job, _) => Live(w, job)
    case ReadAttempts(job, _) => Live(w, job)
    case WriteRetry(job, _, _, _) => Live(w, job)
    case _ => true
  }

  ghost predicate TimelyRun(ws: seq<World<Box>>, ss: seq<Step>) {
    Run(ws, ss) && forall i {:trigger ss[i]} :: 0 <= i < |ss| ==> Timely(ws[i], ss[i])
  }

  /** Each unlapsed job is the one current holder of its delivery. */
  ghost predicate Exclusive(w: World<Box>) {
    && (forall j :: j in w.jobs && Live(w, j) ==>
          j.id in w.store && w.store[j.id].status == Delivering && w.store[j.id].leaseExpiresAt == Some(j.lease))
    && (forall j, k :: j in w.jobs && k in w.jobs && Live(w, j) && Live(w, k) && j.id == k.id ==> j == k)
  }

  /** Someone still entitled to report holds the delivery. */
  ghost predicate Held(w: World<Box>, id: string) {
    exists j :: j in w.jobs && Live(w, j) && j.id == id
  }

  lemma ClaimFindsNoHolder(w: World<Box>, s: Step, id: string)
    requires Inv(w) && Exclusive(w) && s.Claim? && BoxAllows(w.store, w.clock, s) && id in s.taken
    ensures !Held(w, id)
  {
  }

  lemma ClaimKeepsExclusive(w: World<Box>, s: Step, w': World<Box>)
    requires Inv(w) && Exclusive(w) && Next(w, s, w') && s.Claim?
    ensures Exclusive(w')
  {
    forall id | id in s.taken ensures !Held(w, id) { ClaimFindsNoHolder(w, s, id); }
    var handed := NewJobs(s.taken, w.claims, LeaseEnd(w.clock, s.leaseSeconds));
    forall j | j in w'.jobs && Live(w', j)
      ensures j.id in w'.store && w'.store[j.id].status == Delivering && w'.store[j.id].leaseExpiresAt == Some(j.lease)
    {
      if j !in handed {
        assert j in w.jobs && Live(w, j);
        assert Held(w, j.id);
      }
    }
    forall j, k | j in w'.jobs && k in w'.jobs && Live(w', j) && Live(w', k) && j.id == k.id
      ensures j == k
    {
      if j in handed || k in handed {
        assert j in w.jobs ==> Held(w, j.id);
        assert k in w.jobs ==> Held(w, k.id);
      }
    }
  }

  lemma ReportKeepsExclusive(w: World<Box>, s: Step, w': World<Box>)
    requires Exclusive(w) && Next(w, s, w') && Timely(w, s) && (s.Finish? || s.WriteRetry?)
    ensures Exclusive(w')
  {
  }

  lemma OtherStepKeepsExclusive(w: World<Box>, s: Step, w': World<Box>)
    requires Inv(w) && Exclusive(w) && Next(w, s, w') && !s.Claim? && !s.Finish? && !s.WriteRetry? && !s.ReadAttempts?
    ensures Exclusive(w')
  {
    forall j | j in w'.jobs && Live(w', j)
      ensures j.id in w'.store && w'.store[j.id] == w.store[j.id]
    {
      assert j in w.jobs && Live(w, j);
      assert w.store[j.id].status == Delivering;
    }
  }

  lemma StepKeepsExclusive(w: World<Box>, s: Step, w': World<Box>)
    requires Inv(w) && Exclusive(w) && Next(w, s, w') && Timely(w, s)
    ensures Exclusive(w')
  {
    if s.Claim? {
      ClaimKeepsExclusive(w, s, w');
    } else if s.Finish? || s.WriteRetry? {
      ReportKeepsExclusive(w, s, w');
    } else if s.ReadAttempts? {
      assert s.job in w.jobs && Live(w, s.job);
    } else {
      OtherStepKeepsExclusive(w, s, w');
    }
  }

  lemma {:induction false} TimelyReachable(ws: seq<World<Box>>, ss: seq<Step>, i: nat)
    requires TimelyRun(ws, ss) && i < |ws|
    ensures Inv(ws[i]) && Exclusive(ws[i])
  {
    Reachable(ws, ss, i);
    if i > 0 {
      TimelyReachable(ws, ss, i - 1);
      StepKeepsExclusive(ws[i - 1], ss[i - 1], ws[i]);
    }
  }

  /** If every worker reports before its own lease lapses, one worker at most holds a delivery. */
  lemma OneHolder(ws: seq<World<Box>>, ss: seq<Step>, i: nat, j: Job, k: Job)
    requires TimelyRun(ws, ss) && i < |ws|
    requires j in ws[i].jobs && k in ws[i].jobs && j.id == k.id && Live(ws[i], j) && Live(ws[i], k)
    ensures j == k
    ensures j.id in ws[i].store && ws[i].store[j.id].status == Delivering
  {
    TimelyReachable(ws, ss, i);
  }

  lemma StepKeepsDelivered(w: World<Box>, s: Step, w': World<Box>, id: string)
    requires Exclusive(w) && Next(w, s, w') && Timely(w, s)
    requires id in w.used && (id in w.store ==> w.store[id].status == Delivered)
    ensures id in w'.used
    ensures id in w'.store ==> id in w.store && w'.store[id] == w.store[id]
  {
  }

  /** ... and a delivered record never changes again; it can only be purged, for good. */
  lemma {:induction false} DeliveredIsFinal(ws: seq<World<Box>>, ss: seq<Step>, i: nat, j: nat, id: string)
    requires TimelyRun(ws, ss) && i <= j < |ws|
    requires id in ws[i].store && ws[i].store[id].status == Delivered
    ensures id in ws[j].used
    ensures id in ws[j].store ==> ws[j].store[id] == ws[i].store[id]
  {
    TimelyReachable(ws, ss, i);
    if j > i {
      DeliveredIsFinal(ws, ss, i, j - 1, id);
      TimelyReachable(ws, ss, j - 1);
      StepKeepsDelivered(ws[j - 1], ss[j - 1], ws[j], id);
    }
  }
}
