/**
 One tick of the dispatcher over the list store: claim a batch, deliver each record in turn,
 report each outcome. The HTTP answers and the clock at each report are the environment's.
 */
module Dispatcher {
  import opened Common
  import opened Deliveries
  import opened JsonOutbox
  import opened Protocol
  import R = JsonRuns
  import S = SoloWorker

  /**
   What one delivery attempt meets: a refusal before the request, no answer, a status code, or an
   exception nobody handles, which cuts the tick short.
   */
  datatype Attempt = Refused(error: string) | NoAnswer(exception: string) | Answered(code: nat) |
    Raised(exception: string)

  datatype Verdict = Acknowledged(duplicate: bool) | Permanent(error: string) | Transient(error: string) |
    Escapes(exception: string)

  /** The k-th delivery of a tick meets `attempt(k)` and is reported at `at(k)`. */
  datatype Tick = Tick(now: int, attempt: nat -> Attempt, at: nat -> int)

  function Decimal(n: nat): string {
    if n < 10 then ['0' + n as char] else Decimal(n / 10) + ['0' + (n % 10) as char]
  }

  const PERMANENT_CODES: set<nat> := {400, 401, 403, 404, 405, 410, 422}

  function Judge(d: Delivery, a: Attempt): Verdict {
    if Text(d.coreChannelId) == "" then Permanent("core_channel_binding_missing")
    else match a
      case Refused(error) => Permanent(error)
      case NoAnswer(exception) => Transient("transport:" + exception)
      case Raised(exception) => Escapes(exception)
      case Answered(code) =>
        if 200 <= code < 300 then Acknowledged(false)
        else if code == 409 then Acknowledged(true)
        else if code in PERMANENT_CODES then Permanent("http_" + Decimal(code))
        else Transient("http_" + Decimal(code))
  }

  /** The attempt ends in an exception that nobody handles. */
  predicate Aborts(d: Delivery, a: Attempt) {
    Text(d.coreChannelId) != "" && a.Raised?
  }

  /** What is written back, with the attempt count read from the store. */
  function ReportFor(d: Delivery, a: Attempt, attempts: nat, c: Settings): Report
    requires !Aborts(d, a)
  {
    match Judge(d, a)
    case Acknowledged(duplicate) => Acknowledge(duplicate)
    case Permanent(error) => Reject(error)
    case Transient(error) => RetryReport(attempts, error, c.maxAttempts, Max(0, c.backoffSeconds))
  }

  function DeliverOne(ds: Records, d: Delivery, a: Attempt, c: Settings, now: int): Records {
    var i := FindIndex(ds, d.id);
    if i < |ds| && !Aborts(d, a) then Updated(ds, d.id, ReportFor(d, a, ds[i].attemptCount, c), now) else ds
  }

  function DeliverFirst(ds: Records, claimed: seq<Delivery>, k: nat, t: Tick, c: Settings): Records
    requires k <= |claimed|
  {
    if k == 0 then ds
    else DeliverOne(DeliverFirst(ds, claimed, k - 1, t, c), claimed[k - 1], t.attempt(k - 1), c, t.at(k - 1))
  }

  /** How many of the first `k` deliveries are dealt with before an exception escapes. */
  function Handled(claimed: seq<Delivery>, k: nat, t: Tick): (h: nat)
    requires k <= |claimed|
    ensures h <= k && (forall m :: 0 <= m < h ==> !Aborts(claimed[m], t.attempt(m)))
    ensures h < k ==> Aborts(claimed[h], t.attempt(h))
  {
    if k == 0 then 0
    else
      var h := Handled(claimed, k - 1, t);
      if h < k - 1 || Aborts(claimed[k - 1], t.attempt(k - 1)) then h else k
  }

  function Batch(ds: Records, t: Tick, c: Settings): seq<nat> {
    Taken(ds, t.now, c.batchSize)
  }

  function HandledIn(ds: Records, t: Tick, c: Settings): nat {
    var claimed := HandedOut(ds, Batch(ds, t, c), t.now, c.leaseSeconds);
    Handled(claimed, |claimed|, t)
  }

  function AfterTick(ds: Records, t: Tick, c: Settings): Records
  {
    var picks := Batch(ds, t, c);
    assert InOrder(ds, picks);
    DeliverFirst(ClaimedList(ds, picks, t.now, c.leaseSeconds), HandedOut(ds, picks, t.now, c.leaseSeconds),
      HandledIn(ds, t, c), t, c)
  }

  datatype DispatchError = Lookup(error: LookupError) | Unexpected(exception: string)

  class CoreInboundDispatcher {
    const store: CoreInboundDeliveryStore

    constructor (store: CoreInboundDeliveryStore)
      ensures this.store == store
    {
      this.store := store;
    }

    method Deliver(d: Delivery, a: Attempt, c: Settings, now: int) returns (answer: Result<Delivery, DispatchError>)
      modifies store
      ensures store.deliveries == DeliverOne(old(store.deliveries), d, a, c, now)
      ensures answer.Ok? <==> FindIndex(old(store.deliveries), d.id) < |old(store.deliveries)| && !Aborts(d, a)
      ensures Aborts(d, a) ==> answer == Err(Unexpected(a.exception)) && store.deliveries == old(store.deliveries)
    {
      var stored: Result<Delivery, LookupError>;
      match Judge(d, a) {
        case Acknowledged(duplicate) =>
          stored := store.Update(d.id, Acknowledge(duplicate), now);
        case Permanent(error) =>
          stored := store.Update(d.id, Reject(error), now);
        case Transient(error) =>
          stored := store.RetryOrDeadLetter(d.id, error, c.maxAttempts, Max(0, c.backoffSeconds), now);
        case Escapes(exception) =>
          return Err(Unexpected(exception));
      }
      return if stored.Ok? then Ok(stored.value) else Err(Lookup(stored.error));
    }

    /** Deliver each record in turn until one attempt raises; how many were dealt with. */
    method DeliverBatch(claimed: seq<Delivery>, t: Tick, c: Settings) returns (handled: nat)
      modifies store
      ensures handled <= |claimed| && store.deliveries == DeliverFirst(old(store.deliveries), claimed, handled, t, c)
      ensures forall m :: 0 <= m < handled ==> !Aborts(claimed[m], t.attempt(m))
      ensures handled < |claimed| ==>
        Aborts(claimed[handled], t.attempt(handled)) ||
          FindIndex(store.deliveries, claimed[handled].id) == |store.deliveries|
    {
      ghost var start := store.deliveries;
      handled := 0;
      while handled < |claimed|
        invariant handled <= |claimed| && store.deliveries == DeliverFirst(start, claimed, handled, t, c)
        invariant forall m :: 0 <= m < handled ==> !Aborts(claimed[m], t.attempt(m))
      {
        var delivered := Deliver(claimed[handled], t.attempt(handled), c, t.at(handled));
        if delivered.Err? {
          return;
        }
        handled := handled + 1;
      }
    }

    /** The number of deliveries claimed, or the exception that left the rest of the batch undelivered. */
    method DispatchDue(t: Tick, c: Settings) returns (answer: Result<nat, DispatchError>)
      modifies store
      ensures store.deliveries == AfterTick(old(store.deliveries), t, c)
      ensures answer.Ok? ==> answer.value == |Batch(old(store.deliveries), t, c)|
      ensures answer.Ok? <==> HandledIn(old(store.deliveries), t, c) == |Batch(old(store.deliveries), t, c)|
      ensures answer.Err? ==> answer.error.Unexpected?
    {
      ClaimedAreThere(store.deliveries, Batch(store.deliveries, t, c), t.now, c.leaseSeconds);
      var claimed := store.ClaimDue(c.batchSize, c.leaseSeconds, t.now);
      ghost var start := store.deliveries;
      var handled := DeliverBatch(claimed, t, c);
      if handled < |claimed| { StillFound(start, claimed, handled, t, c); }
      HandledIs(claimed, handled, t);
      return if handled == |claimed| then Ok(|claimed|) else Err(Unexpected(t.attempt(handled).exception));
    }
  }

  lemma HandledIs(claimed: seq<Delivery>, k: nat, t: Tick)
    requires k <= |claimed| && forall m :: 0 <= m < k ==> !Aborts(claimed[m], t.attempt(m))
    requires k < |claimed| ==> Aborts(claimed[k], t.attempt(k))
    ensures Handled(claimed, |claimed|, t) == k
  {
  }

  lemma ClaimedAreThere(ds: Records, picks: seq<nat>, now: int, leaseSeconds: int)
    requires InOrder(ds, picks)
    ensures var start, claimed := ClaimedList(ds, picks, now, leaseSeconds), HandedOut(ds, picks, now, leaseSeconds);
      forall m :: 0 <= m < |claimed| ==> FindIndex(start, claimed[m].id) < |start|
  {
    var start, claimed := ClaimedList(ds, picks, now, leaseSeconds), HandedOut(ds, picks, now, leaseSeconds);
    forall m | 0 <= m < |claimed| ensures FindIndex(start, claimed[m].id) < |start| {
      assert start[picks[m]].id == claimed[m].id;
    }
  }

  /** Reports write records in place and keep their ids. */
  lemma {:induction false} DeliveryKeepsIds(start: Records, claimed: seq<Delivery>, k: nat, t: Tick, c: Settings)
    requires k <= |claimed|
    ensures var es := DeliverFirst(start, claimed, k, t, c);
      |es| == |start| && forall i :: 0 <= i < |es| ==> es[i].id == start[i].id
  {
    if k > 0 { DeliveryKeepsIds(start, claimed, k - 1, t, c); }
  }

  lemma StillFound(start: Records, claimed: seq<Delivery>, k: nat, t: Tick, c: Settings)
    requires k < |claimed| && FindIndex(start, claimed[k].id) < |start|
    ensures var es := DeliverFirst(start, claimed, k, t, c); FindIndex(es, claimed[k].id) < |es|
  {
    DeliveryKeepsIds(start, claimed, k, t, c);
    FoundAlike(start, DeliverFirst(start, claimed, k, t, c), claimed[k].id);
  }

  lemma FoundAlike(ds: Records, es: Records, id: string)
    requires |es| == |ds| && forall i :: 0 <= i < |es| ==> es[i].id == ds[i].id
    ensures FindIndex(es, id) == FindIndex(ds, id)
  {
    var i, j := FindIndex(ds, id), FindIndex(es, id);
    if i < |ds| { assert es[i].id == id; }
    if j < |es| { assert ds[j].id == id; }
  }

  // -------------------------------------------------------- effect of a tick

  /** Between ticks of a worker that does not crash nothing is being delivered. */
  ghost predicate Quiet(ds: Records, c: Settings) {
    && UniqueIds(ds)
    && forall i :: 0 <= i < |ds| ==> ds[i].status != Delivering && (Waiting(ds[i]) ==> ds[i].attemptCount < c.Budget())
  }

  /** ... in every store a run of that worker reaches with nothing in hand. */
  lemma QuietBetween(ws: seq<R.ListWorld>, ss: seq<Step>, c: Settings, i: nat)
    requires R.ListRun(ws, ss) && S.SoloRun(R.AbsAll(ws), ss, c) && i < |ws| && ws[i].jobs == {}
    ensures Quiet(ws[i].store, c)
  {
    var ds := ws[i].store;
    R.ListRunsFollow(ws, ss);
    S.SoloReachable(R.AbsAll(ws), ss, c, i);
    R.ContentsRepresented(ds, Contents(ds));
    assert S.Matched(R.Abs(ws[i])) && S.Budgeted(R.Abs(ws[i]), c);
    forall k | 0 <= k < |ds|
      ensures ds[k].status != Delivering && (Waiting(ds[k]) ==> ds[k].attemptCount < c.Budget())
    {
      assert Contents(ds)[ds[k].id] == ds[k] && S.WithinBudget(Contents(ds)[ds[k].id], c);
    }
  }

  /** The record with the one report it gets; still held when an exception escapes instead. */
  function Outcome(d: Delivery, k: nat, t: Tick, c: Settings): Delivery {
    var held := Claimed(d, t.now, c.leaseSeconds);
    if Aborts(held, t.attempt(k)) then held
    else Reported(held, ReportFor(held, t.attempt(k), held.attemptCount, c), t.at(k))
  }

  predicate Accepted(a: Attempt) {
    a.Answered? && (200 <= a.code <= 299 || a.code == 409)
  }

  /** Refused before the request, or rejected by Core as a request that will never do. */
  predicate Hopeless(a: Attempt) {
    || a.Refused?
    || (a.Answered? && (a.code == 400 || a.code == 401 || a.code == 403 || a.code == 404 || a.code == 405 ||
                        a.code == 410 || a.code == 422))
  }

  /** What an attempt leaves of a record that has used `attempts`, with or without a Core channel. */
  predicate ComesTo(e: Delivery, bound: bool, attempts: nat, a: Attempt, c: Settings, now: int) {
    && (e.status == Delivered <==> bound && Accepted(a))
    && (e.status == Failed <==> !bound || Hopeless(a))
    && (e.status == Delivering <==> bound && a.Raised?)
    && (e.status == DeadLetter <==>
          bound && !Accepted(a) && !Hopeless(a) && !a.Raised? && attempts >= Max(1, c.maxAttempts))
    && (e.status == Retry <==>
          bound && !Accepted(a) && !Hopeless(a) && !a.Raised? && attempts < Max(1, c.maxAttempts))
    && (e.status == Delivered ==>
          (e.duplicateAcknowledged <==> a == Answered(409)) && e.deliveredAt == Some(now) && e.lastError == None)
    && (e.status == Retry ==>
          e.nextAttemptAt == Some(now + Max(0, c.backoffSeconds) * Pow2(Max(0, attempts - 1)) * 1000))
    && (e.status == Failed || e.status == DeadLetter || e.status == Retry ==>
          e.lastError == Some(
            if !bound then "core_channel_binding_missing"
            else match a
              case Refused(error) => error
              case NoAnswer(exception) => "transport:" + exception
              case Answered(code) => "http_" + Decimal(code)
              case Raised(_) => ""))
    && (e.status != Retry && e.status != Delivering ==> e.nextAttemptAt == None)
    && (e.status != Delivering ==> e.leaseExpiresAt == None)
    && e.attemptCount == attempts
  }

  /** What a claimed delivery comes to, by Core's answer and the attempts it has used. */
  lemma OutcomeExactly(d: Delivery, k: nat, t: Tick, c: Settings)
    ensures ComesTo(Outcome(d, k, t, c), Text(d.coreChannelId) != "", d.attemptCount + 1, t.attempt(k), c, t.at(k))
  {
  }

  /** The same of one delivery on its own, where the attempts counted are the stored ones. */
  lemma DeliverExactly(ds: Records, d: Delivery, a: Attempt, c: Settings, now: int)
    ensures var es, i := DeliverOne(ds, d, a, c, now), FindIndex(ds, d.id);
      if i == |ds| || (d.coreChannelId.Some? && d.coreChannelId.value != "" && a.Raised?) then es == ds
      else
        && |es| == |ds| && (forall k: nat :: k < |ds| && k != i ==> es[k] == ds[k])
        && ComesTo(es[i], d.coreChannelId.Some? && d.coreChannelId.value != "", ds[i].attemptCount, a, c, now)
  {
  }

  function DecimalValue(s: string): int {
    if s == "" then 0 else 10 * DecimalValue(s[..|s| - 1]) + (s[|s| - 1] as int - '0' as int)
  }

  /** The code in an error text is the code answered, in digits and without a leading zero. */
  lemma {:induction false} DecimalReads(n: nat)
    ensures var s := Decimal(n);
      && s != "" && (forall c :: c in s ==> '0' <= c <= '9') && (n > 0 ==> s[0] != '0')
      && DecimalValue(s) == n
  {
    var front, digit := Decimal(n / 10), '0' + (n % 10) as char;
    assert DecimalValue([]) == 0;
    if n < 10 {
      assert Decimal(n)[..0] == [];
    } else {
      DecimalReads(n / 10);
      assert Decimal(n) == front + [digit] && (front + [digit])[..|front|] == front;
    }
  }

  /** The place of a position in the batch. */
  function PlaceOf(picks: seq<nat>, i: nat): (m: nat)
    requires i in picks
    ensures m < |picks| && picks[m] == i
  {
    if picks[0] == i then 0 else 1 + PlaceOf(picks[1..], i)
  }

  /** After `k` reports: the first `k` picks are settled, the others still held, the rest untouched. */
  function HalfwayAt(ds: Records, picks: seq<nat>, k: nat, t: Tick, c: Settings, i: nat): Delivery
    requires i < |ds|
  {
    if i !in picks then ds[i]
    else if PlaceOf(picks, i) < k then Outcome(ds[i], PlaceOf(picks, i), t, c)
    else Claimed(ds[i], t.now, c.leaseSeconds)
  }

  function Halfway(ds: Records, picks: seq<nat>, k: nat, t: Tick, c: Settings): (es: Records) {
    seq(|ds|, i requires 0 <= i < |ds| => HalfwayAt(ds, picks, k, t, c, i))
  }

  lemma HalfwayKeepsIds(ds: Records, picks: seq<nat>, k: nat, t: Tick, c: Settings)
    ensures |Halfway(ds, picks, k, t, c)| == |ds|
    ensures forall i :: 0 <= i < |ds| ==> Halfway(ds, picks, k, t, c)[i].id == ds[i].id
  {
  }

  lemma PlaceIs(ds: Records, picks: seq<nat>, m: nat)
    requires InOrder(ds, picks) && m < |picks|
    ensures picks[m] in picks && PlaceOf(picks, picks[m]) == m
  {
    OrderNoRepeats(ds, picks);
    var n := PlaceOf(picks, picks[m]);
    SamePlace(picks, n, m);
  }

  /** The next report settles the next pick and nothing else. */
  lemma HalfwayNext(ds: Records, picks: seq<nat>, k: nat, t: Tick, c: Settings)
    requires InOrder(ds, picks) && k < |picks|
    ensures Halfway(ds, picks, k + 1, t, c) == Halfway(ds, picks, k, t, c)[picks[k] := Outcome(ds[picks[k]], k, t, c)]
  {
    var es, now := Halfway(ds, picks, k, t, c), Halfway(ds, picks, k + 1, t, c);
    PlaceIs(ds, picks, k);
    forall i: nat | i < |ds| && i != picks[k] ensures now[i] == es[i] {
      if i in picks { assert PlaceOf(picks, i) != k; }
    }
  }

  lemma ReportOne(ds: Records, picks: seq<nat>, k: nat, t: Tick, c: Settings)
    requires UniqueIds(ds) && InOrder(ds, picks) && k < |picks|
    ensures var held := Claimed(ds[picks[k]], t.now, c.leaseSeconds);
      DeliverOne(Halfway(ds, picks, k, t, c), held, t.attempt(k), c, t.at(k))
      == Halfway(ds, picks, k, t, c)[picks[k] := Outcome(ds[picks[k]], k, t, c)]
  {
    var es, i := Halfway(ds, picks, k, t, c), picks[k];
    PlaceIs(ds, picks, k);
    HalfwayKeepsIds(ds, picks, k, t, c);
    R.FindAt(ds, i);
    FoundAlike(ds, es, ds[i].id);
    assert es[i] == Claimed(ds[i], t.now, c.leaseSeconds);
  }

  lemma ReportNext(ds: Records, picks: seq<nat>, k: nat, t: Tick, c: Settings)
    requires UniqueIds(ds) && InOrder(ds, picks) && k < |picks|
    ensures var d := HandedOut(ds, picks, t.now, c.leaseSeconds)[k];
      DeliverOne(Halfway(ds, picks, k, t, c), d, t.attempt(k), c, t.at(k)) == Halfway(ds, picks, k + 1, t, c)
  {
    ReportOne(ds, picks, k, t, c);
    HalfwayNext(ds, picks, k, t, c);
  }

  lemma {:induction false} ReportsOneByOne(ds: Records, picks: seq<nat>, k: nat, t: Tick, c: Settings)
    requires UniqueIds(ds) && InOrder(ds, picks) && k <= |picks|
    ensures var claimed := HandedOut(ds, picks, t.now, c.leaseSeconds);
      DeliverFirst(Halfway(ds, picks, 0, t, c), claimed, k, t, c) == Halfway(ds, picks, k, t, c)
    decreases k
  {
    if k > 0 {
      ReportsOneByOne(ds, picks, k - 1, t, c);
      ReportNext(ds, picks, k - 1, t, c);
    }
  }

  /** A tick, report by report. */
  lemma TickIsHalfway(ds: Records, t: Tick, c: Settings)
    requires UniqueIds(ds)
    ensures AfterTick(ds, t, c) == Halfway(ds, Batch(ds, t, c), HandledIn(ds, t, c), t, c)
  {
    var picks := Batch(ds, t, c);
    assert Halfway(ds, picks, 0, t, c) == ClaimedList(ds, picks, t.now, c.leaseSeconds);
    ReportsOneByOne(ds, picks, HandledIn(ds, t, c), t, c);
  }

  lemma TickKeepsLength(ds: Records, t: Tick, c: Settings)
    requires UniqueIds(ds)
    ensures |AfterTick(ds, t, c)| == |ds|
  {
    TickIsHalfway(ds, t, c);
  }

  lemma NotInBatch(ds: Records, t: Tick, c: Settings, i: nat)
    requires UniqueIds(ds) && i < |ds| && i !in Batch(ds, t, c)
    ensures |AfterTick(ds, t, c)| == |ds| && AfterTick(ds, t, c)[i] == ds[i]
  {
    TickIsHalfway(ds, t, c);
  }

  lemma InBatch(ds: Records, t: Tick, c: Settings, m: nat)
    requires UniqueIds(ds) && m < |Batch(ds, t, c)|
    ensures |AfterTick(ds, t, c)| == |ds|
    ensures var i := Batch(ds, t, c)[m];
      AfterTick(ds, t, c)[i] ==
        if m < HandledIn(ds, t, c) then Outcome(ds[i], m, t, c) else Claimed(ds[i], t.now, c.leaseSeconds)
  {
    TickIsHalfway(ds, t, c);
    PlaceIs(ds, Batch(ds, t, c), m);
  }

  /** No exception escapes the tick. */
  ghost predicate Normal(t: Tick) {
    forall k :: !t.attempt(k).Raised?
  }

  /**
   A tick gives claimed deliveries exactly one report each, in order, up to the first exception
   that escapes; the rest of the batch stays held, and nothing else is touched.
   */
  lemma OneReportEach(ds: Records, t: Tick, c: Settings)
    requires UniqueIds(ds)
    ensures var picks, es := Batch(ds, t, c), AfterTick(ds, t, c);
      && |es| == |ds|
      && (forall i: nat :: i < |ds| && i !in picks ==> es[i] == ds[i])
      && (forall m :: 0 <= m < |picks| ==> picks[m] < |ds|)
      && (forall m :: 0 <= m < HandledIn(ds, t, c) ==> m < |picks| && es[picks[m]] == Outcome(ds[picks[m]], m, t, c))
      && (forall m :: HandledIn(ds, t, c) <= m < |picks| ==>
          es[picks[m]] == Claimed(ds[picks[m]], t.now, c.leaseSeconds))
      && (Normal(t) ==> HandledIn(ds, t, c) == |picks|)
  {
    var picks := Batch(ds, t, c);
    TickKeepsLength(ds, t, c);
    forall i: nat | i < |ds| && i !in picks ensures AfterTick(ds, t, c)[i] == ds[i] { NotInBatch(ds, t, c, i); }
    forall m: nat | m < |picks|
      ensures AfterTick(ds, t, c)[picks[m]] ==
        if m < HandledIn(ds, t, c) then Outcome(ds[picks[m]], m, t, c) else Claimed(ds[picks[m]], t.now, c.leaseSeconds)
    {
      InBatch(ds, t, c, m);
    }
  }

  // -------------------------------------------------------------- settlement

  /** Attempts a record may still use. */
  function Remaining(d: Delivery, c: Settings): nat {
    if Waiting(d) then Max(0, c.Budget() - d.attemptCount) else 0
  }

  function Outstanding(ds: Records, c: Settings): nat {
    if ds == [] then 0 else Outstanding(ds[..|ds| - 1], c) + Remaining(ds[|ds| - 1], c)
  }

  ghost predicate Settled(ds: Records) {
    forall i :: 0 <= i < |ds| ==> ds[i].status == Delivered || ds[i].status == Failed || ds[i].status == DeadLetter
  }

  lemma {:induction false} OutstandingShrinks(es: Records, ds: Records, c: Settings)
    requires |es| == |ds| && forall i :: 0 <= i < |ds| ==> Remaining(es[i], c) <= Remaining(ds[i], c)
    ensures Outstanding(es, c) <= Outstanding(ds, c)
    ensures (exists i :: 0 <= i < |ds| && Remaining(es[i], c) < Remaining(ds[i], c)) ==>
      Outstanding(es, c) < Outstanding(ds, c)
  {
    if ds != [] {
      var n := |ds| - 1;
      OutstandingShrinks(es[..n], ds[..n], c);
      if i :| 0 <= i < |ds| && Remaining(es[i], c) < Remaining(ds[i], c) {
        if i < n { assert Remaining(es[..n][i], c) < Remaining(ds[..n][i], c); }
      }
    }
  }

  /** A report on a waiting delivery's claim ends it or uses an attempt up. */
  lemma OutcomeProgress(d: Delivery, k: nat, t: Tick, c: Settings)
    requires Normal(t) && Waiting(d) && d.attemptCount < c.Budget()
    ensures var e := Outcome(d, k, t, c);
      && e.status != Delivering && (Waiting(e) ==> e.attemptCount < c.Budget())
      && Remaining(e, c) < Remaining(d, c)
      && e.id == d.id
  {
  }

  lemma RecordProgress(ds: Records, t: Tick, c: Settings, i: nat)
    requires Quiet(ds, c) && Normal(t) && i < |ds|
    ensures var picks, es := Batch(ds, t, c), AfterTick(ds, t, c);
      && |es| == |ds| && es[i].id == ds[i].id
      && es[i].status != Delivering && (Waiting(es[i]) ==> es[i].attemptCount < c.Budget())
      && (if i in picks then Remaining(es[i], c) < Remaining(ds[i], c) else es[i] == ds[i])
  {
    if i in Batch(ds, t, c) {
      var m := PlaceOf(Batch(ds, t, c), i);
      InBatch(ds, t, c, m);
      TakenIsLeast(ds, t.now, c.batchSize);
      assert Eligible(ds[i], t.now);
      OutcomeProgress(ds[i], m, t, c);
    } else {
      NotInBatch(ds, t, c, i);
    }
  }

  /** A tick that claims something strictly lowers the attempts left; one that does not changes nothing. */
  lemma TickMakesProgress(ds: Records, t: Tick, c: Settings)
    requires Quiet(ds, c) && Normal(t)
    ensures Quiet(AfterTick(ds, t, c), c)
    ensures Batch(ds, t, c) != [] ==> Outstanding(AfterTick(ds, t, c), c) < Outstanding(ds, c)
    ensures Batch(ds, t, c) == [] ==> AfterTick(ds, t, c) == ds
  {
    var picks, es := Batch(ds, t, c), AfterTick(ds, t, c);
    TickKeepsLength(ds, t, c);
    forall i: nat | i < |ds|
      ensures es[i].id == ds[i].id && es[i].status != Delivering && (Waiting(es[i]) ==> es[i].attemptCount < c.Budget())
      ensures if i in picks then Remaining(es[i], c) < Remaining(ds[i], c) else es[i] == ds[i]
    {
      RecordProgress(ds, t, c, i);
    }
    OutstandingShrinks(es, ds, c);
    if picks != [] { assert picks[0] in picks; }
  }

  function AfterTicks(ds: Records, ts: seq<Tick>, c: Settings): Records
    decreases |ts|
  {
    if ts == [] then ds else AfterTicks(AfterTick(ds, ts[0], c), ts[1..], c)
  }

  function BusyTicks(ds: Records, ts: seq<Tick>, c: Settings): nat
    decreases |ts|
  {
    if ts == [] then 0
    else (if Batch(ds, ts[0], c) != [] then 1 else 0) + BusyTicks(AfterTick(ds, ts[0], c), ts[1..], c)
  }

  /** Every tick runs to its end and comes when the deliveries still waiting are due. */
  ghost predicate Patient(ds: Records, ts: seq<Tick>, c: Settings)
    decreases |ts|
  {
    ts == [] ||
    (&& Normal(ts[0])
     && (forall i :: 0 <= i < |ds| && Waiting(ds[i]) ==> AsInt(ds[i].nextAttemptAt) <= ts[0].now)
     && Patient(AfterTick(ds, ts[0], c), ts[1..], c))
  }

  /** Whatever Core answers, the worker has at most `Outstanding` non-empty ticks ahead of it. */
  lemma {:induction false} BusyTicksBounded(ds: Records, ts: seq<Tick>, c: Settings)
    requires Quiet(ds, c) && forall t :: t in ts ==> Normal(t)
    ensures Quiet(AfterTicks(ds, ts, c), c)
    ensures BusyTicks(ds, ts, c) + Outstanding(AfterTicks(ds, ts, c), c) <= Outstanding(ds, c)
    decreases |ts|
  {
    if ts != [] {
      TickMakesProgress(ds, ts[0], c);
      BusyTicksBounded(AfterTick(ds, ts[0], c), ts[1..], c);
    }
  }

  lemma {:induction false} SettledIfNothingLeft(ds: Records, c: Settings)
    requires Quiet(ds, c)
    ensures Outstanding(ds, c) == 0 ==> Settled(ds)
  {
    if ds != [] {
      var n := |ds| - 1;
      assert Quiet(ds[..n], c);
      SettledIfNothingLeft(ds[..n], c);
      assert forall i :: 0 <= i < n ==> ds[i] == ds[..n][i];
    }
  }

  lemma SettledStays(ds: Records, t: Tick, c: Settings)
    requires Settled(ds)
    ensures Batch(ds, t, c) == []
  {
    var picks := Batch(ds, t, c);
    TakenIsLeast(ds, t.now, c.batchSize);
    if picks != [] { HasMember(picks); }
  }

  lemma {:induction false} SettledHasNothingLeft(ds: Records, c: Settings)
    requires Settled(ds)
    ensures Outstanding(ds, c) == 0
  {
    if ds != [] { SettledHasNothingLeft(ds[..|ds| - 1], c); }
  }

  /** A patient tick uses up an attempt unless the outbox is settled already. */
  lemma PatientTick(ds: Records, t: Tick, c: Settings)
    requires Normal(t) && Quiet(ds, c)
    requires forall i :: 0 <= i < |ds| && Waiting(ds[i]) ==> AsInt(ds[i].nextAttemptAt) <= t.now
    ensures Outstanding(AfterTick(ds, t, c), c) < Outstanding(ds, c) ||
      Outstanding(AfterTick(ds, t, c), c) == Outstanding(ds, c) == 0
  {
    TickMakesProgress(ds, t, c);
    if Settled(ds) {
      SettledStays(ds, t, c);
      SettledHasNothingLeft(ds, c);
    } else {
      TakenIsLeast(ds, t.now, c.batchSize);
      var i :| 0 <= i < |ds| && Waiting(ds[i]);
      assert Eligible(ds[i], t.now);
    }
  }

  /**
   With no new event and no replay, after as many patient ticks as attempts were left, every
   record is delivered, failed or dead-lettered.
   */
  lemma {:induction false} OutboxSettles(ds: Records, ts: seq<Tick>, c: Settings)
    requires Quiet(ds, c) && Patient(ds, ts, c) && |ts| >= Outstanding(ds, c)
    ensures Settled(AfterTicks(ds, ts, c))
    decreases |ts|
  {
    if ts == [] {
      SettledIfNothingLeft(ds, c);
    } else {
      TickMakesProgress(ds, ts[0], c);
      PatientTick(ds, ts[0], c);
      OutboxSettles(AfterTick(ds, ts[0], c), ts[1..], c);
    }
  }
}
