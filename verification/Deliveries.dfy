/**
 Delivery records of the Gateway -> Core outbox: the shape both stores share, and what each
 store operation writes into one record. Times are milliseconds.
 */
module Deliveries {
  import opened Common

  /** The canonical event, reduced to the fields the outbox reads; `content` is everything else. */
  datatype Event = Event(
    contractVersion: Option<string>,
    eventId: Option<string>,
    eventType: Option<string>,
    provider: Option<string>,
    channelType: Option<string>,
    providerAccountRef: Option<string>,
    connectionRef: Option<string>,
    coreChannelId: Option<string>,
    bindingId: Option<string>,
    chatExternalId: Option<string>,
    providerMessageId: Option<string>,
    fromMe: string,
    content: string)

  datatype Status = Pending | Delivering | Retry | Delivered | Failed | DeadLetter

  datatype Delivery = Delivery(
    id: string,
    eventId: string,
    provider: string,
    channelType: string,
    providerAccountId: string,
    connectionId: string,
    coreChannelId: Option<string>,
    event: Event,
    status: Status,
    attemptCount: nat,
    nextAttemptAt: Option<int>,
    lastAttemptAt: Option<int>,
    deliveredAt: Option<int>,
    lastError: Option<string>,
    createdAt: int,
    updatedAt: int,
    leaseExpiresAt: Option<int>,
    duplicateAcknowledged: bool)

  const CANONICAL_V2 := Some("canonical-v2")
  const DAY := 86_400_000

  // ------------------------------------------------------------------ identity

  /** The provider's own message identity; None when any part of it is missing. */
  function Scope(e: Event): Option<seq<string>> {
    var v1 := [Text(e.provider), Text(e.channelType), Text(e.providerAccountRef), Text(e.providerMessageId)];
    var values :=
      if e.contractVersion == CANONICAL_V2
      then v1 + [Text(e.connectionRef), Text(e.bindingId), Text(e.chatExternalId), Text(e.eventType), e.fromMe]
      else v1;
    if Complete(values) then Some(values) else None
  }

  predicate Complete(values: seq<string>) {
    forall i :: 0 <= i < |values| ==> values[i] != ""
  }

  predicate HasIdentity(e: Event) {
    && Text(e.eventId) != ""
    && Text(e.provider) != ""
    && Text(e.channelType) != ""
    && Text(e.providerAccountRef) != ""
    && Text(e.connectionRef) != ""
  }

  /** The stored delivery `d` stands for the same logical event as `e`. */
  predicate Matches(d: Delivery, e: Event) {
    d.eventId == Text(e.eventId) || (Scope(e).Some? && Scope(d.event) == Scope(e))
  }

  /** Two records of one store may never be related like this. */
  predicate SameIdentity(a: Delivery, b: Delivery) {
    a.eventId == b.eventId || (Scope(a.event).Some? && Scope(a.event) == Scope(b.event))
  }

  // ------------------------------------------------------------------- enqueue

  datatype Request = Request(
    id: string,
    event: Event,
    coreChannelId: Option<string>,
    initialError: Option<string>,
    retentionDays: int)

  function NewDelivery(r: Request, now: int): Delivery {
    var e := r.event;
    var failed := Text(r.initialError) != "";
    Delivery(
      r.id, Text(e.eventId), Text(e.provider), Text(e.channelType), Text(e.providerAccountRef),
      Text(e.connectionRef), if Text(r.coreChannelId) == "" then None else r.coreChannelId, e,
      if failed then Failed else Pending, 0, if failed then None else Some(now),
      None, None, r.initialError, now, now, None, false)
  }

  /** The setting falls back to seven days when it is zero and is never below one day. */
  function Cutoff(now: int, retentionDays: int): int {
    now - Max(1, if retentionDays == 0 then 7 else retentionDays) * DAY
  }

  predicate Expired(d: Delivery, now: int, retentionDays: int) {
    d.status == Delivered && AsInt(d.deliveredAt) < Cutoff(now, retentionDays)
  }

  // --------------------------------------------------------------------- claim

  predicate Waiting(d: Delivery) {
    d.status == Pending || d.status == Retry
  }

  predicate Eligible(d: Delivery, now: int) {
    || (Waiting(d) && AsInt(d.nextAttemptAt) <= now)
    || (d.status == Delivering && AsInt(d.leaseExpiresAt) <= now)
  }

  function LeaseEnd(now: int, leaseSeconds: int): int {
    now + Max(1, leaseSeconds) * 1000
  }

  function Claimed(d: Delivery, now: int, leaseSeconds: int): Delivery {
    d.(status := Delivering, attemptCount := d.attemptCount + 1, lastAttemptAt := Some(now),
       nextAttemptAt := None, leaseExpiresAt := Some(LeaseEnd(now, leaseSeconds)), updatedAt := now)
  }

  /** What an operator configures of the worker. */
  datatype Settings = Settings(batchSize: int, leaseSeconds: int, maxAttempts: int, backoffSeconds: int) {
    function Budget(): int { Max(1, maxAttempts) }
  }

  // ------------------------------------------------------------------- reports

  /** What a worker writes back: complete, fail_permanently, and the two ends of retry_or_dead_letter. */
  datatype Report =
    | Acknowledge(duplicate: bool)
    | Reject(error: string)
    | GiveUp(error: string)
    | Reschedule(error: string, delaySeconds: nat)

  function Backoff(backoffSeconds: int, attempts: nat): nat {
    Max(0, backoffSeconds) * Pow2(Max(0, attempts - 1))
  }

  /** The decision of retry_or_dead_letter, from the attempt count it has read. */
  function RetryReport(attempts: nat, error: string, maxAttempts: int, backoffSeconds: int): Report {
    if attempts >= Max(1, maxAttempts) then GiveUp(error) else Reschedule(error, Backoff(backoffSeconds, attempts))
  }

  function Reported(d: Delivery, report: Report, now: int): Delivery {
    match report
    case Acknowledge(duplicate) =>
      d.(status := Delivered, deliveredAt := Some(now), nextAttemptAt := None, leaseExpiresAt := None,
         lastError := None, duplicateAcknowledged := duplicate, updatedAt := now)
    case Reject(error) =>
      d.(status := Failed, nextAttemptAt := None, leaseExpiresAt := None, lastError := Some(error), updatedAt := now)
    case GiveUp(error) =>
      d.(status := DeadLetter, nextAttemptAt := None, leaseExpiresAt := None, lastError := Some(error),
         updatedAt := now)
    case Reschedule(error, delay) =>
      d.(status := Retry, nextAttemptAt := Some(now + delay * 1000), leaseExpiresAt := None,
         lastError := Some(error), updatedAt := now)
  }

  /** Both stores' errors about a delivery that is not there, or not the caller's. */
  datatype LookupError = KeyError | BindingMismatch

  // -------------------------------------------------------------------- replay

  datatype Binding = Binding(connectionId: string, coreChannelId: string, bindingId: string)

  predicate BoundTo(e: Event, b: Binding) {
    && e.contractVersion == CANONICAL_V2
    && e.connectionRef == Some(b.connectionId)
    && e.coreChannelId == Some(b.coreChannelId)
    && e.bindingId == Some(b.bindingId)
  }

  predicate Replayable(d: Delivery) {
    d.status == Failed || d.status == DeadLetter || d.status == Retry
  }

  function Replayed(d: Delivery, now: int): Delivery {
    if Replayable(d)
    then d.(status := Pending, nextAttemptAt := Some(now), leaseExpiresAt := None, lastError := None,
            updatedAt := now, attemptCount := 0)
    else d
  }

  // ----------------------------------------------------------------- coherence

  /** Which fields are set in which status, in every store a run can reach. */
  ghost predicate Coherent(d: Delivery) {
    && (d.nextAttemptAt.Some? <==> Waiting(d))
    && (d.leaseExpiresAt.Some? <==> d.status == Delivering)
    && (d.status == Delivered ==> d.deliveredAt.Some? && d.lastError == None)
    && (d.status == Retry || d.status == Failed || d.status == DeadLetter ==> d.lastError.Some?)
    && (d.nextAttemptAt.Some? ==> d.nextAttemptAt.value > 0)
    && (d.leaseExpiresAt.Some? ==> d.leaseExpiresAt.value > 0)
  }

  /** What no operation but creation ever writes. */
  predicate SameOrigin(a: Delivery, b: Delivery) {
    && a.id == b.id && a.eventId == b.eventId && a.event == b.event
    && a.connectionId == b.connectionId && a.createdAt == b.createdAt
  }

  /** Every write keeps a record coherent and its origin untouched. */
  lemma WritesKeepCoherence(d: Delivery, now: int, leaseSeconds: int, report: Report)
    requires Coherent(d) && now > 0
    ensures Coherent(Claimed(d, now, leaseSeconds)) && SameOrigin(d, Claimed(d, now, leaseSeconds))
    ensures Coherent(Reported(d, report, now)) && SameOrigin(d, Reported(d, report, now))
    ensures Coherent(Replayed(d, now)) && SameOrigin(d, Replayed(d, now))
  {
  }

  lemma Pow2Positive(n: nat)
    ensures Pow2(n) >= 1
  {
  }

  lemma BackoffAtLeastOne(backoffSeconds: int, attempts: nat)
    requires backoffSeconds >= 1
    ensures Backoff(backoffSeconds, attempts) >= 1
  {
    Pow2Positive(Max(0, attempts - 1));
    assert Backoff(backoffSeconds, attempts) >= 1 * 1 by {
      Scale(1, backoffSeconds, 1, Pow2(Max(0, attempts - 1)));
    }
  }

  lemma Scale(a: nat, b: nat, c: nat, d: nat)
    requires a <= b && c <= d
    ensures a * c <= b * d
  {
  }
}
