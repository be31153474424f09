/**
 What each operation of the two stores does, on the fields of records and events, with every
 number and status written out. Nothing here is stated through the functions the stores are
 proved against, so these laws say what those functions have to mean.
 */
module DeliveryLaws {
  import opened Common
  import opened Deliveries
  import J = JsonOutbox
  import P = PgOutbox

  // ------------------------------------------------------------------ identity

  predicate Given(value: Option<string>) {
    value.Some? && value.value != ""
  }

  /** Both given, and equal. */
  predicate Agree(a: Option<string>, b: Option<string>) {
    Given(a) && a == b
  }

  predicate IsGroup(e: Event) {
    e.contractVersion == Some("canonical-v2")
  }

  predicate Identified(e: Event) {
    && Given(e.eventId) && Given(e.provider) && Given(e.channelType)
    && Given(e.providerAccountRef) && Given(e.connectionRef)
  }

  /** One provider message; group events also agree on where it was seen and what it is. */
  predicate SameMessage(a: Event, b: Event) {
    && Agree(a.provider, b.provider) && Agree(a.channelType, b.channelType)
    && Agree(a.providerAccountRef, b.providerAccountRef) && Agree(a.providerMessageId, b.providerMessageId)
    && (IsGroup(a) <==> IsGroup(b))
    && (IsGroup(a) ==>
          && Agree(a.connectionRef, b.connectionRef) && Agree(a.bindingId, b.bindingId)
          && Agree(a.chatExternalId, b.chatExternalId) && Agree(a.eventType, b.eventType)
          && a.fromMe == b.fromMe && a.fromMe != "")
  }

  predicate SameEventId(d: Delivery, e: Event) {
    d.eventId == if e.eventId.Some? then e.eventId.value else ""
  }

  predicate StandsFor(d: Delivery, e: Event) {
    SameEventId(d, e) || SameMessage(d.event, e)
  }

  lemma CompleteV1(v: seq<string>)
    requires |v| == 4
    ensures Complete(v) <==> v[0] != "" && v[1] != "" && v[2] != "" && v[3] != ""
  {
    if !Complete(v) {
      var i :| 0 <= i < 4 && v[i] == "";
      assert i == 0 || i == 1 || i == 2 || i == 3;
    }
  }

  lemma CompleteV2(v: seq<string>)
    requires |v| == 9
    ensures Complete(v) <==> Complete(v[..4]) && v[4] != "" && v[5] != "" && v[6] != "" && v[7] != "" && v[8] != ""
  {
    forall i | 0 <= i < 9 ensures i == 4 || i == 5 || i == 6 || i == 7 || i == 8 || v[i] == v[..4][i] {}
  }

  lemma ScopeValues(e: Event)
    ensures Scope(e).Some? <==>
      && Given(e.provider) && Given(e.channelType) && Given(e.providerAccountRef) && Given(e.providerMessageId)
      && (IsGroup(e) ==>
            Given(e.connectionRef) && Given(e.bindingId) && Given(e.chatExternalId) && Given(e.eventType) &&
            e.fromMe != "")
    ensures Scope(e).Some? ==>
      var v := Scope(e).value;
      && |v| == (if IsGroup(e) then 9 else 4)
      && e.provider == Some(v[0]) && e.channelType == Some(v[1]) && e.providerAccountRef == Some(v[2])
      && e.providerMessageId == Some(v[3])
      && (IsGroup(e) ==>
            e.connectionRef == Some(v[4]) && e.bindingId == Some(v[5]) && e.chatExternalId == Some(v[6]) &&
            e.eventType == Some(v[7]) && e.fromMe == v[8])
  {
    var v := [Text(e.provider), Text(e.channelType), Text(e.providerAccountRef), Text(e.providerMessageId)];
    var w := v + [Text(e.connectionRef), Text(e.bindingId), Text(e.chatExternalId), Text(e.eventType), e.fromMe];
    assert w[..4] == v;
    CompleteV1(v);
    CompleteV2(w);
    assert Scope(e) == if IsGroup(e) then (if Complete(w) then Some(w) else None)
      else if Complete(v) then Some(v) else None;
  }

  lemma ScopesByFields(a: Event, b: Event)
    ensures Scope(a).Some? && Scope(a) == Scope(b) <==> SameMessage(a, b)
  {
    ScopeValues(a);
    ScopeValues(b);
    if SameMessage(a, b) {
      assert Scope(a).value == Scope(b).value;
    }
  }

  /** Which stored delivery stands for an event, and which two would be duplicates. */
  lemma IdentityByFields(d: Delivery, e: Event, other: Delivery)
    ensures Matches(d, e) <==> StandsFor(d, e)
    ensures SameIdentity(d, other) <==> d.eventId == other.eventId || SameMessage(d.event, other.event)
    ensures HasIdentity(e) <==> Identified(e)
  {
    ScopesByFields(e, d.event);
    ScopesByFields(d.event, e);
    ScopesByFields(d.event, other.event);
  }

  // ------------------------------------------------------------------- enqueue

  /** A confirmed delivery older than the retention: seven days unless set, one at least. */
  predicate PastRetention(d: Delivery, now: int, days: int) {
    && d.status == Delivered
    && now - (if d.deliveredAt.Some? then d.deliveredAt.value else 0)
         > (if days == 0 then 7 else if days < 1 then 1 else days) * 86_400_000
  }

  predicate IsNew(d: Delivery, r: Request, now: int) {
    var e := r.event;
    && d.id == r.id && d.event == e && e.eventId == Some(d.eventId) && e.provider == Some(d.provider)
    && e.channelType == Some(d.channelType) && e.providerAccountRef == Some(d.providerAccountId)
    && e.connectionRef == Some(d.connectionId)
    && d.coreChannelId == (if Given(r.coreChannelId) then r.coreChannelId else None)
    && d.lastError == r.initialError
    && (if Given(r.initialError) then d.status == Failed && d.nextAttemptAt == None
        else d.status == Pending && d.nextAttemptAt == Some(now))
    && d.attemptCount == 0 && d.createdAt == now && d.updatedAt == now
    && d.lastAttemptAt == None && d.deliveredAt == None && d.leaseExpiresAt == None && !d.duplicateAcknowledged
  }

  lemma {:induction false} KeptExactly(ds: J.Records, now: int, days: int, d: Delivery)
    ensures d in J.WithoutExpired(ds, now, days) <==> d in ds && !PastRetention(d, now, days)
  {
    if ds != [] {
      var last := |ds| - 1;
      KeptExactly(ds[..last], now, days, d);
      assert ds == ds[..last] + [ds[last]];
    }
  }

  /** The list afterwards: the event is stored exactly when it is identified and nothing stands for it. */
  lemma ListEnqueueExactly(ds: J.Records, r: Request, now: int)
    ensures J.Created(ds, r) <==> Identified(r.event) && forall d :: d in ds ==> !StandsFor(d, r.event)
    ensures var es := J.Enqueued(ds, r, now);
      if J.Created(ds, r) then
        && es != [] && IsNew(es[|es| - 1], r, now)
        && (forall d :: d in es[..|es| - 1] <==> d in ds && !PastRetention(d, now, r.retentionDays))
      else es == ds
  {
    var i := J.FirstMatch(ds, r.event);
    NewExactly(r, now);
    forall d ensures Matches(d, r.event) <==> StandsFor(d, r.event) { IdentityByFields(d, r.event, d); }
    if i < |ds| { assert ds[i] in ds; }
    var kept := J.WithoutExpired(ds, now, r.retentionDays);
    forall d ensures d in kept <==> d in ds && !PastRetention(d, now, r.retentionDays) {
      KeptExactly(ds, now, r.retentionDays, d);
    }
    var d := NewDelivery(r, now);
    assert (kept + [d])[..|kept|] == kept;
  }

  ghost predicate Kept(rows: P.Table, id: string, now: int, days: int) {
    id in rows && !PastRetention(rows[id].doc, now, days)
  }

  /** No row the purge keeps stands for the event. */
  ghost predicate Free(rows: P.Table, e: Event, now: int, days: int) {
    forall id :: Kept(rows, id, now, days) ==> !StandsFor(rows[id].doc, e)
  }

  lemma PurgeExactly(rows: P.Table, now: int, days: int)
    requires P.Consistent(rows) && forall id :: id in rows ==> Coherent(rows[id].doc)
    ensures var kept := P.AfterPurge(rows, Cutoff(now, days));
      forall id :: (id in kept <==> Kept(rows, id, now, days)) && (id in kept ==> kept[id] == rows[id])
  {
    forall id | id in rows
      ensures P.IsPurged(rows[id], Cutoff(now, days)) <==> PastRetention(rows[id].doc, now, days)
    {
      P.NullsAgree(rows[id].doc, now, days);
    }
  }

  /** The insert conflicts exactly with a row of the same id, event id or message. */
  lemma BlockedExactly(rows: P.Table, r: Request, now: int)
    requires P.Consistent(rows)
    ensures P.Blocked(rows, NewDelivery(r, now)) <==>
      r.id in rows || exists id :: id in rows && StandsFor(rows[id].doc, r.event)
  {
    var d := NewDelivery(r, now);
    forall id | id in rows
      ensures P.IsConflicting(rows[id], d.eventId, P.KeyOf(d.event)) <==> StandsFor(rows[id].doc, r.event)
    {
      P.ConflictsAreMatches(rows[id].doc, r.event);
      IdentityByFields(rows[id].doc, r.event, d);
    }
  }

  lemma NewExactly(r: Request, now: int)
    ensures HasIdentity(r.event) <==> Identified(r.event)
    ensures Identified(r.event) ==> IsNew(NewDelivery(r, now), r, now)
  {
  }

  /** The columns the queries read, beside the document; the scope column is set when the identity is complete. */
  predicate IsRow(row: P.Row, d: Delivery) {
    && row.doc == d && row.eventId == d.eventId && row.connectionId == d.connectionId && row.status == d.status
    && row.nextAttemptAt == d.nextAttemptAt && row.leaseExpiresAt == d.leaseExpiresAt
    && row.deliveredAt == d.deliveredAt && row.createdAt == d.createdAt
    && (row.scopeKey.Some? <==> SameMessage(d.event, d.event))
  }

  lemma RowByFields(d: Delivery)
    ensures IsRow(P.Project(d), d)
  {
    ScopesByFields(d.event, d.event);
  }

  /** The rows afterwards: what is kept, and the event when it is identified and nothing kept stands for it. */
  lemma TableEnqueueExactly(rows: P.Table, r: Request, now: int)
    requires P.Consistent(rows) && r.id !in rows && forall id :: id in rows ==> Coherent(rows[id].doc)
    ensures var rs := P.EnqueuedTable(rows, r, now);
      if !Identified(r.event) then rs == rows
      else
        && (r.id in rs <==> Free(rows, r.event, now, r.retentionDays))
        && (r.id in rs ==> IsNew(rs[r.id].doc, r, now) && IsRow(rs[r.id], rs[r.id].doc))
        && (forall id :: id != r.id ==> (id in rs <==> Kept(rows, id, now, r.retentionDays)))
        && (forall id :: id in rs && id != r.id ==> rs[id] == rows[id])
  {
    NewExactly(r, now);
    RowByFields(NewDelivery(r, now));
    if Identified(r.event) {
      var kept := P.AfterPurge(rows, Cutoff(now, r.retentionDays));
      PurgeExactly(rows, now, r.retentionDays);
      BlockedExactly(kept, r, now);
      if Free(rows, r.event, now, r.retentionDays) {
        assert P.EnqueuedTable(rows, r, now) == kept[r.id := P.Project(NewDelivery(r, now))];
      } else {
        var id :| Kept(rows, id, now, r.retentionDays) && StandsFor(rows[id].doc, r.event);
        assert id in kept && P.EnqueuedTable(rows, r, now) == kept;
      }
    }
  }

  /** The record has neither the event's id nor its message id. */
  predicate Unlike(d: Delivery, e: Event) {
    !SameEventId(d, e) && d.event.providerMessageId != e.providerMessageId
  }

  /** An identified event with an event id and a message id of its own is stored, by either store. */
  lemma NewMessageIsStored(ds: J.Records, rows: P.Table, r: Request, now: int)
    requires P.Consistent(rows) && r.id !in rows && forall id :: id in rows ==> Coherent(rows[id].doc)
    requires Identified(r.event)
    ensures (forall d :: d in ds ==> Unlike(d, r.event)) ==>
      exists d :: d in J.Enqueued(ds, r, now) && IsNew(d, r, now)
    ensures (forall id :: id in rows ==> Unlike(rows[id].doc, r.event)) ==>
      r.id in P.EnqueuedTable(rows, r, now) && IsNew(P.EnqueuedTable(rows, r, now)[r.id].doc, r, now)
  {
    ListEnqueueExactly(ds, r, now);
    TableEnqueueExactly(rows, r, now);
    if forall d :: d in ds ==> Unlike(d, r.event) {
      var es := J.Enqueued(ds, r, now);
      assert es[|es| - 1] in es;
    }
  }

  // --------------------------------------------------------------------- claim

  /** Waiting and due, or held under a lease that has lapsed; a missing time counts as zero. */
  predicate IsDue(d: Delivery, now: int) {
    || ((d.status == Pending || d.status == Retry) && (d.nextAttemptAt.None? && 0 <= now))
    || ((d.status == Pending || d.status == Retry) && d.nextAttemptAt.Some? && d.nextAttemptAt.value <= now)
    || (d.status == Delivering && d.leaseExpiresAt.None? && 0 <= now)
    || (d.status == Delivering && d.leaseExpiresAt.Some? && d.leaseExpiresAt.value <= now)
  }

  predicate IsHeld(e: Delivery, d: Delivery, now: int, leaseSeconds: int) {
    e == d.(
      status := Delivering, attemptCount := d.attemptCount + 1, lastAttemptAt := Some(now), nextAttemptAt := None,
      leaseExpiresAt := Some(now + (if leaseSeconds < 1 then 1 else leaseSeconds) * 1000), updatedAt := now)
  }

  /** The earlier due time goes first, a missing one before all; then the earlier creation. */
  predicate Ahead(a: Delivery, b: Delivery) {
    var x := if a.nextAttemptAt.Some? then a.nextAttemptAt.value else 0;
    var y := if b.nextAttemptAt.Some? then b.nextAttemptAt.value else 0;
    x < y || (x == y && a.createdAt < b.createdAt)
  }

  lemma ClaimByFields(d: Delivery, e: Delivery, now: int, leaseSeconds: int)
    ensures Eligible(d, now) <==> IsDue(d, now)
    ensures J.KeyLess(d, e) <==> Ahead(d, e)
    ensures IsHeld(Claimed(d, now, leaseSeconds), d, now, leaseSeconds)
  {
  }

  /** Which positions of the list a claim takes. */
  lemma ListClaimChooses(ds: J.Records, limit: int, now: int)
    ensures var picks := J.Taken(ds, now, limit);
      && |picks| <= (if limit < 1 then 1 else limit)
      && (forall i: nat :: i in picks ==> i < |ds| && IsDue(ds[i], now))
      && (forall i: nat :: i < |ds| && i !in picks && IsDue(ds[i], now) ==>
            && |picks| == (if limit < 1 then 1 else limit)
            && forall x :: x in picks ==> Ahead(ds[x], ds[i]) || (!Ahead(ds[i], ds[x]) && x < i))
  {
    var picks := J.Taken(ds, now, limit);
    J.TakenIsLeast(ds, now, limit);
    forall i: nat | i < |ds| ensures Eligible(ds[i], now) <==> IsDue(ds[i], now) {
      ClaimByFields(ds[i], ds[i], now, 0);
    }
    forall i: nat | i < |ds| && i !in picks && IsDue(ds[i], now)
      ensures |picks| == (if limit < 1 then 1 else limit)
      ensures forall x :: x in picks ==> Ahead(ds[x], ds[i]) || (!Ahead(ds[i], ds[x]) && x < i)
    {
      forall x | x in picks ensures Ahead(ds[x], ds[i]) || (!Ahead(ds[i], ds[x]) && x < i) {
        ClaimByFields(ds[x], ds[i], now, 0);
        ClaimByFields(ds[i], ds[x], now, 0);
        assert J.Before(ds, x, i);
      }
    }
  }

  /** What it writes there, and hands out in its order. */
  lemma ListClaimWrites(ds: J.Records, picks: seq<nat>, now: int, leaseSeconds: int, i: nat)
    requires J.InOrder(ds, picks) && i < |ds|
    ensures var es := J.ClaimedList(ds, picks, now, leaseSeconds);
      |es| == |ds| && if i in picks then IsHeld(es[i], ds[i], now, leaseSeconds) else es[i] == ds[i]
    ensures var handed := J.HandedOut(ds, picks, now, leaseSeconds);
      |handed| == |picks| && forall k :: 0 <= k < |picks| ==> IsHeld(handed[k], ds[picks[k]], now, leaseSeconds)
  {
  }

  /** The rows a claim takes are due, and none that is due and not locked is left out before them. */
  lemma TableClaimChooses(rows: P.Table, locked: set<string>, limit: int, now: int, selected: seq<string>, id: string)
    requires P.Consistent(rows) && (forall x :: x in rows ==> Coherent(rows[x].doc)) && now > 0
    requires P.DueAnswer(rows, locked, now, Max(1, limit), selected) && id in rows
    ensures |selected| <= (if limit < 1 then 1 else limit)
    ensures id in selected ==> IsDue(rows[id].doc, now) && id !in locked
    ensures id !in selected && id !in locked && IsDue(rows[id].doc, now) ==>
      && |selected| == (if limit < 1 then 1 else limit)
      && forall x :: x in selected ==> !Ahead(rows[id].doc, rows[x].doc)
  {
    P.NullsAgree(rows[id].doc, now, 0);
    ClaimByFields(rows[id].doc, rows[id].doc, now, 0);
    forall x | x in selected && !P.SortsBefore(rows[id], rows[x]) ensures !Ahead(rows[id].doc, rows[x].doc) {
      assert rows[x] == P.Project(rows[x].doc) && rows[id] == P.Project(rows[id].doc);
      assert Coherent(rows[x].doc) && Coherent(rows[id].doc);
    }
  }

  lemma TableClaimWrites(rows: P.Table, selected: seq<string>, now: int, leaseSeconds: int, id: string)
    requires id in rows
    ensures var rs := P.ClaimedTable(rows, Elements(selected), now, leaseSeconds);
      rs.Keys == rows.Keys &&
        if id in selected then IsHeld(rs[id].doc, rows[id].doc, now, leaseSeconds) else rs[id] == rows[id]
  {
  }

  // ------------------------------------------------------------------- reports

  /** What each report leaves: nobody holds the delivery any more, and nothing else is touched. */
  predicate IsReported(e: Delivery, d: Delivery, report: Report, now: int) {
    var e0 := d.(status := e.status, deliveredAt := e.deliveredAt, nextAttemptAt := e.nextAttemptAt,
                 leaseExpiresAt := None, lastError := e.lastError, duplicateAcknowledged := e.duplicateAcknowledged,
                 updatedAt := now);
    && e == e0
    && match report {
         case Acknowledge(duplicate) =>
           && e.status == Delivered && e.deliveredAt == Some(now) && e.nextAttemptAt == None
           && e.lastError == None && e.duplicateAcknowledged == duplicate
         case Reject(error) =>
           && e.status == Failed && e.nextAttemptAt == None && e.lastError == Some(error)
           && e.deliveredAt == d.deliveredAt && e.duplicateAcknowledged == d.duplicateAcknowledged
         case GiveUp(error) =>
           && e.status == DeadLetter && e.nextAttemptAt == None && e.lastError == Some(error)
           && e.deliveredAt == d.deliveredAt && e.duplicateAcknowledged == d.duplicateAcknowledged
         case Reschedule(error, delay) =>
           && e.status == Retry && e.nextAttemptAt == Some(now + 1000 * delay) && e.lastError == Some(error)
           && e.deliveredAt == d.deliveredAt && e.duplicateAcknowledged == d.duplicateAcknowledged
       }
  }

  ghost predicate Only(ds: J.Records, es: J.Records, i: nat) {
    |es| == |ds| && i < |ds| && forall k: nat :: k < |ds| && k != i ==> es[k] == ds[k]
  }

  ghost predicate IsFirst(ds: J.Records, id: string, i: nat) {
    i < |ds| && ds[i].id == id && forall k :: 0 <= k < i ==> ds[k].id != id
  }

  lemma FirstIs(ds: J.Records, id: string, i: nat)
    ensures IsFirst(ds, id, i) <==> i == J.FindIndex(ds, id) && i < |ds|
    ensures (forall d :: d in ds ==> d.id != id) <==> J.FindIndex(ds, id) == |ds|
  {
    var k := J.FindIndex(ds, id);
    if k < |ds| { assert ds[k] in ds; }
  }

  lemma ReportByFields(d: Delivery, report: Report, now: int)
    ensures IsReported(Reported(d, report, now), d, report, now)
  {
  }

  /** A report rewrites the first record with its id, whatever its status. */
  lemma ListUpdateExactly(ds: J.Records, id: string, report: Report, now: int, i: nat)
    ensures var es := J.Updated(ds, id, report, now);
      && (IsFirst(ds, id, i) ==> Only(ds, es, i) && IsReported(es[i], ds[i], report, now))
      && ((forall d :: d in ds ==> d.id != id) ==> es == ds)
  {
    FirstIs(ds, id, i);
    if i < |ds| { ReportByFields(ds[i], report, now); }
  }

  lemma TableUpdateExactly(rows: P.Table, id: string, report: Report, now: int)
    requires P.Consistent(rows)
    ensures var rs := P.UpdatedTable(rows, id, report, now);
      && rs.Keys == rows.Keys && (forall k :: k in rows && k != id ==> rs[k] == rows[k])
      && (id in rows ==> IsReported(rs[id].doc, rows[id].doc, report, now))
  {
    if id in rows { ReportByFields(rows[id].doc, report, now); }
  }

  /** retry_or_dead_letter: the last attempt gives up, any other waits base * 2^(attempts - 1) seconds. */
  lemma RetryExactly(attempts: nat, error: string, maxAttempts: int, backoffSeconds: int)
    ensures var report := RetryReport(attempts, error, maxAttempts, backoffSeconds);
      if attempts >= 1 && attempts >= maxAttempts then report == GiveUp(error)
      else
        && report.Reschedule? && report.error == error
        && (backoffSeconds <= 0 ==> report.delaySeconds == 0)
        && (backoffSeconds > 0 && attempts <= 1 ==> report.delaySeconds == backoffSeconds)
        && (attempts >= 1 && attempts + 1 < maxAttempts ==>
              var next := RetryReport(attempts + 1, error, maxAttempts, backoffSeconds);
              next.Reschedule? && next.delaySeconds == 2 * report.delaySeconds)
  {
    if attempts >= 1 {
      Doubling(Max(0, backoffSeconds), attempts);
    }
  }

  lemma Doubling(base: nat, attempts: nat)
    requires attempts >= 1
    ensures base * Pow2(Max(0, attempts + 1 - 1)) == 2 * (base * Pow2(Max(0, attempts - 1)))
  {
    var p := Pow2(attempts - 1);
    assert Pow2(attempts) == 2 * p;
    assert base * (2 * p) == 2 * (base * p);
  }

  // -------------------------------------------------------------------- replay

  predicate OfBinding(e: Event, b: Binding) {
    && e.contractVersion == Some("canonical-v2") && e.connectionRef == Some(b.connectionId)
    && e.coreChannelId == Some(b.coreChannelId) && e.bindingId == Some(b.bindingId)
  }

  /** Given up, failed or retrying: due now, as if never tried. In any other status: untouched. */
  predicate IsRequeued(e: Delivery, d: Delivery, now: int) {
    if d.status == Failed || d.status == DeadLetter || d.status == Retry
    then e == d.(status := Pending, nextAttemptAt := Some(now), attemptCount := 0, lastError := None,
                 leaseExpiresAt := None, updatedAt := now)
    else e == d
  }

  lemma ReplayByFields(d: Delivery, b: Binding, now: int)
    ensures BoundTo(d.event, b) <==> OfBinding(d.event, b)
    ensures IsRequeued(Replayed(d, now), d, now)
    ensures Replayable(d) <==> d.status == Failed || d.status == DeadLetter || d.status == Retry
  {
  }

  /** A replay requeues the first record with its id when the binding is the record's; otherwise nothing changes. */
  lemma ListReplayExactly(ds: J.Records, id: string, b: Binding, now: int, i: nat)
    ensures var es := J.ReplayedList(ds, id, b, now);
      && (IsFirst(ds, id, i) && OfBinding(ds[i].event, b) ==> Only(ds, es, i) && IsRequeued(es[i], ds[i], now))
      && (IsFirst(ds, id, i) && !OfBinding(ds[i].event, b) ==> es == ds)
      && ((forall d :: d in ds ==> d.id != id) ==> es == ds)
  {
    FirstIs(ds, id, i);
    if i < |ds| { ReplayByFields(ds[i], b, now); }
  }

  lemma TableReplayExactly(rows: P.Table, id: string, b: Binding, now: int)
    requires P.Consistent(rows)
    ensures var rs := P.ReplayedTable(rows, id, b, now);
      && rs.Keys == rows.Keys && (forall k :: k in rows && k != id ==> rs[k] == rows[k])
      && (id in rows && OfBinding(rows[id].doc.event, b) ==> IsRequeued(rs[id].doc, rows[id].doc, now))
      && (id !in rows || !OfBinding(rows[id].doc.event, b) ==> rs == rows)
  {
    if id in rows { ReplayByFields(rows[id].doc, b, now); }
  }
}
