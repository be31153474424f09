/**
 "The same contract as the JSON store": when the two stores, holding the same deliveries up to
 delivered ones past retention, answer alike. Claims agree whatever the database chooses exactly
 when no delivery the list takes is locked and no tie straddles the batch; enqueues agree exactly
 when the event matches a live record or nothing at all.
 */
module StoreAgreement {
  import opened Common
  import opened Deliveries
  import opened Protocol
  import opened ClaimChoice
  import J = JsonOutbox
  import R = JsonRuns
  import P = PgOutbox

  /** What every reachable list and table keep by themselves. */
  ghost predicate WellKeptStores(ds: J.Records, rows: P.Table) {
    && J.UniqueIds(ds) && (forall i :: 0 <= i < |ds| ==> Coherent(ds[i]))
    && P.Consistent(rows) && (forall id :: id in rows ==> Coherent(rows[id].doc))
  }

  /** Without the delivered records past retention, which either store may or may not have purged yet. */
  function LivePart(box: Box, now: int, days: int): Box {
    map id | id in box && !Expired(box[id], now, days) :: box[id]
  }

  ghost predicate SameLive(a: Box, b: Box, now: int, days: int) {
    LivePart(a, now, days) == LivePart(b, now, days)
  }

  lemma SameRecord(a: Box, b: Box, now: int, days: int, id: string)
    requires SameLive(a, b, now, days) && id in a && !Expired(a[id], now, days)
    ensures id in b && b[id] == a[id]
  {
    assert id in LivePart(a, now, days);
    assert id in LivePart(b, now, days) && LivePart(b, now, days)[id] == a[id];
  }

  lemma ListContents(ds: J.Records)
    requires J.UniqueIds(ds)
    ensures R.Represents(ds, J.Contents(ds))
  {
    R.ContentsRepresented(ds, J.Contents(ds));
  }

  // ------------------------------------------------------------------- claims

  function ListTaken(ds: J.Records, now: int, limit: int): set<string>
  {
    J.TakenIsLeast(ds, now, limit);
    R.IdsAt(ds, J.Taken(ds, now, limit))
  }

  /** The list's claim, as a choice of deliveries. */
  lemma ListTakesAChoice(ds: J.Records, now: int, limit: int)
    requires J.UniqueIds(ds)
    ensures Choice(J.Contents(ds), now, Max(1, limit), ListTaken(ds, now, limit))
  {
    var picks, box, n := J.Taken(ds, now, limit), J.Contents(ds), Max(1, limit);
    var taken := ListTaken(ds, now, limit);
    ListContents(ds);
    J.TakenIsLeast(ds, now, limit);
    J.OrderNoRepeats(ds, picks);
    R.IdsAtSize(ds, picks);
    forall id | id in EligibleIds(box, now) && id !in taken
      ensures |taken| == n && forall x :: x in taken ==> !J.KeyLess(box[id], box[x])
    {
      var e := J.FindIndex(ds, id);
      assert box[ds[e].id] == ds[e] && e !in picks;
    }
  }

  /** SQL's NULLS FIRST and the list's zero default order coherent records alike. */
  lemma OrdersAgree(a: Delivery, b: Delivery)
    requires Coherent(a) && Coherent(b)
    ensures P.SortsBefore(P.Project(a), P.Project(b)) <==> J.KeyLess(a, b)
  {
  }

  lemma RowsAgree(rows: P.Table, now: int, x: string, y: string)
    requires P.Consistent(rows) && x in rows && y in rows && Coherent(rows[x].doc) && Coherent(rows[y].doc)
    ensures P.IsDue(rows[x], now) <==> Eligible(P.Docs(rows)[x], now)
    ensures P.SortsBefore(rows[x], rows[y]) <==> J.KeyLess(P.Docs(rows)[x], P.Docs(rows)[y])
  {
    P.NullsAgree(rows[x].doc, now, 0);
    OrdersAgree(rows[x].doc, rows[y].doc);
  }

  /** Every answer of the query is a choice among the rows that are not locked. */
  lemma AnswerIsAChoice(rows: P.Table, locked: set<string>, now: int, n: nat, selected: seq<string>)
    requires P.Consistent(rows) && forall id :: id in rows ==> Coherent(rows[id].doc)
    requires P.DueAnswer(rows, locked, now, n, selected)
    ensures Choice(P.Docs(rows) - locked, now, n, Elements(selected))
  {
    var box := P.Docs(rows) - locked;
    ElementCount(selected);
    forall id | id in selected ensures id in EligibleIds(box, now) { RowsAgree(rows, now, id, id); }
    forall id | id in EligibleIds(box, now) && id !in selected
      ensures |selected| == n && forall x :: x in selected ==> !J.KeyLess(box[id], box[x])
    {
      RowsAgree(rows, now, id, id);
      forall x | x in selected ensures !J.KeyLess(box[id], box[x]) { RowsAgree(rows, now, id, x); }
    }
  }

  /** ... and every such choice is one of its answers. */
  lemma ChoiceIsAnAnswer(rows: P.Table, locked: set<string>, now: int, n: nat, taken: set<string>)
    returns (selected: seq<string>)
    requires P.Consistent(rows) && forall id :: id in rows ==> Coherent(rows[id].doc)
    requires Choice(P.Docs(rows) - locked, now, n, taken)
    ensures P.DueAnswer(rows, locked, now, n, selected) && Elements(selected) == taken
  {
    var box := P.Docs(rows) - locked;
    selected := Sorted(box, taken);
    ElementCount(selected);
    assert forall id :: id in selected <==> id in taken by {
      assert forall id :: id in selected <==> id in Elements(selected);
    }
    forall id | id in selected ensures id in rows && id !in locked && P.IsDue(rows[id], now) {
      assert id in EligibleIds(box, now);
      RowsAgree(rows, now, id, id);
    }
    forall a, b | 0 <= a < b < |selected| ensures !P.SortsBefore(rows[selected[b]], rows[selected[a]]) {
      assert selected[a] in selected && selected[b] in selected;
      RowsAgree(rows, now, selected[b], selected[a]);
    }
    forall id | id in rows && id !in locked && P.IsDue(rows[id], now) && id !in selected
      ensures |selected| == n && forall x :: x in selected ==> !P.SortsBefore(rows[id], rows[x])
    {
      RowsAgree(rows, now, id, id);
      assert id in EligibleIds(box, now);
      forall x | x in selected ensures !P.SortsBefore(rows[id], rows[x]) { RowsAgree(rows, now, id, x); }
    }
  }

  /** A claim looks at live deliveries only. */
  lemma ChoicesSeeLiveOnly(a: Box, b: Box, now: int, days: int, n: nat, taken: set<string>)
    requires SameLive(a, b, now, days)
    ensures EligibleIds(a, now) == EligibleIds(b, now)
    ensures forall id :: id in EligibleIds(a, now) ==> id in a && id in b && a[id] == b[id]
    ensures Choice(a, now, n, taken) <==> Choice(b, now, n, taken)
  {
    forall id | id in EligibleIds(a, now) ensures id in EligibleIds(b, now) && a[id] == b[id] {
      SameRecord(a, b, now, days, id);
    }
    forall id | id in EligibleIds(b, now) ensures id in EligibleIds(a, now) { SameRecord(b, a, now, days, id); }
  }

  /** What was a choice stays one when rows it does not take are locked. */
  lemma ChoiceAmongUnlocked(box: Box, locked: set<string>, now: int, n: nat, taken: set<string>)
    requires Choice(box, now, n, taken) && locked !! taken
    ensures Choice(box - locked, now, n, taken)
  {
    assert EligibleIds(box - locked, now) <= EligibleIds(box, now);
  }

  /** With nothing locked, the list's claim is one of the database's possible answers. */
  lemma ListClaimIsAnAnswer(ds: J.Records, rows: P.Table, now: int, days: int, limit: int)
    returns (selected: seq<string>)
    requires WellKeptStores(ds, rows) && SameLive(J.Contents(ds), P.Docs(rows), now, days)
    ensures P.DueAnswer(rows, {}, now, Max(1, limit), selected) && Elements(selected) == ListTaken(ds, now, limit)
  {
    var taken := ListTaken(ds, now, limit);
    ListTakesAChoice(ds, now, limit);
    ChoicesSeeLiveOnly(J.Contents(ds), P.Docs(rows), now, days, Max(1, limit), taken);
    assert P.Docs(rows) - {} == P.Docs(rows);
    selected := ChoiceIsAnAnswer(rows, {}, now, Max(1, limit), taken);
  }

  /** Where a row the list takes is locked, or a tie straddles the cut, the database may claim otherwise. */
  lemma OtherwiseClaimed(ds: J.Records, rows: P.Table, locked: set<string>, now: int, days: int, limit: int)
    returns (selected: seq<string>)
    requires WellKeptStores(ds, rows) && SameLive(J.Contents(ds), P.Docs(rows), now, days)
    requires !(locked !! ListTaken(ds, now, limit)) || !NoTieAtCut(P.Docs(rows) - locked, now, Max(1, limit))
    ensures P.DueAnswer(rows, locked, now, Max(1, limit), selected) && Elements(selected) != ListTaken(ds, now, limit)
  {
    var taken, box, n := ListTaken(ds, now, limit), P.Docs(rows) - locked, Max(1, limit);
    var other: set<string>;
    if locked !! taken {
      ListTakesAChoice(ds, now, limit);
      ChoicesSeeLiveOnly(J.Contents(ds), P.Docs(rows), now, days, n, taken);
      ChoiceAmongUnlocked(P.Docs(rows), locked, now, n, taken);
      other := TieMeansChoice(box, now, n, taken);
    } else {
      other := SomeChoice(box, now, n);
      var id :| id in locked && id in taken;
      assert id !in EligibleIds(box, now);
    }
    selected := ChoiceIsAnAnswer(rows, locked, now, n, other);
  }

  /**
   Whatever rows are locked and whatever rows the database returns, the two stores claim the same
   deliveries, exactly when the list takes none that is locked and no tie straddles the cut.
   */
  lemma ClaimsAgreeExactly(ds: J.Records, rows: P.Table, locked: set<string>, now: int, days: int, limit: int)
    requires WellKeptStores(ds, rows) && SameLive(J.Contents(ds), P.Docs(rows), now, days)
    ensures locked !! ListTaken(ds, now, limit) && NoTieAtCut(P.Docs(rows) - locked, now, Max(1, limit)) <==>
      forall selected :: P.DueAnswer(rows, locked, now, Max(1, limit), selected) ==>
        Elements(selected) == ListTaken(ds, now, limit)
  {
    var taken, box, n := ListTaken(ds, now, limit), P.Docs(rows) - locked, Max(1, limit);
    if locked !! taken && NoTieAtCut(box, now, n) {
      ListTakesAChoice(ds, now, limit);
      ChoicesSeeLiveOnly(J.Contents(ds), P.Docs(rows), now, days, n, taken);
      ChoiceAmongUnlocked(P.Docs(rows), locked, now, n, taken);
      forall selected | P.DueAnswer(rows, locked, now, n, selected) ensures Elements(selected) == taken {
        AnswerIsAChoice(rows, locked, now, n, selected);
        ChoicesAgree(box, now, n, Elements(selected), taken);
      }
    } else {
      var selected := OtherwiseClaimed(ds, rows, locked, now, days, limit);
    }
  }

  /** Where no tie straddles the cut, everything taken comes strictly before everything left. */
  lemma TakenComeFirst(box: Box, now: int, n: nat, taken: set<string>, c: string, e: string)
    requires Choice(box, now, n, taken) && NoTieAtCut(box, now, n)
    requires c in taken && e in EligibleIds(box, now) && e !in taken
    ensures J.KeyLess(box[c], box[e])
  {
    if !J.KeyLess(box[c], box[e]) {
      SwapIsAChoice(box, now, n, taken, c, e);
      ChoicesAgree(box, now, n, taken, taken - {c} + {e});
    }
  }

  /** A choice among fewer deliveries takes none that comes strictly after one it leaves. */
  lemma OtherIsWithin(box: Box, rest: Box, now: int, n: nat, taken: set<string>, other: set<string>)
    requires Choice(box, now, n, taken) && NoTieAtCut(box, now, n) && Choice(rest, now, n, other)
    requires taken <= EligibleIds(rest, now) <= EligibleIds(box, now)
    requires forall x :: x in EligibleIds(rest, now) ==> rest[x] == box[x]
    ensures other <= taken
  {
    if taken <= other {
      SubsetSize(taken, other);
    } else {
      var c :| c in taken && c !in other;
      forall x | x in other ensures x in taken {
        if x !in taken { TakenComeFirst(box, now, n, taken, c, x); }
      }
    }
  }

  /** Where nothing ties, locking rows that are not taken makes no tie. */
  lemma NoTieAmongUnlocked(box: Box, locked: set<string>, now: int, n: nat, taken: set<string>)
    requires Choice(box, now, n, taken) && NoTieAtCut(box, now, n) && locked !! taken
    ensures NoTieAtCut(box - locked, now, n)
  {
    var rest := box - locked;
    ChoiceAmongUnlocked(box, locked, now, n, taken);
    forall other | Choice(rest, now, n, other) ensures other == taken {
      OtherIsWithin(box, rest, now, n, taken, other);
      SubsetSize(other, taken);
    }
    ChoiceIsUniqueExactly(rest, now, n, taken);
  }

  /**
   On keys alone: where nothing ties, the two stores claim the same deliveries, whatever the
   database returns, exactly when no locked delivery has fewer than the limit below it.
   */
  lemma ClaimsAgreeByKeys(ds: J.Records, rows: P.Table, locked: set<string>, now: int, days: int, limit: int)
    requires WellKeptStores(ds, rows) && SameLive(J.Contents(ds), P.Docs(rows), now, days)
    requires NoTieAtCut(P.Docs(rows), now, Max(1, limit))
    ensures (forall id :: id in locked && id in EligibleIds(P.Docs(rows), now) ==>
      |Below(P.Docs(rows), now, id)| >= Max(1, limit)) <==>
      forall selected :: P.DueAnswer(rows, locked, now, Max(1, limit), selected) ==>
        Elements(selected) == ListTaken(ds, now, limit)
  {
    var box, n, taken := P.Docs(rows), Max(1, limit), ListTaken(ds, now, limit);
    ListTakesAChoice(ds, now, limit);
    ChoicesSeeLiveOnly(J.Contents(ds), box, now, days, n, taken);
    forall id | id in EligibleIds(box, now) ensures id in taken <==> |Below(box, now, id)| < n {
      TakenAreBelow(box, now, n, taken, id);
    }
    assert locked !! taken <==> forall id :: id in locked && id in EligibleIds(box, now) ==> |Below(box, now, id)| >= n;
    if locked !! taken { NoTieAmongUnlocked(box, locked, now, n, taken); }
    ClaimsAgreeExactly(ds, rows, locked, now, days, limit);
  }

  // ------------------------------------------------------------------ reports

  /** Both stores hold the delivery, or neither; and an expired record comes out of the report the same. */
  predicate ReportsAlike(a: Box, b: Box, id: string, report: Report, now: int) {
    (id in a <==> id in b) && (id in a ==> Reported(a[id], report, now) == Reported(b[id], report, now))
  }

  lemma ReportedIsLive(d: Delivery, report: Report, now: int, days: int)
    ensures !Expired(Reported(d, report, now), now, days)
  {
  }

  lemma UpdatedLive(a: Box, id: string, report: Report, now: int, days: int)
    ensures id in a ==>
      LivePart(Update(a, id, report, now), now, days) == LivePart(a, now, days)[id := Reported(a[id], report, now)]
    ensures id !in a ==> Update(a, id, report, now) == a
  {
    if id in a { ReportedIsLive(a[id], report, now, days); }
  }

  /**
   A report keeps the stores in agreement exactly when both hold the record or neither does. They
   part when the record is delivered past retention and one of them has purged it already.
   */
  lemma ReportsAgreeExactly(a: Box, b: Box, id: string, report: Report, now: int, days: int)
    requires SameLive(a, b, now, days)
    ensures SameLive(Update(a, id, report, now), Update(b, id, report, now), now, days) <==>
      ReportsAlike(a, b, id, report, now)
  {
    UpdatedLive(a, id, report, now, days);
    UpdatedLive(b, id, report, now, days);
    if id in a && id !in b { OnlyOneHolds(a, b, id, now, days); }
    if id in b && id !in a { OnlyOneHolds(b, a, id, now, days); }
    if id in a && id in b {
      var x, y :=
        LivePart(a, now, days)[id := Reported(a[id], report, now)],
        LivePart(b, now, days)[id := Reported(b[id], report, now)];
      assert x[id] == Reported(a[id], report, now) && y[id] == Reported(b[id], report, now);
    }
  }

  lemma OnlyOneHolds(a: Box, b: Box, id: string, now: int, days: int)
    requires SameLive(a, b, now, days) && id in a && id !in b
    ensures id !in LivePart(a, now, days) && id !in LivePart(b, now, days)
  {
    assert id in LivePart(a, now, days) <==> id in LivePart(b, now, days);
  }

  // ------------------------------------------------------- a step on live records

  /** The step as it acts on live records: which expired ones it purges does not matter. */
  function Bare(s: Step): Step {
    if s.Enqueue? then s.(purged := {}) else s
  }

  function ClockAfter(now: int, s: Step): int {
    if s.Advance? then s.now else now
  }

  predicate TargetsLive(box: Box, now: int, s: Step, days: int) {
    s.Finish? || s.ReadAttempts? || s.WriteRetry? ==> s.job.id in box && !Expired(box[s.job.id], now, days)
  }

  lemma LiveEnqueue(box: Box, now: int, s: Step, days: int)
    requires BoxAllows(box, now, s) && s.Enqueue? && s.request.retentionDays == days
    requires (s.created ==> s.request.id !in box)
    ensures LivePart(BoxAfter(box, now, s), now, days) ==
      LivePart(BoxAfter(LivePart(box, now, days), now, Bare(s)), now, days)
  {
    assert Minus(LivePart(box, now, days), {}) == LivePart(box, now, days);
  }

  lemma LiveClaim(box: Box, now: int, s: Step, days: int)
    requires BoxAllows(box, now, s) && s.Claim?
    ensures LivePart(BoxAfter(box, now, s), now, days) ==
      LivePart(BoxAfter(LivePart(box, now, days), now, s), now, days)
  {
  }

  lemma LiveOther(box: Box, now: int, s: Step, days: int)
    requires BoxAllows(box, now, s) && TargetsLive(box, now, s, days) && !s.Enqueue? && !s.Claim?
    requires (s.Advance? ==> now <= s.now)
    ensures LivePart(BoxAfter(box, now, s), ClockAfter(now, s), days) ==
      LivePart(BoxAfter(LivePart(box, now, days), now, s), ClockAfter(now, s), days)
  {
  }

  /** What a step leaves alive depends on what was alive only. */
  lemma StepSeesLiveOnly(box: Box, now: int, s: Step, days: int)
    requires BoxAllows(box, now, s) && TargetsLive(box, now, s, days) && (s.Advance? ==> now <= s.now)
    requires s.Enqueue? ==> s.request.retentionDays == days && (s.created ==> s.request.id !in box)
    ensures LivePart(BoxAfter(box, now, s), ClockAfter(now, s), days) ==
      LivePart(BoxAfter(LivePart(box, now, days), now, Bare(s)), ClockAfter(now, s), days)
  {
    if s.Enqueue? {
      LiveEnqueue(box, now, s, days);
    } else if s.Claim? {
      LiveClaim(box, now, s, days);
    } else {
      LiveOther(box, now, s, days);
    }
  }

  /** Claiming the same deliveries writes the same documents and leaves the stores in agreement. */
  lemma ClaimsWriteAlike(ds: J.Records, rows: P.Table, now: int, days: int, limit: int, leaseSeconds: int)
    requires WellKeptStores(ds, rows) && SameLive(J.Contents(ds), P.Docs(rows), now, days)
    ensures var es := J.ClaimedList(ds, J.Taken(ds, now, limit), now, leaseSeconds);
      var after := P.ClaimedTable(rows, ListTaken(ds, now, limit), now, leaseSeconds);
      J.UniqueIds(es) && P.Consistent(after) && SameLive(J.Contents(es), P.Docs(after), now, days)
  {
    var taken := ListTaken(ds, now, limit);
    var s := Claim(limit, leaseSeconds, taken);
    ListContents(ds);
    R.ClaimFollows(ds, J.Contents(ds), now, limit, leaseSeconds);
    R.ContentsRepresented(J.ClaimedList(ds, J.Taken(ds, now, limit), now, leaseSeconds),
      BoxAfter(J.Contents(ds), now, s));
    ListTakesAChoice(ds, now, limit);
    ChoicesSeeLiveOnly(J.Contents(ds), P.Docs(rows), now, days, Max(1, limit), taken);
    P.ClaimedDocs(rows, taken, now, leaseSeconds);
    LiveClaim(J.Contents(ds), now, s, days);
    LiveClaim(P.Docs(rows), now, s, days);
  }

  // ----------------------------------------------------------------- enqueue

  /** The list checks for duplicates before it purges, the table after: the event matches expired records only. */
  ghost predicate PurgeOrderMatters(box: Box, e: Event, now: int, days: int) {
    HasIdentity(e) && Known(box, e) && !Known(LivePart(box, now, days), e)
  }

  function CreatedInTable(rows: P.Table, r: Request, now: int): bool {
    HasIdentity(r.event) && forall id :: id in P.AfterPurge(rows, Cutoff(now, r.retentionDays)) ==>
      !P.IsConflicting(rows[id], Text(r.event.eventId), P.KeyOf(r.event))
  }

  lemma ListCreates(ds: J.Records, r: Request)
    requires J.UniqueIds(ds)
    ensures J.Created(ds, r) <==> HasIdentity(r.event) && !Known(J.Contents(ds), r.event)
  {
    ListContents(ds);
    var m := J.FirstMatch(ds, r.event);
    if m < |ds| { assert J.Contents(ds)[ds[m].id] == ds[m]; }
    if id :| id in J.Contents(ds) && Matches(J.Contents(ds)[id], r.event) {
      assert ds[J.FindIndex(ds, id)] == J.Contents(ds)[id];
    }
  }

  lemma PurgedTableIsLive(rows: P.Table, now: int, days: int)
    requires P.Consistent(rows) && forall id :: id in rows ==> Coherent(rows[id].doc)
    ensures P.Docs(P.AfterPurge(rows, Cutoff(now, days))) == LivePart(P.Docs(rows), now, days)
  {
    P.PurgeFollows(rows, now, days);
  }

  lemma TableCreates(rows: P.Table, r: Request, now: int)
    requires P.Consistent(rows) && forall id :: id in rows ==> Coherent(rows[id].doc)
    ensures CreatedInTable(rows, r, now) <==>
      HasIdentity(r.event) && !Known(LivePart(P.Docs(rows), now, r.retentionDays), r.event)
  {
    var kept, live := P.AfterPurge(rows, Cutoff(now, r.retentionDays)), LivePart(P.Docs(rows), now, r.retentionDays);
    PurgedTableIsLive(rows, now, r.retentionDays);
    forall id | id in kept
      ensures id in live
      ensures (P.IsConflicting(rows[id], Text(r.event.eventId), P.KeyOf(r.event)) <==> Matches(live[id], r.event))
    {
      P.ConflictsAreMatches(rows[id].doc, r.event);
      assert id in P.Docs(kept);
    }
    assert forall id :: id in live ==> id in P.Docs(kept) && id in kept;
  }

  /** The created flags differ exactly when the event matches expired deliveries only. */
  lemma CreatedFlagsAgreeExactly(ds: J.Records, rows: P.Table, r: Request, now: int)
    requires WellKeptStores(ds, rows) && SameLive(J.Contents(ds), P.Docs(rows), now, r.retentionDays)
    ensures J.Created(ds, r) == CreatedInTable(rows, r, now) <==>
      !PurgeOrderMatters(J.Contents(ds), r.event, now, r.retentionDays)
  {
    var live := LivePart(J.Contents(ds), now, r.retentionDays);
    ListCreates(ds, r);
    TableCreates(rows, r, now);
    if id :| id in live && Matches(live[id], r.event) { assert id in J.Contents(ds); }
  }

  /** What each store holds after an enqueue, as a step of the protocol. */
  lemma ListEnqueues(ds: J.Records, r: Request, now: int)
    requires J.UniqueIds(ds) && r.id !in J.Contents(ds)
    ensures var created := J.Created(ds, r);
      var s := Enqueue(r, if created then R.ExpiredIds(ds, now, r.retentionDays) else {}, created);
      BoxAllows(J.Contents(ds), now, s) && J.Contents(J.Enqueued(ds, r, now)) == BoxAfter(J.Contents(ds), now, s)
  {
    var created := J.Created(ds, r);
    var s := Enqueue(r, if created then R.ExpiredIds(ds, now, r.retentionDays) else {}, created);
    ListContents(ds);
    R.EnqueueFollows(ds, J.Contents(ds), now, r);
    R.ContentsRepresented(J.Enqueued(ds, r, now), BoxAfter(J.Contents(ds), now, s));
  }

  lemma TableEnqueues(rows: P.Table, r: Request, now: int)
    requires P.Consistent(rows) && r.id !in rows && forall id :: id in rows ==> Coherent(rows[id].doc)
    ensures var purged := if HasIdentity(r.event) then P.PurgedIds(rows, Cutoff(now, r.retentionDays)) else {};
      var s := Enqueue(r, purged, CreatedInTable(rows, r, now));
      BoxAllows(P.Docs(rows), now, s) && P.Docs(P.EnqueuedTable(rows, r, now)) == BoxAfter(P.Docs(rows), now, s)
  {
    var purged := if HasIdentity(r.event) then P.PurgedIds(rows, Cutoff(now, r.retentionDays)) else {};
    var s := Enqueue(r, purged, CreatedInTable(rows, r, now));
    assert P.Answers(rows, now, s);
    P.EnqueueFollows(rows, now, s);
    P.EnqueuedDocs(rows, now, s);
  }

  /** From the same live contents both stores end with the same live contents, except in that one case. */
  lemma EnqueuesAgreeExactly(ds: J.Records, rows: P.Table, r: Request, now: int)
    requires WellKeptStores(ds, rows) && SameLive(J.Contents(ds), P.Docs(rows), now, r.retentionDays)
    requires r.id !in J.Contents(ds) && r.id !in rows
    ensures
      SameLive(J.Contents(J.Enqueued(ds, r, now)), P.Docs(P.EnqueuedTable(rows, r, now)), now, r.retentionDays) <==>
      !PurgeOrderMatters(J.Contents(ds), r.event, now, r.retentionDays)
  {
    var a, b, days := J.Contents(ds), P.Docs(rows), r.retentionDays;
    var s := Enqueue(r, if J.Created(ds, r) then R.ExpiredIds(ds, now, days) else {}, J.Created(ds, r));
    var purged := if HasIdentity(r.event) then P.PurgedIds(rows, Cutoff(now, days)) else {};
    var t := Enqueue(r, purged, CreatedInTable(rows, r, now));
    CreatedFlagsAgreeExactly(ds, rows, r, now);
    ListEnqueues(ds, r, now);
    TableEnqueues(rows, r, now);
    LiveEnqueue(a, now, s, days);
    LiveEnqueue(b, now, t, days);
    if s.created != t.created { CreatedDiffer(LivePart(a, now, days), r, now); }
  }

  /** A created event is alive at once. */
  lemma CreatedDiffer(live: Box, r: Request, now: int)
    requires r.id !in live
    ensures LivePart(BoxAfter(live, now, Enqueue(r, {}, true)), now, r.retentionDays) !=
      LivePart(BoxAfter(live, now, Enqueue(r, {}, false)), now, r.retentionDays)
  {
    assert r.id in LivePart(BoxAfter(live, now, Enqueue(r, {}, true)), now, r.retentionDays);
  }

  /** A live match of the list stands in the purged table. */
  lemma LiveMatchIsKept(ds: J.Records, rows: P.Table, r: Request, now: int, i: nat)
    requires WellKeptStores(ds, rows) && SameLive(J.Contents(ds), P.Docs(rows), now, r.retentionDays)
    requires i < |ds| && Matches(ds[i], r.event) && !Expired(ds[i], now, r.retentionDays)
    ensures var kept := P.AfterPurge(rows, Cutoff(now, r.retentionDays));
      ds[i].id in kept && kept[ds[i].id].doc == ds[i] &&
        P.IsConflicting(kept[ds[i].id], Text(r.event.eventId), P.KeyOf(r.event))
  {
    var kept := P.AfterPurge(rows, Cutoff(now, r.retentionDays));
    ListContents(ds);
    PurgedTableIsLive(rows, now, r.retentionDays);
    SameRecord(J.Contents(ds), P.Docs(rows), now, r.retentionDays, ds[i].id);
    assert ds[i].id in P.Docs(kept);
    P.ConflictsAreMatches(ds[i], r.event);
  }

  /** What the lookup finds is one of the list's matching records. */
  lemma LookupFindsMatch(ds: J.Records, rows: P.Table, r: Request, now: int, id: string)
    requires WellKeptStores(ds, rows) && SameLive(J.Contents(ds), P.Docs(rows), now, r.retentionDays)
    requires P.LookupAnswer(P.AfterPurge(rows, Cutoff(now, r.retentionDays)), r.event, Some(id))
    ensures var k := J.FindIndex(ds, id); k < |ds| && ds[k].id == id && Matches(ds[k], r.event)
  {
    ListContents(ds);
    PurgedTableIsLive(rows, now, r.retentionDays);
    P.ConflictsAreMatches(rows[id].doc, r.event);
    assert id in P.Docs(P.AfterPurge(rows, Cutoff(now, r.retentionDays)));
    SameRecord(P.Docs(rows), J.Contents(ds), now, r.retentionDays, id);
  }

  /** A duplicate of exactly one record, a live one, is answered with that record by both stores. */
  lemma SameDuplicate(ds: J.Records, rows: P.Table, r: Request, now: int, found: Option<string>, i: nat)
    requires WellKeptStores(ds, rows) && SameLive(J.Contents(ds), P.Docs(rows), now, r.retentionDays)
    requires HasIdentity(r.event)
    requires i < |ds| && forall k :: 0 <= k < |ds| ==> (Matches(ds[k], r.event) <==> k == i)
    requires !Expired(ds[i], now, r.retentionDays)
    requires P.LookupAnswer(P.AfterPurge(rows, Cutoff(now, r.retentionDays)), r.event, found)
    ensures J.FirstMatch(ds, r.event) == i && !J.Created(ds, r) && !CreatedInTable(rows, r, now)
    ensures found == Some(ds[i].id) && found.value in rows && rows[found.value].doc == ds[i]
  {
    LiveMatchIsKept(ds, rows, r, now, i);
    if found.Some? { LookupFindsMatch(ds, rows, r, now, found.value); }
  }
}
