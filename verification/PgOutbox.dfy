/**
 The Postgres outbox: one row per delivery, the columns the queries look at beside the JSON
 document. SQL comparisons with NULL are unknown and a WHERE clause keeps true rows only.
 What the database chooses (which rows a LIMIT returns, which rows are locked) is a parameter,
 bound by the contract of the query.
 */
module PgOutbox {
  import opened Common
  import opened Deliveries
  import opened Protocol
  import ScopeKey

  datatype Row = Row(
    eventId: string,
    scopeKey: Option<string>,
    connectionId: string,
    status: Status,
    nextAttemptAt: Option<int>,
    leaseExpiresAt: Option<int>,
    deliveredAt: Option<int>,
    createdAt: int,
    doc: Delivery)

  type Table = map<string, Row>

  function KeyOf(e: Event): Option<string> {
    if Scope(e).Some? then Some(ScopeKey.Key(Scope(e).value)) else None
  }

  /** `_row`: the columns computed from a document. */
  function Project(d: Delivery): Row {
    Row(d.eventId, KeyOf(d.event), d.connectionId, d.status, d.nextAttemptAt, d.leaseExpiresAt, d.deliveredAt,
      d.createdAt, d)
  }

  /** `_save`: the columns an UPDATE rewrites; identity, scope and creation time are left alone. */
  function Saved(row: Row, d: Delivery): Row {
    row.(status := d.status, nextAttemptAt := d.nextAttemptAt, leaseExpiresAt := d.leaseExpiresAt,
         deliveredAt := d.deliveredAt, doc := d)
  }

  // ---------------------------------------------------------------- SQL truth

  datatype Truth = True | False | Unknown

  function Of(b: bool): Truth {
    if b then True else False
  }

  function And(a: Truth, b: Truth): Truth {
    if a == False || b == False then False else if a == True && b == True then True else Unknown
  }

  function Or(a: Truth, b: Truth): Truth {
    if a == True || b == True then True else if a == False && b == False then False else Unknown
  }

  function AtMost(a: Option<int>, b: int): Truth {
    if a.None? then Unknown else Of(a.value <= b)
  }

  function Below(a: Option<int>, b: int): Truth {
    if a.None? then Unknown else Of(a.value < b)
  }

  function Equal(a: Option<string>, b: Option<string>): Truth {
    if a.None? || b.None? then Unknown else Of(a.value == b.value)
  }

  predicate IsDue(row: Row, now: int) {
    Or(And(Of(row.status == Pending || row.status == Retry), AtMost(row.nextAttemptAt, now)),
       And(Of(row.status == Delivering), AtMost(row.leaseExpiresAt, now))) == True
  }

  predicate IsPurged(row: Row, cutoff: int) {
    And(Of(row.status == Delivered), Below(row.deliveredAt, cutoff)) == True
  }

  predicate IsConflicting(row: Row, eventId: string, key: Option<string>) {
    Or(Of(row.eventId == eventId), And(Of(row.scopeKey.Some?), Equal(row.scopeKey, key))) == True
  }

  /** ORDER BY next_attempt_at NULLS FIRST, created_at. */
  predicate SortsBefore(a: Row, b: Row) {
    || (a.nextAttemptAt.None? && b.nextAttemptAt.Some?)
    || (a.nextAttemptAt.Some? && b.nextAttemptAt.Some? && a.nextAttemptAt.value < b.nextAttemptAt.value)
    || (a.nextAttemptAt == b.nextAttemptAt && a.createdAt < b.createdAt)
  }

  // ----------------------------------------------------------- query contracts

  /** SELECT ... WHERE due ORDER BY ... LIMIT n FOR UPDATE SKIP LOCKED. */
  ghost predicate DueAnswer(rows: Table, locked: set<string>, now: int, n: nat, selected: seq<string>) {
    && NoRepeats(selected)
    && |selected| <= n
    && (forall id :: id in selected ==> id in rows && id !in locked && IsDue(rows[id], now))
    && (forall a, b :: 0 <= a < b < |selected| ==> !SortsBefore(rows[selected[b]], rows[selected[a]]))
    && (forall id :: id in rows && id !in locked && IsDue(rows[id], now) && id !in selected ==>
          |selected| == n && forall x :: x in selected ==> !SortsBefore(rows[id], rows[x]))
  }

  /** SELECT doc WHERE event_id=... OR scope_key=... LIMIT 1. */
  ghost predicate LookupAnswer(rows: Table, e: Event, found: Option<string>) {
    if found.Some?
    then found.value in rows && IsConflicting(rows[found.value], Text(e.eventId), KeyOf(e))
    else forall id :: id in rows ==> !IsConflicting(rows[id], Text(e.eventId), KeyOf(e))
  }

  // -------------------------------------------------------------- operations

  function PurgedIds(rows: Table, cutoff: int): set<string> {
    set id | id in rows && IsPurged(rows[id], cutoff)
  }

  function AfterPurge(rows: Table, cutoff: int): Table {
    rows - PurgedIds(rows, cutoff)
  }

  /** Some unique constraint (id, event_id, scope_key) stands in the way of the insert. */
  ghost predicate Blocked(rows: Table, d: Delivery) {
    d.id in rows || exists id :: id in rows && IsConflicting(rows[id], d.eventId, KeyOf(d.event))
  }

  ghost function EnqueuedTable(rows: Table, r: Request, now: int): Table {
    if !HasIdentity(r.event) then rows
    else
      var kept := AfterPurge(rows, Cutoff(now, r.retentionDays));
      var d := NewDelivery(r, now);
      if Blocked(kept, d) then kept else kept[r.id := Project(d)]
  }

  function Write(rows: Table, d: Delivery): Table {
    if d.id in rows then rows[d.id := Saved(rows[d.id], d)] else rows
  }

  function UpdatedTable(rows: Table, id: string, report: Report, now: int): Table {
    if id in rows then Write(rows, Reported(rows[id].doc, report, now)) else rows
  }

  function ReplayedTable(rows: Table, id: string, binding: Binding, now: int): Table {
    if id in rows && BoundTo(rows[id].doc.event, binding) then Write(rows, Replayed(rows[id].doc, now)) else rows
  }

  function ClaimedTable(rows: Table, taken: set<string>, now: int, leaseSeconds: int): Table {
    map id | id in rows :: if id in taken then Saved(rows[id], Claimed(rows[id].doc, now, leaseSeconds)) else rows[id]
  }

  /** Columns and document agree, and rows are filed under their document's id. */
  ghost predicate Consistent(rows: Table) {
    forall id :: id in rows ==> rows[id] == Project(rows[id].doc) && rows[id].doc.id == id
  }

  lemma ClaimOneMore(rows: Table, selected: seq<string>, k: nat, now: int, leaseSeconds: int)
    requires Consistent(rows) && NoRepeats(selected) && k < |selected| && selected[k] in rows
    ensures var id, part := selected[k], ClaimedTable(rows, Elements(selected[..k]), now, leaseSeconds);
      && part[id] == rows[id]
      && id !in selected[..k]
      && ClaimedTable(rows, Elements(selected[..k + 1]), now, leaseSeconds) ==
          Write(part, Claimed(rows[id].doc, now, leaseSeconds))
  {
  }

  datatype EnqueueError = MissingIdentity | ConflictUnresolved

  class PostgresCoreInboundDeliveryStore {
    var rows: Table

    constructor ()
      ensures rows == map[]
    {
      rows := map[];
    }

    method Insert(d: Delivery) returns (inserted: bool)
      modifies this
      ensures inserted == !Blocked(old(rows), d)
      ensures rows == if inserted then old(rows)[d.id := Project(d)] else old(rows)
    {
      if d.id in rows {
        return false;
      }
      var keys := rows.Keys;
      while keys != {}
        invariant keys <= rows.Keys && rows == old(rows)
        invariant forall id :: id in rows && id !in keys ==> !IsConflicting(rows[id], d.eventId, KeyOf(d.event))
        decreases keys
      {
        var id :| id in keys;
        if IsConflicting(rows[id], d.eventId, KeyOf(d.event)) {
          return false;
        }
        keys := keys - {id};
      }
      rows := rows[d.id := Project(d)];
      return true;
    }

    method Enqueue(r: Request, now: int, found: Option<string>) returns (answer: Result<(Delivery, bool), EnqueueError>)
      requires LookupAnswer(AfterPurge(rows, Cutoff(now, r.retentionDays)), r.event, found)
      modifies this
      ensures rows == EnqueuedTable(old(rows), r, now)
      ensures !HasIdentity(r.event) <==> answer == Err(MissingIdentity)
      ensures var kept := AfterPurge(old(rows), Cutoff(now, r.retentionDays));
        HasIdentity(r.event) ==>
          if !Blocked(kept, NewDelivery(r, now)) then answer == Ok((NewDelivery(r, now), true))
          else if found.Some? then answer == Ok((kept[found.value].doc, false))
          else answer == Err(ConflictUnresolved)
    {
      if !HasIdentity(r.event) {
        return Err(MissingIdentity);
      }
      var delivery := NewDelivery(r, now);
      rows := AfterPurge(rows, Cutoff(now, r.retentionDays));
      var inserted := Insert(delivery);
      if inserted {
        return Ok((delivery, true));
      }
      if found.None? {
        return Err(ConflictUnresolved);
      }
      return Ok((rows[found.value].doc, false));
    }

    method ClaimDue(limit: int, leaseSeconds: int, now: int, ghost locked: set<string>, selected: seq<string>)
      returns (claimed: seq<Delivery>)
      requires Consistent(rows) && DueAnswer(rows, locked, now, Max(1, limit), selected)
      modifies this
      ensures rows == ClaimedTable(old(rows), Elements(selected), now, leaseSeconds)
      ensures |claimed| == |selected|
      ensures forall k :: 0 <= k < |claimed| ==> claimed[k] == rows[selected[k]].doc
    {
      claimed := [];
      for k := 0 to |selected|
        invariant |claimed| == k
        invariant rows == ClaimedTable(old(rows), Elements(selected[..k]), now, leaseSeconds)
        invariant forall a :: 0 <= a < k ==> claimed[a] == rows[selected[a]].doc
      {
        var id := selected[k];
        ClaimOneMore(old(rows), selected, k, now, leaseSeconds);
        var item := Claimed(rows[id].doc, now, leaseSeconds);
        rows := Write(rows, item);
        claimed := claimed + [item];
      }
      assert selected[..|selected|] == selected;
    }

    method Update(id: string, report: Report, now: int) returns (answer: Result<Delivery, LookupError>)
      modifies this
      ensures rows == UpdatedTable(old(rows), id, report, now)
      ensures answer == if id in old(rows) then Ok(Reported(old(rows)[id].doc, report, now)) else Err(KeyError)
    {
      if id !in rows {
        return Err(KeyError);
      }
      var item := Reported(rows[id].doc, report, now);
      rows := Write(rows, item);
      return Ok(item);
    }

    method ReplayGroup(id: string, binding: Binding, now: int) returns (answer: Result<Delivery, LookupError>)
      requires Consistent(rows)
      modifies this
      ensures rows == ReplayedTable(old(rows), id, binding, now)
      ensures answer == if id in old(rows) && BoundTo(old(rows)[id].doc.event, binding)
                        then Ok(Replayed(old(rows)[id].doc, now)) else Err(BindingMismatch)
    {
      if id !in rows || !BoundTo(rows[id].doc.event, binding) {
        return Err(BindingMismatch);
      }
      var item := Replayed(rows[id].doc, now);
      if Replayable(rows[id].doc) {
        rows := Write(rows, item);
      }
      return Ok(item);
    }
  }

  // ------------------------------------------------------ following the protocol

  function Docs(rows: Table): Box {
    map id | id in rows :: rows[id].doc
  }

  lemma SavingKeepsRow(d: Delivery, e: Delivery)
    requires SameOrigin(d, e)
    ensures Saved(Project(d), e) == Project(e)
  {
  }

  /** What the table answers to each step; new ids are fresh UUIDs. */
  ghost predicate Answers(rows: Table, now: int, s: Step) {
    match s
    case Enqueue(r, purged, created) =>
      && r.id !in rows
      && purged == (if HasIdentity(r.event) then PurgedIds(rows, Cutoff(now, r.retentionDays)) else {})
      && created == (HasIdentity(r.event) && !Blocked(rows - purged, NewDelivery(r, now)))
    case Claim(limit, _, taken) =>
      exists locked, selected :: DueAnswer(rows, locked, now, Max(1, limit), selected) && taken == Elements(selected)
    case ReadAttempts(job, attempts) =>
      attempts == if job.id in rows then Some(rows[job.id].doc.attemptCount) else None
    case _ => true
  }

  ghost function TableAfter(rows: Table, now: int, s: Step): Table {
    match s
    case Enqueue(r, _, _) => EnqueuedTable(rows, r, now)
    case Claim(_, leaseSeconds, taken) => ClaimedTable(rows, taken, now, leaseSeconds)
    case Finish(job, report) => UpdatedTable(rows, job.id, report, now)
    case WriteRetry(job, error, maxAttempts, backoff) =>
      if job.read.Some? then UpdatedTable(rows, job.id, RetryReport(job.read.value, error, maxAttempts, backoff), now)
      else rows
    case ReplayOne(id, binding) => ReplayedTable(rows, id, binding, now)
    case _ => rows
  }

  /** On coherent records, SQL's null comparisons and the list store's zero defaults agree. */
  lemma NullsAgree(d: Delivery, now: int, retentionDays: int)
    requires Coherent(d)
    ensures IsDue(Project(d), now) <==> Eligible(d, now)
    ensures IsPurged(Project(d), Cutoff(now, retentionDays)) <==> Expired(d, now, retentionDays)
  {
  }

  /** The unique columns compare logical identity. */
  lemma ConflictsAreMatches(d: Delivery, e: Event)
    ensures IsConflicting(Project(d), Text(e.eventId), KeyOf(e)) <==> Matches(d, e)
  {
    if Scope(d.event).Some? && Scope(e).Some? {
      ScopeKey.KeyEquality(Scope(d.event).value, Scope(e).value);
    }
  }

  lemma PurgeFollows(rows: Table, now: int, retentionDays: int)
    requires Consistent(rows) && forall id :: id in rows ==> Coherent(rows[id].doc)
    ensures forall id :: id in rows ==>
      (id in PurgedIds(rows, Cutoff(now, retentionDays)) <==> Expired(Docs(rows)[id], now, retentionDays))
  {
  }

  lemma BlockedIsKnown(rows: Table, d: Delivery, e: Event)
    requires Consistent(rows) && d.id !in rows && d.event == e && d.eventId == Text(e.eventId)
    ensures Blocked(rows, d) <==> Known(Docs(rows), e)
  {
    forall id | id in rows
      ensures IsConflicting(rows[id], d.eventId, KeyOf(e)) <==> Matches(Docs(rows)[id], e)
    {
      ConflictsAreMatches(rows[id].doc, e);
    }
    if id :| id in rows && IsConflicting(rows[id], d.eventId, KeyOf(e)) { assert id in Docs(rows); }
    if id :| id in Docs(rows) && Matches(Docs(rows)[id], e) { assert id in rows; }
  }

  lemma EnqueueFollows(rows: Table, now: int, s: Step)
    requires Consistent(rows) && Answers(rows, now, s) && s.Enqueue?
    requires forall id :: id in rows ==> Coherent(rows[id].doc)
    ensures BoxAllows(Docs(rows), now, s)
    ensures s.created <==> HasIdentity(s.request.event) && !Known(Minus(Docs(rows), s.purged), s.request.event)
  {
    var r, kept := s.request, rows - s.purged;
    assert Docs(kept) == Minus(Docs(rows), s.purged);
    if HasIdentity(r.event) {
      PurgeFollows(rows, now, r.retentionDays);
      BlockedIsKnown(kept, NewDelivery(r, now), r.event);
    }
  }

  lemma InsertedDocs(rows: Table, d: Delivery)
    requires Consistent(rows)
    ensures Docs(rows[d.id := Project(d)]) == Docs(rows)[d.id := d]
    ensures Consistent(rows[d.id := Project(d)])
  {
  }

  lemma KeptDocs(rows: Table, gone: set<string>)
    requires Consistent(rows)
    ensures Docs(rows - gone) == Minus(Docs(rows), gone) && Consistent(rows - gone)
  {
  }

  lemma EnqueuedDocs(rows: Table, now: int, s: Step)
    requires Consistent(rows) && Answers(rows, now, s) && s.Enqueue?
    ensures Docs(EnqueuedTable(rows, s.request, now)) == BoxAfter(Docs(rows), now, s)
    ensures Consistent(EnqueuedTable(rows, s.request, now))
  {
    KeptDocs(rows, s.purged);
    if HasIdentity(s.request.event) {
      InsertedDocs(rows - s.purged, NewDelivery(s.request, now));
    } else {
      assert rows - {} == rows;
    }
  }

  lemma ClaimedDocs(rows: Table, taken: set<string>, now: int, leaseSeconds: int)
    requires Consistent(rows)
    ensures Docs(ClaimedTable(rows, taken, now, leaseSeconds)) == ClaimAll(Docs(rows), taken, now, leaseSeconds)
    ensures Consistent(ClaimedTable(rows, taken, now, leaseSeconds))
  {
  }

  lemma ClaimAllowed(rows: Table, now: int, limit: int, leaseSeconds: int, locked: set<string>, selected: seq<string>)
    requires Consistent(rows) && forall id :: id in rows ==> Coherent(rows[id].doc)
    requires DueAnswer(rows, locked, now, Max(1, limit), selected)
    ensures BoxAllows(Docs(rows), now, Claim(limit, leaseSeconds, Elements(selected)))
  {
    ElementCount(selected);
    forall id | id in selected ensures Eligible(rows[id].doc, now) { NullsAgree(rows[id].doc, now, 0); }
  }

  lemma WriteFollows(rows: Table, d: Delivery)
    requires Consistent(rows) && d.id in rows && SameOrigin(rows[d.id].doc, d)
    ensures Docs(Write(rows, d)) == Docs(rows)[d.id := d] && Consistent(Write(rows, d))
  {
    SavingKeepsRow(rows[d.id].doc, d);
  }

  lemma UpdateFollows(rows: Table, id: string, report: Report, now: int)
    requires Consistent(rows)
    ensures Docs(UpdatedTable(rows, id, report, now)) == Update(Docs(rows), id, report, now)
    ensures Consistent(UpdatedTable(rows, id, report, now))
  {
    if id in rows { WriteFollows(rows, Reported(rows[id].doc, report, now)); }
  }

  /** Every transaction is a step the protocol allows, and keeps columns equal to documents. */
  lemma OperationFollows(rows: Table, now: int, s: Step)
    requires Consistent(rows) && Answers(rows, now, s) && forall id :: id in rows ==> Coherent(rows[id].doc)
    ensures BoxAllows(Docs(rows), now, s)
    ensures Docs(TableAfter(rows, now, s)) == BoxAfter(Docs(rows), now, s)
    ensures Consistent(TableAfter(rows, now, s))
  {
    match s
    case Enqueue(_, _, _) =>
      EnqueueFollows(rows, now, s);
      EnqueuedDocs(rows, now, s);
    case Claim(limit, leaseSeconds, taken) =>
      var locked, selected :| DueAnswer(rows, locked, now, Max(1, limit), selected) && taken == Elements(selected);
      ClaimAllowed(rows, now, limit, leaseSeconds, locked, selected);
      ClaimedDocs(rows, taken, now, leaseSeconds);
    case Finish(job, report) => UpdateFollows(rows, job.id, report, now);
    case WriteRetry(job, error, m, b) =>
      if job.read.Some? { UpdateFollows(rows, job.id, RetryReport(job.read.value, error, m, b), now); }
    case ReplayOne(id, binding) =>
      if id in rows && BoundTo(rows[id].doc.event, binding) { WriteFollows(rows, Replayed(rows[id].doc, now)); }
    case _ =>
  }

  // ---------------------------------------------------------------- all runs

  type TableWorld = World<Table>

  ghost predicate TableNext(w: TableWorld, s: Step, w': TableWorld) {
    Enabled(w, s) && Answers(w.store, w.clock, s) && w' == After(w, s, TableAfter(w.store, w.clock, s))
  }

  ghost predicate TableRun(ws: seq<TableWorld>, ss: seq<Step>) {
    && |ws| == |ss| + 1
    && ws[0].clock > 0 && ws[0].store == map[] && ws[0].jobs == {} && ws[0].used == {}
    && forall i {:trigger ss[i]} :: 0 <= i < |ss| ==> TableNext(ws[i], ss[i], ws[i + 1])
  }

  ghost function Abs(w: TableWorld): World<Box> {
    World(w.clock, Docs(w.store), w.jobs, w.claims, w.used)
  }

  ghost function AbsAll(ws: seq<TableWorld>): seq<World<Box>> {
    seq(|ws|, i requires 0 <= i < |ws| => Abs(ws[i]))
  }

  lemma AbsAfter(w: TableWorld, s: Step, rows: Table)
    ensures Abs(After(w, s, rows)) == After(Abs(w), s, Docs(rows))
    ensures Enabled(w, s) <==> Enabled(Abs(w), s)
  {
  }

  lemma StepFollows(w: TableWorld, s: Step, w': TableWorld)
    requires TableNext(w, s, w') && Consistent(w.store) && Inv(Abs(w))
    ensures Next(Abs(w), s, Abs(w')) && Consistent(w'.store)
  {
    var rows := TableAfter(w.store, w.clock, s);
    assert forall id :: id in w.store ==> WellKept(Docs(w.store)[id], id, w.clock);
    OperationFollows(w.store, w.clock, s);
    AbsAfter(w, s, rows);
    assert w'.store == rows;
  }

  lemma {:induction false} TableStaysSound(ws: seq<TableWorld>, ss: seq<Step>, i: nat)
    requires TableRun(ws, ss) && i < |ws|
    ensures Consistent(ws[i].store) && Inv(Abs(ws[i]))
  {
    if i == 0 {
      assert Docs(map[]) == map[];
    } else {
      TableStaysSound(ws, ss, i - 1);
      StepFollows(ws[i - 1], ss[i - 1], ws[i]);
      StepKeepsInv(Abs(ws[i - 1]), ss[i - 1], Abs(ws[i]));
    }
  }

  /** Every run of the table store is a run of the protocol, with columns equal to documents throughout. */
  lemma TableRunsFollow(ws: seq<TableWorld>, ss: seq<Step>)
    requires TableRun(ws, ss)
    ensures Run(AbsAll(ws), ss)
    ensures forall i :: 0 <= i < |ws| ==> Consistent(ws[i].store)
  {
    assert Docs(map[]) == map[];
    forall i | 0 <= i < |ws| ensures Consistent(ws[i].store) { TableStaysSound(ws, ss, i); }
    forall i {:trigger ss[i]} | 0 <= i < |ss| ensures Next(AbsAll(ws)[i], ss[i], AbsAll(ws)[i + 1]) {
      TableStaysSound(ws, ss, i);
      StepFollows(ws[i], ss[i], ws[i + 1]);
    }
  }
}
