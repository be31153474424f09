/**
 The registry under interleaving. A step is one atomic method; a cleanup attempt is two, around
 the wait for the connection manager, unless it is abandoned during the wait, and an Evolution
 provisioning three, around its awaits, each carrying the record it read before. No caller of
 update_connection_record changes a connection's runtime name or client.
 */
module SetupProtocol {
  import opened Common
  import opened Registry
  import opened ConnectionSetups
  import opened SetupCleanup
  import opened SetupRuns

  /** `cleaning` holds the record each cleanup attempt under way started from. */
  datatype World = World(store: Store, cleaning: map<string, Setup>, calls: map<nat, Call>)

  datatype Step =
    | Act(id: string, cmd: Command, now: int)
    | Open(order: seq<string>, request: CreateRequest, now: int)
    | ExpireAll(order: seq<string>, now: int)
    | StartCleanup(id: string, now: int)
    | EndCleanup(id: string, answers: nat -> Deletion, now: int)
    | AbandonCleanup(id: string)
    | StartProvision(call: nat, id: string, now: int)
    | ResumeCreated(call: nat, ok: bool, now: int)
    | ResumeHooked(call: nat, ok: bool, connectionId: string, now: int)
    | PutClient(client: Client)
    | PutConnection(connection: Connection)
    | EditConnection(order: seq<string>, id: string, changes: ConnectionPatch)
    | RemoveConnection(order: seq<string>, id: string)
    | RemoveClient(id: string)
    | ImportLegacy(records: seq<Legacy>, fallback: Client)

  ghost predicate Enabled(w: World, s: Step) {
    match s
    case Open(order, r, _) => Elements(order) == w.store.setups.Keys && r.id !in w.store.setups
    case StartCleanup(id, _) => id !in w.cleaning
    case EndCleanup(id, _, _) => id in w.cleaning
    case EditConnection(_, _, changes) => changes.legacyName.None? && changes.clientId.None?
    case StartProvision(call, _, _) => call !in w.calls
    case ResumeCreated(call, _, _) => call in w.calls && w.calls[call].Creating?
    case ResumeHooked(call, _, _, _) => call in w.calls && w.calls[call].Hooking?
    case _ => true
  }

  function After(w: World, s: Step): World {
    match s
    case Act(id, cmd, now) => w.(store := Perform(w.store, id, cmd, now).0)
    case Open(order, r, now) => w.(store := CreateSetup(w.store, order, r, now).0)
    case ExpireAll(order, now) => w.(store := Sweep(w.store, order, |order|, now))
    case StartCleanup(id, now) =>
      var (st, looked) := Perform(w.store, id, Raw, now);
      w.(store := st,
         cleaning := if looked.Ok? && NeedsCleanup(looked.value) then w.cleaning[id := looked.value] else w.cleaning)
    case EndCleanup(id, answers, now) =>
      if id !in w.cleaning then w
      else
        w.(store := UpdateSetup(w.store, id, CleanupPatch(w.cleaning[id], answers, now)), cleaning := w.cleaning - {id})
    case AbandonCleanup(id) => w.(cleaning := w.cleaning - {id})
    case StartProvision(call, id, now) =>
      var (st, answer) := Perform(w.store, id, BeginEvolution, now);
      var started := answer.Ok? && answer.value.state == Provisioning;
      w.(store := st, calls := if started then w.calls[call := Creating(answer.value)] else w.calls)
    case ResumeCreated(call, ok, now) =>
      if call !in w.calls then w
      else
        var (st, answer) := Created(w.store, w.calls[call].local, ok, now);
        w.(store := st, calls := if ok && answer.Ok? then w.calls[call := Hooking(answer.value)] else w.calls - {call})
    case ResumeHooked(call, ok, connectionId, now) =>
      if call !in w.calls then w
      else w.(store := Hooked(w.store, w.calls[call].local, ok, connectionId, now).0, calls := w.calls - {call})
    case PutClient(client) => w.(store := StoreClient(w.store, client))
    case PutConnection(c) => w.(store := SaveConnection(w.store, c.legacyName, c))
    case EditConnection(order, id, changes) => w.(store := UpdateConnection(w.store, order, id, changes))
    case RemoveConnection(order, id) => w.(store := DeleteConnection(w.store, order, id))
    case RemoveClient(id) => w.(store := DeleteClient(w.store, id))
    case ImportLegacy(records, fallback) => w.(store := Import(w.store, records, fallback))
  }

  ghost predicate Run(ws: seq<World>, ss: seq<Step>) {
    && |ws| == |ss| + 1
    && ws[0] == World(Store(map[], map[], map[], map[], []), map[], map[])
    && forall i {:trigger ss[i]} :: 0 <= i < |ss| ==> Enabled(ws[i], ss[i]) && ws[i + 1] == After(ws[i], ss[i])
  }

  // ----------------------------------------------------- copies across waits

  /** A cleanup attempt holds a copy of its setup; Meta's is one nothing else can move. */
  ghost predicate GoodSnapshot(st: Store, id: string, s: Setup) {
    && id in st.setups && SameSetup(s, st.setups[id]) && s.id == id && Tidy(s) && NeedsCleanup(s)
    && (s.provider == "meta" ==> st.setups[id].state == CleanupPending)
  }

  ghost predicate GoodCall(st: Store, s: Setup) {
    s.id in st.setups && SameSetup(s, st.setups[s.id]) && s.provider == "evolution"
  }

  ghost predicate Sound(w: World) {
    && Inv(w.store)
    && (forall id :: id in w.cleaning ==> GoodSnapshot(w.store, id, w.cleaning[id]))
    && (forall call :: call in w.calls ==> GoodCall(w.store, w.calls[call].local))
  }

  lemma CopiesSurvive(w: World, st: Store)
    requires Sound(w) && Evolves(w.store, st)
    ensures forall id :: id in w.cleaning ==> GoodSnapshot(st, id, w.cleaning[id])
    ensures forall call :: call in w.calls ==> GoodCall(st, w.calls[call].local)
  {
  }

  // ------------------------------------------------------- registry sections

  /** Sections that touch clients and connections only. */
  lemma SetupsUntouched(st: Store, after: Store)
    requires Inv(st) && Connected(after) && after.setups == st.setups && after.writes == st.writes
    ensures Inv(after) && Evolves(st, after)
  {
  }

  lemma {:induction false} ImportKeepsConnected(st: Store, rs: seq<Legacy>, k: nat, fallback: Client)
    requires Connected(st) && k <= |rs|
    ensures Connected(ImportFirst(st, rs, k, fallback))
  {
    if k > 0 { ImportKeepsConnected(st, rs, k - 1, fallback); }
  }

  predicate Bookkeeping(s: Step) {
    || s.AbandonCleanup? || s.PutClient? || s.PutConnection? || s.EditConnection?
    || s.RemoveConnection? || s.RemoveClient? || s.ImportLegacy?
  }

  lemma BookkeepingKeepsConnected(w: World, s: Step)
    requires Connected(w.store) && Enabled(w, s) && Bookkeeping(s)
    ensures Connected(After(w, s).store)
  {
    match s
    case EditConnection(order, id, _) => NamedIsThere(w.store.connections, order, id);
    case ImportLegacy(rs, fallback) => ImportKeepsConnected(w.store, rs, |rs|, fallback);
    case _ =>
  }

  lemma BookkeepingSparesSetups(w: World, s: Step)
    requires Enabled(w, s) && Bookkeeping(s)
    ensures After(w, s).store.setups == w.store.setups && After(w, s).store.writes == w.store.writes
  {
    if s.ImportLegacy? { ImportShape(w.store, s.records, |s.records|, s.fallback); }
  }

  lemma BookkeepingKeepsInv(w: World, s: Step)
    requires Inv(w.store) && Enabled(w, s) && Bookkeeping(s)
    ensures Inv(After(w, s).store) && Evolves(w.store, After(w, s).store)
  {
    BookkeepingKeepsConnected(w, s);
    BookkeepingSparesSetups(w, s);
    SetupsUntouched(w.store, After(w, s).store);
  }

  // ------------------------------------------------------------------ create

  lemma NewSetupKeepsInv(st: Store, s: Setup)
    requires Inv(st) && s.id !in st.setups && Tidy(s) && s.state != Ready
    requires forall id :: id in st.setups ==> !SameKey(st.setups[id], s)
    ensures var after := SaveSetup(st, s); Inv(after) && Evolves(st, after)
  {
    var after := SaveSetup(st, s);
    forall id | id in after.setups ensures GoodSetup(after, id) {
      if id in st.setups { assert GoodSetup(st, id); }
    }
  }

  lemma NewKeyIsFree(st: Store, order: seq<string>, r: CreateRequest, now: int)
    requires Elements(order) == st.setups.Keys
    requires Strip(r.idempotencyKey) == "" || KeyedSetup(st, order, r.clientId, Strip(r.idempotencyKey)).None?
    ensures forall id :: id in st.setups ==> !SameKey(st.setups[id], NewSetup(r, now))
  {
    KeyedIsThere(st, order, r.clientId, Strip(r.idempotencyKey));
    assert forall id :: id in st.setups ==> id in Elements(order);
  }

  lemma CreateKeepsInv(st: Store, order: seq<string>, r: CreateRequest, now: int)
    requires Inv(st) && Elements(order) == st.setups.Keys && r.id !in st.setups
    ensures var after := CreateSetup(st, order, r, now).0; Inv(after) && Evolves(st, after)
  {
    var key := Strip(r.idempotencyKey);
    var existing := if key == "" then None else KeyedSetup(st, order, r.clientId, key);
    if existing.Some? {
      KeyedIsThere(st, order, r.clientId, key);
      PerformKeepsInv(st, existing.value, Raw, now);
    } else {
      NewKeyIsFree(st, order, r, now);
      NewSetupKeepsInv(st, NewSetup(r, now));
    }
  }

  // ------------------------------------------------------- cleanup, evolution

  /** A Meta setup's resources are all somebody else's, so its cleanup never completes. */
  lemma CleanupFits(st: Store, id: string, s: Setup, answers: nat -> Deletion, now: int)
    requires Inv(st) && GoodSnapshot(st, id, s)
    ensures Fit(st.setups[id], CleanupPatch(s, answers, now))
  {
    assert GoodSetup(st, id);
    CleanupCompletesExactly(s, answers, now);
    if s.provider == "meta" {
      assert !s.resources[0].ownershipConfirmed && !OwnedInstance(s, s.resources[0]);
    }
  }

  lemma TransitionKeepsInv(st: Store, s: Setup, p: Patch)
    requires Inv(st) && GoodCall(st, s) && p.state == Some(CleanupPending)
    requires p.connectionId == None && p.cleanupFinalState == None && p.resources == None
    ensures var after := TransitionFrom(st, s, p).0; Inv(after) && Evolves(st, after)
  {
    assert GoodSetup(st, s.id);
    UpdateKeepsInv(st, s.id, p);
  }

  lemma CreatedKeepsInv(st: Store, s: Setup, ok: bool, now: int)
    requires Inv(st) && GoodCall(st, s)
    ensures var (after, answer) := Created(st, s, ok, now);
      Inv(after) && Evolves(st, after) && (ok && answer.Ok? ==> GoodCall(after, answer.value))
  {
    assert GoodSetup(st, s.id);
    if ok {
      UpdateKeepsInv(st, s.id, Touch(now).(resources := Some(ResourcesOf(s))));
    } else {
      TransitionKeepsInv(st, s, Move(CleanupPending, now).(cleanupRequired := Some(true), diagnostic := UNCERTAIN));
    }
  }

  lemma HookedKeepsInv(st: Store, s: Setup, ok: bool, connectionId: string, now: int)
    requires Inv(st) && GoodCall(st, s)
    ensures var after := Hooked(st, s, ok, connectionId, now).0; Inv(after) && Evolves(st, after)
  {
    var c := PublishedConnection(s, connectionId, "", now);
    if !ok {
      TransitionKeepsInv(st, s,
        Move(CleanupPending, now).(cleanupRequired := Some(true), diagnostic := WEBHOOK_FAILED));
    } else if s.state == Provisioning && Promotable(st, s.id, c) {
      PromoteKeepsInv(st, s.id, c, now);
    }
  }

  // ----------------------------------------------------------------- all runs

  lemma CommandStep(w: World, s: Step)
    requires Inv(w.store) && Enabled(w, s)
    requires s.Act? || s.Open? || s.ExpireAll? || s.StartCleanup? || s.StartProvision?
    ensures Inv(After(w, s).store) && Evolves(w.store, After(w, s).store)
  {
    match s
    case Act(id, cmd, now) => PerformKeepsInv(w.store, id, cmd, now);
    case Open(order, r, now) => CreateKeepsInv(w.store, order, r, now);
    case ExpireAll(order, now) => SweepKeepsInv(w.store, order, |order|, now);
    case StartCleanup(id, now) => PerformKeepsInv(w.store, id, Raw, now);
    case StartProvision(_, id, now) => PerformKeepsInv(w.store, id, BeginEvolution, now);
  }

  lemma ResumedStep(w: World, s: Step)
    requires Sound(w) && Enabled(w, s) && (s.EndCleanup? || s.ResumeCreated? || s.ResumeHooked?)
    ensures Inv(After(w, s).store) && Evolves(w.store, After(w, s).store)
  {
    match s
    case EndCleanup(id, answers, now) =>
      assert GoodSnapshot(w.store, id, w.cleaning[id]);
      CleanupFits(w.store, id, w.cleaning[id], answers, now);
      UpdateKeepsInv(w.store, id, CleanupPatch(w.cleaning[id], answers, now));
    case ResumeCreated(call, ok, now) =>
      assert GoodCall(w.store, w.calls[call].local);
      CreatedKeepsInv(w.store, w.calls[call].local, ok, now);
    case ResumeHooked(call, ok, connectionId, now) =>
      assert GoodCall(w.store, w.calls[call].local);
      HookedKeepsInv(w.store, w.calls[call].local, ok, connectionId, now);
  }

  lemma StoreStep(w: World, s: Step)
    requires Sound(w) && Enabled(w, s)
    ensures Inv(After(w, s).store) && Evolves(w.store, After(w, s).store)
  {
    if s.Act? || s.Open? || s.ExpireAll? || s.StartCleanup? || s.StartProvision? {
      CommandStep(w, s);
    } else if s.EndCleanup? || s.ResumeCreated? || s.ResumeHooked? {
      ResumedStep(w, s);
    } else {
      BookkeepingKeepsInv(w, s);
    }
  }

  /** A command that answers with a record answers with the stored one. */
  lemma AnswerIsStored(st: Store, id: string, cmd: Command, now: int)
    requires Perform(st, id, cmd, now).1.Ok?
    ensures var (after, answer) := Perform(st, id, cmd, now); id in after.setups && answer.value == after.setups[id]
  {
  }

  lemma PerformAnswers(st: Store, id: string, cmd: Command, now: int)
    requires Inv(st) && Perform(st, id, cmd, now).1.Ok?
    ensures var (after, answer) := Perform(st, id, cmd, now);
      id in after.setups && answer.value == after.setups[id] && answer.value.id == id && Tidy(answer.value)
  {
    var after := Perform(st, id, cmd, now).0;
    AnswerIsStored(st, id, cmd, now);
    PerformKeepsInv(st, id, cmd, now);
    assert GoodSetup(after, id);
  }

  /** What a successful answer guarantees of the stored setup, command by command. */
  predicate Accomplished(cmd: Command, s: Setup, now: int) {
    match cmd
    case Raw => Active(s.state) ==> now < s.expiresAt
    case BeginMeta => s.provider == "meta" && s.state != Draft
    case BeginMetaProvisioning(_, _) => s.provider == "meta" && s.state == Provisioning
    case CompleteMeta(_, _, _) => s.provider == "meta" && s.state == Ready
    case CompleteInstagram(_, _, _) => s.provider == "meta" && s.channel == "instagram" && s.state == Ready
    case MarkMetaFailed => !Active(s.state)
    case Cancel => s.state == Cancelled || s.state == CleanupPending || s.state == Expired || s.state == Failed
    case BeginEvolution => s.provider == "evolution" && (s.state == Ready || s.state == Provisioning)
  }

  /** The setup as a plan without error leaves it. */
  function Planned(s: Setup, plan: Plan, now: int): Setup {
    if plan.publish.Some? then Patched(PatchedAll(s, plan.patches), ReadyPatch(plan.publish.value.id, now))
    else PatchedAll(s, plan.patches)
  }

  lemma LoginAccomplishes(s: Setup, phone: string, account: string, now: int)
    requires Tidy(s) && PlanFor(BeginMetaProvisioning(phone, account), s, now).error.None?
    ensures var cmd := BeginMetaProvisioning(phone, account);
      Accomplished(cmd, Planned(s, PlanFor(cmd, s, now), now), now)
  {
    TowardsFits(s, now);
    var ps, p := TowardsProvisioning(s, now), Touch(now).(resources := Some(SuppliedResources(phone, account)));
    if account != "" { FitMore(s, ps, p); } else { assert ps + [] == ps; }
  }

  lemma PlannedOne(s: Setup, p: Patch)
    ensures PatchedAll(s, [p]) == Patched(s, p)
  {
  }

  lemma CompletionAccomplishes(s: Setup, resources: seq<Resource>, connectionId: string, details: string, now: int)
    requires Completion(s, resources, connectionId, details, now).error.None?
    ensures var after := Planned(s, Completion(s, resources, connectionId, details, now), now);
      after.state == Ready && after.provider == s.provider && after.channel == s.channel
  {
    PlannedOne(s, Touch(now).(resources := Some(resources)));
  }

  lemma PlanAccomplishes(cmd: Command, s: Setup, now: int)
    requires Tidy(s) && (Active(s.state) ==> now < s.expiresAt) && PlanFor(cmd, s, now).error.None?
    ensures Accomplished(cmd, Planned(s, PlanFor(cmd, s, now), now), now)
  {
    match cmd
    case Raw =>
    case BeginMetaProvisioning(phone, account) => LoginAccomplishes(s, phone, account, now);
    case CompleteMeta(phone, account, connectionId) =>
      CompletionAccomplishes(s, MetaResources(phone, account), connectionId, "", now);
    case CompleteInstagram(account, details, connectionId) =>
      CompletionAccomplishes(s, [Resource("meta_instagram_account", account, false)], connectionId, details, now);
    case BeginMeta => PlannedOne(s, Move(Onboarding, now));
    case MarkMetaFailed => PlannedOne(s, Move(Failed, now).(diagnostic := FAILURE));
    case Cancel => PlannedOne(s, CancelMove(s, now));
    case BeginEvolution => PlannedOne(s, Move(Provisioning, now));
  }

  lemma CarryAnswers(st: Store, id: string, plan: Plan, now: int)
    requires Inv(st) && id in st.setups && GoodPlan(st.setups[id], plan, now) && Carry(st, id, plan, now).1.Ok?
    ensures plan.error.None? && Carry(st, id, plan, now).1.value == Planned(st.setups[id], plan, now)
  {
    UpdateAllKeepsInv(st, id, plan.patches);
  }

  /** A command that succeeds has done what it is for. */
  lemma CommandsDeliver(st: Store, id: string, cmd: Command, now: int)
    requires Inv(st) && Perform(st, id, cmd, now).1.Ok?
    ensures Accomplished(cmd, Perform(st, id, cmd, now).1.value, now)
  {
    var looked := ExpireIfDue(st, id, now);
    ExpireKeepsInv(st, id, now);
    assert GoodSetup(looked, id);
    var s := looked.setups[id];
    PlanFits(cmd, s, now);
    CarryAnswers(looked, id, PlanFor(cmd, s, now), now);
    PlanAccomplishes(cmd, s, now);
  }

  lemma ConflictsWriteNothing(cmd: Command, s: Setup, now: int)
    ensures PlanFor(cmd, s, now).error.Some? ==> PlanFor(cmd, s, now).patches == []
  {
  }

  /** A command refused for the setup's state has written nothing, beyond letting it expire. */
  lemma RefusalsOnlyExpire(st: Store, id: string, cmd: Command, now: int)
    requires Perform(st, id, cmd, now).1 == Err(Conflict) || Perform(st, id, cmd, now).1 == Err(InvalidTransition)
    ensures Perform(st, id, cmd, now).0 == ExpireIfDue(st, id, now)
  {
    var looked := ExpireIfDue(st, id, now);
    ConflictsWriteNothing(cmd, looked.setups[id], now);
  }

  lemma SnapshotIsGood(w: World, id: string, now: int)
    requires Sound(w) && Perform(w.store, id, Raw, now).1.Ok? && NeedsCleanup(Perform(w.store, id, Raw, now).1.value)
    ensures var (after, answer) := Perform(w.store, id, Raw, now); GoodSnapshot(after, id, answer.value)
  {
    PerformAnswers(w.store, id, Raw, now);
  }

  lemma CallIsGood(w: World, id: string, now: int)
    requires Sound(w) && Perform(w.store, id, BeginEvolution, now).1.Ok?
    ensures var (after, answer) := Perform(w.store, id, BeginEvolution, now); GoodCall(after, answer.value)
  {
    PerformAnswers(w.store, id, BeginEvolution, now);
    CommandsDeliver(w.store, id, BeginEvolution, now);
  }

  /** The copies a step adds are taken from the store it leaves. */
  lemma NewSnapshots(w: World, s: Step, id: string)
    requires Sound(w) && Enabled(w, s) && id in After(w, s).cleaning
    ensures (id in w.cleaning && After(w, s).cleaning[id] == w.cleaning[id]) ||
      GoodSnapshot(After(w, s).store, id, After(w, s).cleaning[id])
  {
    if s.StartCleanup? && s.id == id { SnapshotIsGood(w, id, s.now); }
  }

  lemma NewCalls(w: World, s: Step, call: nat)
    requires Sound(w) && Enabled(w, s) && call in After(w, s).calls
    ensures (call in w.calls && After(w, s).calls[call] == w.calls[call]) ||
      GoodCall(After(w, s).store, After(w, s).calls[call].local)
  {
    if s.StartProvision? && s.call == call {
      CallIsGood(w, s.id, s.now);
    } else if s.ResumeCreated? && s.call == call {
      assert GoodCall(w.store, w.calls[call].local);
      CreatedKeepsInv(w.store, w.calls[call].local, s.ok, s.now);
    }
  }

  lemma StepKeepsSound(w: World, s: Step)
    requires Sound(w) && Enabled(w, s)
    ensures Sound(After(w, s))
  {
    var after := After(w, s);
    StoreStep(w, s);
    CopiesSurvive(w, after.store);
    forall id | id in after.cleaning ensures GoodSnapshot(after.store, id, after.cleaning[id]) {
      NewSnapshots(w, s, id);
    }
    forall call | call in after.calls ensures GoodCall(after.store, after.calls[call].local) { NewCalls(w, s, call); }
  }

  lemma {:induction false} Reachable(ws: seq<World>, ss: seq<Step>, i: nat)
    requires Run(ws, ss) && i < |ws|
    ensures Sound(ws[i])
  {
    if i > 0 {
      Reachable(ws, ss, i - 1);
      assert Enabled(ws[i - 1], ss[i - 1]) && ws[i] == After(ws[i - 1], ss[i - 1]);
      StepKeepsSound(ws[i - 1], ss[i - 1]);
    }
  }

  /**
   Registry integrity, after any run: clients of connections exist, names are consistent and
   never both live and deleted, one setup per client and key, and every ready setup's
   connection was published by the write that made it ready, for the same client.
   */
  lemma RegistryIntegrity(ws: seq<World>, ss: seq<Step>, i: nat)
    requires Run(ws, ss) && i < |ws|
    ensures Connected(ws[i].store) && OnePerKey(ws[i].store)
    ensures forall id :: id in ws[i].store.setups && ws[i].store.setups[id].state == Ready ==>
      WasPublished(ws[i].store, ws[i].store.setups[id])
  {
    Reachable(ws, ss, i);
    assert forall id :: id in ws[i].store.setups ==> GoodSetup(ws[i].store, id);
  }

  /**
   Meta and Instagram setups, in the whole history of any run: every write of a state is an edge
   of the transition table, and every promotion leaves `provisioning` before the setup expires.
   */
  lemma MetaWritesAreLegal(ws: seq<World>, ss: seq<Step>, i: nat, k: nat)
    requires Run(ws, ss) && i < |ws| && k < |ws[i].store.writes|
    requires ws[i].store.writes[k].before.provider == "meta"
    ensures var x := ws[i].store.writes[k];
      && LegalMove(x.before.state, x.after.state)
      && (x.published.Some? ==> x.before.state == Provisioning && x.after.state == Ready && x.at < x.before.expiresAt)
      && (x.after.state == Ready && x.before.state != Ready ==> x.published.Some?)
  {
    Reachable(ws, ss, i);
    assert GoodWrite(ws[i].store.writes[k]);
  }

  /** Once cancelled, expired or waiting for cleanup, a Meta setup never becomes ready. */
  lemma {:induction false} EndedStaysEnded(ws: seq<World>, ss: seq<Step>, i: nat, j: nat, id: string)
    requires Run(ws, ss) && i <= j < |ws|
    requires id in ws[i].store.setups && ws[i].store.setups[id].provider == "meta"
    requires Ended(ws[i].store.setups[id].state)
    ensures id in ws[j].store.setups && ws[j].store.setups[id].provider == "meta" && Ended(ws[j].store.setups[id].state)
  {
    if i < j {
      EndedStaysEnded(ws, ss, i, j - 1, id);
      Reachable(ws, ss, j - 1);
      assert Enabled(ws[j - 1], ss[j - 1]) && ws[j] == After(ws[j - 1], ss[j - 1]);
      StoreStep(ws[j - 1], ss[j - 1]);
      assert Follows(ws[j - 1].store.setups[id], ws[j].store.setups[id]);
    }
  }

  // ------------------------------------------------ what Evolution does not get

  /**
   provision_evolution publishes from the copy it took before its last await, without another
   look at the stored setup.
   */
  predicate PublishesLate(w: World, s: Step, id: string) {
    && s.ResumeHooked? && s.ok && s.call in w.calls
    && w.calls[s.call].local.id == id && w.calls[s.call].local.state == Provisioning
    && id in w.store.setups && w.store.setups[id].runtimeName != "" && w.store.setups[id].clientId in w.store.clients
  }

  predicate EndedEvolution(st: Store, id: string) {
    id in st.setups && st.setups[id].provider == "evolution" && Ended(st.setups[id].state)
  }

  lemma {:induction false} UpdatesSpare(st: Store, other: string, ps: seq<Patch>, id: string)
    requires id in st.setups && id != other
    ensures id in UpdateAll(st, other, ps).setups && UpdateAll(st, other, ps).setups[id] == st.setups[id]
  {
    if ps != [] { UpdatesSpare(st, other, ps[..|ps| - 1], id); }
  }

  ghost predicate Idle(st: Store, id: string) {
    EndedEvolution(st, id) || (id in st.setups && st.setups[id].state == Ready)
  }

  lemma ExpirySpares(st: Store, other: string, now: int, id: string)
    requires Idle(st, id)
    ensures id in ExpireIfDue(st, other, now).setups && ExpireIfDue(st, other, now).setups[id] == st.setups[id]
  {
    if other in st.setups && other != id { UpdatesSpare(st, other, Expiry(st.setups[other], now), id); }
  }

  /** No command has anything to do for an ended Evolution setup or a ready one. */
  lemma NothingPlanned(cmd: Command, s: Setup, now: int)
    requires (s.provider == "evolution" && Ended(s.state)) || s.state == Ready
    ensures PlanFor(cmd, s, now).patches == [] && PlanFor(cmd, s, now).publish == None && Expiry(s, now) == []
  {
  }

  lemma CarrySpares(st: Store, other: string, plan: Plan, now: int, id: string)
    requires id in st.setups && other in st.setups && other != id
    ensures var after := Carry(st, other, plan, now).0; id in after.setups && after.setups[id] == st.setups[id]
  {
    UpdatesSpare(st, other, plan.patches, id);
  }

  /** So none writes it. */
  lemma CommandSpares(st: Store, other: string, cmd: Command, now: int, id: string)
    requires Idle(st, id)
    ensures var after := Perform(st, other, cmd, now).0; id in after.setups && after.setups[id] == st.setups[id]
  {
    ExpirySpares(st, other, now, id);
    var looked := ExpireIfDue(st, other, now);
    if other == id {
      NothingPlanned(cmd, st.setups[id], now);
    } else if other in looked.setups {
      CarrySpares(looked, other, PlanFor(cmd, looked.setups[other], now), now, id);
    }
  }

  lemma {:induction false} SweepSparesEnded(st: Store, order: seq<string>, k: nat, now: int, id: string)
    requires Idle(st, id) && k <= |order|
    ensures id in Sweep(st, order, k, now).setups && Sweep(st, order, k, now).setups[id] == st.setups[id]
  {
    if k > 0 {
      SweepSparesEnded(st, order, k - 1, now, id);
      ExpirySpares(Sweep(st, order, k - 1, now), order[k - 1], now, id);
    }
  }

  lemma CommandStepSpares(w: World, s: Step, id: string)
    requires Enabled(w, s) && Idle(w.store, id)
    requires s.Act? || s.Open? || s.ExpireAll? || s.StartCleanup? || s.StartProvision?
    ensures var after := After(w, s).store; id in after.setups && after.setups[id] == w.store.setups[id]
  {
    match s
    case Act(other, cmd, now) => CommandSpares(w.store, other, cmd, now, id);
    case Open(order, r, now) =>
      var key := Strip(r.idempotencyKey);
      var existing := if key == "" then None else KeyedSetup(w.store, order, r.clientId, key);
      if existing.Some? { CommandSpares(w.store, existing.value, Raw, now, id); }
    case ExpireAll(order, now) => SweepSparesEnded(w.store, order, |order|, now, id);
    case StartCleanup(other, now) => CommandSpares(w.store, other, Raw, now, id);
    case StartProvision(_, other, now) => CommandSpares(w.store, other, BeginEvolution, now, id);
  }

  lemma CleanupEndsEnded(w: World, s: Step, id: string)
    requires Sound(w) && Enabled(w, s) && EndedEvolution(w.store, id) && s.EndCleanup?
    ensures var after := After(w, s).store; id in after.setups && Ended(after.setups[id].state)
  {
    assert GoodSnapshot(w.store, s.id, w.cleaning[s.id]);
    var p := CleanupPatch(w.cleaning[s.id], s.answers, s.now);
    assert p.state == Some(CleanupPending) || p.state == Some(FinalState(w.cleaning[s.id]));
  }

  lemma CreationEndsEnded(w: World, s: Step, id: string)
    requires Sound(w) && Enabled(w, s) && EndedEvolution(w.store, id) && s.ResumeCreated?
    ensures var after := After(w, s).store; id in after.setups && Ended(after.setups[id].state)
  {
    assert GoodCall(w.store, w.calls[s.call].local);
  }

  lemma WebhookEnds(w: World, s: Step, id: string)
    requires Sound(w) && Enabled(w, s) && EndedEvolution(w.store, id) && s.ResumeHooked?
    ensures var after := After(w, s).store;
      && id in after.setups
      && if PublishesLate(w, s, id) then after.setups[id].state == Ready else Ended(after.setups[id].state)
  {
    assert GoodCall(w.store, w.calls[s.call].local);
  }

  /** An ended Evolution setup becomes ready in exactly one way, and stays ended otherwise. */
  lemma EvolutionRevivedExactly(w: World, s: Step, id: string)
    requires Sound(w) && Enabled(w, s) && EndedEvolution(w.store, id)
    ensures id in After(w, s).store.setups
    ensures After(w, s).store.setups[id].state == Ready <==> PublishesLate(w, s, id)
    ensures Ended(After(w, s).store.setups[id].state) <==> !PublishesLate(w, s, id)
  {
    if s.Act? || s.Open? || s.ExpireAll? || s.StartCleanup? || s.StartProvision? {
      CommandStepSpares(w, s, id);
    } else if s.EndCleanup? {
      CleanupEndsEnded(w, s, id);
    } else if s.ResumeCreated? {
      CreationEndsEnded(w, s, id);
    } else if s.ResumeHooked? {
      WebhookEnds(w, s, id);
    } else {
      BookkeepingSparesSetups(w, s);
    }
  }

  lemma RunStepEnds(ws: seq<World>, ss: seq<Step>, k: nat, id: string)
    requires Run(ws, ss) && k < |ss| && EndedEvolution(ws[k].store, id)
    ensures EndedEvolution(ws[k + 1].store, id) <==> !PublishesLate(ws[k], ss[k], id)
  {
    Reachable(ws, ss, k);
    assert Enabled(ws[k], ss[k]) && ws[k + 1] == After(ws[k], ss[k]);
    EvolutionRevivedExactly(ws[k], ss[k], id);
    StoreStep(ws[k], ss[k]);
    assert Follows(ws[k].store.setups[id], ws[k + 1].store.setups[id]);
  }

  ghost predicate EndedThroughout(ws: seq<World>, i: nat, j: nat, id: string)
    requires j < |ws|
  {
    forall k {:trigger ws[k]} :: i <= k <= j ==> EndedEvolution(ws[k].store, id)
  }

  predicate NeverLate(ws: seq<World>, ss: seq<Step>, i: nat, j: nat, id: string)
    requires |ws| == |ss| + 1 && j <= |ss|
  {
    forall k {:trigger ss[k]} :: i <= k < j ==> !PublishesLate(ws[k], ss[k], id)
  }

  /** What a run does to an ended setup, step by step, and no more. */
  ghost predicate Revivals(ws: seq<World>, ss: seq<Step>, id: string) {
    && |ws| == |ss| + 1
    && forall k {:trigger ss[k]} :: 0 <= k < |ss| && EndedEvolution(ws[k].store, id) ==>
         (EndedEvolution(ws[k + 1].store, id) <==> !PublishesLate(ws[k], ss[k], id))
  }

  lemma {:induction false} EndedExactly(ws: seq<World>, ss: seq<Step>, i: nat, j: nat, id: string)
    requires Revivals(ws, ss, id) && i <= j < |ws| && EndedEvolution(ws[i].store, id)
    ensures EndedThroughout(ws, i, j, id) <==> NeverLate(ws, ss, i, j, id)
  {
    if i < j {
      EndedExactly(ws, ss, i, j - 1, id);
      var s := ss[j - 1];
    }
  }

  /** Over any run: an Evolution setup that has ended stays ended exactly while no late publication of it comes. */
  lemma EvolutionStaysEndedExactly(ws: seq<World>, ss: seq<Step>, i: nat, j: nat, id: string)
    requires Run(ws, ss) && i <= j < |ws| && EndedEvolution(ws[i].store, id)
    ensures EndedThroughout(ws, i, j, id) <==> NeverLate(ws, ss, i, j, id)
  {
    forall k | 0 <= k < |ss| && EndedEvolution(ws[k].store, id)
      ensures EndedEvolution(ws[k + 1].store, id) <==> !PublishesLate(ws[k], ss[k], id)
    {
      RunStepEnds(ws, ss, k, id);
    }
    EndedExactly(ws, ss, i, j, id);
  }

  /** A failed await asks for compensation from its copy, whatever the stored setup has become. */
  predicate AsksForCleanup(w: World, s: Step, id: string) {
    || (s.ResumeCreated? && !s.ok && s.call in w.calls && w.calls[s.call].local.id == id
        && CleanupPending in Edges(w.calls[s.call].local.state))
    || (s.ResumeHooked? && !s.ok && s.call in w.calls && w.calls[s.call].local.id == id
        && CleanupPending in Edges(w.calls[s.call].local.state))
  }

  lemma CleanupTakesBack(w: World, s: Step, id: string)
    requires Sound(w) && Enabled(w, s) && id in w.store.setups && w.store.setups[id].state == Ready && s.EndCleanup?
    ensures id in After(w, s).store.setups && (After(w, s).store.setups[id].state != Ready <==> s.id == id)
  {
    assert GoodSnapshot(w.store, s.id, w.cleaning[s.id]);
    var p := CleanupPatch(w.cleaning[s.id], s.answers, s.now);
    assert p.state == Some(CleanupPending) || p.state == Some(FinalState(w.cleaning[s.id]));
  }

  /** The write a copy asks for goes through exactly when the table has its edge. */
  lemma TransitionTakesBack(st: Store, s: Setup, p: Patch)
    requires GoodCall(st, s) && st.setups[s.id].state == Ready && p.state == Some(CleanupPending)
    ensures var after := TransitionFrom(st, s, p).0.setups;
      && after.Keys == st.setups.Keys
      && (forall id :: id in after && id != s.id ==> after[id] == st.setups[id])
      && (after[s.id].state != Ready <==> CleanupPending in Edges(s.state))
  {
  }

  lemma TransitionSpares(st: Store, s: Setup, p: Patch, id: string)
    requires p.state.Some? && id in st.setups && id != s.id
    ensures id in TransitionFrom(st, s, p).0.setups && TransitionFrom(st, s, p).0.setups[id] == st.setups[id]
  {
  }

  lemma CreationTakesBack(w: World, s: Step, id: string)
    requires Sound(w) && Enabled(w, s) && id in w.store.setups && w.store.setups[id].state == Ready && s.ResumeCreated?
    ensures id in After(w, s).store.setups
    ensures After(w, s).store.setups[id].state != Ready <==> AsksForCleanup(w, s, id)
  {
    var local := w.calls[s.call].local;
    var p := Move(CleanupPending, s.now).(cleanupRequired := Some(true), diagnostic := UNCERTAIN);
    assert GoodCall(w.store, local);
    if !s.ok {
      if local.id == id { TransitionTakesBack(w.store, local, p); } else { TransitionSpares(w.store, local, p, id); }
    }
  }

  lemma WebhookTakesBack(w: World, s: Step, id: string)
    requires Sound(w) && Enabled(w, s) && id in w.store.setups && w.store.setups[id].state == Ready && s.ResumeHooked?
    ensures id in After(w, s).store.setups
    ensures After(w, s).store.setups[id].state != Ready <==> AsksForCleanup(w, s, id)
  {
    var local := w.calls[s.call].local;
    var p := Move(CleanupPending, s.now).(cleanupRequired := Some(true), diagnostic := WEBHOOK_FAILED);
    assert GoodCall(w.store, local);
    if !s.ok {
      if local.id == id { TransitionTakesBack(w.store, local, p); } else { TransitionSpares(w.store, local, p, id); }
    }
  }

  /**
   The table has no edge out of `ready`, yet a ready setup is taken back, in exactly these ways:
   a cleanup attempt that started before ends on it, or a failed await asks for cleanup.
   */
  lemma ReadyTakenBackExactly(w: World, s: Step, id: string)
    requires Sound(w) && Enabled(w, s) && id in w.store.setups && w.store.setups[id].state == Ready
    ensures id in After(w, s).store.setups
    ensures After(w, s).store.setups[id].state != Ready <==> (s.EndCleanup? && s.id == id) || AsksForCleanup(w, s, id)
  {
    if s.Act? || s.Open? || s.ExpireAll? || s.StartCleanup? || s.StartProvision? {
      CommandStepSpares(w, s, id);
    } else if s.EndCleanup? {
      CleanupTakesBack(w, s, id);
    } else if s.ResumeCreated? {
      CreationTakesBack(w, s, id);
    } else if s.ResumeHooked? {
      WebhookTakesBack(w, s, id);
    } else {
      BookkeepingSparesSetups(w, s);
    }
  }

  const OWNER := Client("c", "Cliente", 0, 0)
  const REQUEST := CreateRequest("s", "c", "whatsapp", "evolution", "", "", true, 100)

  lemma Extend(ws: seq<World>, ss: seq<Step>, s: Step)
    requires Run(ws, ss) && Enabled(ws[|ss|], s)
    ensures Run(ws + [After(ws[|ss|], s)], ss + [s])
  {
  }

  lemma DraftOpened() returns (ws: seq<World>, ss: seq<Step>)
    ensures Run(ws, ss) && |ss| == 2
    ensures ws[2].store.setups == map["s" := NewSetup(REQUEST, 0)] && ws[2].store.clients == map["c" := OWNER]
    ensures ws[2].calls == map[]
  {
    ws, ss := [World(Store(map[], map[], map[], map[], []), map[], map[])], [];
    var put, open := PutClient(OWNER), Open([], REQUEST, 0);
    Extend(ws, ss, put);
    ws, ss := ws + [After(ws[0], put)], ss + [put];
    Extend(ws, ss, open);
    ws, ss := ws + [After(ws[1], open)], ss + [open];
  }

  lemma DraftBegun() returns (ws: seq<World>, ss: seq<Step>, s: Setup)
    ensures Run(ws, ss) && |ss| == 3 && ws[3].store.setups == map["s" := s] && ws[3].calls == map[0 := Creating(s)]
    ensures s == Patched(NewSetup(REQUEST, 0), Move(Provisioning, 1)) && ws[3].store.clients == map["c" := OWNER]
  {
    ws, ss := DraftOpened();
    s := Patched(NewSetup(REQUEST, 0), Move(Provisioning, 1));
    var begin := StartProvision(0, "s", 1);
    assert ws[2].store.setups["s"] == NewSetup(REQUEST, 0);
    assert ExpireIfDue(ws[2].store, "s", 1) == ws[2].store;
    ApplyOne(ws[2].store, "s", Move(Provisioning, 1));
    Extend(ws, ss, begin);
    ws, ss := ws + [After(ws[2], begin)], ss + [begin];
  }

  /** An Evolution setup whose instance exists and whose webhook is being configured. */
  lemma AwaitingWebhook() returns (ws: seq<World>, ss: seq<Step>, s: Setup)
    ensures Run(ws, ss) && |ss| == 4 && ws[4].calls == map[0 := Hooking(s)]
    ensures "s" in ws[4].store.setups && ws[4].store.setups["s"] == s && s.id == "s" && s.provider == "evolution"
    ensures s.state == Provisioning && s.resources != [] && s.expiresAt == 100 && s.runtimeName != ""
    ensures s.clientId in ws[4].store.clients
  {
    ws, ss, s := DraftBegun();
    var made := ResumeCreated(0, true, 2);
    Extend(ws, ss, made);
    ws, ss := ws + [After(ws[3], made)], ss + [made];
    s := ws[4].store.setups["s"];
  }

  lemma CancelledWhileWaiting() returns (ws: seq<World>, ss: seq<Step>)
    ensures Run(ws, ss) && |ss| == 5
    ensures EndedEvolution(ws[5].store, "s") && ws[5].store.setups["s"].state == CleanupPending
    ensures PublishesLate(ws[5], ResumeHooked(0, true, "x", 4), "s") && ws[5].calls[0].Hooking?
  {
    var s: Setup;
    ws, ss, s := AwaitingWebhook();
    var cancel := Act("s", Cancel, 3);
    ApplyOne(ws[4].store, "s", CancelMove(s, 3));
    Extend(ws, ss, cancel);
    ws, ss := ws + [After(ws[4], cancel)], ss + [cancel];
  }

  /** Cancelled while its webhook was being configured, an Evolution setup still becomes ready. */
  lemma CancelledBecomesReady() returns (ws: seq<World>, ss: seq<Step>)
    ensures Run(ws, ss) && |ss| == 6
    ensures "s" in ws[5].store.setups && ws[5].store.setups["s"].state == CleanupPending
    ensures "s" in ws[6].store.setups && ws[6].store.setups["s"].state == Ready
  {
    ws, ss := CancelledWhileWaiting();
    var hooked := ResumeHooked(0, true, "x", 4);
    Reachable(ws, ss, 5);
    EvolutionRevivedExactly(ws[5], hooked, "s");
    Extend(ws, ss, hooked);
    ws, ss := ws + [After(ws[5], hooked)], ss + [hooked];
  }
}
