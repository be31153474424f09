/**
 What each setup command does, on the fields of the stored record, with states and numbers
 written out: when it succeeds, which error it answers otherwise, and the store it leaves.
 Every command first lets the setup expire if it is due; `Seen` is the record it then works on.
 */
module SetupLaws {
  import opened Common
  import opened Registry
  import opened ConnectionSetups
  import opened SetupCleanup

  predicate InProgress(s: State) {
    s == Draft || s == Onboarding || s == Provisioning
  }

  /** A setup in progress whose deadline has come expires, or waits for cleanup when something is outside. */
  function Seen(s: Setup, now: int): Setup {
    if !InProgress(s.state) || s.expiresAt > now then s
    else if s.resources == [] then s.(state := Expired, updatedAt := now)
    else s.(state := CleanupPending, cleanupRequired := true, cleanupFinalState := Some(Expired), updatedAt := now)
  }

  /** Only this setup is touched, and ends as `s`. */
  predicate Leaves(st: Store, after: Store, id: string, s: Setup) {
    && after.setups == st.setups[id := s]
    && after.clients == st.clients && after.connections == st.connections && after.deleted == st.deleted
  }

  lemma {:induction false} UpdatesLeave(st: Store, id: string, ps: seq<Patch>)
    requires id in st.setups
    ensures Leaves(st, UpdateAll(st, id, ps), id, PatchedAll(st.setups[id], ps))
  {
    if ps != [] { UpdatesLeave(st, id, ps[..|ps| - 1]); }
  }

  lemma OnePatch(s: Setup, p: Patch)
    ensures PatchedAll(s, [p]) == Patched(s, p)
  {
  }

  /** A look at a setup, or a sweep over it, is its due expiry and nothing else. */
  lemma ExpiryExactly(st: Store, id: string, now: int)
    requires id in st.setups
    ensures Leaves(st, ExpireIfDue(st, id, now), id, Seen(st.setups[id], now))
    ensures Expiry(st.setups[id], now) != [] <==> InProgress(st.setups[id].state) && st.setups[id].expiresAt <= now
  {
    var s := st.setups[id];
    UpdatesLeave(st, id, Expiry(s, now));
    OnePatch(s, ExpiryMove(s, now));
  }

  /** A plan that publishes nothing: its writes one after the other, then its answer. */
  lemma PlanLeaves(st: Store, id: string, cmd: Command, now: int)
    requires id in st.setups && PlanFor(cmd, Seen(st.setups[id], now), now).publish.None?
    ensures var (after, answer) := Perform(st, id, cmd, now);
      var s := Seen(st.setups[id], now);
      var plan := PlanFor(cmd, s, now);
      && Leaves(st, after, id, PatchedAll(s, plan.patches))
      && answer == if plan.error.Some? then Err(plan.error.value) else Ok(PatchedAll(s, plan.patches))
  {
    var s := Seen(st.setups[id], now);
    ExpiryExactly(st, id, now);
    UpdatesLeave(ExpireIfDue(st, id, now), id, PlanFor(cmd, s, now).patches);
  }

  lemma NoSetupNoCommand(st: Store, id: string, cmd: Command, now: int)
    requires id !in st.setups
    ensures Perform(st, id, cmd, now) == (st, Err(NotFound))
  {
  }

  /** The answer is the stored record when the command may run, and `error` when it may not. */
  predicate AnswersWith(reply: Reply, id: string, allowed: bool, error: SetupError) {
    if allowed then id in reply.0.setups && reply.1 == Ok(reply.0.setups[id]) else reply.1 == Err(error)
  }

  lemma RawExactly(st: Store, id: string, now: int)
    requires id in st.setups
    ensures var reply := Perform(st, id, Raw, now);
      Leaves(st, reply.0, id, Seen(st.setups[id], now)) && reply.1 == Ok(Seen(st.setups[id], now))
  {
    PlanLeaves(st, id, Raw, now);
  }

  lemma BeginMetaExactly(st: Store, id: string, now: int)
    requires id in st.setups
    ensures var reply, s := Perform(st, id, Command.BeginMeta, now), Seen(st.setups[id], now);
      && AnswersWith(reply, id, s.provider == "meta", Conflict)
      && Leaves(st, reply.0, id,
           if s.provider == "meta" && s.state == Draft then s.(state := Onboarding, updatedAt := now) else s)
  {
    var s := Seen(st.setups[id], now);
    PlanLeaves(st, id, Command.BeginMeta, now);
    OnePatch(s, Move(Onboarding, now));
  }

  /** What Meta has named so far; nothing of it is the Gateway's. */
  function Named(phone: string, account: string): seq<Resource> {
    (if phone == "" then [] else [Resource("meta_phone_number", phone, false)])
    + [Resource("meta_business_account", account, false)]
  }

  lemma NextPatch(s: Setup, ps: seq<Patch>, p: Patch)
    ensures PatchedAll(s, ps + [p]) == Patched(PatchedAll(s, ps), p)
  {
    assert (ps + [p])[..|ps|] == ps;
  }

  lemma StepsLeave(s: Setup, now: int)
    requires s.state == Failed || s.state == Onboarding || s.state == Provisioning
    ensures PatchedAll(s, TowardsProvisioning(s, now)) == s.(
      state := Provisioning, diagnostic := if s.state == Failed then None else s.diagnostic,
      updatedAt := if s.state == Provisioning then s.updatedAt else now)
  {
    var restart, claim := Move(Onboarding, now).(diagnostic := Some(None)), Move(Provisioning, now);
    if s.state == Failed {
      assert [restart, claim] == [restart] + [claim];
      NextPatch(s, [restart], claim);
      OnePatch(s, restart);
    } else if s.state == Onboarding {
      OnePatch(s, claim);
    }
  }

  lemma SuppliedAreNamed(phone: string, account: string)
    ensures SuppliedResources(phone, account) == Named(phone, account)
  {
  }

  /** A failed login starts over, a login under way is claimed, a claimed one is claimed again. */
  lemma BeginMetaProvisioningExactly(st: Store, id: string, phone: string, account: string, now: int)
    requires id in st.setups
    ensures var reply := Perform(st, id, Command.BeginMetaProvisioning(phone, account), now);
      var s := Seen(st.setups[id], now);
      var allowed :=
        s.provider == "meta" && (s.state == Failed || s.state == Onboarding || s.state == Provisioning);
      && AnswersWith(reply, id, allowed, Conflict)
      && Leaves(st, reply.0, id,
           if !allowed then s
           else s.(
             state := Provisioning,
             diagnostic := if s.state == Failed then None else s.diagnostic,
             resources := if account == "" then s.resources else Named(phone, account),
             updatedAt := if s.state == Provisioning && account == "" then s.updatedAt else now))
  {
    var s, cmd := Seen(st.setups[id], now), Command.BeginMetaProvisioning(phone, account);
    PlanLeaves(st, id, cmd, now);
    if s.state == Failed || s.state == Onboarding || s.state == Provisioning {
      var steps := TowardsProvisioning(s, now);
      StepsLeave(s, now);
      NextPatch(s, steps, Touch(now).(resources := Some(SuppliedResources(phone, account))));
      SuppliedAreNamed(phone, account);
      assert steps + [] == steps;
    }
  }

  lemma MarkMetaFailedExactly(st: Store, id: string, now: int)
    requires id in st.setups
    ensures var reply, s := Perform(st, id, Command.MarkMetaFailed, now), Seen(st.setups[id], now);
      && AnswersWith(reply, id, true, Conflict)
      && Leaves(st, reply.0, id,
           if InProgress(s.state)
           then s.(state := Failed, diagnostic := Some("meta_onboarding_failed"), updatedAt := now) else s)
  {
    var s := Seen(st.setups[id], now);
    PlanLeaves(st, id, Command.MarkMetaFailed, now);
    OnePatch(s, Move(Failed, now).(diagnostic := FAILURE));
  }

  /** Everything not ready can be cancelled, except a Meta setup whose Graph work is under way. */
  lemma CancelExactly(st: Store, id: string, now: int)
    requires id in st.setups
    ensures var reply, s := Perform(st, id, Command.Cancel, now), Seen(st.setups[id], now);
      && (reply.1 == Err(InvalidTransition) <==> s.state == Ready)
      && (reply.1 == Err(Conflict) <==> s.state == Provisioning && s.provider == "meta")
      && (reply.1.Ok? <==> s.state != Ready && !(s.state == Provisioning && s.provider == "meta"))
      && (reply.1.Ok? ==> id in reply.0.setups && reply.1.value == reply.0.setups[id])
      && Leaves(st, reply.0, id,
           if reply.1.Ok? && InProgress(s.state) then
             if s.resources == [] then s.(state := Cancelled, cleanupRequired := false, updatedAt := now)
             else s.(state := CleanupPending, cleanupRequired := true, cleanupFinalState := Some(Cancelled),
                     updatedAt := now)
           else s)
  {
    var s := Seen(st.setups[id], now);
    PlanLeaves(st, id, Command.Cancel, now);
    OnePatch(s, CancelMove(s, now));
  }

  /** provision_evolution up to its first await. */
  lemma BeginEvolutionExactly(st: Store, id: string, now: int)
    requires id in st.setups
    ensures var reply, s := Perform(st, id, Command.BeginEvolution, now), Seen(st.setups[id], now);
      var allowed := s.provider == "evolution" && (s.state == Draft || s.state == Provisioning || s.state == Ready);
      && AnswersWith(reply, id, allowed, Conflict)
      && Leaves(st, reply.0, id,
           if allowed && s.state == Draft then s.(state := Provisioning, updatedAt := now) else s)
  {
    var s := Seen(st.setups[id], now);
    PlanLeaves(st, id, Command.BeginEvolution, now);
    OnePatch(s, Move(Provisioning, now));
  }

  // --------------------------------------------------------------- completion

  /** The setup is ready and its connection is filed under its runtime name, no longer deleted. */
  predicate Publishes(st: Store, after: Store, id: string, s: Setup, connectionId: string, details: string, now: int) {
    && after.setups == st.setups[id := s.(state := Ready, connectionId := Some(connectionId), updatedAt := now)]
    && after.connections ==
         st.connections[s.runtimeName := Connection(connectionId, s.runtimeName, s.clientId, now, now, details)]
    && after.deleted == st.deleted - {s.runtimeName} && after.clients == st.clients
  }

  /** When a completion publishes, and what it answers when it does not. */
  predicate Completes(st: Store, id: string, s: Setup, reply: Reply, right: bool, resources: seq<Resource>,
                      connectionId: string, details: string, now: int) {
    var publishable := s.runtimeName != "" && s.clientId in st.clients;
    var recorded := s.(resources := resources, updatedAt := now);
    && (reply.1 == Err(Conflict) <==> !right || (s.state != Ready && s.state != Provisioning))
    && (reply.1 == Err(NotFound) <==> right && s.state == Provisioning && !publishable)
    && (reply.1.Ok? <==> right && (s.state == Ready || (s.state == Provisioning && publishable)))
    && (reply.1.Ok? ==> id in reply.0.setups && reply.1.value == reply.0.setups[id])
    && (if right && s.state == Provisioning then
          if publishable then Publishes(st, reply.0, id, recorded, connectionId, details, now)
          else Leaves(st, reply.0, id, recorded)
        else Leaves(st, reply.0, id, s))
  }

  lemma CompletionLeaves(st: Store, id: string, cmd: Command, s: Setup, right: bool, resources: seq<Resource>,
                         connectionId: string, details: string, now: int)
    requires id in st.setups && s == Seen(st.setups[id], now)
    requires PlanFor(cmd, s, now) ==
      if right then Completion(s, resources, connectionId, details, now) else Plan([], None, Some(Conflict))
    ensures Completes(st, id, s, Perform(st, id, cmd, now), right, resources, connectionId, details, now)
  {
    var p := Touch(now).(resources := Some(resources));
    if right && s.state == Provisioning {
      ExpiryExactly(st, id, now);
      var looked := ExpireIfDue(st, id, now);
      ApplyOne(looked, id, p);
      assert UpdateSetup(looked, id, p).setups == st.setups[id := s.(resources := resources, updatedAt := now)];
    } else {
      PlanLeaves(st, id, cmd, now);
    }
  }

  lemma CompleteMetaExactly(st: Store, id: string, phone: string, account: string, connectionId: string, now: int)
    requires id in st.setups
    ensures var s := Seen(st.setups[id], now);
      Completes(st, id, s, Perform(st, id, Command.CompleteMeta(phone, account, connectionId), now),
        s.provider == "meta",
        [Resource("meta_phone_number", phone, false), Resource("meta_business_account", account, false)],
        connectionId, "", now)
  {
    var s := Seen(st.setups[id], now);
    CompletionLeaves(st, id, Command.CompleteMeta(phone, account, connectionId), s, s.provider == "meta",
      [Resource("meta_phone_number", phone, false), Resource("meta_business_account", account, false)],
      connectionId, "", now);
  }

  lemma CompleteInstagramExactly(st: Store, id: string, account: string, metadata: string, connectionId: string,
                                 now: int)
    requires id in st.setups
    ensures var s := Seen(st.setups[id], now);
      Completes(st, id, s, Perform(st, id, Command.CompleteInstagram(account, metadata, connectionId), now),
        s.provider == "meta" && s.channel == "instagram", [Resource("meta_instagram_account", account, false)],
        connectionId, metadata, now)
  {
    var s := Seen(st.setups[id], now);
    CompletionLeaves(st, id, Command.CompleteInstagram(account, metadata, connectionId), s,
      s.provider == "meta" && s.channel == "instagram", [Resource("meta_instagram_account", account, false)],
      connectionId, metadata, now);
  }

  // --------------------------------------------------------------- transitions

  /** The transition table, read column by column. */
  predicate InTable(from: State, to: State) {
    match to
    case Draft => false
    case Onboarding => from == Draft || from == Failed
    case Provisioning => from == Draft || from == Onboarding
    case Ready => from == Provisioning
    case Failed => InProgress(from)
    case Cancelled => InProgress(from) || from == Failed
    case CleanupPending => from != CleanupPending && from != Ready
    case Expired => InProgress(from)
  }

  /** A move from a record in hand goes by that record's state and writes the stored one. */
  lemma TransitionExactly(st: Store, s: Setup, p: Patch)
    requires p.state.Some?
    ensures var to, (after, answer) := p.state.value, TransitionFrom(st, s, p);
      if to == s.state then after == st && answer == Ok(s)
      else if !InTable(s.state, to) then after == st && answer == Err(InvalidTransition)
      else if s.id !in st.setups then after == st && answer == Err(NotFound)
      else Leaves(st, after, s.id, Patched(st.setups[s.id], p)) && answer == Ok(Patched(st.setups[s.id], p))
  {
  }

  // ------------------------------------------------------------------- create

  ghost predicate HasKey(st: Store, id: string, clientId: string, key: string) {
    id in st.setups && st.setups[id].clientId == clientId && st.setups[id].idempotencyKey == Some(key)
  }

  ghost predicate FirstUnderKey(st: Store, order: seq<string>, i: nat, clientId: string, key: string) {
    && i < |order| && HasKey(st, order[i], clientId, key)
    && forall k :: 0 <= k < i ==> !HasKey(st, order[k], clientId, key)
  }

  predicate Offered(channel: string, provider: string) {
    || (channel == "whatsapp" && provider == "meta")
    || (channel == "whatsapp" && provider == "evolution")
    || (channel == "instagram" && provider == "meta")
  }

  predicate IsDraft(s: Setup, r: CreateRequest, key: string, now: int) {
    && s.id == r.id && s.clientId == r.clientId && s.provider == r.provider && s.channel == r.channel
    && s.state == Draft && s.createdAt == now && s.updatedAt == now
    && s.expiresAt == now + (if r.ttlSeconds < 60 then 60 else r.ttlSeconds)
    && s.idempotencyKey == (if key == "" then None else Some(key))
    && s.name == (if Strip(r.name) != "" then Strip(r.name)
                  else if r.channel == "instagram" then "Instagram"
                  else if r.provider == "meta" then "WhatsApp Oficial" else "WhatsApp Evolution")
    && |s.runtimeName| >= 6 && s.runtimeName[..6] == "setup_"
    && s.resources == [] && !s.cleanupRequired && s.cleanupFinalState == None && s.cleanup == None
    && s.diagnostic == None && s.connectionId == None
  }

  lemma {:induction false} KeyedFrom(st: Store, order: seq<string>, clientId: string, key: string, i: nat)
    requires FirstUnderKey(st, order, i, clientId, key)
    ensures KeyedSetup(st, order, clientId, key) == Some(order[i])
  {
    if i > 0 {
      assert !HasKey(st, order[0], clientId, key);
      assert forall k :: 0 <= k < i - 1 ==> order[1..][k] == order[k + 1];
      KeyedFrom(st, order[1..], clientId, key, i - 1);
    }
  }

  lemma {:induction false} NotKeyed(st: Store, order: seq<string>, clientId: string, key: string)
    requires forall id :: id in order ==> !HasKey(st, id, clientId, key)
    ensures KeyedSetup(st, order, clientId, key).None?
  {
    if order != [] {
      assert order[0] in order;
      NotKeyed(st, order[1..], clientId, key);
    }
  }

  /** Refused requests, in the order they are checked; nothing is written. */
  lemma CreateRefuses(st: Store, order: seq<string>, r: CreateRequest, now: int)
    ensures r.clientId !in st.clients ==> CreateSetup(st, order, r, now) == (st, Err(NotFound))
    ensures r.clientId in st.clients && !(r.available && Offered(r.channel, r.provider)) ==>
      CreateSetup(st, order, r, now) == (st, Err(Unsupported))
  {
  }

  /** A key in use: the setup under it, as its due expiry leaves it, or a conflict. */
  lemma CreateUnderKey(st: Store, order: seq<string>, r: CreateRequest, now: int, i: nat)
    requires r.clientId in st.clients && r.available && Offered(r.channel, r.provider)
    requires Strip(r.idempotencyKey) != "" && FirstUnderKey(st, order, i, r.clientId, Strip(r.idempotencyKey))
    ensures var (after, answer) := CreateSetup(st, order, r, now);
      var s := st.setups[order[i]];
      if s.provider == r.provider && s.channel == r.channel
      then Leaves(st, after, order[i], Seen(s, now)) && answer == Ok(Seen(s, now))
      else after == st && answer == Err(Conflict)
  {
    KeyedFrom(st, order, r.clientId, Strip(r.idempotencyKey), i);
    RawExactly(st, order[i], now);
  }

  /** No key, or a free one: one new draft. */
  lemma CreateOpens(st: Store, order: seq<string>, r: CreateRequest, now: int)
    requires r.clientId in st.clients && r.available && Offered(r.channel, r.provider)
    requires var key := Strip(r.idempotencyKey);
      key == "" || forall id :: id in order ==> !HasKey(st, id, r.clientId, key)
    ensures var (after, answer) := CreateSetup(st, order, r, now);
      if r.clientId == "" || r.id == "" then after == st && answer == Err(NotFound)
      else
        && answer.Ok? && IsDraft(answer.value, r, Strip(r.idempotencyKey), now)
        && Leaves(st, after, r.id, answer.value)
  {
    if Strip(r.idempotencyKey) != "" { NotKeyed(st, order, r.clientId, Strip(r.idempotencyKey)); }
  }

  lemma {:induction false} DashesGone(s: string)
    ensures '-' !in WithoutDashes(s) && |WithoutDashes(s)| <= |s| && ('-' !in s ==> WithoutDashes(s) == s)
  {
    if s != "" {
      DashesGone(s[1..]);
      assert s == [s[0]] + s[1..];
    }
  }

  /** A runtime name is the prefix and up to 24 characters of the id, dashes dropped. */
  lemma RuntimeNameExactly(id: string)
    ensures var name := RuntimeName(id);
      && |name| <= 30 && '-' !in name && name[..6] == "setup_"
      && ('-' !in id ==> name[6..] == if |id| > 24 then id[..24] else id)
  {
    DashesGone(id);
  }

  // -------------------------------------------------------------------- sweep

  predicate OnlySetups(st: Store, after: Store) {
    && after.setups.Keys == st.setups.Keys && after.clients == st.clients
    && after.connections == st.connections && after.deleted == st.deleted
  }

  lemma {:induction false} SweepKeeps(st: Store, order: seq<string>, k: nat, now: int)
    requires k <= |order| && forall i :: 0 <= i < k ==> order[i] in st.setups
    ensures OnlySetups(st, Sweep(st, order, k, now))
  {
    if k > 0 {
      SweepKeeps(st, order, k - 1, now);
      ExpiryExactly(Sweep(st, order, k - 1, now), order[k - 1], now);
    }
  }

  /** After `k` names the setup at place `m` has expired if it was due and its turn has come. */
  lemma {:induction false} SweepLeaves(st: Store, order: seq<string>, k: nat, now: int, m: nat)
    requires k <= |order| && NoRepeats(order) && m < |order| && forall i :: 0 <= i < |order| ==> order[i] in st.setups
    ensures var after := Sweep(st, order, k, now);
      order[m] in after.setups &&
        after.setups[order[m]] == if m < k then Seen(st.setups[order[m]], now) else st.setups[order[m]]
  {
    if k > 0 {
      SweepLeaves(st, order, k - 1, now, m);
      SweepKeeps(st, order, k - 1, now);
      ExpiryExactly(Sweep(st, order, k - 1, now), order[k - 1], now);
      if order[k - 1] == order[m] { SamePlace(order, k - 1, m); }
    }
  }

  /** A sweep lets every setup expire that is due, and counts them. */
  lemma SweepExactly(st: Store, order: seq<string>, now: int)
    requires NoRepeats(order) && Elements(order) == st.setups.Keys
    ensures var after := Sweep(st, order, |order|, now);
      OnlySetups(st, after) && forall id :: id in st.setups ==> after.setups[id] == Seen(st.setups[id], now)
    ensures forall id :: id in DueSetups(st, now) <==>
      id in st.setups && InProgress(st.setups[id].state) && st.setups[id].expiresAt <= now
  {
    forall i | 0 <= i < |order| ensures order[i] in st.setups { assert order[i] in Elements(order); }
    SweepKeeps(st, order, |order|, now);
    forall id | id in st.setups
      ensures Sweep(st, order, |order|, now).setups[id] == Seen(st.setups[id], now)
      ensures id in DueSetups(st, now) <==> InProgress(st.setups[id].state) && st.setups[id].expiresAt <= now
    {
      assert id in Elements(order);
      var m :| 0 <= m < |order| && order[m] == id;
      SweepLeaves(st, order, |order|, now, m);
      ExpiryExactly(st, id, now);
    }
  }

  // ---------------------------------------------------------- evolution awaits

  /** A failed await: compensation is asked for, from the copy's state, with its own diagnostic. */
  predicate AsksForCleanup(st: Store, local: Setup, diagnostic: string, now: int, reply: Reply) {
    if local.state == CleanupPending then reply == (st, Ok(local))
    else if local.state == Ready then reply == (st, Err(InvalidTransition))
    else if local.id !in st.setups then reply == (st, Err(NotFound))
    else
      var s := st.setups[local.id].(state := CleanupPending, cleanupRequired := true, diagnostic := Some(diagnostic),
                                    updatedAt := now);
      Leaves(st, reply.0, local.id, s) && reply.1 == Ok(s)
  }

  /** After the first await. */
  lemma CreatedExactly(st: Store, local: Setup, ok: bool, now: int)
    ensures var reply := Created(st, local, ok, now);
      if !ok then AsksForCleanup(st, local, "evolution_create_uncertain", now, reply)
      else if local.id !in st.setups then reply == (st, Ok(local))
      else
        var s := st.setups[local.id].(resources := [Resource("evolution_instance", local.runtimeName, true)],
                                      updatedAt := now);
        Leaves(st, reply.0, local.id, s) && reply.1 == Ok(s)
  {
  }

  /** After the second: the stored setup becomes ready, its connection named and owned as the copy says. */
  lemma HookedExactly(st: Store, local: Setup, ok: bool, connectionId: string, now: int)
    ensures var reply := Hooked(st, local, ok, connectionId, now);
      if !ok then AsksForCleanup(st, local, "evolution_webhook_failed", now, reply)
      else if local.state != Provisioning then reply == (st, Err(InvalidTransition))
      else if local.id !in st.setups || local.runtimeName == "" || st.setups[local.id].clientId !in st.clients
      then reply == (st, Err(NotFound))
      else
        var s := st.setups[local.id].(state := Ready, connectionId := Some(connectionId), updatedAt := now);
        && reply.1 == Ok(s) && reply.0.setups == st.setups[local.id := s] && reply.0.clients == st.clients
        && reply.0.connections ==
             st.connections[local.runtimeName :=
               Connection(connectionId, local.runtimeName, local.clientId, now, now, "")]
        && reply.0.deleted == st.deleted - {local.runtimeName}
  {
  }

  // ------------------------------------------------------------------ cleanup

  /** The resource is gone: the Gateway's own instance, and the manager did not refuse. */
  predicate Gone(s: Setup, k: nat, answers: nat -> Deletion)
    requires k < |s.resources|
  {
    var r := s.resources[k];
    && r.kind == "evolution_instance" && r.ownershipConfirmed && r.identifier == s.runtimeName && s.runtimeName != ""
    && (answers(k) == Absent || answers(k) == Deletion.Deleted)
  }

  /** Why the `k`-th resource remains; empty when it is gone or nobody says why. */
  function Trouble(s: Setup, k: nat, answers: nat -> Deletion): string
    requires k < |s.resources|
  {
    var r := s.resources[k];
    if !(r.kind == "evolution_instance" && r.ownershipConfirmed && r.identifier == s.runtimeName && s.runtimeName != "")
    then "manual_verification_required"
    else if answers(k).Refused? then answers(k).error else ""
  }

  ghost predicate FirstTrouble(s: Setup, k: nat, answers: nat -> Deletion) {
    && k < |s.resources| && Trouble(s, k, answers) != ""
    && forall j: nat :: j < k ==> Trouble(s, j, answers) == ""
  }

  lemma {:induction false} FirstErrorIs(outcomes: seq<Option<string>>, k: nat)
    requires k < |outcomes| && Text(outcomes[k]) != "" && forall j :: 0 <= j < k ==> Text(outcomes[j]) == ""
    ensures FirstError(outcomes) == outcomes[k]
  {
    if k > 0 {
      assert forall j :: 0 <= j < k - 1 ==> outcomes[1..][j] == outcomes[j + 1];
      FirstErrorIs(outcomes[1..], k - 1);
    }
  }

  /** What remains is explained by the first trouble met. */
  lemma CleanupExplains(s: Setup, answers: nat -> Deletion, now: int, k: nat)
    requires FirstTrouble(s, k, answers)
    ensures var p := CleanupPatch(s, answers, now);
      p.cleanup.Some? && p.cleanup.value.lastError == Some(Trouble(s, k, answers))
  {
    var outcomes := Outcomes(s, answers);
    forall j: nat | j < |s.resources| ensures Text(outcomes[j]) == Trouble(s, j, answers) {
      assert outcomes[j] == CleanOne(s, s.resources[j], answers(j));
    }
    FirstErrorIs(outcomes, k);
    assert outcomes[k].Some?;
  }

  lemma AllGoneExactly(s: Setup, answers: nat -> Deletion)
    ensures AllGone(Outcomes(s, answers)) <==> forall k :: 0 <= k < |s.resources| ==> Gone(s, k, answers)
  {
    var outcomes := Outcomes(s, answers);
    forall k: nat | k < |s.resources| ensures outcomes[k].None? <==> Gone(s, k, answers) {
      assert outcomes[k] == CleanOne(s, s.resources[k], answers(k));
    }
  }

  lemma DelayExactly(tries: nat)
    requires tries >= 1
    ensures RetryDelay(tries) ==
      if tries == 1 then 60 else if tries == 2 then 120 else if tries == 3 then 240
      else if tries == 4 then 480 else if tries == 5 then 960 else 1920
  {
    RetryDelayIsUncapped(tries);
    assert Pow2(0) == 1 && Pow2(1) == 2 && Pow2(2) == 4 && Pow2(3) == 8 && Pow2(4) == 16 && Pow2(5) == 32;
  }

  /** An attempt on `s`, written to a stored setup: finished, or one more try after a doubled delay. */
  lemma CleanupExactly(s: Setup, answers: nat -> Deletion, now: int, stored: Setup)
    ensures var after := Patched(stored, CleanupPatch(s, answers, now));
      var tries := if s.cleanup.Some? then s.cleanup.value.attempts + 1 else 1;
      && after.updatedAt == now && after.cleanup.Some?
      && after.cleanup.value.attempts == tries && after.cleanup.value.lastAttemptAt == now
      && after.cleanupFinalState == stored.cleanupFinalState && after.diagnostic == stored.diagnostic
      && after.connectionId == stored.connectionId
      && if forall k :: 0 <= k < |s.resources| ==> Gone(s, k, answers) then
           && after.resources == [] && !after.cleanupRequired
           && after.state == (if s.cleanupFinalState.Some? then s.cleanupFinalState.value else Expired)
           && after.cleanup.value.completedAt == Some(now) && after.cleanup.value.lastError == None
         else
           && after.resources == stored.resources && after.cleanupRequired && after.state == CleanupPending
           && after.cleanup.value.nextAttemptAt ==
                Some(now + (if tries == 1 then 60 else if tries == 2 then 120 else if tries == 3 then 240
                            else if tries == 4 then 480 else if tries == 5 then 960 else 1920))
  {
    AllGoneExactly(s, answers);
    DelayExactly(Attempts(s) + 1);
  }
}
