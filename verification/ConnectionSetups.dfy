/**
 The life of a connection setup before it becomes inventory. Each service method without an
 await is one atomic command: it reads the stored setup, first lets it expire if it is due, and
 makes the writes of its plan. provision_evolution awaits twice, so it is three commands that
 carry a local copy of the record across the awaits.
 */
module ConnectionSetups {
  import opened Common
  import opened Registry

  datatype SetupError = NotFound | Conflict | InvalidTransition | Unsupported

  predicate Active(s: State) {
    s == Draft || s == Onboarding || s == Provisioning
  }

  function Edges(s: State): set<State> {
    match s
    case Draft => {Onboarding, Provisioning, Failed, Cancelled, CleanupPending, Expired}
    case Onboarding => {Provisioning, Failed, Cancelled, CleanupPending, Expired}
    case Provisioning => {Ready, Failed, Cancelled, CleanupPending, Expired}
    case Failed => {Onboarding, Cancelled, CleanupPending}
    case Cancelled => {CleanupPending}
    case Expired => {CleanupPending}
    case CleanupPending => {}
    case Ready => {}
  }

  datatype Command =
    | Raw
    | BeginMeta
    | BeginMetaProvisioning(phone: string, account: string)
    | CompleteMeta(phone: string, account: string, connectionId: string)
    | CompleteInstagram(account: string, metadata: string, connectionId: string)
    | MarkMetaFailed
    | Cancel
    | BeginEvolution

  /** The writes a command makes on its setup, in order, and how it ends. */
  datatype Plan = Plan(patches: seq<Patch>, publish: Option<Connection>, error: Option<SetupError>)

  function PatchedAll(s: Setup, ps: seq<Patch>): Setup {
    if ps == [] then s else Patched(PatchedAll(s, ps[..|ps| - 1]), ps[|ps| - 1])
  }

  function Move(to: State, at: int): Patch {
    Touch(at).(state := Some(to))
  }

  function ExpiryMove(s: Setup, now: int): Patch {
    if s.resources != []
    then Move(CleanupPending, now).(cleanupRequired := Some(true), cleanupFinalState := Some(Expired))
    else Move(Expired, now)
  }

  function Expiry(s: Setup, now: int): seq<Patch> {
    if Active(s.state) && s.expiresAt <= now then [ExpiryMove(s, now)] else []
  }

  function MetaResources(phone: string, account: string): seq<Resource> {
    [Resource("meta_phone_number", phone, false), Resource("meta_business_account", account, false)]
  }

  function SuppliedResources(phone: string, account: string): seq<Resource> {
    if phone != "" then MetaResources(phone, account) else [Resource("meta_business_account", account, false)]
  }

  function PublishedConnection(s: Setup, connectionId: string, details: string, now: int): Connection {
    Connection(connectionId, s.runtimeName, s.clientId, now, now, details)
  }

  function ReadyPatch(connectionId: string, now: int): Patch {
    Move(Ready, now).(connectionId := Some(connectionId))
  }

  /** The steps a meta login still has to make before Graph work may start. */
  function TowardsProvisioning(s: Setup, now: int): seq<Patch> {
    if s.state == Failed then [Move(Onboarding, now).(diagnostic := Some(None)), Move(Provisioning, now)]
    else if s.state == Onboarding then [Move(Provisioning, now)]
    else []
  }

  function Completion(s: Setup, resources: seq<Resource>, connectionId: string, details: string, now: int): Plan {
    if s.state == Ready then Plan([], None, None)
    else if s.state != Provisioning then Plan([], None, Some(Conflict))
    else
      Plan([Touch(now).(resources := Some(resources))],
           Some(PublishedConnection(s, connectionId, details, now)), None)
  }

  const FAILURE := Some(Some("meta_onboarding_failed"))

  function CancelMove(s: Setup, now: int): Patch {
    if s.resources != []
    then Move(CleanupPending, now).(cleanupRequired := Some(true), cleanupFinalState := Some(Cancelled))
    else Move(Cancelled, now).(cleanupRequired := Some(false))
  }

  /** What a command does to a setup that has just been given the chance to expire. */
  function PlanFor(cmd: Command, s: Setup, now: int): Plan {
    match cmd
    case Raw => Plan([], None, None)
    case BeginMeta =>
      if s.provider != "meta" then Plan([], None, Some(Conflict))
      else Plan(if s.state == Draft then [Move(Onboarding, now)] else [], None, None)
    case BeginMetaProvisioning(phone, account) =>
      if s.provider != "meta" then Plan([], None, Some(Conflict))
      else if s.state != Failed && s.state != Onboarding && s.state != Provisioning then Plan([], None, Some(Conflict))
      else
        var touch := Touch(now).(resources := Some(SuppliedResources(phone, account)));
        var supplied := if account != "" then [touch] else [];
        Plan(TowardsProvisioning(s, now) + supplied, None, None)
    case CompleteMeta(phone, account, connectionId) =>
      if s.provider != "meta" then Plan([], None, Some(Conflict))
      else Completion(s, MetaResources(phone, account), connectionId, "", now)
    case CompleteInstagram(account, metadata, connectionId) =>
      if s.provider != "meta" || s.channel != "instagram" then Plan([], None, Some(Conflict))
      else Completion(s, [Resource("meta_instagram_account", account, false)], connectionId, metadata, now)
    case MarkMetaFailed =>
      Plan(if Active(s.state) then [Move(Failed, now).(diagnostic := FAILURE)] else [], None, None)
    case Cancel =>
      if s.state == Cancelled || s.state == CleanupPending || s.state == Expired || s.state == Failed then
        Plan([], None, None)
      else if s.state == Ready then Plan([], None, Some(InvalidTransition))
      else if s.state == Provisioning && s.provider == "meta" then Plan([], None, Some(Conflict))
      else Plan([CancelMove(s, now)], None, None)
    case BeginEvolution =>
      if s.provider != "evolution" then Plan([], None, Some(Conflict))
      else if s.state == Draft then Plan([Move(Provisioning, now)], None, None)
      else if s.state == Ready || s.state == Provisioning then Plan([], None, None)
      else Plan([], None, Some(Conflict))
  }

  // --------------------------------------------------------- effect on a store

  function UpdateAll(st: Store, id: string, ps: seq<Patch>): Store {
    if ps == [] then st else UpdateSetup(UpdateAll(st, id, ps[..|ps| - 1]), id, ps[|ps| - 1])
  }

  function ExpireIfDue(st: Store, id: string, now: int): Store {
    if id in st.setups then UpdateAll(st, id, Expiry(st.setups[id], now)) else st
  }

  type Reply = (Store, Result<Setup, SetupError>)

  function Carry(st: Store, id: string, plan: Plan, now: int): Reply {
    var st := UpdateAll(st, id, plan.patches);
    if plan.error.Some? then (st, Err(plan.error.value))
    else if plan.publish.Some? then
      var c := plan.publish.value;
      var st' := Promote(st, id, c, ReadyPatch(c.id, now));
      (st', if Promotable(st, id, c) then Ok(st'.setups[id]) else Err(NotFound))
    else if id in st.setups then (st, Ok(st.setups[id]))
    else (st, Err(NotFound))
  }

  function Perform(st: Store, id: string, cmd: Command, now: int): Reply {
    if id !in st.setups then (st, Err(NotFound))
    else
      var st := ExpireIfDue(st, id, now);
      if id !in st.setups then (st, Err(NotFound)) else Carry(st, id, PlanFor(cmd, st.setups[id], now), now)
  }

  // ------------------------------------------------------------------- create

  datatype CreateRequest = CreateRequest(
    id: string,
    clientId: string,
    channel: string,
    provider: string,
    name: string,
    idempotencyKey: string,
    available: bool,
    ttlSeconds: int)

  predicate SupportedPair(channel: string, provider: string) {
    (channel == "whatsapp" && (provider == "meta" || provider == "evolution")) ||
      (channel == "instagram" && provider == "meta")
  }

  function DefaultName(channel: string, provider: string): string {
    if channel == "instagram" then "Instagram"
    else if provider == "meta" then "WhatsApp Oficial"
    else "WhatsApp Evolution"
  }

  function WithoutDashes(s: string): string {
    if s == "" then "" else (if s[0] == '-' then "" else [s[0]]) + WithoutDashes(s[1..])
  }

  function RuntimeName(id: string): string {
    var hex := WithoutDashes(id);
    "setup_" + if |hex| > 24 then hex[..24] else hex
  }

  function NewSetup(r: CreateRequest, now: int): Setup {
    var key, name := Strip(r.idempotencyKey), Strip(r.name);
    Setup(r.id, r.clientId, if name == "" then DefaultName(r.channel, r.provider) else name,
      r.provider, r.channel, Draft,
      now, now, now + Max(60, r.ttlSeconds), if key == "" then None else Some(key), RuntimeName(r.id),
      [], false, None, None, None, None)
  }

  /** The first setup, in walking order, of this client under this key. */
  function KeyedSetup(st: Store, order: seq<string>, clientId: string, key: string): Option<string> {
    if order == [] then None
    else if order[0] in st.setups && st.setups[order[0]].clientId == clientId &&
      st.setups[order[0]].idempotencyKey == Some(key)
    then Some(order[0])
    else KeyedSetup(st, order[1..], clientId, key)
  }

  function CreateSetup(st: Store, order: seq<string>, r: CreateRequest, now: int): Reply {
    var key := Strip(r.idempotencyKey);
    var existing := if key == "" then None else KeyedSetup(st, order, r.clientId, key);
    if r.clientId !in st.clients then (st, Err(NotFound))
    else if !r.available || !SupportedPair(r.channel, r.provider) then (st, Err(Unsupported))
    else if existing.Some? && existing.value in st.setups then
      var s := st.setups[existing.value];
      if s.provider != r.provider || s.channel != r.channel then (st, Err(Conflict))
      else Perform(st, existing.value, Raw, now)
    else
      var st' := SaveSetup(st, NewSetup(r, now));
      (st', if r.clientId == "" || r.id == "" then Err(NotFound) else Ok(NewSetup(r, now)))
  }

  // ------------------------------------------------------------ expiry sweep

  function Sweep(st: Store, order: seq<string>, k: nat, now: int): Store
    requires k <= |order|
  {
    if k == 0 then st else ExpireIfDue(Sweep(st, order, k - 1, now), order[k - 1], now)
  }

  // --------------------------------------------------------- evolution awaits

  datatype Call = Creating(local: Setup) | Hooking(local: Setup)

  const UNCERTAIN := Some(Some("evolution_create_uncertain"))
  const WEBHOOK_FAILED := Some(Some("evolution_webhook_failed"))

  /** `_transition_record` from a local copy: it trusts the copy's state, not the stored one. */
  function TransitionFrom(st: Store, s: Setup, p: Patch): Reply
    requires p.state.Some?
  {
    if p.state.value == s.state then (st, Ok(s))
    else if p.state.value !in Edges(s.state) then (st, Err(InvalidTransition))
    else if s.id !in st.setups then (st, Err(NotFound))
    else var st' := UpdateSetup(st, s.id, p); (st', Ok(st'.setups[s.id]))
  }

  function ResourcesOf(s: Setup): seq<Resource> {
    [Resource("evolution_instance", s.runtimeName, true)]
  }

  /** After the first await: the instance exists, or its creation is in doubt. */
  function Created(st: Store, local: Setup, ok: bool, now: int): Reply {
    if !ok then
      TransitionFrom(st, local, Move(CleanupPending, now).(cleanupRequired := Some(true), diagnostic := UNCERTAIN))
    else if local.id !in st.setups then (st, Ok(local))
    else
      var st' := UpdateSetup(st, local.id, Touch(now).(resources := Some(ResourcesOf(local))));
      (st', Ok(st'.setups[local.id]))
  }

  /** After the second await: publish from the local copy, or ask for compensation. */
  function Hooked(st: Store, local: Setup, ok: bool, connectionId: string, now: int): Reply {
    if !ok then
      TransitionFrom(st, local, Move(CleanupPending, now).(cleanupRequired := Some(true), diagnostic := WEBHOOK_FAILED))
    else if local.state != Provisioning then (st, Err(InvalidTransition))
    else
      var c := PublishedConnection(local, connectionId, "", now);
      var st' := Promote(st, local.id, c, ReadyPatch(connectionId, now));
      (st', if Promotable(st, local.id, c) then Ok(st'.setups[local.id]) else Err(NotFound))
  }

  // ------------------------------------------------------------------ service

  class ConnectionSetupService {
    const registry: ConnectionRegistry

    constructor (registry: ConnectionRegistry)
      ensures this.registry == registry
    {
      this.registry := registry;
    }

    method TransitionRecord(s: Setup, p: Patch) returns (answer: Result<Setup, SetupError>)
      requires p.state.Some?
      modifies registry
      ensures (registry.State(), answer) == TransitionFrom(old(registry.State()), s, p)
    {
      if p.state.value == s.state {
        return Ok(s);
      }
      if p.state.value !in Edges(s.state) {
        return Err(InvalidTransition);
      }
      var updated := registry.UpdateSetupRecord(s.id, p);
      if updated.None? {
        return Err(NotFound);
      }
      return Ok(updated.value);
    }

    method Expire(s: Setup, now: int) returns (answer: Result<Setup, SetupError>)
      requires Filed(registry.State()) && s.id in registry.setups && registry.setups[s.id] == s
      modifies registry
      ensures registry.State() == ExpireIfDue(old(registry.State()), s.id, now)
      ensures Filed(registry.State()) && s.id in registry.setups && answer == Ok(registry.setups[s.id])
    {
      if !Active(s.state) || s.expiresAt > now {
        return Ok(s);
      }
      ApplyOne(registry.State(), s.id, ExpiryMove(s, now));
      answer := TransitionRecord(s, ExpiryMove(s, now));
    }

    method Record(id: string, now: int) returns (answer: Result<Setup, SetupError>)
      requires Filed(registry.State())
      modifies registry
      ensures (registry.State(), answer) == Perform(old(registry.State()), id, Raw, now)
      ensures registry.State() == ExpireIfDue(old(registry.State()), id, now) && Filed(registry.State())
    {
      if id !in registry.setups {
        return Err(NotFound);
      }
      answer := Expire(registry.setups[id], now);
    }

    method BeginMeta(id: string, now: int) returns (answer: Result<Setup, SetupError>)
      requires Filed(registry.State())
      modifies registry
      ensures (registry.State(), answer) == Perform(old(registry.State()), id, Command.BeginMeta, now)
    {
      var s :- Record(id, now);
      if s.provider != "meta" {
        return Err(Conflict);
      }
      if s.state == Draft {
        ApplyOne(registry.State(), id, Move(Onboarding, now));
        answer := TransitionRecord(s, Move(Onboarding, now));
      } else {
        answer := Ok(s);
      }
    }

    /** A failed login starts over; a login under way claims the callback. */
    method MoveTowardsProvisioning(record: Setup, now: int) returns (s: Setup)
      requires Filed(registry.State()) && record.id in registry.setups && registry.setups[record.id] == record
      modifies registry
      ensures registry.State() == UpdateAll(old(registry.State()), record.id, TowardsProvisioning(record, now))
      ensures Filed(registry.State()) && record.id in registry.setups && s == registry.setups[record.id]
      ensures s.state == Provisioning <==> record.state in {Failed, Onboarding, Provisioning}
    {
      s := record;
      ghost var st, restart, claim :=
        registry.State(), Move(Onboarding, now).(diagnostic := Some(None)), Move(Provisioning, now);
      ApplyOne(st, s.id, restart);
      ApplyMore(st, s.id, [restart], claim);
      ApplyOne(st, s.id, claim);
      if s.state == Failed {
        var moved :- assert TransitionRecord(s, Move(Onboarding, now).(diagnostic := Some(None)));
        s := moved;
      }
      if s.state == Onboarding {
        var moved :- assert TransitionRecord(s, Move(Provisioning, now));
        s := moved;
      }
    }

    method BeginMetaProvisioning(id: string, phone: string, account: string, now: int)
      returns (answer: Result<Setup, SetupError>)
      requires Filed(registry.State())
      modifies registry
      ensures (registry.State(), answer) ==
        Perform(old(registry.State()), id, Command.BeginMetaProvisioning(phone, account), now)
    {
      var record :- Record(id, now);
      if record.provider != "meta" {
        return Err(Conflict);
      }
      ghost var start := registry.State();
      var s := MoveTowardsProvisioning(record, now);
      if s.state != Provisioning {
        return Err(Conflict);
      }
      if account != "" {
        var p := Touch(now).(resources := Some(SuppliedResources(phone, account)));
        ApplyMore(start, id, TowardsProvisioning(record, now), p);
        var updated := registry.UpdateSetupRecord(id, p);
        s := if updated.Some? then updated.value else s;
      } else {
        assert TowardsProvisioning(record, now) + [] == TowardsProvisioning(record, now);
      }
      return Ok(s);
    }

    method Publish(s: Setup, details: string, connectionId: string, now: int)
      returns (answer: Result<Setup, SetupError>)
      modifies registry
      ensures var st, c := old(registry.State()), PublishedConnection(s, connectionId, details, now);
        if s.state != Provisioning then registry.State() == st && answer == Err(InvalidTransition)
        else
          && registry.State() == Promote(st, s.id, c, ReadyPatch(connectionId, now))
          && answer == if Promotable(st, s.id, c) then Ok(registry.setups[s.id]) else Err(NotFound)
    {
      if s.state != Provisioning {
        return Err(InvalidTransition);
      }
      var c := PublishedConnection(s, connectionId, details, now);
      var promoted := registry.PromoteSetupToConnection(s.id, c, ReadyPatch(connectionId, now));
      if promoted.None? {
        return Err(NotFound);
      }
      return Ok(promoted.value);
    }

    method Complete(s: Setup, resources: seq<Resource>, details: string, connectionId: string, now: int)
      returns (answer: Result<Setup, SetupError>)
      requires Filed(registry.State()) && s.id in registry.setups && registry.setups[s.id] == s
      modifies registry
      ensures (registry.State(), answer) ==
        Carry(old(registry.State()), s.id, Completion(s, resources, connectionId, details, now), now)
    {
      if s.state == Ready {
        return Ok(s);
      }
      if s.state != Provisioning {
        return Err(Conflict);
      }
      var p := Touch(now).(resources := Some(resources));
      ApplyOne(registry.State(), s.id, p);
      var updated := registry.UpdateSetupRecord(s.id, p);
      answer := Publish(if updated.Some? then updated.value else s, details, connectionId, now);
    }

    method CompleteMeta(id: string, phone: string, account: string, connectionId: string, now: int)
      returns (answer: Result<Setup, SetupError>)
      requires Filed(registry.State())
      modifies registry
      ensures (registry.State(), answer) ==
        Perform(old(registry.State()), id, Command.CompleteMeta(phone, account, connectionId), now)
    {
      var s :- Record(id, now);
      if s.provider != "meta" {
        return Err(Conflict);
      }
      answer := Complete(s, MetaResources(phone, account), "", connectionId, now);
    }

    method CompleteInstagram(id: string, account: string, metadata: string, connectionId: string, now: int)
      returns (answer: Result<Setup, SetupError>)
      requires Filed(registry.State())
      modifies registry
      ensures (registry.State(), answer) ==
        Perform(old(registry.State()), id, Command.CompleteInstagram(account, metadata, connectionId), now)
    {
      var s :- Record(id, now);
      if s.provider != "meta" || s.channel != "instagram" {
        return Err(Conflict);
      }
      answer := Complete(s, [Resource("meta_instagram_account", account, false)], metadata, connectionId, now);
    }

    /** provision_evolution up to its first await. */
    method StartEvolution(id: string, now: int) returns (answer: Result<Setup, SetupError>)
      requires Filed(registry.State())
      modifies registry
      ensures (registry.State(), answer) == Perform(old(registry.State()), id, Command.BeginEvolution, now)
    {
      var s :- Record(id, now);
      if s.provider != "evolution" {
        return Err(Conflict);
      }
      if s.state == Ready {
        return Ok(s);
      }
      if s.state == Draft {
        ApplyOne(registry.State(), id, Move(Provisioning, now));
        s :- TransitionRecord(s, Move(Provisioning, now));
      }
      if s.state != Provisioning {
        return Err(Conflict);
      }
      return Ok(s);
    }

    /** ... from its first await to its second, with the record it read before. */
    method AfterCreation(local: Setup, ok: bool, now: int) returns (answer: Result<Setup, SetupError>)
      modifies registry
      ensures (registry.State(), answer) == Created(old(registry.State()), local, ok, now)
    {
      if !ok {
        answer := TransitionRecord(local,
          Move(CleanupPending, now).(cleanupRequired := Some(true), diagnostic := UNCERTAIN));
        return;
      }
      var updated := registry.UpdateSetupRecord(local.id, Touch(now).(resources := Some(ResourcesOf(local))));
      return Ok(if updated.Some? then updated.value else local);
    }

    /** ... and from its second await to the end. */
    method AfterWebhook(local: Setup, ok: bool, connectionId: string, now: int)
      returns (answer: Result<Setup, SetupError>)
      modifies registry
      ensures (registry.State(), answer) == Hooked(old(registry.State()), local, ok, connectionId, now)
    {
      if !ok {
        answer := TransitionRecord(local,
          Move(CleanupPending, now).(cleanupRequired := Some(true), diagnostic := WEBHOOK_FAILED));
        return;
      }
      answer := Publish(local, "", connectionId, now);
    }

    method MarkMetaFailed(id: string, now: int) returns (answer: Result<Setup, SetupError>)
      requires Filed(registry.State())
      modifies registry
      ensures (registry.State(), answer) == Perform(old(registry.State()), id, Command.MarkMetaFailed, now)
    {
      var s :- Record(id, now);
      if !Active(s.state) {
        return Ok(s);
      }
      ApplyOne(registry.State(), id, Move(Failed, now).(diagnostic := FAILURE));
      answer := TransitionRecord(s, Move(Failed, now).(diagnostic := FAILURE));
    }

    method Cancel(id: string, now: int) returns (answer: Result<Setup, SetupError>)
      requires Filed(registry.State())
      modifies registry
      ensures (registry.State(), answer) == Perform(old(registry.State()), id, Command.Cancel, now)
    {
      var s :- Record(id, now);
      if s.state in {Cancelled, CleanupPending, Expired, Failed} {
        return Ok(s);
      }
      if s.state == Ready {
        return Err(InvalidTransition);
      }
      if s.state == Provisioning && s.provider == "meta" {
        return Err(Conflict);
      }
      ApplyOne(registry.State(), id, CancelMove(s, now));
      answer := TransitionRecord(s, CancelMove(s, now));
    }

    method Create(order: seq<string>, r: CreateRequest, now: int) returns (answer: Result<Setup, SetupError>)
      requires Filed(registry.State())
      modifies registry
      ensures (registry.State(), answer) == CreateSetup(old(registry.State()), order, r, now)
    {
      if r.clientId !in registry.clients {
        return Err(NotFound);
      }
      if !r.available || !SupportedPair(r.channel, r.provider) {
        return Err(Unsupported);
      }
      var key := Strip(r.idempotencyKey);
      if key != "" {
        var existing := FindKeyed(order, r.clientId, key);
        if existing.Some? {
          KeyedIsThere(registry.State(), order, r.clientId, key);
          var s := registry.setups[existing.value];
          if s.provider != r.provider || s.channel != r.channel {
            return Err(Conflict);
          }
          answer := Record(existing.value, now);
          return;
        }
      }
      var saved := registry.SaveSetupRecordForClient(NewSetup(r, now));
      if !saved {
        return Err(NotFound);
      }
      return Ok(NewSetup(r, now));
    }

    method FindKeyed(order: seq<string>, clientId: string, key: string) returns (id: Option<string>)
      ensures id == KeyedSetup(registry.State(), order, clientId, key)
    {
      for i := 0 to |order|
        invariant KeyedSetup(registry.State(), order, clientId, key) ==
          KeyedSetup(registry.State(), order[i..], clientId, key)
      {
        if order[i] in registry.setups && registry.setups[order[i]].clientId == clientId
           && registry.setups[order[i]].idempotencyKey == Some(key) {
          return Some(order[i]);
        }
        assert order[i..][1..] == order[i + 1..];
      }
      return None;
    }

    method SweepOne(record: Setup, now: int) returns (changed: nat)
      requires Filed(registry.State()) && record.id in registry.setups && registry.setups[record.id] == record
      modifies registry
      ensures registry.State() == ExpireIfDue(old(registry.State()), record.id, now)
      ensures changed == if Expiry(record, now) != [] then 1 else 0
    {
      if !Active(record.state) {
        return 0;
      }
      ApplyOne(registry.State(), record.id, ExpiryMove(record, now));
      var after :- assert Expire(record, now);
      return if after.state != record.state then 1 else 0;
    }

    /** The sweep reads a snapshot; it counts the setups whose state it changed. */
    method ExpireActive(order: seq<string>, now: int) returns (count: nat)
      requires Filed(registry.State()) && NoRepeats(order) && Elements(order) == registry.setups.Keys
      modifies registry
      ensures registry.State() == Sweep(old(registry.State()), order, |order|, now)
      ensures count == |DueSetups(old(registry.State()), now)|
    {
      var snapshot := registry.setups;
      ghost var start := registry.State();
      count := 0;
      for k := 0 to |order|
        invariant registry.State() == Sweep(start, order, k, now)
        invariant count == |DueAmong(start, order[..k], now)|
      {
        assert order[k] in Elements(order);
        SweepSpares(start, order, k, k, now);
        DueAmongGrows(start, order, k, now);
        var changed := SweepOne(snapshot[order[k]], now);
        count := count + changed;
      }
      assert order[..|order|] == order;
      assert DueAmong(start, order, now) == DueSetups(start, now);
    }
  }

  // -------------------------------------------------------------------- lemmas

  /** Setups are filed under their own id. */
  ghost predicate Filed(st: Store) {
    forall id :: id in st.setups ==> st.setups[id].id == id
  }

  lemma ApplyOne(st: Store, id: string, p: Patch)
    ensures UpdateAll(st, id, [p]) == UpdateSetup(st, id, p)
  {
  }

  lemma ApplyMore(st: Store, id: string, ps: seq<Patch>, p: Patch)
    ensures UpdateAll(st, id, ps + [p]) == UpdateSetup(UpdateAll(st, id, ps), id, p)
  {
  }

  lemma {:induction false} KeyedIsThere(st: Store, order: seq<string>, clientId: string, key: string)
    ensures var id := KeyedSetup(st, order, clientId, key);
      id.Some? ==>
        id.value in st.setups && st.setups[id.value].clientId == clientId &&
        st.setups[id.value].idempotencyKey == Some(key)
    ensures KeyedSetup(st, order, clientId, key).None? ==>
      forall id :: id in order && id in st.setups ==>
        !(st.setups[id].clientId == clientId && st.setups[id].idempotencyKey == Some(key))
  {
    if order != [] { KeyedIsThere(st, order[1..], clientId, key); }
  }

  /** Expiring one setup leaves the others alone, and every setup under its own id. */
  lemma ExpiryTouchesOne(st: Store, id: string, now: int)
    requires Filed(st)
    ensures var after := ExpireIfDue(st, id, now);
      && Filed(after) && after.setups.Keys == st.setups.Keys
      && forall other :: other in st.setups && other != id ==> after.setups[other] == st.setups[other]
  {
    if id in st.setups { ApplyOne(st, id, ExpiryMove(st.setups[id], now)); }
  }

  lemma {:induction false} SweepSpares(st: Store, order: seq<string>, k: nat, m: nat, now: int)
    requires Filed(st) && NoRepeats(order) && k <= m < |order| && order[m] in st.setups
    ensures var after := Sweep(st, order, k, now);
      Filed(after) && order[m] in after.setups && after.setups[order[m]] == st.setups[order[m]]
  {
    if k > 0 {
      SweepSpares(st, order, k - 1, m, now);
      ExpiryTouchesOne(Sweep(st, order, k - 1, now), order[k - 1], now);
    }
  }

  function DueAmong(st: Store, ids: seq<string>, now: int): set<string> {
    set id | id in ids && id in st.setups && Expiry(st.setups[id], now) != []
  }

  function DueSetups(st: Store, now: int): set<string> {
    set id | id in st.setups && Expiry(st.setups[id], now) != []
  }

  lemma DueAmongGrows(st: Store, order: seq<string>, k: nat, now: int)
    requires k < |order| && NoRepeats(order)
    ensures |DueAmong(st, order[..k + 1], now)| == |DueAmong(st, order[..k], now)| +
      if order[k] in st.setups && Expiry(st.setups[order[k]], now) != [] then 1 else 0
  {
    assert order[..k + 1] == order[..k] + [order[k]] && order[k] !in order[..k];
    var due := DueAmong(st, order[..k], now);
    OneMore(due, order[k]);
    assert DueAmong(st, order[..k + 1], now) ==
      if order[k] in st.setups && Expiry(st.setups[order[k]], now) != [] then due + {order[k]} else due;
  }
}
