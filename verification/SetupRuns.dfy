/**
 Runs over the registry: setup commands, expiry sweeps, cleanups and Evolution provisioning cut
 at their awaits, connection and client bookkeeping, legacy imports, in any order. What holds in
 every store such a run reaches.
 */
module SetupRuns {
  import opened Common
  import opened Registry
  import opened ConnectionSetups
  import opened SetupCleanup

  // -------------------------------------------------------------- invariants

  predicate Ended(s: State) {
    s == Cancelled || s == Expired || s == CleanupPending
  }

  /** What a setup is created with and no write changes. */
  predicate SameSetup(a: Setup, b: Setup) {
    && a.id == b.id && a.clientId == b.clientId && a.provider == b.provider && a.channel == b.channel
    && a.runtimeName == b.runtimeName && a.idempotencyKey == b.idempotencyKey && a.expiresAt == b.expiresAt
  }

  ghost predicate Unconfirmed(rs: seq<Resource>) {
    forall k :: 0 <= k < |rs| ==> !rs[k].ownershipConfirmed
  }

  /** Meta resources are never the Gateway's to delete, and a setup that expired bare stays bare. */
  ghost predicate Tidy(s: Setup) {
    && (s.cleanupFinalState.Some? ==> s.cleanupFinalState.value == Expired || s.cleanupFinalState.value == Cancelled)
    && (s.provider == "meta" ==> Unconfirmed(s.resources) && (s.state == Expired ==> s.resources == []))
  }

  predicate LegalMove(a: State, b: State) {
    a == b || b in Edges(a)
  }

  /** A write of a setup that is not a publication. */
  ghost predicate Fit(s: Setup, p: Patch) {
    && p.connectionId == None && p.state != Some(Ready)
    && Tidy(Patched(s, p))
    && (s.provider == "meta" ==> LegalMove(s.state, Patched(s, p).state))
  }

  ghost predicate GoodWrite(w: Write) {
    && SameSetup(w.before, w.after)
    && (w.before.provider == "meta" ==> LegalMove(w.before.state, w.after.state))
    && (w.published.None? && w.after.state == Ready ==>
        w.before.state == Ready && w.after.connectionId == w.before.connectionId)
    && (w.published.Some? ==>
          && w.after.state == Ready && w.after.connectionId == Some(w.published.value.id)
          && w.published.value.clientId == w.after.clientId && w.published.value.legacyName == w.after.runtimeName
          && (w.before.provider == "meta" ==> w.before.state == Provisioning && w.at < w.before.expiresAt))
  }

  /** The write leaves the setup ready and, with it, publishes its connection under its name, for its client. */
  predicate Publishes(x: Write, s: Setup) {
    && x.published.Some? && x.after.state == Ready && SameSetup(x.after, s)
    && s.connectionId == Some(x.published.value.id)
    && x.published.value.clientId == s.clientId && x.published.value.legacyName == s.runtimeName
  }

  /** The connection of a ready setup was published by the write that made it ready. */
  ghost predicate WasPublished(st: Store, s: Setup) {
    exists k :: 0 <= k < |st.writes| && Publishes(st.writes[k], s)
  }

  ghost predicate Connected(st: Store) {
    forall name :: name in st.connections ==>
      st.connections[name].legacyName == name && st.connections[name].clientId in st.clients && name !in st.deleted
  }

  predicate SameKey(a: Setup, b: Setup) {
    a.clientId == b.clientId && a.idempotencyKey.Some? && a.idempotencyKey == b.idempotencyKey
  }

  ghost predicate OnePerKey(st: Store) {
    forall a, b :: a in st.setups && b in st.setups && a != b ==> !SameKey(st.setups[a], st.setups[b])
  }

  ghost predicate GoodSetup(st: Store, id: string) {
    id in st.setups && st.setups[id].id == id && Tidy(st.setups[id]) &&
      (st.setups[id].state == Ready ==> WasPublished(st, st.setups[id]))
  }

  ghost predicate Inv(st: Store) {
    && Connected(st)
    && OnePerKey(st)
    && (forall id :: id in st.setups ==> GoodSetup(st, id))
    && (forall k :: 0 <= k < |st.writes| ==> GoodWrite(st.writes[k]))
  }

  /** What one step does to a setup that was there before. */
  ghost predicate Follows(a: Setup, b: Setup) {
    && SameSetup(a, b)
    && (a.provider == "meta" && Ended(a.state) ==> Ended(b.state))
    && (a.provider == "meta" && a.state == CleanupPending ==> b.state == CleanupPending)
  }

  ghost predicate Evolves(st: Store, after: Store) {
    forall id :: id in st.setups ==> id in after.setups && Follows(st.setups[id], after.setups[id])
  }

  lemma EvolvesTransitive(a: Store, b: Store, c: Store)
    requires Evolves(a, b) && Evolves(b, c)
    ensures Evolves(a, c)
  {
  }

  // -------------------------------------------------------------- one write

  lemma StillPublished(st: Store, after: Store, id: string)
    requires id in st.setups && WasPublished(st, st.setups[id])
    requires |after.writes| == |st.writes| + 1 && after.writes[..|st.writes|] == st.writes
    requires id in after.setups && SameSetup(st.setups[id], after.setups[id])
    requires after.setups[id].connectionId == st.setups[id].connectionId
    ensures WasPublished(after, after.setups[id])
  {
  }

  lemma FitWriteFollows(s: Setup, p: Patch)
    requires Fit(s, p)
    ensures Follows(s, Patched(s, p)) && GoodWrite(Write(s, Patched(s, p), p.at, None))
  {
  }

  /** Writes change neither who a setup belongs to nor its key. */
  lemma KeysKept(st: Store, after: Store)
    requires OnePerKey(st) && after.setups.Keys == st.setups.Keys
    requires forall id :: id in st.setups ==> SameSetup(st.setups[id], after.setups[id])
    ensures OnePerKey(after)
  {
  }

  lemma UpdateKeepsInv(st: Store, id: string, p: Patch)
    requires Inv(st) && id in st.setups && Fit(st.setups[id], p)
    ensures Inv(UpdateSetup(st, id, p)) && Evolves(st, UpdateSetup(st, id, p))
  {
    var after := UpdateSetup(st, id, p);
    FitWriteFollows(st.setups[id], p);
    assert after.writes[..|st.writes|] == st.writes;
    forall other | other in after.setups ensures GoodSetup(after, other) {
      assert GoodSetup(st, other);
      if after.setups[other].state == Ready { StillPublished(st, after, other); }
    }
    KeysKept(st, after);
  }

  lemma PromoteWrites(st: Store, id: string, c: Connection, now: int)
    requires Inv(st) && Promotable(st, id, c)
    requires c.clientId == st.setups[id].clientId && c.legacyName == st.setups[id].runtimeName
    requires st.setups[id].provider == "meta" ==> st.setups[id].state == Provisioning && now < st.setups[id].expiresAt
    ensures var after, n := Promote(st, id, c, ReadyPatch(c.id, now)), |st.writes|;
      && |after.writes| == n + 1 && after.writes[..n] == st.writes && GoodWrite(after.writes[n])
      && WasPublished(after, after.setups[id])
      && Follows(st.setups[id], after.setups[id]) && Tidy(after.setups[id])
  {
    var after, n := Promote(st, id, c, ReadyPatch(c.id, now)), |st.writes|;
    assert GoodSetup(st, id);
    assert after.writes[n].published.Some? && SameSetup(after.writes[n].after, after.setups[id]);
  }

  lemma OneMoreGoodWrite(st: Store, after: Store)
    requires |after.writes| == |st.writes| + 1 && after.writes[..|st.writes|] == st.writes
    requires (forall k :: 0 <= k < |st.writes| ==> GoodWrite(st.writes[k])) && GoodWrite(after.writes[|st.writes|])
    ensures forall k :: 0 <= k < |after.writes| ==> GoodWrite(after.writes[k])
  {
    forall k | 0 <= k < |st.writes| ensures GoodWrite(after.writes[k]) {
      assert after.writes[k] == after.writes[..|st.writes|][k];
    }
  }

  /** Setups a write is not about stay good. */
  lemma OthersStayGood(st: Store, after: Store, id: string)
    requires forall other :: other in st.setups ==> GoodSetup(st, other)
    requires after.setups.Keys == st.setups.Keys
    requires forall other :: other in st.setups && other != id ==> after.setups[other] == st.setups[other]
    requires |after.writes| == |st.writes| + 1 && after.writes[..|st.writes|] == st.writes
    ensures forall other :: other in after.setups && other != id ==> GoodSetup(after, other)
    ensures forall other :: other in st.setups && other != id ==> Follows(st.setups[other], after.setups[other])
  {
    forall other | other in after.setups && other != id ensures GoodSetup(after, other) {
      assert GoodSetup(st, other);
      if after.setups[other].state == Ready { StillPublished(st, after, other); }
    }
  }

  lemma PromoteKeepsConnected(st: Store, id: string, c: Connection, now: int)
    requires Connected(st) && Promotable(st, id, c) && c.clientId == st.setups[id].clientId
    ensures Connected(Promote(st, id, c, ReadyPatch(c.id, now)))
  {
  }

  lemma PromoteKeepsInv(st: Store, id: string, c: Connection, now: int)
    requires Inv(st) && Promotable(st, id, c)
    requires c.clientId == st.setups[id].clientId && c.legacyName == st.setups[id].runtimeName
    requires st.setups[id].provider == "meta" ==> st.setups[id].state == Provisioning && now < st.setups[id].expiresAt
    ensures var after := Promote(st, id, c, ReadyPatch(c.id, now)); Inv(after) && Evolves(st, after)
  {
    var after := Promote(st, id, c, ReadyPatch(c.id, now));
    assert GoodSetup(st, id);
    PromoteKeepsConnected(st, id, c, now);
    PromoteWrites(st, id, c, now);
    OneMoreGoodWrite(st, after);
    OneWriteKeepsInv(st, after, id);
  }

  /** A write of one setup that is good itself, with everything else in place. */
  lemma OneWriteKeepsInv(st: Store, after: Store, id: string)
    requires Inv(st) && Connected(after) && id in st.setups && after.setups.Keys == st.setups.Keys
    requires forall other :: other in st.setups && other != id ==> after.setups[other] == st.setups[other]
    requires |after.writes| == |st.writes| + 1 && after.writes[..|st.writes|] == st.writes
    requires forall k :: 0 <= k < |after.writes| ==> GoodWrite(after.writes[k])
    requires GoodSetup(after, id) && Follows(st.setups[id], after.setups[id])
    ensures Inv(after) && Evolves(st, after)
  {
    OthersStayGood(st, after, id);
    KeysKept(st, after);
  }

  // ------------------------------------------------------------------ plans

  ghost predicate FitAll(s: Setup, ps: seq<Patch>) {
    ps == [] || (FitAll(s, ps[..|ps| - 1]) && Fit(PatchedAll(s, ps[..|ps| - 1]), ps[|ps| - 1]))
  }

  lemma {:induction false} UpdateAllKeepsInv(st: Store, id: string, ps: seq<Patch>)
    requires Inv(st) && id in st.setups && FitAll(st.setups[id], ps)
    ensures var after := UpdateAll(st, id, ps);
      Inv(after) && Evolves(st, after) && id in after.setups && after.setups[id] == PatchedAll(st.setups[id], ps)
    ensures UpdateAll(st, id, ps).clients == st.clients
  {
    if ps != [] {
      var front, last := ps[..|ps| - 1], ps[|ps| - 1];
      UpdateAllKeepsInv(st, id, front);
      UpdateKeepsInv(UpdateAll(st, id, front), id, last);
      EvolvesTransitive(st, UpdateAll(st, id, front), UpdateAll(st, id, ps));
    }
  }

  lemma FitOne(s: Setup, p: Patch)
    requires Fit(s, p)
    ensures FitAll(s, [p]) && PatchedAll(s, [p]) == Patched(s, p)
  {
  }

  lemma FitMore(s: Setup, ps: seq<Patch>, p: Patch)
    requires FitAll(s, ps) && Fit(PatchedAll(s, ps), p)
    ensures FitAll(s, ps + [p]) && PatchedAll(s, ps + [p]) == Patched(PatchedAll(s, ps), p)
  {
  }

  lemma ExpiryFits(s: Setup, now: int)
    requires Tidy(s)
    ensures FitAll(s, Expiry(s, now)) && Tidy(PatchedAll(s, Expiry(s, now)))
    ensures SameSetup(s, PatchedAll(s, Expiry(s, now)))
    ensures var after := PatchedAll(s, Expiry(s, now)); Active(after.state) ==> after == s && now < s.expiresAt
  {
    if Active(s.state) && s.expiresAt <= now { FitOne(s, ExpiryMove(s, now)); }
  }

  lemma TowardsFits(s: Setup, now: int)
    requires Tidy(s) && s.provider == "meta" && (s.state == Failed || s.state == Onboarding || s.state == Provisioning)
    ensures var ps := TowardsProvisioning(s, now);
      FitAll(s, ps) && Tidy(PatchedAll(s, ps)) && PatchedAll(s, ps).state == Provisioning &&
        PatchedAll(s, ps).provider == "meta"
  {
    var restart, claim := Move(Onboarding, now).(diagnostic := Some(None)), Move(Provisioning, now);
    if s.state == Failed {
      FitOne(s, restart);
      FitMore(s, [restart], claim);
      assert [restart] + [claim] == TowardsProvisioning(s, now);
    } else if s.state == Onboarding {
      FitOne(s, claim);
    }
  }

  /** Plans of writes that follow the transition table and publish only in time. */
  ghost predicate GoodPlan(s: Setup, plan: Plan, now: int) {
    && FitAll(s, plan.patches)
    && (plan.publish.Some? ==>
          && s.provider == "meta" && s.state == Provisioning && now < s.expiresAt
          && PatchedAll(s, plan.patches).state == Provisioning
          && plan.publish.value.clientId == s.clientId && plan.publish.value.legacyName == s.runtimeName)
  }

  lemma CompletionFits(s: Setup, resources: seq<Resource>, connectionId: string, details: string, now: int)
    requires Tidy(s) && (Active(s.state) ==> now < s.expiresAt) && s.provider == "meta" && Unconfirmed(resources)
    ensures GoodPlan(s, Completion(s, resources, connectionId, details, now), now)
  {
    if s.state == Provisioning { FitOne(s, Touch(now).(resources := Some(resources))); }
  }

  lemma BeginMetaProvisioningFits(s: Setup, phone: string, account: string, now: int)
    requires Tidy(s)
    ensures GoodPlan(s, PlanFor(BeginMetaProvisioning(phone, account), s, now), now)
  {
    if PlanFor(BeginMetaProvisioning(phone, account), s, now).error.None? {
      TowardsFits(s, now);
      var ps, p := TowardsProvisioning(s, now), Touch(now).(resources := Some(SuppliedResources(phone, account)));
      if account != "" { FitMore(s, ps, p); } else { assert ps + [] == ps; }
    }
  }

  lemma PlanFits(cmd: Command, s: Setup, now: int)
    requires Tidy(s) && (Active(s.state) ==> now < s.expiresAt)
    ensures GoodPlan(s, PlanFor(cmd, s, now), now)
  {
    match cmd
    case Raw =>
    case BeginMetaProvisioning(phone, account) => BeginMetaProvisioningFits(s, phone, account, now);
    case CompleteMeta(phone, account, connectionId) =>
      if s.provider == "meta" { CompletionFits(s, MetaResources(phone, account), connectionId, "", now); }
    case CompleteInstagram(account, details, connectionId) =>
      if s.provider == "meta" {
        CompletionFits(s, [Resource("meta_instagram_account", account, false)], connectionId, details, now);
      }
    case _ =>
      var plan := PlanFor(cmd, s, now);
      if plan.patches != [] { FitOne(s, plan.patches[0]); }
  }

  lemma {:induction false} FitAllSame(s: Setup, ps: seq<Patch>)
    requires FitAll(s, ps)
    ensures SameSetup(s, PatchedAll(s, ps))
  {
    if ps != [] { FitAllSame(s, ps[..|ps| - 1]); }
  }

  lemma ExpireKeepsInv(st: Store, id: string, now: int)
    requires Inv(st)
    ensures var after := ExpireIfDue(st, id, now); Inv(after) && Evolves(st, after)
    ensures var after := ExpireIfDue(st, id, now);
      id in st.setups ==> id in after.setups && (Active(after.setups[id].state) ==> now < after.setups[id].expiresAt)
  {
    if id in st.setups {
      assert GoodSetup(st, id);
      ExpiryFits(st.setups[id], now);
      UpdateAllKeepsInv(st, id, Expiry(st.setups[id], now));
    }
  }

  lemma CarryKeepsInv(st: Store, id: string, plan: Plan, now: int)
    requires Inv(st) && id in st.setups && GoodPlan(st.setups[id], plan, now)
    ensures var after := Carry(st, id, plan, now).0; Inv(after) && Evolves(st, after)
  {
    FitAllSame(st.setups[id], plan.patches);
    UpdateAllKeepsInv(st, id, plan.patches);
    var written := UpdateAll(st, id, plan.patches);
    if plan.error.None? && plan.publish.Some? && Promotable(written, id, plan.publish.value) {
      PromoteKeepsInv(written, id, plan.publish.value, now);
      EvolvesTransitive(st, written, Carry(st, id, plan, now).0);
    }
  }

  lemma PerformKeepsInv(st: Store, id: string, cmd: Command, now: int)
    requires Inv(st)
    ensures var after := Perform(st, id, cmd, now).0; Inv(after) && Evolves(st, after)
  {
    if id in st.setups {
      var looked := ExpireIfDue(st, id, now);
      ExpireKeepsInv(st, id, now);
      assert GoodSetup(looked, id);
      PlanFits(cmd, looked.setups[id], now);
      CarryKeepsInv(looked, id, PlanFor(cmd, looked.setups[id], now), now);
      EvolvesTransitive(st, looked, Perform(st, id, cmd, now).0);
    }
  }

  lemma {:induction false} SweepKeepsInv(st: Store, order: seq<string>, k: nat, now: int)
    requires Inv(st) && k <= |order|
    ensures Inv(Sweep(st, order, k, now)) && Evolves(st, Sweep(st, order, k, now))
  {
    if k > 0 {
      SweepKeepsInv(st, order, k - 1, now);
      ExpireKeepsInv(Sweep(st, order, k - 1, now), order[k - 1], now);
      EvolvesTransitive(st, Sweep(st, order, k - 1, now), Sweep(st, order, k, now));
    }
  }
}
