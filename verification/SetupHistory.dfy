/**
 The history kept of stored setups is complete and linked: over any stretch of a run, each write
 of a setup starts from what the one before left, and the last one left what is stored.
 */
module SetupHistory {
  import opened Common
  import opened Registry
  import opened ConnectionSetups
  import opened SetupCleanup
  import opened SetupRuns
  import opened SetupProtocol

  /** The setup `id` as the writes from `m` to `n` leave it, when they start from `s`. */
  function Latest(ws: seq<Write>, m: nat, n: nat, id: string, s: Setup): Setup
    requires n <= |ws|
    decreases n
  {
    if n <= m then s else if ws[n - 1].after.id == id then ws[n - 1].after else Latest(ws, m, n - 1, id, s)
  }

  ghost predicate Linked(ws: seq<Write>, m: nat, k: nat, id: string, s: Setup)
    requires k < |ws|
  {
    && ws[k].after.id == ws[k].before.id
    && (ws[k].before.id == id ==> ws[k].before == Latest(ws, m, k, id, s))
  }

  /** The writes of `after` continue those of `st` and account for every change of its setups. */
  ghost predicate Accounts(st: Store, after: Store) {
    && |st.writes| <= |after.writes| && after.writes[..|st.writes|] == st.writes
    && forall id :: id in st.setups ==>
         && id in after.setups
         && after.setups[id] == Latest(after.writes, |st.writes|, |after.writes|, id, st.setups[id])
         && forall k :: |st.writes| <= k < |after.writes| ==> Linked(after.writes, |st.writes|, k, id, st.setups[id])
  }

  lemma {:induction false} SamePrefix(a: seq<Write>, b: seq<Write>, m: nat, n: nat, id: string, s: Setup)
    requires n <= |a| <= |b| && b[..|a|] == a
    ensures Latest(a, m, n, id, s) == Latest(b, m, n, id, s)
    decreases n
  {
    if m < n {
      assert b[n - 1] == a[n - 1];
      SamePrefix(a, b, m, n - 1, id, s);
    }
  }

  lemma {:induction false} Onwards(ws: seq<Write>, l: nat, m: nat, n: nat, id: string, s: Setup)
    requires l <= m <= n <= |ws|
    ensures Latest(ws, l, n, id, s) == Latest(ws, m, n, id, Latest(ws, l, m, id, s))
    decreases n
  {
    if m < n { Onwards(ws, l, m, n - 1, id, s); }
  }

  lemma LinkedOnwards(a: Store, b: Store, c: Store, id: string, k: nat)
    requires Accounts(a, b) && Accounts(b, c) && id in a.setups && |a.writes| <= k < |c.writes|
    ensures Linked(c.writes, |a.writes|, k, id, a.setups[id])
  {
    if k < |b.writes| {
      assert Linked(b.writes, |a.writes|, k, id, a.setups[id]) && c.writes[k] == b.writes[k];
      SamePrefix(b.writes, c.writes, |a.writes|, k, id, a.setups[id]);
    } else {
      assert Linked(c.writes, |b.writes|, k, id, b.setups[id]);
      Onwards(c.writes, |a.writes|, |b.writes|, k, id, a.setups[id]);
      SamePrefix(b.writes, c.writes, |a.writes|, |b.writes|, id, a.setups[id]);
    }
  }

  lemma AccountsOnwards(a: Store, b: Store, c: Store)
    requires Accounts(a, b) && Accounts(b, c)
    ensures Accounts(a, c)
  {
    assert c.writes[..|a.writes|] == a.writes by {
      forall k | 0 <= k < |a.writes| ensures c.writes[k] == a.writes[k] {
        assert c.writes[k] == b.writes[k] == b.writes[..|a.writes|][k];
      }
    }
    forall id | id in a.setups
      ensures id in c.setups
      ensures c.setups[id] == Latest(c.writes, |a.writes|, |c.writes|, id, a.setups[id])
    {
      Onwards(c.writes, |a.writes|, |b.writes|, |c.writes|, id, a.setups[id]);
      SamePrefix(b.writes, c.writes, |a.writes|, |b.writes|, id, a.setups[id]);
    }
    forall id, k: nat | id in a.setups && |a.writes| <= k < |c.writes|
      ensures Linked(c.writes, |a.writes|, k, id, a.setups[id])
    {
      LinkedOnwards(a, b, c, id, k);
    }
  }

  /** One write of one setup. */
  lemma OneWriteAccounts(st: Store, after: Store, id: string, x: Write)
    requires Filed(st) && id in st.setups && x.before == st.setups[id] && x.after.id == id
    requires after.setups == st.setups[id := x.after] && after.writes == st.writes + [x]
    ensures Accounts(st, after) && Filed(after)
  {
    var n := |st.writes|;
    assert after.writes[n] == x;
    forall other | other in st.setups
      ensures after.setups[other] == Latest(after.writes, n, n + 1, other, st.setups[other])
      ensures Linked(after.writes, n, n, other, st.setups[other])
    {
      assert Latest(after.writes, n, n, other, st.setups[other]) == st.setups[other];
    }
  }

  lemma UpdateAccounts(st: Store, id: string, p: Patch)
    requires Filed(st)
    ensures Accounts(st, UpdateSetup(st, id, p)) && Filed(UpdateSetup(st, id, p))
  {
    if id in st.setups {
      var s := Patched(st.setups[id], p);
      OneWriteAccounts(st, UpdateSetup(st, id, p), id, Write(st.setups[id], s, p.at, None));
    }
  }

  lemma PromoteAccounts(st: Store, id: string, c: Connection, p: Patch)
    requires Filed(st)
    ensures Accounts(st, Promote(st, id, c, p)) && Filed(Promote(st, id, c, p))
  {
    if Promotable(st, id, c) {
      var s := Patched(st.setups[id], p);
      OneWriteAccounts(st, Promote(st, id, c, p), id, Write(st.setups[id], s, p.at, Some(c)));
    }
  }

  lemma {:induction false} UpdatesAccount(st: Store, id: string, ps: seq<Patch>)
    requires Filed(st)
    ensures Accounts(st, UpdateAll(st, id, ps)) && Filed(UpdateAll(st, id, ps))
  {
    if ps != [] {
      var front := ps[..|ps| - 1];
      UpdatesAccount(st, id, front);
      UpdateAccounts(UpdateAll(st, id, front), id, ps[|ps| - 1]);
      AccountsOnwards(st, UpdateAll(st, id, front), UpdateAll(st, id, ps));
    }
  }

  lemma CommandAccounts(st: Store, id: string, cmd: Command, now: int)
    requires Filed(st)
    ensures Accounts(st, Perform(st, id, cmd, now).0) && Filed(Perform(st, id, cmd, now).0)
  {
    if id in st.setups {
      var seen := ExpireIfDue(st, id, now);
      UpdatesAccount(st, id, Expiry(st.setups[id], now));
      if id in seen.setups {
        var plan := PlanFor(cmd, seen.setups[id], now);
        var written := UpdateAll(seen, id, plan.patches);
        UpdatesAccount(seen, id, plan.patches);
        AccountsOnwards(st, seen, written);
        if plan.error.None? && plan.publish.Some? {
          var p := ReadyPatch(plan.publish.value.id, now);
          PromoteAccounts(written, id, plan.publish.value, p);
          AccountsOnwards(st, written, Promote(written, id, plan.publish.value, p));
        }
      }
    }
  }

  lemma {:induction false} SweepAccounts(st: Store, order: seq<string>, k: nat, now: int)
    requires Filed(st) && k <= |order|
    ensures Accounts(st, Sweep(st, order, k, now)) && Filed(Sweep(st, order, k, now))
  {
    if k > 0 {
      SweepAccounts(st, order, k - 1, now);
      var part, id := Sweep(st, order, k - 1, now), order[k - 1];
      if id in part.setups { UpdatesAccount(part, id, Expiry(part.setups[id], now)); }
      AccountsOnwards(st, part, Sweep(st, order, k, now));
    }
  }

  lemma CreateAccounts(st: Store, order: seq<string>, r: CreateRequest, now: int)
    requires Filed(st) && r.id !in st.setups
    ensures Accounts(st, CreateSetup(st, order, r, now).0)
  {
    var key := Strip(r.idempotencyKey);
    var existing := if key == "" then None else KeyedSetup(st, order, r.clientId, key);
    if existing.Some? { CommandAccounts(st, existing.value, Raw, now); }
  }

  lemma TransitionAccounts(st: Store, s: Setup, p: Patch)
    requires Filed(st) && p.state.Some?
    ensures Accounts(st, TransitionFrom(st, s, p).0)
  {
    UpdateAccounts(st, s.id, p);
  }

  lemma CreatedAccounts(st: Store, local: Setup, ok: bool, now: int)
    requires Filed(st)
    ensures Accounts(st, Created(st, local, ok, now).0)
  {
    if ok {
      UpdateAccounts(st, local.id, Touch(now).(resources := Some(ResourcesOf(local))));
    } else {
      TransitionAccounts(st, local,
        Move(CleanupPending, now).(cleanupRequired := Some(true), diagnostic := UNCERTAIN));
    }
  }

  lemma HookedAccounts(st: Store, local: Setup, ok: bool, connectionId: string, now: int)
    requires Filed(st)
    ensures Accounts(st, Hooked(st, local, ok, connectionId, now).0)
  {
    if ok {
      PromoteAccounts(st, local.id, PublishedConnection(local, connectionId, "", now), ReadyPatch(connectionId, now));
    } else {
      TransitionAccounts(st, local,
        Move(CleanupPending, now).(cleanupRequired := Some(true), diagnostic := WEBHOOK_FAILED));
    }
  }

  lemma CarriedStepAccounts(w: World, s: Step)
    requires Filed(w.store) && (s.ResumeCreated? || s.ResumeHooked? || s.EndCleanup?)
    ensures Accounts(w.store, After(w, s).store)
  {
    match s
    case ResumeCreated(call, ok, now) =>
      if call in w.calls { CreatedAccounts(w.store, w.calls[call].local, ok, now); }
    case ResumeHooked(call, ok, connectionId, now) =>
      if call in w.calls { HookedAccounts(w.store, w.calls[call].local, ok, connectionId, now); }
    case EndCleanup(id, answers, now) =>
      if id in w.cleaning { UpdateAccounts(w.store, id, CleanupPatch(w.cleaning[id], answers, now)); }
    case _ =>
  }

  lemma SoundIsFiled(w: World)
    requires Sound(w)
    ensures Filed(w.store)
  {
    forall id | id in w.store.setups ensures w.store.setups[id].id == id { assert GoodSetup(w.store, id); }
  }

  lemma NothingWritten(st: Store, after: Store)
    requires after.setups == st.setups && after.writes == st.writes
    ensures Accounts(st, after)
  {
  }

  lemma StepAccounts(w: World, s: Step)
    requires Filed(w.store) && Enabled(w, s)
    ensures Accounts(w.store, After(w, s).store)
  {
    if Bookkeeping(s) {
      BookkeepingSparesSetups(w, s);
      NothingWritten(w.store, After(w, s).store);
    } else {
      match s
      case Act(id, cmd, now) => CommandAccounts(w.store, id, cmd, now);
      case Open(order, r, now) => CreateAccounts(w.store, order, r, now);
      case ExpireAll(order, now) => SweepAccounts(w.store, order, |order|, now);
      case StartCleanup(id, now) => CommandAccounts(w.store, id, Raw, now);
      case StartProvision(_, id, now) => CommandAccounts(w.store, id, BeginEvolution, now);
      case _ => CarriedStepAccounts(w, s);
    }
  }

  /** Over any stretch of any run, the writes account for every change of the setups stored at its start. */
  lemma {:induction false} HistoryIsComplete(ws: seq<World>, ss: seq<Step>, i: nat, j: nat)
    requires Run(ws, ss) && i <= j < |ws|
    ensures Accounts(ws[i].store, ws[j].store)
  {
    if i == j {
      NothingWritten(ws[i].store, ws[j].store);
    } else {
      HistoryIsComplete(ws, ss, i, j - 1);
      Reachable(ws, ss, j - 1);
      SoundIsFiled(ws[j - 1]);
      assert Enabled(ws[j - 1], ss[j - 1]) && ws[j] == After(ws[j - 1], ss[j - 1]);
      StepAccounts(ws[j - 1], ss[j - 1]);
      AccountsOnwards(ws[i].store, ws[j - 1].store, ws[j].store);
    }
  }
}
