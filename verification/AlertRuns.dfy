/**
 Runs over the alert list: syncs with whatever is reported, acknowledgements, resolutions and
 deletions, in any order. What suppression means over a whole run.
 */
module AlertRuns {
  import opened Common
  import opened Alerts

  /** `used` holds every identifier ever drawn. */
  datatype World = World(store: Store, used: set<string>)

  datatype Step =
    | Sync(candidates: seq<Candidate>, ids: seq<string>, now: int)
    | Decide(id: string, status: Status, now: int)
    | Delete(id: string)
    | DeleteResolved

  ghost predicate OncePerFingerprint(cs: seq<Candidate>) {
    forall i, j :: 0 <= i < j < |cs| ==> cs[i].fingerprint != cs[j].fingerprint
  }

  /** Identifiers are fresh, and a report names each fingerprint once (AlertCandidates.ReportNamesEachOnce). */
  ghost predicate Enabled(w: World, s: Step) {
    s.Sync? ==>
      && |s.ids| == |s.candidates| && NoRepeats(s.ids) && Elements(s.ids) !! w.used
      && OncePerFingerprint(s.candidates)
  }

  function After(w: World, s: Step): World {
    match s
    case Sync(cs, ids, now) => if |ids| == |cs| then World(Synced(w.store, cs, ids, now), w.used + Elements(ids)) else w
    case Decide(id, status, now) => w.(store := Updated(w.store, id, status, now))
    case Delete(id) => w.(store := Deleted(w.store, id))
    case DeleteResolved => w.(store := Cleared(w.store))
  }

  ghost predicate Run(ws: seq<World>, ss: seq<Step>) {
    && |ws| == |ss| + 1
    && ws[0] == World(Store([], {}), {})
    && forall i {:trigger ss[i]} :: 0 <= i < |ss| ==> Enabled(ws[i], ss[i]) && ws[i + 1] == After(ws[i], ss[i])
  }

  // --------------------------------------------------------------- invariant

  /**
   Two stored alerts: never one identifier, and an active one shares its fingerprint with no
   active or hand-resolved one.
   */
  predicate Apart(a: Alert, b: Alert) {
    && a.id != b.id
    && (Fingerprint(a) == Fingerprint(b) ==> !(Active(a) && (Active(b) || ByHand(b))) && !(Active(b) && ByHand(a)))
  }

  ghost predicate AllApart(xs: seq<Alert>) {
    forall i, j :: 0 <= i < j < |xs| ==> Apart(xs[i], xs[j])
  }

  ghost predicate Inv(w: World) {
    AllApart(w.store.alerts) && forall a :: a in w.store.alerts ==> a.id in w.used
  }

  lemma PairApart(xs: seq<Alert>, i: nat, j: nat)
    requires AllApart(xs) && i < |xs| && j < |xs|
    ensures i != j ==> Apart(xs[i], xs[j])
  {
  }

  lemma AppendApart(xs: seq<Alert>, a: Alert)
    requires AllApart(xs) && forall x :: x in xs ==> Apart(x, a)
    ensures AllApart(xs + [a])
  {
  }

  lemma {:induction false} KeepApart(xs: seq<Alert>, k: nat, keep: Alert -> bool)
    requires AllApart(xs) && k <= |xs|
    ensures AllApart(KeepFirst(xs, k, keep))
  {
    if k > 0 {
      KeepApart(xs, k - 1, keep);
      if keep(xs[k - 1]) {
        var front, last := KeepFirst(xs, k - 1, keep), xs[k - 1];
        forall x | x in front ensures Apart(x, last) { KeptFirst(xs, k - 1, keep, x); }
        AppendApart(front, last);
      }
    }
  }

  lemma SettleApart(xs: seq<Alert>, live: set<string>, now: int)
    requires AllApart(xs)
    ensures AllApart(SettleAll(xs, live, now))
  {
  }

  lemma RaisedApart(xs: seq<Alert>, cs: seq<Candidate>, ids: seq<string>, k: nat, now: int, quiet: set<string>)
    requires |ids| == |cs| && k < |cs| && OncePerFingerprint(cs) && NoRepeats(ids) && cs[k].fingerprint !in quiet
    requires forall a :: a in xs ==> a.id !in ids && (Active(a) || ByHand(a) ==> Fingerprint(a) in quiet)
    ensures forall x :: x in xs + RaisedFirst(cs, ids, k, now, quiet) ==> Apart(x, NewAlert(cs[k], ids[k], now))
  {
    var front, a := RaisedFirst(cs, ids, k, now, quiet), NewAlert(cs[k], ids[k], now);
    assert a.id in ids;
    forall x | x in xs + front ensures Apart(x, a) {
      if x in front {
        RaisedFirstAre(cs, ids, k, now, quiet, x);
        var i :| 0 <= i < k && x == NewAlert(cs[i], ids[i], now);
        assert cs[i].fingerprint != cs[k].fingerprint && ids[i] != ids[k];
      }
    }
  }

  lemma {:induction false} RaiseApart(xs: seq<Alert>, cs: seq<Candidate>, ids: seq<string>, k: nat, now: int,
                                      quiet: set<string>)
    requires AllApart(xs) && |ids| == |cs| && k <= |cs| && OncePerFingerprint(cs) && NoRepeats(ids)
    requires forall a :: a in xs ==> a.id !in ids && (Active(a) || ByHand(a) ==> Fingerprint(a) in quiet)
    ensures AllApart(xs + RaisedFirst(cs, ids, k, now, quiet))
  {
    if k == 0 {
      assert xs + [] == xs;
    } else {
      var front := RaisedFirst(cs, ids, k - 1, now, quiet);
      RaiseApart(xs, cs, ids, k - 1, now, quiet);
      if cs[k - 1].fingerprint in quiet {
        assert front + [] == front;
      } else {
        var a := NewAlert(cs[k - 1], ids[k - 1], now);
        RaisedApart(xs, cs, ids, k - 1, now, quiet);
        AppendApart(xs + front, a);
        assert xs + (front + [a]) == (xs + front) + [a];
      }
    }
  }

  lemma SyncKeepsInv(w: World, s: Step)
    requires Inv(w) && Enabled(w, s) && s.Sync?
    ensures Inv(After(w, s))
  {
    var live := Reported(s.candidates);
    var quiet, settled := Quiet(w.store, live), SettleAll(w.store.alerts, live, s.now);
    SettleApart(w.store.alerts, live, s.now);
    SettledAre(w.store.alerts, live, s.now);
    forall a | a in settled ensures a.id !in s.ids && a.id in w.used &&
      (Active(a) || ByHand(a) ==> Fingerprint(a) in quiet) {
      var x :| x in w.store.alerts && a == Settled(x, live, s.now);
      assert a.id in w.used && a.id !in Elements(s.ids);
    }
    RaiseApart(settled, s.candidates, s.ids, |s.candidates|, s.now, quiet);
    forall a | a in Raised(s.candidates, s.ids, s.now, quiet) ensures a.id in Elements(s.ids) {
      RaisedAre(s.candidates, s.ids, s.now, quiet, a);
    }
  }

  lemma DecideKeepsInv(w: World, s: Step)
    requires Inv(w) && s.Decide?
    ensures Inv(After(w, s))
  {
  }

  lemma StepKeepsInv(w: World, s: Step)
    requires Inv(w) && Enabled(w, s)
    ensures Inv(After(w, s))
  {
    match s
    case Sync(_, _, _) => SyncKeepsInv(w, s);
    case Decide(_, _, _) => DecideKeepsInv(w, s);
    case Delete(id) => KeepApart(w.store.alerts, |w.store.alerts|, (a: Alert) => a.id != id);
    case DeleteResolved => KeepApart(w.store.alerts, |w.store.alerts|, Active);
  }

  lemma {:induction false} Reachable(ws: seq<World>, ss: seq<Step>, n: nat)
    requires Run(ws, ss) && n < |ws|
    ensures Inv(ws[n])
  {
    if n > 0 {
      Reachable(ws, ss, n - 1);
      assert Enabled(ws[n - 1], ss[n - 1]) && ws[n] == After(ws[n - 1], ss[n - 1]);
      StepKeepsInv(ws[n - 1], ss[n - 1]);
    }
  }

  /** Every reachable list has at most one active alert of a fingerprint. */
  lemma OneActiveEach(ws: seq<World>, ss: seq<Step>, n: nat, i: nat, j: nat)
    requires Run(ws, ss) && n < |ws| && i < |ws[n].store.alerts| && j < |ws[n].store.alerts|
    requires Active(ws[n].store.alerts[i]) && Active(ws[n].store.alerts[j])
    requires Fingerprint(ws[n].store.alerts[i]) == Fingerprint(ws[n].store.alerts[j])
    ensures i == j
  {
    Reachable(ws, ss, n);
    PairApart(ws[n].store.alerts, i, j);
  }

  /** While a record resolved by hand is stored, no alert of its fingerprint is active, whatever is reported. */
  lemma HandResolvedStaysQuiet(ws: seq<World>, ss: seq<Step>, n: nat, a: Alert, b: Alert)
    requires Run(ws, ss) && n < |ws| && a in ws[n].store.alerts && b in ws[n].store.alerts
    requires ByHand(a) && Fingerprint(a) == Fingerprint(b)
    ensures !Active(b)
  {
    Reachable(ws, ss, n);
    var xs := ws[n].store.alerts;
    var i, j :| 0 <= i < |xs| && 0 <= j < |xs| && xs[i] == a && xs[j] == b;
    PairApart(xs, i, j);
  }

  // ------------------------------------------------------- resolved is final

  /** Stored as it was, or gone for good. */
  ghost predicate SameOrGone(w: World, a: Alert) {
    a.id in w.used && forall b :: b in w.store.alerts && b.id == a.id ==> b == a
  }

  lemma StepKeepsResolved(w: World, s: Step, a: Alert)
    requires Inv(w) && Enabled(w, s) && !Active(a) && SameOrGone(w, a)
    ensures SameOrGone(After(w, s), a)
    ensures a in After(w, s).store.alerts ==> a in w.store.alerts
  {
    match s
    case Sync(cs, ids, now) =>
      var live := Reported(cs);
      SettledAre(w.store.alerts, live, now);
      forall b | b in Raised(cs, ids, now, Quiet(w.store, live)) ensures b.id != a.id {
        RaisedAre(cs, ids, now, Quiet(w.store, live), b);
        assert b.id in Elements(ids) && b.id !in w.used;
      }
      forall b | b in After(w, s).store.alerts && b.id == a.id ensures b == a && a in w.store.alerts {
        var x :| x in w.store.alerts && b == Settled(x, live, now);
        assert x == a;
      }
    case Decide(id, status, now) =>
      var xs, k := w.store.alerts, FindAlert(w.store.alerts, id);
      if status != New && k < |xs| {
        assert xs[k] in xs;
        assert xs[k].id == a.id ==> xs[k] == a;
      }
    case Delete(_) =>
    case DeleteResolved =>
  }

  /** A resolved alert never changes again: it stays as it is until it is deleted, and never comes back. */
  lemma {:induction false} ResolvedIsFinal(ws: seq<World>, ss: seq<Step>, m: nat, n: nat, a: Alert)
    requires Run(ws, ss) && m <= n < |ws| && a in ws[m].store.alerts && !Active(a)
    ensures SameOrGone(ws[n], a)
    ensures a in ws[n].store.alerts ==> forall k :: m <= k <= n ==> a in ws[k].store.alerts
  {
    Reachable(ws, ss, m);
    if m == n {
      var xs := ws[m].store.alerts;
      forall b | b in xs && b.id == a.id ensures b == a {
        var i, j :| 0 <= i < |xs| && 0 <= j < |xs| && xs[i] == a && xs[j] == b;
        PairApart(xs, i, j);
      }
    } else {
      ResolvedIsFinal(ws, ss, m, n - 1, a);
      Reachable(ws, ss, n - 1);
      assert Enabled(ws[n - 1], ss[n - 1]) && ws[n] == After(ws[n - 1], ss[n - 1]);
      StepKeepsResolved(ws[n - 1], ss[n - 1], a);
    }
  }

  // --------------------------------------------------------------- dismissal

  /** The step deletes a record of this fingerprint. */
  predicate Deletes(w: World, s: Step, f: string) {
    var xs := w.store.alerts;
    f != "" && match s
      case Delete(id) => FindAlert(xs, id) < |xs| && Fingerprint(xs[FindAlert(xs, id)]) == f
      case DeleteResolved => exists a :: a in xs && !Active(a) && Fingerprint(a) == f
      case _ => false
  }

  /** Not a sync that came without the fingerprint. */
  predicate StillReports(s: Step, f: string) {
    s.Sync? ==> f in Reported(s.candidates)
  }

  /** Some deletion of the fingerprint has been followed only by syncs that still report it. */
  ghost predicate Suppressed(ws: seq<World>, ss: seq<Step>, n: nat, f: string)
    requires |ws| == |ss| + 1 && n <= |ss|
  {
    exists i {:trigger Deletes(ws[i], ss[i], f)} ::
      0 <= i < n && Deletes(ws[i], ss[i], f) && forall k :: i < k < n ==> StillReports(ss[k], f)
  }

  lemma DismissedNext(ws: seq<World>, ss: seq<Step>, n: nat, f: string)
    requires Run(ws, ss) && n < |ss|
    ensures f in ws[n + 1].store.dismissed <==>
      Deletes(ws[n], ss[n], f) || (f in ws[n].store.dismissed && StillReports(ss[n], f))
  {
  }

  lemma SuppressedNext(ws: seq<World>, ss: seq<Step>, n: nat, f: string)
    requires |ws| == |ss| + 1 && n < |ss|
    ensures Suppressed(ws, ss, n + 1, f) <==>
      Deletes(ws[n], ss[n], f) || (Suppressed(ws, ss, n, f) && StillReports(ss[n], f))
  {
  }

  ghost predicate Tracks(ws: seq<World>, ss: seq<Step>, f: string) {
    && |ws| == |ss| + 1 && f !in ws[0].store.dismissed
    && forall k {:trigger ss[k]} :: 0 <= k < |ss| ==>
         (f in ws[k + 1].store.dismissed <==>
           Deletes(ws[k], ss[k], f) || (f in ws[k].store.dismissed && StillReports(ss[k], f)))
  }

  lemma {:induction false} TrackedExactly(ws: seq<World>, ss: seq<Step>, n: nat, f: string)
    requires Tracks(ws, ss, f) && n <= |ss|
    ensures f in ws[n].store.dismissed <==> Suppressed(ws, ss, n, f)
  {
    if n > 0 {
      TrackedExactly(ws, ss, n - 1, f);
      SuppressedNext(ws, ss, n - 1, f);
    }
  }

  /** Dismissal, over a whole run: deleted, and reported by every sync since. */
  lemma DismissedExactly(ws: seq<World>, ss: seq<Step>, n: nat, f: string)
    requires Run(ws, ss) && n <= |ss|
    ensures f in ws[n].store.dismissed <==> Suppressed(ws, ss, n, f)
  {
    forall k | 0 <= k < |ss|
      ensures f in ws[k + 1].store.dismissed <==>
        Deletes(ws[k], ss[k], f) || (f in ws[k].store.dismissed && StillReports(ss[k], f))
    {
      DismissedNext(ws, ss, k, f);
    }
    TrackedExactly(ws, ss, n, f);
  }

  /**
   A sync raises an alert of a fingerprint exactly when it reports it, none is active, no record
   resolved by hand is stored, and no deletion has been followed only by syncs that report it.
   */
  lemma RaisedOverRunExactly(ws: seq<World>, ss: seq<Step>, n: nat, f: string)
    requires Run(ws, ss) && n < |ss| && ss[n].Sync?
    ensures (exists a :: a in ws[n + 1].store.alerts && a.id !in ws[n].used && Fingerprint(a) == f) <==>
      && f in Reported(ss[n].candidates)
      && f !in ActiveFingerprints(ws[n].store.alerts) && f !in HandResolved(ws[n].store.alerts)
      && !Suppressed(ws, ss, n, f)
  {
    Reachable(ws, ss, n);
    DismissedExactly(ws, ss, n, f);
    var w, cs, ids, now := ws[n], ss[n].candidates, ss[n].ids, ss[n].now;
    assert Enabled(w, ss[n]) && ws[n + 1] == After(w, ss[n]);
    var live := Reported(cs);
    var settled, raised := SettleAll(w.store.alerts, live, now), Raised(cs, ids, now, Quiet(w.store, live));
    RaisesExactly(w.store, cs, ids, now, f);
    SettledAre(w.store.alerts, live, now);
    forall a | a in raised ensures a.id !in w.used {
      RaisedAre(cs, ids, now, Quiet(w.store, live), a);
      assert a.id in Elements(ids);
    }
    assert forall a :: a in ws[n + 1].store.alerts <==> a in settled || a in raised;
  }
}
