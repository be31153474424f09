/**
 The stored alert list and the operator's decisions about it: reconciliation with freshly
 computed candidates, acknowledgement, resolution, deletion. Every locked section is one method.
 */
module Alerts {
  import opened Common

  datatype Reference = Reference(id: string, name: string)

  datatype Candidate = Candidate(
    fingerprint: string,
    severity: string,
    client: Reference,
    connection: Reference,
    workspaceUrl: string)

  datatype Status = New | Acknowledged | Resolved

  datatype Source = Manual | Automatic

  datatype Alert = Alert(
    id: string,
    status: Status,
    createdAt: int,
    resolvedAt: Option<int>,
    source: Option<Source>,
    incident: Candidate)

  datatype Store = Store(alerts: seq<Alert>, dismissed: set<string>)

  function Fingerprint(a: Alert): string {
    a.incident.fingerprint
  }

  predicate Active(a: Alert) {
    a.status != Resolved
  }

  predicate ByHand(a: Alert) {
    a.status == Resolved && a.source == Some(Manual)
  }

  function Reported(cs: seq<Candidate>): set<string> {
    set c | c in cs :: c.fingerprint
  }

  function ActiveFingerprints(xs: seq<Alert>): set<string> {
    set a | a in xs && Active(a) :: Fingerprint(a)
  }

  function HandResolved(xs: seq<Alert>): set<string> {
    set a | a in xs && ByHand(a) :: Fingerprint(a)
  }

  // -------------------------------------------------------------------- sync

  /** An incident that is no longer reported resolves itself. */
  function Settled(a: Alert, live: set<string>, now: int): Alert {
    if Active(a) && Fingerprint(a) !in live
    then a.(status := Resolved, resolvedAt := Some(now), source := Some(Automatic))
    else a
  }

  function SettleAll(xs: seq<Alert>, live: set<string>, now: int): seq<Alert> {
    seq(|xs|, k requires 0 <= k < |xs| => Settled(xs[k], live, now))
  }

  function NewAlert(c: Candidate, id: string, now: int): Alert {
    Alert(id, New, now, None, None, c)
  }

  /** What the first `k` candidates raise. */
  function RaisedFirst(cs: seq<Candidate>, ids: seq<string>, k: nat, now: int, quiet: set<string>): seq<Alert>
    requires |ids| == |cs| && k <= |cs|
  {
    if k == 0 then []
    else
      RaisedFirst(cs, ids, k - 1, now, quiet)
      + if cs[k - 1].fingerprint in quiet then [] else [NewAlert(cs[k - 1], ids[k - 1], now)]
  }

  function Raised(cs: seq<Candidate>, ids: seq<string>, now: int, quiet: set<string>): seq<Alert>
    requires |ids| == |cs|
  {
    RaisedFirst(cs, ids, |cs|, now, quiet)
  }

  /** Fingerprints that get no new alert. */
  function Quiet(st: Store, live: set<string>): set<string> {
    ActiveFingerprints(st.alerts) + HandResolved(st.alerts) + st.dismissed * live
  }

  function Synced(st: Store, cs: seq<Candidate>, ids: seq<string>, now: int): Store
    requires |ids| == |cs|
  {
    var live := Reported(cs);
    Store(SettleAll(st.alerts, live, now) + Raised(cs, ids, now, Quiet(st, live)), st.dismissed * live)
  }

  // ------------------------------------------------------- operator's decisions

  function FindAlert(xs: seq<Alert>, id: string): (k: nat)
    ensures k <= |xs|
    ensures k < |xs| ==> xs[k].id == id
    ensures forall j :: 0 <= j < k ==> xs[j].id != id
  {
    if xs == [] || xs[0].id == id then 0
    else
      var rest := FindAlert(xs[1..], id);
      assert forall j :: 1 <= j < 1 + rest ==> xs[j] == xs[1..][j - 1];
      1 + rest
  }

  function Decided(a: Alert, status: Status, now: int): Alert {
    if a.status == Resolved then a
    else if status == Resolved then a.(status := Resolved, resolvedAt := Some(now), source := Some(Manual))
    else a.(status := status)
  }

  function Updated(st: Store, id: string, status: Status, now: int): Store {
    var k := FindAlert(st.alerts, id);
    if status == New || k == |st.alerts| then st
    else st.(alerts := st.alerts[k := Decided(st.alerts[k], status, now)])
  }

  function KeepFirst(xs: seq<Alert>, k: nat, keep: Alert -> bool): seq<Alert>
    requires k <= |xs|
  {
    if k == 0 then [] else KeepFirst(xs, k - 1, keep) + if keep(xs[k - 1]) then [xs[k - 1]] else []
  }

  lemma {:induction false} KeptFirst(xs: seq<Alert>, k: nat, keep: Alert -> bool, a: Alert)
    requires k <= |xs|
    ensures a in KeepFirst(xs, k, keep) <==> exists i :: 0 <= i < k && xs[i] == a && keep(a)
  {
    if k > 0 { KeptFirst(xs, k - 1, keep, a); }
  }

  function Keep(xs: seq<Alert>, keep: Alert -> bool): (r: seq<Alert>)
    ensures forall a :: a in r <==> a in xs && keep(a)
  {
    assert forall a :: a in KeepFirst(xs, |xs|, keep) <==> a in xs && keep(a) by {
      forall a ensures a in KeepFirst(xs, |xs|, keep) <==> a in xs && keep(a) { KeptFirst(xs, |xs|, keep, a); }
    }
    KeepFirst(xs, |xs|, keep)
  }

  function Deleted(st: Store, id: string): Store {
    var k := FindAlert(st.alerts, id);
    if k == |st.alerts| then st
    else
      Store(Keep(st.alerts, (a: Alert) => a.id != id), st.dismissed + ({Fingerprint(st.alerts[k])} - {""}))
  }

  function ResolvedAlerts(xs: seq<Alert>): seq<Alert> {
    Keep(xs, (a: Alert) => !Active(a))
  }

  function Named(xs: seq<Alert>): set<string> {
    set a | a in xs && Fingerprint(a) != "" :: Fingerprint(a)
  }

  function Cleared(st: Store): Store {
    Store(Keep(st.alerts, Active), st.dismissed + Named(ResolvedAlerts(st.alerts)))
  }

  // -------------------------------------------------------------------- store

  class AlertStore {
    var alerts: seq<Alert>
    var dismissed: set<string>

    ghost function State(): Store
      reads this
    {
      Store(alerts, dismissed)
    }

    constructor ()
      ensures State() == Store([], {})
    {
      alerts, dismissed := [], {};
    }

    /** `ids` are the identifiers drawn for the candidates that raise an alert. */
    method Sync(candidates: seq<Candidate>, ids: seq<string>, now: int) returns (items: seq<Alert>)
      requires |ids| == |candidates|
      modifies this
      ensures State() == Synced(old(State()), candidates, ids, now)
      ensures items == alerts
    {
      var live := set c | c in candidates :: c.fingerprint;
      var activeByFingerprint := set a | a in alerts && Active(a) :: Fingerprint(a);
      var manuallyResolved := set a | a in alerts && ByHand(a) :: Fingerprint(a);
      var stillDismissed := set f | f in dismissed && f in live;
      items := alerts;
      for k := 0 to |items|
        invariant |items| == |alerts| && alerts == old(alerts) && dismissed == old(dismissed)
        invariant forall j :: 0 <= j < k ==> items[j] == Settled(alerts[j], live, now)
        invariant forall j :: k <= j < |items| ==> items[j] == alerts[j]
      {
        if Active(items[k]) && items[k].incident.fingerprint !in live {
          items := items[k := items[k].(status := Resolved, resolvedAt := Some(now), source := Some(Automatic))];
        }
      }
      assert items == SettleAll(alerts, live, now);
      ghost var quiet := Quiet(State(), live);
      assert stillDismissed == dismissed * live;
      for k := 0 to |candidates|
        invariant alerts == old(alerts) && dismissed == old(dismissed)
        invariant items == SettleAll(alerts, live, now) + RaisedFirst(candidates, ids, k, now, quiet)
      {
        var f := candidates[k].fingerprint;
        if f in activeByFingerprint || f in manuallyResolved || f in stillDismissed {
          continue;
        }
        items := items + [NewAlert(candidates[k], ids[k], now)];
      }
      alerts, dismissed := items, stillDismissed;
    }

    method UpdateStatus(id: string, status: Status, now: int) returns (answer: Option<Alert>)
      modifies this
      ensures State() == Updated(old(State()), id, status, now)
      ensures answer.None? <==> status == New || forall a :: a in old(alerts) ==> a.id != id
      ensures answer.Some? ==>
        answer.value.id == id && answer.value in alerts && (status == Resolved ==> !Active(answer.value))
    {
      if status == New {
        return None;
      }
      for k := 0 to |alerts|
        invariant State() == old(State())
        invariant forall j :: 0 <= j < k ==> alerts[j].id != id
      {
        if alerts[k].id != id {
          continue;
        }
        assert FindAlert(alerts, id) == k;
        if alerts[k].status == Resolved {
          assert alerts[k := alerts[k]] == alerts;
          return Some(alerts[k]);
        }
        var item := alerts[k].(status := status);
        if status == Resolved {
          item := item.(resolvedAt := Some(now), source := Some(Manual));
        }
        alerts := alerts[k := item];
        return Some(alerts[k]);
      }
      return None;
    }

    method Delete(id: string) returns (found: bool)
      modifies this
      ensures State() == Deleted(old(State()), id)
      ensures found <==> exists a :: a in old(alerts) && a.id == id
      ensures forall a :: a in alerts ==> a.id != id
    {
      var k := FindAlert(alerts, id);
      if k == |alerts| {
        return false;
      }
      var fingerprint := Fingerprint(alerts[k]);
      assert alerts[k] in alerts;
      if fingerprint != "" {
        dismissed := dismissed + {fingerprint};
      }
      alerts := Keep(alerts, (a: Alert) => a.id != id);
      return true;
    }

    method DeleteResolved() returns (count: nat)
      modifies this
      ensures State() == Cleared(old(State()))
      ensures count + |alerts| == |old(alerts)|
    {
      var resolved := ResolvedAlerts(alerts);
      KeptAndDropped(alerts, |alerts|);
      if resolved == [] {
        AllActive(alerts);
        NothingDropped(alerts, |alerts|);
        assert alerts[..|alerts|] == alerts;
        return 0;
      }
      dismissed := dismissed + Named(resolved);
      alerts := Keep(alerts, Active);
      return |resolved|;
    }
  }

  lemma {:induction false} KeptAndDropped(xs: seq<Alert>, k: nat)
    requires k <= |xs|
    ensures |KeepFirst(xs, k, Active)| + |KeepFirst(xs, k, (a: Alert) => !Active(a))| == k
  {
    if k > 0 { KeptAndDropped(xs, k - 1); }
  }

  lemma AllActive(xs: seq<Alert>)
    requires ResolvedAlerts(xs) == []
    ensures forall a :: a in xs ==> Active(a)
  {
    assert forall a :: a in xs && !Active(a) ==> a in ResolvedAlerts(xs);
  }

  lemma {:induction false} NothingDropped(xs: seq<Alert>, k: nat)
    requires k <= |xs| && forall a :: a in xs ==> Active(a)
    ensures KeepFirst(xs, k, Active) == xs[..k]
  {
    if k > 0 {
      NothingDropped(xs, k - 1);
      assert xs[k - 1] in xs && xs[..k] == xs[..k - 1] + [xs[k - 1]];
    }
  }

  // ------------------------------------------------------------ one sync alone

  lemma {:induction false} RaisedFirstAre(cs: seq<Candidate>, ids: seq<string>, k: nat, now: int, quiet: set<string>,
                                          a: Alert)
    requires |ids| == |cs| && k <= |cs|
    ensures a in RaisedFirst(cs, ids, k, now, quiet) <==>
      exists i :: 0 <= i < k && cs[i].fingerprint !in quiet && a == NewAlert(cs[i], ids[i], now)
  {
    if k > 0 { RaisedFirstAre(cs, ids, k - 1, now, quiet, a); }
  }

  lemma RaisedAre(cs: seq<Candidate>, ids: seq<string>, now: int, quiet: set<string>, a: Alert)
    requires |ids| == |cs|
    ensures a in Raised(cs, ids, now, quiet) <==>
      exists k :: 0 <= k < |cs| && cs[k].fingerprint !in quiet && a == NewAlert(cs[k], ids[k], now)
  {
    RaisedFirstAre(cs, ids, |cs|, now, quiet, a);
  }

  lemma SettledAre(xs: seq<Alert>, live: set<string>, now: int)
    ensures forall a :: a in xs ==> Settled(a, live, now) in SettleAll(xs, live, now)
    ensures forall b :: b in SettleAll(xs, live, now) ==> exists a :: a in xs && b == Settled(a, live, now)
  {
    forall a | a in xs ensures Settled(a, live, now) in SettleAll(xs, live, now) {
      var k :| 0 <= k < |xs| && xs[k] == a;
      assert SettleAll(xs, live, now)[k] == Settled(a, live, now);
    }
  }

  /** A sync raises an alert for exactly the reported fingerprints that nothing keeps quiet. */
  lemma RaisesExactly(st: Store, cs: seq<Candidate>, ids: seq<string>, now: int, f: string)
    requires |ids| == |cs|
    ensures (exists a :: a in Raised(cs, ids, now, Quiet(st, Reported(cs))) && Fingerprint(a) == f) <==>
      f in Reported(cs) && f !in ActiveFingerprints(st.alerts) && f !in HandResolved(st.alerts) && f !in st.dismissed
  {
    var quiet := Quiet(st, Reported(cs));
    if f in Reported(cs) && f !in quiet {
      var k :| 0 <= k < |cs| && cs[k].fingerprint == f;
      RaisedAre(cs, ids, now, quiet, NewAlert(cs[k], ids[k], now));
    }
    forall a | a in Raised(cs, ids, now, quiet) ensures Fingerprint(a) in Reported(cs) && Fingerprint(a) !in quiet {
      RaisedAre(cs, ids, now, quiet, a);
    }
  }

  /** After a sync a fingerprint is active exactly when reported, and active before or not kept quiet. */
  lemma ActiveExactly(st: Store, cs: seq<Candidate>, ids: seq<string>, now: int, f: string)
    requires |ids| == |cs|
    ensures f in ActiveFingerprints(Synced(st, cs, ids, now).alerts) <==>
      && f in Reported(cs)
      && (f in ActiveFingerprints(st.alerts) || (f !in HandResolved(st.alerts) && f !in st.dismissed))
  {
    var live := Reported(cs);
    var settled, raised := SettleAll(st.alerts, live, now), Raised(cs, ids, now, Quiet(st, live));
    SettledAre(st.alerts, live, now);
    RaisesExactly(st, cs, ids, now, f);
    forall a | a in raised ensures Active(a) { RaisedAre(cs, ids, now, Quiet(st, live), a); }
    assert forall a :: a in settled + raised <==> a in settled || a in raised;
    if f in live && f in ActiveFingerprints(st.alerts) {
      var a :| a in st.alerts && Active(a) && Fingerprint(a) == f;
      assert Settled(a, live, now) in settled;
    }
  }

  lemma HandResolvedSurvives(st: Store, cs: seq<Candidate>, ids: seq<string>, now: int)
    requires |ids| == |cs|
    ensures HandResolved(Synced(st, cs, ids, now).alerts) == HandResolved(st.alerts)
  {
    var live := Reported(cs);
    var settled, raised := SettleAll(st.alerts, live, now), Raised(cs, ids, now, Quiet(st, live));
    SettledAre(st.alerts, live, now);
    forall a | a in raised ensures Active(a) { RaisedAre(cs, ids, now, Quiet(st, live), a); }
    assert forall a :: a in settled + raised <==> a in settled || a in raised;
    forall f ensures f in HandResolved(st.alerts) <==> f in HandResolved(settled + raised) {
      if f in HandResolved(st.alerts) {
        var a :| a in st.alerts && ByHand(a) && Fingerprint(a) == f;
        assert Settled(a, live, now) in settled;
      }
    }
  }

  lemma {:induction false} NothingRaised(cs: seq<Candidate>, ids: seq<string>, k: nat, now: int, quiet: set<string>)
    requires |ids| == |cs| && k <= |cs| && Reported(cs) <= quiet
    ensures RaisedFirst(cs, ids, k, now, quiet) == []
  {
    if k > 0 {
      assert cs[k - 1].fingerprint in Reported(cs);
      NothingRaised(cs, ids, k - 1, now, quiet);
    }
  }

  /** Reconciling twice with the same report is reconciling once, whenever the second time comes. */
  lemma SyncIsIdempotent(st: Store, cs: seq<Candidate>, ids: seq<string>, now: int, ids2: seq<string>, later: int)
    requires |ids| == |cs| && |ids2| == |cs|
    ensures Synced(Synced(st, cs, ids, now), cs, ids2, later) == Synced(st, cs, ids, now)
  {
    var once, live := Synced(st, cs, ids, now), Reported(cs);
    HandResolvedSurvives(st, cs, ids, now);
    forall f | f in live ensures f in Quiet(once, live) { ActiveExactly(st, cs, ids, now, f); }
    NothingRaised(cs, ids2, |cs|, later, Quiet(once, live));
    forall k | 0 <= k < |once.alerts| ensures Settled(once.alerts[k], live, later) == once.alerts[k] {
      if Active(once.alerts[k]) { ActiveExactly(st, cs, ids, now, Fingerprint(once.alerts[k])); }
    }
    assert SettleAll(once.alerts, live, later) == once.alerts;
  }
}
