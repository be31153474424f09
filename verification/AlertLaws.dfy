/** What each operation on the alert list writes, on the fields of the alerts. */
module AlertLaws {
  import opened Common
  import opened Alerts

  ghost predicate FirstWith(xs: seq<Alert>, id: string, k: nat) {
    k < |xs| && xs[k].id == id && forall j :: 0 <= j < k ==> xs[j].id != id
  }

  lemma FirstIs(xs: seq<Alert>, id: string)
    ensures forall k: nat :: FirstWith(xs, id, k) <==> k == FindAlert(xs, id) && k < |xs|
    ensures (forall a :: a in xs ==> a.id != id) <==> FindAlert(xs, id) == |xs|
  {
    var k := FindAlert(xs, id);
    if k < |xs| { assert xs[k] in xs; }
  }

  /**
   An unresolved alert ends with the status asked for, resolved by hand when that is resolved; a
   resolved one, every other one and the dismissals stay as they are.
   */
  lemma DecisionExactly(st: Store, id: string, status: Status, now: int)
    ensures var after := Updated(st, id, status, now);
      && after.dismissed == st.dismissed && |after.alerts| == |st.alerts|
      && (status == New || (forall a :: a in st.alerts ==> a.id != id) ==> after == st)
      && forall k: nat :: FirstWith(st.alerts, id, k) && status != New ==>
           var a, b := st.alerts[k], after.alerts[k];
           && (forall j: nat :: j < |st.alerts| && j != k ==> after.alerts[j] == st.alerts[j])
           && b.id == a.id && b.createdAt == a.createdAt && b.incident == a.incident
           && (a.status == Resolved ==> b == a)
           && (a.status != Resolved ==> b.status == status)
           && (a.status != Resolved && status == Resolved ==> b.resolvedAt == Some(now) && b.source == Some(Manual))
           && (a.status != Resolved && status == Acknowledged ==> b.resolvedAt == a.resolvedAt && b.source == a.source)
  {
    FirstIs(st.alerts, id);
  }

  /** A new alert of the `i`-th candidate. */
  ghost predicate RaisedFrom(cs: seq<Candidate>, ids: seq<string>, now: int, i: nat, a: Alert)
    requires |ids| == |cs|
  {
    && i < |cs| && a.id == ids[i] && a.incident == cs[i] && a.status == New
    && a.createdAt == now && a.resolvedAt == None && a.source == None
  }

  /** The candidates among the first `k` that nothing keeps quiet. */
  ghost function HeardAmong(cs: seq<Candidate>, k: nat, quiet: set<string>): (from: seq<nat>)
    requires k <= |cs|
    ensures forall m :: 0 <= m < |from| ==> from[m] < k
    ensures forall m, n :: 0 <= m < n < |from| ==> from[m] < from[n]
  {
    if k == 0 then []
    else HeardAmong(cs, k - 1, quiet) + if cs[k - 1].fingerprint in quiet then [] else [k - 1]
  }

  lemma {:induction false} HeardAre(cs: seq<Candidate>, k: nat, quiet: set<string>, i: nat)
    requires i < k <= |cs|
    ensures i in HeardAmong(cs, k, quiet) <==> cs[i].fingerprint !in quiet
  {
    if i < k - 1 {
      HeardAre(cs, k - 1, quiet, i);
    } else {
      assert i !in HeardAmong(cs, k - 1, quiet);
    }
  }

  lemma {:induction false} RaisedInOrder(cs: seq<Candidate>, ids: seq<string>, k: nat, now: int, quiet: set<string>)
    requires |ids| == |cs| && k <= |cs|
    ensures var from, raised := HeardAmong(cs, k, quiet), RaisedFirst(cs, ids, k, now, quiet);
      |from| == |raised| && forall m: nat :: m < |from| ==> RaisedFrom(cs, ids, now, from[m], raised[m])
  {
    if k > 0 { RaisedInOrder(cs, ids, k - 1, now, quiet); }
  }

  /** Reported, and neither active, nor resolved by hand, nor dismissed. */
  ghost predicate Heard(st: Store, f: string) {
    f !in st.dismissed && forall a :: a in st.alerts && a.incident.fingerprint == f ==>
      a.status == Resolved && a.source != Some(Manual)
  }

  lemma QuietExactly(st: Store, cs: seq<Candidate>, i: nat)
    requires i < |cs|
    ensures cs[i].fingerprint !in Quiet(st, Reported(cs)) <==> Heard(st, cs[i].fingerprint)
  {
    assert cs[i] in cs;
  }

  /**
   A sync leaves the stored alerts in place, resolves by itself those nobody reports any more, and
   appends one new alert for each reported incident that may be heard, in their order; a dismissal
   lasts while it is reported.
   */
  lemma SyncExactly(st: Store, cs: seq<Candidate>, ids: seq<string>, now: int) returns (from: seq<nat>)
    requires |ids| == |cs|
    ensures var after := Synced(st, cs, ids, now);
      && |after.alerts| == |st.alerts| + |from|
      && (forall k :: 0 <= k < |st.alerts| ==>
            var a, b := st.alerts[k], after.alerts[k];
            if a.status != Resolved && forall c :: c in cs ==> c.fingerprint != a.incident.fingerprint
            then b == a.(status := Resolved, resolvedAt := Some(now), source := Some(Automatic)) else b == a)
      && (forall m :: 0 <= m < |from| ==> RaisedFrom(cs, ids, now, from[m], after.alerts[|st.alerts| + m]))
      && (forall f :: f in after.dismissed <==> f in st.dismissed && exists c :: c in cs && c.fingerprint == f)
    ensures forall m, n :: 0 <= m < n < |from| ==> from[m] < from[n]
    ensures forall i: nat :: i < |cs| ==> (i in from <==> Heard(st, cs[i].fingerprint))
  {
    var live := Reported(cs);
    from := HeardAmong(cs, |cs|, Quiet(st, live));
    RaisedInOrder(cs, ids, |cs|, now, Quiet(st, live));
    forall i: nat | i < |cs| ensures i in from <==> Heard(st, cs[i].fingerprint) {
      QuietExactly(st, cs, i);
      HeardAre(cs, |cs|, Quiet(st, live), i);
    }
    forall k | 0 <= k < |st.alerts|
      ensures st.alerts[k].incident.fingerprint in live <==>
        exists c :: c in cs && c.fingerprint == st.alerts[k].incident.fingerprint
    {
    }
  }

  /** Where each kept alert came from: positions in the old list, in the old order. */
  ghost function KeptAt(xs: seq<Alert>, k: nat, keep: Alert -> bool): (from: seq<nat>)
    requires k <= |xs|
    ensures |from| == |KeepFirst(xs, k, keep)|
    ensures forall m :: 0 <= m < |from| ==> from[m] < k && xs[from[m]] == KeepFirst(xs, k, keep)[m]
    ensures forall m, n :: 0 <= m < n < |from| ==> from[m] < from[n]
  {
    if k == 0 then [] else KeptAt(xs, k - 1, keep) + if keep(xs[k - 1]) then [k - 1] else []
  }

  lemma {:induction false} KeptAtAll(xs: seq<Alert>, k: nat, keep: Alert -> bool, i: nat)
    requires i < k <= |xs|
    ensures i in KeptAt(xs, k, keep) <==> keep(xs[i])
  {
    if i < k - 1 {
      KeptAtAll(xs, k - 1, keep, i);
    } else {
      assert i !in KeptAt(xs, k - 1, keep);
    }
  }

  /** `from` are the positions in `xs` of the alerts of `ys`, in order: exactly those with `kept`. */
  ghost predicate Selects(xs: seq<Alert>, ys: seq<Alert>, from: seq<nat>, kept: Alert -> bool) {
    && |from| == |ys|
    && (forall m: nat :: m < |from| ==> from[m] < |xs| && ys[m] == xs[from[m]])
    && (forall m: nat, n: nat :: m < n < |from| ==> from[m] < from[n])
    && (forall i: nat :: i < |xs| ==> (i in from <==> kept(xs[i])))
  }

  /** A deletion drops every alert with the id and dismisses the incident of the first, when it has a name. */
  lemma DeletionExactly(st: Store, id: string) returns (from: seq<nat>)
    ensures Selects(st.alerts, Deleted(st, id).alerts, from, (a: Alert) => a.id != id)
    ensures (forall a :: a in st.alerts ==> a.id != id) ==> Deleted(st, id) == st
    ensures forall k: nat :: FirstWith(st.alerts, id, k) ==>
      var f := st.alerts[k].incident.fingerprint;
      Deleted(st, id).dismissed == if f == "" then st.dismissed else st.dismissed + {f}
  {
    FirstIs(st.alerts, id);
    var keep := (a: Alert) => a.id != id;
    var k := FindAlert(st.alerts, id);
    if k == |st.alerts| {
      from := seq(|st.alerts|, i requires 0 <= i < |st.alerts| => i);
      forall i: nat | i < |st.alerts| ensures i in from { assert from[i] == i; }
    } else {
      from := KeptAt(st.alerts, |st.alerts|, keep);
      forall i: nat | i < |st.alerts| ensures i in from <==> keep(st.alerts[i]) {
        KeptAtAll(st.alerts, |st.alerts|, keep, i);
      }
      assert Deleted(st, id).alerts == KeepFirst(st.alerts, |st.alerts|, keep);
    }
  }

  /** Clearing drops the resolved alerts and dismisses their incidents. */
  lemma ClearingExactly(st: Store) returns (from: seq<nat>)
    ensures Selects(st.alerts, Cleared(st).alerts, from, (a: Alert) => a.status != Resolved)
    ensures forall f :: f in Cleared(st).dismissed <==>
      f in st.dismissed ||
      (f != "" && exists a :: a in st.alerts && a.status == Resolved && a.incident.fingerprint == f)
  {
    from := KeptAt(st.alerts, |st.alerts|, Active);
    forall i: nat | i < |st.alerts| ensures i in from <==> Active(st.alerts[i]) {
      KeptAtAll(st.alerts, |st.alerts|, Active, i);
    }
  }
}
