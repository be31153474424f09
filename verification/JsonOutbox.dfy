/**
 The JSON outbox: a list of records behind one lock. Each operation is a method on the list,
 proved against a function; the functions are then proved to follow the protocol.
 */
module JsonOutbox {
  import opened Common
  import opened Deliveries
  import opened Protocol

  type Records = seq<Delivery>

  ghost predicate UniqueIds(ds: Records) {
    forall i, j :: 0 <= i < j < |ds| ==> ds[i].id != ds[j].id
  }

  /** The list read as a map from id to record. */
  ghost function Contents(ds: Records): Box {
    if UniqueIds(ds) then map d | d in ds :: d.id := d else map[]
  }

  // ------------------------------------------------------- enqueue and purge

  /** Position of the first record that stands for the event; the length when there is none. */
  function FirstMatch(ds: Records, e: Event): (i: nat)
    ensures i <= |ds|
    ensures i < |ds| ==> Matches(ds[i], e)
    ensures forall k :: 0 <= k < i ==> !Matches(ds[k], e)
  {
    if ds == [] then 0
    else if Matches(ds[0], e) then 0
    else
      var rest := FirstMatch(ds[1..], e);
      assert forall k :: 1 <= k < 1 + rest ==> ds[k] == ds[1..][k - 1];
      1 + rest
  }

  function WithoutExpired(ds: Records, now: int, retentionDays: int): Records {
    if ds == [] then []
    else
      var last := |ds| - 1;
      WithoutExpired(ds[..last], now, retentionDays) + if Expired(ds[last], now, retentionDays) then [] else [ds[last]]
  }

  /** Positions of the unexpired records among the first `n`. */
  function Unexpired(ds: Records, n: nat, now: int, retentionDays: int): (ps: seq<nat>)
    requires n <= |ds|
    ensures forall k :: 0 <= k < |ps| ==> ps[k] < n && !Expired(ds[ps[k]], now, retentionDays)
    ensures forall j, k :: 0 <= j < k < |ps| ==> ps[j] < ps[k]
  {
    if n == 0 then []
    else Unexpired(ds, n - 1, now, retentionDays) + if Expired(ds[n - 1], now, retentionDays) then [] else [n - 1]
  }

  lemma {:induction false} UnexpiredAreAll(ds: Records, n: nat, now: int, retentionDays: int, i: nat)
    requires i < n <= |ds| && !Expired(ds[i], now, retentionDays)
    ensures i in Unexpired(ds, n, now, retentionDays)
  {
    if i < n - 1 { UnexpiredAreAll(ds, n - 1, now, retentionDays, i); }
  }

  function At(ds: Records, ps: seq<nat>): Records
    requires forall k :: 0 <= k < |ps| ==> ps[k] < |ds|
  {
    seq(|ps|, k requires 0 <= k < |ps| => ds[ps[k]])
  }

  lemma {:induction false} UnexpiredAt(ds: Records, n: nat, now: int, retentionDays: int)
    requires n <= |ds|
    ensures WithoutExpired(ds[..n], now, retentionDays) == At(ds, Unexpired(ds, n, now, retentionDays))
  {
    if n > 0 {
      UnexpiredAt(ds, n - 1, now, retentionDays);
      assert ds[..n][..n - 1] == ds[..n - 1];
      assert WithoutExpired(ds[..n], now, retentionDays) == WithoutExpired(ds[..n - 1], now, retentionDays)
        + if Expired(ds[n - 1], now, retentionDays) then [] else [ds[n - 1]];
    }
  }

  /** Where each surviving record came from: positions in the old list, in the old order. */
  ghost function Survivors(ds: Records, now: int, retentionDays: int): (ps: seq<nat>)
    ensures |ps| == |WithoutExpired(ds, now, retentionDays)|
    ensures forall k :: 0 <= k < |ps| ==> ps[k] < |ds| && ds[ps[k]] == WithoutExpired(ds, now, retentionDays)[k]
    ensures forall j, k :: 0 <= j < k < |ps| ==> ps[j] < ps[k]
    ensures forall i :: 0 <= i < |ds| ==> (i in ps <==> !Expired(ds[i], now, retentionDays))
  {
    var ps := Unexpired(ds, |ds|, now, retentionDays);
    UnexpiredAt(ds, |ds|, now, retentionDays);
    assert ds[..|ds|] == ds;
    assert forall i: nat :: i < |ds| && !Expired(ds[i], now, retentionDays) ==> i in ps by {
      forall i: nat | i < |ds| && !Expired(ds[i], now, retentionDays) ensures i in ps {
        UnexpiredAreAll(ds, |ds|, now, retentionDays, i);
      }
    }
    ps
  }

  datatype EnqueueError = MissingIdentity

  function Created(ds: Records, r: Request): bool {
    HasIdentity(r.event) && FirstMatch(ds, r.event) == |ds|
  }

  function Enqueued(ds: Records, r: Request, now: int): Records {
    if Created(ds, r) then WithoutExpired(ds, now, r.retentionDays) + [NewDelivery(r, now)] else ds
  }

  // ------------------------------------------------------------------- claim

  predicate KeyLess(a: Delivery, b: Delivery) {
    || AsInt(a.nextAttemptAt) < AsInt(b.nextAttemptAt)
    || (AsInt(a.nextAttemptAt) == AsInt(b.nextAttemptAt) && a.createdAt < b.createdAt)
  }

  /** Position `i` comes before `j` in the stable sort on (nextAttemptAt, createdAt). */
  predicate Before(ds: Records, i: nat, j: nat)
    requires i < |ds| && j < |ds|
  {
    KeyLess(ds[i], ds[j]) || (!KeyLess(ds[j], ds[i]) && i < j)
  }

  ghost predicate InOrder(ds: Records, order: seq<nat>) {
    && (forall a :: 0 <= a < |order| ==> order[a] < |ds|)
    && (forall a, b :: 0 <= a < b < |order| ==> Before(ds, order[a], order[b]))
  }

  lemma PrependInOrder(ds: Records, i: nat, order: seq<nat>)
    requires i < |ds| && InOrder(ds, order) && forall x :: x in order ==> Before(ds, i, x)
    ensures InOrder(ds, [i] + order)
  {
    assert forall b :: 0 <= b < |order| ==> order[b] in order;
  }

  lemma BeforeTheRest(ds: Records, i: nat, order: seq<nat>)
    requires i < |ds| && InOrder(ds, order) && order != [] && Before(ds, i, order[0])
    ensures forall x :: x in order ==> Before(ds, i, x)
  {
  }

  function Insert(ds: Records, order: seq<nat>, i: nat): (r: seq<nat>)
    requires i < |ds| && InOrder(ds, order) && i !in order
    ensures InOrder(ds, r)
    ensures forall x :: x in r <==> x == i || x in order
  {
    if order == [] then [i]
    else if Before(ds, order[0], i) then
      var rest := Insert(ds, order[1..], i);
      assert forall x :: x in order[1..] ==> Before(ds, order[0], x);
      PrependInOrder(ds, order[0], rest);
      assert order == [order[0]] + order[1..];
      [order[0]] + rest
    else
      assert Before(ds, i, order[0]);
      BeforeTheRest(ds, i, order);
      PrependInOrder(ds, i, order);
      [i] + order
  }

  /** `sorted(deliveries, key=...)`, as positions: the first `n` records in claim order. */
  function SortedPrefix(ds: Records, n: nat): (r: seq<nat>)
    requires n <= |ds|
    ensures InOrder(ds, r)
    ensures forall x: nat :: x in r <==> x < n
  {
    if n == 0 then [] else Insert(ds, SortedPrefix(ds, n - 1), n - 1)
  }

  function Order(ds: Records): (r: seq<nat>)
    ensures InOrder(ds, r)
    ensures forall x: nat :: x in r <==> x < |ds|
  {
    SortedPrefix(ds, |ds|)
  }

  /** The positions taken from the first `k` of the order. */
  function Picks(ds: Records, order: seq<nat>, k: nat, now: int, n: nat): (r: seq<nat>)
    requires InOrder(ds, order) && k <= |order|
    ensures |r| <= n
    ensures forall x :: x in r ==> x in order[..k]
    ensures InOrder(ds, r)
  {
    if k == 0 then []
    else
      var p := Picks(ds, order, k - 1, now, n);
      assert order[..k] == order[..k - 1] + [order[k - 1]];
      assert forall a :: 0 <= a < |p| ==> p[a] in order[..k - 1];
      if |p| < n && Eligible(ds[order[k - 1]], now) then p + [order[k - 1]] else p
  }

  function Taken(ds: Records, now: int, limit: int): seq<nat> {
    Picks(ds, Order(ds), |Order(ds)|, now, Max(1, limit))
  }

  function ClaimedList(ds: Records, picks: seq<nat>, now: int, leaseSeconds: int): Records {
    seq(|ds|, i requires 0 <= i < |ds| => if i in picks then Claimed(ds[i], now, leaseSeconds) else ds[i])
  }

  /** The records handed to the worker, in claim order. */
  function HandedOut(ds: Records, picks: seq<nat>, now: int, leaseSeconds: int): seq<Delivery>
    requires InOrder(ds, picks)
  {
    seq(|picks|, k requires 0 <= k < |picks| => Claimed(ds[picks[k]], now, leaseSeconds))
  }

  /** The claim, without its algorithm: eligible positions, at most `n`, none left out before one taken. */
  ghost predicate LeastChoice(ds: Records, now: int, n: nat, picks: seq<nat>) {
    && InOrder(ds, picks)
    && |picks| <= n
    && (forall x :: x in picks ==> Eligible(ds[x], now))
    && (forall e: nat :: e < |ds| && Eligible(ds[e], now) && e !in picks ==>
          |picks| == n && forall x :: x in picks ==> Before(ds, x, e))
  }

  lemma {:induction false} PicksAreLeast(ds: Records, order: seq<nat>, k: nat, now: int, n: nat)
    requires InOrder(ds, order) && k <= |order|
    ensures var p := Picks(ds, order, k, now, n);
      && (forall x :: x in p ==> Eligible(ds[x], now))
      && (forall a :: 0 <= a < k && Eligible(ds[order[a]], now) && order[a] !in p ==>
            |p| == n && forall x :: x in p ==> Before(ds, x, order[a]))
  {
    if k > 0 {
      PicksAreLeast(ds, order, k - 1, now, n);
      var p := Picks(ds, order, k - 1, now, n);
      forall x | x in p ensures Before(ds, x, order[k - 1]) {
        assert x in order[..k - 1];
      }
    }
  }

  /** claim_due takes exactly the least eligible deliveries, in claim order. */
  lemma TakenIsLeast(ds: Records, now: int, limit: int)
    ensures LeastChoice(ds, now, Max(1, limit), Taken(ds, now, limit))
  {
    var order := Order(ds);
    PicksAreLeast(ds, order, |order|, now, Max(1, limit));
    forall e: nat | e < |ds| && Eligible(ds[e], now) && e !in Taken(ds, now, limit)
      ensures |Taken(ds, now, limit)| == Max(1, limit) && forall x :: x in Taken(ds, now, limit) ==> Before(ds, x, e)
    {
      assert e in order;
      var a :| 0 <= a < |order| && order[a] == e;
    }
  }

  lemma OrderNoRepeats(ds: Records, order: seq<nat>)
    requires InOrder(ds, order)
    ensures NoRepeats(order)
  {
  }

  lemma BeforeAsymmetric(ds: Records, i: nat, j: nat)
    requires i < |ds| && j < |ds|
    ensures !(Before(ds, i, j) && Before(ds, j, i))
  {
  }

  lemma LeastChoiceIncluded(ds: Records, now: int, n: nat, p: seq<nat>, q: seq<nat>)
    requires LeastChoice(ds, now, n, p) && LeastChoice(ds, now, n, q)
    ensures forall x :: x in p ==> x in q
  {
    var a, b := Elements(p), Elements(q);
    OrderNoRepeats(ds, p);
    OrderNoRepeats(ds, q);
    ElementCount(p);
    ElementCount(q);
    forall x | x in p ensures x in q {
      if x !in q {
        assert x in a && x !in b;
        if b <= a { SubsetSize(b, a); }
        var y :| y in b && y !in a;
        BeforeAsymmetric(ds, x, y);
      }
    }
  }

  /** There is one such choice of positions. */
  lemma LeastChoiceUnique(ds: Records, now: int, n: nat, p: seq<nat>, q: seq<nat>)
    requires LeastChoice(ds, now, n, p) && LeastChoice(ds, now, n, q)
    ensures forall x :: x in p <==> x in q
  {
    LeastChoiceIncluded(ds, now, n, p, q);
    LeastChoiceIncluded(ds, now, n, q, p);
  }

  // ---------------------------------------------------------- single updates

  function FindFrom(ds: Records, id: string, k: nat): (i: nat)
    requires k <= |ds|
    ensures k <= i <= |ds|
    ensures i < |ds| ==> ds[i].id == id
    ensures forall j :: k <= j < i ==> ds[j].id != id
    decreases |ds| - k
  {
    if k == |ds| || ds[k].id == id then k else FindFrom(ds, id, k + 1)
  }

  /** Position of the first record with this id; the length when there is none. */
  function FindIndex(ds: Records, id: string): (i: nat)
    ensures i <= |ds|
    ensures i < |ds| ==> ds[i].id == id
    ensures forall k :: 0 <= k < i ==> ds[k].id != id
  {
    FindFrom(ds, id, 0)
  }

  function Updated(ds: Records, id: string, report: Report, now: int): Records {
    var i := FindIndex(ds, id);
    if i < |ds| then ds[i := Reported(ds[i], report, now)] else ds
  }

  function ReplayedList(ds: Records, id: string, binding: Binding, now: int): Records {
    var i := FindIndex(ds, id);
    if i < |ds| && BoundTo(ds[i].event, binding) then ds[i := Replayed(ds[i], now)] else ds
  }

  // ------------------------------------------------------------------- class

  class CoreInboundDeliveryStore {
    var deliveries: seq<Delivery>

    constructor ()
      ensures deliveries == []
    {
      deliveries := [];
    }

    method Enqueue(r: Request, now: int) returns (answer: Result<(Delivery, bool), EnqueueError>)
      modifies this
      ensures deliveries == Enqueued(old(deliveries), r, now)
      ensures !HasIdentity(r.event) <==> answer == Err(MissingIdentity)
      ensures answer.Ok? ==> answer.value.1 == Created(old(deliveries), r)
      ensures answer.Ok? && answer.value.1 ==> answer.value.0 == NewDelivery(r, now)
      ensures answer.Ok? && !answer.value.1 ==> answer.value.0 == old(deliveries)[FirstMatch(old(deliveries), r.event)]
    {
      if !HasIdentity(r.event) {
        return Err(MissingIdentity);
      }
      for i := 0 to |deliveries|
        invariant deliveries == old(deliveries)
        invariant forall k :: 0 <= k < i ==> !Matches(deliveries[k], r.event)
      {
        if Matches(deliveries[i], r.event) {
          assert FirstMatch(deliveries, r.event) == i;
          return Ok((deliveries[i], false));
        }
      }
      assert FirstMatch(deliveries, r.event) == |deliveries|;
      var delivery := NewDelivery(r, now);
      deliveries := WithoutExpired(deliveries, now, r.retentionDays) + [delivery];
      return Ok((delivery, true));
    }

    method ClaimDue(limit: int, leaseSeconds: int, now: int) returns (claimed: seq<Delivery>)
      modifies this
      ensures var picks := Taken(old(deliveries), now, limit);
        && deliveries == ClaimedList(old(deliveries), picks, now, leaseSeconds)
        && claimed == HandedOut(old(deliveries), picks, now, leaseSeconds)
    {
      var order, n := Order(deliveries), Max(1, limit);
      claimed := [];
      ghost var picks: seq<nat> := [];
      var k := 0;
      while k < |order| && |claimed| < n
        invariant k <= |order| && picks == Picks(old(deliveries), order, k, now, n)
        invariant claimed == HandedOut(old(deliveries), picks, now, leaseSeconds)
        invariant deliveries == ClaimedList(old(deliveries), picks, now, leaseSeconds)
      {
        var item := deliveries[order[k]];
        NotPickedYet(old(deliveries), order, k, now, n);
        ClaimOneMore(old(deliveries), order, k, now, n, leaseSeconds);
        if Eligible(item, now) {
          deliveries := deliveries[order[k] := Claimed(item, now, leaseSeconds)];
          claimed := claimed + [Claimed(item, now, leaseSeconds)];
          picks := picks + [order[k]];
        }
        k := k + 1;
      }
      PicksFull(old(deliveries), order, k, now, n);
    }

    method Get(id: string) returns (found: Option<Delivery>)
      ensures found ==
        if FindIndex(deliveries, id) < |deliveries| then Some(deliveries[FindIndex(deliveries, id)]) else None
    {
      for i := 0 to |deliveries|
        invariant forall k :: 0 <= k < i ==> deliveries[k].id != id
      {
        if deliveries[i].id == id {
          return Some(deliveries[i]);
        }
      }
      return None;
    }

    method Update(id: string, report: Report, now: int) returns (answer: Result<Delivery, LookupError>)
      modifies this
      ensures deliveries == Updated(old(deliveries), id, report, now)
      ensures var i := FindIndex(old(deliveries), id);
        answer == if i < |old(deliveries)| then Ok(Reported(old(deliveries)[i], report, now)) else Err(KeyError)
    {
      for i := 0 to |deliveries|
        invariant deliveries == old(deliveries)
        invariant forall k :: 0 <= k < i ==> deliveries[k].id != id
      {
        if deliveries[i].id == id {
          var item := Reported(deliveries[i], report, now);
          deliveries := deliveries[i := item];
          return Ok(item);
        }
      }
      return Err(KeyError);
    }

    /** Both halves with nothing in between; the protocol interleaves them. */
    method RetryOrDeadLetter(id: string, error: string, maxAttempts: int, backoffSeconds: int, now: int)
      returns (answer: Result<Delivery, LookupError>)
      modifies this
      ensures var i := FindIndex(old(deliveries), id);
        if i < |old(deliveries)| then
          var report := RetryReport(old(deliveries)[i].attemptCount, error, maxAttempts, backoffSeconds);
          deliveries == Updated(old(deliveries), id, report, now) &&
            answer == Ok(Reported(old(deliveries)[i], report, now))
        else deliveries == old(deliveries) && answer == Err(KeyError)
    {
      var current := Get(id);
      if current.None? {
        return Err(KeyError);
      }
      answer := Update(id, RetryReport(current.value.attemptCount, error, maxAttempts, backoffSeconds), now);
    }

    method ReplayGroup(id: string, binding: Binding, now: int) returns (answer: Result<Delivery, LookupError>)
      modifies this
      ensures deliveries == ReplayedList(old(deliveries), id, binding, now)
      ensures var i := FindIndex(old(deliveries), id);
        answer == if i < |old(deliveries)| && BoundTo(old(deliveries)[i].event, binding)
                  then Ok(deliveries[i]) else Err(BindingMismatch)
    {
      for i := 0 to |deliveries|
        invariant deliveries == old(deliveries)
        invariant forall k :: 0 <= k < i ==> deliveries[k].id != id
      {
        if deliveries[i].id == id {
          if !BoundTo(deliveries[i].event, binding) {
            return Err(BindingMismatch);
          }
          if Replayable(deliveries[i]) {
            deliveries := deliveries[i := Replayed(deliveries[i], now)];
          }
          return Ok(deliveries[i]);
        }
      }
      return Err(BindingMismatch);
    }
  }

  lemma ClaimedListMore(ds: Records, p: seq<nat>, i: nat, now: int, leaseSeconds: int)
    requires i < |ds| && i !in p
    ensures ClaimedList(ds, p, now, leaseSeconds)[i] == ds[i]
    ensures ClaimedList(ds, p + [i], now, leaseSeconds) ==
      ClaimedList(ds, p, now, leaseSeconds)[i := Claimed(ds[i], now, leaseSeconds)]
  {
    var more, changed :=
      ClaimedList(ds, p + [i], now, leaseSeconds),
      ClaimedList(ds, p, now, leaseSeconds)[i := Claimed(ds[i], now, leaseSeconds)];
    forall j: nat | j < |ds| ensures more[j] == changed[j] {
      assert j in p + [i] <==> j in p || j == i;
    }
  }

  lemma HandedOutMore(ds: Records, p: seq<nat>, i: nat, now: int, leaseSeconds: int)
    requires i < |ds| && InOrder(ds, p) && InOrder(ds, p + [i])
    ensures HandedOut(ds, p + [i], now, leaseSeconds) ==
      HandedOut(ds, p, now, leaseSeconds) + [Claimed(ds[i], now, leaseSeconds)]
  {
    assert forall k :: 0 <= k < |p| ==> (p + [i])[k] == p[k];
  }

  lemma ClaimOneMore(ds: Records, order: seq<nat>, k: nat, now: int, n: nat, leaseSeconds: int)
    requires InOrder(ds, order) && k < |order| && |Picks(ds, order, k, now, n)| < n
    requires order[k] !in Picks(ds, order, k, now, n)
    ensures var i, p, q := order[k], Picks(ds, order, k, now, n), Picks(ds, order, k + 1, now, n);
      var part := ClaimedList(ds, p, now, leaseSeconds);
      && part[i] == ds[i]
      && if Eligible(ds[i], now) then
           && q == p + [i]
           && ClaimedList(ds, q, now, leaseSeconds) == part[i := Claimed(ds[i], now, leaseSeconds)]
           && HandedOut(ds, q, now, leaseSeconds) ==
               HandedOut(ds, p, now, leaseSeconds) + [Claimed(ds[i], now, leaseSeconds)]
         else q == p
  {
    var i, p := order[k], Picks(ds, order, k, now, n);
    ClaimedListMore(ds, p, i, now, leaseSeconds);
    if Eligible(ds[i], now) {
      assert Picks(ds, order, k + 1, now, n) == p + [i];
      HandedOutMore(ds, p, i, now, leaseSeconds);
    }
  }

  lemma NotPickedYet(ds: Records, order: seq<nat>, k: nat, now: int, n: nat)
    requires InOrder(ds, order) && k < |order|
    ensures order[k] !in Picks(ds, order, k, now, n)
  {
  }

  /** Once the batch is full, or the order used up, nothing more is picked. */
  lemma {:induction false} PicksFull(ds: Records, order: seq<nat>, k: nat, now: int, n: nat)
    requires InOrder(ds, order) && k <= |order|
    requires k == |order| || |Picks(ds, order, k, now, n)| == n
    ensures Picks(ds, order, |order|, now, n) == Picks(ds, order, k, now, n)
    decreases |order| - k
  {
    if k < |order| { PicksFull(ds, order, k + 1, now, n); }
  }
}
