/**
 Which deliveries a claim may take, without an algorithm: at most `n` eligible ones, none left
 out that comes before one taken. Keys may tie; the choice is unique exactly when no tie
 straddles the cut, which is a matter of counting keys.
 */
module ClaimChoice {
  import opened Common
  import opened Deliveries
  import opened Protocol
  import opened JsonOutbox

  function EligibleIds(box: Box, now: int): set<string> {
    set id | id in box && Eligible(box[id], now)
  }

  /** Eligible deliveries with a smaller key. */
  function Below(box: Box, now: int, id: string): set<string>
    requires id in box
  {
    set x | x in EligibleIds(box, now) && KeyLess(box[x], box[id])
  }

  /** Eligible deliveries with a key no larger. */
  function UpTo(box: Box, now: int, id: string): set<string>
    requires id in box
  {
    set x | x in EligibleIds(box, now) && !KeyLess(box[id], box[x])
  }

  /** No key has fewer than `n` eligible deliveries below it and more than `n` up to it. */
  ghost predicate NoTieAtCut(box: Box, now: int, n: nat) {
    forall id :: id in EligibleIds(box, now) ==> |Below(box, now, id)| >= n || |UpTo(box, now, id)| <= n
  }

  ghost predicate Choice(box: Box, now: int, n: nat, taken: set<string>) {
    && taken <= EligibleIds(box, now) && |taken| <= n
    && forall id :: id in EligibleIds(box, now) && id !in taken ==>
         |taken| == n && forall x :: x in taken ==> !KeyLess(box[id], box[x])
  }

  // -------------------------------------------------------------- uniqueness

  lemma TakenAreBelow(box: Box, now: int, n: nat, taken: set<string>, id: string)
    requires Choice(box, now, n, taken) && NoTieAtCut(box, now, n) && id in EligibleIds(box, now)
    ensures id in taken <==> |Below(box, now, id)| < n
  {
    var below, upTo := Below(box, now, id), UpTo(box, now, id);
    if id in taken {
      assert below <= taken - {id};
      SubsetSize(below, taken - {id});
    } else {
      SubsetSize(below, upTo);
      assert taken <= upTo && id in upTo;
      SubsetSize(taken + {id}, upTo);
    }
  }

  lemma ChoicesAgree(box: Box, now: int, n: nat, a: set<string>, b: set<string>)
    requires Choice(box, now, n, a) && Choice(box, now, n, b) && NoTieAtCut(box, now, n)
    ensures a == b
  {
    forall id ensures id in a <==> id in b {
      if id in EligibleIds(box, now) {
        TakenAreBelow(box, now, n, a, id);
        TakenAreBelow(box, now, n, b, id);
      }
    }
  }

  lemma Outside<T>(small: set<T>, large: set<T>) returns (x: T)
    requires |small| < |large|
    ensures x in large && x !in small
  {
    if large <= small { SubsetSize(large, small); }
    x :| x in large && x !in small;
  }

  /** Two deliveries of one key, one taken and one not, may be swapped. */
  lemma SwapIsAChoice(box: Box, now: int, n: nat, taken: set<string>, c: string, e: string)
    requires Choice(box, now, n, taken) && c in taken && e in EligibleIds(box, now) && e !in taken
    requires !KeyLess(box[c], box[e]) && !KeyLess(box[e], box[c])
    ensures Choice(box, now, n, taken - {c} + {e})
  {
    var other := taken - {c} + {e};
    forall id | id in EligibleIds(box, now) && id !in other
      ensures |other| == n && forall x :: x in other ==> !KeyLess(box[id], box[x])
    {
      assert id == c || id !in taken;
      forall x | x in other ensures !KeyLess(box[id], box[x]) {
        assert x == e || x in taken;
      }
    }
  }

  lemma TieMeansChoice(box: Box, now: int, n: nat, taken: set<string>) returns (other: set<string>)
    requires Choice(box, now, n, taken) && !NoTieAtCut(box, now, n)
    ensures Choice(box, now, n, other) && other != taken
  {
    var id :| id in EligibleIds(box, now) && |Below(box, now, id)| < n && |UpTo(box, now, id)| > n;
    var e := Outside(taken, UpTo(box, now, id));
    var c := Outside(Below(box, now, id), taken);
    SwapIsAChoice(box, now, n, taken, c, e);
    other := taken - {c} + {e};
    assert e in other;
  }

  /** A claim could not have taken anything else exactly when no tie straddles the cut. */
  lemma ChoiceIsUniqueExactly(box: Box, now: int, n: nat, taken: set<string>)
    requires Choice(box, now, n, taken)
    ensures NoTieAtCut(box, now, n) <==> forall other :: Choice(box, now, n, other) ==> other == taken
  {
    if NoTieAtCut(box, now, n) {
      forall other | Choice(box, now, n, other) ensures other == taken { ChoicesAgree(box, now, n, other, taken); }
    } else {
      var other := TieMeansChoice(box, now, n, taken);
    }
  }

  // --------------------------------------------------------------- existence

  ghost predicate Ascending(box: Box, ids: seq<string>) {
    && (forall id :: id in ids ==> id in box)
    && forall a, b :: 0 <= a < b < |ids| ==> !KeyLess(box[ids[b]], box[ids[a]])
  }

  lemma {:induction false} LeastKey(box: Box, ids: set<string>) returns (least: string)
    requires ids != {} && ids <= box.Keys
    ensures least in ids && forall x :: x in ids ==> !KeyLess(box[x], box[least])
    decreases |ids|
  {
    var id :| id in ids;
    least := id;
    if ids != {id} {
      assert ids - {id} != {};
      var rest := LeastKey(box, ids - {id});
      if KeyLess(box[rest], box[id]) { least := rest; }
      forall x | x in ids ensures !KeyLess(box[x], box[least]) {
        assert x == id || x in ids - {id};
      }
    }
  }

  lemma {:induction false} Sorted(box: Box, ids: set<string>) returns (q: seq<string>)
    requires ids <= box.Keys
    ensures NoRepeats(q) && Elements(q) == ids && Ascending(box, q)
    decreases |ids|
  {
    if ids == {} {
      q := [];
    } else {
      var least := LeastKey(box, ids);
      var rest := Sorted(box, ids - {least});
      q := [least] + rest;
      assert forall x :: x in rest <==> x in ids - {least} by {
        assert forall x :: x in rest <==> x in Elements(rest);
      }
      assert forall k :: 0 <= k < |rest| ==> rest[k] in rest;
      assert Elements(q) == {least} + Elements(rest);
    }
  }

  /** There is always something a claim may take. */
  lemma SomeChoice(box: Box, now: int, n: nat) returns (taken: set<string>)
    ensures Choice(box, now, n, taken)
  {
    var q := Sorted(box, EligibleIds(box, now));
    var first := if |q| < n then q else q[..n];
    taken := Elements(first);
    assert forall x :: x in q <==> x in Elements(q);
    assert forall x :: x in first ==> x in q;
    ElementCount(first);
    assert forall a :: 0 <= a < |first| ==> q[a] == first[a] && q[a] in taken;
    forall id | id in EligibleIds(box, now) && id !in taken
      ensures |taken| == n && forall x :: x in taken ==> !KeyLess(box[id], box[x])
    {
      var b :| 0 <= b < |q| && q[b] == id;
      forall x | x in taken ensures !KeyLess(box[id], box[x]) {
        var a :| 0 <= a < |first| && first[a] == x;
        assert q[a] == x;
      }
    }
  }
}
