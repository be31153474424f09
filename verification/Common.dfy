/** Small vocabulary shared by every component. */
module Common {

  /** An optional value: Python's `None`, or a SQL NULL. */
  datatype Option<+T> = None | Some(value: T)

  /** An exception class together with the value returned when none is raised. */
  datatype Result<+T, +E> = Ok(value: T) | Err(error: E) {
    predicate IsFailure() {
      Err?
    }

    function PropagateFailure<U>(): Result<U, E>
      requires Err?
    {
      Err(error)
    }

    function Extract(): T
      requires Ok?
    {
      value
    }
  }

  function Max(a: int, b: int): int {
    if a < b then b else a
  }

  function Min(a: int, b: int): int {
    if a < b then a else b
  }

  /** Opaque text: a missing value reads as the empty string and nothing is trimmed. */
  function Text(value: Option<string>): string {
    if value.Some? then value.value else ""
  }

  /** A missing number reads as zero. */
  function AsInt(value: Option<int>): int {
    if value.Some? then value.value else 0
  }

  function Pow2(n: nat): nat {
    if n == 0 then 1 else 2 * Pow2(n - 1)
  }

  lemma SubsetSize<T>(small: set<T>, large: set<T>)
    requires small <= large
    ensures |small| <= |large|
    ensures |small| == |large| ==> small == large
  {
    assert large == small + (large - small);
  }

  ghost predicate NoRepeats<T>(s: seq<T>) {
    forall i, j :: 0 <= i < j < |s| ==> s[i] != s[j]
  }

  lemma SamePlace<T>(s: seq<T>, i: nat, j: nat)
    requires NoRepeats(s) && i < |s| && j < |s| && s[i] == s[j]
    ensures i == j
  {
  }

  function Elements<T>(s: seq<T>): set<T> {
    set x | x in s
  }

  lemma {:induction false} ElementCount<T>(s: seq<T>)
    requires NoRepeats(s)
    ensures |Elements(s)| == |s|
  {
    if s != [] {
      var front, last := s[..|s| - 1], s[|s| - 1];
      ElementCount(front);
      assert s == front + [last];
      assert Elements(s) == Elements(front) + {last};
    }
  }

  lemma HasMember<T>(s: seq<T>)
    requires s != []
    ensures exists x :: x in s
  {
    assert s[0] in s;
  }

  lemma OneMore<T>(s: set<T>, x: T)
    ensures |s + {x}| == |s| + if x in s then 0 else 1
  {
    if x in s { assert s + {x} == s; }
  }

  lemma Alone<T>(s: set<T>, x: T)
    ensures |s| == 1 && x in s <==> x in s && forall y :: y in s ==> y == x
  {
    if x in s {
      assert s == {x} + (s - {x});
      if forall y :: y in s ==> y == x { assert s - {x} == {}; }
      forall y | y in s && y != x ensures |s| > 1 { SubsetSize({x, y}, s); }
    }
  }
}
