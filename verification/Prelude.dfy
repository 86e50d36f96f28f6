/** Absent values and failures: Python's `None`, JavaScript's `undefined`, and raised exceptions. */
module Prelude {

  datatype Option<+T> = None | Some(value: T) {
    function GetOr(default: T): T {
      if Some? then value else default
    }
  }

  datatype Result<+T, +E> = Ok(value: T) | Err(error: E) {
    predicate IsFailure() {
      Err?
    }

    function PropagateFailure<U>(): Result<U, E>
      requires Err?
    {
      Err(error)
    }

    function Extract(): T
      requires Ok?
    {
      value
    }
  }

  function Max(a: int, b: int): int {
    if a < b then b else a
  }

  function Min(a: int, b: int): int {
    if a < b then a else b
  }

  lemma TimesMonotone(a: int, b: int, c: int)
    requires a <= b && c >= 0
    ensures a * c <= b * c
  {
    assert (b - a) * c >= 0;
  }

  ghost predicate NoDuplicates<T>(s: seq<T>) {
    forall i, j :: 0 <= i < j < |s| ==> s[i] != s[j]
  }

  /** The elements of `s` that satisfy `keep`, in order. */
  function Filter<T(!new)>(keep: T -> bool, s: seq<T>): (kept: seq<T>)
    ensures forall x :: x in kept <==> x in s && keep(x)
  {
    if s == [] then [] else
    var init := Filter(keep, s[..|s| - 1]);
    var last := s[|s| - 1];
    assert s == s[..|s| - 1] + [last];
    if keep(last) then init + [last] else init
  }

  /** `change` applied to every element, in order. */
  function Map<T, U>(change: T -> U, s: seq<T>): (changed: seq<U>)
    ensures |changed| == |s| && forall i :: 0 <= i < |s| ==> changed[i] == change(s[i])
  {
    seq(|s|, i requires 0 <= i < |s| => change(s[i]))
  }

  lemma MapCons<T, U>(change: T -> U, x: T, s: seq<T>)
    ensures Map(change, [x] + s) == [change(x)] + Map(change, s)
  {
  }

  lemma MapOne<T, U>(change: T -> U, x: T)
    ensures Map(change, [x]) == [change(x)]
  {
  }

  lemma FilterOne<T(!new)>(keep: T -> bool, x: T)
    ensures Filter(keep, [x]) == if keep(x) then [x] else []
  {
    assert [x][..0] == [];
  }

  lemma MapAppend<T, U>(change: T -> U, a: seq<T>, b: seq<T>)
    ensures Map(change, a + b) == Map(change, a) + Map(change, b)
  {
  }

  lemma {:induction false} FilterAppend<T(!new)>(keep: T -> bool, a: seq<T>, b: seq<T>)
    ensures Filter(keep, a + b) == Filter(keep, a) + Filter(keep, b)
  {
    if b == [] {
      assert a + b == a;
    } else {
      assert (a + b)[..|a + b| - 1] == a + b[..|b| - 1];
      FilterAppend(keep, a, b[..|b| - 1]);
    }
  }

  lemma {:induction false} FilterAll<T(!new)>(keep: T -> bool, s: seq<T>)
    requires forall x :: x in s ==> keep(x)
    ensures Filter(keep, s) == s
  {
    if s != [] {
      FilterAll(keep, s[..|s| - 1]);
      assert s == s[..|s| - 1] + [s[|s| - 1]];
    }
  }

  lemma {:induction false} FilterNone<T(!new)>(keep: T -> bool, s: seq<T>)
    requires forall x :: x in s ==> !keep(x)
    ensures Filter(keep, s) == []
  {
    if s != [] {
      FilterNone(keep, s[..|s| - 1]);
    }
  }

  /** Two filters that agree on every element of `s` keep the same elements. */
  lemma {:induction false} FilterAgree<T(!new)>(p: T -> bool, q: T -> bool, s: seq<T>)
    requires forall x :: x in s ==> p(x) == q(x)
    ensures Filter(p, s) == Filter(q, s)
  {
    if s != [] {
      FilterAgree(p, q, s[..|s| - 1]);
    }
  }

  /** Filtering twice is filtering once by both. */
  lemma {:induction false} FilterFilter<T(!new)>(p: T -> bool, q: T -> bool, both: T -> bool, s: seq<T>)
    requires forall x :: x in s ==> both(x) == (q(x) && p(x))
    ensures Filter(p, Filter(q, s)) == Filter(both, s)
  {
    if s != [] {
      var last := s[|s| - 1];
      FilterFilter(p, q, both, s[..|s| - 1]);
      if q(last) {
        FilterAppend(p, Filter(q, s[..|s| - 1]), [last]);
        assert Filter(p, [last]) == if p(last) then [last] else [];
      }
    }
  }

  /** Growing sequences to which only one step adds anything. */
  lemma {:induction false} OneOfMany<T>(whole: seq<seq<T>>, parts: seq<seq<T>>, i: nat, n: nat)
    requires |whole| == |parts| + 1 && whole[0] == [] && n <= |parts| && i < |parts|
    requires forall k :: 0 <= k < |parts| ==> whole[k + 1] == whole[k] + parts[k]
    requires forall k :: 0 <= k < |parts| && k != i ==> parts[k] == []
    ensures whole[n] == if i < n then parts[i] else []
  {
    if n > 0 {
      OneOfMany(whole, parts, i, n - 1);
      assert whole[n - 1 + 1] == whole[n - 1] + parts[n - 1];
    }
  }

  ghost predicate KeptBy(holds: nat -> bool, n: nat) {
    holds(n) ==> holds(n + 1)
  }

  /** What each step keeps goes on to hold. */
  lemma {:induction false} Onward(holds: nat -> bool, k: nat, n: nat)
    requires k <= n && holds(k)
    requires forall m: nat :: k <= m ==> KeptBy(holds, m)
    ensures holds(n)
    decreases n
  {
    if k < n {
      Onward(holds, k, n - 1);
      assert KeptBy(holds, n - 1);
    }
  }

  /** A set that lies inside a finite one is no larger. */
  lemma SubsetSize<T>(small: set<T>, large: set<T>)
    requires small <= large
    ensures |small| <= |large|
  {
    assert large == small + (large - small);
  }
}
