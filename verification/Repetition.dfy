/** Repeating a stretch of any deterministic process whose steps respect some notion of being alike. */
module Repetition {
  import opened Prelude

  datatype Process<!C, !X> = Process(next: (C, X) -> C, alike: (C, C) -> bool, going: C -> bool)

  predicate StepAlike<C, X>(m: Process<C, X>, c: C, d: C, x: X) {
    m.alike(c, d) && m.going(d) ==> m.going(c) && m.alike(m.next(c, x), m.next(d, x))
  }

  ghost predicate StepsAlike<C(!new), X(!new)>(m: Process<C, X>) {
    forall c, d, x :: StepAlike(m, c, d, x)
  }

  ghost predicate IsEquivalence<C(!new), X(!new)>(m: Process<C, X>) {
    && (forall c :: m.alike(c, c))
    && (forall c, d, e :: m.alike(c, d) && m.alike(d, e) ==> m.alike(c, e))
  }

  function State<C, X>(m: Process<C, X>, start: C, choices: nat -> X, n: nat): C {
    if n == 0 then start else m.next(State(m, start, choices, n - 1), choices(n - 1))
  }

  /** From step `a` to step `a + p` the process goes on, and `closing` then leads to where step `a` has led. */
  ghost predicate Closes<C, X>(m: Process<C, X>, start: C, choices: nat -> X, a: nat, p: nat, closing: X) {
    && (forall k :: a <= k <= a + p ==> GoesOn(m, start, choices, k))
    && m.alike(m.next(State(m, start, choices, a + p), closing), State(m, start, choices, a + 1))
  }

  predicate GoesOn<C, X>(m: Process<C, X>, start: C, choices: nat -> X, k: nat) {
    m.going(State(m, start, choices, k))
  }

  lemma {:induction false} SameBeginning<C, X>(m: Process<C, X>, start: C, choices: nat -> X, others: nat -> X, n: nat)
    requires forall k: nat :: k < n ==> choices(k) == others(k)
    ensures State(m, start, choices, n) == State(m, start, others, n)
  {
    if n > 0 {
      SameBeginning(m, start, choices, others, n - 1);
    }
  }

  // ---------------------------------------------------------------- phases

  /** Where in a stretch of `p` steps the k-th step falls: 1, 2, ..., p, 1, 2, ... */
  function Phase(p: nat, k: nat): (r: nat)
    requires p > 0
    ensures 1 <= r <= p
  {
    if k == 0 then 1 else NextPhase(p, Phase(p, k - 1))
  }

  function NextPhase(p: nat, r: nat): nat {
    if r >= p then 1 else r + 1
  }

  /** The choice of the stretch at phase `r`. */
  function ChoiceAt<X>(choices: nat -> X, a: nat, p: nat, closing: X, r: nat): X {
    if r >= p then closing else choices(a + r)
  }

  /** The given choices up to step `a`, then those of the next `p` steps over and over, the last of them `closing`. */
  function Repeated<X>(choices: nat -> X, a: nat, p: nat, closing: X): nat -> X
    requires p > 0
  {
    (n: nat) => if n <= a then choices(n) else ChoiceAt(choices, a, p, closing, Phase(p, n - a - 1))
  }

  lemma {:induction false} PhaseCounts(p: nat, k: nat)
    requires k < p
    ensures Phase(p, k) == k + 1
  {
    if k > 0 {
      PhaseCounts(p, k - 1);
    }
  }

  lemma {:induction false} PhaseReturns(p: nat, k: nat)
    requires p > 0
    ensures Phase(p, k + p) == Phase(p, k)
  {
    if k > 0 {
      PhaseReturns(p, k - 1);
      assert k + p - 1 == k - 1 + p;
    } else {
      PhaseCounts(p, p - 1);
      assert Phase(p, p) == NextPhase(p, Phase(p, p - 1));
    }
  }

  lemma RepeatedBefore<X>(choices: nat -> X, a: nat, p: nat, closing: X, n: nat)
    requires p > 0 && n < a + p
    ensures Repeated(choices, a, p, closing)(n) == choices(n)
  {
    if n > a {
      PhaseCounts(p, n - a - 1);
    }
  }

  lemma RepeatedCloses<X>(choices: nat -> X, a: nat, p: nat, closing: X, n: nat)
    requires p > 0 && n == a + p
    ensures Repeated(choices, a, p, closing)(n) == closing
  {
    PhaseCounts(p, n - a - 1);
    assert ChoiceAt(choices, a, p, closing, Phase(p, n - a - 1)) == closing;
  }

  lemma RepeatedRecurs<X>(choices: nat -> X, a: nat, p: nat, closing: X, n: nat)
    requires p > 0 && n > a
    ensures Repeated(choices, a, p, closing)(n + p) == Repeated(choices, a, p, closing)(n)
  {
    PhaseReturns(p, n - a - 1);
    assert n + p - a - 1 == n - a - 1 + p;
  }

  lemma StepOfStretch<C(!new), X(!new)>(m: Process<C, X>, start: C, choices: nat -> X, a: nat, p: nat, closing: X,
                                        r: nat)
    requires IsEquivalence(m) && Closes(m, start, choices, a, p, closing) && 1 <= r <= p
    ensures m.alike(m.next(State(m, start, choices, a + r), ChoiceAt(choices, a, p, closing, r)),
                    State(m, start, choices, a + NextPhase(p, r)))
  {
    if r < p {
      var c := State(m, start, choices, a + r + 1);
      assert c == m.next(State(m, start, choices, a + r), choices(a + r));
      assert m.alike(c, c);
    }
  }

  lemma StepFollows<C(!new), X(!new)>(m: Process<C, X>, c: C, d: C, f: C, x: X)
    requires StepsAlike(m) && IsEquivalence(m)
    requires m.alike(c, d) && m.going(d) && m.alike(m.next(d, x), f)
    ensures m.alike(m.next(c, x), f)
  {
    assert StepAlike(m, c, d, x);
  }

  /** After `n` steps the repetition is where the stretch is at phase `r`. */
  ghost predicate IsAt<C, X>(m: Process<C, X>, start: C, choices: nat -> X, again: nat -> X, n: nat, k: nat) {
    m.alike(State(m, start, again, n), State(m, start, choices, k))
  }

  lemma StaysInStep<C(!new), X(!new)>(m: Process<C, X>, start: C, choices: nat -> X, again: nat -> X, a: nat, p: nat,
                                      closing: X, n: nat, r: nat)
    requires StepsAlike(m) && IsEquivalence(m) && Closes(m, start, choices, a, p, closing)
    requires 1 <= r <= p && IsAt(m, start, choices, again, n, a + r) && again(n) == ChoiceAt(choices, a, p, closing, r)
    ensures IsAt(m, start, choices, again, n + 1, a + NextPhase(p, r))
  {
    StepOfStretch(m, start, choices, a, p, closing, r);
    assert GoesOn(m, start, choices, a + r);
    StepFollows(m, State(m, start, again, n), State(m, start, choices, a + r),
      State(m, start, choices, a + NextPhase(p, r)), again(n));
  }

  lemma {:induction false} RepetitionFollows<C(!new), X(!new)>(m: Process<C, X>, start: C, choices: nat -> X, a: nat,
                                                               p: nat, closing: X, n: nat)
    requires StepsAlike(m) && IsEquivalence(m) && p > 0 && Closes(m, start, choices, a, p, closing) && n > a
    ensures IsAt(m, start, choices, Repeated(choices, a, p, closing), n, a + Phase(p, n - a - 1))
    decreases n
  {
    var again := Repeated(choices, a, p, closing);
    if n == a + 1 {
      SameBeginning(m, start, choices, again, n);
    } else {
      RepetitionFollows(m, start, choices, a, p, closing, n - 1);
      StaysInStep(m, start, choices, again, a, p, closing, n - 1, Phase(p, n - 1 - a - 1));
    }
  }

  /** A stretch that closes can be repeated for ever. */
  lemma RepeatsForever<C(!new), X(!new)>(m: Process<C, X>, start: C, choices: nat -> X, a: nat, p: nat, closing: X,
                                         n: nat)
    requires StepsAlike(m) && IsEquivalence(m) && p > 0 && Closes(m, start, choices, a, p, closing) && n > a
    ensures GoesOn(m, start, Repeated(choices, a, p, closing), n)
  {
    RepetitionFollows(m, start, choices, a, p, closing, n);
    var k := a + Phase(p, n - a - 1);
    assert GoesOn(m, start, choices, k);
    assert StepAlike(m, State(m, start, Repeated(choices, a, p, closing), n), State(m, start, choices, k), closing);
  }

  // ---------------------------------------------------------------- going round

  ghost predicate FollowsAt<P(!new)>(place: nat -> P, next: P -> Option<P>, k: nat) {
    next(place(k)) == Some(place(k + 1))
  }

  /** Where each place determines the next one, a place met again starts a period. */
  lemma {:induction false} IsPeriodic<P(!new)>(place: nat -> P, next: P -> Option<P>, i: nat, p: nat, k: nat)
    requires forall k: nat :: i <= k < i + 2 * p ==> FollowsAt(place, next, k)
    requires place(i) == place(i + p) && i <= k <= i + p
    ensures place(k + p) == place(k)
    decreases k
  {
    if i < k {
      IsPeriodic(place, next, i, p, k - 1);
      assert FollowsAt(place, next, k - 1) && FollowsAt(place, next, k - 1 + p);
    }
  }

  lemma {:induction false} NextVisit<P(!new)>(place: nat -> P, a: nat, last: nat) returns (b: nat)
    requires a < last && place(last) == place(a)
    ensures a < b <= last && place(b) == place(a)
    ensures forall k: nat :: a < k < b ==> place(k) != place(a)
    decreases last
  {
    if k: nat :| a < k < last && place(k) == place(a) {
      b := NextVisit(place, a, k);
    } else {
      b := last;
    }
  }

  /** Going round twice, there is a way from a visit of `first` to the next one, or else from `k0` round to itself. */
  lemma RoundWithoutFirst<P(!new)>(place: nat -> P, next: P -> Option<P>, i: nat, p: nat, k0: nat, first: P)
    returns (a: nat, b: nat)
    requires forall k: nat :: i <= k < i + 2 * p ==> FollowsAt(place, next, k)
    requires place(i) == place(i + p) && i <= k0 < i + p
    ensures i <= a < b <= i + 2 * p && place(a) == place(b) && (a == k0 || place(a) == first)
    ensures forall k: nat :: a < k < b ==> place(k) != first
  {
    if k: nat :| i <= k < i + p && place(k) == first {
      IsPeriodic(place, next, i, p, k);
      a := k;
      b := NextVisit(place, k, k + p);
    } else {
      a, b := k0, k0 + p;
      IsPeriodic(place, next, i, p, k0);
      forall k: nat | k0 < k < k0 + p ensures place(k) != first {
        if k >= i + p {
          IsPeriodic(place, next, i, p, k - p);
          assert place(k - p) != first;
        }
      }
    }
  }
}
