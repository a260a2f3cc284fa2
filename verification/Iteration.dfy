/** Repeating a step. */
module Iteration {

  function Iterate<S>(f: S -> S, s: S, n: nat): S
    decreases n
  {
    if n == 0 then s else Iterate(f, f(s), n - 1)
  }

  lemma {:induction false} FixedStays<S>(f: S -> S, s: S, n: nat)
    requires f(s) == s
    ensures Iterate(f, s, n) == s
  {
    if n > 0 {
      FixedStays(f, s, n - 1);
    }
  }

  lemma {:induction false} IterationsJoin<S>(f: S -> S, s: S, m: nat, n: nat)
    ensures Iterate(f, s, m + n) == Iterate(f, Iterate(f, s, m), n)
    decreases m
  {
    if m > 0 {
      IterationsJoin(f, f(s), m - 1, n);
    }
  }

  /** The first two steps, one by one. */
  lemma TwoSteps<S>(f: S -> S, s: S, n: nat)
    ensures Iterate(f, s, n + 1) == Iterate(f, f(s), n)
    ensures Iterate(f, s, n + 2) == Iterate(f, f(f(s)), n)
  {
  }

  // ---- Paths: some number of steps from one state to another ----

  predicate StepOf<S(==)>(f: S -> S, path: seq<S>, i: nat) {
    i + 1 < |path| && path[i + 1] == f(path[i])
  }

  predicate IsPath<S(==)>(f: S -> S, path: seq<S>, s: S, s': S, n: nat) {
    && |path| == n + 1 && path[0] == s && path[n] == s'
    && forall i: nat :: i < n ==> StepOf(f, path, i)
  }

  ghost predicate Path<S(!new)>(f: S -> S, s: S, s': S, n: nat) {
    exists path: seq<S> :: IsPath(f, path, s, s', n)
  }

  lemma PathOfNone<S(!new)>(f: S -> S, s: S)
    ensures Path(f, s, s, 0)
  {
    assert IsPath(f, [s], s, s, 0);
  }

  lemma PathOfOne<S(!new)>(f: S -> S, s: S)
    ensures Path(f, s, f(s), 1)
  {
    assert IsPath(f, [s, f(s)], s, f(s), 1);
  }

  lemma PathJoin<S(!new)>(f: S -> S, a: S, b: S, c: S, m: nat, n: nat)
    requires Path(f, a, b, m) && Path(f, b, c, n)
    ensures Path(f, a, c, m + n)
  {
    var p: seq<S> :| IsPath(f, p, a, b, m);
    var q: seq<S> :| IsPath(f, q, b, c, n);
    var path := p + q[1..];
    forall i: nat | i < m + n
      ensures StepOf(f, path, i)
    {
      if i < m {
        assert StepOf(f, p, i);
      } else {
        assert StepOf(f, q, i - m);
      }
    }
    assert IsPath(f, path, a, c, m + n);
  }

  lemma {:induction false} PathIterates<S(!new)>(f: S -> S, s: S, s': S, n: nat)
    requires Path(f, s, s', n)
    ensures Iterate(f, s, n) == s'
    decreases n
  {
    if n > 0 {
      var path: seq<S> :| IsPath(f, path, s, s', n);
      assert StepOf(f, path, 0);
      forall i: nat | i < n - 1
        ensures StepOf(f, path[1..], i)
      {
        assert StepOf(f, path, i + 1);
      }
      assert IsPath(f, path[1..], f(s), s', n - 1);
      PathIterates(f, f(s), s', n - 1);
    }
  }

  /** A path that ends where the step does nothing is over by any later time. */
  lemma PathSettles<S(!new)>(f: S -> S, s: S, s': S, n: nat, bound: nat)
    requires Path(f, s, s', n) && n <= bound && f(s') == s'
    ensures Iterate(f, s, bound) == s'
  {
    PathIterates(f, s, s', n);
    FixedStays(f, s', bound - n);
    IterationsJoin(f, s, n, bound - n);
  }
}
