/** Runs of a state machine, and the two ways of reasoning about them used everywhere else:
    an invariant of every state, and a relation between an earlier and a later state. */
module Runs {

  ghost predicate Linked<S(!new)>(next: (S, S) -> bool, run: seq<S>, i: nat) {
    i + 1 < |run| ==> next(run[i], run[i + 1])
  }

  ghost predicate Run<S(!new)>(init: S -> bool, next: (S, S) -> bool, run: seq<S>) {
    run != [] && init(run[0]) && forall i: nat :: Linked(next, run, i)
  }

  lemma {:induction false} Invariant<S(!new)>(init: S -> bool, next: (S, S) -> bool, inv: S -> bool,
                                              run: seq<S>, i: nat)
    requires Run(init, next, run) && i < |run|
    requires forall s :: init(s) ==> inv(s)
    requires forall s, s' :: inv(s) && next(s, s') ==> inv(s')
    ensures inv(run[i])
    decreases i
  {
    if i > 0 {
      Invariant(init, next, inv, run, i - 1);
      assert Linked(next, run, i - 1);
    }
  }

  lemma {:induction false} Monotone<S(!new)>(init: S -> bool, next: (S, S) -> bool, inv: S -> bool,
                                             rel: (S, S) -> bool, run: seq<S>, i: nat, j: nat)
    requires Run(init, next, run) && i <= j < |run|
    requires forall s :: init(s) ==> inv(s)
    requires forall s, s' :: inv(s) && next(s, s') ==> inv(s')
    requires forall s, s' :: inv(s) && next(s, s') ==> rel(s, s')
    requires forall s :: inv(s) ==> rel(s, s)
    requires forall a, b, c :: rel(a, b) && rel(b, c) ==> rel(a, c)
    ensures rel(run[i], run[j])
    decreases j
  {
    Invariant(init, next, inv, run, j);
    if i < j {
      Monotone(init, next, inv, rel, run, i, j - 1);
      Invariant(init, next, inv, run, j - 1);
      assert Linked(next, run, j - 1);
    }
  }

  /** If `p` holds now, was false at the start and only begins at a step where `q` holds, then it
      has held without a break since some state where `q` held. */
  lemma {:induction false} Since<S(!new)>(init: S -> bool, next: (S, S) -> bool, inv: S -> bool,
                                          p: S -> bool, q: S -> bool, run: seq<S>, i: nat) returns (a: nat)
    requires Run(init, next, run) && i < |run| && p(run[i])
    requires forall s :: init(s) ==> inv(s) && !p(s)
    requires forall s, s' :: inv(s) && next(s, s') ==> inv(s')
    requires forall s, s' :: inv(s) && next(s, s') && p(s') ==> p(s) || q(s')
    ensures a <= i && q(run[a]) && forall m :: a <= m <= i ==> p(run[m])
    decreases i
  {
    if i > 0 {
      Invariant(init, next, inv, run, i - 1);
      assert Linked(next, run, i - 1);
      if p(run[i - 1]) {
        a := Since(init, next, inv, p, q, run, i - 1);
      } else {
        a := i;
      }
    } else {
      assert false;
    }
  }

  /** Steps that lead on from `s`. */
  ghost predicate Path<S(!new)>(next: (S, S) -> bool, s: S, ss: seq<S>)
    decreases |ss|
  {
    ss == [] || (next(s, ss[0]) && Path(next, ss[0], ss[1..]))
  }

  function End<S>(s: S, ss: seq<S>): S { if ss == [] then s else ss[|ss| - 1] }

  lemma {:induction false} PathJoin<S(!new)>(next: (S, S) -> bool, s: S, ss: seq<S>, more: seq<S>)
    requires Path(next, s, ss) && Path(next, End(s, ss), more)
    ensures Path(next, s, ss + more) && End(s, ss + more) == End(End(s, ss), more)
    decreases |ss|
  {
    if ss == [] {
      assert ss + more == more;
    } else {
      assert End(ss[0], ss[1..]) == End(s, ss);
      PathJoin(next, ss[0], ss[1..], more);
      assert (ss + more)[1..] == ss[1..] + more;
    }
  }

  /** A run goes on along any steps that start where it ends. */
  lemma {:induction false} PathRun<S(!new)>(init: S -> bool, next: (S, S) -> bool, run: seq<S>, ss: seq<S>)
    requires Run(init, next, run) && Path(next, run[|run| - 1], ss)
    ensures Run(init, next, run + ss)
    decreases |ss|
  {
    if ss == [] {
      assert run + ss == run;
    } else {
      var longer := run + [ss[0]];
      forall i: nat
        ensures Linked(next, longer, i)
      {
        assert Linked(next, run, i);
      }
      PathRun(init, next, longer, ss[1..]);
      assert run + ss == longer + ss[1..];
    }
  }

  // ----- Coming to an end -----

  /** What is left to do, the most important first. */
  datatype Budget = Budget(a: int, b: nat, c: nat)

  predicate Lower(m: Budget, m': Budget) {
    || 0 <= m'.a < m.a
    || (m'.a == m.a && m'.b < m.b)
    || (m'.a == m.a && m'.b == m.b && m'.c < m.c)
  }

  ghost predicate Stuck<S(!new)>(next: (S, S) -> bool, s: S) { forall s' :: !next(s, s') }

  /** A schedule, the state at each moment, goes on at moment `i` if it can. */
  ghost predicate GoesOn<S(!new)>(next: (S, S) -> bool, f: nat -> S, i: nat) {
    next(f(i), f(i + 1)) || Stuck(next, f(i))
  }

  /** If every step lowers a budget, every schedule gets stuck. */
  lemma {:induction false} GetsStuck<S(!new)>(next: (S, S) -> bool, inv: S -> bool, left: S -> Budget,
                                              f: nat -> S, i: nat) returns (j: nat)
    requires inv(f(i)) && forall k: nat :: GoesOn(next, f, k)
    requires forall s, s' :: inv(s) && next(s, s') ==> inv(s') && Lower(left(s), left(s'))
    ensures i <= j && inv(f(j)) && Stuck(next, f(j))
    ensures forall k :: i <= k < j ==> next(f(k), f(k + 1))
    decreases left(f(i)).a, left(f(i)).b, left(f(i)).c
  {
    assert GoesOn(next, f, i);
    if next(f(i), f(i + 1)) {
      j := GetsStuck(next, inv, left, f, i + 1);
    } else {
      j := i;
    }
  }

  // ----- Waiting -----

  /** Each of `c` waits for the next and the last for the first. */
  ghost predicate WaitCycle(waits: (nat, nat) -> bool, c: seq<nat>) {
    c != [] && waits(c[|c| - 1], c[0]) && forall i :: 0 <= i < |c| - 1 ==> waits(c[i], c[i + 1])
  }

  lemma {:induction false} ChainClimbs(waits: (nat, nat) -> bool, rank: nat -> nat, c: seq<nat>, i: nat)
    requires WaitCycle(waits, c) && i < |c|
    requires forall t, u :: waits(t, u) ==> rank(t) < rank(u)
    ensures rank(c[0]) + i <= rank(c[i])
    decreases i
  {
    if i > 0 {
      ChainClimbs(waits, rank, c, i - 1);
      assert waits(c[i - 1], c[i - 1 + 1]);
    }
  }

  /** If whoever a thread waits for has a higher rank, no threads wait for each other in a circle. */
  lemma NoCycle(waits: (nat, nat) -> bool, rank: nat -> nat, c: seq<nat>)
    requires forall t, u :: waits(t, u) ==> rank(t) < rank(u)
    ensures !WaitCycle(waits, c)
  {
    if WaitCycle(waits, c) {
      ChainClimbs(waits, rank, c, |c| - 1);
    }
  }
}
