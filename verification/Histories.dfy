/** Histories of a concurrent object: calls, returns and, between the two, the instant at which an
    operation takes effect. `O` are the operations, `R` what an effect finds or returns. */
module Histories {

  datatype HistoryEvent<+O, +R> =
    | Call(t: nat, op: O)
    | Effect(t: nat, op: O, res: R)
    | Return(t: nat, op: O, res: R)

  datatype Phase<+O, +R> = Out | Called(op: O) | Done(op: O, res: R)

  function Front<T>(s: seq<T>): seq<T>
    requires s != []
  {
    s[..|s| - 1]
  }

  function Last<T>(s: seq<T>): T
    requires s != []
  {
    s[|s| - 1]
  }

  function PhaseAfter<O, R>(e: HistoryEvent<O, R>): Phase<O, R> {
    match e
    case Call(_, op) => Called(op)
    case Effect(_, op, res) => Done(op, res)
    case Return(_, _, _) => Out
  }

  /** Where thread `t` stands at the end of the history. */
  function PhaseOf<O, R>(h: seq<HistoryEvent<O, R>>, t: nat): Phase<O, R> {
    if h == [] then Out
    else if Last(h).t == t then PhaseAfter(Last(h))
    else PhaseOf(Front(h), t)
  }

  /** The phase an event may follow. */
  function PhaseBefore<O, R>(e: HistoryEvent<O, R>): Phase<O, R> {
    match e
    case Call(_, _) => Out
    case Effect(_, op, _) => Called(op)
    case Return(_, op, res) => Done(op, res)
  }

  /** Each thread repeats call, effect, return, on the same operation and with the same result. */
  ghost predicate WellFormed<O(!new), R(!new)>(h: seq<HistoryEvent<O, R>>) {
    h == [] || (WellFormed(Front(h)) && PhaseOf(Front(h), Last(h).t) == PhaseBefore(Last(h)))
  }

  lemma SnocWellFormed<O(!new), R(!new)>(h: seq<HistoryEvent<O, R>>, e: HistoryEvent<O, R>)
    ensures Front(h + [e]) == h && Last(h + [e]) == e
    ensures WellFormed(h + [e]) <==> WellFormed(h) && PhaseOf(h, e.t) == PhaseBefore(e)
    ensures PhaseOf(h + [e], e.t) == PhaseAfter(e)
    ensures forall t :: t != e.t ==> PhaseOf(h + [e], t) == PhaseOf(h, t)
  {
    assert Front(h + [e]) == h;
  }

  lemma {:induction false} PrefixWellFormed<O(!new), R(!new)>(h: seq<HistoryEvent<O, R>>, n: nat)
    requires WellFormed(h) && n <= |h|
    ensures WellFormed(h[..n])
    decreases |h|
  {
    if n < |h| {
      assert Front(h)[..n] == h[..n];
      PrefixWellFormed(Front(h), n);
    } else {
      assert h[..n] == h;
    }
  }

  /** No event of thread `t` strictly between positions `a` and `b`. */
  ghost predicate Quiet<O(!new), R(!new)>(h: seq<HistoryEvent<O, R>>, t: nat, a: int, b: int)
    requires -1 <= a && b <= |h|
  {
    forall i :: a < i < b ==> h[i].t != t
  }

  /** A thread that is not out got there at its latest event. */
  lemma {:induction false} LatestEvent<O(!new), R(!new)>(h: seq<HistoryEvent<O, R>>, t: nat) returns (c: nat)
    requires PhaseOf(h, t) != Out
    ensures c < |h| && h[c].t == t && PhaseOf(h, t) == PhaseAfter(h[c]) && Quiet(h, t, c, |h|)
    decreases |h|
  {
    if Last(h).t == t {
      c := |h| - 1;
    } else {
      c := LatestEvent(Front(h), t);
    }
  }

  /** Every effect lies in the interval of one call, every return in the interval of one effect. */
  lemma EffectFollowsCall<O(!new), R(!new)>(h: seq<HistoryEvent<O, R>>, n: nat) returns (c: nat)
    requires WellFormed(h) && n < |h| && h[n].Effect?
    ensures c < n && h[c] == Call(h[n].t, h[n].op) && Quiet(h, h[n].t, c, n)
  {
    PrefixWellFormed(h, n + 1);
    assert Front(h[..n + 1]) == h[..n];
    c := LatestEvent(h[..n], h[n].t);
  }

  lemma ReturnFollowsEffect<O(!new), R(!new)>(h: seq<HistoryEvent<O, R>>, n: nat) returns (l: nat)
    requires WellFormed(h) && n < |h| && h[n].Return?
    ensures l < n && h[l] == Effect(h[n].t, h[n].op, h[n].res) && Quiet(h, h[n].t, l, n)
  {
    PrefixWellFormed(h, n + 1);
    assert Front(h[..n + 1]) == h[..n];
    l := LatestEvent(h[..n], h[n].t);
  }

  /** The call at `c` takes effect at `l`. */
  ghost predicate Opens<O(!new), R(!new)>(h: seq<HistoryEvent<O, R>>, c: int, l: int)
    requires 0 <= c < |h| && 0 <= l < |h|
  {
    h[l].Effect? && h[c] == Call(h[l].t, h[l].op) && Quiet(h, h[l].t, c, l)
  }

  /** One whole operation: called at `c`, in effect at `l`, back at `r`. */
  ghost predicate Interval<O(!new), R(!new)>(h: seq<HistoryEvent<O, R>>, c: int, l: int, r: int)
    requires 0 <= r < |h|
  {
    && 0 <= c < l < r
    && h[r].Return?
    && h[l] == Effect(h[r].t, h[r].op, h[r].res)
    && Opens(h, c, l)
    && Quiet(h, h[r].t, l, r)
  }

  /** Each operation that has returned has exactly one effect, with the result it returned, between
      its call and its return; each effect belongs to a call. So an operation that returns before
      another is called also takes effect before it. */
  ghost predicate Ordered<O(!new), R(!new)>(h: seq<HistoryEvent<O, R>>) {
    && (forall r :: 0 <= r < |h| && h[r].Return? ==> exists c, l :: Interval(h, c, l, r))
    && (forall l :: 0 <= l < |h| && h[l].Effect? ==> exists c :: 0 <= c < l && Opens(h, c, l))
    && (forall r, c', l' :: 0 <= r < c' < l' < |h| && h[r].Return? && Opens(h, c', l') ==>
          exists c, l :: Interval(h, c, l, r) && l < l')
  }

  lemma WellFormedIntervals<O(!new), R(!new)>(h: seq<HistoryEvent<O, R>>, r: nat) returns (c: nat, l: nat)
    requires WellFormed(h) && r < |h| && h[r].Return?
    ensures Interval(h, c, l, r)
  {
    l := ReturnFollowsEffect(h, r);
    c := EffectFollowsCall(h, l);
  }

  lemma WellFormedOrders<O(!new), R(!new)>(h: seq<HistoryEvent<O, R>>)
    requires WellFormed(h)
    ensures Ordered(h)
  {
    forall r | 0 <= r < |h| && h[r].Return?
      ensures exists c, l :: Interval(h, c, l, r)
    {
      var c, l := WellFormedIntervals(h, r);
    }
    forall l | 0 <= l < |h| && h[l].Effect?
      ensures exists c :: 0 <= c < l && Opens(h, c, l)
    {
      var c := EffectFollowsCall(h, l);
      assert Opens(h, c, l);
    }
    forall r, c', l' | 0 <= r < c' < l' < |h| && h[r].Return? && Opens(h, c', l')
      ensures exists c, l :: Interval(h, c, l, r) && l < l'
    {
      var c, l := WellFormedIntervals(h, r);
      assert Interval(h, c, l, r) && l < l';
    }
  }
}
