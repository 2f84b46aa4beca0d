/** What holds of the server's store in every state of every run. */
module ServerTheorems {
  import opened Seating
  import opened Store
  import opened Histories
  import opened ServerHistories
  import opened ServerStore
  import Runs

  // ----- Linearizability of CREATE, RESERVE and LIST -----

  /** No thread is between taking and releasing an event's mutex. */
  ghost predicate MutexesFree(s: State) {
    forall k :: 0 <= k < |s.owner| ==> s.owner[k].None?
  }

  /** Every run is equivalent to the sequential run of its effects: same results, same final store,
      and each operation takes effect once, between its call and its return. */
  lemma RunLinearizable(run: seq<State>, i: nat)
    requires Run(run) && i < |run|
    ensures Linearizable(run[i].history)
    ensures MutexesFree(run[i]) ==> run[i].events == StoreOf(run[i].history)
    ensures IdsOf(run[i].events) == IdsOf(StoreOf(run[i].history))
  {
    RunInv(run, i);
    var s := run[i];
    WellFormedOrders(s.history);
    SameIds(s);
    if MutexesFree(s) {
      forall k | 0 <= k < |s.events|
        ensures s.events[k] == StoreOf(s.history)[k]
      {
        assert s.events[k] == Expected(s, k);
      }
    }
  }

  /** An event whose mutex is free holds exactly what the effects so far gave it. */
  lemma FreeEventIsSequential(run: seq<State>, i: nat, k: nat)
    requires Run(run) && i < |run| && k < |run[i].events|
    ensures k < |run[i].owner| && k < |StoreOf(run[i].history)|
    ensures run[i].owner[k].None? ==> run[i].events[k] == StoreOf(run[i].history)[k]
  {
    RunInv(run, i);
    assert run[i].events[k] == Expected(run[i], k);
  }

  // ----- Ids -----

  lemma {:induction false} StoreIdsDistinct(h: seq<Ev>)
    ensures DistinctIds(StoreOf(h))
  {
    if h != [] {
      StoreIdsDistinct(Front(h));
      if Last(h).Effect? {
        ApplyKeepsIdsDistinct(StoreOf(Front(h)), Last(h).op);
      }
    }
  }

  /** Unlike Part 1, the server never stores two events with one id, however creates overlap. */
  lemma ServerIdsDistinct(run: seq<State>, i: nat)
    requires Run(run) && i < |run|
    ensures DistinctIds(run[i].events)
  {
    RunInv(run, i);
    SameIds(run[i]);
    StoreIdsDistinct(run[i].history);
  }

  // ----- What a step may do to memory -----

  lemma StepGrows(s: State, t: nat, req: Request, s': State)
    requires Inv(s) && t < |s.threads| && Step(s, t, req) == Some(s')
    ensures |s.events| <= |s'.events|
    ensures forall k :: 0 <= k < |s.events| ==> SameFrame(s.events[k], s'.events[k])
  {
    assert ThreadInv(s, t);
    var pc := s.threads[t];
    if pc.ReserveWrite? && pc.j < |pc.op.seats| {
      assert ThreadHolds(s, t);
      assert s.events[pc.k] == Expected(s, pc.k);
      HalfNext(Abs(s)[pc.k], pc.op.seats, pc.j);
    }
  }

  /** The list `es'` has the events of `es` where they were, with no seat given up. */
  ghost predicate Extends(es: seq<EventState>, es': seq<EventState>) {
    && |es| <= |es'|
    && forall k :: 0 <= k < |es| ==> SameFrame(es[k], es'[k])
  }

  ghost predicate Later(s: State, s': State) {
    Extends(s.events, s'.events)
  }

  lemma NextExtends(s: State, s': State)
    requires Inv(s) && Next(s, s')
    ensures Later(s, s')
  {
    var t, req :| 0 <= t < |s.threads| && Step(s, t, req) == Some(s');
    StepGrows(s, t, req, s');
  }

  lemma LaterTransitive(a: State, b: State, c: State)
    requires Later(a, b) && Later(b, c)
    ensures Later(a, c)
  {
  }

  lemma RunExtends(run: seq<State>, i: nat, j: nat)
    requires Run(run) && i <= j < |run|
    ensures Extends(run[i].events, run[j].events)
  {
    Inductive();
    forall s, s' | Inv(s) && Next(s, s')
      ensures Later(s, s')
    {
      NextExtends(s, s');
    }
    forall a, b, c | Later(a, b) && Later(b, c)
      ensures Later(a, c)
    {
      LaterTransitive(a, b, c);
    }
    Runs.Monotone(IsInit, Next, Inv, Later, run, i, j);
  }

  /** Events are never removed or moved and a taken seat stays taken by the same reservation: an id,
      once it resolves, resolves to the same event for ever; every LIST extends the ones before it. */
  lemma RunGrows(run: seq<State>, i: nat, j: nat, id: nat)
    requires Run(run) && i <= j < |run|
    ensures Extends(run[i].events, run[j].events)
    ensures IdsOf(run[i].events) <= IdsOf(run[j].events)
    ensures id in IdsOf(run[i].events) ==>
      FindId(IdsOf(run[j].events), id) == FindId(IdsOf(run[i].events), id)
  {
    RunExtends(run, i, j);
    var before, after := IdsOf(run[i].events), IdsOf(run[j].events);
    assert forall k :: 0 <= k < |before| ==> SameFrame(run[i].events[k], run[j].events[k]);
    assert after[..|before|] == before;
    assert after == before + after[|before|..];
    if id in before {
      FindIdStable(before, after[|before|..], id);
    }
  }

  // ----- Memory and effects -----

  /** Memory may be ahead of the effects, never behind: it holds every seat they have given out. */
  lemma EventAhead(s: State, k: nat)
    requires Inv(s) && k < |s.events|
    ensures SameFrame(Abs(s)[k], s.events[k])
  {
    assert s.events[k] == Expected(s, k);
    var o := s.owner[k];
    if o.Some? {
      assert ThreadHolds(s, o.value);
      assert ThreadInv(s, o.value);
    }
  }

  /** Each grid the dump prints is the event as the effects so far left it. */
  lemma DumpIsSequential(run: seq<State>, t: nat, i: nat)
    requires Run(run) && i < |run| && t < |run[i].threads| && run[i].threads[t].DumpRead?
    ensures var pc := run[i].threads[t];
      && pc.k < |StoreOf(run[i].history)| && |pc.got| <= |StoreOf(run[i].history)[pc.k].data|
      && pc.got == StoreOf(run[i].history)[pc.k].data[..|pc.got|]
  {
    RunInv(run, i);
    var s, k := run[i], run[i].threads[t].k;
    assert ThreadInv(s, t);
    assert ThreadHolds(s, t);
    assert s.events[k] == Expected(s, k);
  }

  // ----- Deadlock freedom -----

  /** Thread `t` cannot go on before `u` releases a lock. */
  ghost predicate Waits(s: State, t: nat, u: nat) {
    && t < |s.threads| && u < |s.threads|
    && match s.threads[t]
       case CreateLock(_) => s.writer == Some(u) || u in s.readers
       case FindLock(_) => s.writer == Some(u)
       case ListLock => s.writer == Some(u)
       case DumpLock => s.writer == Some(u)
       case ReserveLock(_, k) => k < |s.owner| && s.owner[k] == Some(u)
       case DumpEnter(k) => k < |s.owner| && s.owner[k] == Some(u)
       case _ => false
  }

  /** Position in the lock order: waiting for the list, waiting for an event, waiting for nothing. */
  function Rank(pc: PC): nat {
    if pc.CreateLock? || pc.FindLock? || pc.ListLock? || pc.DumpLock? then 0
    else if pc.ReserveLock? || pc.DumpEnter? then 1
    else 2
  }

  lemma WaitsClimb(s: State, t: nat, u: nat)
    requires Locks(s) && Waits(s, t, u)
    ensures Rank(s.threads[t]) < Rank(s.threads[u])
  {
    assert ThreadHolds(s, u);
  }

  /** No reachable state has threads waiting for each other in a circle, of any length. */
  lemma NoWaitCycle(run: seq<State>, i: nat, c: seq<nat>)
    requires Run(run) && i < |run|
    ensures !Runs.WaitCycle((t: nat, u: nat) => Waits(run[i], t, u), c)
  {
    RunInv(run, i);
    var s := run[i];
    forall t: nat, u: nat | Waits(s, t, u)
      ensures Rank(s.threads[t]) < Rank(s.threads[u])
    {
      WaitsClimb(s, t, u);
    }
    Runs.NoCycle((t: nat, u: nat) => Waits(s, t, u), (t: nat) => if t < |s.threads| then Rank(s.threads[t]) else 0, c);
  }

  /** A thread stops only at a lock that somebody holds. */
  lemma StopsOnlyAtLocks(s: State, t: nat, req: Request)
    requires Inv(s) && t < |s.threads|
    ensures Step(s, t, req).None? <==> exists u :: Waits(s, t, u)
  {
    assert ThreadInv(s, t);
    assert ThreadHolds(s, t);
    var pc := s.threads[t];
    if pc.ReserveWrite? && pc.j < |pc.op.seats| {
      assert s.events[pc.k] == Expected(s, pc.k);
      GrantsSeat(Abs(s)[pc.k], pc.op.seats, pc.j);
    }
    if Step(s, t, req).None? {
      StoppedWaits(s, t, req);
    }
  }

  lemma StoppedWaits(s: State, t: nat, req: Request)
    requires Inv(s) && t < |s.threads| && Step(s, t, req).None?
    requires Rank(s.threads[t]) < 2
    ensures exists u :: Waits(s, t, u)
  {
    assert ThreadInv(s, t);
    var pc := s.threads[t];
    if pc.ReserveLock? || pc.DumpEnter? {
      assert Waits(s, t, s.owner[pc.k].value);
    } else if s.writer.Some? {
      assert Waits(s, t, s.writer.value);
    } else {
      var u :| u in s.readers;
      assert Waits(s, t, u);
    }
  }

  /** While some operation is unfinished, some thread with an unfinished operation can step. */
  lemma AlwaysProgress(run: seq<State>, i: nat, t: nat, req: Request) returns (u: nat)
    requires Run(run) && i < |run| && t < |run[i].threads| && !run[i].threads[t].Idle?
    ensures u < |run[i].threads| && !run[i].threads[u].Idle? && Step(run[i], u, req).Some?
  {
    RunInv(run, i);
    u := UnblockedThread(run[i], t, req);
  }

  lemma {:induction false} UnblockedThread(s: State, t: nat, req: Request) returns (u: nat)
    requires Inv(s) && t < |s.threads| && !s.threads[t].Idle?
    ensures u < |s.threads| && !s.threads[u].Idle? && Step(s, u, req).Some?
    decreases 2 - Rank(s.threads[t])
  {
    StopsOnlyAtLocks(s, t, req);
    if Step(s, t, req).Some? {
      u := t;
    } else {
      var v: nat :| Waits(s, t, v);
      WaitsClimb(s, t, v);
      assert ThreadHolds(s, v);
      u := UnblockedThread(s, v, req);
    }
  }
}
