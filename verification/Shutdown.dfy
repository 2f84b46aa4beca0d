/** Shutdown of the worker pool: when every worker exits, and how many are left asleep otherwise. */
module Shutdown {
  import opened Seating
  import opened WorkerPool
  import Runs

  predicate Asleep(pc: Worker) { pc.Waiting? }

  /** On its way from the termination flag to a connection. */
  predicate Wants(pc: Worker) { pc.WantLock? || pc.TestEmpty? || pc.Take? }

  function Count(workers: seq<Worker>, p: Worker -> bool): nat {
    if workers == [] then 0 else (if p(workers[0]) then 1 else 0) + Count(workers[1..], p)
  }

  lemma {:induction false} CountUpdate(workers: seq<Worker>, w: nat, pc: Worker, p: Worker -> bool)
    requires w < |workers|
    ensures Count(workers[w := pc], p) + (if p(workers[w]) then 1 else 0) ==
      Count(workers, p) + if p(pc) then 1 else 0
  {
    var after := workers[w := pc];
    if w == 0 {
      assert after[1..] == workers[1..];
    } else {
      assert after[1..] == workers[1..][w - 1 := pc];
      CountUpdate(workers[1..], w - 1, pc, p);
    }
  }

  lemma {:induction false} CountNone(workers: seq<Worker>, p: Worker -> bool)
    requires forall w :: 0 <= w < |workers| ==> !p(workers[w])
    ensures Count(workers, p) == 0
  {
    if workers != [] {
      CountNone(workers[1..], p);
    }
  }

  lemma {:induction false} CountSome(workers: seq<Worker>, p: Worker -> bool, w: nat)
    requires w < |workers| && p(workers[w])
    ensures Count(workers, p) > 0
  {
    if w > 0 {
      CountSome(workers[1..], p, w - 1);
    }
  }

  /** A step that is not a worker waking up with nobody having signalled it. */
  ghost predicate AwakeNext(s: State, s': State) {
    || (exists c :: StepMain(s, c) == Some(s'))
    || exists w: nat :: AwakeStep(s, w, s')
  }

  ghost predicate AwakeStep(s: State, w: nat, s': State) {
    w < |s.workers| && !s.workers[w].Waiting? && StepWorker(s, w) == Some(s')
  }

  /** How many more workers want a connection than there are connections. */
  function Excess(s: State): nat {
    var n := Count(s.workers, Wants);
    if n > |s.queue| then n - |s.queue| else 0
  }

  /** Workers asleep, or bound to fall asleep. */
  function Missed(s: State): nat { Count(s.workers, Asleep) + Excess(s) }

  // ----- What a step does after the last broadcast -----

  ghost predicate Late(s: State) { Inv(s) && LastCallOver(s.main) }

  lemma WorkerKeepsMissed(s: State, w: nat, s': State)
    requires Late(s) && AwakeStep(s, w, s')
    ensures LastCallOver(s'.main) && Missed(s') == Missed(s)
  {
    assert WorkerOk(s, w);
    var pc := s'.workers[w];
    CountUpdate(s.workers, w, pc, Asleep);
    CountUpdate(s.workers, w, pc, Wants);
    assert s'.workers == s.workers[w := pc];
  }

  lemma MainKeepsMissed(s: State, c: Option<nat>, s': State)
    requires Late(s) && StepMain(s, c) == Some(s')
    ensures LastCallOver(s'.main) && Missed(s') == Missed(s)
  {
    if s.main.Drain? {
      CountNone(s.workers, Wants);
    }
  }

  lemma AwakeKeeps(s: State, s': State)
    requires Late(s) && AwakeNext(s, s')
    ensures Late(s') && Missed(s') == Missed(s)
  {
    if c :| StepMain(s, c) == Some(s') {
      MainKeepsMissed(s, c, s');
      assert Next(s, s');
    } else {
      var w: nat :| AwakeStep(s, w, s');
      WorkerKeepsMissed(s, w, s');
      assert Next(s, s');
    }
    NextKeepsInv(s, s');
  }

  lemma {:induction false} PathKeeps(s: State, ss: seq<State>)
    requires Late(s) && Runs.Path(AwakeNext, s, ss)
    ensures Late(Runs.End(s, ss)) && Missed(Runs.End(s, ss)) == Missed(s)
    decreases |ss|
  {
    if ss != [] {
      AwakeKeeps(s, ss[0]);
      PathKeeps(ss[0], ss[1..]);
      assert Runs.End(ss[0], ss[1..]) == Runs.End(s, ss);
    }
  }

  // ----- It comes to an end -----

  function Weight(pc: Worker): nat {
    match pc
    case WantLock => 6
    case TestEmpty => 5
    case Take => 4
    case Release(_) => 3
    case Serving(_) => 2
    case Signalled => 2
    case AtTop => 1
    case Recheck => 1
    case Waiting => 0
    case Gone => 0
  }

  function Sum(workers: seq<Worker>): nat {
    if workers == [] then 0 else Weight(workers[0]) + Sum(workers[1..])
  }

  lemma {:induction false} SumUpdate(workers: seq<Worker>, w: nat, pc: Worker)
    requires w < |workers|
    ensures Sum(workers[w := pc]) + Weight(workers[w]) == Sum(workers) + Weight(pc)
  {
    var after := workers[w := pc];
    if w == 0 {
      assert after[1..] == workers[1..];
    } else {
      assert after[1..] == workers[1..][w - 1 := pc];
      SumUpdate(workers[1..], w - 1, pc);
    }
  }

  function MainWeight(m: Main, n: nat): nat {
    if m.Joining? && m.i <= n then n - m.i + 2 else if m.Drain? then 1 else 0
  }

  /** What is left to do, spurious wake-ups aside. */
  function Budget(s: State): nat { Sum(s.workers) + MainWeight(s.main, |s.workers|) }

  lemma AwakePays(s: State, s': State)
    requires Late(s) && AwakeNext(s, s')
    ensures Budget(s') < Budget(s)
  {
    if c :| StepMain(s, c) == Some(s') {
    } else {
      var w: nat :| AwakeStep(s, w, s');
      WorkerPays(s, w, s');
    }
  }

  lemma WeightFalls(s: State, w: nat, s': State)
    requires s.terminate && AwakeStep(s, w, s')
    ensures |s'.workers| == |s.workers| && s'.workers == s.workers[w := s'.workers[w]] && s'.main == s.main
    ensures Weight(s'.workers[w]) < Weight(s.workers[w])
  {
  }

  lemma WorkerPays(s: State, w: nat, s': State)
    requires s.terminate && AwakeStep(s, w, s')
    ensures Budget(s') < Budget(s)
  {
    WeightFalls(s, w, s');
    SumUpdate(s.workers, w, s'.workers[w]);
  }

  lemma {:induction false} PathPays(s: State, ss: seq<State>)
    requires Late(s) && Runs.Path(AwakeNext, s, ss)
    ensures |ss| + Budget(Runs.End(s, ss)) <= Budget(s)
    decreases |ss|
  {
    if ss != [] {
      AwakeKeeps(s, ss[0]);
      AwakePays(s, ss[0]);
      PathPays(ss[0], ss[1..]);
      assert Runs.End(ss[0], ss[1..]) == Runs.End(s, ss);
    }
  }

  /** Nobody but a sleeper can step. */
  ghost predicate AtEnd(s: State) { forall s' :: !AwakeNext(s, s') }

  /** A worker neither asleep nor gone can step, or the one that holds the mutex can. */
  lemma Somebody(s: State, w: nat) returns (s': State)
    requires Late(s) && w < |s.workers| && !s.workers[w].Waiting? && !s.workers[w].Gone?
    ensures AwakeNext(s, s')
  {
    var v := if s.mutex.Some? then s.mutex.value.w else w;
    assert WorkerOk(s, v);
    s' := StepWorker(s, v).value;
    assert AwakeStep(s, v, s');
  }

  lemma EndState(s: State)
    requires Late(s) && AtEnd(s)
    ensures Count(s.workers, Asleep) == Missed(s)
    ensures s.main.Over? <==> Missed(s) == 0
  {
    forall w | 0 <= w < |s.workers|
      ensures s.workers[w].Waiting? || s.workers[w].Gone?
    {
      if !s.workers[w].Waiting? && !s.workers[w].Gone? {
        var s' := Somebody(s, w);
      }
    }
    CountNone(s.workers, Wants);
    if s.main.Over? {
      CountNone(s.workers, Asleep);
    } else {
      assert StepMain(s, None).Some? ==> AwakeNext(s, StepMain(s, None).value);
      assert s.main.Joining? && s.main.i < |s.workers| && s.workers[s.main.i].Waiting?;
      CountSome(s.workers, Asleep, s.main.i);
    }
  }

  // ----- Main results -----

  /** The state the last broadcast leaves. */
  ghost function AfterBroadcast(s: State): State
    requires s.main.FinalBroadcast?
  {
    StepMain(s, None).value
  }

  lemma {:induction false} WokenCount(workers: seq<Worker>)
    ensures Count(WakeAll(workers), Wants) == Count(workers, Wants)
    ensures Count(WakeAll(workers), Asleep) == 0
  {
    if workers != [] {
      WokenCount(workers[1..]);
      assert WakeAll(workers)[1..] == WakeAll(workers[1..]);
    }
  }

  lemma BroadcastState(run: seq<State>)
    requires Run(run) && run[|run| - 1].main.FinalBroadcast?
    ensures var s := run[|run| - 1];
      Late(AfterBroadcast(s)) && Missed(AfterBroadcast(s)) == Excess(s)
  {
    var s := run[|run| - 1];
    RunInv(run, |run| - 1);
    assert Next(s, AfterBroadcast(s));
    NextKeepsInv(s, AfterBroadcast(s));
    WokenCount(s.workers);
  }

  /** Shutdown goes through if and only if, at the last broadcast, no more workers are on their way to
      a connection than connections are queued. Otherwise exactly as many as are in excess sleep for
      good, and the main thread waits for the first of them for ever. All this for every schedule after
      the broadcast, a wake-up that nobody signalled apart. */
  lemma ShutdownIff(run: seq<State>, ss: seq<State>)
    requires Run(run) && run[|run| - 1].main.FinalBroadcast?
    requires Runs.Path(AwakeNext, AfterBroadcast(run[|run| - 1]), ss)
    requires AtEnd(Runs.End(AfterBroadcast(run[|run| - 1]), ss))
    ensures var (s, e) := (run[|run| - 1], Runs.End(AfterBroadcast(run[|run| - 1]), ss));
      && (e.main.Over? <==> Count(s.workers, Wants) <= |s.queue|)
      && Count(e.workers, Asleep) == Excess(s)
  {
    var s := run[|run| - 1];
    BroadcastState(run);
    PathKeeps(AfterBroadcast(s), ss);
    EndState(Runs.End(AfterBroadcast(s), ss));
  }

  /** Every such schedule comes to an end, after a number of steps known at the broadcast. */
  lemma ShutdownEnds(run: seq<State>, ss: seq<State>)
    requires Run(run) && run[|run| - 1].main.FinalBroadcast?
    requires Runs.Path(AwakeNext, AfterBroadcast(run[|run| - 1]), ss)
    ensures |ss| <= Budget(AfterBroadcast(run[|run| - 1]))
  {
    BroadcastState(run);
    PathPays(AfterBroadcast(run[|run| - 1]), ss);
  }

  /** And with enough connections, or nobody on the way, some step other than a spurious wake-up is
      possible until the server has shut down. */
  lemma ShutdownProgress(run: seq<State>, ss: seq<State>) returns (s': State)
    requires Run(run) && run[|run| - 1].main.FinalBroadcast?
    requires Runs.Path(AwakeNext, AfterBroadcast(run[|run| - 1]), ss)
    requires Count(run[|run| - 1].workers, Wants) <= |run[|run| - 1].queue|
    requires !Runs.End(AfterBroadcast(run[|run| - 1]), ss).main.Over?
    ensures AwakeNext(Runs.End(AfterBroadcast(run[|run| - 1]), ss), s')
  {
    var e := Runs.End(AfterBroadcast(run[|run| - 1]), ss);
    if AtEnd(e) {
      ShutdownIff(run, ss);
      assert false;
    }
    s' :| AwakeNext(e, s');
  }
}
