/** Safety and termination of Part 1's rounds, for any file, any number of threads, any schedule. */
module JobRoundTheorems {
  import opened Seating
  import opened JobGrammar
  import opened JobRounds
  import Runs

  // ----- Barriers -----

  /** While any thread is about to read the file, every command up to the last barrier read so far
      is finished, on whichever thread it ran. */
  lemma BarrierSeparates(run: seq<State>, i: nat, t: nat, b: nat, a: nat)
    requires Run(run) && i < |run| && t < |run[i].threads| && run[i].threads[t].Parse?
    requires a <= b < |run[i].claims| && run[i].claims[b].cmd.Barrier?
    ensures a in run[i].done
  {
    RunInv(run, i);
    assert ThreadOk(run[i], t);
    assert ClaimOk(run[i], b);
    assert ClaimOk(run[i], a);
  }

  lemma FinishedUpTo(s: State, a: nat, b: nat, c: nat)
    requires Inv(s) && a <= b < c < |s.claims| && s.claims[b].cmd.Barrier?
    ensures a in s.done
    ensures forall t :: !IsRunning(s, t, a)
  {
    assert ClaimOk(s, b);
    assert ClaimOk(s, a);
    forall t
      ensures !IsRunning(s, t, a)
    {
      if 0 <= t {
        assert ThreadOk(s, t);
      }
    }
  }

  lemma RoundsAtBarrier(claims: seq<Claim>, a: nat, b: nat, c: nat)
    requires Rising(claims) && a <= b < c < |claims| && claims[b].cmd.Barrier?
    ensures claims[a].round < claims[c].round
  {
    assert Rises(claims[b], claims[c]);
    assert a < b ==> Rises(claims[a], claims[b]);
  }

  /** The same seen from the commands: once a command after a barrier has been taken, every command
      up to the barrier is finished and no thread is still running one of them. */
  lemma NothingCrossesBarrier(run: seq<State>, i: nat, a: nat, b: nat, c: nat)
    requires Run(run) && i < |run| && a <= b < c < |run[i].claims| && run[i].claims[b].cmd.Barrier?
    ensures a in run[i].done
    ensures forall t :: !IsRunning(run[i], t, a)
    ensures run[i].claims[a].round < run[i].claims[c].round
  {
    RunInv(run, i);
    FinishedUpTo(run[i], a, b, c);
    RoundsRise(run, i);
    RoundsAtBarrier(run[i].claims, a, b, c);
  }

  /** Commands taken before the current round belong to earlier rounds. */
  ghost predicate OldRounds(s: State) {
    forall n :: 0 <= n < s.first && n < |s.claims| ==> s.claims[n].round < s.round
  }

  /** A later command belongs to the same round or a later one; after a barrier, to a later one. */
  predicate Rises(x: Claim, y: Claim) { x.round <= y.round && (x.cmd.Barrier? ==> x.round < y.round) }

  ghost predicate Rising(claims: seq<Claim>) {
    forall a, c :: 0 <= a < c < |claims| ==> Rises(claims[a], claims[c])
  }

  ghost predicate InvWithRounds(s: State) { Inv(s) && OldRounds(s) && Rising(s.claims) }

  lemma MainKeepsRounds(s: State, s': State)
    requires InvWithRounds(s) && StepMain(s) == Some(s')
    ensures OldRounds(s') && s'.claims == s.claims
  {
    if s.main.Decide? && s.barrier {
      forall n | 0 <= n < s'.first
        ensures s'.claims[n].round < s'.round
      {
        assert ClaimOk(s, n);
      }
    }
  }

  lemma ClaimRises(s: State, t: nat, s': State)
    requires InvWithRounds(s) && t < |s.threads| && s.threads[t].Parse? && s' == ParseStep(s, t) && s.rest != ""
    ensures OldRounds(s') && Rising(s'.claims)
  {
    assert ThreadOk(s, t);
    ClaimFields(s, t, s');
    forall a | 0 <= a < |s.claims|
      ensures Rises(s.claims[a], s'.claims[|s.claims|])
    {
      assert ClaimOk(s, a);
    }
  }

  lemma WorkerKeepsRounds(s: State, t: nat, s': State)
    requires InvWithRounds(s) && t < |s.threads| && StepThread(s, t) == Some(s')
    ensures OldRounds(s') && Rising(s'.claims)
  {
    if s.threads[t].Parse? && s.rest != "" {
      ClaimRises(s, t, s');
    } else {
      OtherStepsKeepClaims(s, t, s');
    }
  }

  lemma NextKeepsRounds(s: State, s': State)
    requires InvWithRounds(s) && Next(s, s')
    ensures OldRounds(s') && Rising(s'.claims)
  {
    if StepMain(s) == Some(s') {
      MainKeepsRounds(s, s');
    } else {
      var t :| 0 <= t < |s.threads| && StepThread(s, t) == Some(s');
      WorkerKeepsRounds(s, t, s');
    }
  }

  lemma OtherStepsKeepClaims(s: State, t: nat, s': State)
    requires t < |s.threads| && StepThread(s, t) == Some(s')
    requires s.threads[t].Parse? ==> s.rest == ""
    ensures s'.claims == s.claims && s'.first == s.first && s'.round == s.round
  {
    if s.threads[t].Parse? {
      EndFields(s, t, s');
    } else {
      WorkerFields(s, t, s');
    }
  }

  lemma RoundsRise(run: seq<State>, i: nat)
    requires Run(run) && i < |run|
    ensures OldRounds(run[i]) && Rising(run[i].claims)
  {
    Inductive();
    forall s, s' | InvWithRounds(s) && Next(s, s')
      ensures InvWithRounds(s')
    {
      NextKeepsRounds(s, s');
    }
    Runs.Invariant(IsInit, Next, InvWithRounds, run, i);
  }

  // ----- Claiming -----

  /** Each command of the file is taken exactly once, in order: those taken so far, by all threads
      in all rounds, followed by those still ahead, are the sequential reading of the file. */
  lemma ClaimingPartitions(run: seq<State>, i: nat)
    requires Run(run) && i < |run|
    ensures CommandsOf(run[i].claims) + ParseAll(Part1, run[i].rest) == ParseAll(Part1, run[i].file)
  {
    RunInv(run, i);
  }

  /** No command runs on two threads, and a running command runs on the thread that took it. */
  lemma OneRunnerPerCommand(run: seq<State>, i: nat, t: nat, u: nat, n: nat)
    requires Run(run) && i < |run| && IsRunning(run[i], t, n) && IsRunning(run[i], u, n)
    ensures t == u && n < |run[i].claims| && run[i].claims[n].tid == t && n !in run[i].done
  {
    RunInv(run, i);
    assert ThreadOk(run[i], t);
    assert ThreadOk(run[i], u);
  }

  // ----- Termination -----

  function Weight(pc: PC): nat {
    match pc
    case Unborn => 8
    case Running(_) => 7
    case AtLock => 6
    case CheckWait => 5
    case Sleeping(_) => 4
    case Relock => 3
    case CheckBarrier => 2
    case Parse => 1
    case Exited(_) => 0
  }

  function Sum(threads: seq<PC>): (n: nat)
    ensures n <= 8 * |threads|
  {
    if threads == [] then 0 else Weight(threads[0]) + Sum(threads[1..])
  }

  lemma {:induction false} SumUpdate(threads: seq<PC>, t: nat, pc: PC)
    requires t < |threads|
    ensures Sum(threads[t := pc]) == Sum(threads) - Weight(threads[t]) + Weight(pc)
  {
    var after := threads[t := pc];
    if t == 0 {
      assert after[1..] == threads[1..];
    } else {
      SumUpdate(threads[1..], t - 1, pc);
      assert after[1..] == threads[1..][t - 1 := pc];
    }
  }

  function MainWeight(m: Main, n: nat): int {
    match m
    case Spawn(i) => 2 * n + 3 - i
    case Join(i) => n + 2 - i
    case Decide => 1
    case Finished => 0
  }

  /** Steps one round can take between two readings of the file. */
  function PerCommand(n: nat): nat { 10 * n + 4 }

  function Ahead2(s: State): nat { 2 * |s.rest| + if s.barrier then 1 else 0 }

  function Small(s: State): int { MainWeight(s.main, |s.threads|) + Sum(s.threads) }

  /** Bytes ahead and an open barrier, then how far the round has come. */
  function Measure(s: State): int {
    Ahead2(s) * PerCommand(|s.threads|) + Small(s)
  }

  lemma SmallBounded(s: State)
    requires MainOk(s)
    ensures 0 <= Small(s) < PerCommand(|s.threads|)
  {
  }

  lemma Lexicographic(m: nat, r: int, m': nat, r': int, b: nat)
    requires m' < m && 0 <= r && 0 <= r' < b
    ensures m' * b + r' < m * b + r
  {
    MulMonotone(m' + 1, m, b);
    assert (m' + 1) * b == m' * b + b;
  }

  lemma LightMoves(s: State, t: nat, s': State)
    requires t < |s.threads| && StepThread(s, t) == Some(s') && !s.threads[t].Parse?
    ensures |s'.threads| == |s.threads| && s'.threads == s.threads[t := s'.threads[t]]
    ensures Weight(s'.threads[t]) < Weight(s.threads[t])
    ensures s'.main == s.main && s'.rest == s.rest && s'.barrier == s.barrier
  {
  }

  /** A step that leaves the bytes ahead alone and brings the round nearer to its end. */
  lemma SmallPays(s: State, s': State)
    requires |s'.threads| == |s.threads| && Ahead2(s') == Ahead2(s) && Small(s') < Small(s)
    ensures Measure(s') < Measure(s)
  {
  }

  /** A step that uses up bytes. */
  lemma BytesPay(s: State, s': State)
    requires MainOk(s) && MainOk(s') && |s'.threads| == |s.threads| && Ahead2(s') < Ahead2(s)
    ensures Measure(s') < Measure(s)
  {
    SmallBounded(s);
    SmallBounded(s');
    Lexicographic(Ahead2(s), Small(s), Ahead2(s'), Small(s'), PerCommand(|s.threads|));
  }

  lemma ClaimAhead(s: State, t: nat, s': State)
    requires Inv(s) && t < |s.threads| && s.threads[t].Parse? && s.rest != "" && s' == ParseStep(s, t)
    ensures |s'.threads| == |s.threads| && Ahead2(s') < Ahead2(s)
  {
    assert ThreadOk(s, t);
    ClaimFields(s, t, s');
    CommandShorter(Part1, s.rest);
  }

  lemma WorkerMoves(s: State, t: nat, s': State)
    requires t < |s.threads| && StepThread(s, t) == Some(s')
    requires s.threads[t].Parse? ==> s.rest == ""
    ensures |s'.threads| == |s.threads| && Ahead2(s') == Ahead2(s) && Small(s') < Small(s)
  {
    if s.threads[t].Parse? {
      EndFields(s, t, s');
    } else {
      LightMoves(s, t, s');
    }
    SumUpdate(s.threads, t, s'.threads[t]);
  }

  lemma ClaimPays(s: State, t: nat, s': State)
    requires Inv(s) && MainOk(s') && t < |s.threads| && s.threads[t].Parse? && s.rest != "" && s' == ParseStep(s, t)
    ensures |s'.threads| == |s.threads| && Measure(s') < Measure(s)
  {
    ClaimAhead(s, t, s');
    BytesPay(s, s');
  }

  lemma WorkerPays(s: State, t: nat, s': State)
    requires Inv(s) && MainOk(s') && t < |s.threads| && StepThread(s, t) == Some(s')
    ensures |s'.threads| == |s.threads| && Measure(s') < Measure(s)
  {
    if s.threads[t].Parse? && s.rest != "" {
      ParseIsStep(s, t, s');
      ClaimPays(s, t, s');
    } else {
      SmallMovePays(s, t, s');
    }
  }

  lemma SmallMovePays(s: State, t: nat, s': State)
    requires t < |s.threads| && StepThread(s, t) == Some(s')
    requires s.threads[t].Parse? ==> s.rest == ""
    ensures |s'.threads| == |s.threads| && Measure(s') < Measure(s)
  {
    WorkerMoves(s, t, s');
    SmallPays(s, s');
  }

  lemma MainPays(s: State, s': State)
    requires MainOk(s) && MainOk(s') && StepMain(s) == Some(s')
    ensures |s'.threads| == |s.threads| && Measure(s') < Measure(s)
  {
    if s.main.Decide? && s.barrier {
      BytesPay(s, s');
    } else {
      if s.main.Spawn? && s.main.i < |s.threads| {
        SumUpdate(s.threads, s.main.i, AtLock);
      }
      SmallPays(s, s');
    }
  }

  lemma StepPays(s: State, s': State)
    requires Inv(s) && Next(s, s') && MainOk(s')
    ensures Measure(s') < Measure(s) && |s'.threads| == |s.threads|
  {
    if StepMain(s) == Some(s') {
      MainPays(s, s');
    } else {
      var t :| 0 <= t < |s.threads| && StepThread(s, t) == Some(s');
      WorkerPays(s, t, s');
    }
  }

  /** Every step of every thread, sleepers and main thread included, uses up part of a fixed budget. */
  lemma NextPays(s: State, s': State)
    requires Inv(s) && Next(s, s')
    ensures Measure(s') < Measure(s)
  {
    NextKeepsInv(s, s');
    StepPays(s, s');
  }

  lemma StepOfRunPays(run: seq<State>, i: nat)
    requires Run(run) && i + 1 < |run|
    ensures Measure(run[i + 1]) < Measure(run[i])
  {
    RunInv(run, i);
    assert Runs.Linked(Next, run, i);
    NextPays(run[i], run[i + 1]);
  }

  lemma {:induction false} RunPays(run: seq<State>, i: nat)
    requires Run(run) && i < |run|
    ensures Measure(run[i]) + i <= Measure(run[0])
    decreases i
  {
    if i > 0 {
      RunPays(run, i - 1);
      StepOfRunPays(run, i - 1);
    }
  }

  /** No run is longer than a bound known from the size of the file and the number of threads. */
  lemma RunsEnd(run: seq<State>)
    requires Run(run)
    ensures |run| <= 2 * |run[0].file| * PerCommand(|run[0].threads|) + PerCommand(|run[0].threads|)
  {
    RunPays(run, |run| - 1);
    RunInv(run, |run| - 1);
    MeasureBounds(run[|run| - 1]);
    RunInv(run, 0);
    SmallBounded(run[0]);
    var file, n: nat :| n > 0 && run[0] == Init(file, n);
  }

  lemma MeasureBounds(s: State)
    requires Inv(s)
    ensures 0 <= Measure(s)
  {
    SmallBounded(s);
    MulMonotone(0, Ahead2(s), PerCommand(|s.threads|));
  }

  lemma HolderSteps(s: State, t: nat)
    requires t < |s.threads| && HoldsMutex(s.threads[t]) && |s.waits| == |s.delays|
    ensures StepThread(s, t).Some?
  {
  }

  lemma WorkerSteps(s: State, t: nat)
    requires Inv(s) && t < |s.threads| && s.mutex.None?
    requires !s.threads[t].Unborn? && !s.threads[t].Exited?
    ensures StepThread(s, t).Some?
  {
    assert ThreadOk(s, t);
  }

  /** While the job is not finished some thread can step: nobody waits for ever. */
  lemma AlwaysProgress(run: seq<State>, i: nat) returns (s': State)
    requires Run(run) && i < |run| && run[i].main != Finished
    ensures Next(run[i], s')
  {
    RunInv(run, i);
    s' := SomeoneSteps(run[i]);
  }

  lemma SomeoneSteps(s: State) returns (s': State)
    requires Inv(s) && s.main != Finished
    ensures Next(s, s')
  {
    if StepMain(s).Some? {
      s' := StepMain(s).value;
    } else {
      var t := AbleWorker(s);
      s' := StepThread(s, t).value;
    }
  }

  /** While the main thread waits, some worker can step: the one that has the mutex or, if nobody has
      it, the one awaited. */
  lemma AbleWorker(s: State) returns (t: nat)
    requires Inv(s) && s.main != Finished && StepMain(s).None?
    ensures t < |s.threads| && StepThread(s, t).Some?
  {
    if s.mutex.Some? {
      t := s.mutex.value;
      assert ThreadOk(s, t);
      HolderSteps(s, t);
    } else {
      t := s.main.i;
      WorkerSteps(s, t);
    }
  }

  function BarriersIn(cs: seq<Command>): nat {
    if cs == [] then 0
    else BarriersIn(cs[..|cs| - 1]) + if cs[|cs| - 1].Barrier? then 1 else 0
  }

  lemma {:induction false} BarriersAgree(claims: seq<Claim>)
    ensures BarriersIn(CommandsOf(claims)) == Barriers(claims)
  {
    if claims != [] {
      var front := claims[..|claims| - 1];
      BarriersAgree(front);
      assert CommandsOf(claims)[..|CommandsOf(claims)| - 1] == CommandsOf(front);
    }
  }

  /** A job that has finished took every command of the file exactly once and finished it, in one
      round more than there are barriers. */
  lemma FinishedJob(run: seq<State>, i: nat)
    requires Run(run) && i < |run| && run[i].main == Finished
    ensures CommandsOf(run[i].claims) == ParseAll(Part1, run[i].file)
    ensures forall n :: 0 <= n < |run[i].claims| ==> n in run[i].done
    ensures run[i].round + 1 == BarriersIn(ParseAll(Part1, run[i].file)) + 1
  {
    RunInv(run, i);
    var s := run[i];
    assert ThreadOk(s, 0);
    assert ParseAll(Part1, s.rest) == [];
    forall n | 0 <= n < |s.claims|
      ensures n in s.done
    {
      AllDone(s, n);
    }
    BarriersAgree(s.claims);
  }
}
