/** What an injected WAIT does to the thread it is meant for: when it is slept, for how long, and
    which commands that thread still reads before. */
module JobWaits {
  import opened Seating
  import opened JobRounds
  import Runs

  function PcOf(s: State, t: nat): PC { if t < |s.threads| then s.threads[t] else Unborn }

  ghost predicate Flagged(s: State, t: nat) { t < |s.waits| && s.waits[t] }

  function DelayOf(s: State, t: nat): nat { if t < |s.delays| then s.delays[t] else 0 }

  /** Where thread `t` goes from CheckWait, as the state is when it gets there. */
  ghost function WaitOutcome(s: State, t: nat): PC {
    if Flagged(s, t) && !s.barrier then Sleeping(DelayOf(s, t)) else CheckBarrier
  }

  // ----- One step -----

  /** A step of the main thread within a round leaves waits and living threads alone. */
  lemma MainLeaves(s: State, s': State, t: nat)
    requires MainOk(s) && StepMain(s) == Some(s') && s'.round == s.round
    ensures s'.waits == s.waits && s'.delays == s.delays && s'.barrier == s.barrier
    ensures !PcOf(s, t).Unborn? ==> PcOf(s', t) == PcOf(s, t)
  {
  }

  /** The flag of `t` after a step of worker `u` that may be reading a command. */
  lemma ParseFlags(s: State, u: nat, t: nat)
    requires u < |s.threads| && |s.waits| == |s.delays| && s.threads[u].Parse?
    ensures Flagged(s, t) ==> Flagged(ParseStep(s, u), t)
    ensures forall v: nat :: v != u ==> PcOf(ParseStep(s, u), v) == PcOf(s, v)
    ensures PcOf(ParseStep(s, u), u).Running? || PcOf(ParseStep(s, u), u).Exited?
  {
  }

  lemma WorkerLeaves(s: State, s': State, u: nat, t: nat)
    requires u < |s.threads| && StepThread(s, u) == Some(s') && u != t
    ensures PcOf(s', t) == PcOf(s, t)
    ensures Flagged(s, t) ==> Flagged(s', t)
    ensures !HoldsMutex(s.threads[u]) ==> s'.waits == s.waits && s'.delays == s.delays && s'.barrier == s.barrier
  {
    if s.threads[u].Parse? {
      ParseFlags(s, u, t);
    }
  }

  /** Nobody else's step moves a living thread or takes back its flag. */
  lemma OthersLeave(s: State, s': State, t: nat)
    requires Inv(s) && Next(s, s') && s'.round == s.round && !PcOf(s, t).Unborn?
    requires t < |s.threads| ==> StepThread(s, t) != Some(s')
    ensures PcOf(s', t) == PcOf(s, t)
    ensures Flagged(s, t) ==> Flagged(s', t)
    ensures HoldsMutex(PcOf(s, t)) ==> s'.waits == s.waits && s'.delays == s.delays && s'.barrier == s.barrier
  {
    if StepMain(s) == Some(s') {
      MainLeaves(s, s', t);
    } else {
      var u :| 0 <= u < |s.threads| && StepThread(s, u) == Some(s');
      WorkerLeaves(s, s', u, t);
      assert ThreadOk(s, u) && ThreadOk(s, t);
    }
  }

  lemma CheckStep(s: State, s': State, t: nat)
    requires Inv(s) && Next(s, s') && s'.round == s.round && PcOf(s, t).CheckWait?
    ensures PcOf(s', t).CheckWait? ==> WaitOutcome(s', t) == WaitOutcome(s, t)
    ensures !PcOf(s', t).CheckWait? ==> PcOf(s', t) == WaitOutcome(s, t)
    ensures PcOf(s', t).Sleeping? ==> !Flagged(s', t) && DelayOf(s', t) == 0
  {
    if StepThread(s, t) != Some(s') {
      OthersLeave(s, s', t);
    }
  }

  lemma WorkerRound(s: State, u: nat, s': State)
    requires u < |s.threads| && StepThread(s, u) == Some(s')
    ensures s'.round == s.round
  {
  }

  lemma MainRound(s: State, s': State)
    requires StepMain(s) == Some(s')
    ensures s.round <= s'.round
    ensures MainOk(s) && s'.round != s.round ==> forall t :: 0 <= t < |s.threads| ==> s.threads[t].Exited?
  {
  }

  /** Rounds only end by a step of the main thread, after all workers have exited. */
  lemma RoundNext(s: State, s': State)
    requires Next(s, s')
    ensures s.round <= s'.round
    ensures MainOk(s) && s'.round != s.round ==> forall t :: 0 <= t < |s.threads| ==> s.threads[t].Exited?
  {
    if StepMain(s) == Some(s') {
      MainRound(s, s');
    } else {
      var u :| 0 <= u < |s.threads| && StepThread(s, u) == Some(s');
      WorkerRound(s, u, s');
    }
  }

  // ----- Over a run -----

  lemma LinkedStep(run: seq<State>, i: nat)
    requires Run(run) && i + 1 < |run|
    ensures Inv(run[i]) && Next(run[i], run[i + 1])
  {
    RunInv(run, i);
    assert Runs.Linked(Next, run, i);
  }

  /** A thread that has come to look at its flag sleeps if and only if the flag is set and no barrier
      is open at that moment, for the delay that stands there then; flag and delay are used up. */
  lemma {:induction false} FlagDecides(run: seq<State>, i: nat, j: nat, t: nat)
    requires Run(run) && i < j < |run|
    requires forall m :: i <= m < j ==> PcOf(run[m], t).CheckWait?
    requires !PcOf(run[j], t).CheckWait?
    ensures PcOf(run[j], t) == WaitOutcome(run[i], t)
    ensures PcOf(run[j], t).Sleeping? ==> !Flagged(run[j], t) && DelayOf(run[j], t) == 0
    decreases j - i
  {
    LinkedStep(run, i);
    RoundNext(run[i], run[i + 1]);
    CheckStep(run[i], run[i + 1], t);
    if i + 1 < j {
      FlagDecides(run, i + 1, j, t);
    }
  }

  lemma RoundsClimb(run: seq<State>, i: nat, j: nat)
    requires Run(run) && i <= j < |run|
    ensures run[i].round <= run[j].round
  {
    Inductive();
    var rel := (a: State, b: State) => a.round <= b.round;
    forall s, s' | Inv(s) && Next(s, s')
      ensures rel(s, s')
    {
      RoundNext(s, s');
    }
    Runs.Monotone(IsInit, Next, Inv, rel, run, i, j);
  }

  lemma RoundStays(run: seq<State>, i: nat, j: nat)
    requires Run(run) && i < j < |run| && run[i].round == run[j].round
    ensures run[i + 1].round == run[i].round
  {
    RoundsClimb(run, i, i + 1);
    RoundsClimb(run, i + 1, j);
  }

  /** A step inside a stretch of a run that stays in one round. */
  lemma StepInRound(run: seq<State>, i: nat, j: nat)
    requires Run(run) && i < j < |run| && run[i].round == run[j].round
    ensures Inv(run[i]) && Next(run[i], run[i + 1]) && run[i + 1].round == run[i].round
  {
    RoundStays(run, i, j);
    LinkedStep(run, i);
  }

  /** The wait of thread `t` is still to come, or the barrier has come first. */
  ghost predicate Due(s: State, t: nat) {
    var pc := PcOf(s, t);
    || ((pc.Running? || pc.AtLock? || pc.CheckWait?) && Flagged(s, t))
    || (pc.CheckBarrier? && s.barrier)
    || pc.Exited?
  }

  lemma OwnDueStep(s: State, s': State, t: nat)
    requires t < |s.threads| && StepThread(s, t) == Some(s') && Due(s, t) && |s.waits| == |s.delays|
    ensures Due(s', t) || PcOf(s', t).Sleeping?
  {
  }

  lemma DueStep(s: State, s': State, t: nat)
    requires Inv(s) && Next(s, s') && s'.round == s.round && Due(s, t)
    ensures Due(s', t) || PcOf(s', t).Sleeping?
  {
    if t < |s.threads| && StepThread(s, t) == Some(s') {
      OwnDueStep(s, s', t);
    } else {
      OthersLeave(s, s', t);
    }
  }

  lemma DueStepInRun(run: seq<State>, i: nat, j: nat, t: nat)
    requires Run(run) && i < j < |run| && run[i].round == run[j].round && Due(run[i], t)
    ensures Due(run[i + 1], t) || PcOf(run[i + 1], t).Sleeping?
    ensures run[i + 1].round == run[i].round
  {
    StepInRound(run, i, j);
    DueStep(run[i], run[i + 1], t);
  }

  /** A thread whose flag is set when it goes to read its next command sleeps first. */
  lemma {:induction false} SleepsBeforeParse(run: seq<State>, i: nat, j: nat, t: nat) returns (k: nat)
    requires Run(run) && i <= j < |run| && run[i].round == run[j].round
    requires Due(run[i], t) && PcOf(run[j], t).Parse?
    ensures i < k < j && PcOf(run[k], t).Sleeping?
    decreases j - i
  {
    assert i < j;
    DueStepInRun(run, i, j, t);
    if PcOf(run[i + 1], t).Sleeping? {
      k := i + 1;
    } else {
      k := SleepsBeforeParse(run, i + 1, j, t);
    }
  }

  /** Past its look at the flag, and not yet at its next command. */
  predicate PastCheck(pc: PC) { pc.Sleeping? || pc.Relock? || pc.CheckBarrier? || pc.Exited? }

  lemma PastStep(s: State, s': State, t: nat)
    requires Inv(s) && Next(s, s') && s'.round == s.round && PastCheck(PcOf(s, t))
    ensures PastCheck(PcOf(s', t)) || PcOf(s', t).Parse?
    ensures Flagged(s, t) ==> Flagged(s', t)
  {
    if t >= |s.threads| || StepThread(s, t) != Some(s') {
      OthersLeave(s, s', t);
    }
  }

  lemma PastStepInRun(run: seq<State>, i: nat, j: nat, t: nat)
    requires Run(run) && i < j < |run| && run[i].round == run[j].round && PastCheck(PcOf(run[i], t))
    ensures PastCheck(PcOf(run[i + 1], t)) || PcOf(run[i + 1], t).Parse?
    ensures Flagged(run[i], t) ==> Flagged(run[i + 1], t)
    ensures run[i + 1].round == run[i].round
  {
    StepInRound(run, i, j);
    PastStep(run[i], run[i + 1], t);
  }

  /** Thread `t` reads no command from state `i` to just before state `j`. */
  ghost predicate ReadsNothing(run: seq<State>, t: nat, i: nat, j: nat)
    requires j <= |run|
  {
    forall m :: i <= m < j ==> !PcOf(run[m], t).Parse?
  }

  /** A thread that sleeps or has slept does not look at its flag again before it reads a command,
      and what is injected meanwhile stays. */
  lemma {:induction false} NotBeforeNextParse(run: seq<State>, i: nat, j: nat, t: nat)
    requires Run(run) && i <= j < |run| && run[i].round == run[j].round && PastCheck(PcOf(run[i], t))
    requires ReadsNothing(run, t, i, j)
    ensures PastCheck(PcOf(run[j], t)) || PcOf(run[j], t).Parse?
    ensures Flagged(run[i], t) ==> Flagged(run[j], t)
    decreases j - i
  {
    if i < j {
      PastStepInRun(run, i, j, t);
      if i + 1 < j {
        NotBeforeNextParse(run, i + 1, j, t);
      }
    }
  }

  lemma NoLookBeforeParse(run: seq<State>, i: nat, m: nat, p: nat, t: nat)
    requires Run(run) && i <= m <= p < |run| && run[i].round == run[p].round && PastCheck(PcOf(run[i], t))
    requires ReadsNothing(run, t, i, p)
    ensures !PcOf(run[m], t).CheckWait?
  {
    RoundsClimb(run, i, m);
    RoundsClimb(run, m, p);
    NotBeforeNextParse(run, i, m, t);
  }

  lemma OwnParse(s: State, s': State, t: nat)
    requires t < |s.threads| && StepThread(s, t) == Some(s') && s.threads[t].Parse? && Flagged(s, t)
    ensures Due(s', t)
  {
    ParseFlags(s, t, t);
  }

  lemma ParseGoesOn(s: State, s': State, t: nat)
    requires Inv(s) && Next(s, s') && PcOf(s, t).Parse? && !PcOf(s', t).Parse? && Flagged(s, t)
    ensures s'.round == s.round && Due(s', t)
  {
    RoundNext(s, s');
    if StepThread(s, t) == Some(s') {
      OwnParse(s, s', t);
    } else {
      OthersLeave(s, s', t);
    }
  }

  lemma ParseGoesOnInRun(run: seq<State>, p: nat, t: nat)
    requires Run(run) && p + 1 < |run| && PcOf(run[p], t).Parse? && !PcOf(run[p + 1], t).Parse?
    requires Flagged(run[p], t)
    ensures run[p + 1].round == run[p].round && Due(run[p + 1], t)
  {
    LinkedStep(run, p);
    ParseGoesOn(run[p], run[p + 1], t);
  }

  /** A wait injected into a thread that is asleep in an earlier one is slept after exactly one more
      command: it reads the next command without looking at its flag, and sleeps before the one after. */
  lemma HonouredAfterOneCommand(run: seq<State>, i: nat, p: nat, q: nat, t: nat) returns (k: nat)
    requires Run(run) && i <= p && p + 1 < q < |run| && run[i].round == run[q].round
    requires PastCheck(PcOf(run[i], t)) && Flagged(run[i], t)
    requires PcOf(run[p], t).Parse? && !PcOf(run[p + 1], t).Parse? && PcOf(run[q], t).Parse?
    requires ReadsNothing(run, t, i, p)
    ensures forall m :: i <= m <= p ==> !PcOf(run[m], t).CheckWait?
    ensures p < k < q && PcOf(run[k], t).Sleeping?
  {
    RoundsClimb(run, i, p);
    RoundsClimb(run, p, q);
    forall m | i <= m <= p
      ensures !PcOf(run[m], t).CheckWait?
    {
      NoLookBeforeParse(run, i, m, p, t);
    }
    NotBeforeNextParse(run, i, p, t);
    ParseGoesOnInRun(run, p, t);
    k := SleepsBeforeParse(run, p + 1, q, t);
  }
}
