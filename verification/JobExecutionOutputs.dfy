/** Which command each output in the file of a job belongs to: every SHOW that found its event and
    every LIST is written once. */
module JobExecutionOutputs {
  import opened Seating
  import opened JobStoreHistories
  import opened JobExecutions
  import JobRounds
  import JobStore
  import Runs

  predicate Prints(e: JobStore.Entry) { e.Shown? || e.Listed? }

  /** Not in an operation, or at its very end: what it had to write is in the file. */
  predicate Left(pc: JobStore.PC) { pc.Idle? || pc.Leave? || pc.ListOut? }

  // ----- Invariant -----

  ghost predicate EntryAt(s: State, i: nat, n: nat, e: JobStore.Entry) {
    i < |s.order| && i < |s.store.log| && s.order[i] == n && s.store.log[i] == e
  }

  /** The effect of command `n` was `e`. */
  ghost predicate EffectIs(s: State, n: nat, e: JobStore.Entry) {
    exists i: nat :: EntryAt(s, i, n, e)
  }

  ghost predicate ResultFits(s: State, t: nat) {
    t < |s.store.threads| && t < |s.rounds.threads| && PhaseAt(s.store.threads[t]).Done? ==>
      && s.rounds.threads[t].Running?
      && EffectIs(s, s.rounds.threads[t].n, PhaseAt(s.store.threads[t]).res)
  }

  ghost predicate PrintsFor(s: State, n: nat) {
    exists i: nat :: i < |s.order| && i < |s.store.log| && s.order[i] == n && Prints(s.store.log[i])
  }

  /** Command `n` has left its operation. */
  ghost predicate Through(s: State, n: nat) {
    && n < |s.rounds.claims|
    && var t := s.rounds.claims[n].tid;
    n in s.rounds.done || (n in s.called && t < |s.store.threads| && Left(s.store.threads[t]))
  }

  ghost predicate WrittenFits(s: State, n: nat) {
    n in s.written <==> Through(s, n) && PrintsFor(s, n)
  }

  ghost predicate OutputFits(s: State, i: nat) {
    i < |s.written| && i < |s.store.outputs| ==>
      && s.written[i] < |s.rounds.claims|
      && Prints(s.store.outputs[i])
      && EffectIs(s, s.written[i], s.store.outputs[i])
  }

  ghost predicate OrderlyOutputs(s: State) {
    forall i, j :: 0 <= i < j < |s.written| ==> MayPrecede(s.rounds.claims, s.written[i], s.written[j])
  }

  ghost predicate Outputs(s: State) {
    && |s.written| == |s.store.outputs|
    && (forall t: nat :: ResultFits(s, t))
    && (forall n: nat :: WrittenFits(s, n))
    && (forall i: nat :: OutputFits(s, i))
    && OrderlyOutputs(s)
  }

  // ----- Steps outside the store -----

  lemma SameEffects(s: State, s': State)
    requires s'.order == s.order && s'.store == s.store
    ensures forall n: nat, e :: EffectIs(s, n, e) ==> EffectIs(s', n, e)
    ensures forall n: nat :: PrintsFor(s', n) <==> PrintsFor(s, n)
  {
    forall n: nat, e | EffectIs(s, n, e)
      ensures EffectIs(s', n, e)
    {
      var i: nat :| EntryAt(s, i, n, e);
      assert EntryAt(s', i, n, e);
    }
  }

  lemma NoEntryYet(s: State, n: nat)
    requires Fits(s) && (n >= |s.rounds.claims| || RequestOf(s.rounds.claims[n].cmd).None?)
    ensures !PrintsFor(s, n)
  {
    forall i: nat | i < |s.order|
      ensures s.order[i] != n
    {
      assert EntryFits(s, i);
    }
  }

  lemma AsideWritten(s: State, s': State, n: nat)
    requires Fits(s) && WrittenFits(s, n)
    requires s' == s.(rounds := s'.rounds) && Aside(s.rounds, s'.rounds)
    ensures WrittenFits(s', n)
  {
    SameEffects(s, s');
    if n >= |s.rounds.claims| {
      NoEntryYet(s, n);
    }
  }

  lemma AsideOutputs(s: State, s': State)
    requires Fits(s) && Outputs(s) && s' == s.(rounds := s'.rounds) && Aside(s.rounds, s'.rounds)
    requires forall t: nat :: t < |s.store.threads| && t < |s.rounds.threads| && !s.store.threads[t].Idle? ==>
      s.rounds.threads[t].Running?
    ensures Outputs(s')
  {
    SameEffects(s, s');
    forall t: nat
      ensures ResultFits(s', t)
    {
      assert ResultFits(s, t);
    }
    forall n: nat
      ensures WrittenFits(s', n)
    {
      AsideWritten(s, s', n);
    }
    forall i: nat
      ensures OutputFits(s', i)
    {
      assert OutputFits(s, i);
    }
    forall i, j | 0 <= i < j < |s.written|
      ensures MayPrecede(s'.rounds.claims, s.written[i], s.written[j])
    {
      assert OutputFits(s, i);
      assert MayPrecede(s.rounds.claims, s.written[i], s.written[j]);
    }
  }

  lemma FinishWritten(s: State, t: nat, s': State, n: nat)
    requires Fits(s) && WrittenFits(s, n) && FinishStep(s, t, s')
    ensures WrittenFits(s', n)
  {
    FinishRounds(s.rounds, t, s'.rounds);
    SameEffects(s, s');
    if n == s.rounds.threads[t].n && Asking(s, t).None? {
      NoEntryYet(s, n);
    }
  }

  lemma FinishOutputs(s: State, t: nat, s': State)
    requires Fits(s) && Outputs(s) && FinishStep(s, t, s')
    ensures Outputs(s')
  {
    FinishRounds(s.rounds, t, s'.rounds);
    SameEffects(s, s');
    assert ThreadFits(s, t);
    forall u: nat
      ensures ResultFits(s', u)
    {
      assert ResultFits(s, u);
    }
    forall n: nat
      ensures WrittenFits(s', n)
    {
      FinishWritten(s, t, s', n);
    }
    forall i: nat
      ensures OutputFits(s', i)
    {
      assert OutputFits(s, i);
    }
    assert OrderlyOutputs(s');
  }

  // ----- Steps in the store -----

  /** What a step of thread `t` writes: nothing, unless it is the end of an output. */
  ghost predicate OutputStep(s: JobStore.State, t: nat, s': JobStore.State) {
    && t < |s.threads| == |s'.threads| && s'.threads == s.threads[t := s'.threads[t]]
    && var (pc, pc') := (s.threads[t], s'.threads[t]);
    if s'.outputs == s.outputs then
      && (pc.Idle? ==> !Left(pc'))
      && (Left(pc) && !pc.Idle? ==> Left(pc') && s'.log == s.log)
      && (!Left(pc) && Left(pc') ==> PhaseAt(pc').Done? && !Prints(PhaseAt(pc').res))
    else
      && !Left(pc) && Left(pc') && s'.log == s.log
      && |s'.outputs| == |s.outputs| + 1 && s'.outputs[..|s.outputs|] == s.outputs
      && var e := s'.outputs[|s.outputs|];
      Prints(e) && PhaseAt(pc).Done? && PhaseAt(pc).res == e
  }

  lemma FindWrites(s: JobStore.State, t: nat, s': JobStore.State)
    requires t < |s.threads| && JobStore.StepFind(s, t) == Some(s')
    ensures OutputStep(s, t, s')
  {
  }

  lemma CreateWrites(s: JobStore.State, t: nat, s': JobStore.State)
    requires t < |s.threads| && JobStore.StepCreate(s, t) == Some(s')
    ensures OutputStep(s, t, s')
  {
  }

  lemma SeatWrites(s: JobStore.State, t: nat, s': JobStore.State)
    requires t < |s.threads| && JobStore.StepReserve(s, t) == Some(s')
    requires s.threads[t].ReserveTry? || s.threads[t].ReserveDrop? || s.threads[t].ReserveUndo?
    ensures OutputStep(s, t, s')
  {
  }

  lemma LockWrites(s: JobStore.State, t: nat, s': JobStore.State)
    requires t < |s.threads| && JobStore.StepReserve(s, t) == Some(s')
    requires !s.threads[t].ReserveTry? && !s.threads[t].ReserveDrop? && !s.threads[t].ReserveUndo?
    ensures OutputStep(s, t, s')
  {
  }

  lemma ReserveWrites(s: JobStore.State, t: nat, s': JobStore.State)
    requires t < |s.threads| && JobStore.StepReserve(s, t) == Some(s')
    ensures OutputStep(s, t, s')
  {
    if s.threads[t].ReserveTry? || s.threads[t].ReserveDrop? || s.threads[t].ReserveUndo? {
      SeatWrites(s, t, s');
    } else {
      LockWrites(s, t, s');
    }
  }

  lemma ShowWrites(s: JobStore.State, t: nat, m: nat, s': JobStore.State)
    requires t < |s.threads| && JobStore.StepShow(s, t, m) == Some(s')
    requires s.threads[t].ShowEnd? ==> Prints(s.threads[t].job.what)
    ensures OutputStep(s, t, s')
  {
  }

  lemma ListWrites(s: JobStore.State, t: nat, m: nat, s': JobStore.State)
    requires t < |s.threads| && JobStore.StepList(s, t, m) == Some(s')
    requires s.threads[t].ListEnd? ==> Prints(s.threads[t].job.what)
    ensures OutputStep(s, t, s')
  {
  }

  lemma StepWrites(s: JobStore.State, t: nat, req: JobStore.Request, m: nat, s': JobStore.State)
    requires JobStore.Inv(s) && t < |s.threads| && JobStore.Step(s, t, req, m) == Some(s')
    ensures OutputStep(s, t, s')
  {
    assert JobStore.ThreadInv(s, t);
    var pc := s.threads[t];
    if pc.Idle? || pc.Leave? {
    } else if JobStore.Creating(pc) {
      CreateWrites(s, t, s');
    } else if JobStore.Finding(pc) {
      FindWrites(s, t, s');
    } else if JobStore.Showing(pc) {
      ShowWrites(s, t, m, s');
    } else if JobStore.Listing(pc) {
      ListWrites(s, t, m, s');
    } else {
      ReserveWrites(s, t, s');
    }
  }

  /** A step of thread `t` in the operation `req` of its command `n`, seen from the whole job. */
  ghost predicate CommandStep(s: State, t: nat, n: nat, req: JobStore.Request, s': State) {
    && InStore(s, t, n, req) && OperationStep(s.store, t, req, s'.store) && OutputStep(s.store, t, s'.store)
    && s'.rounds == s.rounds && s'.called == s.called + {n}
    && s'.order == (if s'.store.log == s.store.log then s.order else s.order + [n])
    && s'.written == (if s'.store.outputs == s.store.outputs then s.written else s.written + [n])
  }

  lemma EffectsGrow(s: State, t: nat, n: nat, req: JobStore.Request, s': State, k: nat, e: JobStore.Entry)
    requires Fits(s) && CommandStep(s, t, n, req, s') && EffectIs(s, k, e)
    ensures EffectIs(s', k, e)
  {
    var i: nat :| EntryAt(s, i, k, e);
    assert s'.store.log[..|s.store.log|][i] == s'.store.log[i];
    assert EntryAt(s', i, k, e);
  }

  lemma LogPrefix(s: State, t: nat, n: nat, req: JobStore.Request, s': State, i: nat)
    requires Fits(s) && CommandStep(s, t, n, req, s') && i < |s.order|
    ensures i < |s'.order| && s'.order[i] == s.order[i]
    ensures i < |s.store.log| && i < |s'.store.log| && s'.store.log[i] == s.store.log[i]
  {
    assert s'.store.log[..|s.store.log|][i] == s'.store.log[i];
  }

  lemma OthersPrint(s: State, t: nat, n: nat, req: JobStore.Request, s': State, k: nat)
    requires Fits(s) && Fits(s') && CommandStep(s, t, n, req, s') && (k != n || s'.store.log == s.store.log)
    ensures PrintsFor(s', k) <==> PrintsFor(s, k)
  {
    if PrintsFor(s, k) {
      var i: nat :| i < |s.order| && i < |s.store.log| && s.order[i] == k && Prints(s.store.log[i]);
      LogPrefix(s, t, n, req, s', i);
    }
    if PrintsFor(s', k) {
      var i: nat :| i < |s'.order| && i < |s'.store.log| && s'.order[i] == k && Prints(s'.store.log[i]);
      LogPrefix(s, t, n, req, s', i);
    }
  }

  lemma OrderDistinct(s: State)
    requires Orderly(s)
    ensures forall i, j :: 0 <= i < j < |s.order| ==> s.order[i] != s.order[j]
  {
    forall i, j | 0 <= i < j < |s.order|
      ensures s.order[i] != s.order[j]
    {
      assert MayPrecede(s.rounds.claims, s.order[i], s.order[j]);
    }
  }

  /** A command has one effect. */
  lemma EffectOnce(s: State, n: nat, e: JobStore.Entry)
    requires Fits(s) && EffectIs(s, n, e)
    ensures PrintsFor(s, n) <==> Prints(e)
  {
    OrderDistinct(s);
    var i: nat :| EntryAt(s, i, n, e);
  }

  lemma OwnResult(s: State, t: nat, n: nat, req: JobStore.Request, s': State)
    requires Fits(s) && ResultFits(s, t) && CommandStep(s, t, n, req, s')
    ensures ResultFits(s', t)
  {
    if PhaseAt(s'.store.threads[t]).Done? {
      var e := PhaseAt(s'.store.threads[t]).res;
      if s'.store.log == s.store.log {
        EffectsGrow(s, t, n, req, s', n, e);
      } else {
        assert EntryAt(s', |s.order|, n, e);
      }
    }
  }

  lemma ResultsStep(s: State, t: nat, n: nat, req: JobStore.Request, s': State)
    requires Fits(s) && CommandStep(s, t, n, req, s') && forall u: nat :: ResultFits(s, u)
    ensures forall u: nat :: ResultFits(s', u)
  {
    forall u: nat
      ensures ResultFits(s', u)
    {
      assert ResultFits(s, u);
      if u == t {
        OwnResult(s, t, n, req, s');
      } else if u < |s.store.threads| && PhaseAt(s.store.threads[u]).Done? {
        EffectsGrow(s, t, n, req, s', s.rounds.threads[u].n, PhaseAt(s.store.threads[u]).res);
      }
    }
  }

  lemma OthersThrough(s: State, t: nat, n: nat, req: JobStore.Request, s': State, k: nat)
    requires JobRounds.Inv(s.rounds) && CommandStep(s, t, n, req, s') && k != n
    ensures Through(s', k) <==> Through(s, k)
  {
    if k < |s.rounds.claims| && k !in s.rounds.done && s.rounds.claims[k].tid == t {
      OneAtATime(s.rounds, t, k);
    }
  }

  lemma OwnThrough(s: State, t: nat, n: nat, req: JobStore.Request, s': State)
    requires Fits(s) && CommandStep(s, t, n, req, s')
    ensures Through(s, n) <==> Left(s.store.threads[t]) && !s.store.threads[t].Idle?
    ensures Through(s', n) <==> Left(s'.store.threads[t])
  {
    assert ThreadFits(s, t);
  }

  /** The command's own output: written when it leaves, if its effect was one that prints. */
  lemma OwnWritten(s: State, t: nat, n: nat, req: JobStore.Request, s': State)
    requires Fits(s) && Fits(s') && CommandStep(s, t, n, req, s')
    requires ResultFits(s, t) && ResultFits(s', t) && WrittenFits(s, n)
    ensures WrittenFits(s', n)
  {
    OwnThrough(s, t, n, req, s');
    var pc, pc' := s.store.threads[t], s'.store.threads[t];
    if s'.store.outputs != s.store.outputs {
      EffectsGrow(s, t, n, req, s', n, PhaseAt(pc).res);
      EffectOnce(s', n, PhaseAt(pc).res);
    } else if Left(pc) && !pc.Idle? {
      OthersPrint(s, t, n, req, s', n);
    } else if Left(pc') {
      EffectOnce(s', n, PhaseAt(pc').res);
    }
  }

  lemma WrittenStep(s: State, t: nat, n: nat, req: JobStore.Request, s': State)
    requires Fits(s) && Fits(s') && JobRounds.Inv(s.rounds) && CommandStep(s, t, n, req, s')
    requires ResultFits(s, t) && ResultFits(s', t) && forall k: nat :: WrittenFits(s, k)
    ensures forall k: nat :: WrittenFits(s', k)
  {
    forall k: nat
      ensures WrittenFits(s', k)
    {
      assert WrittenFits(s, k);
      if k == n {
        OwnWritten(s, t, n, req, s');
      } else {
        OthersThrough(s, t, n, req, s', k);
        OthersPrint(s, t, n, req, s', k);
      }
    }
  }

  lemma OutputsStep(s: State, t: nat, n: nat, req: JobStore.Request, s': State)
    requires Fits(s) && CommandStep(s, t, n, req, s') && ResultFits(s, t) && |s.written| == |s.store.outputs|
    requires forall i: nat :: OutputFits(s, i)
    ensures |s'.written| == |s'.store.outputs| && forall i: nat :: OutputFits(s', i)
  {
    forall i: nat
      ensures OutputFits(s', i)
    {
      assert OutputFits(s, i);
      if i < |s.written| {
        assert s'.store.outputs[..|s.store.outputs|] == s.store.outputs;
        assert s'.store.outputs[i] == s.store.outputs[i];
        EffectsGrow(s, t, n, req, s', s.written[i], s.store.outputs[i]);
      } else if i == |s.written| && s'.store.outputs != s.store.outputs {
        EffectsGrow(s, t, n, req, s', n, s'.store.outputs[i]);
      }
    }
  }

  lemma OutputOrder(s: State, t: nat, n: nat, req: JobStore.Request, s': State)
    requires Fits(s) && JobRounds.Inv(s.rounds) && CommandStep(s, t, n, req, s') && Outputs(s)
    ensures OrderlyOutputs(s')
  {
    OwnThrough(s, t, n, req, s');
    assert WrittenFits(s, n);
    forall i, j | 0 <= i < j < |s'.written|
      ensures MayPrecede(s.rounds.claims, s'.written[i], s'.written[j])
    {
      assert OutputFits(s, i);
      if j < |s.written| {
        assert MayPrecede(s.rounds.claims, s.written[i], s.written[j]);
      } else {
        RunningMayFollow(s.rounds, t, n, s.written[i]);
      }
    }
  }

  // ----- The invariant in every run -----

  ghost predicate InvWithOutputs(s: State) { Inv(s) && Outputs(s) }

  lemma StoreIsCommandStep(s: State, t: nat, m: nat, s': State)
    requires Inv(s) && t < |s.rounds.threads| && Step(s, t, m) == Some(s')
    requires Asking(s, t).Some? && !Returned(s, t)
    ensures CommandStep(s, t, s.rounds.threads[t].n, Asking(s, t).value, s')
  {
    assert JobRounds.ThreadOk(s.rounds, t);
    assert ThreadFits(s, t);
    StoreSteps(s.store, t, Asking(s, t).value, m, s'.store);
    StepWrites(s.store, t, Asking(s, t).value, m, s'.store);
  }

  lemma StoreKeepsOutputs(s: State, t: nat, m: nat, s': State)
    requires InvWithOutputs(s) && Fits(s') && t < |s.rounds.threads| && Step(s, t, m) == Some(s')
    requires Asking(s, t).Some? && !Returned(s, t)
    ensures Outputs(s')
  {
    StoreIsCommandStep(s, t, m, s');
    CommandKeepsOutputs(s, t, s.rounds.threads[t].n, Asking(s, t).value, s');
  }

  lemma CommandKeepsOutputs(s: State, t: nat, n: nat, req: JobStore.Request, s': State)
    requires Fits(s) && Fits(s') && JobRounds.Inv(s.rounds) && CommandStep(s, t, n, req, s') && Outputs(s)
    ensures Outputs(s')
  {
    assert ResultFits(s, t);
    ResultsStep(s, t, n, req, s');
    assert ResultFits(s', t);
    WrittenStep(s, t, n, req, s');
    OutputsStep(s, t, n, req, s');
    OutputOrder(s, t, n, req, s');
  }

  lemma OutsideKeepsOutputs(s: State, t: nat, s': State)
    requires InvWithOutputs(s) && t < |s.rounds.threads| && OutsideStep(s, t) == Some(s')
    requires Asking(s, t).None? || Returned(s, t)
    ensures Outputs(s')
  {
    if s.rounds.threads[t].Running? {
      assert JobRounds.ThreadOk(s.rounds, t);
      FinishOutputs(s, t, s');
    } else {
      WorkerAside(s.rounds, t, s'.rounds);
      InStoreMeansRunning(s);
      AsideOutputs(s, s');
    }
  }

  lemma InStoreMeansRunning(s: State)
    requires Fits(s)
    ensures forall t: nat :: t < |s.store.threads| && t < |s.rounds.threads| && !s.store.threads[t].Idle? ==>
      s.rounds.threads[t].Running?
  {
    forall t: nat | t < |s.store.threads| && t < |s.rounds.threads| && !s.store.threads[t].Idle?
      ensures s.rounds.threads[t].Running?
    {
      assert ThreadFits(s, t);
    }
  }

  lemma MainKeepsOutputs(s: State, s': State)
    requires InvWithOutputs(s) && JobRounds.StepMain(s.rounds) == Some(s'.rounds) && s' == s.(rounds := s'.rounds)
    ensures Outputs(s')
  {
    MainAside(s.rounds, s'.rounds);
    InStoreMeansRunning(s);
    AsideOutputs(s, s');
  }

  lemma NextKeepsOutputs(s: State, s': State)
    requires InvWithOutputs(s) && Inv(s') && Next(s, s')
    ensures Outputs(s')
  {
    if JobRounds.StepMain(s.rounds) == Some(s'.rounds) && s' == s.(rounds := s'.rounds) {
      MainKeepsOutputs(s, s');
    } else {
      var t, m :| 0 <= t < |s.rounds.threads| && Step(s, t, m) == Some(s');
      if Asking(s, t).None? || Returned(s, t) {
        OutsideKeepsOutputs(s, t, s');
      } else {
        StoreKeepsOutputs(s, t, m, s');
      }
    }
  }

  lemma RunOutputs(run: seq<State>, i: nat)
    requires Run(run) && i < |run|
    ensures InvWithOutputs(run[i])
  {
    forall s | IsInit(s)
      ensures InvWithOutputs(s)
    {
      var file, n: nat :| n > 0 && s == Init(file, n);
      InitInv(file, n);
    }
    forall s, s' | InvWithOutputs(s) && Next(s, s')
      ensures InvWithOutputs(s')
    {
      NextKeepsInv(s, s');
      NextKeepsOutputs(s, s');
    }
    Runs.Invariant(IsInit, Next, InvWithOutputs, run, i);
  }
}
