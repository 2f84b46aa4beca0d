/** A whole job of Part 1: the threads that read the file and the store they run its commands on.
    Each operation on the store belongs to the command its thread is running. */
module JobExecutions {
  import opened Seating
  import opened JobGrammar
  import opened Histories
  import opened JobStoreHistories
  import JobRounds
  import JobStore
  import JobStoreSteps
  import Runs

  /** `called` are the commands whose operation has been called, so that a thread at Running calls it
      once. `order` and `written` are bookkeeping: the command of each entry of the store's log, and of
      each output in the file. */
  datatype State = State(
    rounds: JobRounds.State,
    store: JobStore.State,
    called: set<nat>,
    order: seq<nat>,
    written: seq<nat>)

  /** The operation a command runs, if any. */
  function RequestOf(c: Command): Option<JobStore.Request> {
    match c
    case Create(id, rows, cols) => Some(JobStore.AskCreate(id, rows, cols))
    case Reserve(id, seats) => Some(JobStore.AskReserve(id, seats))
    case Show(id) => Some(JobStore.AskShow(id))
    case ListEvents => Some(JobStore.AskList)
    case _ => None
  }

  function Init(file: string, threads: nat): State {
    State(JobRounds.Init(file, threads), JobStore.Init(threads), {}, [], [])
  }

  /** The command thread `t` runs and the operation it asks for. */
  function Asking(s: State, t: nat): Option<JobStore.Request>
    requires t < |s.rounds.threads|
  {
    var pc := s.rounds.threads[t];
    if pc.Running? && pc.n < |s.rounds.claims| then RequestOf(s.rounds.claims[pc.n].cmd) else None
  }

  /** The operation of thread `t` has returned. */
  predicate Returned(s: State, t: nat)
    requires t < |s.rounds.threads|
  {
    var pc := s.rounds.threads[t];
    pc.Running? && pc.n in s.called && t < |s.store.threads| && s.store.threads[t].Idle?
  }

  /** A step of worker `t` outside the store. */
  function OutsideStep(s: State, t: nat): Option<State>
    requires t < |s.rounds.threads|
  {
    var r := JobRounds.StepThread(s.rounds, t);
    if r.Some? then Some(s.(rounds := r.value)) else None
  }

  /** A step of worker `t` in the operation of command `n`. */
  ghost function StoreStep(s: State, t: nat, n: nat, req: JobStore.Request, m: nat): Option<State> {
    if t >= |s.store.threads| then None
    else
      var r := JobStore.Step(s.store, t, req, m);
      if r.None? then None
      else Some(s.(store := r.value, called := s.called + {n},
                   order := if r.value.log == s.store.log then s.order else s.order + [n],
                   written := if r.value.outputs == s.store.outputs then s.written else s.written + [n]))
  }

  /** One step of worker `t`. `m` is how much a write call takes. */
  ghost function Step(s: State, t: nat, m: nat): Option<State>
    requires t < |s.rounds.threads|
  {
    var req := Asking(s, t);
    if req.None? || Returned(s, t) then OutsideStep(s, t)
    else StoreStep(s, t, s.rounds.threads[t].n, req.value, m)
  }

  ghost predicate Next(s: State, s': State) {
    || (JobRounds.StepMain(s.rounds) == Some(s'.rounds) && s' == s.(rounds := s'.rounds))
    || exists t, m :: 0 <= t < |s.rounds.threads| && Step(s, t, m) == Some(s')
  }

  ghost predicate IsInit(s: State) {
    exists file, n: nat :: n > 0 && s == Init(file, n)
  }

  ghost predicate Run(run: seq<State>) { Runs.Run(IsInit, Next, run) }

  // ----- Invariant -----

  predicate InOperation(p: Phase<JobStore.Request, JobStore.Entry>, req: JobStore.Request) {
    !p.Out? && p.op == req
  }

  /** A thread is in the store only for the command it runs. */
  ghost predicate ThreadFits(s: State, t: nat) {
    t < |s.store.threads| && t < |s.rounds.threads| && !s.store.threads[t].Idle? ==>
      && Asking(s, t).Some?
      && s.rounds.threads[t].n in s.called
      && InOperation(PhaseAt(s.store.threads[t]), Asking(s, t).value)
  }

  /** The operation of command `n` has taken effect. */
  ghost predicate Took(s: State, n: nat) {
    && n < |s.rounds.claims| && RequestOf(s.rounds.claims[n].cmd).Some?
    && var t := s.rounds.claims[n].tid;
    n in s.rounds.done || (n in s.called && t < |s.store.threads| && !PhaseAt(s.store.threads[t]).Called?)
  }

  ghost predicate ClaimFits(s: State, n: nat) {
    && (n in s.order <==> Took(s, n))
    && (n in s.called ==> n < |s.rounds.claims|)
  }

  /** Entry `i` of the log answers the command it belongs to. */
  ghost predicate EntryFits(s: State, i: nat) {
    i < |s.order| && i < |s.store.log| ==>
      && s.order[i] < |s.rounds.claims|
      && RequestOf(s.rounds.claims[s.order[i]].cmd).Some?
      && Answers(RequestOf(s.rounds.claims[s.order[i]].cmd).value, s.store.log[i])
  }

  /** No barrier lies between `x` and an earlier or the same command `y`. */
  ghost predicate MayPrecede(claims: seq<JobRounds.Claim>, x: nat, y: nat) {
    x != y && forall b :: y <= b < x && b < |claims| ==> !claims[b].cmd.Barrier?
  }

  ghost predicate Orderly(s: State) {
    forall i, j :: 0 <= i < j < |s.order| ==> MayPrecede(s.rounds.claims, s.order[i], s.order[j])
  }

  ghost predicate Fits(s: State) {
    && |s.store.threads| == |s.rounds.threads| && |s.order| == |s.store.log|
    && (forall t: nat :: ThreadFits(s, t))
    && (forall n: nat :: ClaimFits(s, n))
    && (forall i: nat :: EntryFits(s, i))
    && Orderly(s)
  }

  ghost predicate Inv(s: State) {
    JobRounds.Inv(s.rounds) && JobStore.Inv(s.store) && Logged(s.store) && Fits(s)
  }

  // ----- Steps outside the store -----

  /** What a step other than the end of a command does to the rounds: running threads stay where they
      are, and no command that runs an operation is finished or taken back. */
  ghost predicate Aside(r: JobRounds.State, r': JobRounds.State) {
    && |r'.threads| == |r.threads| && r.claims <= r'.claims
    && (forall t :: 0 <= t < |r.threads| && r.threads[t].Running? ==> r'.threads[t] == r.threads[t])
    && (forall n :: 0 <= n < |r.claims| ==> (n in r'.done <==> n in r.done))
    && (forall n :: |r.claims| <= n < |r'.claims| && n in r'.done ==> r'.claims[n].cmd.Barrier?)
  }

  lemma MainAside(r: JobRounds.State, r': JobRounds.State)
    requires JobRounds.MainOk(r) && JobRounds.StepMain(r) == Some(r')
    ensures Aside(r, r') && r'.claims == r.claims
  {
  }

  lemma ClaimAside(r: JobRounds.State, t: nat, r': JobRounds.State)
    requires JobRounds.Inv(r) && t < |r.threads| && r.threads[t].Parse? && r.rest != ""
    requires r' == JobRounds.ParseStep(r, t)
    ensures Aside(r, r')
  {
    JobRounds.ClaimFields(r, t, r');
  }

  lemma WorkerAside(r: JobRounds.State, t: nat, r': JobRounds.State)
    requires JobRounds.Inv(r) && t < |r.threads| && JobRounds.StepThread(r, t) == Some(r') && !r.threads[t].Running?
    ensures Aside(r, r')
  {
    if r.threads[t].Parse? && r.rest != "" {
      ClaimAside(r, t, r');
    } else if r.threads[t].Parse? {
      JobRounds.EndFields(r, t, r');
    } else {
      JobRounds.WorkerFields(r, t, r');
    }
  }

  lemma AsideFits(s: State, s': State)
    requires Fits(s) && s' == s.(rounds := s'.rounds) && Aside(s.rounds, s'.rounds)
    ensures Fits(s')
  {
    forall t: nat
      ensures ThreadFits(s', t)
    {
      assert ThreadFits(s, t);
    }
    forall n: nat
      ensures ClaimFits(s', n)
    {
      assert ClaimFits(s, n);
    }
    forall i: nat
      ensures EntryFits(s', i)
    {
      assert EntryFits(s, i);
    }
    forall i, j | 0 <= i < j < |s.order|
      ensures MayPrecede(s'.rounds.claims, s.order[i], s.order[j])
    {
      assert EntryFits(s, i);
      assert MayPrecede(s.rounds.claims, s.order[i], s.order[j]);
    }
  }

  /** Thread `t` ends its command: its operation, if it has one, has returned. */
  ghost predicate FinishStep(s: State, t: nat, s': State) {
    && t < |s.rounds.threads| && s.rounds.threads[t].Running? && JobRounds.ThreadOk(s.rounds, t)
    && (Asking(s, t).None? || Returned(s, t))
    && s' == s.(rounds := s'.rounds) && JobRounds.StepThread(s.rounds, t) == Some(s'.rounds)
  }

  lemma FinishRounds(r: JobRounds.State, t: nat, r': JobRounds.State)
    requires t < |r.threads| && r.threads[t].Running? && JobRounds.StepThread(r, t) == Some(r')
    ensures r' == r.(threads := r.threads[t := JobRounds.AtLock], done := r.done + {r.threads[t].n})
  {
  }

  lemma FinishClaim(s: State, t: nat, s': State, n: nat)
    requires FinishStep(s, t, s') && ClaimFits(s, n)
    ensures ClaimFits(s', n)
  {
    FinishRounds(s.rounds, t, s'.rounds);
  }

  lemma FinishFits(s: State, t: nat, s': State)
    requires Fits(s) && FinishStep(s, t, s')
    ensures Fits(s')
  {
    FinishRounds(s.rounds, t, s'.rounds);
    forall u: nat
      ensures ThreadFits(s', u)
    {
      assert ThreadFits(s, u);
    }
    forall n: nat
      ensures ClaimFits(s', n)
    {
      assert ClaimFits(s, n);
      FinishClaim(s, t, s', n);
    }
    forall i: nat
      ensures EntryFits(s', i)
    {
      assert EntryFits(s, i);
    }
    assert Orderly(s');
  }

  // ----- Steps in the store -----

  lemma OutMeansIdle(pc: JobStore.PC)
    ensures PhaseAt(pc).Out? <==> pc.Idle?
  {
  }

  /** What a step of thread `t` in the operation `req` is to the rest of the job: the effect of `req`,
      or a step before or after it. */
  ghost predicate OperationStep(s: JobStore.State, t: nat, req: JobStore.Request, s': JobStore.State) {
    && t < |s.threads| == |s'.threads| && s'.threads == s.threads[t := s'.threads[t]]
    && var (p, p') := (PhaseAt(s.threads[t]), PhaseAt(s'.threads[t]));
    && (!p'.Out? ==> InOperation(p', req))
    && if s'.log == s.log then p'.Called? == !p.Done? && (p'.Done? ==> p' == p)
       else
         && p.Called? && |s'.log| == |s.log| + 1 && s'.log[..|s.log|] == s.log
         && p' == Done(req, s'.log[|s.log|]) && Answers(req, s'.log[|s.log|])
  }

  lemma StoreSteps(s: JobStore.State, t: nat, req: JobStore.Request, m: nat, s': JobStore.State)
    requires t < |s.threads| && JobStore.Step(s, t, req, m) == Some(s')
    requires !s.threads[t].Idle? ==> InOperation(PhaseAt(s.threads[t]), req)
    ensures OperationStep(s, t, req, s')
  {
    StepLogs(s, t, req, m, s');
    OutMeansIdle(s.threads[t]);
    if s.threads[t].Idle? {
      assert PhaseAt(s'.threads[t]) == Called(req);
    }
  }

  /** A command that has been called and is not finished is the one its thread runs. */
  lemma OneAtATime(r: JobRounds.State, t: nat, n: nat)
    requires JobRounds.Inv(r) && t < |r.threads| && n < |r.claims| && n !in r.done && r.claims[n].tid == t
    ensures r.threads[t] == JobRounds.Running(n)
  {
    assert JobRounds.ClaimOk(r, n);
    var u: nat :| JobRounds.IsRunning(r, u, n);
    assert JobRounds.ThreadOk(r, u);
  }

  /** A running command comes after the last barrier read, and every command taken since may precede it. */
  lemma RunningMayFollow(r: JobRounds.State, t: nat, n: nat, x: nat)
    requires JobRounds.Inv(r) && JobRounds.IsRunning(r, t, n) && x < |r.claims| && x != n
    ensures MayPrecede(r.claims, x, n)
  {
    assert JobRounds.ThreadOk(r, t);
    forall b | n <= b < x
      ensures !r.claims[b].cmd.Barrier?
    {
      assert JobRounds.ClaimOk(r, b);
    }
  }

  /** Where a step of thread `t` in the operation of its command `n` starts. */
  ghost predicate InStore(s: State, t: nat, n: nat, req: JobStore.Request) {
    && t < |s.rounds.threads| == |s.store.threads| && s.rounds.threads[t] == JobRounds.Running(n)
    && n < |s.rounds.claims| && s.rounds.claims[n].tid == t && n !in s.rounds.done
    && Asking(s, t) == Some(req) && !Returned(s, t)
  }

  lemma StoreThreads(s: State, t: nat, n: nat, req: JobStore.Request, s': State)
    requires Fits(s) && InStore(s, t, n, req) && OperationStep(s.store, t, req, s'.store)
    requires s'.rounds == s.rounds && s'.called == s.called + {n}
    ensures forall u: nat :: ThreadFits(s', u)
  {
    OutMeansIdle(s'.store.threads[t]);
    forall u: nat
      ensures ThreadFits(s', u)
    {
      assert ThreadFits(s, u);
    }
  }

  lemma TookStep(s: State, t: nat, n: nat, req: JobStore.Request, s': State)
    requires Fits(s) && InStore(s, t, n, req) && OperationStep(s.store, t, req, s'.store)
    requires s'.rounds == s.rounds && s'.called == s.called + {n}
    ensures Took(s, n) ==> s'.store.log == s.store.log
    ensures Took(s', n) <==> Took(s, n) || s'.store.log != s.store.log
  {
    assert ThreadFits(s, t);
    OutMeansIdle(s.store.threads[t]);
  }

  lemma OthersTook(s: State, t: nat, n: nat, req: JobStore.Request, s': State, k: nat)
    requires JobRounds.Inv(s.rounds) && InStore(s, t, n, req) && OperationStep(s.store, t, req, s'.store)
    requires s'.rounds == s.rounds && s'.called == s.called + {n} && k != n
    ensures Took(s', k) <==> Took(s, k)
  {
    if k < |s.rounds.claims| && k !in s.rounds.done && s.rounds.claims[k].tid == t {
      OneAtATime(s.rounds, t, k);
    }
  }

  lemma StoreClaims(s: State, t: nat, n: nat, req: JobStore.Request, s': State)
    requires Fits(s) && JobRounds.Inv(s.rounds) && InStore(s, t, n, req)
    requires OperationStep(s.store, t, req, s'.store) && s'.rounds == s.rounds && s'.called == s.called + {n}
    requires s'.order == if s'.store.log == s.store.log then s.order else s.order + [n]
    ensures forall k: nat :: ClaimFits(s', k)
  {
    forall k: nat
      ensures ClaimFits(s', k)
    {
      assert ClaimFits(s, k);
      if k == n {
        TookStep(s, t, n, req, s');
      } else {
        OthersTook(s, t, n, req, s', k);
      }
    }
  }

  lemma StoreEntries(s: State, t: nat, n: nat, req: JobStore.Request, s': State)
    requires Fits(s) && InStore(s, t, n, req) && OperationStep(s.store, t, req, s'.store) && s'.rounds == s.rounds
    requires s'.order == if s'.store.log == s.store.log then s.order else s.order + [n]
    ensures |s'.order| == |s'.store.log| && forall i: nat :: EntryFits(s', i)
  {
    forall i: nat
      ensures EntryFits(s', i)
    {
      assert EntryFits(s, i);
      if i < |s.order| {
        assert s'.store.log[..|s.store.log|] == s.store.log;
        assert s'.store.log[i] == s.store.log[i];
      }
    }
  }

  lemma StoreOrder(s: State, t: nat, n: nat, req: JobStore.Request, s': State)
    requires Fits(s) && JobRounds.Inv(s.rounds) && InStore(s, t, n, req) && s'.rounds == s.rounds
    requires n !in s.order && s'.order == s.order + [n]
    ensures Orderly(s')
  {
    forall i, j | 0 <= i < j < |s'.order|
      ensures MayPrecede(s.rounds.claims, s'.order[i], s'.order[j])
    {
      assert EntryFits(s, i);
      if j < |s.order| {
        assert MayPrecede(s.rounds.claims, s.order[i], s.order[j]);
      } else {
        RunningMayFollow(s.rounds, t, n, s.order[i]);
      }
    }
  }

  lemma StoreFits(s: State, t: nat, n: nat, req: JobStore.Request, s': State)
    requires Fits(s) && JobRounds.Inv(s.rounds) && InStore(s, t, n, req)
    requires OperationStep(s.store, t, req, s'.store) && s'.rounds == s.rounds && s'.called == s.called + {n}
    requires s'.order == if s'.store.log == s.store.log then s.order else s.order + [n]
    ensures Fits(s')
  {
    StoreThreads(s, t, n, req, s');
    StoreClaims(s, t, n, req, s');
    StoreEntries(s, t, n, req, s');
    if s'.store.log != s.store.log {
      TookStep(s, t, n, req, s');
      assert ClaimFits(s, n);
      StoreOrder(s, t, n, req, s');
    }
  }

  // ----- The invariant in every run -----

  lemma StoreKeepsInv(s: State, t: nat, m: nat, s': State)
    requires Inv(s) && t < |s.rounds.threads| && Step(s, t, m) == Some(s')
    requires Asking(s, t).Some? && !Returned(s, t)
    ensures Inv(s')
  {
    var n, req := s.rounds.threads[t].n, Asking(s, t).value;
    assert JobRounds.ThreadOk(s.rounds, t);
    assert ThreadFits(s, t);
    StoreSteps(s.store, t, req, m, s'.store);
    StoreFits(s, t, n, req, s');
    JobStoreSteps.StepKeepsInv(s.store, t, req, m, s'.store);
    StepLogs(s.store, t, req, m, s'.store);
    LogStepKeeps(s.store, s'.store, t);
  }

  lemma OutsideKeepsInv(s: State, t: nat, s': State)
    requires Inv(s) && t < |s.rounds.threads| && OutsideStep(s, t) == Some(s')
    requires Asking(s, t).None? || Returned(s, t)
    ensures Inv(s')
  {
    JobRounds.WorkerKeepsInv(s.rounds, t, s'.rounds);
    if s.rounds.threads[t].Running? {
      assert JobRounds.ThreadOk(s.rounds, t);
      FinishFits(s, t, s');
    } else {
      WorkerAside(s.rounds, t, s'.rounds);
      AsideFits(s, s');
    }
  }

  lemma MainKeepsInv(s: State, s': State)
    requires Inv(s) && JobRounds.StepMain(s.rounds) == Some(s'.rounds) && s' == s.(rounds := s'.rounds)
    ensures Inv(s')
  {
    JobRounds.MainKeepsInv(s.rounds, s'.rounds);
    MainAside(s.rounds, s'.rounds);
    AsideFits(s, s');
  }

  lemma NextKeepsInv(s: State, s': State)
    requires Inv(s) && Next(s, s')
    ensures Inv(s')
  {
    if JobRounds.StepMain(s.rounds) == Some(s'.rounds) && s' == s.(rounds := s'.rounds) {
      MainKeepsInv(s, s');
    } else {
      var t, m :| 0 <= t < |s.rounds.threads| && Step(s, t, m) == Some(s');
      if Asking(s, t).None? || Returned(s, t) {
        OutsideKeepsInv(s, t, s');
      } else {
        StoreKeepsInv(s, t, m, s');
      }
    }
  }

  lemma InitInv(file: string, n: nat)
    requires n > 0
    ensures Inv(Init(file, n))
  {
    JobRounds.InitInv(file, n);
    JobStore.InitInv(n);
    var s := Init(file, n);
    assert EffectsOf(s.store.history) == [] && WellFormed(s.store.history);
    forall t: nat
      ensures ThreadLogged(s.store, t)
    {
    }
  }

  /** Every state of a job is a state of its rounds and a state of its store. */
  lemma RunInv(run: seq<State>, i: nat)
    requires Run(run) && i < |run|
    ensures Inv(run[i])
  {
    forall s | IsInit(s)
      ensures Inv(s)
    {
      var file, n: nat :| n > 0 && s == Init(file, n);
      InitInv(file, n);
    }
    forall s, s' | Inv(s) && Next(s, s')
      ensures Inv(s')
    {
      NextKeepsInv(s, s');
    }
    Runs.Invariant(IsInit, Next, Inv, run, i);
  }
}
