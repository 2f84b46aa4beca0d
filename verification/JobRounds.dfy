/** Part 1's worker threads: one job file read by any number of threads under one mutex, waits
    injected into threads, and barriers that end a round and start the next. */
module JobRounds {
  import opened Seating
  import opened JobGrammar
  import Runs

  datatype PC =
    | Unborn
    | AtLock            // wants parseMutex, at the top of its loop
    | CheckWait         // has it
    | Sleeping(delay: nat)   // in a WAIT of so many milliseconds, mutex released
    | Relock            // awake, wants parseMutex again
    | CheckBarrier      // has it
    | Parse             // has it, about to read the next command
    | Running(n: nat)   // runs command n, mutex released
    | Exited(sawBarrier: bool)

  /** The main thread: creates the threads of a round, joins them, decides. */
  datatype Main = Spawn(i: nat) | Join(i: nat) | Decide | Finished

  /** A command taken from the file, by which thread and in which round. */
  datatype Claim = Claim(cmd: Command, tid: nat, round: nat)

  /** `claims`, `done`, `first` and `round` are bookkeeping: all commands taken, which of them are
      finished, the first one of the current round, and the number of rounds before it. */
  datatype State = State(
    file: string,
    rest: string,
    mutex: Option<nat>,
    barrier: bool,
    waits: seq<bool>,
    delays: seq<nat>,
    threads: seq<PC>,
    main: Main,
    claims: seq<Claim>,
    done: set<nat>,
    first: nat,
    round: nat)

  function Init(file: string, threads: nat): State {
    State(file, file, None, false, seq(threads, _ => false), seq(threads, _ => 0),
          seq(threads, _ => Unborn), Spawn(0), [], {}, 0, 0)
  }

  /** What inject_wait does to the flags and delays; a thread id out of range changes nothing. */
  function Injected(waits: seq<bool>, delays: seq<nat>, delay: nat, target: Option<nat>): (r: (seq<bool>, seq<nat>))
    requires |waits| == |delays|
    ensures |r.0| == |r.1| == |waits|
    ensures target.None? ==> forall i :: 0 <= i < |waits| ==>
      r.0[i] && r.1[i] == (delays[i] + delay) % UINT_RANGE
    ensures target.Some? ==> forall i :: 0 <= i < |waits| ==>
      r.0[i] == (waits[i] || i == target.value) && r.1[i] == (if i == target.value then delay else delays[i])
  {
    if target.Some? then
      if target.value < |waits| then (waits[target.value := true], delays[target.value := delay])
      else (waits, delays)
    else (seq(|waits|, _ => true), seq(|delays|, i requires 0 <= i < |delays| => (delays[i] + delay) % UINT_RANGE))
  }

  /** inject_wait on its arrays. */
  method InjectWait(threadWaits: array<bool>, threadDelays: array<nat>, delay: nat, target: Option<nat>)
    returns (failed: bool)
    requires threadWaits.Length == threadDelays.Length
    modifies threadWaits, threadDelays
    ensures (threadWaits[..], threadDelays[..]) ==
      Injected(old(threadWaits[..]), old(threadDelays[..]), delay, target)
    ensures failed <==> target.Some? && target.value >= threadWaits.Length
  {
    if target.Some? {
      if target.value >= threadWaits.Length {
        return true;
      }
      threadWaits[target.value] := true;
      threadDelays[target.value] := delay;
    } else {
      for i := 0 to threadWaits.Length
        invariant forall j :: 0 <= j < i ==>
          threadWaits[j] && threadDelays[j] == (old(threadDelays[j]) + delay) % UINT_RANGE
        invariant forall j :: i <= j < threadWaits.Length ==>
          threadWaits[j] == old(threadWaits[j]) && threadDelays[j] == old(threadDelays[j])
      {
        threadWaits[i] := true;
        threadDelays[i] := (threadDelays[i] + delay) % UINT_RANGE;
      }
    }
    ghost var r := Injected(old(threadWaits[..]), old(threadDelays[..]), delay, target);
    assert threadWaits[..] == r.0 && threadDelays[..] == r.1;
    return false;
  }

  function To(s: State, t: nat, pc: PC): State
    requires t < |s.threads|
  {
    s.(threads := s.threads[t := pc])
  }

  /** Reading one command with the mutex held, and releasing the mutex. */
  function ParseStep(s: State, t: nat): State
    requires t < |s.threads| && |s.waits| == |s.delays|
  {
    var r := NextCommand(Part1, s.rest);
    var s1 := s.(rest := r.rest, mutex := None);
    var n := |s.claims|;
    if r.value.EndOfCommands? then To(s1, t, Exited(false))
    else
      var s2 := s1.(claims := s.claims + [Claim(r.value, t, s.round)]);
      if r.value.Barrier? then To(s2, t, Exited(true)).(barrier := true, done := s.done + {n})
      else if r.value.Wait? then
        var (w, d) := Injected(s.waits, s.delays, r.value.delay, r.value.target);
        To(s2, t, Running(n)).(waits := w, delays := d)
      else To(s2, t, Running(n))
  }

  /** One step of worker `t`; None while it waits for the mutex, is not created yet or has exited. */
  function StepThread(s: State, t: nat): Option<State>
    requires t < |s.threads|
  {
    match s.threads[t]
    case AtLock => if s.mutex.None? then Some(To(s, t, CheckWait).(mutex := Some(t))) else None
    case CheckWait =>
      if t < |s.waits| && t < |s.delays| && s.waits[t] && !s.barrier then
        Some(To(s, t, Sleeping(s.delays[t])).(waits := s.waits[t := false], delays := s.delays[t := 0], mutex := None))
      else Some(To(s, t, CheckBarrier))
    case Sleeping(_) => Some(To(s, t, Relock))
    case Relock => if s.mutex.None? then Some(To(s, t, CheckBarrier).(mutex := Some(t))) else None
    case CheckBarrier =>
      if s.barrier then Some(To(s, t, Exited(true)).(mutex := None)) else Some(To(s, t, Parse))
    case Parse => if |s.waits| == |s.delays| then Some(ParseStep(s, t)) else None
    case Running(n) => Some(To(s, t, AtLock).(done := s.done + {n}))
    case _ => None
  }

  /** One step of the main thread; None while it waits for a thread to exit. */
  function StepMain(s: State): Option<State> {
    match s.main
    case Spawn(i) =>
      if i < |s.threads| then Some(To(s, i, AtLock).(main := Spawn(i + 1)))
      else Some(s.(main := Join(0)))
    case Join(i) =>
      if i >= |s.threads| then Some(s.(main := Decide))
      else if s.threads[i].Exited? then Some(s.(main := Join(i + 1)))
      else None
    case Decide =>
      if s.barrier then
        Some(s.(main := Spawn(0), barrier := false, round := s.round + 1, first := |s.claims|,
                threads := seq(|s.threads|, _ => Unborn),
                waits := seq(|s.waits|, _ => false), delays := seq(|s.delays|, _ => 0)))
      else Some(s.(main := Finished))
    case Finished => None
  }

  ghost predicate Next(s: State, s': State) {
    StepMain(s) == Some(s') || exists t :: 0 <= t < |s.threads| && StepThread(s, t) == Some(s')
  }

  ghost predicate IsInit(s: State) {
    exists file, n: nat :: n > 0 && s == Init(file, n)
  }

  ghost predicate Run(run: seq<State>) { Runs.Run(IsInit, Next, run) }

  // ----- Invariant -----

  function CommandsOf(claims: seq<Claim>): seq<Command> {
    if claims == [] then [] else CommandsOf(claims[..|claims| - 1]) + [claims[|claims| - 1].cmd]
  }

  function Barriers(claims: seq<Claim>): nat {
    if claims == [] then 0
    else Barriers(claims[..|claims| - 1]) + if claims[|claims| - 1].cmd.Barrier? then 1 else 0
  }

  predicate HoldsMutex(pc: PC) { pc.CheckWait? || pc.CheckBarrier? || pc.Parse? }

  ghost predicate ThreadOk(s: State, t: nat) {
    t < |s.threads| ==>
      var pc := s.threads[t];
      && (HoldsMutex(pc) <==> s.mutex == Some(t))
      && (pc.Parse? ==> !s.barrier)
      && (pc.Running? ==> s.first <= pc.n < |s.claims| && s.claims[pc.n].tid == t && pc.n !in s.done)
      && (pc.Exited? ==> if pc.sawBarrier then s.barrier else s.rest == "")
  }

  /** Where the main thread is tells which threads exist and which are known to have exited. */
  ghost predicate MainOk(s: State) {
    match s.main
    case Spawn(i) => i <= |s.threads| && forall t :: 0 <= t < |s.threads| ==> (s.threads[t].Unborn? <==> t >= i)
    case Join(i) =>
      && i <= |s.threads|
      && (forall t :: 0 <= t < |s.threads| ==> !s.threads[t].Unborn?)
      && forall t :: 0 <= t < i ==> s.threads[t].Exited?
    case Decide => forall t :: 0 <= t < |s.threads| ==> s.threads[t].Exited?
    case Finished => !s.barrier && forall t :: 0 <= t < |s.threads| ==> s.threads[t].Exited?
  }

  ghost predicate ClaimOk(s: State, n: nat) {
    n < |s.claims| ==>
      && (n in s.done || exists t :: IsRunning(s, t, n))
      && (n < s.first ==> n in s.done)
      && (n >= s.first ==> s.claims[n].round == s.round)
      && (n >= s.first && s.claims[n].cmd.Barrier? ==> s.barrier && n == |s.claims| - 1 && n in s.done)
  }

  ghost predicate IsRunning(s: State, t: nat, n: nat) {
    t < |s.threads| && s.threads[t] == Running(n)
  }

  ghost predicate Table(s: State) {
    && |s.threads| == |s.waits| == |s.delays| && |s.threads| > 0
    && (s.mutex.Some? ==> s.mutex.value < |s.threads|)
    && s.first <= |s.claims|
    && (forall n :: n in s.done ==> n < |s.claims|)
    && (s.barrier ==> |s.claims| > s.first && s.claims[|s.claims| - 1].cmd.Barrier?)
    && ParseAll(Part1, s.file) == CommandsOf(s.claims) + ParseAll(Part1, s.rest)
    && Barriers(s.claims) == s.round + if s.barrier then 1 else 0
  }

  ghost predicate Inv(s: State) {
    && Table(s)
    && MainOk(s)
    && (forall t: nat :: ThreadOk(s, t))
    && (forall n: nat :: ClaimOk(s, n))
  }

  lemma InitInv(file: string, n: nat)
    requires n > 0
    ensures Inv(Init(file, n))
  {
    var s := Init(file, n);
    assert CommandsOf(s.claims) == [] && Barriers(s.claims) == 0;
    forall t: nat
      ensures ThreadOk(s, t)
    {
    }
  }

  lemma ClaimsSnoc(claims: seq<Claim>, c: Claim)
    ensures CommandsOf(claims + [c]) == CommandsOf(claims) + [c.cmd]
    ensures Barriers(claims + [c]) == Barriers(claims) + if c.cmd.Barrier? then 1 else 0
  {
    assert (claims + [c])[..|claims|] == claims;
  }

  lemma ParseAllNext(s: string)
    requires s != ""
    ensures ParseAll(Part1, s) == [NextCommand(Part1, s).value] + ParseAll(Part1, NextCommand(Part1, s).rest)
    ensures !NextCommand(Part1, s).value.EndOfCommands?
  {
    CommandShorter(Part1, s);
  }

  // ----- Preservation: workers -----

  /** All that a step of worker `t` may change for another worker `u`. */
  ghost predicate Spares(s: State, s': State, t: nat, u: nat) {
    && (s'.mutex == Some(u) <==> s.mutex == Some(u))
    && (s'.barrier == s.barrier || (s'.barrier && s.mutex == Some(t)))
    && s'.first == s.first
    && |s.claims| <= |s'.claims| && s'.claims[..|s.claims|] == s.claims
    && (forall n :: n in s'.done && n !in s.done ==> n < |s'.claims| && s'.claims[n].tid == t)
    && (s.rest == "" ==> s'.rest == "")
  }

  lemma OthersOk(s: State, s': State, t: nat)
    requires t < |s.threads| == |s'.threads| && s'.threads == s.threads[t := s'.threads[t]]
    requires forall u: nat :: ThreadOk(s, u)
    requires forall u: nat :: u != t ==> Spares(s, s', t, u)
    requires ThreadOk(s', t)
    ensures forall u: nat :: ThreadOk(s', u)
  {
    forall u: nat
      ensures ThreadOk(s', u)
    {
      assert ThreadOk(s, u);
      if u != t {
        assert Spares(s, s', t, u);
      }
    }
  }

  /** Worker `t` is a living worker of the round: the main thread has created it and awaits it. */
  lemma MainUndisturbed(s: State, s': State, t: nat)
    requires MainOk(s) && t < |s.threads| == |s'.threads| && s'.threads == s.threads[t := s'.threads[t]]
    requires !s.threads[t].Unborn? && !s.threads[t].Exited? && !s'.threads[t].Unborn?
    requires s'.main == s.main && (s'.barrier == s.barrier || s.main != Finished)
    ensures MainOk(s')
    ensures !s.main.Finished? && !s.main.Decide?
  {
  }

  lemma ClaimsUndisturbed(s: State, s': State, t: nat)
    requires t < |s.threads| == |s'.threads| && s'.threads == s.threads[t := s'.threads[t]]
    requires forall n: nat :: ClaimOk(s, n)
    requires s'.claims == s.claims && s'.done == s.done && s'.first == s.first && s'.round == s.round
    requires s'.barrier == s.barrier && !s.threads[t].Running?
    ensures forall n: nat :: ClaimOk(s', n)
  {
    forall n: nat
      ensures ClaimOk(s', n)
    {
      assert ClaimOk(s, n);
      if n < |s.claims| && n !in s.done {
        var u :| IsRunning(s, u, n);
        assert IsRunning(s', u, n);
      }
    }
  }

  /** What a step of a worker does, other than reading a command. */
  ghost predicate WorkerMove(s: State, t: nat, s': State) {
    && t < |s.threads| == |s'.threads| && |s'.waits| == |s.waits| && |s'.delays| == |s.delays|
    && s' == s.(threads := s.threads[t := s'.threads[t]], waits := s'.waits, delays := s'.delays,
                mutex := s'.mutex, done := s'.done)
    && var (pc, pc') := (s.threads[t], s'.threads[t]);
    && !pc.Unborn? && !pc.Exited? && !pc'.Unborn? && !pc'.Running?
    && s'.mutex == (if HoldsMutex(pc) == HoldsMutex(pc') then s.mutex else if HoldsMutex(pc') then Some(t) else None)
    && (HoldsMutex(pc') && !HoldsMutex(pc) ==> s.mutex.None?)
    && (pc'.Parse? ==> !s.barrier)
    && (pc'.Exited? ==> if pc'.sawBarrier then s.barrier else s.rest == "")
    && s'.done == if pc.Running? then s.done + {pc.n} else s.done
  }

  lemma WorkerFields(s: State, t: nat, s': State)
    requires t < |s.threads| && StepThread(s, t) == Some(s') && !s.threads[t].Parse?
    ensures WorkerMove(s, t, s')
  {
  }

  /** What a worker does at the end of the file. */
  lemma EndFields(s: State, t: nat, s': State)
    requires t < |s.threads| && StepThread(s, t) == Some(s') && s.threads[t].Parse? && s.rest == ""
    ensures s' == To(s, t, Exited(false)).(mutex := None)
    ensures WorkerMove(s, t, s')
  {
    CommandShorter(Part1, s.rest);
  }

  lemma MoveThreads(s: State, t: nat, s': State)
    requires Inv(s) && WorkerMove(s, t, s')
    ensures MainOk(s') && forall u: nat :: ThreadOk(s', u)
  {
    assert ThreadOk(s, t);
    MainUndisturbed(s, s', t);
    OthersOk(s, s', t);
  }

  lemma MoveTable(s: State, t: nat, s': State)
    requires Table(s) && ThreadOk(s, t) && WorkerMove(s, t, s')
    ensures Table(s')
  {
  }

  /** Steps that take or give the mutex, sleep, wake or exit. */
  lemma LightStep(s: State, t: nat, s': State)
    requires Inv(s) && WorkerMove(s, t, s') && !s.threads[t].Running?
    ensures Inv(s')
  {
    assert ThreadOk(s, t);
    MoveTable(s, t, s');
    MoveThreads(s, t, s');
    ClaimsUndisturbed(s, s', t);
  }

  lemma FinishStep(s: State, t: nat, s': State)
    requires Inv(s) && WorkerMove(s, t, s') && s.threads[t].Running?
    ensures Inv(s')
  {
    assert ThreadOk(s, t);
    MoveTable(s, t, s');
    MoveThreads(s, t, s');
    FinishClaims(s, t, s');
  }

  lemma FinishClaims(s: State, t: nat, s': State)
    requires WorkerMove(s, t, s') && s.threads[t].Running? && forall n: nat :: ClaimOk(s, n)
    ensures forall n: nat :: ClaimOk(s', n)
  {
    forall n: nat
      ensures ClaimOk(s', n)
    {
      assert ClaimOk(s, n);
      if n < |s.claims| && n !in s'.done {
        var u :| IsRunning(s, u, n);
        assert IsRunning(s', u, n);
      }
    }
  }

  /** What reading a command does to the state, whatever the command. */
  lemma ClaimFields(s: State, t: nat, s': State)
    requires Inv(s) && t < |s.threads| && s.threads[t].Parse? && s' == ParseStep(s, t) && s.rest != ""
    ensures var c := NextCommand(Part1, s.rest).value;
      && !c.EndOfCommands?
      && s'.file == s.file && s'.rest == NextCommand(Part1, s.rest).rest && s'.mutex == None
      && s'.barrier == c.Barrier?
      && s'.claims == s.claims + [Claim(c, t, s.round)]
      && s'.done == (if c.Barrier? then s.done + {|s.claims|} else s.done)
      && s'.threads == s.threads[t := if c.Barrier? then Exited(true) else Running(|s.claims|)]
      && s'.main == s.main && s'.first == s.first && s'.round == s.round
      && |s'.waits| == |s.waits| && |s'.delays| == |s.delays|
  {
    assert ThreadOk(s, t);
    CommandShorter(Part1, s.rest);
  }

  /** The commands taken and the commands ahead stay, together, the commands of the file. */
  lemma PartitionKept(file: string, rest: string, claims: seq<Claim>, c: Claim)
    requires rest != "" && c.cmd == NextCommand(Part1, rest).value
    requires ParseAll(Part1, file) == CommandsOf(claims) + ParseAll(Part1, rest)
    ensures ParseAll(Part1, file) == CommandsOf(claims + [c]) + ParseAll(Part1, NextCommand(Part1, rest).rest)
  {
    ParseAllNext(rest);
    ClaimsSnoc(claims, c);
    MoveOver(CommandsOf(claims), c.cmd, ParseAll(Part1, NextCommand(Part1, rest).rest));
  }

  lemma MoveOver<T>(a: seq<T>, x: T, b: seq<T>)
    ensures a + ([x] + b) == a + [x] + b
  {
  }

  lemma ClaimTable(s: State, s': State, c: Claim)
    requires Table(s) && !s.barrier
    requires ParseAll(Part1, s'.file) == CommandsOf(s'.claims) + ParseAll(Part1, s'.rest)
    requires s'.claims == s.claims + [c] && s'.barrier == c.cmd.Barrier? && s'.mutex == None
    requires s'.done == if s'.barrier then s.done + {|s.claims|} else s.done
    requires |s'.threads| == |s.threads| && s'.first == s.first && s'.round == s.round
    requires |s'.waits| == |s.waits| && |s'.delays| == |s.delays|
    ensures Table(s')
  {
    ClaimsSnoc(s.claims, c);
  }

  lemma ClaimStep(s: State, t: nat, s': State)
    requires Inv(s) && t < |s.threads| && s.threads[t].Parse? && s' == ParseStep(s, t) && s.rest != ""
    ensures Inv(s')
  {
    assert ThreadOk(s, t);
    ClaimFields(s, t, s');
    var c := Claim(NextCommand(Part1, s.rest).value, t, s.round);
    PartitionKept(s.file, s.rest, s.claims, c);
    ClaimTable(s, s', c);
    MainUndisturbed(s, s', t);
    ClaimThreads(s, t, s');
    ClaimedOk(s, t, s');
  }

  lemma ClaimThreads(s: State, t: nat, s': State)
    requires Inv(s) && t < |s.threads| && s.threads[t].Parse? && s' == ParseStep(s, t) && s.rest != ""
    ensures forall u: nat :: ThreadOk(s', u)
  {
    assert ThreadOk(s, t);
    ClaimFields(s, t, s');
    OthersOk(s, s', t);
  }

  lemma ClaimedOk(s: State, t: nat, s': State)
    requires Inv(s) && t < |s.threads| && s.threads[t].Parse? && s' == ParseStep(s, t) && s.rest != ""
    ensures forall n: nat :: ClaimOk(s', n)
  {
    assert ThreadOk(s, t);
    CommandShorter(Part1, s.rest);
    forall n: nat
      ensures ClaimOk(s', n)
    {
      assert ClaimOk(s, n);
      if n < |s.claims| && n !in s'.done {
        var u :| IsRunning(s, u, n);
        assert IsRunning(s', u, n);
      }
      if n == |s.claims| && n !in s'.done {
        assert IsRunning(s', t, n);
      }
    }
  }

  // ----- Preservation: the main thread -----

  lemma SpawnStep(s: State, s': State)
    requires Inv(s) && s.main.Spawn? && s.main.i < |s.threads| && StepMain(s) == Some(s')
    ensures Inv(s')
  {
    var t := s.main.i;
    assert ThreadOk(s, t);
    ClaimsUndisturbed(s, s', t);
    OthersOk(s, s', t);
  }

  lemma SameThreads(s: State, s': State)
    requires Inv(s) && s' == s.(main := s'.main)
    ensures Table(s') && (forall t: nat :: ThreadOk(s', t)) && (forall n: nat :: ClaimOk(s', n))
  {
    forall t: nat
      ensures ThreadOk(s', t)
    {
      assert ThreadOk(s, t);
    }
    forall n: nat
      ensures ClaimOk(s', n)
    {
      assert ClaimOk(s, n);
      if n < |s.claims| && n !in s.done {
        var u :| IsRunning(s, u, n);
        assert IsRunning(s', u, n);
      }
    }
  }

  /** When every worker has exited, every command taken is finished. */
  lemma AllDone(s: State, n: nat)
    requires Inv(s) && n < |s.claims|
    requires forall t :: 0 <= t < |s.threads| ==> s.threads[t].Exited?
    ensures n in s.done
  {
    assert ClaimOk(s, n);
  }

  /** What a round starts from after a barrier: nobody waits or has a wait to come, every thread is
      created anew, and every command taken so far is finished and lies before it. */
  ghost predicate FreshRound(s: State) {
    && |s.threads| == |s.waits| == |s.delays|
    && !s.barrier && s.mutex.None? && s.main == Spawn(0) && s.first == |s.claims|
    && (forall t :: 0 <= t < |s.threads| ==> s.threads[t].Unborn? && !s.waits[t] && s.delays[t] == 0)
    && (forall n :: 0 <= n < |s.claims| ==> n in s.done)
  }

  lemma RoundIsFresh(s: State, s': State)
    requires Inv(s) && s.main.Decide? && s.barrier && StepMain(s) == Some(s')
    ensures FreshRound(s')
  {
    forall t: nat
      ensures s.mutex != Some(t)
    {
      assert ThreadOk(s, t);
    }
    forall n | 0 <= n < |s.claims|
      ensures n in s.done
    {
      AllDone(s, n);
    }
  }

  lemma RoundStep(s: State, s': State)
    requires Inv(s) && s.main.Decide? && s.barrier && StepMain(s) == Some(s')
    ensures Inv(s') && FreshRound(s') && s'.round == s.round + 1
    ensures s'.rest == s.rest && s'.claims == s.claims && |s'.threads| == |s.threads|
  {
    RoundIsFresh(s, s');
    forall t: nat
      ensures ThreadOk(s', t)
    {
      assert ThreadOk(s, t);
    }
    forall n: nat
      ensures ClaimOk(s', n)
    {
      if n < |s.claims| {
        AllDone(s, n);
      }
    }
  }

  /** The other steps of the main thread: it turns to the next thread, or to the next thing to do. */
  lemma MainTurns(s: State, s': State)
    requires MainOk(s) && StepMain(s) == Some(s')
    requires (s.main.Spawn? ==> s.main.i >= |s.threads|) && (s.main.Decide? ==> !s.barrier)
    ensures s' == s.(main := s'.main) && MainOk(s')
  {
  }

  lemma MainKeepsInv(s: State, s': State)
    requires Inv(s) && StepMain(s) == Some(s')
    ensures Inv(s')
  {
    if s.main.Spawn? && s.main.i < |s.threads| {
      SpawnStep(s, s');
    } else if s.main.Decide? && s.barrier {
      RoundStep(s, s');
    } else {
      MainTurns(s, s');
      SameThreads(s, s');
    }
  }

  lemma NextKeepsInv(s: State, s': State)
    requires Inv(s) && Next(s, s')
    ensures Inv(s')
  {
    if StepMain(s) == Some(s') {
      MainKeepsInv(s, s');
    } else {
      var t :| 0 <= t < |s.threads| && StepThread(s, t) == Some(s');
      WorkerKeepsInv(s, t, s');
    }
  }

  lemma ParseIsStep(s: State, t: nat, s': State)
    requires t < |s.threads| && s.threads[t].Parse? && StepThread(s, t) == Some(s')
    ensures |s.waits| == |s.delays| && s' == ParseStep(s, t)
  {
  }

  lemma MoveKeepsInv(s: State, t: nat, s': State)
    requires Inv(s) && WorkerMove(s, t, s')
    ensures Inv(s')
  {
    if s.threads[t].Running? {
      FinishStep(s, t, s');
    } else {
      LightStep(s, t, s');
    }
  }

  lemma WorkerKeepsInv(s: State, t: nat, s': State)
    requires Inv(s) && t < |s.threads| && StepThread(s, t) == Some(s')
    ensures Inv(s')
  {
    if !s.threads[t].Parse? {
      WorkerFields(s, t, s');
      MoveKeepsInv(s, t, s');
    } else if s.rest == "" {
      EndFields(s, t, s');
      MoveKeepsInv(s, t, s');
    } else {
      ParseIsStep(s, t, s');
      ClaimStep(s, t, s');
    }
  }

  lemma Inductive()
    ensures forall s :: IsInit(s) ==> Inv(s)
    ensures forall s, s' :: Inv(s) && Next(s, s') ==> Inv(s')
  {
    forall s | IsInit(s)
      ensures Inv(s)
    {
      var file, n: nat :| n > 0 && s == Init(file, n);
      InitInv(file, n);
    }
    forall s, s' | Inv(s) && Next(s, s')
      ensures Inv(s')
    {
      NextKeepsInv(s, s');
    }
  }

  lemma RunInv(run: seq<State>, i: nat)
    requires Run(run) && i < |run|
    ensures Inv(run[i])
  {
    Inductive();
    Runs.Invariant(IsInit, Next, Inv, run, i);
  }
}
