/** The server's worker pool: any number of workers taking connections from one queue under a mutex
    and a condition variable, the main thread filling it, and shutdown. */
module WorkerPool {
  import opened Seating
  import Runs

  /** A worker. In TestEmpty, Recheck, Take and Release it holds the queue's mutex. */
  datatype Worker =
    | AtTop               // reads the termination flag
    | WantLock
    | TestEmpty
    | Waiting             // in the condition wait, not signalled
    | Signalled           // woken, wants the mutex back
    | Recheck             // reads the termination flag again
    | Take                // about to dequeue
    | Release(c: nat)
    | Serving(c: nat)
    | Gone

  /** The main thread. In Append, Broadcast and Unlock it holds the queue's mutex. */
  datatype Main =
    | Accept              // waits for a setup request or for SIGINT
    | WantQueue(c: nat)
    | Append(c: nat)
    | Broadcast
    | Unlock
    | SetTerminate
    | FinalBroadcast      // without the mutex
    | Joining(i: nat)
    | Drain
    | Over

  datatype Holder = MainThread | WorkerThread(w: nat)

  datatype Handed = Handed(c: nat, worker: nat)

  /** Bookkeeping: connections enqueued, handed to a worker and rejected, in order; how many each
      worker took after termination was set; which workers were on their way from the flag to the
      condition wait when the last broadcast was sent. */
  datatype State = State(
    queue: seq<nat>,
    mutex: Option<Holder>,
    terminate: bool,
    workers: seq<Worker>,
    main: Main,
    enqueued: seq<nat>,
    handed: seq<Handed>,
    rejected: seq<nat>,
    late: seq<nat>,
    onTheWay: set<nat>)

  function Init(n: nat): State {
    State([], None, false, seq(n, _ => AtTop), Accept, [], [], [], seq(n, _ => 0), {})
  }

  function To(s: State, w: nat, pc: Worker): State
    requires w < |s.workers|
  {
    s.(workers := s.workers[w := pc])
  }

  /** pthread_cond_broadcast: every waiting worker is signalled. */
  function WakeAll(workers: seq<Worker>): (r: seq<Worker>)
    ensures |r| == |workers|
    ensures forall i :: 0 <= i < |r| ==> r[i] == if workers[i].Waiting? then Signalled else workers[i]
  {
    seq(|workers|, i requires 0 <= i < |workers| => if workers[i].Waiting? then Signalled else workers[i])
  }

  /** One step of worker `w`; None while it waits for the mutex or has returned. A waiting worker may
      also wake with nobody having signalled it. */
  function StepWorker(s: State, w: nat): Option<State>
    requires w < |s.workers|
  {
    match s.workers[w]
    case AtTop => Some(To(s, w, if s.terminate then Gone else WantLock))
    case WantLock => if s.mutex.None? then Some(To(s, w, TestEmpty).(mutex := Some(WorkerThread(w)))) else None
    case TestEmpty =>
      if s.queue == [] then Some(To(s, w, Waiting).(mutex := None)) else Some(To(s, w, Take))
    case Waiting => Some(To(s, w, Signalled))
    case Signalled => if s.mutex.None? then Some(To(s, w, Recheck).(mutex := Some(WorkerThread(w)))) else None
    case Recheck =>
      if s.terminate then Some(To(s, w, Gone).(mutex := None)) else Some(To(s, w, TestEmpty))
    case Take =>
      if s.queue == [] then Some(To(s, w, AtTop).(mutex := None))
      else Some(To(s, w, Release(s.queue[0])).(
        queue := s.queue[1..],
        handed := s.handed + [Handed(s.queue[0], w)],
        late := if s.terminate && w < |s.late| then s.late[w := s.late[w] + 1] else s.late))
    case Release(c) => Some(To(s, w, Serving(c)).(mutex := None))
    case Serving(c) => Some(To(s, w, AtTop))
    case Gone => None
  }

  ghost function OnTheWay(workers: seq<Worker>): set<nat> {
    set w: nat | w < |workers| && (workers[w].WantLock? || workers[w].TestEmpty?)
  }

  /** One step of the main thread. `c` is the request that arrives, if it is asked for and one does. */
  ghost function StepMain(s: State, c: Option<nat>): Option<State> {
    match s.main
    case Accept => Some(s.(main := if c.Some? then WantQueue(c.value) else SetTerminate))
    case WantQueue(c) =>
      if s.mutex.None? then Some(s.(main := Append(c), mutex := Some(MainThread))) else None
    case Append(c) => Some(s.(main := Broadcast, queue := s.queue + [c], enqueued := s.enqueued + [c]))
    case Broadcast => Some(s.(main := Unlock, workers := WakeAll(s.workers)))
    case Unlock => Some(s.(main := Accept, mutex := None))
    case SetTerminate => Some(s.(main := FinalBroadcast, terminate := true))
    case FinalBroadcast =>
      Some(s.(main := Joining(0), workers := WakeAll(s.workers), onTheWay := OnTheWay(s.workers)))
    case Joining(i) =>
      if i >= |s.workers| then Some(s.(main := Drain))
      else if s.workers[i].Gone? then Some(s.(main := Joining(i + 1)))
      else None
    case Drain => Some(s.(main := Over, queue := [], rejected := s.rejected + s.queue))
    case Over => None
  }

  ghost predicate Next(s: State, s': State) {
    || (exists c :: StepMain(s, c) == Some(s'))
    || exists w :: 0 <= w < |s.workers| && StepWorker(s, w) == Some(s')
  }

  ghost predicate IsInit(s: State) { exists n: nat :: s == Init(n) }

  ghost predicate Run(run: seq<State>) { Runs.Run(IsInit, Next, run) }

  // ----- Invariant -----

  predicate HoldsMutex(pc: Worker) { pc.TestEmpty? || pc.Recheck? || pc.Take? || pc.Release? }

  predicate MainHolds(m: Main) { m.Append? || m.Broadcast? || m.Unlock? }

  function Connections(handed: seq<Handed>): seq<nat> {
    if handed == [] then [] else Connections(handed[..|handed| - 1]) + [handed[|handed| - 1].c]
  }

  /** The termination flag is set exactly from this point of the main thread on. */
  predicate Closing(m: Main) { m.FinalBroadcast? || m.Joining? || m.Drain? || m.Over? }

  predicate LastCallOver(m: Main) { m.Joining? || m.Drain? || m.Over? }

  ghost predicate WorkerOk(s: State, w: nat) {
    w < |s.workers| && w < |s.late| ==>
      var pc := s.workers[w];
      && (HoldsMutex(pc) <==> s.mutex == Some(WorkerThread(w)))
      && (pc.Take? ==> s.queue != [])
      && (pc.Waiting? && s.mutex != Some(MainThread) ==> s.queue == [])
      && (!s.terminate ==> s.late[w] == 0 && !pc.Gone?)
      && s.late[w] <= 1
      && (s.late[w] == 1 ==> pc.Release? || pc.Serving? || pc.AtTop? || pc.Gone?)
      && (pc.Serving? || pc.Release? ==> Handed(pc.c, w) in s.handed)
      && (pc.Waiting? && LastCallOver(s.main) ==> w in s.onTheWay)
      && ((pc.WantLock? || pc.TestEmpty?) && LastCallOver(s.main) ==> w in s.onTheWay)
  }

  /** Every connection enqueued was handed out, rejected, or is still queued, in this order. */
  ghost predicate Account(s: State) {
    Connections(s.handed) + s.rejected + s.queue == s.enqueued
  }

  ghost predicate Table(s: State) {
    && |s.late| == |s.workers|
    && (s.mutex.Some? && s.mutex.value.WorkerThread? ==> s.mutex.value.w < |s.workers|)
    && (MainHolds(s.main) <==> s.mutex == Some(MainThread))
    && (s.terminate <==> Closing(s.main))
    && (!s.main.Over? ==> s.rejected == [])
    && (s.main.Over? ==> s.queue == [])
    && (s.main.Joining? ==> s.main.i <= |s.workers| && forall w :: 0 <= w < s.main.i ==> s.workers[w].Gone?)
    && (s.main.Drain? || s.main.Over? ==> forall w :: 0 <= w < |s.workers| ==> s.workers[w].Gone?)
  }

  /** Between appending and broadcasting the queue may hold more than waiting workers know of. */
  ghost predicate MainOk(s: State) {
    s.main.Unlock? ==> forall w :: 0 <= w < |s.workers| ==> !s.workers[w].Waiting?
  }

  ghost predicate Inv(s: State) {
    && Table(s)
    && Account(s)
    && MainOk(s)
    && forall w: nat :: WorkerOk(s, w)
  }

  lemma InitInv(n: nat)
    ensures Inv(Init(n))
  {
  }

  lemma ConnectionsSnoc(handed: seq<Handed>, h: Handed)
    ensures Connections(handed + [h]) == Connections(handed) + [h.c]
  {
    assert (handed + [h])[..|handed|] == handed;
  }

  /** A living worker has not been joined. */
  lemma NotJoined(s: State, w: nat)
    requires Table(s) && w < |s.workers| && !s.workers[w].Gone?
    ensures !s.main.Drain? && !s.main.Over? && (s.main.Joining? ==> s.main.i <= w)
  {
  }

  /** Worker `u` is not disturbed by a step of worker `w`. */
  ghost predicate Spares(s: State, s': State, u: nat) {
    && (s'.mutex == Some(WorkerThread(u)) <==> s.mutex == Some(WorkerThread(u)))
    && (s'.mutex == Some(MainThread) <==> s.mutex == Some(MainThread))
    && s'.main == s.main && s'.terminate == s.terminate && s'.onTheWay == s.onTheWay
    && |s'.late| == |s.late| && (u < |s.late| ==> s'.late[u] == s.late[u])
    && (s'.queue == s.queue || (s.queue != [] && s'.queue == s.queue[1..] && s.mutex != Some(WorkerThread(u))))
    && (forall h :: h in s.handed ==> h in s'.handed)
  }

  lemma OthersOk(s: State, s': State, w: nat)
    requires w < |s.workers| == |s'.workers| && s'.workers == s.workers[w := s'.workers[w]]
    requires forall u: nat :: WorkerOk(s, u)
    requires forall u: nat :: u != w ==> Spares(s, s', u)
    requires WorkerOk(s', w)
    ensures forall u: nat :: WorkerOk(s', u)
  {
    forall u: nat
      ensures WorkerOk(s', u)
    {
      assert WorkerOk(s, u);
      if u != w {
        assert Spares(s, s', u);
      }
    }
  }

  lemma WorkerSpares(s: State, w: nat, s': State, u: nat)
    requires w < |s.workers| && |s.late| == |s.workers| && StepWorker(s, w) == Some(s') && u != w
    requires (HoldsMutex(s.workers[w]) <==> s.mutex == Some(WorkerThread(w))) && (s.workers[w].Take? ==> s.queue != [])
    ensures Spares(s, s', u)
    ensures |s'.workers| == |s.workers| && s'.workers == s.workers[w := s'.workers[w]]
  {
  }

  lemma AllSpared(s: State, w: nat, s': State)
    requires Table(s) && w < |s.workers| && StepWorker(s, w) == Some(s')
    requires (forall u: nat :: WorkerOk(s, u)) && WorkerOk(s', w)
    ensures forall u: nat :: WorkerOk(s', u)
  {
    assert WorkerOk(s, w);
    WorkerSpares(s, w, s', w + 1);
    forall u: nat | u != w
      ensures Spares(s, s', u)
    {
      WorkerSpares(s, w, s', u);
    }
    OthersOk(s, s', w);
  }

  lemma PlainFields(s: State, w: nat, s': State)
    requires Table(s) && Account(s) && MainOk(s) && WorkerOk(s, w)
    requires w < |s.workers| && StepWorker(s, w) == Some(s') && !s.workers[w].Take?
    ensures Table(s') && Account(s') && MainOk(s')
  {
    NotJoined(s, w);
  }

  lemma PlainWorker(s: State, w: nat, s': State)
    requires Table(s) && MainOk(s) && WorkerOk(s, w)
    requires w < |s.workers| && StepWorker(s, w) == Some(s') && !s.workers[w].Take?
    ensures WorkerOk(s', w)
  {
    NotJoined(s, w);
  }

  /** The steps of a worker that hand out nothing. */
  lemma PlainStep(s: State, w: nat, s': State)
    requires Inv(s) && w < |s.workers| && StepWorker(s, w) == Some(s') && !s.workers[w].Take?
    ensures Inv(s')
  {
    assert WorkerOk(s, w);
    PlainFields(s, w, s');
    PlainWorker(s, w, s');
    AllSpared(s, w, s');
  }

  /** Handing out the oldest connection keeps the account of connections. */
  lemma TakeConserves(handed: seq<Handed>, rejected: seq<nat>, queue: seq<nat>, w: nat)
    requires rejected == [] && queue != []
    ensures Connections(handed + [Handed(queue[0], w)]) + rejected + queue[1..] ==
      Connections(handed) + rejected + queue
  {
    ConnectionsSnoc(handed, Handed(queue[0], w));
    var front, back := Connections(handed), queue[1..];
    assert queue == [queue[0]] + back;
    assert front + [queue[0]] + back == front + ([queue[0]] + back);
    assert (front + [queue[0]]) + rejected == front + [queue[0]];
    assert front + rejected == front;
  }

  lemma TakeStep(s: State, w: nat, s': State)
    requires Inv(s) && w < |s.workers| && StepWorker(s, w) == Some(s') && s.workers[w].Take?
    ensures Inv(s')
  {
    assert WorkerOk(s, w);
    TakeTable(s, w, s');
    TakeFields(s, w, s');
    TakeAccount(s, w, s');
    AllSpared(s, w, s');
  }

  lemma TakeAccount(s: State, w: nat, s': State)
    requires Account(s) && s.rejected == [] && s.queue != []
    requires s'.handed == s.handed + [Handed(s.queue[0], w)] && s'.queue == s.queue[1..]
    requires s'.rejected == s.rejected && s'.enqueued == s.enqueued
    ensures Account(s')
  {
    TakeConserves(s.handed, s.rejected, s.queue, w);
  }

  lemma TakeTable(s: State, w: nat, s': State)
    requires Table(s) && MainOk(s) && w < |s.workers| && StepWorker(s, w) == Some(s') && s.workers[w].Take?
    requires s.queue != [] && s.mutex == Some(WorkerThread(w))
    ensures Table(s') && MainOk(s') && s.rejected == [] && s'.rejected == s.rejected && s'.enqueued == s.enqueued
  {
    NotJoined(s, w);
  }

  lemma TakeFields(s: State, w: nat, s': State)
    requires Table(s) && WorkerOk(s, w) && w < |s.workers| && StepWorker(s, w) == Some(s') && s.workers[w].Take?
    ensures s.queue != [] && s'.queue == s.queue[1..]
    ensures s'.handed == s.handed + [Handed(s.queue[0], w)]
    ensures WorkerOk(s', w)
  {
  }

  lemma MainSpares(s: State, c: Option<nat>, s': State, w: nat)
    requires Table(s) && MainOk(s) && WorkerOk(s, w) && StepMain(s, c) == Some(s')
    ensures WorkerOk(s', w)
  {
  }

  lemma MainTable(s: State, c: Option<nat>, s': State)
    requires Table(s) && StepMain(s, c) == Some(s')
    ensures Table(s') && MainOk(s')
  {
  }

  lemma MainAccount(s: State, c: Option<nat>, s': State)
    requires Table(s) && Account(s) && StepMain(s, c) == Some(s')
    ensures Account(s')
  {
  }

  lemma MainStep(s: State, c: Option<nat>, s': State)
    requires Inv(s) && StepMain(s, c) == Some(s')
    ensures Inv(s')
  {
    MainTable(s, c, s');
    MainAccount(s, c, s');
    forall w: nat
      ensures WorkerOk(s', w)
    {
      assert WorkerOk(s, w);
      MainSpares(s, c, s', w);
    }
  }

  lemma NextKeepsInv(s: State, s': State)
    requires Inv(s) && Next(s, s')
    ensures Inv(s')
  {
    if c :| StepMain(s, c) == Some(s') {
      MainStep(s, c, s');
    } else {
      var w :| 0 <= w < |s.workers| && StepWorker(s, w) == Some(s');
      if s.workers[w].Take? {
        TakeStep(s, w, s');
      } else {
        PlainStep(s, w, s');
      }
    }
  }

  lemma RunInv(run: seq<State>, i: nat)
    requires Run(run) && i < |run|
    ensures Inv(run[i])
  {
    forall s | IsInit(s)
      ensures Inv(s)
    {
      var n: nat :| s == Init(n);
      InitInv(n);
    }
    forall s, s' | Inv(s) && Next(s, s')
      ensures Inv(s')
    {
      NextKeepsInv(s, s');
    }
    Runs.Invariant(IsInit, Next, Inv, run, i);
  }

  // ----- Main results -----

  /** Every connection enqueued is handed to one worker, rejected at the end, or still queued: the
      three, in this order, are exactly the connections enqueued, in the order they arrived. */
  lemma ExactlyOnce(run: seq<State>, i: nat)
    requires Run(run) && i < |run|
    ensures Connections(run[i].handed) + run[i].rejected + run[i].queue == run[i].enqueued
    ensures run[i].main.Over? ==> Connections(run[i].handed) + run[i].rejected == run[i].enqueued
  {
    RunInv(run, i);
  }

  /** Whenever the main thread does not hold the mutex, a worker asleep and not signalled means that
      the queue is empty: no connection is left for a worker that nobody wakes. */
  lemma NoStrandedConnection(run: seq<State>, i: nat, w: nat)
    requires Run(run) && i < |run| && w < |run[i].workers| && run[i].workers[w].Waiting?
    requires run[i].mutex != Some(MainThread)
    ensures run[i].queue == []
  {
    RunInv(run, i);
    assert WorkerOk(run[i], w);
  }

  /** A worker that gets as far as dequeuing finds a connection: the null check after it never fires. */
  lemma DequeueFindsConnection(run: seq<State>, i: nat, w: nat)
    requires Run(run) && i < |run| && w < |run[i].workers| && run[i].workers[w].Take?
    ensures run[i].queue != []
  {
    RunInv(run, i);
    assert WorkerOk(run[i], w);
  }

  /** Two threads are never inside the mutex together. */
  lemma MutualExclusion(run: seq<State>, i: nat, v: nat, w: nat)
    requires Run(run) && i < |run| && v < |run[i].workers| && w < |run[i].workers|
    requires HoldsMutex(run[i].workers[v])
    ensures HoldsMutex(run[i].workers[w]) ==> v == w
    ensures !MainHolds(run[i].main)
  {
    RunInv(run, i);
    assert WorkerOk(run[i], v);
    assert WorkerOk(run[i], w);
  }

  /** After termination is set a worker takes at most one more connection, and having taken it does
      not come back to the queue. */
  lemma AtMostOneLate(run: seq<State>, i: nat, w: nat)
    requires Run(run) && i < |run| && w < |run[i].workers|
    ensures |run[i].late| == |run[i].workers| && run[i].late[w] <= 1
    ensures run[i].late[w] == 1 ==>
      run[i].workers[w].Release? || run[i].workers[w].Serving? || run[i].workers[w].AtTop? || run[i].workers[w].Gone?
  {
    RunInv(run, i);
    assert WorkerOk(run[i], w);
  }

  /** A worker can miss the last broadcast only if it was then between reading the flag and going
      to sleep. */
  lemma OnlyThoseOnTheWayMissIt(run: seq<State>, i: nat, w: nat)
    requires Run(run) && i < |run| && w < |run[i].workers|
    requires run[i].workers[w].Waiting? && LastCallOver(run[i].main)
    ensures w in run[i].onTheWay
  {
    RunInv(run, i);
    assert WorkerOk(run[i], w);
  }

  /** And it can happen: with one worker, termination set and broadcast while the worker holds the
      mutex it is about to wait with, the worker sleeps and the main thread waits for it to return.
      From there only a wake-up that nobody asked for leads on. */
  lemma ShutdownCanHang() returns (run: seq<State>)
    ensures Run(run) && |run| == 7
    ensures var s := run[6];
      && s.workers == [Waiting] && s.main == Joining(0) && s.terminate
      && forall c :: StepMain(s, c).None?
  {
    var s0 := Init(1);
    var s1 := s0.(workers := [WantLock]);
    var s2 := s1.(workers := [TestEmpty], mutex := Some(WorkerThread(0)));
    var s3 := s2.(main := SetTerminate);
    var s4 := s3.(main := FinalBroadcast, terminate := true);
    var s5 := s4.(main := Joining(0), onTheWay := OnTheWay(s4.workers));
    var s6 := s5.(workers := [Waiting], mutex := None);
    assert s0.workers[0 := WantLock] == s1.workers;
    assert StepWorker(s0, 0) == Some(s1);
    assert s1.workers[0 := TestEmpty] == s2.workers;
    assert StepWorker(s1, 0) == Some(s2);
    assert StepMain(s2, None) == Some(s3);
    assert StepMain(s3, None) == Some(s4);
    assert WakeAll(s4.workers) == s4.workers;
    assert StepMain(s4, None) == Some(s5);
    assert s5.workers[0 := Waiting] == s6.workers;
    assert StepWorker(s5, 0) == Some(s6);
    run := [s0, s1, s2, s3, s4, s5, s6];
    forall i: nat
      ensures Runs.Linked(Next, run, i)
    {
      if i < 6 {
        assert i == 0 || i == 1 || i == 2 || i == 3 || i == 4 || i == 5;
      }
    }
  }

  ghost predicate AsleepAtJoin(s: State, w: nat) {
    w < |s.workers| && s.workers[w].Waiting? && s.main.Joining? && s.main.i <= w
  }

  lemma MainLeavesAsleep(s: State, w: nat, c: Option<nat>, s': State)
    requires AsleepAtJoin(s, w) && StepMain(s, c) == Some(s')
    ensures AsleepAtJoin(s', w)
  {
  }

  lemma WorkerLeavesAsleep(s: State, w: nat, v: nat, s': State)
    requires AsleepAtJoin(s, w) && v < |s.workers| && v != w && StepWorker(s, v) == Some(s')
    ensures AsleepAtJoin(s', w)
  {
  }

  /** A worker that sleeps through the last broadcast sleeps on through every step of everybody else,
      and the main thread never gets past joining it: only its own spurious wake-up helps. */
  lemma StaysAsleep(s: State, w: nat, s': State)
    requires Inv(s) && w < |s.workers| && s.workers[w].Waiting? && LastCallOver(s.main)
    requires (exists c :: StepMain(s, c) == Some(s')) ||
      (exists v :: 0 <= v < |s.workers| && v != w && StepWorker(s, v) == Some(s'))
    ensures AsleepAtJoin(s', w)
  {
    NotJoined(s, w);
    if c :| StepMain(s, c) == Some(s') {
      MainLeavesAsleep(s, w, c, s');
    } else {
      var v: nat :| v < |s.workers| && v != w && StepWorker(s, v) == Some(s');
      WorkerLeavesAsleep(s, w, v, s');
    }
  }
}
