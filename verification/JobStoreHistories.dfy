/** Each operation of Part 1 takes effect once, between its call and its return, and the effect
    answers the request it was called with. */
module JobStoreHistories {
  import opened Seating
  import opened Histories
  import opened JobStore
  import opened JobStoreSteps
  import Runs

  /** The effects of a history, in order. */
  function EffectsOf(h: seq<Event>): seq<Entry> {
    if h == [] then []
    else EffectsOf(Front(h)) + if Last(h).Effect? then [Last(h).res] else []
  }

  /** The entry is an outcome of the request: about the id it names, and the seats. */
  ghost predicate Answers(req: Request, e: Entry) {
    match req
    case AskCreate(id, rows, cols) => e == Created(id, rows, cols) || e == Refused(id)
    case AskReserve(id, seats) => e == Missing(id) || (e.Reserved? && e.id == id && e.seats == seats)
    case AskShow(id) => e == Missing(id) || (e.Shown? && e.id == id)
    case AskList => e.Listed?
  }

  ghost predicate AllAnswer(h: seq<Event>) {
    forall i :: 0 <= i < |h| && h[i].Effect? ==> Answers(h[i].op, h[i].res)
  }

  function JobPhase(job: Job): Phase<Request, Entry> { Done(JobRequest(job), job.what) }

  /** Where a thread at `pc` stands in the history. */
  function PhaseAt(pc: PC): Phase<Request, Entry> {
    match pc
    case Idle => Out
    case FindList(req) => Called(req)
    case FindEvent(req) => Called(req)
    case FindSearch(req) => Called(req)
    case CreateList(req) => Called(req)
    case CreateAppend(req) => Called(req)
    case ReserveEvent(id, k, seats) => Called(AskReserve(id, seats))
    case ReserveBump(id, k, seats) => Called(AskReserve(id, seats))
    case ReserveSeat(id, k, seats) => Called(AskReserve(id, seats))
    case ReserveTry(id, k, seats, _) => Called(AskReserve(id, seats))
    case ReserveDrop(id, k, seats, _) => Done(AskReserve(id, seats), Reserved(id, k, seats, false))
    case ReserveUndo(id, k, seats, _, _) => Done(AskReserve(id, seats), Reserved(id, k, seats, false))
    case ReserveFailOut(id, k, seats) => Done(AskReserve(id, seats), Reserved(id, k, seats, false))
    case ReserveEventOut(id, k, seats) => Done(AskReserve(id, seats), Reserved(id, k, seats, true))
    case ReserveSeatOut(id, k, seats) => Done(AskReserve(id, seats), Reserved(id, k, seats, true))
    case ShowSeat(id, _) => Called(AskShow(id))
    case ShowCell(job, _, _) => JobPhase(job)
    case ShowFlushLock(job, _, _) => JobPhase(job)
    case ShowFlush(job, _, _) => JobPhase(job)
    case ShowEndLock(job) => JobPhase(job)
    case ShowEnd(job) => JobPhase(job)
    case ListList => Called(AskList)
    case ListLine(job, _) => JobPhase(job)
    case ListFlushLock(job, _) => JobPhase(job)
    case ListFlush(job, _) => JobPhase(job)
    case ListEndLock(job) => JobPhase(job)
    case ListEnd(job) => JobPhase(job)
    case ListOut(job) => JobPhase(job)
    case Leave(req, res) => Done(req, res)
  }

  ghost predicate ThreadLogged(s: State, t: nat) {
    t < |s.threads| ==> PhaseOf(s.history, t) == PhaseAt(s.threads[t])
  }

  ghost predicate Logged(s: State) {
    && WellFormed(s.history) && AllAnswer(s.history) && EffectsOf(s.history) == s.log
    && forall t: nat :: ThreadLogged(s, t)
  }

  /** What a step of thread `t` adds: nothing, a call, an answer to the request under way, or the
      return of that answer. */
  ghost predicate LogStep(s: State, s': State, t: nat) {
    && t < |s.threads| == |s'.threads|
    && s'.threads == s.threads[t := s'.threads[t]]
    && var (p, p') := (PhaseAt(s.threads[t]), PhaseAt(s'.threads[t]));
    if s'.history == s.history then p' == p && s'.log == s.log
    else
      && s'.history != [] && s'.history == s.history + [Last(s'.history)]
      && var e := Last(s'.history);
      && e.t == t && p == PhaseBefore(e) && p' == PhaseAfter(e)
      && if e.Effect? then s'.log == s.log + [e.res] && Answers(e.op, e.res) else s'.log == s.log
  }

  lemma EffectsSnoc(h: seq<Event>, e: Event)
    ensures EffectsOf(h + [e]) == EffectsOf(h) + if e.Effect? then [e.res] else []
  {
    assert Front(h + [e]) == h;
  }

  lemma LogStepKeeps(s: State, s': State, t: nat)
    requires Logged(s) && LogStep(s, s', t)
    ensures Logged(s')
  {
    if s'.history != s.history {
      var e := Last(s'.history);
      assert ThreadLogged(s, t);
      SnocWellFormed(s.history, e);
      EffectsSnoc(s.history, e);
    }
    forall u: nat
      ensures ThreadLogged(s', u)
    {
      assert ThreadLogged(s, u);
    }
  }

  lemma FindEnters(s: State, t: nat, s': State)
    requires t < |s.threads| && StepFind(s, t) == Some(s') && !s.threads[t].FindSearch?
    ensures LogStep(s, s', t)
  {
  }

  lemma SearchLogs(s: State, t: nat, s': State)
    requires t < |s.threads| && StepFind(s, t) == Some(s') && s.threads[t].FindSearch?
    ensures LogStep(s, s', t)
  {
  }

  lemma FindLogs(s: State, t: nat, s': State)
    requires t < |s.threads| && StepFind(s, t) == Some(s')
    ensures LogStep(s, s', t)
  {
    if s.threads[t].FindSearch? {
      SearchLogs(s, t, s');
    } else {
      FindEnters(s, t, s');
    }
  }

  lemma CreateLogs(s: State, t: nat, s': State)
    requires t < |s.threads| && StepCreate(s, t) == Some(s')
    ensures LogStep(s, s', t)
  {
  }

  lemma TryLogs(s: State, t: nat, s': State)
    requires t < |s.threads| && StepReserve(s, t) == Some(s') && s.threads[t].ReserveTry?
    ensures LogStep(s, s', t)
  {
  }

  lemma UndoLogs(s: State, t: nat, s': State)
    requires t < |s.threads| && StepReserve(s, t) == Some(s')
    requires s.threads[t].ReserveDrop? || s.threads[t].ReserveUndo?
    ensures LogStep(s, s', t)
  {
  }

  lemma LockLogs(s: State, t: nat, s': State)
    requires t < |s.threads| && StepReserve(s, t) == Some(s')
    requires !s.threads[t].ReserveTry? && !s.threads[t].ReserveDrop? && !s.threads[t].ReserveUndo?
    ensures LogStep(s, s', t)
  {
  }

  lemma ReserveLogs(s: State, t: nat, s': State)
    requires t < |s.threads| && StepReserve(s, t) == Some(s')
    ensures LogStep(s, s', t)
  {
    if s.threads[t].ReserveTry? {
      TryLogs(s, t, s');
    } else if s.threads[t].ReserveDrop? || s.threads[t].ReserveUndo? {
      UndoLogs(s, t, s');
    } else {
      LockLogs(s, t, s');
    }
  }

  lemma CellLogs(s: State, t: nat, m: nat, s': State)
    requires t < |s.threads| && StepShow(s, t, m) == Some(s')
    requires s.threads[t].ShowSeat? || s.threads[t].ShowCell?
    ensures LogStep(s, s', t)
  {
  }

  lemma ShowFileLogs(s: State, t: nat, m: nat, s': State)
    requires t < |s.threads| && StepShow(s, t, m) == Some(s')
    requires !s.threads[t].ShowSeat? && !s.threads[t].ShowCell?
    ensures LogStep(s, s', t)
  {
  }

  lemma ShowLogs(s: State, t: nat, m: nat, s': State)
    requires t < |s.threads| && StepShow(s, t, m) == Some(s')
    ensures LogStep(s, s', t)
  {
    if s.threads[t].ShowSeat? || s.threads[t].ShowCell? {
      CellLogs(s, t, m, s');
    } else {
      ShowFileLogs(s, t, m, s');
    }
  }

  lemma LineLogs(s: State, t: nat, m: nat, s': State)
    requires t < |s.threads| && StepList(s, t, m) == Some(s')
    requires s.threads[t].ListList? || s.threads[t].ListLine?
    ensures LogStep(s, s', t)
  {
  }

  lemma ListFileLogs(s: State, t: nat, m: nat, s': State)
    requires t < |s.threads| && StepList(s, t, m) == Some(s')
    requires !s.threads[t].ListList? && !s.threads[t].ListLine?
    ensures LogStep(s, s', t)
  {
  }

  lemma ListLogs(s: State, t: nat, m: nat, s': State)
    requires t < |s.threads| && StepList(s, t, m) == Some(s')
    ensures LogStep(s, s', t)
  {
    if s.threads[t].ListList? || s.threads[t].ListLine? {
      LineLogs(s, t, m, s');
    } else {
      ListFileLogs(s, t, m, s');
    }
  }

  lemma StepLogs(s: State, t: nat, req: Request, m: nat, s': State)
    requires t < |s.threads| && Step(s, t, req, m) == Some(s')
    ensures LogStep(s, s', t)
  {
    var pc := s.threads[t];
    if pc.Idle? || pc.Leave? {
    } else if Creating(pc) {
      CreateLogs(s, t, s');
    } else if Finding(pc) {
      FindLogs(s, t, s');
    } else if Showing(pc) {
      ShowLogs(s, t, m, s');
    } else if Listing(pc) {
      ListLogs(s, t, m, s');
    } else {
      ReserveLogs(s, t, s');
    }
  }

  lemma NextKeepsLogged(s: State, s': State)
    requires Logged(s) && Next(s, s')
    ensures Logged(s')
  {
    var t, req, m :| 0 <= t < |s.threads| && Step(s, t, req, m) == Some(s');
    StepLogs(s, t, req, m, s');
    LogStepKeeps(s, s', t);
  }

  lemma RunLogged(run: seq<State>, i: nat)
    requires Run(run) && i < |run|
    ensures Logged(run[i])
  {
    forall s | IsInit(s)
      ensures Logged(s)
    {
      assert EffectsOf(s.history) == [] && WellFormed(s.history);
    }
    forall s, s' | Logged(s) && Next(s, s')
      ensures Logged(s')
    {
      NextKeepsLogged(s, s');
    }
    Runs.Invariant(IsInit, Next, Logged, run, i);
  }

  /** Every run of Part 1 is equivalent to a sequential one: each operation takes effect once between
      its call and its return, in an order that respects real time; its effect is about the id and
      seats it was called with; and the effects, in order, are what each operation finds running alone.
      The one thing a CREATE does not look for again is whether its id has come to exist meanwhile. */
  lemma OperationsTakeEffectOnce(run: seq<State>, i: nat)
    requires Run(run) && i < |run|
    ensures Ordered(run[i].history)
    ensures forall n :: 0 <= n < |run[i].history| && run[i].history[n].Effect? ==>
      Answers(run[i].history[n].op, run[i].history[n].res)
    ensures EffectsOf(run[i].history) == run[i].log && Legal(run[i].log)
  {
    RunLogged(run, i);
    RunInv(run, i);
    WellFormedOrders(run[i].history);
  }
}
