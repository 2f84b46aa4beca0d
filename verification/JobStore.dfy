/** The store of Part 1 under any number of threads: three reader-writer locks taken in the order
    list, event, seat, and a mutex around the output file. A reservation is written in place and
    rolled back seat by seat; outputs go through a buffer that is flushed in chunks. */
module JobStore {
  import opened Seating
  import opened Reservation
  import opened Store
  import opened Rendering
  import opened Histories
  import Runs

  datatype Request =
    | AskCreate(id: nat, rows: nat, cols: nat)
    | AskReserve(id: nat, seats: seq<Seat>)
    | AskShow(id: nat)
    | AskList

  /** The effect of a request: what it found in the store and, by its outcome, did to it. */
  datatype Entry =
    | Created(id: nat, rows: nat, cols: nat)
    | Refused(id: nat)
    | Missing(id: nat)
    | Reserved(id: nat, k: nat, seats: seq<Seat>, ok: bool)
    | Shown(id: nat, k: nat, rows: nat, cols: nat, data: seq<nat>)
    | Listed(ids: seq<nat>)

  /** An output on its way: what is shown, what is in the file, what is in the buffer, and whether
      a flush has taken the file mutex already. */
  datatype Job = Job(what: Entry, written: string, buf: string, locked: bool)

  datatype PC =
    | Idle
    | FindList(req: Request)                    // wants the list lock for reading
    | FindEvent(req: Request)                   // wants the event lock for reading
    | FindSearch(req: Request)
    | CreateList(req: Request)                  // wants the list lock for writing
    | CreateAppend(req: Request)
    | ReserveEvent(id: nat, k: nat, seats: seq<Seat>)    // wants the event lock for writing
    | ReserveBump(id: nat, k: nat, seats: seq<Seat>)
    | ReserveSeat(id: nat, k: nat, seats: seq<Seat>)     // wants the seat lock for writing
    | ReserveTry(id: nat, k: nat, seats: seq<Seat>, j: nat)
    | ReserveDrop(id: nat, k: nat, seats: seq<Seat>, n: nat)
    | ReserveUndo(id: nat, k: nat, seats: seq<Seat>, n: nat, j: nat)
    | ReserveFailOut(id: nat, k: nat, seats: seq<Seat>)  // has released the seat lock, then the event lock
    | ReserveEventOut(id: nat, k: nat, seats: seq<Seat>)
    | ReserveSeatOut(id: nat, k: nat, seats: seq<Seat>)
    | ShowSeat(id: nat, k: nat)                       // wants the seat lock for reading
    | ShowCell(job: Job, i: nat, j: nat)
    | ShowFlushLock(job: Job, i: nat, j: nat)   // wants the file mutex
    | ShowFlush(job: Job, i: nat, j: nat)
    | ShowEndLock(job: Job)                     // wants the file mutex
    | ShowEnd(job: Job)
    | ListList                                  // wants the list lock for reading
    | ListLine(job: Job, n: nat)
    | ListFlushLock(job: Job, n: nat)           // wants the file mutex
    | ListFlush(job: Job, n: nat)
    | ListEndLock(job: Job)                     // wants the file mutex
    | ListEnd(job: Job)
    | ListOut(job: Job)                         // has released the file mutex, then the list lock
    | Leave(req: Request, res: Entry)

  datatype Lock = Lock(writer: Option<nat>, readers: set<nat>)

  type Event = HistoryEvent<Request, Entry>

  /** `log`, `history` and `outputs` are bookkeeping: the effects in order, the same with the calls and
      returns they lie between, and the outputs in the file. */
  datatype State = State(
    events: seq<EventState>,
    list: Lock,
    event: Lock,
    seat: Lock,
    file: Option<nat>,
    threads: seq<PC>,
    out: string,
    log: seq<Entry>,
    history: seq<Event>,
    outputs: seq<Entry>)

  const FREE := Lock(None, {})

  function Init(n: nat): State {
    State([], FREE, FREE, FREE, None, seq(n, _ => Idle), "", [], [], [])
  }

  function To(s: State, t: nat, pc: PC): State
    requires t < |s.threads|
  {
    s.(threads := s.threads[t := pc])
  }

  function Record(s: State, e: Event): State { s.(history := s.history + [e]) }

  /** The request of thread `t` takes effect. */
  function Note(s: State, t: nat, req: Request, e: Entry): State {
    Record(s.(log := s.log + [e]), Effect(t, req, e))
  }

  predicate CanRead(l: Lock) { l.writer.None? }
  predicate CanWrite(l: Lock) { l.writer.None? && l.readers == {} }
  function Reading(l: Lock, t: nat): Lock { l.(readers := l.readers + {t}) }
  function Unread(l: Lock, t: nat): Lock { l.(readers := l.readers - {t}) }
  function Writing(l: Lock, t: nat): Lock { l.(writer := Some(t)) }
  function Unwritten(l: Lock): Lock { l.(writer := None) }

  function Begin(s: State, t: nat, req: Request): State
    requires t < |s.threads|
  {
    Record(To(s, t, if req.AskList? then ListList else FindList(req)), Call(t, req))
  }

  /** The lookup of CREATE, RESERVE and SHOW under both read locks, and its outcome. */
  function StepFind(s: State, t: nat): Option<State>
    requires t < |s.threads|
  {
    match s.threads[t]
    case FindList(req) =>
      if CanRead(s.list) then Some(To(s, t, FindEvent(req)).(list := Reading(s.list, t))) else None
    case FindEvent(req) =>
      if CanRead(s.event) then Some(To(s, t, FindSearch(req)).(event := Reading(s.event, t))) else None
    case FindSearch(req) =>
      if req.AskList? then None
      else
        var found := FindId(IdsOf(s.events), req.id);
        var s1 := s.(list := Unread(s.list, t), event := Unread(s.event, t));
        Some(match req
             case AskCreate(id, _, _) =>
               if found.Some? then Note(To(s1, t, Leave(req, Refused(id))), t, req, Refused(id))
               else To(s1, t, CreateList(req))
             case AskReserve(id, seats) =>
               if found.Some? then To(s1, t, ReserveEvent(id, found.value, seats))
               else Note(To(s1, t, Leave(req, Missing(id))), t, req, Missing(id))
             case _ =>
               if found.Some? then To(s1, t, ShowSeat(req.id, found.value))
               else Note(To(s1, t, Leave(req, Missing(req.id))), t, req, Missing(req.id)))
    case _ => None
  }

  function StepCreate(s: State, t: nat): Option<State>
    requires t < |s.threads|
  {
    match s.threads[t]
    case CreateList(req) =>
      if CanWrite(s.list) then Some(To(s, t, CreateAppend(req)).(list := Writing(s.list, t))) else None
    case CreateAppend(req) =>
      if !req.AskCreate? then None
      else
        var what := Created(req.id, req.rows, req.cols);
        Some(Note(To(s, t, Leave(req, what)).(
          events := s.events + [EmptyEvent(req.id, req.rows, req.cols)],
          list := Unwritten(s.list)), t, req, what))
    case _ => None
  }

  /** RESERVE from the event lock on. */
  ghost function StepReserve(s: State, t: nat): Option<State>
    requires t < |s.threads|
  {
    match s.threads[t]
    case ReserveEvent(id, k, seats) =>
      if CanWrite(s.event) then Some(To(s, t, ReserveBump(id, k, seats)).(event := Writing(s.event, t))) else None
    case ReserveBump(id, k, seats) =>
      if k >= |s.events| then None
      else Some(To(s, t, ReserveSeat(id, k, seats)).(
        events := s.events[k := s.events[k].(reservations := NextId(s.events[k]))]))
    case ReserveSeat(id, k, seats) =>
      if CanWrite(s.seat) then Some(To(s, t, ReserveTry(id, k, seats, 0)).(seat := Writing(s.seat, t))) else None
    case ReserveTry(id, k, seats, j) =>
      if k >= |s.events| then None
      else if j >= |seats| then
        Some(Note(To(s, t, ReserveEventOut(id, k, seats)), t, AskReserve(id, seats), Reserved(id, k, seats, true)))
      else
        var e := s.events[k];
        var i := SeatIndex(e.cols, seats[j]);
        if InGrid(e.rows, e.cols, seats[j]) && 0 <= i < |e.data| && e.data[i] == 0 then
          Some(To(s, t, ReserveTry(id, k, seats, j + 1)).(
            events := s.events[k := e.(data := e.data[i := e.reservations])]))
        else
          Some(Note(To(s, t, ReserveDrop(id, k, seats, j)), t, AskReserve(id, seats), Reserved(id, k, seats, false)))
    case ReserveDrop(id, k, seats, n) =>
      if k >= |s.events| then None
      else Some(To(s, t, ReserveUndo(id, k, seats, n, 0)).(
        events := s.events[k := s.events[k].(reservations :=
          (s.events[k].reservations + UINT_RANGE - 1) % UINT_RANGE)]))
    case ReserveUndo(id, k, seats, n, j) =>
      if j >= n then
        Some(To(s, t, ReserveFailOut(id, k, seats)).(seat := Unwritten(s.seat)))
      else if k >= |s.events| || j >= |seats| then None
      else
        var e := s.events[k];
        var i := SeatIndex(e.cols, seats[j]);
        if !(0 <= i < |e.data|) then None
        else Some(To(s, t, ReserveUndo(id, k, seats, n, j + 1)).(
          events := s.events[k := e.(data := e.data[i := 0])]))
    case ReserveFailOut(id, k, seats) =>
      Some(To(s, t, Leave(AskReserve(id, seats), Reserved(id, k, seats, false))).(event := Unwritten(s.event)))
    case ReserveEventOut(id, k, seats) =>
      Some(To(s, t, ReserveSeatOut(id, k, seats)).(event := Unwritten(s.event)))
    case ReserveSeatOut(id, k, seats) =>
      Some(To(s, t, Leave(AskReserve(id, seats), Reserved(id, k, seats, true))).(seat := Unwritten(s.seat)))
    case _ => None
  }

  /** The request a job of output answers. */
  function JobRequest(job: Job): Request {
    if job.what.Shown? then AskShow(job.what.id) else AskList
  }

  /** A write call that takes `m` of the characters in the buffer. */
  function WriteSome(s: State, job: Job, m: nat): (State, Job)
    requires m <= |job.buf|
  {
    (s.(out := s.out + job.buf[..m]), job.(written := job.written + job.buf[..m], buf := job.buf[m..]))
  }

  predicate NearlyFull(buf: string) { BUFSIZ - |buf| <= BUFFER_FLUSH_THOLD }

  /** SHOW from the seat lock on. `m` is how much the next write call takes. */
  function StepShow(s: State, t: nat, m: nat): Option<State>
    requires t < |s.threads|
  {
    match s.threads[t]
    case ShowSeat(id, k) =>
      if k < |s.events| && CanRead(s.seat) then
        var e := s.events[k];
        var what := Shown(id, k, e.rows, e.cols, e.data);
        Some(Note(To(s, t, ShowCell(Job(what, "", "", false), 0, 0)).(seat := Reading(s.seat, t)),
                  t, AskShow(id), what))
      else None
    case ShowCell(job, i, j) =>
      if !job.what.Shown? || job.what.k >= |s.events| then None
      else
        var e := s.events[job.what.k];
        if i >= e.rows then
          Some(To(s, t, if job.locked then ShowEnd(job) else ShowEndLock(job)).(seat := Unread(s.seat, t)))
        else if j < e.cols then
          if i * e.cols + j >= |e.data| then None
          else
            var job1 := job.(buf := job.buf + CellText(e.cols, e.data[i * e.cols + j], j));
            Some(To(s, t,
              if !NearlyFull(job1.buf) then ShowCell(job1, i, j + 1)
              else if job1.locked then ShowFlush(job1, i, j + 1)
              else ShowFlushLock(job1, i, j + 1)))
        else Some(To(s, t, ShowCell(job.(buf := job.buf + "\n"), i + 1, 0)))
    case ShowFlushLock(job, i, j) =>
      if s.file.None? then Some(To(s, t, ShowFlush(job, i, j)).(file := Some(t))) else None
    case ShowFlush(job, i, j) =>
      if job.buf == "" then Some(To(s, t, ShowCell(job.(locked := true), i, j)))
      else if 1 <= m <= |job.buf| then
        var (s1, job1) := WriteSome(s, job, m);
        Some(To(s1, t, ShowFlush(job1, i, j)))
      else None
    case ShowEndLock(job) =>
      if s.file.None? then Some(To(s, t, ShowEnd(job)).(file := Some(t))) else None
    case ShowEnd(job) =>
      if job.buf == "" then
        Some(To(s, t, Leave(JobRequest(job), job.what)).(file := None, outputs := s.outputs + [job.what]))
      else if 1 <= m <= |job.buf| then
        var (s1, job1) := WriteSome(s, job, m);
        Some(To(s1, t, ShowEnd(job1)))
      else None
    case _ => None
  }

  function StepList(s: State, t: nat, m: nat): Option<State>
    requires t < |s.threads|
  {
    match s.threads[t]
    case ListList =>
      if CanRead(s.list) then
        var what := Listed(IdsOf(s.events));
        var job := Job(what, "", if s.events == [] then "No events\n" else "", false);
        Some(Note(To(s, t, ListLine(job, 0)).(list := Reading(s.list, t)), t, AskList, what))
      else None
    case ListLine(job, n) =>
      if n >= |s.events| then Some(To(s, t, if job.locked then ListEnd(job) else ListEndLock(job)))
      else
        var job1 := job.(buf := job.buf + LineText(s.events[n].id));
        Some(To(s, t,
          if !NearlyFull(job1.buf) then ListLine(job1, n + 1)
          else if job1.locked then ListFlush(job1, n + 1)
          else ListFlushLock(job1, n + 1)))
    case ListFlushLock(job, n) =>
      if s.file.None? then Some(To(s, t, ListFlush(job, n)).(file := Some(t))) else None
    case ListFlush(job, n) =>
      if job.buf == "" then Some(To(s, t, ListLine(job.(locked := true), n)))
      else if 1 <= m <= |job.buf| then
        var (s1, job1) := WriteSome(s, job, m);
        Some(To(s1, t, ListFlush(job1, n)))
      else None
    case ListEndLock(job) =>
      if s.file.None? then Some(To(s, t, ListEnd(job)).(file := Some(t))) else None
    case ListEnd(job) =>
      if job.buf == "" then
        Some(To(s, t, ListOut(job)).(file := None, outputs := s.outputs + [job.what]))
      else if 1 <= m <= |job.buf| then
        var (s1, job1) := WriteSome(s, job, m);
        Some(To(s1, t, ListEnd(job1)))
      else None
    case ListOut(job) => Some(To(s, t, Leave(JobRequest(job), job.what)).(list := Unread(s.list, t)))
    case _ => None
  }

  predicate Finding(pc: PC) { pc.FindList? || pc.FindEvent? || pc.FindSearch? }
  predicate Creating(pc: PC) { pc.CreateList? || pc.CreateAppend? }
  predicate Showing(pc: PC) {
    pc.ShowSeat? || pc.ShowCell? || pc.ShowFlushLock? || pc.ShowFlush? || pc.ShowEndLock? || pc.ShowEnd?
  }
  predicate Listing(pc: PC) {
    pc.ListList? || pc.ListLine? || pc.ListFlushLock? || pc.ListFlush? || pc.ListEndLock? || pc.ListEnd? || pc.ListOut?
  }

  /** One step of thread `t`, None when it has to wait. */
  ghost function Step(s: State, t: nat, req: Request, m: nat): Option<State>
    requires t < |s.threads|
  {
    var pc := s.threads[t];
    if pc.Idle? then Some(Begin(s, t, req))
    else if pc.Leave? then Some(Record(To(s, t, Idle), Return(t, pc.req, pc.res)))
    else if Finding(pc) then StepFind(s, t)
    else if Creating(pc) then StepCreate(s, t)
    else if Showing(pc) then StepShow(s, t, m)
    else if Listing(pc) then StepList(s, t, m)
    else StepReserve(s, t)
  }

  ghost predicate Next(s: State, s': State) {
    exists t, req, m :: 0 <= t < |s.threads| && Step(s, t, req, m) == Some(s')
  }

  ghost predicate IsInit(s: State) { exists n: nat :: s == Init(n) }

  ghost predicate Run(run: seq<State>) { Runs.Run(IsInit, Next, run) }

  // ----- Invariant: locks -----

  predicate HasListRead(pc: PC) {
    pc.FindEvent? || pc.FindSearch? ||
    pc.ListLine? || pc.ListFlushLock? || pc.ListFlush? || pc.ListEndLock? || pc.ListEnd? || pc.ListOut?
  }

  predicate HasListWrite(pc: PC) { pc.CreateAppend? }

  predicate HasEventRead(pc: PC) { pc.FindSearch? }

  predicate HasEventWrite(pc: PC) {
    pc.ReserveBump? || pc.ReserveSeat? || pc.ReserveTry? || pc.ReserveDrop? || pc.ReserveUndo? ||
    pc.ReserveFailOut? || pc.ReserveEventOut?
  }

  predicate HasSeatWrite(pc: PC) {
    pc.ReserveTry? || pc.ReserveDrop? || pc.ReserveUndo? || pc.ReserveEventOut? || pc.ReserveSeatOut?
  }

  predicate HasSeatRead(pc: PC) { pc.ShowCell? || pc.ShowFlushLock? || pc.ShowFlush? }

  predicate HasFile(pc: PC) {
    || pc.ShowFlush? || pc.ShowEnd? || pc.ListFlush? || pc.ListEnd?
    || (pc.ShowCell? && pc.job.locked) || (pc.ListLine? && pc.job.locked)
  }

  ghost predicate HoldsItsLocks(s: State, t: nat, pc: PC) {
    && (HasListRead(pc) <==> t in s.list.readers)
    && (HasListWrite(pc) <==> s.list.writer == Some(t))
    && (HasEventRead(pc) <==> t in s.event.readers)
    && (HasEventWrite(pc) <==> s.event.writer == Some(t))
    && (HasSeatRead(pc) <==> t in s.seat.readers)
    && (HasSeatWrite(pc) <==> s.seat.writer == Some(t))
    && (HasFile(pc) <==> s.file == Some(t))
  }

  ghost predicate LockOk(l: Lock, n: nat) {
    && (l.writer.Some? ==> l.readers == {} && l.writer.value < n)
    && forall t :: t in l.readers ==> t < n
  }

  ghost predicate LockTable(s: State) {
    && LockOk(s.list, |s.threads|) && LockOk(s.event, |s.threads|) && LockOk(s.seat, |s.threads|)
    && (s.file.Some? ==> s.file.value < |s.threads|)
  }

  ghost predicate ThreadHolds(s: State, t: nat) {
    t < |s.threads| ==> HoldsItsLocks(s, t, s.threads[t])
  }

  ghost predicate Locks(s: State) {
    && LockTable(s)
    && forall t: nat :: ThreadHolds(s, t)
  }

  ghost predicate SameLock(l: Lock, l': Lock, u: nat) {
    && (u in l'.readers <==> u in l.readers)
    && (l'.writer == Some(u) <==> l.writer == Some(u))
  }

  ghost predicate SameView(s: State, s': State, u: nat) {
    && SameLock(s.list, s'.list, u) && SameLock(s.event, s'.event, u) && SameLock(s.seat, s'.seat, u)
    && (s'.file == Some(u) <==> s.file == Some(u))
  }

  /** What a step of thread `t` does to the locks: nothing that another thread could notice. */
  ghost predicate LockStep(s: State, s': State, t: nat) {
    && t < |s.threads| == |s'.threads|
    && s'.threads == s.threads[t := s'.threads[t]]
    && LockTable(s') && HoldsItsLocks(s', t, s'.threads[t])
    && forall u: nat :: u != t ==> SameView(s, s', u)
  }

  lemma LocksMove(s: State, t: nat, s': State)
    requires Locks(s) && LockStep(s, s', t)
    ensures Locks(s')
  {
    forall u: nat
      ensures ThreadHolds(s', u)
    {
      assert ThreadHolds(s, u);
      if u != t {
        assert SameView(s, s', u);
      }
    }
  }

  ghost predicate OwnLocks(s: State, t: nat) {
    LockTable(s) && t < |s.threads| && HoldsItsLocks(s, t, s.threads[t])
  }

  lemma LocksKeptEnter(s: State, t: nat, s': State)
    requires OwnLocks(s, t) && StepFind(s, t) == Some(s')
    requires var pc := s.threads[t]; !pc.FindSearch?
    ensures LockStep(s, s', t)
  {
  }

  ghost predicate HoldsNothing(pc: PC) {
    pc.Idle? || pc.Leave? || pc.CreateList? || pc.ReserveEvent? || pc.ShowSeat?
  }

  lemma LocksKeptFound(s: State, t: nat, s': State)
    requires OwnLocks(s, t) && s.threads[t].FindSearch? && |s'.threads| == |s.threads|
    requires s'.threads == s.threads[t := s'.threads[t]] && HoldsNothing(s'.threads[t])
    requires s'.list == Unread(s.list, t) && s'.event == Unread(s.event, t) && s'.seat == s.seat && s'.file == s.file
    ensures LockStep(s, s', t)
  {
  }

  lemma LocksKeptSearch(s: State, t: nat, s': State)
    requires OwnLocks(s, t) && StepFind(s, t) == Some(s')
    requires var pc := s.threads[t]; pc.FindSearch?
    ensures LockStep(s, s', t)
  {
    LocksKeptFound(s, t, s');
  }

  lemma LocksKeptCreate(s: State, t: nat, s': State)
    requires OwnLocks(s, t) && StepCreate(s, t) == Some(s')
    ensures LockStep(s, s', t)
  {
  }

  lemma LocksKeptTake(s: State, t: nat, s': State)
    requires OwnLocks(s, t) && StepReserve(s, t) == Some(s')
    requires var pc := s.threads[t];
      pc.ReserveEvent? || pc.ReserveSeat? || pc.ReserveFailOut? || pc.ReserveEventOut? || pc.ReserveSeatOut?
    ensures LockStep(s, s', t)
  {
  }

  ghost predicate SameHolds(pc: PC, pc': PC) {
    && (HasListRead(pc) <==> HasListRead(pc')) && (HasListWrite(pc) <==> HasListWrite(pc'))
    && (HasEventRead(pc) <==> HasEventRead(pc')) && (HasEventWrite(pc) <==> HasEventWrite(pc'))
    && (HasSeatRead(pc) <==> HasSeatRead(pc')) && (HasSeatWrite(pc) <==> HasSeatWrite(pc'))
    && (HasFile(pc) <==> HasFile(pc'))
  }

  lemma LocksUntouched(s: State, t: nat, s': State)
    requires OwnLocks(s, t) && |s'.threads| == |s.threads|
    requires s'.threads == s.threads[t := s'.threads[t]] && SameHolds(s.threads[t], s'.threads[t])
    requires s'.list == s.list && s'.event == s.event && s'.seat == s.seat && s'.file == s.file
    ensures LockStep(s, s', t)
  {
  }

  lemma LocksKeptInside(s: State, t: nat, s': State)
    requires OwnLocks(s, t) && StepReserve(s, t) == Some(s')
    requires var pc := s.threads[t];
      pc.ReserveBump? || pc.ReserveTry? || pc.ReserveDrop? || (pc.ReserveUndo? && pc.j < pc.n)
    ensures LockStep(s, s', t)
  {
    LocksUntouched(s, t, s');
  }

  lemma LocksKeptUndone(s: State, t: nat, s': State)
    requires OwnLocks(s, t) && StepReserve(s, t) == Some(s')
    requires var pc := s.threads[t]; pc.ReserveUndo? && pc.j >= pc.n
    ensures LockStep(s, s', t)
  {
  }

  lemma LocksKeptCell(s: State, t: nat, m: nat, s': State)
    requires OwnLocks(s, t) && StepShow(s, t, m) == Some(s')
    requires var pc := s.threads[t]; pc.ShowCell? && s'.seat == s.seat
    ensures LockStep(s, s', t)
  {
    LocksUntouched(s, t, s');
  }

  lemma LocksKeptShown(s: State, t: nat, m: nat, s': State)
    requires OwnLocks(s, t) && StepShow(s, t, m) == Some(s')
    requires var pc := s.threads[t]; pc.ShowSeat? || (pc.ShowCell? && s'.seat != s.seat)
    ensures LockStep(s, s', t)
  {
  }

  lemma LocksKeptFlush(s: State, t: nat, m: nat, s': State)
    requires OwnLocks(s, t) && StepShow(s, t, m) == Some(s')
    requires var pc := s.threads[t]; pc.ShowFlushLock? || pc.ShowFlush?
    ensures LockStep(s, s', t)
  {
  }

  lemma LocksKeptEnd(s: State, t: nat, m: nat, s': State)
    requires OwnLocks(s, t) && StepShow(s, t, m) == Some(s')
    requires var pc := s.threads[t]; pc.ShowEndLock? || pc.ShowEnd?
    ensures LockStep(s, s', t)
  {
  }

  lemma LocksKeptLine(s: State, t: nat, m: nat, s': State)
    requires OwnLocks(s, t) && StepList(s, t, m) == Some(s')
    requires var pc := s.threads[t]; pc.ListList? || pc.ListLine?
    ensures LockStep(s, s', t)
  {
  }

  lemma LocksKeptListFlush(s: State, t: nat, m: nat, s': State)
    requires OwnLocks(s, t) && StepList(s, t, m) == Some(s')
    requires var pc := s.threads[t]; pc.ListFlushLock? || pc.ListFlush?
    ensures LockStep(s, s', t)
  {
  }

  lemma LocksKeptListEnd(s: State, t: nat, m: nat, s': State)
    requires OwnLocks(s, t) && StepList(s, t, m) == Some(s')
    requires var pc := s.threads[t]; pc.ListEndLock? || pc.ListEnd? || pc.ListOut?
    ensures LockStep(s, s', t)
  {
  }

  lemma LocksKeptLeave(s: State, t: nat, s': State)
    requires OwnLocks(s, t) && s.threads[t].Leave?
    requires s' == Record(To(s, t, Idle), Return(t, s.threads[t].req, s.threads[t].res))
    ensures LockStep(s, s', t)
  {
    LocksUntouched(s, t, s');
  }

  lemma LocksKeptBegin(s: State, t: nat, req: Request, s': State)
    requires OwnLocks(s, t) && s.threads[t].Idle? && s' == Begin(s, t, req)
    ensures LockStep(s, s', t)
  {
  }

  lemma LocksKept(s: State, t: nat, req: Request, m: nat, s': State)
    requires Locks(s) && t < |s.threads| && Step(s, t, req, m) == Some(s')
    ensures Locks(s')
  {
    assert ThreadHolds(s, t);
    var pc := s.threads[t];
    if pc.Idle? {
      LocksKeptBegin(s, t, req, s');
    } else if pc.Leave? {
      LocksKeptLeave(s, t, s');
    } else if pc.FindSearch? {
      LocksKeptSearch(s, t, s');
    } else if Finding(pc) {
      LocksKeptEnter(s, t, s');
    } else if Creating(pc) {
      LocksKeptCreate(s, t, s');
    } else if pc.ShowCell? && s'.seat == s.seat {
      LocksKeptCell(s, t, m, s');
    } else if pc.ShowSeat? || pc.ShowCell? {
      LocksKeptShown(s, t, m, s');
    } else if pc.ShowFlushLock? || pc.ShowFlush? {
      LocksKeptFlush(s, t, m, s');
    } else if Showing(pc) {
      LocksKeptEnd(s, t, m, s');
    } else if pc.ListList? || pc.ListLine? {
      LocksKeptLine(s, t, m, s');
    } else if pc.ListFlushLock? || pc.ListFlush? {
      LocksKeptListFlush(s, t, m, s');
    } else if Listing(pc) {
      LocksKeptListEnd(s, t, m, s');
    } else if pc.ReserveEvent? || pc.ReserveSeat? || pc.ReserveFailOut? || pc.ReserveEventOut? || pc.ReserveSeatOut? {
      LocksKeptTake(s, t, s');
    } else if pc.ReserveUndo? && pc.j >= pc.n {
      LocksKeptUndone(s, t, s');
    } else {
      LocksKeptInside(s, t, s');
    }
    LocksMove(s, t, s');
  }

  // ----- The sequential store -----

  /** What one entry, taken as an indivisible operation, does to the store. */
  ghost function After(es: seq<EventState>, e: Entry): (r: seq<EventState>)
    requires AllShaped(es)
    ensures AllShaped(r) && |r| == |es| + if e.Created? then 1 else 0
    ensures !e.Created? && !(e.Reserved? && e.ok) ==> r == es
  {
    match e
    case Created(id, rows, cols) => es + [EmptyEvent(id, rows, cols)]
    case Reserved(_, k, seats, ok) => if ok && k < |es| then es[k := Granted(es[k], seats)] else es
    case _ => es
  }

  /** The store after all the entries of the log. */
  ghost function AbsOf(log: seq<Entry>): (es: seq<EventState>)
    ensures AllShaped(es)
  {
    if log == [] then [] else After(AbsOf(log[..|log| - 1]), log[|log| - 1])
  }

  /** The entry is what a thread running alone would find in the store `es`. A CREATE may append an
      id that is there already: it looked before it appended. */
  ghost predicate Follows(es: seq<EventState>, e: Entry)
    requires AllShaped(es)
  {
    match e
    case Created(_, _, _) => true
    case Refused(id) => id in IdsOf(es)
    case Missing(id) => id !in IdsOf(es)
    case Reserved(id, k, seats, ok) =>
      FindId(IdsOf(es), id) == Some(k) && (ok <==> GrantsInPlace(es[k], seats))
    case Shown(id, k, rows, cols, data) =>
      FindId(IdsOf(es), id) == Some(k) && es[k].rows == rows && es[k].cols == cols && es[k].data == data
    case Listed(ids) => ids == IdsOf(es)
  }

  ghost predicate Legal(log: seq<Entry>) {
    log == [] || (Legal(log[..|log| - 1]) && Follows(AbsOf(log[..|log| - 1]), log[|log| - 1]))
  }

  lemma LogSnoc(log: seq<Entry>, e: Entry)
    ensures Legal(log + [e]) <==> Legal(log) && Follows(AbsOf(log), e)
    ensures AbsOf(log + [e]) == After(AbsOf(log), e)
  {
    assert (log + [e])[..|log|] == log;
  }

  ghost function Abs(s: State): (es: seq<EventState>)
    ensures AllShaped(es)
  {
    AbsOf(s.log)
  }

  // ----- Invariant: memory -----

  /** The grid of event `k` while the thread at `pc` holds the seat lock for writing: with the seats
      written so far, or those not yet undone. `e` is the event in the sequential store. */
  ghost function HeldData(pc: PC, k: nat, e: EventState): seq<nat> {
    match pc
    case ReserveTry(_, k', seats, j) =>
      if k' == k && j <= |seats| then Marked(e.data, e.cols, seats[..j], NextId(e)) else e.data
    case ReserveDrop(_, k', seats, n) =>
      if k' == k && n <= |seats| then Marked(e.data, e.cols, seats[..n], NextId(e)) else e.data
    case ReserveUndo(_, k', seats, n, j) =>
      if k' == k && j <= n <= |seats| then Undone(e, seats[..n], seats[..j]) else e.data
    case _ => e.data
  }

  /** Its counter, one ahead while the thread holds the event lock with the outcome still open. */
  ghost function HeldCount(pc: PC, k: nat, e: EventState): nat {
    if (pc.ReserveSeat? || pc.ReserveTry? || pc.ReserveDrop?) && pc.k == k then NextId(e) else e.reservations
  }

  ghost function ExpectedData(s: State, k: nat): seq<nat>
    requires k < |Abs(s)|
  {
    if s.seat.writer.Some? && s.seat.writer.value < |s.threads|
    then HeldData(s.threads[s.seat.writer.value], k, Abs(s)[k]) else Abs(s)[k].data
  }

  ghost function ExpectedCount(s: State, k: nat): nat
    requires k < |Abs(s)|
  {
    if s.event.writer.Some? && s.event.writer.value < |s.threads|
    then HeldCount(s.threads[s.event.writer.value], k, Abs(s)[k]) else Abs(s)[k].reservations
  }

  ghost predicate EventMatches(s: State, k: nat) {
    k < |s.events| && k < |Abs(s)| ==>
      s.events[k] == Abs(s)[k].(reservations := ExpectedCount(s, k), data := ExpectedData(s, k))
  }

  ghost predicate Memory(s: State) {
    && |s.events| == |Abs(s)|
    && forall k: nat :: EventMatches(s, k)
  }

  // ----- Invariant: outputs -----

  ghost predicate WellShown(what: Entry) {
    what.Shown? && |what.data| == what.rows * what.cols
  }

  /** The whole text of an output. */
  ghost function EntryText(what: Entry): string {
    if WellShown(what) then RowsText(what.rows, what.cols, what.data, what.rows)
    else if what.Listed? then ListText(what.ids)
    else ""
  }

  ghost function TextsOf(outputs: seq<Entry>): string {
    if outputs == [] then "" else TextsOf(outputs[..|outputs| - 1]) + EntryText(outputs[|outputs| - 1])
  }

  /** The text of a grid up to cell `j` of row `i`. */
  ghost function GridSoFar(what: Entry, i: nat, j: nat): string
    requires WellShown(what) && i <= what.rows && j <= what.cols
  {
    RowsText(what.rows, what.cols, what.data, i) +
    if i < what.rows then CellsText(what.rows, what.cols, what.data, i, j) else ""
  }

  ghost function ListSoFar(ids: seq<nat>, n: nat): string
    requires n <= |ids|
  {
    if ids == [] then "No events\n" else LinesText(ids[..n])
  }

  /** What the thread at `pc` has put into the file of an output that is not finished. */
  function WrittenBy(pc: PC): string {
    match pc
    case ShowCell(job, _, _) => job.written
    case ShowFlush(job, _, _) => job.written
    case ShowEnd(job) => job.written
    case ListLine(job, _) => job.written
    case ListFlush(job, _) => job.written
    case ListEnd(job) => job.written
    case _ => ""
  }

  ghost predicate Output(s: State) {
    s.out == TextsOf(s.outputs) +
      if s.file.Some? && s.file.value < |s.threads| then WrittenBy(s.threads[s.file.value]) else ""
  }

  // ----- Invariant: threads -----

  /** A job of SHOW at cell `j` of row `i`. */
  ghost predicate GridJob(s: State, job: Job, i: nat, j: nat) {
    && WellShown(job.what) && job.what in s.log
    && i <= job.what.rows && j <= job.what.cols && (j > 0 ==> i < job.what.rows)
    && job.written + job.buf == GridSoFar(job.what, i, j)
    && job.what.k < |s.events|
    && s.events[job.what.k].rows == job.what.rows && s.events[job.what.k].cols == job.what.cols
    && s.events[job.what.k].data == job.what.data
  }

  ghost predicate ListJob(s: State, job: Job, n: nat) {
    && job.what == Listed(IdsOf(s.events)) && job.what in s.log
    && n <= |s.events|
    && job.written + job.buf == ListSoFar(job.what.ids, n)
  }

  ghost predicate LastJob(s: State, job: Job) {
    && (WellShown(job.what) || job.what.Listed?) && job.what in s.log
    && job.written + job.buf == EntryText(job.what)
  }

  ghost predicate ThreadOk(s: State, pc: PC)
    requires |Abs(s)| == |s.events|
  {
    match pc
    case FindList(req) => !req.AskList?
    case FindEvent(req) => !req.AskList?
    case FindSearch(req) => !req.AskList?
    case CreateList(req) => req.AskCreate?
    case CreateAppend(req) => req.AskCreate?
    case ReserveEvent(id, k, _) => FoundAt(s.events, id, k)
    case ReserveBump(id, k, _) => FoundAt(s.events, id, k)
    case ReserveSeat(id, k, _) => FoundAt(s.events, id, k)
    case ReserveTry(id, k, seats, j) =>
      FoundAt(s.events, id, k) && j <= |seats| && PassesUpTo(Abs(s)[k], seats, j)
    case ReserveDrop(_, k, seats, n) => k < |s.events| && n <= |seats| && PassesUpTo(Abs(s)[k], seats, n)
    case ReserveUndo(_, k, seats, n, j) => k < |s.events| && j <= n <= |seats| && PassesUpTo(Abs(s)[k], seats, n)
    case ShowSeat(id, k) => FoundAt(s.events, id, k)
    case ShowCell(job, i, j) => GridJob(s, job, i, j) && (!job.locked ==> job.written == "")
    case ShowFlushLock(job, i, j) => GridJob(s, job, i, j) && job.written == ""
    case ShowFlush(job, i, j) => GridJob(s, job, i, j)
    case ShowEndLock(job) => LastJob(s, job) && job.written == ""
    case ShowEnd(job) => LastJob(s, job)
    case ListLine(job, n) => ListJob(s, job, n) && (!job.locked ==> job.written == "")
    case ListFlushLock(job, n) => ListJob(s, job, n) && job.written == ""
    case ListFlush(job, n) => ListJob(s, job, n)
    case ListEndLock(job) => LastJob(s, job) && job.written == ""
    case ListEnd(job) => LastJob(s, job)
    case _ => true
  }

  ghost predicate ThreadInv(s: State, t: nat)
    requires |Abs(s)| == |s.events|
  {
    t < |s.threads| ==> ThreadOk(s, s.threads[t])
  }

  ghost predicate Inv(s: State) {
    && Locks(s)
    && Memory(s)
    && (forall t: nat :: ThreadInv(s, t))
    && Output(s)
    && Legal(s.log)
    && (forall e :: e in s.outputs ==> e in s.log)
  }

  lemma {:induction false} InitInv(n: nat)
    ensures Inv(Init(n))
  {
    assert AbsOf([]) == [] && Legal([]) && TextsOf([]) == "";
    forall t: nat
      ensures ThreadHolds(Init(n), t)
    {
    }
  }

  // ----- Preservation -----

  /** All that a step of thread `t` may change for the others. */
  ghost predicate OthersSee(s: State, s': State, t: nat) {
    && |Abs(s)| == |s.events| && |Abs(s')| == |s'.events|
    && |s.events| <= |s'.events|
    && (s.list.writer != Some(t) ==> |s'.events| == |s.events|)
    && (forall k :: 0 <= k < |s.events| ==>
          s'.events[k].id == s.events[k].id && s'.events[k].rows == s.events[k].rows &&
          s'.events[k].cols == s.events[k].cols)
    && (s.seat.writer != Some(t) ==> forall k :: 0 <= k < |s.events| ==> s'.events[k].data == s.events[k].data)
    && (s.event.writer != Some(t) ==> forall k :: 0 <= k < |s.events| ==> Abs(s')[k] == Abs(s)[k])
    && (forall e :: e in s.log ==> e in s'.log)
  }

  lemma Undisturbed(s: State, s': State, t: nat, u: nat)
    requires Locks(s) && OthersSee(s, s', t) && u != t && t < |s.threads| && u < |s.threads|
    requires ThreadOk(s, s.threads[u])
    ensures ThreadOk(s', s.threads[u])
  {
    assert ThreadHolds(s, u);
    assert ThreadHolds(s, t);
    var pc := s.threads[u];
    if pc.ListLine? || pc.ListFlushLock? || pc.ListFlush? {
      assert IdsOf(s'.events) == IdsOf(s.events);
    }
  }

  lemma ThreadsMove(s: State, s': State, t: nat)
    requires Locks(s) && OthersSee(s, s', t) && t < |s.threads| == |s'.threads|
    requires s'.threads == s.threads[t := s'.threads[t]]
    requires forall u: nat :: ThreadInv(s, u)
    requires ThreadOk(s', s'.threads[t])
    ensures forall u: nat :: ThreadInv(s', u)
  {
    forall u: nat
      ensures ThreadInv(s', u)
    {
      assert ThreadInv(s, u);
      if u != t && u < |s.threads| {
        Undisturbed(s, s', t, u);
      }
    }
  }

  /** Seat and event lock are with the same writers, who stand where they stood. */
  ghost predicate SameWriters(s: State, s': State, t: nat) {
    && (s'.seat.writer == s.seat.writer || {s.seat.writer, s'.seat.writer} <= {None, Some(t)})
    && (s'.event.writer == s.event.writer || {s.event.writer, s'.event.writer} <= {None, Some(t)})
  }

  /** A step that leaves events and sequential store alone, by a thread not in the middle of a
      reservation before or after. */
  lemma QuietMemory(s: State, s': State, t: nat)
    requires Memory(s) && t < |s.threads| == |s'.threads| && SameWriters(s, s', t)
    requires s'.threads == s.threads[t := s'.threads[t]]
    requires s'.events == s.events && Abs(s') == Abs(s)
    requires forall pc :: pc in {s.threads[t], s'.threads[t]} ==>
      !pc.ReserveSeat? && !pc.ReserveTry? && !pc.ReserveDrop? && !pc.ReserveUndo?
    ensures Memory(s')
  {
    forall k: nat
      ensures EventMatches(s', k)
    {
      assert EventMatches(s, k);
    }
  }
}
