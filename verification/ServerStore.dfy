/** The store of the server under any number of threads. Each thread runs CREATE, RESERVE, SHOW,
    LIST and the dump of SIGUSR1 in single steps: taking or releasing a lock, looking at one list
    node, reading or writing one seat. An event is named by its position in the list. */
module ServerStore {
  import opened Seating
  import opened Reservation
  import opened Store
  import opened Histories
  import opened ServerHistories
  import Runs

  datatype Request = Linear(op: Op) | Show(id: nat) | Dump

  /** Where a thread is. `op` is the operation it runs, `k` an event or a node. */
  datatype PC =
    | Idle
    | CreateLock(op: Op)                          // waits for the list's write lock
    | CreateSearch(op: Op, k: nat)                // looks at node k
    | CreateAppend(op: Op)
    | CreateUnlock(op: Op, ok: bool)
    | FindLock(req: Request)                      // waits for the list's read lock
    | FindSearch(req: Request, k: nat)
    | FindUnlock(req: Request, found: Option<nat>)
    | ReserveLock(op: Op, k: nat)                 // waits for the mutex of event k
    | ReserveBounds(op: Op, k: nat)
    | ReserveScan(op: Op, k: nat, i: nat)         // looks at cell i
    | ReserveBump(op: Op, k: nat)
    | ReserveWrite(op: Op, k: nat, j: nat)        // writes seat j of the request
    | ReserveUnlock(op: Op, k: nat, ok: bool)
    | ShowRead(id: nat, k: nat, start: seq<nat>, got: seq<nat>)  // start: the grid when reading began
    | ListLock
    | ListRead(n: nat, ids: seq<nat>)
    | ListUnlock(ids: seq<nat>)
    | DumpLock
    | DumpEnter(k: nat)                           // waits for the mutex of event k, list read-locked
    | DumpRead(k: nat, got: seq<nat>)
    | DumpUnlock
    | Leave(op: Op, res: Result)

  /** `history` is bookkeeping, not memory: no step depends on it. */
  datatype State = State(
    events: seq<EventState>,
    writer: Option<nat>,
    readers: set<nat>,
    owner: seq<Option<nat>>,
    threads: seq<PC>,
    history: seq<Ev>)

  function To(s: State, t: nat, pc: PC): State
    requires t < |s.threads|
  {
    s.(threads := s.threads[t := pc])
  }

  function Log(s: State, e: Ev): State {
    s.(history := s.history + [e])
  }

  function Init(threads: nat): State {
    State([], None, {}, [], seq(threads, _ => Idle), [])
  }

  function RequestId(req: Request): nat
    requires !req.Dump? && (req.Linear? ==> req.op.Reserve?)
  {
    if req.Show? then req.id else req.op.id
  }

  ghost predicate CanRead(s: State) { s.writer.None? }

  ghost predicate CanWrite(s: State) { s.writer.None? && s.readers == {} }

  /** An idle thread takes up a request. */
  function Begin(s: State, t: nat, req: Request): State
    requires t < |s.threads|
  {
    match req
    case Linear(op) => (
      var s1 := Log(s, Call(t, op));
      match op
      case Create(_, _, _) => To(s1, t, CreateLock(op))
      case Reserve(_, _) => To(s1, t, FindLock(req))
      case ListEvents => To(s1, t, ListLock)
    )
    case Show(_) => To(s, t, FindLock(req))
    case Dump => To(s, t, DumpLock)
  }

  /** ems_create between its two lock operations. */
  ghost function StepCreate(s: State, t: nat): Option<State>
    requires t < |s.threads|
  {
    match s.threads[t]
    case CreateLock(op) =>
      if CanWrite(s) then Some(To(s, t, CreateSearch(op, 0)).(writer := Some(t))) else None
    case CreateSearch(op, k) =>
      if !op.Create? then None
      else if k >= |s.events| then Some(To(s, t, CreateAppend(op)))
      else if s.events[k].id == op.id then
        Some(Log(To(s, t, CreateUnlock(op, false)), Effect(t, op, Status(false))))
      else Some(To(s, t, CreateSearch(op, k + 1)))
    case CreateAppend(op) =>
      if !op.Create? then None
      else Some(Log(To(s, t, CreateUnlock(op, true)).(
        events := s.events + [EmptyEvent(op.id, op.rows, op.cols)],
        owner := s.owner + [None]), Effect(t, op, Status(true))))
    case CreateUnlock(op, ok) =>
      Some(To(s, t, Leave(op, Status(ok))).(writer := None))
    case _ => None
  }

  /** The lookup that ems_reserve and ems_show start with. */
  ghost function StepFind(s: State, t: nat): Option<State>
    requires t < |s.threads|
  {
    match s.threads[t]
    case FindLock(req) =>
      if CanRead(s) then Some(To(s, t, FindSearch(req, 0)).(readers := s.readers + {t})) else None
    case FindSearch(req, k) =>
      if req.Dump? || (req.Linear? && !req.op.Reserve?) then None
      else if k >= |s.events| then
        var s1 := To(s, t, FindUnlock(req, None));
        Some(if req.Linear? then Log(s1, Effect(t, req.op, Status(false))) else s1)
      else if s.events[k].id == RequestId(req) then Some(To(s, t, FindUnlock(req, Some(k))))
      else Some(To(s, t, FindSearch(req, k + 1)))
    case FindUnlock(req, found) =>
      if req.Dump? || (req.Linear? && !req.op.Reserve?) then None else
      var s1 := s.(readers := s.readers - {t});
      Some(To(s1, t,
        if req.Linear? then
          if found.Some? then ReserveLock(req.op, found.value) else Leave(req.op, Status(false))
        else if found.Some? && found.value < |s.events| then
          ShowRead(RequestId(req), found.value, s.events[found.value].data, [])
        else Idle))
    case _ => None
  }

  /** ems_reserve from the event's mutex on. */
  ghost function StepReserve(s: State, t: nat): Option<State>
    requires t < |s.threads|
  {
    match s.threads[t]
    case ReserveLock(op, k) =>
      if k < |s.owner| && s.owner[k].None?
      then Some(To(s, t, ReserveBounds(op, k)).(owner := s.owner[k := Some(t)]))
      else None
    case ReserveBounds(op, k) =>
      if k >= |s.events| || !op.Reserve? then None
      else if AllInGrid(s.events[k].rows, s.events[k].cols, op.seats) then Some(To(s, t, ReserveScan(op, k, 0)))
      else Some(To(s, t, ReserveUnlock(op, k, false)))
    case ReserveScan(op, k, i) =>
      if k >= |s.events| || !op.Reserve? then None
      else if i >= |s.events[k].data| then Some(To(s, t, ReserveBump(op, k)))
      else if Hits(s.events[k].cols, op.seats, i) && s.events[k].data[i] != 0 then
        Some(To(s, t, ReserveUnlock(op, k, false)))
      else Some(To(s, t, ReserveScan(op, k, i + 1)))
    case ReserveBump(op, k) =>
      if k >= |s.events| then None
      else Some(To(s, t, ReserveWrite(op, k, 0)).(
        events := s.events[k := s.events[k].(reservations := NextId(s.events[k]))]))
    case ReserveWrite(op, k, j) =>
      if k >= |s.events| || !op.Reserve? then None
      else if j >= |op.seats| then Some(To(s, t, ReserveUnlock(op, k, true)))
      else
        var e := s.events[k];
        var i := SeatIndex(e.cols, op.seats[j]);
        if !(0 <= i < |e.data|) then None
        else Some(To(s, t, ReserveWrite(op, k, j + 1)).(
          events := s.events[k := e.(data := e.data[i := e.reservations])]))
    case ReserveUnlock(op, k, ok) =>
      if k >= |s.owner| then None
      else Some(Log(To(s, t, Leave(op, Status(ok))).(owner := s.owner[k := None]), Effect(t, op, Status(ok))))
    case _ => None
  }

  /** ems_show from the lookup on: seats read one by one, with no lock held. */
  ghost function StepShow(s: State, t: nat): Option<State>
    requires t < |s.threads|
  {
    match s.threads[t]
    case ShowRead(id, k, start, got) =>
      if k >= |s.events| then None
      else if |got| >= |s.events[k].data| then Some(To(s, t, Idle))
      else Some(To(s, t, ShowRead(id, k, start, got + [s.events[k].data[|got|]])))
    case _ => None
  }

  ghost function StepList(s: State, t: nat): Option<State>
    requires t < |s.threads|
  {
    match s.threads[t]
    case ListLock =>
      if CanRead(s) then Some(To(s, t, ListRead(|s.events|, [])).(readers := s.readers + {t})) else None
    case ListRead(n, ids) =>
      if |ids| == n then Some(To(s, t, ListUnlock(ids)))
      else if |ids| >= |s.events| then None
      else Some(To(s, t, ListRead(n, ids + [s.events[|ids|].id])))
    case ListUnlock(ids) =>
      Some(Log(To(s, t, Leave(ListEvents, Ids(ids))).(readers := s.readers - {t}),
               Effect(t, ListEvents, Ids(ids))))
    case _ => None
  }

  /** The dump of SIGUSR1: event mutexes one at a time, under the list's read lock. */
  ghost function StepDump(s: State, t: nat): Option<State>
    requires t < |s.threads|
  {
    match s.threads[t]
    case DumpLock =>
      if CanRead(s)
      then Some(To(s, t, if s.events == [] then DumpUnlock else DumpEnter(0)).(readers := s.readers + {t}))
      else None
    case DumpEnter(k) =>
      if k < |s.owner| && s.owner[k].None?
      then Some(To(s, t, DumpRead(k, [])).(owner := s.owner[k := Some(t)]))
      else None
    case DumpRead(k, got) =>
      if k >= |s.events| || k >= |s.owner| then None
      else if |got| < |s.events[k].data| then Some(To(s, t, DumpRead(k, got + [s.events[k].data[|got|]])))
      else Some(To(s, t, if k + 1 == |s.events| then DumpUnlock else DumpEnter(k + 1)).(
        owner := s.owner[k := None]))
    case DumpUnlock =>
      Some(To(s, t, Idle).(readers := s.readers - {t}))
    case _ => None
  }

  /** One step of thread `t`, None when it has to wait. `req` is read only when it is idle. */
  ghost function Step(s: State, t: nat, req: Request): Option<State>
    requires t < |s.threads|
  {
    var pc := s.threads[t];
    if pc.Idle? then Some(Begin(s, t, req))
    else if pc.Leave? then Some(Log(To(s, t, Idle), Return(t, pc.op, pc.res)))
    else if pc.CreateLock? || pc.CreateSearch? || pc.CreateAppend? || pc.CreateUnlock? then StepCreate(s, t)
    else if pc.FindLock? || pc.FindSearch? || pc.FindUnlock? then StepFind(s, t)
    else if pc.ShowRead? then StepShow(s, t)
    else if pc.ListLock? || pc.ListRead? || pc.ListUnlock? then StepList(s, t)
    else if pc.DumpLock? || pc.DumpEnter? || pc.DumpRead? || pc.DumpUnlock? then StepDump(s, t)
    else StepReserve(s, t)
  }

  ghost predicate Next(s: State, s': State) {
    exists t, req :: 0 <= t < |s.threads| && Step(s, t, req) == Some(s')
  }

  ghost predicate IsInit(s: State) {
    exists n: nat :: s == Init(n)
  }

  /** A run: any number of threads, any requests, any interleaving. */
  ghost predicate Run(run: seq<State>) {
    Runs.Run(IsInit, Next, run)
  }

  // ----- Invariant: locks -----

  predicate HoldsWrite(pc: PC) { pc.CreateSearch? || pc.CreateAppend? || pc.CreateUnlock? }

  predicate HoldsRead(pc: PC) {
    pc.FindSearch? || pc.FindUnlock? || pc.ListRead? || pc.ListUnlock? ||
    pc.DumpEnter? || pc.DumpRead? || pc.DumpUnlock?
  }

  function HeldMutex(pc: PC): Option<nat> {
    match pc
    case ReserveBounds(_, k) => Some(k)
    case ReserveScan(_, k, _) => Some(k)
    case ReserveBump(_, k) => Some(k)
    case ReserveWrite(_, k, _) => Some(k)
    case ReserveUnlock(_, k, _) => Some(k)
    case DumpRead(k, _) => Some(k)
    case _ => None
  }

  /** Thread `t`, standing at `pc`, holds exactly the locks its position says. */
  ghost predicate HoldsItsLocks(s: State, t: nat, pc: PC) {
    && (HoldsWrite(pc) <==> s.writer == Some(t))
    && (HoldsRead(pc) <==> t in s.readers)
    && (HeldMutex(pc).Some? ==> HeldMutex(pc).value < |s.owner|)
    && (forall k :: 0 <= k < |s.owner| ==> (s.owner[k] == Some(t) <==> HeldMutex(pc) == Some(k)))
  }

  /** A writer excludes readers, and no lock is held by anybody else than a thread. */
  ghost predicate LockTable(s: State) {
    && |s.owner| == |s.events|
    && (s.writer.Some? ==> s.readers == {} && s.writer.value < |s.threads|)
    && (forall t :: t in s.readers ==> t < |s.threads|)
    && (forall k :: 0 <= k < |s.owner| && s.owner[k].Some? ==> s.owner[k].value < |s.threads|)
  }

  ghost predicate ThreadHolds(s: State, t: nat) {
    t < |s.threads| ==> HoldsItsLocks(s, t, s.threads[t])
  }

  ghost predicate Locks(s: State) {
    && LockTable(s)
    && forall t: nat :: ThreadHolds(s, t)
  }

  // ----- Invariant: memory against the effects so far -----

  ghost function Abs(s: State): (es: seq<EventState>)
    ensures AllShaped(es)
  {
    StoreOf(s.history)
  }

  /** Event `k` as memory holds it, given the effects so far: ahead by the seats its committing
      thread has written, and equal to the sequential event otherwise. */
  ghost function Expected(s: State, k: nat): EventState
    requires k < |s.owner| && k < |Abs(s)|
  {
    if s.owner[k].Some? && s.owner[k].value < |s.threads| then
      var pc := s.threads[s.owner[k].value];
      if pc.ReserveWrite? && pc.op.Reserve? && pc.j <= |pc.op.seats| then Half(Abs(s)[k], pc.op.seats, pc.j)
      else if pc.ReserveUnlock? && pc.ok && pc.op.Reserve? then Granted(Abs(s)[k], pc.op.seats)
      else Abs(s)[k]
    else Abs(s)[k]
  }

  ghost predicate Memory(s: State) {
    && |s.events| == |s.owner| == |Abs(s)|
    && forall k :: 0 <= k < |s.events| ==> s.events[k] == Expected(s, k)
  }

  /** `k` is the event that `id` resolves to, now and for ever. */
  ghost predicate Resolves(s: State, id: nat, k: nat) {
    k < |s.events| && s.events[k].id == id && MissedBy(s, id, k)
  }

  ghost predicate MissedBy(s: State, id: nat, k: nat) {
    k <= |s.events| && forall j :: 0 <= j < k ==> s.events[j].id != id
  }

  /** What SHOW has collected lies between the grid it started from and the grid as it is. */
  ghost predicate Between(start: seq<nat>, got: seq<nat>, now: seq<nat>) {
    && |start| == |now| && |got| <= |now|
    && (forall i :: 0 <= i < |now| && start[i] != 0 ==> now[i] == start[i])
    && (forall i :: 0 <= i < |got| && start[i] != 0 ==> got[i] == start[i])
    && (forall i :: 0 <= i < |got| && got[i] != 0 ==> now[i] == got[i])
  }

  predicate Searches(req: Request) {
    req.Show? || (req.Linear? && req.op.Reserve?)
  }

  ghost predicate ThreadOk(s: State, pc: PC)
    requires |Abs(s)| == |s.events|
  {
    match pc
    case CreateLock(op) => op.Create?
    case CreateSearch(op, k) => op.Create? && MissedBy(s, op.id, k)
    case CreateAppend(op) => op.Create? && MissedBy(s, op.id, |s.events|)
    case FindLock(req) => Searches(req)
    case FindSearch(req, k) => Searches(req) && MissedBy(s, RequestId(req), k)
    case FindUnlock(req, found) =>
      && Searches(req)
      && (found.Some? ==> Resolves(s, RequestId(req), found.value))
    case ReserveLock(op, k) => op.Reserve? && Resolves(s, op.id, k)
    case ReserveBounds(op, k) => op.Reserve? && Resolves(s, op.id, k)
    case ReserveScan(op, k, i) =>
      && op.Reserve? && Resolves(s, op.id, k)
      && AllInGrid(Abs(s)[k].rows, Abs(s)[k].cols, op.seats) && ScannedTo(Abs(s)[k], op.seats, i)
    case ReserveBump(op, k) => op.Reserve? && Resolves(s, op.id, k) && Grants(Abs(s)[k], op.seats)
    case ReserveWrite(op, k, j) =>
      op.Reserve? && Resolves(s, op.id, k) && j <= |op.seats| && Grants(Abs(s)[k], op.seats)
    case ReserveUnlock(op, k, ok) =>
      op.Reserve? && Resolves(s, op.id, k) && (ok <==> Grants(Abs(s)[k], op.seats))
    case ShowRead(id, k, start, got) => Resolves(s, id, k) && Between(start, got, s.events[k].data)
    case ListRead(n, ids) => n == |s.events| && |ids| <= n && ids == IdsOf(s.events)[..|ids|]
    case ListUnlock(ids) => ids == IdsOf(s.events)
    case DumpEnter(k) => k < |s.events|
    case DumpRead(k, got) =>
      k < |s.events| && |got| <= |s.events[k].data| && got == s.events[k].data[..|got|]
    case _ => true
  }

  /** Where a thread at `pc` stands in the history. */
  ghost function PhaseAt(pc: PC): Phase<Op, Result> {
    match pc
    case CreateLock(op) => Called(op)
    case CreateSearch(op, _) => Called(op)
    case CreateAppend(op) => Called(op)
    case CreateUnlock(op, ok) => Done(op, Status(ok))
    case FindLock(req) => if req.Linear? then Called(req.op) else Out
    case FindSearch(req, _) => if req.Linear? then Called(req.op) else Out
    case FindUnlock(req, found) =>
      if !req.Linear? then Out else if found.Some? then Called(req.op) else Done(req.op, Status(false))
    case ReserveLock(op, _) => Called(op)
    case ReserveBounds(op, _) => Called(op)
    case ReserveScan(op, _, _) => Called(op)
    case ReserveBump(op, _) => Called(op)
    case ReserveWrite(op, _, _) => Called(op)
    case ReserveUnlock(op, _, _) => Called(op)
    case ListLock => Called(ListEvents)
    case ListRead(_, _) => Called(ListEvents)
    case ListUnlock(_) => Called(ListEvents)
    case Leave(op, res) => Done(op, res)
    case _ => Out
  }

  ghost predicate ThreadLogged(s: State, t: nat) {
    t < |s.threads| ==> PhaseOf(s.history, t) == PhaseAt(s.threads[t])
  }

  ghost predicate Logged(s: State) {
    && WellFormed(s.history) && Legal(s.history)
    && forall t: nat :: ThreadLogged(s, t)
  }

  ghost predicate ThreadInv(s: State, t: nat)
    requires |Abs(s)| == |s.events|
  {
    t < |s.threads| ==> ThreadOk(s, s.threads[t])
  }

  ghost predicate Inv(s: State) {
    && Locks(s)
    && Memory(s)
    && (forall t: nat :: ThreadInv(s, t))
    && Logged(s)
  }

  lemma {:induction false} EmptyHistory()
    ensures WellFormed<Op, Result>([]) && Legal([]) && StoreOf([]) == []
    ensures forall t :: PhaseOf<Op, Result>([], t) == Out
  {
  }

  lemma InitInv(n: nat)
    ensures Inv(Init(n))
  {
    EmptyHistory();
  }

  // ----- Preservation: locks -----

  /** What thread `u` sees of the locks is the same in both states. */
  ghost predicate SameView(s: State, s': State, u: nat) {
    && (s'.writer == Some(u) <==> s.writer == Some(u))
    && (u in s'.readers <==> u in s.readers)
    && |s.owner| <= |s'.owner|
    && (forall k :: 0 <= k < |s.owner| ==> (s'.owner[k] == Some(u) <==> s.owner[k] == Some(u)))
    && (forall k :: |s.owner| <= k < |s'.owner| ==> s'.owner[k] != Some(u))
  }

  /** What a step of thread `t` does to the locks: nothing that another thread could notice. */
  ghost predicate LockStep(s: State, s': State, t: nat) {
    && t < |s.threads| == |s'.threads|
    && s'.threads == s.threads[t := s'.threads[t]]
    && LockTable(s') && HoldsItsLocks(s', t, s'.threads[t])
    && forall u: nat :: u != t ==> SameView(s, s', u)
  }

  lemma LocksMove(s: State, t: nat, s': State)
    requires Locks(s) && LockStep(s, s', t)
    ensures Locks(s')
  {
    forall u: nat
      ensures ThreadHolds(s', u)
    {
      assert ThreadHolds(s, u);
      if u != t {
        assert SameView(s, s', u);
      }
    }
  }

  ghost predicate OwnLocks(s: State, t: nat) {
    LockTable(s) && t < |s.threads| && HoldsItsLocks(s, t, s.threads[t])
  }

  lemma LocksKeptCreate(s: State, t: nat, s': State)
    requires OwnLocks(s, t) && StepCreate(s, t) == Some(s')
    ensures LockStep(s, s', t)
  {
  }

  lemma LocksKeptFind(s: State, t: nat, s': State)
    requires OwnLocks(s, t) && StepFind(s, t) == Some(s')
    ensures LockStep(s, s', t)
  {
  }

  lemma LocksKeptReserve(s: State, t: nat, s': State)
    requires OwnLocks(s, t) && StepReserve(s, t) == Some(s')
    requires s.threads[t].ReserveLock? || s.threads[t].ReserveUnlock?
    ensures LockStep(s, s', t)
  {
  }

  lemma LocksUntouched(s: State, t: nat, s': State)
    requires OwnLocks(s, t) && |s'.threads| == |s.threads| && |s'.events| == |s.events|
    requires s'.threads == s.threads[t := s'.threads[t]]
    requires s'.writer == s.writer && s'.readers == s.readers && s'.owner == s.owner
    requires var (pc, pc') := (s.threads[t], s'.threads[t]);
      HoldsWrite(pc) == HoldsWrite(pc') && HoldsRead(pc) == HoldsRead(pc') && HeldMutex(pc) == HeldMutex(pc')
    ensures LockStep(s, s', t)
  {
  }

  lemma LocksKeptInside(s: State, t: nat, s': State)
    requires OwnLocks(s, t) && StepReserve(s, t) == Some(s')
    requires !s.threads[t].ReserveLock? && !s.threads[t].ReserveUnlock?
    ensures LockStep(s, s', t)
  {
    LocksUntouched(s, t, s');
  }

  lemma LocksKeptBegin(s: State, t: nat, req: Request, s': State)
    requires OwnLocks(s, t) && s.threads[t].Idle? && s' == Begin(s, t, req)
    ensures LockStep(s, s', t)
  {
    LocksUntouched(s, t, s');
  }

  lemma LocksKeptOutside(s: State, t: nat, pc: PC, s': State)
    requires OwnLocks(s, t) && (s.threads[t].Leave? || s.threads[t].ShowRead?)
    requires pc.Idle? || pc.ShowRead?
    requires s' == To(s, t, pc).(history := s'.history)
    ensures LockStep(s, s', t)
  {
    LocksUntouched(s, t, s');
  }

  lemma LocksKeptList(s: State, t: nat, s': State)
    requires OwnLocks(s, t) && StepList(s, t) == Some(s')
    ensures LockStep(s, s', t)
  {
  }

  lemma LocksKeptDump(s: State, t: nat, s': State)
    requires OwnLocks(s, t) && StepDump(s, t) == Some(s')
    ensures LockStep(s, s', t)
  {
  }

  lemma LocksKept(s: State, t: nat, req: Request, s': State)
    requires Locks(s) && t < |s.threads| && Step(s, t, req) == Some(s')
    ensures Locks(s')
  {
    assert ThreadHolds(s, t);
    var pc := s.threads[t];
    if pc.Idle? {
      LocksKeptBegin(s, t, req, s');
    } else if pc.Leave? || pc.ShowRead? {
      LocksKeptOutside(s, t, s'.threads[t], s');
    } else if pc.CreateLock? || pc.CreateSearch? || pc.CreateAppend? || pc.CreateUnlock? {
      LocksKeptCreate(s, t, s');
    } else if pc.FindLock? || pc.FindSearch? || pc.FindUnlock? {
      LocksKeptFind(s, t, s');
    } else if pc.ListLock? || pc.ListRead? || pc.ListUnlock? {
      LocksKeptList(s, t, s');
    } else if pc.DumpLock? || pc.DumpEnter? || pc.DumpRead? || pc.DumpUnlock? {
      LocksKeptDump(s, t, s');
    } else if pc.ReserveLock? || pc.ReserveUnlock? {
      LocksKeptReserve(s, t, s');
    } else {
      LocksKeptInside(s, t, s');
    }
    LocksMove(s, t, s');
  }

  // ----- Preservation: everything else -----

  /** A seat holding an id keeps it. */
  ghost predicate Grows(old_: seq<nat>, new_: seq<nat>) {
    && |old_| == |new_|
    && forall i :: 0 <= i < |old_| && old_[i] != 0 ==> new_[i] == old_[i]
  }

  ghost predicate SameFrame(e: EventState, e': EventState) {
    e'.id == e.id && e'.rows == e.rows && e'.cols == e.cols && Grows(e.data, e'.data)
  }

  /** All that a step of thread `t` may change for the others: it may append an event if it holds
      the list's write lock, and take seats of an event whose mutex it holds. */
  ghost predicate OthersSee(s: State, s': State, t: nat) {
    && |Abs(s)| == |s.events| == |s.owner| && |Abs(s')| == |s'.events| == |s'.owner|
    && |s.events| <= |s'.events|
    && (s.writer != Some(t) ==> |s'.events| == |s.events|)
    && (forall k :: 0 <= k < |s.events| ==> SameFrame(s.events[k], s'.events[k]))
    && (forall k :: 0 <= k < |s.events| && s.owner[k] != Some(t) ==>
          s'.events[k] == s.events[k] && Abs(s')[k] == Abs(s)[k])
  }

  lemma BetweenGrows(start: seq<nat>, got: seq<nat>, now: seq<nat>, later: seq<nat>)
    requires Between(start, got, now) && Grows(now, later)
    ensures Between(start, got, later)
  {
  }

  /** Thread `u` is not disturbed by a step of thread `t`. */
  lemma Undisturbed(s: State, s': State, t: nat, u: nat)
    requires Locks(s) && OthersSee(s, s', t) && u != t && u < |s.threads|
    requires ThreadOk(s, s.threads[u])
    ensures ThreadOk(s', s.threads[u])
  {
    assert ThreadHolds(s, u);
    var pc := s.threads[u];
    if pc.ShowRead? {
      BetweenGrows(pc.start, pc.got, s.events[pc.k].data, s'.events[pc.k].data);
    } else if pc.ListRead? || pc.ListUnlock? {
      assert IdsOf(s'.events) == IdsOf(s.events);
    }
  }

  lemma ThreadsMove(s: State, s': State, t: nat)
    requires Locks(s) && OthersSee(s, s', t) && t < |s.threads| == |s'.threads|
    requires s'.threads == s.threads[t := s'.threads[t]]
    requires forall u: nat :: ThreadInv(s, u)
    requires ThreadOk(s', s'.threads[t])
    ensures forall u: nat :: ThreadInv(s', u)
  {
    forall u: nat
      ensures ThreadInv(s', u)
    {
      assert ThreadInv(s, u);
      if u != t && u < |s.threads| {
        Undisturbed(s, s', t, u);
      }
    }
  }

  ghost predicate EventMatches(s: State, k: nat)
    requires k < |s.owner| && k < |Abs(s)| && k < |s.events|
  {
    s.events[k] == Expected(s, k)
  }

  lemma MemoryMove(s: State, s': State, t: nat)
    requires Locks(s) && Memory(s) && OthersSee(s, s', t) && t < |s.threads| == |s'.threads|
    requires s'.threads == s.threads[t := s'.threads[t]]
    requires forall k: nat :: k < |s'.events| ==>
      (k < |s.events| && s.owner[k] != Some(t) && s'.owner[k] == s.owner[k]) || EventMatches(s', k)
    ensures Memory(s')
  {
    forall k | 0 <= k < |s'.events|
      ensures s'.events[k] == Expected(s', k)
    {
      if k < |s.events| && s.owner[k] != Some(t) && s'.owner[k] == s.owner[k] {
        assert s.events[k] == Expected(s, k);
      } else {
        assert EventMatches(s', k);
      }
    }
  }

  /** A step that adds nothing to the history. */
  lemma LoggedSame(s: State, s': State, t: nat)
    requires Logged(s) && s'.history == s.history && t < |s.threads| == |s'.threads|
    requires s'.threads == s.threads[t := s'.threads[t]]
    requires PhaseAt(s'.threads[t]) == PhaseAt(s.threads[t])
    ensures Logged(s')
  {
    forall u: nat
      ensures ThreadLogged(s', u)
    {
      assert ThreadLogged(s, u);
      assert ThreadLogged(s, t);
    }
  }

  /** A step that adds one event. */
  lemma LoggedSnoc(s: State, s': State, t: nat, e: Ev)
    requires Logged(s) && s'.history == s.history + [e] && e.t == t && t < |s.threads| == |s'.threads|
    requires s'.threads == s.threads[t := s'.threads[t]]
    requires PhaseAt(s.threads[t]) == PhaseBefore(e) && PhaseAt(s'.threads[t]) == PhaseAfter(e)
    requires e.Effect? ==> e.res == Apply(Abs(s), e.op).1
    ensures Logged(s')
    ensures Abs(s') == if e.Effect? then Apply(Abs(s), e.op).0 else Abs(s)
  {
    assert ThreadLogged(s, t);
    assert PhaseOf(s.history, t) == PhaseBefore(e);
    Snoc(s.history, e);
    forall u: nat
      ensures ThreadLogged(s', u)
    {
      assert ThreadLogged(s, u);
    }
  }

  /** The sequential store has the ids and dimensions memory has. */
  lemma SameIds(s: State)
    requires Memory(s)
    ensures IdsOf(Abs(s)) == IdsOf(s.events)
    ensures forall k :: 0 <= k < |s.events| ==>
      Abs(s)[k].id == s.events[k].id && Abs(s)[k].rows == s.events[k].rows &&
      Abs(s)[k].cols == s.events[k].cols && |Abs(s)[k].data| == |s.events[k].data|
  {
    forall k | 0 <= k < |s.events|
      ensures Abs(s)[k].id == s.events[k].id && Abs(s)[k].rows == s.events[k].rows &&
        Abs(s)[k].cols == s.events[k].cols && |Abs(s)[k].data| == |s.events[k].data|
    {
      assert s.events[k] == Expected(s, k);
    }
  }

  /** What `id` resolves to, in memory and in the sequential store. */
  lemma ResolvesInStore(s: State, id: nat, k: nat)
    requires Memory(s) && Resolves(s, id, k)
    ensures FindId(IdsOf(Abs(s)), id) == Some(k)
  {
    SameIds(s);
    FindIdUnique(IdsOf(s.events), id, k);
  }

  lemma MissedInStore(s: State, id: nat)
    requires Memory(s) && MissedBy(s, id, |s.events|)
    ensures FindId(IdsOf(Abs(s)), id).None?
  {
    SameIds(s);
  }

  /** Everything but the locks. */
  ghost predicate Rest(s: State) {
    && Memory(s)
    && (forall t: nat :: ThreadInv(s, t))
    && Logged(s)
  }

  /** A step that leaves memory alone, by a thread not in the middle of a commit. */
  ghost predicate QuietMove(s: State, s': State, t: nat) {
    && t < |s.threads| == |s'.threads|
    && s'.threads == s.threads[t := s'.threads[t]]
    && s'.events == s.events && |s'.owner| == |s.owner|
    && !s.threads[t].ReserveWrite? && !s.threads[t].ReserveUnlock?
    && !s'.threads[t].ReserveWrite? && !(s'.threads[t].ReserveUnlock? && s'.threads[t].ok)
    && forall k :: 0 <= k < |s.owner| ==>
      s'.owner[k] == s.owner[k] || (s.owner[k] in {None, Some(t)} && s'.owner[k] in {None, Some(t)})
  }

  lemma QuietStep(s: State, s': State, t: nat)
    requires Inv(s) && Locks(s') && QuietMove(s, s', t)
    requires Abs(s') == Abs(s) && Logged(s')
    requires ThreadOk(s', s'.threads[t])
    ensures Rest(s')
  {
    assert ThreadHolds(s, t);
    ThreadsMove(s, s', t);
    forall k: nat | k < |s'.events|
      ensures (s.owner[k] != Some(t) && s'.owner[k] == s.owner[k]) || EventMatches(s', k)
    {
      assert s.events[k] == Expected(s, k);
    }
    MemoryMove(s, s', t);
  }

  lemma RestKeptBegin(s: State, t: nat, req: Request, s': State)
    requires Inv(s) && t < |s.threads| && s.threads[t].Idle? && s' == Begin(s, t, req) && Locks(s')
    ensures Rest(s')
  {
    if req.Linear? {
      LoggedSnoc(s, s', t, Call(t, req.op));
    } else {
      LoggedSame(s, s', t);
    }
    QuietStep(s, s', t);
  }

  lemma RestKeptLeave(s: State, t: nat, s': State)
    requires Inv(s) && t < |s.threads| && s.threads[t].Leave? && Locks(s')
    requires s' == Log(To(s, t, Idle), Return(t, s.threads[t].op, s.threads[t].res))
    ensures Rest(s')
  {
    LoggedSnoc(s, s', t, Return(t, s.threads[t].op, s.threads[t].res));
    QuietStep(s, s', t);
  }

  lemma RestKeptShow(s: State, t: nat, s': State)
    requires Inv(s) && t < |s.threads| && StepShow(s, t) == Some(s') && Locks(s')
    ensures Rest(s')
  {
    assert ThreadInv(s, t);
    LoggedSame(s, s', t);
    QuietStep(s, s', t);
  }

  lemma ListMoves(s: State, t: nat, s': State)
    requires t < |s.threads| && StepList(s, t) == Some(s')
    requires |Abs(s)| == |s.events| == |Abs(s')| && ThreadOk(s, s.threads[t])
    ensures QuietMove(s, s', t) && ThreadOk(s', s'.threads[t])
  {
  }

  lemma ListLogged(s: State, t: nat, s': State)
    requires Inv(s) && t < |s.threads| && StepList(s, t) == Some(s')
    ensures Logged(s') && Abs(s') == Abs(s)
  {
    assert ThreadInv(s, t);
    var pc := s.threads[t];
    if pc.ListUnlock? {
      SameIds(s);
      LoggedSnoc(s, s', t, Effect(t, ListEvents, Ids(pc.ids)));
    } else {
      LoggedSame(s, s', t);
    }
  }

  lemma RestKeptList(s: State, t: nat, s': State)
    requires Inv(s) && t < |s.threads| && StepList(s, t) == Some(s') && Locks(s')
    ensures Rest(s')
  {
    assert ThreadInv(s, t);
    ListLogged(s, t, s');
    ListMoves(s, t, s');
    QuietStep(s, s', t);
  }

  lemma DumpMoves(s: State, t: nat, s': State)
    requires t < |s.threads| && StepDump(s, t) == Some(s') && LockTable(s) && HoldsItsLocks(s, t, s.threads[t])
    requires |Abs(s)| == |s.events| && ThreadOk(s, s.threads[t])
    ensures QuietMove(s, s', t) && s'.history == s.history && ThreadOk(s', s'.threads[t])
    ensures PhaseAt(s'.threads[t]) == PhaseAt(s.threads[t])
  {
  }

  lemma RestKeptDump(s: State, t: nat, s': State)
    requires Inv(s) && t < |s.threads| && StepDump(s, t) == Some(s') && Locks(s')
    ensures Rest(s')
  {
    assert ThreadInv(s, t);
    assert ThreadHolds(s, t);
    DumpMoves(s, t, s');
    LoggedSame(s, s', t);
    QuietStep(s, s', t);
  }

  lemma FindMoves(s: State, t: nat, s': State)
    requires t < |s.threads| && StepFind(s, t) == Some(s')
    requires |Abs(s)| == |s.events| == |Abs(s')| && ThreadOk(s, s.threads[t])
    ensures QuietMove(s, s', t) && ThreadOk(s', s'.threads[t])
  {
  }

  lemma FindLogged(s: State, t: nat, s': State)
    requires Inv(s) && t < |s.threads| && StepFind(s, t) == Some(s')
    ensures Logged(s') && Abs(s') == Abs(s)
  {
    assert ThreadInv(s, t);
    var pc := s.threads[t];
    if pc.FindSearch? && pc.req.Linear? && pc.k >= |s.events| {
      MissedInStore(s, pc.req.op.id);
      LoggedSnoc(s, s', t, Effect(t, pc.req.op, Status(false)));
    } else {
      LoggedSame(s, s', t);
    }
  }

  lemma RestKeptFind(s: State, t: nat, s': State)
    requires Inv(s) && t < |s.threads| && StepFind(s, t) == Some(s') && Locks(s')
    ensures Rest(s')
  {
    assert ThreadInv(s, t);
    FindLogged(s, t, s');
    FindMoves(s, t, s');
    QuietStep(s, s', t);
  }

  /** CREATE meets its id in the list: that is its effect. */
  lemma RestKeptRefused(s: State, t: nat, s': State)
    requires Inv(s) && t < |s.threads| && StepCreate(s, t) == Some(s') && Locks(s')
    requires var pc := s.threads[t]; pc.CreateSearch? && pc.k < |s.events| && s.events[pc.k].id == pc.op.id
    ensures Rest(s')
  {
    assert ThreadInv(s, t);
    var pc := s.threads[t];
    ResolvesInStore(s, pc.op.id, pc.k);
    LoggedSnoc(s, s', t, Effect(t, pc.op, Status(false)));
    QuietStep(s, s', t);
  }

  lemma RestKeptCreate(s: State, t: nat, s': State)
    requires Inv(s) && t < |s.threads| && StepCreate(s, t) == Some(s') && Locks(s')
    requires !s.threads[t].CreateAppend?
    ensures Rest(s')
  {
    var pc := s.threads[t];
    if pc.CreateSearch? && pc.k < |s.events| && s.events[pc.k].id == pc.op.id {
      RestKeptRefused(s, t, s');
    } else {
      assert ThreadInv(s, t);
      LoggedSame(s, s', t);
      QuietStep(s, s', t);
    }
  }

  lemma RestKeptAppend(s: State, t: nat, s': State)
    requires Inv(s) && t < |s.threads| && StepCreate(s, t) == Some(s') && Locks(s')
    requires s.threads[t].CreateAppend?
    ensures Rest(s')
  {
    assert ThreadInv(s, t);
    assert ThreadHolds(s, t);
    var op := s.threads[t].op;
    MissedInStore(s, op.id);
    LoggedSnoc(s, s', t, Effect(t, op, Status(true)));
    assert Abs(s') == Abs(s) + [EmptyEvent(op.id, op.rows, op.cols)];
    assert s'.owner == s.owner + [None];
    ThreadsMove(s, s', t);
    MemoryMove(s, s', t);
  }

  lemma InspectMoves(s: State, t: nat, s': State)
    requires t < |s.threads| && StepReserve(s, t) == Some(s')
    requires var pc := s.threads[t]; pc.ReserveLock? || pc.ReserveBounds? || pc.ReserveScan?
    requires |Abs(s)| == |s.events| && ThreadOk(s, s.threads[t])
    requires s.threads[t].k < |s.events| &&
      (s.threads[t].ReserveLock? || s.events[s.threads[t].k] == Abs(s)[s.threads[t].k])
    ensures QuietMove(s, s', t) && s'.history == s.history && ThreadOk(s', s'.threads[t])
  {
    var pc := s.threads[t];
    if pc.ReserveScan? && pc.i >= |s.events[pc.k].data| {
      ScanIsComplete(Abs(s)[pc.k], pc.op.seats, pc.i);
    }
  }

  /** Steps under the mutex of event `k` that leave memory alone. */
  lemma RestKeptInspect(s: State, t: nat, s': State)
    requires Inv(s) && t < |s.threads| && StepReserve(s, t) == Some(s') && Locks(s')
    requires var pc := s.threads[t]; pc.ReserveLock? || pc.ReserveBounds? || pc.ReserveScan?
    ensures Rest(s')
  {
    assert ThreadInv(s, t);
    assert ThreadHolds(s, t);
    var k := s.threads[t].k;
    assert s.events[k] == Expected(s, k);
    InspectMoves(s, t, s');
    LoggedSame(s, s', t);
    QuietStep(s, s', t);
  }

  lemma ScanIsComplete(e: EventState, seats: seq<Seat>, n: nat)
    requires Shaped(e) && AllInGrid(e.rows, e.cols, seats) && ScannedTo(e, seats, n) && n >= |e.data|
    ensures Grants(e, seats)
  {
  }

  lemma RestKeptBump(s: State, t: nat, s': State)
    requires Inv(s) && t < |s.threads| && StepReserve(s, t) == Some(s') && Locks(s')
    requires s.threads[t].ReserveBump?
    ensures Rest(s')
  {
    assert ThreadInv(s, t);
    assert ThreadHolds(s, t);
    LoggedSame(s, s', t);
    var k, seats := s.threads[t].k, s.threads[t].op.seats;
    assert s.events[k] == Expected(s, k);
    HalfOfAll(Abs(s)[k], seats);
    ThreadsMove(s, s', t);
    MemoryMove(s, s', t);
  }

  lemma RestKeptWrite(s: State, t: nat, s': State)
    requires Inv(s) && t < |s.threads| && StepReserve(s, t) == Some(s') && Locks(s')
    requires s.threads[t].ReserveWrite? && s.threads[t].j < |s.threads[t].op.seats|
    ensures Rest(s')
  {
    assert ThreadInv(s, t);
    assert ThreadHolds(s, t);
    LoggedSame(s, s', t);
    var k, j, seats := s.threads[t].k, s.threads[t].j, s.threads[t].op.seats;
    var e := Abs(s)[k];
    assert s.events[k] == Expected(s, k);
    HalfNext(e, seats, j);
    ThreadsMove(s, s', t);
    MemoryMove(s, s', t);
  }

  /** Writing seat `j` takes the event from `j` to `j + 1` seats written, and takes a free cell. */
  lemma HalfNext(e: EventState, seats: seq<Seat>, j: nat)
    requires Shaped(e) && Grants(e, seats) && j < |seats|
    ensures var h, i := Half(e, seats, j), SeatIndex(e.cols, seats[j]);
      && 0 <= i < |h.data|
      && Half(e, seats, j + 1) == h.(data := h.data[i := h.reservations])
      && SameFrame(h, Half(e, seats, j + 1))
  {
    GrantsSeat(e, seats, j);
    MarkedSnoc(e.data, e.rows, e.cols, seats[..j], seats[j], NextId(e));
    assert seats[..j] + [seats[j]] == seats[..j + 1];
  }

  lemma RestKeptWritten(s: State, t: nat, s': State)
    requires Inv(s) && t < |s.threads| && StepReserve(s, t) == Some(s') && Locks(s')
    requires s.threads[t].ReserveWrite? && s.threads[t].j >= |s.threads[t].op.seats|
    ensures Rest(s')
  {
    assert ThreadInv(s, t);
    assert ThreadHolds(s, t);
    LoggedSame(s, s', t);
    var k, seats := s.threads[t].k, s.threads[t].op.seats;
    assert s.events[k] == Expected(s, k);
    HalfOfAll(Abs(s)[k], seats);
    ThreadsMove(s, s', t);
    MemoryMove(s, s', t);
  }

  lemma RestKeptUnlock(s: State, t: nat, s': State)
    requires Inv(s) && t < |s.threads| && StepReserve(s, t) == Some(s') && Locks(s')
    requires s.threads[t].ReserveUnlock?
    ensures Rest(s')
  {
    assert ThreadInv(s, t);
    assert ThreadHolds(s, t);
    var pc := s.threads[t];
    var k := pc.k;
    ResolvesInStore(s, pc.op.id, k);
    LoggedSnoc(s, s', t, Effect(t, pc.op, Status(pc.ok)));
    assert s.events[k] == Expected(s, k);
    ThreadsMove(s, s', t);
    MemoryMove(s, s', t);
  }

  /** Every step of every thread keeps the invariant. */
  lemma StepKeepsInv(s: State, t: nat, req: Request, s': State)
    requires Inv(s) && t < |s.threads| && Step(s, t, req) == Some(s')
    ensures Inv(s')
  {
    LocksKept(s, t, req, s');
    var pc := s.threads[t];
    if pc.Idle? {
      RestKeptBegin(s, t, req, s');
    } else if pc.Leave? {
      RestKeptLeave(s, t, s');
    } else if pc.ShowRead? {
      RestKeptShow(s, t, s');
    } else if pc.CreateAppend? {
      RestKeptAppend(s, t, s');
    } else if pc.CreateLock? || pc.CreateSearch? || pc.CreateUnlock? {
      RestKeptCreate(s, t, s');
    } else if pc.FindLock? || pc.FindSearch? || pc.FindUnlock? {
      RestKeptFind(s, t, s');
    } else if pc.ListLock? || pc.ListRead? || pc.ListUnlock? {
      RestKeptList(s, t, s');
    } else if pc.DumpLock? || pc.DumpEnter? || pc.DumpRead? || pc.DumpUnlock? {
      RestKeptDump(s, t, s');
    } else {
      RestKeptReserve(s, t, s');
    }
  }

  lemma RestKeptReserve(s: State, t: nat, s': State)
    requires Inv(s) && t < |s.threads| && StepReserve(s, t) == Some(s') && Locks(s')
    ensures Rest(s')
  {
    assert ThreadInv(s, t);
    var pc := s.threads[t];
    if pc.ReserveLock? || pc.ReserveBounds? || pc.ReserveScan? {
      RestKeptInspect(s, t, s');
    } else if pc.ReserveBump? {
      RestKeptBump(s, t, s');
    } else if pc.ReserveUnlock? {
      RestKeptUnlock(s, t, s');
    } else if pc.j < |pc.op.seats| {
      RestKeptWrite(s, t, s');
    } else {
      RestKeptWritten(s, t, s');
    }
  }

  lemma NextKeepsInv(s: State, s': State)
    requires Inv(s) && Next(s, s')
    ensures Inv(s')
  {
    var t, req :| 0 <= t < |s.threads| && Step(s, t, req) == Some(s');
    StepKeepsInv(s, t, req, s');
  }

  lemma Inductive()
    ensures forall s :: IsInit(s) ==> Inv(s)
    ensures forall s, s' :: Inv(s) && Next(s, s') ==> Inv(s')
  {
    forall s | IsInit(s)
      ensures Inv(s)
    {
      var n: nat :| s == Init(n);
      InitInv(n);
    }
    forall s, s' | Inv(s) && Next(s, s')
      ensures Inv(s')
    {
      NextKeepsInv(s, s');
    }
  }

  /** The invariant holds in every state of every run. */
  lemma RunInv(run: seq<State>, i: nat)
    requires Run(run) && i < |run|
    ensures Inv(run[i])
  {
    Inductive();
    Runs.Invariant(IsInit, Next, Inv, run, i);
  }
}
