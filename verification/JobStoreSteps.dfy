/** Every step of every thread of Part 1's store keeps the invariant. */
module JobStoreSteps {
  import opened Seating
  import opened Reservation
  import opened Store
  import opened Rendering
  import opened Histories
  import opened JobStore
  import Runs

  /** Everything but the locks. */
  ghost predicate Rest(s: State) {
    && Memory(s)
    && (forall t: nat :: ThreadInv(s, t))
    && Output(s)
    && Legal(s.log)
    && (forall e :: e in s.outputs ==> e in s.log)
  }

  /** Dimensions and ids do not depend on where a reservation stands. */
  lemma SameIds(s: State)
    requires Memory(s)
    ensures IdsOf(Abs(s)) == IdsOf(s.events)
    ensures forall k :: 0 <= k < |s.events| ==>
      Abs(s)[k].id == s.events[k].id && Abs(s)[k].rows == s.events[k].rows && Abs(s)[k].cols == s.events[k].cols
  {
    forall k | 0 <= k < |s.events|
      ensures Abs(s)[k].id == s.events[k].id && Abs(s)[k].rows == s.events[k].rows &&
        Abs(s)[k].cols == s.events[k].cols
    {
      assert EventMatches(s, k);
    }
  }

  /** A step that neither writes nor finishes an output. */
  lemma OutputKept(s: State, s': State, t: nat)
    requires Locks(s) && Locks(s') && Output(s) && t < |s.threads| == |s'.threads|
    requires s'.threads == s.threads[t := s'.threads[t]]
    requires s'.out == s.out && s'.outputs == s.outputs
    requires s'.file == s.file || (s.file.None? && s'.file == Some(t) && WrittenBy(s'.threads[t]) == "")
    requires s.file == Some(t) ==> WrittenBy(s'.threads[t]) == WrittenBy(s.threads[t])
    ensures Output(s')
  {
    assert s'.file.Some? ==> s'.file.value < |s.threads|;
  }

  /** A write call: the text moves from the thread's buffer into the file. */
  lemma OutputWritten(s: State, s': State, t: nat, text: string)
    requires Locks(s) && Output(s) && t < |s.threads| == |s'.threads|
    requires s'.threads == s.threads[t := s'.threads[t]]
    requires s.file == s'.file == Some(t) && s'.outputs == s.outputs
    requires s'.out == s.out + text
    requires WrittenBy(s'.threads[t]) == WrittenBy(s.threads[t]) + text
    ensures Output(s')
  {
    Appended(TextsOf(s.outputs), WrittenBy(s.threads[t]), text);
  }

  /** The last piece is out: the file holds one more whole text. */
  lemma OutputDone(s: State, s': State, t: nat, what: Entry)
    requires Locks(s) && Output(s) && t < |s.threads| == |s'.threads|
    requires s.file == Some(t) && s'.file.None? && s'.out == s.out && s'.outputs == s.outputs + [what]
    requires WrittenBy(s.threads[t]) == EntryText(what)
    ensures Output(s')
  {
    assert s'.outputs[..|s'.outputs| - 1] == s.outputs;
  }

  /** A step that leaves all events alone, by a thread not in the middle of a reservation. */
  lemma QuietStep(s: State, s': State, t: nat)
    requires Inv(s) && Locks(s') && t < |s.threads| == |s'.threads| && SameWriters(s, s', t)
    requires s'.threads == s.threads[t := s'.threads[t]]
    requires s'.events == s.events && Abs(s') == Abs(s)
    requires forall e :: e in s.log ==> e in s'.log
    requires var pc := s.threads[t]; !pc.ReserveSeat? && !pc.ReserveTry? && !pc.ReserveDrop? && !pc.ReserveUndo?
    requires var pc := s'.threads[t]; !pc.ReserveSeat? && !pc.ReserveTry? && !pc.ReserveDrop? && !pc.ReserveUndo?
    requires ThreadOk(s', s'.threads[t])
    ensures Memory(s')
    ensures forall u: nat :: ThreadInv(s', u)
  {
    QuietMemory(s, s', t);
    ThreadsMove(s, s', t);
  }

  lemma RestKeptBegin(s: State, t: nat, req: Request, s': State)
    requires Inv(s) && t < |s.threads| && s.threads[t].Idle? && s' == Begin(s, t, req) && Locks(s')
    ensures Rest(s')
  {
    QuietStep(s, s', t);
    OutputKept(s, s', t);
  }

  lemma RestKeptLeave(s: State, t: nat, s': State)
    requires Inv(s) && t < |s.threads| && s.threads[t].Leave? && Locks(s')
    requires s' == Record(To(s, t, Idle), Return(t, s.threads[t].req, s.threads[t].res))
    ensures Rest(s')
  {
    QuietStep(s, s', t);
    OutputKept(s, s', t);
  }

  lemma RestKeptEnter(s: State, t: nat, s': State)
    requires Inv(s) && t < |s.threads| && StepFind(s, t) == Some(s') && Locks(s')
    requires !s.threads[t].FindSearch?
    ensures Rest(s')
  {
    assert ThreadInv(s, t);
    assert ThreadHolds(s, t);
    QuietStep(s, s', t);
    OutputKept(s, s', t);
  }

  /** A lookup that ends the operation is an entry of its own. */
  lemma SearchLogged(s: State, t: nat, s': State)
    requires Inv(s) && t < |s.threads| && StepFind(s, t) == Some(s')
    requires s.threads[t].FindSearch?
    ensures Legal(s'.log) && Abs(s') == Abs(s)
  {
    assert ThreadInv(s, t);
    SameIds(s);
    var req := s.threads[t].req;
    LogSnoc(s.log, if req.AskCreate? then Refused(req.id) else Missing(req.id));
  }

  lemma SearchOutcome(s: State, t: nat, s': State)
    requires t < |s.threads| && StepFind(s, t) == Some(s') && s.threads[t].FindSearch?
    ensures |s'.threads| == |s.threads| && s'.threads == s.threads[t := s'.threads[t]]
    ensures s' == s.(threads := s'.threads, list := s'.list, event := s'.event, log := s'.log, history := s'.history)
    ensures s'.event.writer == s.event.writer && s.log <= s'.log
    ensures var pc := s'.threads[t];
      || pc.Leave? || (pc.CreateList? && pc.req.AskCreate?)
      || ((pc.ReserveEvent? || pc.ShowSeat?) && FoundAt(s.events, pc.id, pc.k))
  {
    var pc := s'.threads[t];
    if pc.ReserveEvent? || pc.ShowSeat? {
      FoundAtIff(s.events, pc.id, pc.k);
    }
  }

  lemma RestKeptSearch(s: State, t: nat, s': State)
    requires Inv(s) && t < |s.threads| && StepFind(s, t) == Some(s') && Locks(s')
    requires s.threads[t].FindSearch?
    ensures Rest(s')
  {
    assert ThreadHolds(s, t);
    SearchLogged(s, t, s');
    SearchOutcome(s, t, s');
    SearchRest(s, t, s');
  }

  lemma SearchRest(s: State, t: nat, s': State)
    requires Inv(s) && Locks(s') && t < |s.threads| == |s'.threads| && SameWriters(s, s', t)
    requires s'.threads == s.threads[t := s'.threads[t]] && s.threads[t].FindSearch?
    requires s'.events == s.events && Abs(s') == Abs(s) && Legal(s'.log) && s.log <= s'.log
    requires s'.out == s.out && s'.outputs == s.outputs && s'.file == s.file
    requires var pc := s'.threads[t];
      || pc.Leave? || (pc.CreateList? && pc.req.AskCreate?)
      || ((pc.ReserveEvent? || pc.ShowSeat?) && FoundAt(s.events, pc.id, pc.k))
    ensures Rest(s')
  {
    assert forall e :: e in s.log ==> e in s'.log;
    QuietStep(s, s', t);
    OutputKept(s, s', t);
  }

  lemma RestKeptCreate(s: State, t: nat, s': State)
    requires Inv(s) && t < |s.threads| && StepCreate(s, t) == Some(s') && Locks(s')
    requires s.threads[t].CreateList?
    ensures Rest(s')
  {
    assert ThreadInv(s, t);
    assert ThreadHolds(s, t);
    QuietStep(s, s', t);
    OutputKept(s, s', t);
  }

  /** The new event is nobody's yet. */
  lemma AppendMemory(s: State, s': State, e: EventState)
    requires Inv(s) && s'.events == s.events + [e] && Abs(s') == Abs(s) + [e]
    requires s'.seat == s.seat && s'.event == s.event && |s'.threads| == |s.threads|
    requires forall u :: 0 <= u < |s.threads| && !HasListWrite(s.threads[u]) ==> s'.threads[u] == s.threads[u]
    ensures Memory(s')
  {
    var w, v := s.seat.writer, s.event.writer;
    if w.Some? {
      assert ThreadInv(s, w.value) && ThreadHolds(s, w.value);
      assert s'.threads[w.value] == s.threads[w.value];
    }
    if v.Some? {
      assert ThreadInv(s, v.value) && ThreadHolds(s, v.value);
      assert s'.threads[v.value] == s.threads[v.value];
    }
    forall k: nat
      ensures EventMatches(s', k)
    {
      assert EventMatches(s, k);
    }
  }

  lemma RestKeptAppend(s: State, t: nat, s': State)
    requires Inv(s) && t < |s.threads| && StepCreate(s, t) == Some(s') && Locks(s')
    requires s.threads[t].CreateAppend?
    ensures Rest(s')
  {
    assert ThreadInv(s, t);
    assert ThreadHolds(s, t);
    var req := s.threads[t].req;
    LogSnoc(s.log, Created(req.id, req.rows, req.cols));
    AppendMemory(s, s', EmptyEvent(req.id, req.rows, req.cols));
    ThreadsMove(s, s', t);
    OutputKept(s, s', t);
  }

  // ----- RESERVE -----

  /** The steps of RESERVE that only take or release a lock. */
  lemma RestKeptTurn(s: State, t: nat, s': State)
    requires Inv(s) && t < |s.threads| && StepReserve(s, t) == Some(s') && Locks(s')
    requires var pc := s.threads[t];
      pc.ReserveEvent? || pc.ReserveFailOut? || pc.ReserveEventOut? || pc.ReserveSeatOut?
    ensures Rest(s')
  {
    assert ThreadInv(s, t);
    assert ThreadHolds(s, t);
    QuietStep(s, s', t);
    OutputKept(s, s', t);
  }

  predicate WorksOn(pc: PC, k: nat) { HasEventWrite(pc) && pc.k == k }

  /** Event `k` in memory, for the thread at `pc` that holds its event lock. */
  ghost function InMemory(pc: PC, k: nat, e: EventState): EventState {
    e.(reservations := HeldCount(pc, k, e), data := HeldData(pc, k, e))
  }

  lemma OwnEvent(s: State, t: nat, k: nat)
    requires Locks(s) && t < |s.threads| && WorksOn(s.threads[t], k) && k < |s.events| == |Abs(s)|
    ensures EventMatches(s, k) <==> s.events[k] == InMemory(s.threads[t], k, Abs(s)[k])
  {
    assert ThreadHolds(s, t);
    if s.seat.writer.Some? {
      assert ThreadHolds(s, s.seat.writer.value);
    }
  }

  /** A step of the thread that holds the event lock touches one event. */
  lemma ReserveMemory(s: State, s': State, t: nat, k: nat)
    requires Inv(s) && Locks(s') && t < |s.threads| == |s'.threads|
    requires s'.threads == s.threads[t := s'.threads[t]]
    requires WorksOn(s.threads[t], k) && (WorksOn(s'.threads[t], k) || s'.threads[t].Leave?)
    requires k < |s.events| == |s'.events| && |Abs(s')| == |Abs(s)|
    requires s'.events == s.events[k := s'.events[k]] && Abs(s') == Abs(s)[k := Abs(s')[k]]
    requires SameWriters(s, s', t)
    requires EventMatches(s', k)
    ensures Memory(s')
  {
    assert ThreadHolds(s, t) && ThreadHolds(s', t);
    var w := s.seat.writer;
    if w.Some? {
      assert ThreadHolds(s, w.value);
    }
    forall n: nat
      ensures EventMatches(s', n)
    {
      assert EventMatches(s, n);
    }
  }

  /** What such a step does to event `k`, to the log and to the thread. */
  ghost predicate EventStep(s: State, s': State, t: nat, k: nat) {
    && t < |s.threads| == |s'.threads|
    && s'.threads == s.threads[t := s'.threads[t]]
    && WorksOn(s.threads[t], k) && WorksOn(s'.threads[t], k)
    && k < |s.events| == |s'.events| == |Abs(s)| == |Abs(s')|
    && s'.events == s.events[k := InMemory(s'.threads[t], k, Abs(s')[k])]
    && Abs(s') == Abs(s)[k := Abs(s')[k]]
    && Abs(s')[k].id == Abs(s)[k].id && Abs(s')[k].rows == Abs(s)[k].rows && Abs(s')[k].cols == Abs(s)[k].cols
    && s'.out == s.out && s'.outputs == s.outputs && s'.file == s.file
    && s.log <= s'.log && Legal(s'.log)
    && ThreadOk(s', s'.threads[t])
  }

  /** Such a step leaves everything else in order. */
  lemma EventStepRest(s: State, s': State, t: nat, k: nat)
    requires Inv(s) && Locks(s') && EventStep(s, s', t, k) && SameWriters(s, s', t)
    requires HasSeatWrite(s.threads[t]) || s'.events[k].data == s.events[k].data
    ensures Rest(s')
  {
    OwnEvent(s', t, k);
    assert ThreadHolds(s, t);
    SameIds(s);
    assert forall e :: e in s.log ==> e in s'.log;
    ReserveMemory(s, s', t, k);
    ThreadsMove(s, s', t);
    OutputKept(s, s', t);
  }

  /** What the thread that holds the event lock finds there. */
  ghost predicate Finds(s: State, t: nat) {
    && |Abs(s)| == |s.events| && t < |s.threads|
    && IdsOf(Abs(s)) == IdsOf(s.events)
    && HasEventWrite(s.threads[t]) && ThreadOk(s, s.threads[t])
    && var k := s.threads[t].k;
    && (k < |s.events| ==> s.events[k] == InMemory(s.threads[t], k, Abs(s)[k]))
  }

  lemma FindsOwn(s: State, t: nat)
    requires Inv(s) && t < |s.threads| && HasEventWrite(s.threads[t])
    ensures Finds(s, t)
  {
    assert ThreadInv(s, t);
    SameIds(s);
    var k := s.threads[t].k;
    if k < |s.events| {
      OwnEvent(s, t, k);
      assert EventMatches(s, k);
    }
  }

  /** A write to event `k` that leaves the log alone. */
  lemma WriteStep(s: State, t: nat, pc: PC, e: EventState, s': State)
    requires Finds(s, t) && Legal(s.log) && s.threads[t].k < |s.events| && WorksOn(pc, s.threads[t].k)
    requires var k := s.threads[t].k;
      s' == To(s, t, pc).(events := s.events[k := e]) && e == InMemory(pc, k, Abs(s)[k])
    requires ThreadOk(s', pc)
    ensures EventStep(s, s', t, s.threads[t].k)
  {
    var k := s.threads[t].k;
    assert s'.threads[t] == pc && Abs(s) == Abs(s)[k := Abs(s)[k]];
  }

  /** An effect on event `k`, which leaves memory alone and makes `a` of the sequential event. */
  lemma NoteStep(s: State, t: nat, pc: PC, req: Request, e: Entry, a: EventState, s': State)
    requires Finds(s, t) && s.threads[t].k < |s.events| && WorksOn(pc, s.threads[t].k)
    requires s' == Note(To(s, t, pc), t, req, e) && Legal(s.log + [e])
    requires var k := s.threads[t].k;
      && AbsOf(s.log + [e]) == Abs(s)[k := a] && s.events[k] == InMemory(pc, k, a)
      && a.id == Abs(s)[k].id && a.rows == Abs(s)[k].rows && a.cols == Abs(s)[k].cols
    requires ThreadOk(s', pc)
    ensures EventStep(s, s', t, s.threads[t].k)
  {
    var k := s.threads[t].k;
    assert s'.threads[t] == pc && s.events == s.events[k := s.events[k]];
  }

  lemma BumpStep(s: State, t: nat, s': State)
    requires Finds(s, t) && Legal(s.log) && StepReserve(s, t) == Some(s') && s.threads[t].ReserveBump?
    ensures EventStep(s, s', t, s.threads[t].k)
  {
  }

  lemma SeatStep(s: State, t: nat, s': State)
    requires Finds(s, t) && Legal(s.log) && StepReserve(s, t) == Some(s') && s.threads[t].ReserveSeat?
    ensures EventStep(s, s', t, s.threads[t].k)
  {
    var k, seats := s.threads[t].k, s.threads[t].seats;
    assert seats[..0] == [];
    MarkedNothing(Abs(s)[k].data, Abs(s)[k].cols, NextId(Abs(s)[k]));
  }

  lemma TakeSeat(e: EventState, seats: seq<Seat>, j: nat)
    requires Shaped(e) && j < |seats| && PassesAt(e, seats, j)
    ensures var h, i := Half(e, seats, j), SeatIndex(e.cols, seats[j]);
      && 0 <= i < |h.data|
      && Half(e, seats, j + 1) == h.(data := h.data[i := h.reservations])
  {
    MarkedSnoc(e.data, e.rows, e.cols, seats[..j], seats[j], NextId(e));
    assert seats[..j] + [seats[j]] == seats[..j + 1];
  }

  lemma TakeOutcome(s: State, t: nat, s': State)
    requires t < |s.threads| && StepReserve(s, t) == Some(s')
    requires s.threads[t].ReserveTry? && |s'.threads| == |s.threads| && s'.threads[t].ReserveTry?
    ensures var (id, k, j, seats) := (s.threads[t].id, s.threads[t].k, s.threads[t].j, s.threads[t].seats);
      && k < |s.events| && j < |seats|
      && var (e, i) := (s.events[k], SeatIndex(s.events[k].cols, seats[j]));
      && InGrid(e.rows, e.cols, seats[j]) && 0 <= i < |e.data| && e.data[i] == 0
      && s' == To(s, t, ReserveTry(id, k, seats, j + 1)).(events := s.events[k := e.(data := e.data[i := e.reservations])])
  {
  }

  lemma TakeStep(s: State, t: nat, s': State)
    requires Finds(s, t) && Legal(s.log) && StepReserve(s, t) == Some(s')
    requires s.threads[t].ReserveTry? && s'.threads[t].ReserveTry?
    ensures EventStep(s, s', t, s.threads[t].k)
  {
    var k, j, seats := s.threads[t].k, s.threads[t].j, s.threads[t].seats;
    TakeOutcome(s, t, s');
    assert PassesAt(Abs(s)[k], seats, j);
    TakeSeat(Abs(s)[k], seats, j);
    WriteStep(s, t, ReserveTry(s.threads[t].id, k, seats, j + 1), s'.events[k], s');
  }

  lemma GrantStep(s: State, t: nat, s': State)
    requires Finds(s, t) && Legal(s.log) && StepReserve(s, t) == Some(s')
    requires s.threads[t].ReserveTry? && s'.threads[t].ReserveEventOut?
    ensures EventStep(s, s', t, s.threads[t].k)
  {
    var id, k, seats := s.threads[t].id, s.threads[t].k, s.threads[t].seats;
    FoundAtIff(s.events, id, k);
    var e := Reserved(id, k, seats, true);
    LogSnoc(s.log, e);
    HalfOfAll(Abs(s)[k], seats);
    assert s' == Note(To(s, t, ReserveEventOut(id, k, seats)), t, AskReserve(id, seats), e);
    NoteStep(s, t, ReserveEventOut(id, k, seats), AskReserve(id, seats), e, Granted(Abs(s)[k], seats), s');
  }

  lemma RefuseStep(s: State, t: nat, s': State)
    requires Finds(s, t) && Legal(s.log) && StepReserve(s, t) == Some(s')
    requires s.threads[t].ReserveTry? && s'.threads[t].ReserveDrop?
    ensures EventStep(s, s', t, s.threads[t].k)
  {
    var id, k, j, seats := s.threads[t].id, s.threads[t].k, s.threads[t].j, s.threads[t].seats;
    assert !PassesAt(Abs(s)[k], seats, j);
    FoundAtIff(s.events, id, k);
    var e := Reserved(id, k, seats, false);
    LogSnoc(s.log, e);
    assert s' == Note(To(s, t, ReserveDrop(id, k, seats, j)), t, AskReserve(id, seats), e);
    NoteStep(s, t, ReserveDrop(id, k, seats, j), AskReserve(id, seats), e, Abs(s)[k], s');
  }

  lemma DropStep(s: State, t: nat, s': State)
    requires Finds(s, t) && Legal(s.log) && StepReserve(s, t) == Some(s') && s.threads[t].ReserveDrop?
    ensures EventStep(s, s', t, s.threads[t].k)
  {
    var k, n, seats := s.threads[t].k, s.threads[t].n, s.threads[t].seats;
    var e := Abs(s)[k];
    assert seats[..0] == [];
    MarkedNothing(Marked(e.data, e.cols, seats[..n], NextId(e)), e.cols, 0);
    WriteStep(s, t, ReserveUndo(s.threads[t].id, k, seats, n, 0), s'.events[k], s');
  }

  lemma UndoSeat(e: EventState, seats: seq<Seat>, n: nat, j: nat)
    requires Shaped(e) && j < n <= |seats| && PassesAt(e, seats, j)
    ensures var u, i := Undone(e, seats[..n], seats[..j]), SeatIndex(e.cols, seats[j]);
      0 <= i < |u| && Undone(e, seats[..n], seats[..j + 1]) == u[i := 0]
  {
    MarkedSnoc(Marked(e.data, e.cols, seats[..n], NextId(e)), e.rows, e.cols, seats[..j], seats[j], 0);
    assert seats[..j] + [seats[j]] == seats[..j + 1];
  }

  lemma UndoStep(s: State, t: nat, s': State)
    requires Finds(s, t) && Legal(s.log) && StepReserve(s, t) == Some(s')
    requires s.threads[t].ReserveUndo? && s'.threads[t].ReserveUndo?
    ensures EventStep(s, s', t, s.threads[t].k)
  {
    var k, n, j, seats := s.threads[t].k, s.threads[t].n, s.threads[t].j, s.threads[t].seats;
    assert PassesAt(Abs(s)[k], seats, j);
    UndoSeat(Abs(s)[k], seats, n, j);
    WriteStep(s, t, ReserveUndo(s.threads[t].id, k, seats, n, j + 1), s'.events[k], s');
  }

  lemma RestKeptEvent(s: State, t: nat, s': State)
    requires Inv(s) && t < |s.threads| && StepReserve(s, t) == Some(s') && Locks(s')
    requires HasEventWrite(s.threads[t]) && HasEventWrite(s'.threads[t]) && !s'.threads[t].ReserveFailOut?
    ensures Rest(s')
  {
    FindsOwn(s, t);
    EventStepHolds(s, t, s');
    EventStepRest(s, s', t, s.threads[t].k);
  }

  lemma EventStepHolds(s: State, t: nat, s': State)
    requires Finds(s, t) && Legal(s.log) && StepReserve(s, t) == Some(s')
    requires HasEventWrite(s'.threads[t]) && !s'.threads[t].ReserveFailOut?
    ensures EventStep(s, s', t, s.threads[t].k) && SameWriters(s, s', t)
    ensures HasSeatWrite(s.threads[t]) || s'.events[s.threads[t].k].data == s.events[s.threads[t].k].data
  {
    var pc := s.threads[t];
    if pc.ReserveBump? {
      BumpStep(s, t, s');
    } else if pc.ReserveSeat? {
      SeatStep(s, t, s');
    } else if pc.ReserveDrop? {
      DropStep(s, t, s');
    } else if pc.ReserveUndo? {
      UndoStep(s, t, s');
    } else if s'.threads[t].ReserveTry? {
      TakeStep(s, t, s');
    } else if s'.threads[t].ReserveDrop? {
      RefuseStep(s, t, s');
    } else {
      GrantStep(s, t, s');
    }
  }

  /** The roll back is over: the event is as the request found it. */
  lemma UndoneStep(s: State, t: nat)
    requires Finds(s, t) && s.threads[t].ReserveUndo? && s.threads[t].j == s.threads[t].n
    ensures var k := s.threads[t].k; k < |s.events| && s.events[k] == Abs(s)[k]
  {
    var k, n, seats := s.threads[t].k, s.threads[t].n, s.threads[t].seats;
    PassedPrefix(Abs(s)[k], seats, n);
    UndoneRestores(Abs(s)[k], seats[..n]);
  }

  lemma RestKeptUndone(s: State, t: nat, s': State)
    requires Inv(s) && t < |s.threads| && StepReserve(s, t) == Some(s') && Locks(s')
    requires s.threads[t].ReserveUndo? && s'.threads[t].ReserveFailOut?
    ensures Rest(s')
  {
    FindsOwn(s, t);
    UndoneStep(s, t);
    UndoneRest(s, t, s');
  }

  lemma UndoneRest(s: State, t: nat, s': State)
    requires Inv(s) && Locks(s') && t < |s.threads| && s.threads[t].ReserveUndo?
    requires |s'.threads| == |s.threads| && s'.threads[t].ReserveFailOut? && s'.threads[t].k == s.threads[t].k
    requires s' == To(s, t, s'.threads[t]).(seat := Unwritten(s.seat))
    requires var k := s.threads[t].k; k < |s.events| && s.events[k] == Abs(s)[k]
    ensures Rest(s')
  {
    assert ThreadHolds(s, t);
    ReserveMemory(s, s', t, s.threads[t].k);
    ThreadsMove(s, s', t);
    OutputKept(s, s', t);
  }

  // ----- SHOW -----

  /** The text of the grid grows by one cell, or by the newline at the end of a row. */
  lemma GridGrows(what: Entry, i: nat, j: nat)
    requires WellShown(what) && i < what.rows && j <= what.cols
    ensures j < what.cols ==>
      && i * what.cols + j < |what.data|
      && GridSoFar(what, i, j + 1) == GridSoFar(what, i, j) + CellText(what.cols, what.data[i * what.cols + j], j)
    ensures j == what.cols ==> GridSoFar(what, i + 1, 0) == GridSoFar(what, i, j) + "\n"
  {
    if j < what.cols {
      CellInGrid(what.rows, what.cols, i, j);
    }
  }

  lemma GridEnds(what: Entry)
    requires WellShown(what)
    ensures GridSoFar(what, 0, 0) == "" && GridSoFar(what, what.rows, 0) == EntryText(what)
  {
  }

  /** What a step of SHOW or LIST may do: leave events and sequential store as they are, and let the
      output be, move a piece of it into the file, or finish it. */
  ghost predicate JobStep(s: State, s': State, t: nat) {
    && t < |s.threads| == |s'.threads|
    && s'.threads == s.threads[t := s'.threads[t]]
    && (Showing(s'.threads[t]) || Listing(s'.threads[t]) || s'.threads[t].Leave?)
    && s'.events == s.events && |s.events| == |Abs(s)| && Abs(s') == Abs(s)
    && s.log <= s'.log && Legal(s'.log)
    && s'.seat.writer == s.seat.writer && s'.event == s.event
    && ThreadOk(s', s'.threads[t])
    && (LeavesFile(s, s', t) || Writes(s, s', t) || Finishes(s, s', t))
  }

  ghost predicate LeavesFile(s: State, s': State, t: nat)
    requires t < |s.threads| && t < |s'.threads|
  {
    && s'.out == s.out && s'.outputs == s.outputs
    && (s'.file == s.file || (s.file.None? && s'.file == Some(t) && WrittenBy(s'.threads[t]) == ""))
    && (s.file == Some(t) ==> WrittenBy(s'.threads[t]) == WrittenBy(s.threads[t]))
  }

  ghost predicate Writes(s: State, s': State, t: nat)
    requires t < |s.threads| && t < |s'.threads|
  {
    && s.out <= s'.out && s'.outputs == s.outputs
    && s.file == s'.file == Some(t)
    && WrittenBy(s'.threads[t]) == WrittenBy(s.threads[t]) + s'.out[|s.out|..]
  }

  ghost predicate Finishes(s: State, s': State, t: nat)
    requires t < |s.threads| && t < |s'.threads|
  {
    && s.file == Some(t) && s'.file.None? && s'.out == s.out
    && (s.threads[t].ShowEnd? || s.threads[t].ListEnd?)
    && var what := s.threads[t].job.what;
    && s'.outputs == s.outputs + [what] && what in s.log
    && WrittenBy(s.threads[t]) == EntryText(what)
  }

  lemma JobStepOutput(s: State, s': State, t: nat)
    requires Locks(s) && Locks(s') && Output(s) && JobStep(s, s', t)
    requires forall e :: e in s.outputs ==> e in s.log
    ensures Output(s')
    ensures forall e :: e in s'.outputs ==> e in s.log
  {
    if LeavesFile(s, s', t) {
      OutputKept(s, s', t);
    } else if Writes(s, s', t) {
      OutputWritten(s, s', t, s'.out[|s.out|..]);
    } else {
      OutputDone(s, s', t, s.threads[t].job.what);
    }
  }

  lemma JobStepRest(s: State, s': State, t: nat)
    requires Inv(s) && Locks(s') && JobStep(s, s', t) && (Showing(s.threads[t]) || Listing(s.threads[t]))
    ensures Rest(s')
  {
    assert forall e :: e in s.log ==> e in s'.log;
    JobStepOutput(s, s', t);
    QuietStep(s, s', t);
  }

  lemma SameOk(s: State, s': State, pc: PC)
    requires |Abs(s)| == |s.events| && s' == s.(threads := s'.threads) && ThreadOk(s, pc)
    ensures |Abs(s')| == |s'.events| && ThreadOk(s', pc)
  {
  }

  /** What a thread may rely on while it shows or lists. */
  ghost predicate Relies(s: State, t: nat) {
    && |Abs(s)| == |s.events| && t < |s.threads| && Legal(s.log)
    && ThreadOk(s, s.threads[t])
    && (HasFile(s.threads[t]) <==> s.file == Some(t))
  }

  /** With the seat lock free of writers the grid in memory is the grid of the sequential store. */
  lemma SeatsSettled(s: State, k: nat)
    requires Memory(s) && k < |s.events| && s.seat.writer.None?
    ensures s.events[k].data == Abs(s)[k].data
    ensures s.events[k].rows == Abs(s)[k].rows && s.events[k].cols == Abs(s)[k].cols
    ensures |s.events[k].data| == s.events[k].rows * s.events[k].cols
  {
    assert EventMatches(s, k);
    assert Shaped(Abs(s)[k]);
  }

  lemma ShowSeatStep(s: State, t: nat, m: nat, s': State)
    requires Relies(s, t) && Memory(s) && StepShow(s, t, m) == Some(s') && s.threads[t].ShowSeat?
    ensures JobStep(s, s', t)
  {
    var id, k := s.threads[t].id, s.threads[t].k;
    SeatsSettled(s, k);
    SameIds(s);
    FoundAtIff(s.events, id, k);
    var what := Shown(id, k, s.events[k].rows, s.events[k].cols, s.events[k].data);
    LogSnoc(s.log, what);
    ShowSeatMoves(s, t, what, s');
  }

  lemma ShowSeatMoves(s: State, t: nat, what: Entry, s': State)
    requires Relies(s, t) && s.threads[t].ShowSeat? && WellShown(what) && what.k < |s.events|
    requires s.events[what.k].rows == what.rows && s.events[what.k].cols == what.cols
    requires s.events[what.k].data == what.data
    requires Legal(s.log + [what]) && AbsOf(s.log + [what]) == Abs(s)
    requires s' == Note(To(s, t, ShowCell(Job(what, "", "", false), 0, 0)).(seat := Reading(s.seat, t)),
                        t, AskShow(what.id), what)
    ensures JobStep(s, s', t)
  {
    FreshJob(s', what);
    assert s'.threads[t] == ShowCell(Job(what, "", "", false), 0, 0);
  }

  lemma FreshJob(s: State, what: Entry)
    requires WellShown(what) && what in s.log && what.k < |s.events|
    requires s.events[what.k].rows == what.rows && s.events[what.k].cols == what.cols
    requires s.events[what.k].data == what.data
    ensures GridJob(s, Job(what, "", "", false), 0, 0)
  {
    GridEnds(what);
  }

  /** One cell more in the buffer. */
  lemma ShowCellGrows(s: State, job: Job, i: nat, j: nat)
    requires |Abs(s)| == |s.events| && GridJob(s, job, i, j) && i < job.what.rows && j < job.what.cols
    ensures i * job.what.cols + j < |s.events[job.what.k].data|
    ensures GridJob(s, AddCell(s, job, i, j), i, j + 1)
  {
    GridGrows(job.what, i, j);
    GridJobGrows(s, job, i, j, CellText(job.what.cols, job.what.data[i * job.what.cols + j], j));
  }

  lemma GridJobGrows(s: State, job: Job, i: nat, j: nat, text: string)
    requires |Abs(s)| == |s.events| && GridJob(s, job, i, j) && i < job.what.rows && j < job.what.cols
    requires GridSoFar(job.what, i, j + 1) == GridSoFar(job.what, i, j) + text
    ensures GridJob(s, job.(buf := job.buf + text), i, j + 1)
  {
    Appended(job.written, job.buf, text);
  }

  ghost function AddCell(s: State, job: Job, i: nat, j: nat): Job
    requires job.what.Shown? && job.what.k < |s.events|
    requires i * job.what.cols + j < |s.events[job.what.k].data|
  {
    job.(buf := job.buf + CellText(job.what.cols, s.events[job.what.k].data[i * job.what.cols + j], j))
  }

  /** Where the thread stands afterwards: at the next cell, or at a flush before it. */
  ghost predicate CellDone(pc: PC, job: Job, i: nat, j: nat) {
    || pc == ShowCell(job, i, j)
    || (pc == ShowFlush(job, i, j) && job.locked)
    || (pc == ShowFlushLock(job, i, j) && !job.locked)
  }

  lemma ShowCellOutcome(s: State, t: nat, m: nat, s': State)
    requires t < |s.threads| && StepShow(s, t, m) == Some(s') && s.threads[t].ShowCell?
    requires var pc := s.threads[t];
      && pc.job.what.Shown? && pc.job.what.k < |s.events| && s.events[pc.job.what.k].cols == pc.job.what.cols
      && pc.i < s.events[pc.job.what.k].rows && pc.j < pc.job.what.cols
      && pc.i * pc.job.what.cols + pc.j < |s.events[pc.job.what.k].data|
    ensures |s'.threads| == |s.threads| && s' == To(s, t, s'.threads[t])
    ensures var pc := s.threads[t]; CellDone(s'.threads[t], AddCell(s, pc.job, pc.i, pc.j), pc.i, pc.j + 1)
  {
  }

  /** A thread moves on and touches nothing but its own position. */
  lemma TurnStep(s: State, t: nat, pc: PC, s': State)
    requires Relies(s, t) && s' == To(s, t, pc) && (Showing(pc) || Listing(pc)) && ThreadOk(s, pc)
    requires s.file == Some(t) ==> WrittenBy(pc) == WrittenBy(s.threads[t])
    ensures JobStep(s, s', t)
  {
    SameOk(s, s', pc);
    assert s'.threads[t] == pc;
  }

  lemma CellDoneOk(s: State, pc: PC, job: Job, i: nat, j: nat)
    requires |Abs(s)| == |s.events| && CellDone(pc, job, i, j) && GridJob(s, job, i, j)
    requires !job.locked ==> job.written == ""
    ensures ThreadOk(s, pc) && Showing(pc) && (job.written == WrittenBy(pc) || !job.locked)
  {
  }

  lemma ShowCellMoves(s: State, t: nat, pc: PC, job: Job, i: nat, j: nat, s': State)
    requires Relies(s, t) && s.threads[t].ShowCell? && CellDone(pc, job, i, j) && GridJob(s, job, i, j)
    requires job.locked == s.threads[t].job.locked && job.written == s.threads[t].job.written
    requires s' == To(s, t, pc)
    ensures JobStep(s, s', t)
  {
    CellDoneOk(s, pc, job, i, j);
    TurnStep(s, t, pc, s');
  }

  lemma ShowCellStep(s: State, t: nat, m: nat, s': State)
    requires Relies(s, t) && StepShow(s, t, m) == Some(s') && s.threads[t].ShowCell?
    requires var pc := s.threads[t]; pc.job.what.Shown? && pc.i < pc.job.what.rows && pc.j < pc.job.what.cols
    ensures JobStep(s, s', t)
  {
    var pc := s.threads[t];
    CellInGrid(pc.job.what.rows, pc.job.what.cols, pc.i, pc.j);
    ShowCellOutcome(s, t, m, s');
    ShowCellThen(s, t, pc.job, pc.i, pc.j, s');
  }

  lemma ShowCellThen(s: State, t: nat, job: Job, i: nat, j: nat, s': State)
    requires Relies(s, t) && s.threads[t] == ShowCell(job, i, j) && |s'.threads| == |s.threads|
    requires job.what.Shown? && i < job.what.rows && j < job.what.cols
    requires job.what.k < |s.events| && i * job.what.cols + j < |s.events[job.what.k].data|
    requires s' == To(s, t, s'.threads[t]) && CellDone(s'.threads[t], AddCell(s, job, i, j), i, j + 1)
    ensures JobStep(s, s', t)
  {
    ShowCellGrows(s, job, i, j);
    ShowCellMoves(s, t, s'.threads[t], AddCell(s, job, i, j), i, j + 1, s');
  }

  lemma ShowRowGrows(s: State, job: Job, i: nat, j: nat)
    requires |Abs(s)| == |s.events| && GridJob(s, job, i, j) && i < job.what.rows && j >= job.what.cols
    ensures GridJob(s, job.(buf := job.buf + "\n"), i + 1, 0)
  {
    GridGrows(job.what, i, j);
    Appended(job.written, job.buf, "\n");
  }

  lemma ShowRowStep(s: State, t: nat, m: nat, s': State)
    requires Relies(s, t) && StepShow(s, t, m) == Some(s') && s.threads[t].ShowCell?
    requires var pc := s.threads[t]; pc.job.what.Shown? && pc.i < pc.job.what.rows && pc.j >= pc.job.what.cols
    ensures JobStep(s, s', t)
  {
    var pc := s.threads[t];
    var job := pc.job.(buf := pc.job.buf + "\n");
    ShowRowGrows(s, pc.job, pc.i, pc.j);
    TurnStep(s, t, ShowCell(job, pc.i + 1, 0), s');
  }

  lemma ShowLastStep(s: State, t: nat, m: nat, s': State)
    requires Relies(s, t) && StepShow(s, t, m) == Some(s') && s.threads[t].ShowCell?
    requires var pc := s.threads[t]; pc.job.what.Shown? && pc.i >= pc.job.what.rows
    ensures JobStep(s, s', t)
  {
    var pc := s.threads[t];
    ShowLastJob(s, pc.job, pc.i, pc.j);
    ShowTurn(s, t, pc.job, s');
  }

  lemma ShowLastJob(s: State, job: Job, i: nat, j: nat)
    requires |Abs(s)| == |s.events| && GridJob(s, job, i, j) && i >= job.what.rows
    ensures LastJob(s, job)
  {
    GridEnds(job.what);
  }

  /** The text is complete: the thread gives up the seat lock and goes on to its last write. */
  lemma ShowTurn(s: State, t: nat, job: Job, s': State)
    requires Relies(s, t) && LastJob(s, job) && s.threads[t].ShowCell? && s.threads[t].job == job
    requires s' == To(s, t, if job.locked then ShowEnd(job) else ShowEndLock(job)).(seat := Unread(s.seat, t))
    ensures JobStep(s, s', t)
  {
    assert s'.threads == s.threads[t := s'.threads[t]];
  }

  /** The thread takes the file mutex, with nothing written yet. */
  lemma FileTaken(s: State, t: nat, pc': PC, s': State)
    requires Relies(s, t) && s.file.None? && (Showing(pc') || Listing(pc')) && WrittenBy(pc') == ""
    requires ThreadOk(s, pc') && s' == To(s, t, pc').(file := Some(t))
    ensures JobStep(s, s', t)
  {
    assert ThreadOk(s', pc');
  }

  lemma ShowLockStep(s: State, t: nat, m: nat, s': State)
    requires Relies(s, t) && StepShow(s, t, m) == Some(s')
    requires s.threads[t].ShowFlushLock? || s.threads[t].ShowEndLock?
    ensures JobStep(s, s', t)
  {
    var pc := s.threads[t];
    FileTaken(s, t, if pc.ShowFlushLock? then ShowFlush(pc.job, pc.i, pc.j) else ShowEnd(pc.job), s');
  }

  /** A write call takes `m` characters of the buffer. */
  lemma PieceWritten(s: State, job: Job, m: nat)
    requires 1 <= m <= |job.buf|
    ensures var (s1, job1) := WriteSome(s, job, m);
      && job1.written + job1.buf == job.written + job.buf && job1.what == job.what
      && s.out <= s1.out && s1.out[|s.out|..] == job.buf[..m]
  {
    assert job.buf == job.buf[..m] + job.buf[m..];
    Appended(job.written, job.buf[..m], job.buf[m..]);
  }

  /** The thread at `pc` goes to `pc'` having written a piece. */
  lemma PieceStep(s: State, t: nat, pc': PC, job: Job, m: nat)
    requires Relies(s, t) && HasFile(s.threads[t]) && 1 <= m <= |job.buf|
    requires Showing(pc') || Listing(pc')
    requires WrittenBy(s.threads[t]) == job.written && WrittenBy(pc') == WriteSome(s, job, m).1.written
    requires ThreadOk(To(WriteSome(s, job, m).0, t, pc'), pc')
    ensures JobStep(s, To(WriteSome(s, job, m).0, t, pc'), t)
  {
    PieceWritten(s, job, m);
  }

  lemma ShowPieceStep(s: State, t: nat, m: nat, s': State)
    requires Relies(s, t) && StepShow(s, t, m) == Some(s')
    requires var pc := s.threads[t]; (pc.ShowFlush? || pc.ShowEnd?) && pc.job.buf != ""
    ensures JobStep(s, s', t)
  {
    var pc := s.threads[t];
    PieceWritten(s, pc.job, m);
    var job1 := WriteSome(s, pc.job, m).1;
    PieceStep(s, t, if pc.ShowFlush? then ShowFlush(job1, pc.i, pc.j) else ShowEnd(job1), pc.job, m);
  }

  lemma ShowFlushStep(s: State, t: nat, m: nat, s': State)
    requires Relies(s, t) && StepShow(s, t, m) == Some(s')
    requires var pc := s.threads[t]; pc.ShowFlush? && pc.job.buf == ""
    ensures JobStep(s, s', t)
  {
    var pc := s.threads[t];
    TurnStep(s, t, ShowCell(pc.job.(locked := true), pc.i, pc.j), s');
  }

  lemma ShowEndStep(s: State, t: nat, m: nat, s': State)
    requires Relies(s, t) && StepShow(s, t, m) == Some(s')
    requires var pc := s.threads[t]; pc.ShowEnd? && pc.job.buf == ""
    ensures JobStep(s, s', t)
  {
  }

  lemma ShowInside(s: State, t: nat, m: nat, s': State)
    requires Relies(s, t) && StepShow(s, t, m) == Some(s') && s.threads[t].ShowCell?
    ensures JobStep(s, s', t)
  {
    var pc := s.threads[t];
    if pc.i >= pc.job.what.rows {
      ShowLastStep(s, t, m, s');
    } else if pc.j < pc.job.what.cols {
      ShowCellStep(s, t, m, s');
    } else {
      ShowRowStep(s, t, m, s');
    }
  }

  lemma RestKeptShow(s: State, t: nat, m: nat, s': State)
    requires Inv(s) && t < |s.threads| && StepShow(s, t, m) == Some(s') && Locks(s')
    ensures Rest(s')
  {
    assert ThreadInv(s, t);
    assert ThreadHolds(s, t);
    var pc := s.threads[t];
    if pc.ShowSeat? {
      ShowSeatStep(s, t, m, s');
    } else if pc.ShowCell? {
      ShowInside(s, t, m, s');
    } else if (pc.ShowFlush? || pc.ShowEnd?) && pc.job.buf != "" {
      ShowPieceStep(s, t, m, s');
    } else if pc.ShowFlush? {
      ShowFlushStep(s, t, m, s');
    } else if pc.ShowEnd? {
      ShowEndStep(s, t, m, s');
    } else {
      ShowLockStep(s, t, m, s');
    }
    JobStepRest(s, s', t);
  }

  // ----- LIST -----

  lemma ListGrows(ids: seq<nat>, n: nat)
    requires n < |ids|
    ensures ListSoFar(ids, n + 1) == ListSoFar(ids, n) + LineText(ids[n])
  {
    assert ids[..n + 1][..n] == ids[..n];
  }

  lemma ListEnds(ids: seq<nat>)
    ensures ListSoFar(ids, |ids|) == ListText(ids)
    ensures ListSoFar(ids, 0) == if ids == [] then "No events\n" else ""
  {
    assert ids[..|ids|] == ids;
  }

  lemma ListStarts(s: State)
    requires Memory(s) && Legal(s.log)
    ensures Legal(s.log + [Listed(IdsOf(s.events))]) && AbsOf(s.log + [Listed(IdsOf(s.events))]) == Abs(s)
    ensures ListSoFar(IdsOf(s.events), 0) == if s.events == [] then "No events\n" else ""
  {
    SameIds(s);
    LogSnoc(s.log, Listed(IdsOf(s.events)));
    ListEnds(IdsOf(s.events));
    assert IdsOf(s.events) == [] <==> s.events == [];
  }

  lemma ListListStep(s: State, t: nat, m: nat, s': State)
    requires Relies(s, t) && Memory(s) && StepList(s, t, m) == Some(s') && s.threads[t].ListList?
    ensures JobStep(s, s', t)
  {
    ListStarts(s);
    ListMoves(s, t, s');
  }

  lemma ListMoves(s: State, t: nat, s': State)
    requires Relies(s, t) && s.threads[t].ListList?
    requires var what := Listed(IdsOf(s.events));
      && Legal(s.log + [what]) && AbsOf(s.log + [what]) == Abs(s)
      && s' == Note(To(s, t, ListLine(Job(what, "", ListSoFar(what.ids, 0), false), 0)).(
           list := Reading(s.list, t)), t, AskList, what)
    ensures JobStep(s, s', t)
  {
  }

  lemma ListLineGrows(s: State, job: Job, n: nat)
    requires |Abs(s)| == |s.events| && ListJob(s, job, n) && n < |s.events|
    ensures ListJob(s, job.(buf := job.buf + LineText(s.events[n].id)), n + 1)
  {
    ListGrows(job.what.ids, n);
    Appended(job.written, job.buf, LineText(s.events[n].id));
  }

  lemma ListLineStep(s: State, t: nat, m: nat, s': State)
    requires Relies(s, t) && StepList(s, t, m) == Some(s') && s.threads[t].ListLine?
    requires s.threads[t].n < |s.events|
    ensures JobStep(s, s', t)
  {
    var pc := s.threads[t];
    var job := pc.job.(buf := pc.job.buf + LineText(s.events[pc.n].id));
    ListLineGrows(s, pc.job, pc.n);
    TurnStep(s, t, LineDone(job, pc.n + 1), s');
  }

  /** Where a thread goes with one line more in its buffer. */
  function LineDone(job: Job, n: nat): PC {
    if !NearlyFull(job.buf) then ListLine(job, n)
    else if job.locked then ListFlush(job, n)
    else ListFlushLock(job, n)
  }

  lemma ListLastStep(s: State, t: nat, m: nat, s': State)
    requires Relies(s, t) && StepList(s, t, m) == Some(s') && s.threads[t].ListLine?
    requires s.threads[t].n >= |s.events|
    ensures JobStep(s, s', t)
  {
    var job := s.threads[t].job;
    ListLastJob(s, job);
    TurnStep(s, t, if job.locked then ListEnd(job) else ListEndLock(job), s');
  }

  lemma ListLastJob(s: State, job: Job)
    requires |Abs(s)| == |s.events| && ListJob(s, job, |s.events|)
    ensures LastJob(s, job)
  {
    ListEnds(job.what.ids);
  }

  lemma ListLockStep(s: State, t: nat, m: nat, s': State)
    requires Relies(s, t) && StepList(s, t, m) == Some(s')
    requires s.threads[t].ListFlushLock? || s.threads[t].ListEndLock?
    ensures JobStep(s, s', t)
  {
    var pc := s.threads[t];
    FileTaken(s, t, if pc.ListFlushLock? then ListFlush(pc.job, pc.n) else ListEnd(pc.job), s');
  }

  lemma ListPieceStep(s: State, t: nat, m: nat, s': State)
    requires Relies(s, t) && StepList(s, t, m) == Some(s')
    requires var pc := s.threads[t]; (pc.ListFlush? || pc.ListEnd?) && pc.job.buf != ""
    ensures JobStep(s, s', t)
  {
    var pc := s.threads[t];
    PieceWritten(s, pc.job, m);
    var job1 := WriteSome(s, pc.job, m).1;
    PieceStep(s, t, if pc.ListFlush? then ListFlush(job1, pc.n) else ListEnd(job1), pc.job, m);
  }

  lemma ListFlushStep(s: State, t: nat, m: nat, s': State)
    requires Relies(s, t) && StepList(s, t, m) == Some(s')
    requires var pc := s.threads[t]; pc.ListFlush? && pc.job.buf == ""
    ensures JobStep(s, s', t)
  {
    var pc := s.threads[t];
    TurnStep(s, t, ListLine(pc.job.(locked := true), pc.n), s');
  }

  lemma ListEndStep(s: State, t: nat, m: nat, s': State)
    requires Relies(s, t) && StepList(s, t, m) == Some(s')
    requires var pc := s.threads[t]; pc.ListEnd? && pc.job.buf == ""
    ensures JobStep(s, s', t)
  {
  }

  lemma ListOutStep(s: State, t: nat, m: nat, s': State)
    requires Relies(s, t) && StepList(s, t, m) == Some(s') && s.threads[t].ListOut?
    ensures JobStep(s, s', t)
  {
  }

  lemma RestKeptList(s: State, t: nat, m: nat, s': State)
    requires Inv(s) && t < |s.threads| && StepList(s, t, m) == Some(s') && Locks(s')
    ensures Rest(s')
  {
    assert ThreadInv(s, t);
    assert ThreadHolds(s, t);
    var pc := s.threads[t];
    if pc.ListList? {
      ListListStep(s, t, m, s');
    } else if pc.ListLine? && pc.n < |s.events| {
      ListLineStep(s, t, m, s');
    } else if pc.ListLine? {
      ListLastStep(s, t, m, s');
    } else if (pc.ListFlush? || pc.ListEnd?) && pc.job.buf != "" {
      ListPieceStep(s, t, m, s');
    } else if pc.ListFlush? {
      ListFlushStep(s, t, m, s');
    } else if pc.ListEnd? {
      ListEndStep(s, t, m, s');
    } else if pc.ListOut? {
      ListOutStep(s, t, m, s');
    } else {
      ListLockStep(s, t, m, s');
    }
    JobStepRest(s, s', t);
  }

  // ----- All steps -----

  /** Every step of every thread keeps the invariant. */
  lemma StepKeepsInv(s: State, t: nat, req: Request, m: nat, s': State)
    requires Inv(s) && t < |s.threads| && Step(s, t, req, m) == Some(s')
    ensures Inv(s')
  {
    LocksKept(s, t, req, m, s');
    var pc := s.threads[t];
    if pc.Idle? {
      RestKeptBegin(s, t, req, s');
    } else if pc.Leave? {
      RestKeptLeave(s, t, s');
    } else if pc.FindSearch? {
      RestKeptSearch(s, t, s');
    } else if Finding(pc) {
      RestKeptEnter(s, t, s');
    } else if pc.CreateList? {
      RestKeptCreate(s, t, s');
    } else if pc.CreateAppend? {
      RestKeptAppend(s, t, s');
    } else if Showing(pc) {
      RestKeptShow(s, t, m, s');
    } else if Listing(pc) {
      RestKeptList(s, t, m, s');
    } else {
      RestKeptReserve(s, t, s');
    }
  }

  lemma RestKeptReserve(s: State, t: nat, s': State)
    requires Inv(s) && t < |s.threads| && StepReserve(s, t) == Some(s') && Locks(s')
    ensures Rest(s')
  {
    var pc := s.threads[t];
    if pc.ReserveEvent? || pc.ReserveFailOut? || pc.ReserveEventOut? || pc.ReserveSeatOut? {
      RestKeptTurn(s, t, s');
    } else if s'.threads[t].ReserveFailOut? {
      RestKeptUndone(s, t, s');
    } else {
      RestKeptEvent(s, t, s');
    }
  }

  lemma NextKeepsInv(s: State, s': State)
    requires Inv(s) && Next(s, s')
    ensures Inv(s')
  {
    var t, req, m :| 0 <= t < |s.threads| && Step(s, t, req, m) == Some(s');
    StepKeepsInv(s, t, req, m, s');
  }

  lemma Inductive()
    ensures forall s :: IsInit(s) ==> Inv(s)
    ensures forall s, s' :: Inv(s) && Next(s, s') ==> Inv(s')
  {
    forall s | IsInit(s)
      ensures Inv(s)
    {
      var n: nat :| s == Init(n);
      InitInv(n);
    }
    forall s, s' | Inv(s) && Next(s, s')
      ensures Inv(s')
    {
      NextKeepsInv(s, s');
    }
  }

  /** The invariant holds in every state of every run. */
  lemma RunInv(run: seq<State>, i: nat)
    requires Run(run) && i < |run|
    ensures Inv(run[i])
  {
    Inductive();
    Runs.Invariant(IsInit, Next, Inv, run, i);
  }
}
