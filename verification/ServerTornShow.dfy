/** SHOW of the server takes no lock while it reads, so it can report half of a reservation. */
module ServerTornShow {
  import opened Seating
  import opened Reservation
  import opened Store
  import opened Histories
  import opened ServerStore
  import Runs

  lemma Tick(s: State, t: nat, req: Request, s': State)
    requires t < |s.threads| && Step(s, t, req) == Some(s')
    ensures Runs.Path(Next, s, [s']) && Runs.End(s, [s']) == s'
  {
    assert Next(s, s');
  }

  lemma Then(s: State, ss: seq<State>, t: nat, req: Request, s': State) returns (more: seq<State>)
    requires Runs.Path(Next, s, ss)
    requires var e := Runs.End(s, ss); t < |e.threads| && Step(e, t, req) == Some(s')
    ensures Runs.Path(Next, s, more) && Runs.End(s, more) == s'
  {
    Tick(Runs.End(s, ss), t, req, s');
    Runs.PathJoin(Next, s, ss, [s']);
    more := ss + [s'];
  }

  const ROW := EventState(7, 1, 2, 0, [0, 0])
  const BOTH := [Seat(1, 1), Seat(1, 2)]
  const TAKE := Op.Reserve(7, BOTH)

  /** No lock held. */
  ghost predicate Unlocked(s: State) {
    s.writer.None? && s.readers == {} && forall k :: 0 <= k < |s.owner| ==> s.owner[k].None?
  }

  /** Thread `t` alone creates the row in an empty store. */
  lemma CreateRow(s: State, t: nat) returns (ss: seq<State>)
    requires t < |s.threads| && s.threads[t].Idle? && Unlocked(s) && s.events == [] && s.owner == []
    ensures Runs.Path(Next, s, ss)
    ensures var e := Runs.End(s, ss);
      Unlocked(e) && e.events == [ROW] && e.owner == [None] && e.threads == s.threads
  {
    var op := Op.Create(7, 1, 2);
    var s1 := To(Log(s, Call(t, op)), t, CreateLock(op));
    var s2 := To(s1, t, CreateSearch(op, 0)).(writer := Some(t));
    var s3 := To(s2, t, CreateAppend(op));
    var s4 := Log(To(s3, t, CreateUnlock(op, true)).(
      events := s3.events + [EmptyEvent(7, 1, 2)], owner := s3.owner + [None]), Effect(t, op, Status(true)));
    var s5 := To(s4, t, Leave(op, Status(true))).(writer := None);
    var s6 := Log(To(s5, t, Idle), Return(t, op, Status(true)));
    ss := Then(s, [], t, Linear(op), s1);
    ss := Then(s, ss, t, Dump, s2);
    ss := Then(s, ss, t, Dump, s3);
    ss := Then(s, ss, t, Dump, s4);
    ss := Then(s, ss, t, Dump, s5);
    ss := Then(s, ss, t, Dump, s6);
    assert EmptyEvent(7, 1, 2) == ROW;
  }

  /** The lookup of a SHOW or RESERVE of the row by thread `t`. */
  lemma LookUp(s: State, t: nat, req: Request) returns (ss: seq<State>)
    requires t < |s.threads| && s.threads[t] == FindLock(req) && req in {Show(7), Linear(TAKE)}
    requires Unlocked(s) && s.events == [ROW]
    ensures Runs.Path(Next, s, ss)
    ensures Runs.End(s, ss) == To(s, t, if req.Linear? then ReserveLock(TAKE, 0) else ShowRead(7, 0, [0, 0], []))
  {
    var s1 := To(s, t, FindSearch(req, 0)).(readers := s.readers + {t});
    var s2 := To(s1, t, FindUnlock(req, Some(0)));
    var s3 := To(s2.(readers := s2.readers - {t}), t,
                 if req.Linear? then ReserveLock(TAKE, 0) else ShowRead(7, 0, [0, 0], []));
    ss := Then(s, [], t, req, s1);
    ss := Then(s, ss, t, req, s2);
    ss := Then(s, ss, t, req, s3);
    assert s3.readers == s.readers;
    assert s3.threads == s.threads[t := s3.threads[t]];
  }

  /** One more seat read. */
  lemma ReadSeat(s: State, t: nat, got: seq<nat>, got': seq<nat>)
    requires t < |s.threads| && s.threads[t] == ShowRead(7, 0, [0, 0], got)
    requires s.events != [] && |got| < |s.events[0].data| && got' == got + [s.events[0].data[|got|]]
    ensures Runs.Path(Next, s, [To(s, t, ShowRead(7, 0, [0, 0], got'))])
  {
    assert StepShow(s, t) == Some(To(s, t, ShowRead(7, 0, [0, 0], got')));
    Tick(s, t, Dump, To(s, t, ShowRead(7, 0, [0, 0], got')));
  }

  /** Thread `t` looks the event up, and reads its first seat. */
  lemma ShowFirstSeat(s: State, t: nat) returns (ss: seq<State>)
    requires t < |s.threads| && s.threads[t].Idle? && Unlocked(s) && s.events == [ROW]
    ensures Runs.Path(Next, s, ss)
    ensures Runs.End(s, ss) == To(s, t, ShowRead(7, 0, [0, 0], [0]))
  {
    var s1 := To(s, t, FindLock(Show(7)));
    Tick(s, t, Show(7), s1);
    var found := LookUp(s1, t, Show(7));
    Runs.PathJoin(Next, s, [s1], found);
    var s2 := To(s1, t, ShowRead(7, 0, [0, 0], []));
    ReadSeat(s2, t, [], [0]);
    Runs.PathJoin(Next, s, [s1] + found, [To(s2, t, ShowRead(7, 0, [0, 0], [0]))]);
    ss := [s1] + found + [To(s2, t, ShowRead(7, 0, [0, 0], [0]))];
    assert s.threads[t := FindLock(Show(7))][t := ShowRead(7, 0, [0, 0], [])][t := ShowRead(7, 0, [0, 0], [0])] ==
      s.threads[t := ShowRead(7, 0, [0, 0], [0])];
  }

  /** Thread `t` looks the event up and takes its mutex. */
  lemma ReserveEnters(s: State, t: nat) returns (ss: seq<State>)
    requires t < |s.threads| && s.threads[t].Idle? && Unlocked(s) && s.events == [ROW] && s.owner == [None]
    ensures Runs.Path(Next, s, ss)
    ensures var e := Runs.End(s, ss);
      e.threads == s.threads[t := ReserveBounds(TAKE, 0)] && e.events == [ROW]
  {
    var s1 := To(Log(s, Call(t, TAKE)), t, FindLock(Linear(TAKE)));
    Tick(s, t, Linear(TAKE), s1);
    var found := LookUp(s1, t, Linear(TAKE));
    Runs.PathJoin(Next, s, [s1], found);
    var s2 := To(s1, t, ReserveLock(TAKE, 0));
    ss := Then(s, [s1] + found, t, Dump, To(s2, t, ReserveBounds(TAKE, 0)).(owner := s2.owner[0 := Some(t)]));
  }

  /** It finds the seats free, from cell `i` on. */
  lemma {:induction false} ReserveScans(s: State, t: nat, i: nat) returns (ss: seq<State>)
    requires t < |s.threads| && i <= 2 && s.threads[t] == ReserveScan(TAKE, 0, i) && s.events == [ROW]
    ensures Runs.Path(Next, s, ss)
    ensures var e := Runs.End(s, ss); e.threads == s.threads[t := ReserveBump(TAKE, 0)] && e.events == [ROW]
    decreases 2 - i
  {
    var s1 := To(s, t, if i < 2 then ReserveScan(TAKE, 0, i + 1) else ReserveBump(TAKE, 0));
    Tick(s, t, Dump, s1);
    if i < 2 {
      var more := ReserveScans(s1, t, i + 1);
      Runs.PathJoin(Next, s, [s1], more);
      ss := [s1] + more;
    } else {
      ss := [s1];
    }
  }

  lemma ReserveValidates(s: State, t: nat) returns (ss: seq<State>)
    requires t < |s.threads| && s.threads[t] == ReserveBounds(TAKE, 0) && s.events == [ROW]
    ensures Runs.Path(Next, s, ss)
    ensures var e := Runs.End(s, ss); e.threads == s.threads[t := ReserveBump(TAKE, 0)] && e.events == [ROW]
  {
    var s1 := To(s, t, ReserveScan(TAKE, 0, 0));
    Tick(s, t, Dump, s1);
    var more := ReserveScans(s1, t, 0);
    Runs.PathJoin(Next, s, [s1], more);
    ss := [s1] + more;
  }

  /** The state after the counter of the first event has gone up. */
  function Bumped(s: State, t: nat, op: Op): State
    requires t < |s.threads| && s.events != []
  {
    To(s, t, ReserveWrite(op, 0, 0)).(
      events := s.events[0 := s.events[0].(reservations := NextId(s.events[0]))])
  }

  lemma Bumps(s: State, t: nat, op: Op)
    requires t < |s.threads| && s.threads[t] == ReserveBump(op, 0) && s.events != []
    ensures Runs.Path(Next, s, [Bumped(s, t, op)])
  {
    assert StepReserve(s, t) == Some(Bumped(s, t, op));
    Tick(s, t, Dump, Bumped(s, t, op));
  }

  /** Thread `t` writes seat `j` of the two. */
  lemma WriteSeat(s: State, t: nat, j: nat, data: seq<nat>, s': State)
    requires t < |s.threads| && j < 2 && s.threads[t] == ReserveWrite(TAKE, 0, j) && |data| == 2
    requires s.events == [EventState(7, 1, 2, 1, data)]
    requires s' == To(s, t, ReserveWrite(TAKE, 0, j + 1)).(events := [EventState(7, 1, 2, 1, data[j := 1])])
    ensures Runs.Path(Next, s, [s'])
  {
    assert s.events[0 := EventState(7, 1, 2, 1, data[j := 1])] == s'.events;
    Tick(s, t, Dump, s');
  }

  /** And writes them. */
  lemma ReserveWrites(s: State, t: nat) returns (ss: seq<State>)
    requires t < |s.threads| && s.threads[t] == ReserveWrite(TAKE, 0, 0)
    requires s.events == [EventState(7, 1, 2, 1, [0, 0])]
    ensures Runs.Path(Next, s, ss)
    ensures Runs.End(s, ss) ==
      To(s, t, ReserveWrite(TAKE, 0, 2)).(events := [EventState(7, 1, 2, 1, [1, 1])])
  {
    var s1 := To(s, t, ReserveWrite(TAKE, 0, 1)).(events := [EventState(7, 1, 2, 1, [1, 0])]);
    assert [0, 0][0 := 1] == [1, 0] && [1, 0][1 := 1] == [1, 1];
    WriteSeat(s, t, 0, [0, 0], s1);
    var s2 := To(s1, t, ReserveWrite(TAKE, 0, 2)).(events := [EventState(7, 1, 2, 1, [1, 1])]);
    WriteSeat(s1, t, 1, [1, 0], s2);
    Runs.PathJoin(Next, s, [s1], [s2]);
    ss := [s1] + [s2];
    assert s2.threads == s.threads[t := ReserveWrite(TAKE, 0, 2)];
  }

  lemma ReserveCommits(s: State, t: nat) returns (ss: seq<State>)
    requires t < |s.threads| && s.threads[t] == ReserveBump(TAKE, 0) && s.events == [ROW]
    ensures Runs.Path(Next, s, ss)
    ensures var e := Runs.End(s, ss);
      e.threads == s.threads[t := ReserveWrite(TAKE, 0, 2)] && e.events == [EventState(7, 1, 2, 1, [1, 1])]
  {
    Bumps(s, t, TAKE);
    var s1 := Bumped(s, t, TAKE);
    assert s1.events == [ROW.(reservations := NextId(ROW))];
    var more := ReserveWrites(s1, t);
    Runs.PathJoin(Next, s, [s1], more);
    ss := [s1] + more;
  }

  /** The whole reservation, up to the release of the mutex. */
  lemma ReserveAlone(s: State, t: nat) returns (ss: seq<State>)
    requires t < |s.threads| && s.threads[t].Idle? && Unlocked(s) && s.events == [ROW] && s.owner == [None]
    ensures Runs.Path(Next, s, ss)
    ensures var e := Runs.End(s, ss);
      e.threads == s.threads[t := ReserveWrite(TAKE, 0, 2)] && e.events == [EventState(7, 1, 2, 1, [1, 1])]
  {
    var a := ReserveEnters(s, t);
    var b := ReserveValidates(Runs.End(s, a), t);
    Runs.PathJoin(Next, s, a, b);
    var c := ReserveCommits(Runs.End(s, a + b), t);
    Runs.PathJoin(Next, s, a + b, c);
    ss := a + b + c;
  }

  lemma ShowSecondSeat(s: State, t: nat) returns (ss: seq<State>)
    requires s.events == [EventState(7, 1, 2, 1, [1, 1])]
    requires t < |s.threads| && s.threads[t] == ShowRead(7, 0, [0, 0], [0])
    ensures Runs.Path(Next, s, ss)
    ensures Runs.End(s, ss) == To(s, t, ShowRead(7, 0, [0, 0], [0, 1]))
  {
    ReadSeat(s, t, [0], [0, 1]);
    ss := [To(s, t, ShowRead(7, 0, [0, 0], [0, 1]))];
  }

  /** A SHOW can report the second of two seats reserved together and not the first: a grid that is
      neither the one before the reservation nor the one after it. */
  lemma ShowCanTear() returns (run: seq<State>)
    ensures Run(run)
    ensures var s := run[|run| - 1];
      && s.events == [EventState(7, 1, 2, 1, [1, 1])]
      && |s.threads| == 2 && s.threads[1] == ShowRead(7, 0, [0, 0], [0, 1])
  {
    var s := Init(2);
    var a := CreateRow(s, 0);
    var b := ShowFirstSeat(Runs.End(s, a), 1);
    Runs.PathJoin(Next, s, a, b);
    var c := ReserveAlone(Runs.End(s, a + b), 0);
    Runs.PathJoin(Next, s, a + b, c);
    var d := ShowSecondSeat(Runs.End(s, a + b + c), 1);
    Runs.PathJoin(Next, s, a + b + c, d);
    var all := a + b + c + d;
    assert IsInit(s);
    Runs.PathRun(IsInit, Next, [s], all);
    run := [s] + all;
    assert run[|run| - 1] == Runs.End(s, all);
  }
}
