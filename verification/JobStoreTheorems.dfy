/** What holds of Part 1's store and of its output file in every state of every run. */
module JobStoreTheorems {
  import opened Seating
  import opened Store
  import opened Rendering
  import opened JobStore
  import opened JobStoreSteps
  import Counting
  import Runs

  // ----- The log is a sequential execution -----

  lemma {:induction false} LegalAt(log: seq<Entry>, n: nat)
    requires Legal(log) && n < |log|
    ensures Follows(AbsOf(log[..n]), log[n])
  {
    var front := log[..|log| - 1];
    if n < |front| {
      LegalAt(front, n);
      assert front[..n] == log[..n];
    }
  }

  /** What each operation finds is what it would find running alone after the ones before it, and
      memory holds the outcome of all of them whenever no reservation is under way. */
  lemma RunIsSequential(run: seq<State>, i: nat, n: nat)
    requires Run(run) && i < |run|
    ensures n < |run[i].log| ==> Follows(AbsOf(run[i].log[..n]), run[i].log[n])
    ensures run[i].event.writer.None? && run[i].seat.writer.None? ==> run[i].events == AbsOf(run[i].log)
  {
    RunInv(run, i);
    var s := run[i];
    if n < |s.log| {
      LegalAt(s.log, n);
    }
    if s.event.writer.None? && s.seat.writer.None? {
      forall k | 0 <= k < |s.events|
        ensures s.events[k] == Abs(s)[k]
      {
        assert EventMatches(s, k);
      }
    }
  }

  // ----- SHOW is a snapshot -----

  /** While SHOW reads, the grid it reads does not change and holds whole, final reservations only:
      it is the grid of the sequential store. */
  lemma ShowReadsSnapshot(run: seq<State>, i: nat, t: nat)
    requires Run(run) && i < |run| && t < |run[i].threads| && HasSeatRead(run[i].threads[t])
    ensures var s, what := run[i], run[i].threads[t].job.what;
      && what.Shown? && what.k < |s.events| && what.k < |AbsOf(s.log)|
      && what.data == s.events[what.k].data == AbsOf(s.log)[what.k].data
      && what in s.log
  {
    RunInv(run, i);
    var s := run[i];
    assert ThreadInv(s, t);
    assert ThreadHolds(s, t);
    assert EventMatches(s, s.threads[t].job.what.k);
  }

  /** Every grid in the file is the grid as it was after some number of whole operations, however
      many threads were writing and rolling back meanwhile. */
  lemma ShowIsSnapshot(run: seq<State>, i: nat, what: Entry) returns (n: nat)
    requires Run(run) && i < |run| && what in run[i].outputs && what.Shown?
    ensures n < |run[i].log| && run[i].log[n] == what
    ensures var es := AbsOf(run[i].log[..n]);
      && FindId(IdsOf(es), what.id) == Some(what.k)
      && es[what.k].rows == what.rows && es[what.k].cols == what.cols
      && es[what.k].data == what.data
  {
    RunInv(run, i);
    n :| 0 <= n < |run[i].log| && run[i].log[n] == what;
    LegalAt(run[i].log, n);
  }

  // ----- The output file -----

  /** The file is a sequence of whole outputs, then the beginning of the one being flushed: chunks of
      two outputs never mix. Each output is the text of a SHOW or LIST of the sequential store. */
  lemma OutputsAreWhole(run: seq<State>, i: nat)
    requires Run(run) && i < |run|
    ensures TextsOf(run[i].outputs) <= run[i].out
    ensures run[i].file.None? ==> run[i].out == TextsOf(run[i].outputs)
    ensures forall what :: what in run[i].outputs ==> what in run[i].log
  {
    RunInv(run, i);
  }

  /** The part that is not whole yet is the beginning of a text that will be. */
  lemma OutputInProgress(run: seq<State>, i: nat, t: nat)
    requires Run(run) && i < |run| && run[i].file == Some(t)
    ensures t < |run[i].threads| && HasFile(run[i].threads[t])
    ensures var pc := run[i].threads[t];
      run[i].out == TextsOf(run[i].outputs) + WrittenBy(pc) && WrittenBy(pc) <= EntryText(pc.job.what)
  {
    RunInv(run, i);
    var s := run[i];
    assert ThreadHolds(s, t);
    assert ThreadInv(s, t);
    var pc := s.threads[t];
    assert WrittenBy(pc) <= WrittenBy(pc) + pc.job.buf;
    if pc.ShowFlush? || pc.ShowCell? {
      GridPrefix(pc.job.what, pc.i, pc.j);
    } else if pc.ListFlush? || pc.ListLine? {
      ListPrefix(pc.job.what.ids, pc.n);
    }
  }

  lemma {:induction false} ListPrefix(ids: seq<nat>, n: nat)
    requires n <= |ids|
    ensures ListSoFar(ids, n) <= ListText(ids)
    decreases |ids| - n
  {
    if n == |ids| {
      ListEnds(ids);
    } else {
      ListGrows(ids, n);
      ListPrefix(ids, n + 1);
    }
  }

  lemma {:induction false} GridPrefix(what: Entry, i: nat, j: nat)
    requires WellShown(what) && i <= what.rows && j <= what.cols && (j > 0 ==> i < what.rows)
    ensures GridSoFar(what, i, j) <= EntryText(what)
    decreases what.rows - i, what.cols - j
  {
    if i == what.rows {
      GridEnds(what);
    } else {
      GridGrows(what, i, j);
      if j < what.cols {
        GridPrefix(what, i, j + 1);
      } else {
        GridPrefix(what, i + 1, 0);
      }
    }
  }

  // ----- Reservation ids -----

  /** Requests of at least one seat, on grids of fewer than 2^32 seats. */
  ghost predicate ModestEntry(e: Entry) {
    && (e.Created? ==> e.rows * e.cols < UINT_RANGE)
    && (e.Reserved? ==> e.seats != [])
  }

  ghost predicate ModestLog(log: seq<Entry>) {
    forall n :: 0 <= n < |log| ==> ModestEntry(log[n])
  }

  lemma {:induction false} LogCounted(log: seq<Entry>)
    requires Legal(log) && ModestLog(log)
    ensures Counting.AllCounted(AbsOf(log))
  {
    if log != [] {
      var front, e := log[..|log| - 1], log[|log| - 1];
      LogCounted(front);
      assert ModestEntry(e);
      if e.Created? {
        Counting.EmptyCounted(e.id, e.rows, e.cols);
      } else if e.Reserved? && e.ok {
        Counting.InPlaceCounted(AbsOf(front)[e.k], e.seats);
      }
    } else {
      assert AbsOf(log) == [];
    }
  }

  /** Whenever no reservation is under way, the ids in each grid are exactly 1 to its counter, and no
      more reservations were granted than there are seats: rolled back ones leave no gap. */
  lemma JobCounts(run: seq<State>, i: nat, k: nat)
    requires Run(run) && i < |run| && k < |run[i].events| && ModestLog(run[i].log)
    ensures run[i].event.writer.None? && run[i].seat.writer.None? ==> Counting.Counted(run[i].events[k])
  {
    RunInv(run, i);
    LogCounted(run[i].log);
    RunIsSequential(run, i, 0);
  }

  // ----- Deadlock freedom -----

  ghost predicate Blocks(l: Lock, u: nat) { l.writer == Some(u) || u in l.readers }

  /** Thread `t` cannot go on before `u` releases a lock. */
  ghost predicate Waits(s: State, t: nat, u: nat) {
    && t < |s.threads| && u < |s.threads|
    && var pc := s.threads[t];
    if pc.FindList? || pc.ListList? then s.list.writer == Some(u)
    else if pc.CreateList? then Blocks(s.list, u)
    else if pc.FindEvent? then s.event.writer == Some(u)
    else if pc.ReserveEvent? then Blocks(s.event, u)
    else if pc.ReserveSeat? then Blocks(s.seat, u)
    else if pc.ShowSeat? then s.seat.writer == Some(u)
    else if pc.ShowFlushLock? || pc.ShowEndLock? || pc.ListFlushLock? || pc.ListEndLock? then s.file == Some(u)
    else false
  }

  /** Position in the lock order: the list, the event, the seats, the file, nothing to wait for. */
  function Rank(pc: PC): nat {
    if pc.FindList? || pc.ListList? || pc.CreateList? then 0
    else if pc.FindEvent? || pc.ReserveEvent? then 1
    else if pc.ReserveSeat? || pc.ShowSeat? then 2
    else if pc.ShowFlushLock? || pc.ShowEndLock? || pc.ListFlushLock? || pc.ListEndLock? then 3
    else 4
  }

  lemma WaitsClimb(s: State, t: nat, u: nat)
    requires Locks(s) && Waits(s, t, u)
    ensures Rank(s.threads[t]) < Rank(s.threads[u])
  {
    assert ThreadHolds(s, u);
  }

  /** Threads never wait for each other in a circle: three reader-writer locks and the file mutex are
      always taken in one order. */
  lemma NoWaitCycle(run: seq<State>, i: nat, c: seq<nat>)
    requires Run(run) && i < |run|
    ensures !Runs.WaitCycle((t: nat, u: nat) => Waits(run[i], t, u), c)
  {
    RunInv(run, i);
    var s := run[i];
    forall t: nat, u: nat | Waits(s, t, u)
      ensures Rank(s.threads[t]) < Rank(s.threads[u])
    {
      WaitsClimb(s, t, u);
    }
    Runs.NoCycle((t: nat, u: nat) => Waits(s, t, u), (t: nat) => if t < |s.threads| then Rank(s.threads[t]) else 0, c);
  }

  /** A seat that passed the check addresses a cell, so the undo loop stays inside the grid. */
  lemma UndoInside(s: State, t: nat)
    requires Inv(s) && t < |s.threads| && s.threads[t].ReserveUndo? && s.threads[t].j < s.threads[t].n
    ensures StepReserve(s, t).Some?
  {
    FindsOwn(s, t);
    var pc := s.threads[t];
    assert PassesAt(Abs(s)[pc.k], pc.seats, pc.j);
    UndoSeat(Abs(s)[pc.k], pc.seats, pc.n, pc.j);
  }

  lemma CellInside(s: State, t: nat)
    requires Inv(s) && t < |s.threads| && s.threads[t].ShowCell?
    ensures StepShow(s, t, 1).Some?
  {
    assert ThreadInv(s, t);
    var pc := s.threads[t];
    if pc.i < pc.job.what.rows && pc.j < pc.job.what.cols {
      CellInGrid(pc.job.what.rows, pc.job.what.cols, pc.i, pc.j);
    }
  }

  lemma ReserveSteps(s: State, t: nat)
    requires Inv(s) && t < |s.threads| && Rank(s.threads[t]) == 4
    requires HasEventWrite(s.threads[t]) || s.threads[t].ReserveSeatOut?
    ensures StepReserve(s, t).Some?
  {
    assert ThreadInv(s, t);
    var pc := s.threads[t];
    if pc.ReserveUndo? && pc.j < pc.n {
      UndoInside(s, t);
    }
  }

  lemma OutputSteps(s: State, t: nat)
    requires Inv(s) && t < |s.threads| && Rank(s.threads[t]) == 4
    ensures Showing(s.threads[t]) ==> StepShow(s, t, 1).Some?
    ensures Listing(s.threads[t]) ==> StepList(s, t, 1).Some?
  {
    if s.threads[t].ShowCell? {
      CellInside(s, t);
    }
  }

  lemma RunningSteps(s: State, t: nat, req: Request)
    requires Inv(s) && t < |s.threads| && Rank(s.threads[t]) == 4
    ensures Step(s, t, req, 1).Some?
  {
    assert ThreadInv(s, t);
    var pc := s.threads[t];
    if Showing(pc) || Listing(pc) {
      OutputSteps(s, t);
    } else if HasEventWrite(pc) || pc.ReserveSeatOut? {
      ReserveSteps(s, t);
    }
  }

  lemma LockFree(s: State, t: nat, req: Request)
    requires Inv(s) && t < |s.threads| && Rank(s.threads[t]) < 4
    ensures Step(s, t, req, 1).None? ==> exists u :: Waits(s, t, u)
  {
    assert ThreadInv(s, t);
    var pc := s.threads[t];
    if Step(s, t, req, 1).None? {
      if Rank(pc) == 3 {
        assert Waits(s, t, s.file.value);
      } else {
        var l := if Rank(pc) == 0 then s.list else if Rank(pc) == 1 then s.event else s.seat;
        var u := BlockerOf(l, |s.threads|);
        assert Waits(s, t, u);
      }
    }
  }

  lemma BlockerOf(l: Lock, n: nat) returns (u: nat)
    requires LockOk(l, n) && !CanWrite(l)
    ensures u < n && Blocks(l, u) && (!CanRead(l) ==> l.writer == Some(u))
  {
    if l.writer.Some? {
      u := l.writer.value;
    } else {
      u :| u in l.readers;
    }
  }

  lemma WaitingStops(s: State, t: nat, req: Request, u: nat)
    requires LockTable(s) && Waits(s, t, u)
    ensures Rank(s.threads[t]) < 4 && Step(s, t, req, 1).None?
  {
  }

  /** A thread stops only at a lock that somebody holds. */
  lemma StopsOnlyAtLocks(s: State, t: nat, req: Request)
    requires Inv(s) && t < |s.threads|
    ensures Step(s, t, req, 1).None? <==> exists u :: Waits(s, t, u)
  {
    if u: nat :| Waits(s, t, u) {
      WaitingStops(s, t, req, u);
    } else if Rank(s.threads[t]) == 4 {
      RunningSteps(s, t, req);
    } else {
      LockFree(s, t, req);
    }
  }

  /** While some operation is unfinished, some thread with an unfinished operation can step. */
  lemma AlwaysProgress(run: seq<State>, i: nat, t: nat, req: Request) returns (u: nat)
    requires Run(run) && i < |run| && t < |run[i].threads| && !run[i].threads[t].Idle?
    ensures u < |run[i].threads| && !run[i].threads[u].Idle? && Step(run[i], u, req, 1).Some?
  {
    RunInv(run, i);
    u := UnblockedThread(run[i], t, req);
  }

  lemma {:induction false} UnblockedThread(s: State, t: nat, req: Request) returns (u: nat)
    requires Inv(s) && t < |s.threads| && !s.threads[t].Idle?
    ensures u < |s.threads| && !s.threads[u].Idle? && Step(s, u, req, 1).Some?
    decreases 4 - Rank(s.threads[t])
  {
    StopsOnlyAtLocks(s, t, req);
    if Step(s, t, req, 1).Some? {
      u := t;
    } else {
      var v: nat :| Waits(s, t, v);
      WaitsClimb(s, t, v);
      assert ThreadHolds(s, v);
      u := UnblockedThread(s, v, req);
    }
  }
}
