/** Every job of Part 1 finishes: each step of a reader, an operation or an output uses something up. */
module JobTermination {
  import opened Seating
  import opened JobExecutions
  import opened JobExecutionTheorems
  import Counting
  import JobRounds
  import JobRoundTheorems
  import JobStore
  import JobStoreTheorems
  import Runs

  // ----- Operations -----

  /** How far an operation is from its end. */
  function Stage(pc: JobStore.PC): nat {
    match pc
    case FindList(_) => 16
    case FindEvent(_) => 15
    case FindSearch(_) => 14
    case CreateList(_) => 13
    case CreateAppend(_) => 12
    case ReserveEvent(_, _, _) => 13
    case ReserveBump(_, _, _) => 12
    case ReserveSeat(_, _, _) => 11
    case ReserveTry(_, _, _, _) => 10
    case ReserveDrop(_, _, _, _) => 9
    case ReserveUndo(_, _, _, _, _) => 8
    case ReserveFailOut(_, _, _) => 7
    case ReserveEventOut(_, _, _) => 7
    case ReserveSeatOut(_, _, _) => 6
    case ShowSeat(_, _) => 13
    case ShowCell(_, _, _) => 10
    case ShowFlushLock(_, _, _) => 10
    case ShowFlush(_, _, _) => 10
    case ShowEndLock(_) => 9
    case ShowEnd(_) => 8
    case ListList => 13
    case ListLine(_, _) => 10
    case ListFlushLock(_, _) => 10
    case ListFlush(_, _) => 10
    case ListEndLock(_) => 9
    case ListEnd(_) => 8
    case ListOut(_) => 7
    case Leave(_, _) => 1
    case Idle => 0
  }

  function Minus(a: nat, b: nat): nat { if b <= a then a - b else 0 }

  /** Characters of an output not yet in the file. */
  ghost function Unwritten(job: JobStore.Job): nat { Minus(|JobStore.EntryText(job.what)|, |job.written|) }

  /** Cells and line ends ahead of cell `j` of row `i`. */
  function CellsAhead(what: JobStore.Entry, i: nat, j: nat): nat {
    if what.Shown? then Minus(Minus(what.rows, i) * (what.cols + 1), j) else 0
  }

  function LinesAhead(what: JobStore.Entry, n: nat): nat { if what.Listed? then Minus(|what.ids|, n) else 0 }

  /** What an operation has left to do before its next stage. */
  ghost function Amount(pc: JobStore.PC): nat {
    match pc
    case ReserveTry(_, _, seats, j) => Minus(|seats|, j)
    case ReserveUndo(_, _, _, n, j) => Minus(n, j)
    case ShowCell(job, i, j) => 3 * CellsAhead(job.what, i, j) + Unwritten(job)
    case ShowFlushLock(job, i, j) => 3 * CellsAhead(job.what, i, j) + Unwritten(job) + 2
    case ShowFlush(job, i, j) => 3 * CellsAhead(job.what, i, j) + Unwritten(job) + 1
    case ShowEnd(job) => Unwritten(job)
    case ListLine(job, n) => 3 * LinesAhead(job.what, n) + Unwritten(job)
    case ListFlushLock(job, n) => 3 * LinesAhead(job.what, n) + Unwritten(job) + 2
    case ListFlush(job, n) => 3 * LinesAhead(job.what, n) + Unwritten(job) + 1
    case ListEnd(job) => Unwritten(job)
    case _ => 0
  }

  ghost predicate Nearer(pc: JobStore.PC, pc': JobStore.PC) {
    Stage(pc') < Stage(pc) || (Stage(pc') == Stage(pc) && Amount(pc') < Amount(pc))
  }

  ghost predicate PaysIn(s: JobStore.State, t: nat, s': JobStore.State) {
    && t < |s.threads| == |s'.threads| && s'.threads == s.threads[t := s'.threads[t]]
    && Nearer(s.threads[t], s'.threads[t])
  }

  lemma FindPays(s: JobStore.State, t: nat, s': JobStore.State)
    requires t < |s.threads| && JobStore.StepFind(s, t) == Some(s')
    ensures PaysIn(s, t, s')
  {
  }

  lemma CreatePays(s: JobStore.State, t: nat, s': JobStore.State)
    requires t < |s.threads| && JobStore.StepCreate(s, t) == Some(s')
    ensures PaysIn(s, t, s')
  {
  }

  lemma SeatPays(s: JobStore.State, t: nat, s': JobStore.State)
    requires t < |s.threads| && JobStore.StepReserve(s, t) == Some(s')
    requires s.threads[t].ReserveTry? || s.threads[t].ReserveDrop? || s.threads[t].ReserveUndo?
    ensures PaysIn(s, t, s')
  {
  }

  lemma LockPays(s: JobStore.State, t: nat, s': JobStore.State)
    requires t < |s.threads| && JobStore.StepReserve(s, t) == Some(s')
    requires !s.threads[t].ReserveTry? && !s.threads[t].ReserveDrop? && !s.threads[t].ReserveUndo?
    ensures PaysIn(s, t, s')
  {
  }

  lemma ReservePays(s: JobStore.State, t: nat, s': JobStore.State)
    requires t < |s.threads| && JobStore.StepReserve(s, t) == Some(s')
    ensures PaysIn(s, t, s')
  {
    if s.threads[t].ReserveTry? || s.threads[t].ReserveDrop? || s.threads[t].ReserveUndo? {
      SeatPays(s, t, s');
    } else {
      LockPays(s, t, s');
    }
  }

  /** A write puts at least one more character into the file, and never one too many. */
  lemma WritePays(s: JobStore.State, job: JobStore.Job, m: nat)
    requires 1 <= m <= |job.buf| && |job.written| + |job.buf| <= |JobStore.EntryText(job.what)|
    ensures var job1 := JobStore.WriteSome(s, job, m).1;
      job1.what == job.what && Unwritten(job1) < Unwritten(job)
  {
  }

  lemma CellPays(what: JobStore.Entry, i: nat, j: nat)
    requires what.Shown? && i < what.rows && j <= what.cols
    ensures j < what.cols ==> CellsAhead(what, i, j + 1) < CellsAhead(what, i, j)
    ensures j == what.cols ==> CellsAhead(what, i + 1, 0) < CellsAhead(what, i, j)
  {
    assert Minus(what.rows, i) == Minus(what.rows, i + 1) + 1;
    assert Minus(what.rows, i) * (what.cols + 1) == Minus(what.rows, i + 1) * (what.cols + 1) + (what.cols + 1);
  }

  lemma ShowCellPays(s: JobStore.State, t: nat, m: nat, s': JobStore.State)
    requires t < |s.threads| && s.threads[t].ShowCell? && JobStore.StepShow(s, t, m) == Some(s')
    requires var pc := s.threads[t]; JobStore.GridJob(s, pc.job, pc.i, pc.j)
    ensures PaysIn(s, t, s')
  {
    var pc := s.threads[t];
    if pc.i < pc.job.what.rows {
      CellPays(pc.job.what, pc.i, pc.j);
    }
  }

  /** Of an output, no more is ever written than there is. */
  ghost predicate WithinText(pc: JobStore.PC) {
    (pc.ShowFlush? || pc.ShowEnd? || pc.ListFlush? || pc.ListEnd?) ==>
      |pc.job.written| + |pc.job.buf| <= |JobStore.EntryText(pc.job.what)|
  }

  lemma ShowFilePays(s: JobStore.State, t: nat, m: nat, s': JobStore.State)
    requires t < |s.threads| && !s.threads[t].ShowCell? && JobStore.StepShow(s, t, m) == Some(s')
    requires WithinText(s.threads[t])
    ensures PaysIn(s, t, s')
  {
    var pc := s.threads[t];
    if (pc.ShowFlush? || pc.ShowEnd?) && pc.job.buf != "" {
      WritePays(s, pc.job, m);
    }
  }

  lemma ListLinePays(s: JobStore.State, t: nat, m: nat, s': JobStore.State)
    requires t < |s.threads| && s.threads[t].ListLine? && JobStore.StepList(s, t, m) == Some(s')
    requires var pc := s.threads[t]; JobStore.ListJob(s, pc.job, pc.n)
    ensures PaysIn(s, t, s')
  {
  }

  lemma ListFilePays(s: JobStore.State, t: nat, m: nat, s': JobStore.State)
    requires t < |s.threads| && !s.threads[t].ListLine? && JobStore.StepList(s, t, m) == Some(s')
    requires WithinText(s.threads[t])
    ensures PaysIn(s, t, s')
  {
    var pc := s.threads[t];
    if (pc.ListFlush? || pc.ListEnd?) && pc.job.buf != "" {
      WritePays(s, pc.job, m);
    }
  }

  lemma TextsFit(s: JobStore.State, t: nat)
    requires JobStore.Inv(s) && t < |s.threads|
    ensures WithinText(s.threads[t])
  {
    assert JobStore.ThreadInv(s, t);
    var pc := s.threads[t];
    if pc.ShowFlush? {
      JobStoreTheorems.GridPrefix(pc.job.what, pc.i, pc.j);
    } else if pc.ListFlush? {
      JobStoreTheorems.ListPrefix(pc.job.what.ids, pc.n);
    }
  }

  /** Every step of an operation brings it nearer to its end. */
  lemma OperationPays(s: JobStore.State, t: nat, req: JobStore.Request, m: nat, s': JobStore.State)
    requires JobStore.Inv(s) && t < |s.threads| && JobStore.Step(s, t, req, m) == Some(s') && !s.threads[t].Idle?
    ensures PaysIn(s, t, s')
  {
    TextsFit(s, t);
    assert JobStore.ThreadInv(s, t);
    var pc := s.threads[t];
    if pc.Leave? {
    } else if JobStore.Finding(pc) {
      FindPays(s, t, s');
    } else if JobStore.Creating(pc) {
      CreatePays(s, t, s');
    } else if pc.ShowCell? {
      ShowCellPays(s, t, m, s');
    } else if JobStore.Showing(pc) {
      ShowFilePays(s, t, m, s');
    } else if pc.ListLine? {
      ListLinePays(s, t, m, s');
    } else if JobStore.Listing(pc) {
      ListFilePays(s, t, m, s');
    } else {
      ReservePays(s, t, s');
    }
  }

  lemma BeginPays(s: JobStore.State, t: nat, req: JobStore.Request, m: nat, s': JobStore.State)
    requires t < |s.threads| && s.threads[t].Idle? && JobStore.Step(s, t, req, m) == Some(s')
    ensures |s'.threads| == |s.threads| && s'.threads == s.threads[t := s'.threads[t]]
    ensures Stage(s'.threads[t]) < 20
  {
  }

  // ----- The whole job -----

  ghost function Sum(threads: seq<JobStore.PC>, f: JobStore.PC -> nat): nat {
    if threads == [] then 0 else f(threads[0]) + Sum(threads[1..], f)
  }

  lemma {:induction false} SumUpdate(threads: seq<JobStore.PC>, t: nat, pc: JobStore.PC, f: JobStore.PC -> nat)
    requires t < |threads|
    ensures Sum(threads[t := pc], f) + f(threads[t]) == Sum(threads, f) + f(pc)
  {
    var after := threads[t := pc];
    if t == 0 {
      assert after[1..] == threads[1..];
    } else {
      assert after[1..] == threads[1..][t - 1 := pc];
      SumUpdate(threads[1..], t - 1, pc, f);
    }
  }

  /** Stages ahead of the commands taken, those not called yet included. */
  ghost function StagesAhead(s: State): nat {
    20 * Minus(|s.rounds.claims|, |s.called|) + Sum(s.store.threads, pc => Stage(pc))
  }

  ghost function AmountAhead(s: State): nat { Sum(s.store.threads, pc => Amount(pc)) }

  /** What is left to do in the rounds and, they being the same, in the operations. */
  ghost function Ahead(s: State): Runs.Budget {
    Runs.Budget(JobRoundTheorems.Measure(s.rounds), StagesAhead(s), AmountAhead(s))
  }

  ghost predicate Lower(s: State, s': State) { Runs.Lower(Ahead(s), Ahead(s')) }

  lemma Below(called: set<nat>, n: nat)
    requires forall k :: k in called ==> k < n
    ensures |called| <= n
  {
    if n > 0 {
      Counting.SubsetSize(called, Counting.Upto(n - 1));
    } else {
      assert called == {};
    }
  }

  /** A command is called once. */
  lemma CallPays(s: State, t: nat, n: nat, s': State)
    requires Fits(s) && n < |s.rounds.claims| && n !in s.called && t < |s.store.threads| == |s'.store.threads|
    requires s'.store.threads == s.store.threads[t := s'.store.threads[t]] && Stage(s'.store.threads[t]) < 20
    requires s'.rounds == s.rounds && s'.called == s.called + {n}
    ensures Lower(s, s')
  {
    forall k | k in s'.called
      ensures k < |s.rounds.claims|
    {
      assert ClaimFits(s, k);
    }
    Below(s'.called, |s.rounds.claims|);
    SumUpdate(s.store.threads, t, s'.store.threads[t], pc => Stage(pc));
  }

  lemma InsidePays(s: State, t: nat, n: nat, s': State)
    requires n in s.called && PaysIn(s.store, t, s'.store) && s'.rounds == s.rounds && s'.called == s.called + {n}
    ensures Lower(s, s')
  {
    assert s'.called == s.called;
    SumUpdate(s.store.threads, t, s'.store.threads[t], pc => Stage(pc));
    SumUpdate(s.store.threads, t, s'.store.threads[t], pc => Amount(pc));
  }

  lemma StorePays(s: State, t: nat, m: nat, s': State)
    requires Inv(s) && t < |s.rounds.threads| && Step(s, t, m) == Some(s')
    requires Asking(s, t).Some? && !Returned(s, t)
    ensures Lower(s, s')
  {
    var n, req := s.rounds.threads[t].n, Asking(s, t).value;
    assert ThreadFits(s, t);
    if s.store.threads[t].Idle? {
      BeginPays(s.store, t, req, m, s'.store);
      CallPays(s, t, n, s');
    } else {
      OperationPays(s.store, t, req, m, s'.store);
      InsidePays(s, t, n, s');
    }
  }

  lemma RoundsPay(s: State, s': State)
    requires JobRounds.Inv(s.rounds) && JobRounds.Next(s.rounds, s'.rounds)
    ensures Lower(s, s')
  {
    JobRoundTheorems.NextPays(s.rounds, s'.rounds);
    JobRounds.NextKeepsInv(s.rounds, s'.rounds);
    JobRoundTheorems.MeasureBounds(s'.rounds);
  }

  /** Every step of a job, in a round, an operation or an output, brings it nearer to its end. */
  lemma NextPays(s: State, s': State)
    requires Inv(s) && Next(s, s')
    ensures Lower(s, s')
  {
    if JobRounds.StepMain(s.rounds) == Some(s'.rounds) && s' == s.(rounds := s'.rounds) {
      RoundsPay(s, s');
    } else {
      var t, m :| 0 <= t < |s.rounds.threads| && Step(s, t, m) == Some(s');
      if Asking(s, t).None? || Returned(s, t) {
        assert JobRounds.StepThread(s.rounds, t) == Some(s'.rounds);
        RoundsPay(s, s');
      } else {
        StorePays(s, t, m, s');
      }
    }
  }

  // ----- Main result -----

  lemma GoesNearer(s: State, s': State)
    requires Inv(s) && Next(s, s')
    ensures Inv(s') && Lower(s, s')
  {
    NextPays(s, s');
    NextKeepsInv(s, s');
  }

  lemma Stops(f: nat -> State) returns (j: nat)
    requires Inv(f(0)) && forall k: nat :: Runs.GoesOn(Next, f, k)
    ensures Inv(f(j)) && Runs.Stuck(Next, f(j))
    ensures forall k :: 0 <= k < j ==> Next(f(k), f(k + 1))
  {
    forall s, s' | Inv(s) && Next(s, s')
      ensures Inv(s') && Lower(s, s')
    {
      GoesNearer(s, s');
    }
    j := Runs.GetsStuck(Next, Inv, s => Ahead(s), f, 0);
  }

  lemma FinishedOrNext(s: State)
    requires Inv(s) && s.rounds.main != JobRounds.Main.Finished
    ensures !Runs.Stuck(Next, s)
  {
    var s' := SomeoneSteps(s);
  }

  lemma RunUpTo(f: nat -> State, j: nat)
    requires IsInit(f(0)) && forall k :: 0 <= k < j ==> Next(f(k), f(k + 1))
    ensures Run(seq(j + 1, k requires 0 <= k <= j => f(k)))
  {
    var run := seq(j + 1, k requires 0 <= k <= j => f(k));
    forall i: nat
      ensures Runs.Linked(Next, run, i)
    {
    }
  }

  /** Every job finishes, for any file, any number of threads and any schedule that goes on while
      somebody can step; by FinishedJobIsSequential it has then done what its file says. */
  lemma EveryJobFinishes(f: nat -> State) returns (j: nat)
    requires IsInit(f(0)) && forall k: nat :: Runs.GoesOn(Next, f, k)
    ensures Run(seq(j + 1, k requires 0 <= k <= j => f(k)))
    ensures f(j).rounds.main == JobRounds.Main.Finished
  {
    var file, n: nat :| n > 0 && f(0) == Init(file, n);
    InitInv(file, n);
    j := Stops(f);
    RunUpTo(f, j);
    if f(j).rounds.main != JobRounds.Main.Finished {
      FinishedOrNext(f(j));
    }
  }
}
