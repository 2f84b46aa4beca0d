/** What a job of Part 1 does as a whole: its commands run as if one after the other, each once, in an
    order in which nothing crosses a barrier; its output file holds their outputs, each once. */
module JobExecutionTheorems {
  import opened Seating
  import opened JobGrammar
  import opened JobStoreHistories
  import opened JobExecutions
  import opened JobExecutionOutputs
  import JobRounds
  import JobRoundTheorems
  import JobStore
  import JobStoreTheorems
  import JobStoreMeaning
  import Store
  import StoreMeaning
  import GridTexts
  import Runs

  // ----- The operations of commands -----

  /** The commands that use the store. */
  predicate IsOperation(c: Command) { c.Create? || c.Reserve? || c.Show? || c.ListEvents? }

  /** The entry is an outcome of the command. */
  ghost predicate OutcomeOf(c: Command, e: JobStore.Entry) {
    match c
    case Create(id, rows, cols) => e == JobStore.Created(id, rows, cols) || e == JobStore.Refused(id)
    case Reserve(id, seats) => (e.Reserved? && e.id == id && e.seats == seats) || e == JobStore.Missing(id)
    case Show(id) => (e.Shown? && e.id == id) || e == JobStore.Missing(id)
    case ListEvents => e.Listed?
    case _ => false
  }

  lemma RequestMeans(c: Command)
    ensures RequestOf(c).Some? <==> IsOperation(c)
    ensures forall e :: RequestOf(c).Some? && Answers(RequestOf(c).value, e) <==> OutcomeOf(c, e)
  {
  }

  // ----- Barriers -----

  lemma BarrierBetween(claims: seq<JobRounds.Claim>, x: nat, y: nat, b: nat)
    requires y <= b < x && b < |claims| && claims[b].cmd.Barrier?
    ensures !MayPrecede(claims, x, y)
  {
  }

  lemma OrderAtBarrier(claims: seq<JobRounds.Claim>, order: seq<nat>, b: nat, p: nat, q: nat)
    requires p < |order| && q < |order| && order[p] <= b < order[q] && b < |claims| && claims[b].cmd.Barrier?
    requires forall i, j :: 0 <= i < j < |order| ==> MayPrecede(claims, order[i], order[j])
    ensures p < q
  {
    BarrierBetween(claims, order[q], order[p], b);
  }

  /** Whatever a command up to a barrier does to the store happens before anything a command after the
      barrier does. */
  lemma BarrierOrdersEffects(run: seq<State>, i: nat, b: nat, p: nat, q: nat)
    requires Run(run) && i < |run| && b < |run[i].rounds.claims| && run[i].rounds.claims[b].cmd.Barrier?
    requires p < |run[i].order| && q < |run[i].order| && run[i].order[p] <= b < run[i].order[q]
    ensures p < q
  {
    RunInv(run, i);
    OrderAtBarrier(run[i].rounds.claims, run[i].order, b, p, q);
  }

  /** The same holds of their outputs in the file. */
  lemma BarrierOrdersOutputs(run: seq<State>, i: nat, b: nat, p: nat, q: nat)
    requires Run(run) && i < |run| && b < |run[i].rounds.claims| && run[i].rounds.claims[b].cmd.Barrier?
    requires p < |run[i].written| && q < |run[i].written| && run[i].written[p] <= b < run[i].written[q]
    ensures p < q
  {
    RunOutputs(run, i);
    OrderAtBarrier(run[i].rounds.claims, run[i].written, b, p, q);
  }

  /** Once a command after a barrier has been taken, every operation up to the barrier has taken effect
      and has written its output. */
  lemma BarrierCompletes(run: seq<State>, i: nat, a: nat, b: nat, c: nat)
    requires Run(run) && i < |run| && a <= b < c < |run[i].rounds.claims| && run[i].rounds.claims[b].cmd.Barrier?
    ensures IsOperation(run[i].rounds.claims[a].cmd) ==> a in run[i].order
    ensures PrintsFor(run[i], a) ==> a in run[i].written
  {
    RunOutputs(run, i);
    var s := run[i];
    RequestMeans(s.rounds.claims[a].cmd);
    assert JobRounds.ClaimOk(s.rounds, a) && JobRounds.ClaimOk(s.rounds, b);
    assert ClaimFits(s, a) && WrittenFits(s, a);
  }

  // ----- The finished job -----

  /** No barrier of the file lies between `x` and an earlier or the same command `y`. */
  ghost predicate InBarrierOrder(cmds: seq<Command>, x: nat, y: nat) {
    x != y && forall b :: y <= b < x && b < |cmds| ==> !cmds[b].Barrier?
  }

  /** The log holds the outcome of each command of the file that uses the store, once, in an order that
      crosses no barrier. */
  ghost predicate Schedule(cmds: seq<Command>, order: seq<nat>, log: seq<JobStore.Entry>) {
    && |order| == |log|
    && (forall n: nat :: n in order <==> n < |cmds| && IsOperation(cmds[n]))
    && (forall i :: 0 <= i < |order| ==> order[i] < |cmds| && OutcomeOf(cmds[order[i]], log[i]))
    && (forall i, j :: 0 <= i < j < |order| ==> InBarrierOrder(cmds, order[i], order[j]))
  }

  ghost predicate WrittenAt(order: seq<nat>, log: seq<JobStore.Entry>, n: nat, e: JobStore.Entry) {
    exists i: nat :: i < |order| && i < |log| && order[i] == n && log[i] == e
  }

  /** The command has something to print: a LIST, or a SHOW whose id is in the store by then. */
  ghost predicate HasOutput(c: Command, before: seq<EventState>) {
    c.ListEvents? || (c.Show? && Store.HasId(before, c.id))
  }

  /** The outputs are those of all commands that have something to print, each once, in an order that
      crosses no barrier. */
  ghost predicate Printout(cmds: seq<Command>, order: seq<nat>, log: seq<JobStore.Entry>,
                           written: seq<nat>, outputs: seq<JobStore.Entry>) {
    && |written| == |outputs|
    && (forall i :: 0 <= i < |order| && i < |log| && order[i] < |cmds| ==>
          (order[i] in written <==> HasOutput(cmds[order[i]], JobStore.AbsOf(log[..i]))))
    && (forall j :: 0 <= j < |written| && j < |outputs| ==> WrittenAt(order, log, written[j], outputs[j]))
    && (forall i, j :: 0 <= i < j < |written| ==> InBarrierOrder(cmds, written[i], written[j]))
  }

  lemma {:induction false} CommandAt(claims: seq<JobRounds.Claim>, n: nat)
    requires n < |claims|
    ensures n < |JobRounds.CommandsOf(claims)| == |claims| && JobRounds.CommandsOf(claims)[n] == claims[n].cmd
  {
    var front := claims[..|claims| - 1];
    if n < |front| {
      CommandAt(front, n);
    } else if front != [] {
      CommandAt(front, |front| - 1);
    }
  }

  lemma CommandsAt(claims: seq<JobRounds.Claim>)
    ensures |JobRounds.CommandsOf(claims)| == |claims|
    ensures forall n :: 0 <= n < |claims| ==> JobRounds.CommandsOf(claims)[n] == claims[n].cmd
  {
    if claims != [] {
      CommandAt(claims, 0);
    }
    forall n | 0 <= n < |claims|
      ensures JobRounds.CommandsOf(claims)[n] == claims[n].cmd
    {
      CommandAt(claims, n);
    }
  }

  /** What the rounds of a finished job look like. */
  ghost predicate Finished(r: JobRounds.State, cmds: seq<Command>) {
    && |cmds| == |r.claims|
    && (forall n :: 0 <= n < |cmds| ==> r.claims[n].cmd == cmds[n] && n in r.done)
    && (forall t :: 0 <= t < |r.threads| ==> r.threads[t].Exited?)
  }

  lemma JobFinished(r: JobRounds.State)
    requires JobRounds.Inv(r) && r.main == JobRounds.Main.Finished
    ensures Finished(r, ParseAll(Part1, r.file))
  {
    assert JobRounds.ThreadOk(r, 0);
    assert ParseAll(Part1, r.rest) == [];
    CommandsAt(r.claims);
    forall n | 0 <= n < |r.claims|
      ensures n in r.done
    {
      JobRounds.AllDone(r, n);
    }
  }

  lemma JobScheduled(s: State, cmds: seq<Command>)
    requires Fits(s) && Finished(s.rounds, cmds)
    ensures Schedule(cmds, s.order, s.store.log)
  {
    forall n: nat
      ensures n in s.order <==> n < |cmds| && IsOperation(cmds[n])
    {
      assert ClaimFits(s, n);
      if n < |cmds| {
        RequestMeans(cmds[n]);
      }
    }
    forall i | 0 <= i < |s.order|
      ensures s.order[i] < |cmds| && OutcomeOf(cmds[s.order[i]], s.store.log[i])
    {
      assert EntryFits(s, i);
      RequestMeans(cmds[s.order[i]]);
    }
    forall i, j | 0 <= i < j < |s.order|
      ensures InBarrierOrder(cmds, s.order[i], s.order[j])
    {
      assert MayPrecede(s.rounds.claims, s.order[i], s.order[j]);
    }
  }

  lemma EntryPrinted(s: State, cmds: seq<Command>, i: nat)
    requires Fits(s) && Outputs(s) && Finished(s.rounds, cmds) && i < |s.order|
    ensures s.order[i] in s.written <==> Prints(s.store.log[i])
  {
    assert EntryFits(s, i);
    assert WrittenFits(s, s.order[i]);
    assert EntryAt(s, i, s.order[i], s.store.log[i]);
    EffectOnce(s, s.order[i], s.store.log[i]);
  }

  /** An outcome prints if and only if its command has something to print. */
  lemma PrintsIff(log: seq<JobStore.Entry>, i: nat, c: Command)
    requires JobStore.Legal(log) && i < |log| && OutcomeOf(c, log[i])
    ensures Prints(log[i]) <==> HasOutput(c, JobStore.AbsOf(log[..i]))
  {
    JobStoreTheorems.LegalAt(log, i);
    JobStoreMeaning.AfterMeans(JobStore.AbsOf(log[..i]), log[i]);
  }

  lemma JobPrinted(s: State, cmds: seq<Command>)
    requires Fits(s) && Outputs(s) && Finished(s.rounds, cmds) && JobStore.Legal(s.store.log)
    requires Schedule(cmds, s.order, s.store.log)
    ensures Printout(cmds, s.order, s.store.log, s.written, s.store.outputs)
  {
    forall i | 0 <= i < |s.order|
      ensures s.order[i] in s.written <==> HasOutput(cmds[s.order[i]], JobStore.AbsOf(s.store.log[..i]))
    {
      EntryPrinted(s, cmds, i);
      PrintsIff(s.store.log, i, cmds[s.order[i]]);
    }
    OutputsWritten(s, cmds);
  }

  lemma OutputsWritten(s: State, cmds: seq<Command>)
    requires Fits(s) && Outputs(s) && Finished(s.rounds, cmds)
    ensures forall j :: 0 <= j < |s.written| ==> WrittenAt(s.order, s.store.log, s.written[j], s.store.outputs[j])
    ensures forall i, j :: 0 <= i < j < |s.written| ==> InBarrierOrder(cmds, s.written[i], s.written[j])
  {
    forall j | 0 <= j < |s.written|
      ensures WrittenAt(s.order, s.store.log, s.written[j], s.store.outputs[j])
    {
      assert OutputFits(s, j);
      var i: nat :| EntryAt(s, i, s.written[j], s.store.outputs[j]);
    }
    forall i, j | 0 <= i < j < |s.written|
      ensures InBarrierOrder(cmds, s.written[i], s.written[j])
    {
      assert MayPrecede(s.rounds.claims, s.written[i], s.written[j]);
    }
  }

  /** When no thread runs an operation, no lock of the store is held. */
  lemma QuietStore(s: State)
    requires Fits(s) && JobStore.Locks(s.store)
    requires forall t :: 0 <= t < |s.rounds.threads| ==> s.rounds.threads[t].Exited?
    ensures s.store.event.writer.None? && s.store.seat.writer.None? && s.store.file.None?
  {
    forall u: nat
      ensures s.store.event.writer != Some(u) && s.store.seat.writer != Some(u) && s.store.file != Some(u)
    {
      assert JobStore.ThreadHolds(s.store, u);
      assert ThreadFits(s, u);
    }
  }

  lemma QuietMemory(s: JobStore.State)
    requires JobStore.Inv(s) && s.event.writer.None? && s.seat.writer.None? && s.file.None?
    ensures s.events == JobStore.AbsOf(s.log) && s.out == JobStore.TextsOf(s.outputs)
  {
    forall k | 0 <= k < |s.events|
      ensures s.events[k] == JobStore.Abs(s)[k]
    {
      assert JobStore.EventMatches(s, k);
    }
  }

  /** A job that has finished did what its commands do one after the other, each once, in some order
      in which nothing crosses a barrier: memory is the outcome of that sequential execution, and the
      file holds exactly the outputs of its SHOWs and LISTs. */
  lemma FinishedJobIsSequential(run: seq<State>, i: nat)
    requires Run(run) && i < |run| && run[i].rounds.main == JobRounds.Main.Finished
    ensures var (s, cmds) := (run[i], ParseAll(Part1, run[i].rounds.file));
      && Schedule(cmds, s.order, s.store.log)
      && JobStore.Legal(s.store.log)
      && s.store.events == JobStore.AbsOf(s.store.log)
      && Printout(cmds, s.order, s.store.log, s.written, s.store.outputs)
      && s.store.out == JobStore.TextsOf(s.store.outputs)
  {
    RunOutputs(run, i);
    var s, cmds := run[i], ParseAll(Part1, run[i].rounds.file);
    JobFinished(s.rounds);
    JobScheduled(s, cmds);
    JobPrinted(s, cmds);
    QuietStore(s);
    QuietMemory(s.store);
  }

  /** In rows and columns: in the end each event has the id and size of the CREATE that made it, and each
      of its seats the number of the last granted RESERVE that named it; and the file is made of texts
      that read back as the grids and lists their commands found. */
  lemma FinishedJobMeans(run: seq<State>, i: nat)
    requires Run(run) && i < |run| && run[i].rounds.main == JobRounds.Main.Finished
    ensures StoreMeaning.Means(JobStoreMeaning.FactsOf(run[i].store.log), run[i].store.events)
    ensures run[i].store.out == JobStore.TextsOf(run[i].store.outputs)
    ensures forall e :: e in run[i].store.outputs ==>
      && (e.Shown? ==> GridTexts.ShowsGrid(JobStore.EntryText(e), e.rows, e.cols, e.data))
      && (e.Listed? ==> GridTexts.ShowsList(JobStore.EntryText(e), e.ids))
  {
    FinishedJobIsSequential(run, i);
    RunInv(run, i);
    var log := run[i].store.log;
    JobStoreMeaning.LogMeans(log);
    forall e | e in run[i].store.outputs
      ensures e.Shown? ==> GridTexts.ShowsGrid(JobStore.EntryText(e), e.rows, e.cols, e.data)
      ensures e.Listed? ==> GridTexts.ShowsList(JobStore.EntryText(e), e.ids)
    {
      EntryReadBack(log, e);
    }
  }

  lemma EntryReadBack(log: seq<JobStore.Entry>, e: JobStore.Entry)
    requires JobStore.Legal(log) && e in log
    ensures e.Shown? ==> GridTexts.ShowsGrid(JobStore.EntryText(e), e.rows, e.cols, e.data)
    ensures e.Listed? ==> GridTexts.ShowsList(JobStore.EntryText(e), e.ids)
  {
    var n :| 0 <= n < |log| && log[n] == e;
    JobStoreTheorems.LegalAt(log, n);
    JobStoreMeaning.AfterMeans(JobStore.AbsOf(log[..n]), e);
    if e.Shown? || e.Listed? {
      JobStoreMeaning.OutputReadBack(e);
    }
  }

  // ----- Progress -----

  lemma OperationProgress(s: State, t: nat) returns (u: nat)
    requires Inv(s) && t < |s.store.threads| && !s.store.threads[t].Idle?
    ensures u < |s.rounds.threads| && Step(s, u, 1).Some?
  {
    u := JobStoreTheorems.UnblockedThread(s.store, t, JobStore.AskList);
    assert ThreadFits(s, u);
  }

  /** A thread at a command that is not in the store can call its operation or end the command. */
  lemma IdleProgress(s: State, t: nat)
    requires t < |s.rounds.threads| == |s.store.threads| && s.rounds.threads[t].Running? && s.store.threads[t].Idle?
    ensures Step(s, t, 1).Some?
  {
  }

  lemma RunningProgress(s: State, t: nat) returns (u: nat)
    requires Inv(s) && t < |s.rounds.threads| && s.rounds.threads[t].Running?
    ensures u < |s.rounds.threads| && Step(s, u, 1).Some?
  {
    if s.store.threads[t].Idle? {
      u := t;
      IdleProgress(s, t);
    } else {
      u := OperationProgress(s, t);
    }
  }

  lemma WorkerProgress(s: State, t: nat) returns (u: nat)
    requires Inv(s) && t < |s.rounds.threads| && JobRounds.StepThread(s.rounds, t).Some?
    ensures u < |s.rounds.threads| && Step(s, u, 1).Some?
  {
    if s.rounds.threads[t].Running? {
      u := RunningProgress(s, t);
    } else {
      u := t;
    }
  }

  lemma StepIsNext(s: State, t: nat, m: nat) returns (s': State)
    requires t < |s.rounds.threads| && Step(s, t, m).Some?
    ensures Next(s, s')
  {
    s' := Step(s, t, m).value;
  }

  lemma SomeoneSteps(s: State) returns (s': State)
    requires Inv(s) && s.rounds.main != JobRounds.Main.Finished
    ensures Next(s, s')
  {
    if JobRounds.StepMain(s.rounds).Some? {
      s' := s.(rounds := JobRounds.StepMain(s.rounds).value);
    } else {
      var t := JobRoundTheorems.AbleWorker(s.rounds);
      var u := WorkerProgress(s, t);
      s' := StepIsNext(s, u, 1);
    }
  }

  /** Until the job is finished somebody can step: waiting for the parser, for the locks of the store,
      for the file and for a barrier never add up to a deadlock. */
  lemma AlwaysProgress(run: seq<State>, i: nat) returns (s': State)
    requires Run(run) && i < |run| && run[i].rounds.main != JobRounds.Main.Finished
    ensures Next(run[i], s')
  {
    RunInv(run, i);
    s' := SomeoneSteps(run[i]);
  }
}
