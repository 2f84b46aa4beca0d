/** Ids in Part 1's store: what a lookup relies on, and when two events come to share an id. */
module JobStoreIds {
  import opened Seating
  import opened Reservation
  import opened Store
  import opened Histories
  import opened JobStore
  import opened JobStoreSteps
  import Runs

  // ----- Lookups are stable -----

  ghost predicate KeepsIds(s: State, s': State) { IdsOf(s.events) <= IdsOf(s'.events) }

  /** Only an append brings a new id; only a lookup that found nothing goes on to append. */
  ghost predicate IdStep(s: State, s': State, t: nat) {
    && t < |s.threads| == |s'.threads|
    && s'.threads == s.threads[t := s'.threads[t]]
    && (s.threads[t].CreateAppend? ==> s.threads[t].req.AskCreate? && s'.threads[t].Leave?)
    && IdsOf(s'.events) ==
      (if s.threads[t].CreateAppend? then IdsOf(s.events) + [s.threads[t].req.id] else IdsOf(s.events))
    && (s.threads[t].CreateList? ==> s'.threads[t] == CreateAppend(s.threads[t].req))
    && (Creating(s'.threads[t]) && s'.threads[t].req.AskCreate? ==>
          || s'.threads[t].req.id !in IdsOf(s.events)
          || (s.threads[t].CreateList? && s'.threads[t].req == s.threads[t].req))
  }

  lemma CreateIds(s: State, t: nat, s': State)
    requires t < |s.threads| && StepCreate(s, t) == Some(s')
    ensures IdStep(s, s', t)
  {
  }

  lemma ReserveOutcome(s: State, t: nat, s': State)
    requires t < |s.threads| && StepReserve(s, t) == Some(s')
    ensures |s'.threads| == |s.threads| && s'.threads == s.threads[t := s'.threads[t]]
    ensures !Creating(s.threads[t]) && !Creating(s'.threads[t])
    ensures |s'.events| == |s.events|
    ensures forall k :: 0 <= k < |s.events| ==> s'.events[k].id == s.events[k].id
  {
  }

  lemma ReserveIds(s: State, t: nat, s': State)
    requires t < |s.threads| && StepReserve(s, t) == Some(s')
    ensures IdStep(s, s', t)
  {
    ReserveOutcome(s, t, s');
    assert IdsOf(s'.events) == IdsOf(s.events);
  }

  lemma CellIds(s: State, t: nat, m: nat, s': State)
    requires t < |s.threads| && StepShow(s, t, m) == Some(s')
    requires s.threads[t].ShowSeat? || s.threads[t].ShowCell?
    ensures IdStep(s, s', t)
  {
  }

  lemma ShowFileIds(s: State, t: nat, m: nat, s': State)
    requires t < |s.threads| && StepShow(s, t, m) == Some(s')
    requires !s.threads[t].ShowSeat? && !s.threads[t].ShowCell?
    ensures IdStep(s, s', t)
  {
  }

  lemma ShowIds(s: State, t: nat, m: nat, s': State)
    requires t < |s.threads| && StepShow(s, t, m) == Some(s')
    ensures IdStep(s, s', t)
  {
    if s.threads[t].ShowSeat? || s.threads[t].ShowCell? {
      CellIds(s, t, m, s');
    } else {
      ShowFileIds(s, t, m, s');
    }
  }

  lemma LineIds(s: State, t: nat, m: nat, s': State)
    requires t < |s.threads| && StepList(s, t, m) == Some(s')
    requires s.threads[t].ListList? || s.threads[t].ListLine?
    ensures IdStep(s, s', t)
  {
  }

  lemma ListFileIds(s: State, t: nat, m: nat, s': State)
    requires t < |s.threads| && StepList(s, t, m) == Some(s')
    requires !s.threads[t].ListList? && !s.threads[t].ListLine?
    ensures IdStep(s, s', t)
  {
  }

  lemma ListIds(s: State, t: nat, m: nat, s': State)
    requires t < |s.threads| && StepList(s, t, m) == Some(s')
    ensures IdStep(s, s', t)
  {
    if s.threads[t].ListList? || s.threads[t].ListLine? {
      LineIds(s, t, m, s');
    } else {
      ListFileIds(s, t, m, s');
    }
  }

  lemma FindIds(s: State, t: nat, s': State)
    requires t < |s.threads| && StepFind(s, t) == Some(s')
    ensures IdStep(s, s', t)
  {
  }

  lemma StepIds(s: State, t: nat, req: Request, m: nat, s': State)
    requires t < |s.threads| && Step(s, t, req, m) == Some(s')
    ensures IdStep(s, s', t)
  {
    var pc := s.threads[t];
    if pc.Idle? || pc.Leave? {
    } else if Creating(pc) {
      CreateIds(s, t, s');
    } else if Finding(pc) {
      FindIds(s, t, s');
    } else if Showing(pc) {
      ShowIds(s, t, m, s');
    } else if Listing(pc) {
      ListIds(s, t, m, s');
    } else {
      ReserveIds(s, t, s');
    }
  }

  lemma RunKeepsIds(run: seq<State>, i: nat, j: nat)
    requires Run(run) && i <= j < |run|
    ensures IdsOf(run[i].events) <= IdsOf(run[j].events)
  {
    Inductive();
    forall s, s' | Inv(s) && Next(s, s')
      ensures KeepsIds(s, s')
    {
      var t, req, m :| 0 <= t < |s.threads| && Step(s, t, req, m) == Some(s');
      StepIds(s, t, req, m, s');
    }
    Runs.Monotone(IsInit, Next, Inv, KeepsIds, run, i, j);
  }

  /** An id, once it resolves, resolves to the same event for ever, even if overlapping CREATEs
      append a second event with that id; and every LIST extends the ones before it. */
  lemma LookupIsStable(run: seq<State>, i: nat, j: nat, id: nat)
    requires Run(run) && i <= j < |run|
    ensures IdsOf(run[i].events) <= IdsOf(run[j].events)
    ensures id in IdsOf(run[i].events) ==>
      FindId(IdsOf(run[j].events), id) == FindId(IdsOf(run[i].events), id)
  {
    RunKeepsIds(run, i, j);
    var before, after := IdsOf(run[i].events), IdsOf(run[j].events);
    assert after == before + after[|before|..];
    if id in before {
      FindIdStable(before, after[|before|..], id);
    }
  }

  // ----- Ids -----

  /** Each CREATE that appended would have passed a second check made under the write lock, which
      the program does not make. */
  ghost predicate NoneStale(log: seq<Entry>) {
    forall n :: 0 <= n < |log| ==> NotStale(log, n)
  }

  ghost predicate NotStale(log: seq<Entry>, n: nat)
    requires n < |log|
  {
    log[n].Created? ==> log[n].id !in IdsOf(AbsOf(log[..n]))
  }

  lemma {:induction false} DistinctIffNoneStale(log: seq<Entry>)
    ensures DistinctIds(AbsOf(log)) <==> NoneStale(log)
  {
    if log != [] {
      var front, e := log[..|log| - 1], log[|log| - 1];
      DistinctIffNoneStale(front);
      AfterDistinct(AbsOf(front), e);
      if NoneStale(log) {
        forall n | 0 <= n < |front|
          ensures NotStale(front, n)
        {
          assert NotStale(log, n);
          assert front[..n] == log[..n];
        }
        assert NotStale(log, |front|);
      }
      if NoneStale(front) && (e.Created? ==> e.id !in IdsOf(AbsOf(front))) {
        forall n | 0 <= n < |log|
          ensures NotStale(log, n)
        {
          if n < |front| {
            assert NotStale(front, n);
            assert front[..n] == log[..n];
          }
        }
      }
    } else {
      assert AbsOf(log) == [];
    }
  }

  lemma AfterDistinct(es: seq<EventState>, e: Entry)
    requires AllShaped(es)
    ensures DistinctIds(After(es, e)) <==> DistinctIds(es) && (e.Created? ==> e.id !in IdsOf(es))
  {
    if e.Created? {
      AppendDistinct(es, EmptyEvent(e.id, e.rows, e.cols));
    } else {
      assert forall k :: 0 <= k < |es| ==> After(es, e)[k].id == es[k].id;
    }
  }

  lemma AppendDistinct(es: seq<EventState>, e: EventState)
    ensures DistinctIds(es + [e]) <==> DistinctIds(es) && e.id !in IdsOf(es)
  {
    var all := es + [e];
    if DistinctIds(all) {
      forall i, j | 0 <= i < j < |es|
        ensures es[i].id != es[j].id
      {
        assert all[i].id != all[j].id;
      }
      forall i | 0 <= i < |es|
        ensures IdsOf(es)[i] != e.id
      {
        assert all[i].id != all[|es|].id;
      }
    }
    if e.id !in IdsOf(es) {
      forall i | 0 <= i < |es|
        ensures es[i].id != e.id
      {
        assert IdsOf(es)[i] == es[i].id;
      }
    }
  }

  lemma IdsDistinctIff(run: seq<State>, i: nat)
    requires Run(run) && i < |run|
    ensures DistinctIds(run[i].events) <==> NoneStale(run[i].log)
  {
    RunInv(run, i);
    SameIds(run[i]);
    DistinctIffNoneStale(run[i].log);
  }

  /** Two threads past the lookup of a CREATE of the same id. */
  ghost predicate Overlap(s: State, t: nat, u: nat) {
    && t < |s.threads| && u < |s.threads| && t != u
    && Creating(s.threads[t]) && Creating(s.threads[u])
    && s.threads[t].req.AskCreate? && s.threads[u].req.AskCreate?
    && s.threads[t].req.id == s.threads[u].req.id
  }

  ghost predicate StillNew(s: State, t: nat) {
    t < |s.threads| && Creating(s.threads[t]) && s.threads[t].req.AskCreate? ==>
      s.threads[t].req.id !in IdsOf(s.events)
  }

  ghost predicate AllNew(s: State) {
    DistinctIds(s.events) && forall t: nat :: StillNew(s, t)
  }

  lemma DistinctByIds(es: seq<EventState>)
    ensures DistinctIds(es) <==> forall i, j :: 0 <= i < j < |IdsOf(es)| ==> IdsOf(es)[i] != IdsOf(es)[j]
  {
    if forall i, j :: 0 <= i < j < |IdsOf(es)| ==> IdsOf(es)[i] != IdsOf(es)[j] {
      forall i, j | 0 <= i < j < |es|
        ensures es[i].id != es[j].id
      {
        assert IdsOf(es)[i] != IdsOf(es)[j];
      }
    }
  }

  lemma IdStepKeepsNew(s: State, s': State, t: nat)
    requires IdStep(s, s', t) && AllNew(s) && forall u: nat :: !Overlap(s, t, u)
    ensures AllNew(s')
  {
    assert StillNew(s, t);
    DistinctByIds(s.events);
    DistinctByIds(s'.events);
    forall u: nat
      ensures StillNew(s', u)
    {
      assert StillNew(s, u);
      assert !Overlap(s, t, u);
    }
  }

  lemma NextIds(s: State, s': State) returns (t: nat)
    requires Next(s, s')
    ensures IdStep(s, s', t)
  {
    var u: nat, req, m :| u < |s.threads| && Step(s, u, req, m) == Some(s');
    StepIds(s, u, req, m, s');
    t := u;
  }

  lemma IdsInRun(run: seq<State>, i: nat) returns (t: nat)
    requires Run(run) && i + 1 < |run|
    ensures IdStep(run[i], run[i + 1], t)
  {
    assert Runs.Linked(Next, run, i);
    t := NextIds(run[i], run[i + 1]);
  }

  /** Unless two CREATEs of one id are past their lookups at the same time, all ids are distinct. */
  lemma {:induction false} NoOverlapNoDuplicates(run: seq<State>, i: nat)
    requires Run(run) && i < |run|
    requires forall n: nat, t: nat, u: nat :: n < i ==> !Overlap(run[n], t, u)
    ensures AllNew(run[i])
    decreases i
  {
    if i > 0 {
      NoOverlapNoDuplicates(run, i - 1);
      var t := IdsInRun(run, i - 1);
      IdStepKeepsNew(run[i - 1], run[i], t);
    }
  }

  /** There are two CREATEs of `id` past their lookups, or one and an event with that id, or two
      events: a duplicate is on its way or there. */
  ghost predicate Doomed(s: State, id: nat) {
    || (exists t: nat, u: nat :: Overlap(s, t, u) && s.threads[t].req.id == id)
    || (exists u: nat :: Pending(s, u, id) && id in IdsOf(s.events))
    || exists p: nat, q: nat :: Twice(IdsOf(s.events), p, q, id)
  }

  ghost predicate Pending(s: State, u: nat, id: nat) {
    u < |s.threads| && Creating(s.threads[u]) && s.threads[u].req.AskCreate? && s.threads[u].req.id == id
  }

  ghost predicate Twice(ids: seq<nat>, p: nat, q: nat, id: nat) {
    p < q < |ids| && ids[p] == ids[q] == id
  }

  lemma PendingStays(s: State, s': State, t: nat, u: nat, id: nat)
    requires IdStep(s, s', t) && Pending(s, u, id)
    ensures Pending(s', u, id) || (u == t && s.threads[t].CreateAppend? && IdsOf(s'.events) == IdsOf(s.events) + [id])
  {
  }

  lemma DoomedStays(s: State, s': State, t: nat, id: nat)
    requires IdStep(s, s', t) && Doomed(s, id)
    ensures Doomed(s', id)
  {
    var ids, ids' := IdsOf(s.events), IdsOf(s'.events);
    assert forall p :: 0 <= p < |ids| ==> ids'[p] == ids[p];
    if v: nat, u: nat :| Overlap(s, v, u) && s.threads[v].req.id == id {
      assert Pending(s, v, id) && Pending(s, u, id);
      PendingStays(s, s', t, v, id);
      PendingStays(s, s', t, u, id);
      if Pending(s', v, id) && Pending(s', u, id) {
        assert Overlap(s', v, u);
      } else {
        assert ids'[|ids|] == id;
        assert Pending(s', v, id) || Pending(s', u, id);
      }
    } else if u: nat :| Pending(s, u, id) && id in ids {
      var p :| 0 <= p < |ids| && ids[p] == id;
      assert ids'[p] == id;
      PendingStays(s, s', t, u, id);
      if !Pending(s', u, id) {
        assert Twice(ids', p, |ids|, id);
      }
    } else {
      var p: nat, q: nat :| Twice(ids, p, q, id);
      assert Twice(ids', p, q, id);
    }
  }

  lemma {:induction false} OverlapDooms(run: seq<State>, n: nat, i: nat, t: nat, u: nat)
    requires Run(run) && n <= i < |run| && Overlap(run[n], t, u)
    ensures Doomed(run[i], run[n].threads[t].req.id)
    decreases i
  {
    if n < i {
      OverlapDooms(run, n, i - 1, t, u);
      var v := IdsInRun(run, i - 1);
      DoomedStays(run[i - 1], run[i], v, run[n].threads[t].req.id);
    }
  }

  /** No CREATE is past its lookup. */
  ghost predicate Settled(s: State) { forall t :: 0 <= t < |s.threads| ==> !Creating(s.threads[t]) }

  lemma DoomedDuplicates(s: State, id: nat)
    requires Settled(s) && Doomed(s, id)
    ensures !DistinctIds(s.events)
  {
    var p: nat, q: nat :| Twice(IdsOf(s.events), p, q, id);
    assert s.events[p].id == s.events[q].id;
  }

  /** Part 1 keeps ids distinct exactly as long as no two CREATEs of one id are past their lookups at
      the same time: whenever every CREATE begun has ended or is still looking, the store holds two
      events with one id if and only if two CREATEs overlapped so. */
  lemma DistinctIffNoOverlap(run: seq<State>, i: nat)
    requires Run(run) && i < |run| && Settled(run[i])
    ensures DistinctIds(run[i].events) <==> forall n: nat, t: nat, u: nat :: n < i ==> !Overlap(run[n], t, u)
  {
    if forall n: nat, t: nat, u: nat :: n < i ==> !Overlap(run[n], t, u) {
      NoOverlapNoDuplicates(run, i);
    } else {
      var n: nat, t: nat, u: nat :| n < i && Overlap(run[n], t, u);
      OverlapDooms(run, n, i, t, u);
      DoomedDuplicates(run[i], run[n].threads[t].req.id);
    }
  }

  /** So exactly then the log is a run of a store whose CREATE refuses every id that is there. */
  lemma StrictIffNoOverlap(run: seq<State>, i: nat)
    requires Run(run) && i < |run| && Settled(run[i])
    ensures NoneStale(run[i].log) <==> forall n: nat, t: nat, u: nat :: n < i ==> !Overlap(run[n], t, u)
  {
    IdsDistinctIff(run, i);
    DistinctIffNoOverlap(run, i);
  }

  lemma OneStep(s: State, t: nat, req: Request, s': State)
    requires t < |s.threads| && Step(s, t, req, 0) == Some(s')
    ensures Runs.Path(Next, s, [s'])
  {
    assert Next(s, s');
  }

  /** Nobody holds the list, and nobody has the event lock for writing. */
  ghost predicate Quiet(s: State) { s.list == FREE && s.event.writer.None? }

  /** The lookup of a CREATE of a new id, by thread `t` alone. */
  lemma LookUp(s: State, t: nat, req: Request) returns (ss: seq<State>)
    requires Quiet(s) && t < |s.threads| && s.threads[t].Idle? && t !in s.event.readers
    requires req.AskCreate? && req.id !in IdsOf(s.events)
    ensures Runs.Path(Next, s, ss)
    ensures var e := Runs.End(s, ss);
      && Quiet(e) && e.threads == s.threads[t := CreateList(req)] && e.events == s.events && e.event == s.event
  {
    var s1 := Record(To(s, t, FindList(req)), Call(t, req));
    var s2 := To(s1, t, FindEvent(req)).(list := Reading(s1.list, t));
    var s3 := To(s2, t, FindSearch(req)).(event := Reading(s2.event, t));
    var s4 := To(s3, t, CreateList(req)).(list := Unread(s3.list, t), event := Unread(s3.event, t));
    OneStep(s, t, req, s1);
    OneStep(s1, t, req, s2);
    OneStep(s2, t, req, s3);
    OneStep(s3, t, req, s4);
    Runs.PathJoin(Next, s, [s1], [s2]);
    Runs.PathJoin(Next, s, [s1] + [s2], [s3]);
    Runs.PathJoin(Next, s, [s1] + [s2] + [s3], [s4]);
    ss := [s1] + [s2] + [s3] + [s4];
    assert s4.list == s.list && s4.event == s.event;
    assert s4.threads == s.threads[t := CreateList(req)];
  }

  /** The rest of the CREATE, with no other look at the list. */
  lemma AppendIt(s: State, t: nat, req: Request) returns (ss: seq<State>)
    requires Quiet(s) && t < |s.threads| && s.threads[t] == CreateList(req) && req.AskCreate?
    ensures Runs.Path(Next, s, ss)
    ensures var s' := Runs.End(s, ss);
      && Quiet(s') && s'.threads == s.threads[t := Idle]
      && s'.events == s.events + [EmptyEvent(req.id, req.rows, req.cols)]
  {
    var s1 := To(s, t, CreateAppend(req)).(list := Writing(s.list, t));
    var what := Created(req.id, req.rows, req.cols);
    var s2 := Note(To(s1, t, Leave(req, what)).(
      events := s1.events + [EmptyEvent(req.id, req.rows, req.cols)],
      list := Unwritten(s1.list)), t, req, what);
    var s3 := Record(To(s2, t, Idle), Return(t, req, what));
    OneStep(s, t, req, s1);
    OneStep(s1, t, req, s2);
    OneStep(s2, t, req, s3);
    Runs.PathJoin(Next, s, [s1], [s2]);
    Runs.PathJoin(Next, s, [s1] + [s2], [s3]);
    ss := [s1] + [s2] + [s3];
  }

  lemma BothCreate(s: State, t: nat, u: nat, req: Request) returns (ss: seq<State>)
    requires Quiet(s) && t < |s.threads| && u < |s.threads| && t != u
    requires s.threads[t].Idle? && s.threads[u].Idle? && t !in s.event.readers && u !in s.event.readers
    requires req.AskCreate? && req.id !in IdsOf(s.events)
    ensures Runs.Path(Next, s, ss)
    ensures var e := EmptyEvent(req.id, req.rows, req.cols); Runs.End(s, ss).events == s.events + [e] + [e]
  {
    var a := LookUp(s, t, req);
    var b := LookUp(Runs.End(s, a), u, req);
    Runs.PathJoin(Next, s, a, b);
    var c := AppendIt(Runs.End(s, a + b), t, req);
    Runs.PathJoin(Next, s, a + b, c);
    var d := AppendIt(Runs.End(s, a + b + c), u, req);
    Runs.PathJoin(Next, s, a + b + c, d);
    ss := a + b + c + d;
  }

  /** Duplicates do happen: from any state in which two threads are idle and the locks free, two
      CREATEs of any new id can both succeed. CREATE checks under a read lock and appends later. */
  lemma DuplicatesHappen(run: seq<State>, t: nat, u: nat, req: Request) returns (more: seq<State>)
    requires Run(run) && var s := run[|run| - 1];
      && Quiet(s) && t < |s.threads| && u < |s.threads| && t != u
      && s.threads[t].Idle? && s.threads[u].Idle?
      && req.AskCreate? && req.id !in IdsOf(s.events)
    ensures Run(run + more)
    ensures !DistinctIds((run + more)[|run + more| - 1].events)
  {
    var s := run[|run| - 1];
    RunInv(run, |run| - 1);
    assert ThreadHolds(s, t) && ThreadHolds(s, u);
    more := BothCreate(s, t, u, req);
    Runs.PathRun(IsInit, Next, run, more);
    var es := Runs.End(s, more).events;
    assert es[|s.events|].id == es[|s.events| + 1].id;
    assert (run + more)[|run + more| - 1] == Runs.End(s, more);
  }
}
