/** Every reply of the server fits its message, and the server never comes to a stop while a client has
    something to do. */
module ServerSessionProgress {
  import opened Seating
  import opened Histories
  import opened ServerHistories
  import opened ServerSessions
  import opened ServerSessionTheorems
  import ServerSessionShows
  import ServerStore
  import ServerTheorems
  import Sessions
  import Store
  import Wire
  import Runs

  /** A step of the server other than the beginning of a dump, which is always possible. */
  ghost predicate GoesOn(s: State, s': State) {
    || (exists c: nat :: MoveBytes(s, c, s'))
    || (exists c: nat, w: nat :: TakeClient(s, c, w, s'))
    || (exists c: nat :: DropClient(s, c, s'))
    || (exists c: nat, w: nat :: CallOperation(s, c, w, s'))
    || (exists c: nat, w: nat :: RunOperation(s, c, w, s'))
    || (exists c: nat, w: nat :: AnswerCall(s, c, w, s'))
    || (DumpMove(s, s') && !s.store.threads[|s.store.threads| - 1].Idle?)
  }

  /** A grid or a list whose bytes the counters of the wire can count. */
  predicate Countable(out: Outcome) {
    match out
    case Answer(Ids(ids)) => 4 * |ids| < Wire.SIZE_RANGE
    case Shown(_, _, data) => 4 * |data| < Wire.SIZE_RANGE
    case _ => true
  }

  /** What client `c` does ends with QUIT, and no RESERVE names more seats than its arrays hold. */
  ghost predicate WellBehaved(s: State, c: nat) {
    c < |s.clients| ==>
      var calls := s.clients[c].calls;
      && calls != [] && calls[|calls| - 1].Quit?
      && (forall i :: 0 <= i < |calls| - 1 ==> IsStoreCall(calls[i]) || calls[i].Show?)
      && (c < |s.works| && s.works[c].Back? ==> Countable(s.works[c].out))
  }

  // ----- Every number fits its field -----

  ghost predicate Bounded(e: EventState) {
    && e.id < UINT_RANGE && e.rows < Wire.SIZE_RANGE && e.cols < Wire.SIZE_RANGE
    && Wire.AllBelow(e.data, UINT_RANGE)
  }

  ghost predicate AllBounded(es: seq<EventState>) { forall k :: 0 <= k < |es| ==> Bounded(es[k]) }

  ghost predicate BoundedOp(op: Store.Op) {
    op.Create? ==> op.id < UINT_RANGE && op.rows < Wire.SIZE_RANGE && op.cols < Wire.SIZE_RANGE
  }

  ghost predicate BoundedEffects(h: seq<Ev>) {
    forall j :: 0 <= j < |Effects(h)| ==> BoundedOp(Effects(h)[j].op)
  }

  lemma MarkedBounded(e: EventState, seats: seq<Seat>, v: nat)
    requires Bounded(e) && v < UINT_RANGE
    ensures Wire.AllBelow(Marked(e.data, e.cols, seats, v), UINT_RANGE)
  {
    forall i | 0 <= i < |e.data|
      ensures Marked(e.data, e.cols, seats, v)[i] < UINT_RANGE
    {
      assert e.data[i] < UINT_RANGE;
    }
  }

  lemma ApplyBounded(es: seq<EventState>, op: Store.Op)
    requires Store.AllShaped(es) && AllBounded(es) && BoundedOp(op)
    ensures AllBounded(Store.Apply(es, op).0)
  {
    var found := Store.FindId(Store.IdsOf(es), if op.ListEvents? then 0 else op.id);
    if op.Reserve? && found.Some? {
      MarkedBounded(es[found.value], op.seats, NextId(es[found.value]));
    }
  }

  lemma {:induction false} StoreBounded(h: seq<Ev>)
    requires BoundedEffects(h)
    ensures AllBounded(StoreOf(h))
  {
    if h != [] {
      var e := Last(h);
      assert Front(h) + [e] == h;
      EffectsSnoc(Front(h), e);
      assert forall j :: 0 <= j < |Effects(Front(h))| ==> Effects(h)[j] == Effects(Front(h))[j];
      StoreBounded(Front(h));
      if e.Effect? {
        assert Effects(h)[|Effects(Front(h))|] == e;
        ApplyBounded(StoreOf(Front(h)), e.op);
      }
    }
  }

  lemma MemoryBounded(s: ServerStore.State, k: nat)
    requires ServerStore.Inv(s) && AllBounded(ServerStore.Abs(s)) && k < |s.events|
    ensures Bounded(s.events[k])
  {
    var e := ServerStore.Abs(s)[k];
    assert s.events[k] == ServerStore.Expected(s, k) && Bounded(e);
    if s.owner[k].Some? && s.owner[k].value < |s.threads| {
      var pc := s.threads[s.owner[k].value];
      if pc.ReserveWrite? && pc.op.Reserve? && pc.j <= |pc.op.seats| {
        MarkedBounded(e, pc.op.seats[..pc.j], NextId(e));
      } else if pc.ReserveUnlock? && pc.op.Reserve? {
        MarkedBounded(e, pc.op.seats, NextId(e));
      }
    }
  }

  /** Every effect is of a call whose numbers fit their fields. */
  lemma EffectsBounded(s: State)
    requires Fits(s)
    ensures BoundedEffects(s.store.history)
  {
    forall j | 0 <= j < |Effects(s.store.history)|
      ensures BoundedOp(Effects(s.store.history)[j].op)
    {
      assert EffectFits(s, j);
      var tag := s.tags[j];
      assert ClientOk(s, tag.client);
      CallBounded(s.clients[tag.client], tag.call);
    }
  }

  lemma CallBounded(x: Sessions.State, i: nat)
    requires Sessions.Inv(x) && i < |x.calls| && RequestOf(x.calls[i]).Some? && RequestOf(x.calls[i]).value.Linear?
    ensures BoundedOp(RequestOf(x.calls[i]).value.op)
  {
    assert Wire.Sendable(x.calls[i]);
  }

  // ----- A client that is served -----

  lemma SomeAnswer(r: Wire.Request) returns (p: Wire.Reply)
    requires !r.Quit?
    ensures Wire.Answers(r, p)
  {
    match r
    case Create(_, _, _) => p := Wire.Status(0);
    case Reserve(_, _, _, _) => p := Wire.Status(0);
    case Show(_) => p := Wire.Grid(0, 0, [], 0);
    case ListEvents => p := Wire.Events([], 0);
  }

  /** While no operation is executed, client or server can move bytes. */
  lemma BytesGoOn(x: Sessions.State) returns (x': Sessions.State)
    requires Sessions.Inv(x) && !Sessions.Finished(x) && !x.server.Executing?
    ensures ClientMove(x, x') || ServerMove(x, x')
  {
    var p := Wire.Status(0);
    if x.next < |x.calls| && !x.calls[x.next].Quit? {
      p := SomeAnswer(x.calls[x.next]);
    }
    x' := Sessions.CanStep(x, p);
  }

  lemma ClientBytes(s: State, c: nat) returns (s': State)
    requires Inv(s) && c < |s.clients| && s.worker[c].Some?
    requires !Sessions.Finished(s.clients[c]) && !s.clients[c].server.Executing?
    ensures GoesOn(s, s')
  {
    assert ClientOk(s, c);
    var x' := BytesGoOn(s.clients[c]);
    s' := s.(clients := s.clients[c := x']);
    assert MoveBytes(s, c, s');
  }

  lemma CallStarts(s: State, c: nat, w: nat) returns (s': State)
    requires Fits(s) && ThreadOf(s, c, w) && s.works[c].NotCalled? && s.clients[c].server.Executing?
    requires RequestOf(s.clients[c].server.call).Some?
    ensures GoesOn(s, s')
  {
    assert WorkFits(s, c);
    var store' := ServerStore.Begin(s.store, w, RequestOf(s.clients[c].server.call).value);
    s' := Moved(s, store', Tag(c, |s.clients[c].sent|)).(works := s.works[c := UnderWay]);
    assert CallOperation(s, c, w, s');
  }

  ghost function Moved(s: State, store': ServerStore.State, tag: Tag): (s': State)
    ensures s' == s.(store := store', tags := s'.tags) && TagsEffect(s, tag, s')
  {
    s.(store := store', tags := if EffectAdded(s.store, store') then s.tags + [tag] else s.tags)
  }

  lemma OperationSteps(s: State, c: nat, w: nat) returns (s': State)
    requires Inv(s) && ThreadOf(s, c, w) && s.works[c].UnderWay? && ServerStore.Step(s.store, w, ServerStore.Dump).Some?
    ensures GoesOn(s, s')
  {
    var store' := ServerStore.Step(s.store, w, ServerStore.Dump).value;
    assert WorkFits(s, c);
    ServerStore.LocksKept(s.store, w, ServerStore.Dump, store');
    ServerSessions.StepLogs(s.store, w, ServerStore.Dump, store');
    s' := Moved(s, store', Tag(c, |s.clients[c].sent|)).(works := s.works[c :=
      if store'.threads[w].Idle? then Back(OutcomeOf(s.store.threads[w], s.store.events)) else UnderWay]);
    assert RunOperation(s, c, w, s');
  }

  /** An operation under way goes on, or another one that it waits for does. */
  lemma StoreGoesOn(s: State, w: nat) returns (s': State)
    requires Inv(s) && w < |s.store.threads| && !s.store.threads[w].Idle?
    ensures GoesOn(s, s')
  {
    var u := ServerTheorems.UnblockedThread(s.store, w, ServerStore.Dump);
    if u + 1 == |s.store.threads| {
      s' := s.(store := ServerStore.Step(s.store, u, ServerStore.Dump).value);
      assert DumpMove(s, s');
    } else {
      assert ThreadFits(s, u);
      var d: nat :| d < |s.worker| && s.worker[d] == Some(u);
      assert WorkFits(s, d);
      s' := OperationSteps(s, d, u);
    }
  }

  /** The result of an effect is of the kind of its operation; ids fit their fields. */
  lemma ResultFits(s: State, tag: Tag, res: Store.Result)
    requires Inv(s) && ResultIs(s, tag, res) && LinearCall(s, tag.client, tag.call)
    ensures res.Ids? <==> RequestOf(s.clients[tag.client].calls[tag.call]).value.op.ListEvents?
    ensures res.Ids? ==> Wire.AllBelow(res.ids, UINT_RANGE)
  {
    var j: nat :| TagAt(s, j, tag, res);
    assert EffectFits(s, j);
    var h := s.store.history;
    var p := EffectPosition(h, j);
    LegalEffect(h, p);
    EffectsBounded(s);
    StoreBounded(h);
    ServerSessionShows.StoreGrows(h, p);
    if res.Ids? {
      IdsBounded(StoreOf(h[..p]), StoreOf(h));
    }
  }

  lemma IdsBounded(es: seq<EventState>, es': seq<EventState>)
    requires ServerTheorems.Extends(es, es') && AllBounded(es')
    ensures Wire.AllBelow(Store.IdsOf(es), UINT_RANGE)
  {
    forall k | 0 <= k < |es|
      ensures Store.IdsOf(es)[k] < UINT_RANGE
    {
      assert ServerStore.SameFrame(es[k], es'[k]) && Bounded(es'[k]);
    }
  }

  lemma AnswerWritten(s: State, c: nat, w: nat) returns (s': State)
    requires Inv(s) && ThreadOf(s, c, w) && s.works[c].Back? && s.clients[c].server.Executing?
    requires Wire.Answers(s.clients[c].server.call, ReplyOf(s.works[c].out))
    ensures GoesOn(s, s')
  {
    var x, p := s.clients[c], ReplyOf(s.works[c].out);
    var x' := x.(sent := x.sent + [p], server := Sessions.Writing(Wire.EncReply(p)));
    s' := s.(clients := s.clients[c := x'], works := s.works[c := NotCalled]);
    assert AnswerCall(s, c, w, s');
  }

  /** The outcome of an operation is a reply to its call, and every number in it fits its field. */
  lemma OutcomeAnswers(s: State, c: nat)
    requires Inv(s) && c < |s.clients| && s.works[c].Back? && Countable(s.works[c].out)
    ensures s.clients[c].server.Executing? && Wire.Answers(s.clients[c].server.call, ReplyOf(s.works[c].out))
  {
    assert WorkFits(s, c) && ClientOk(s, c);
    var x, out := s.clients[c], s.works[c].out;
    ExecutesNext(x);
    RequestMeans(x.server.call);
    if out.Answer? {
      ResultFits(s, Tag(c, |x.sent|), out.res);
    } else if out.Shown? {
      EffectsBounded(s);
      StoreBounded(s.store.history);
      ShownFits(s.store, x.server.call.id, out);
    }
  }

  lemma ShownFits(s: ServerStore.State, id: nat, out: Outcome)
    requires ServerStore.Inv(s) && AllBounded(ServerStore.Abs(s))
    requires out.Shown? && GridOf(s.events, id, out.rows, out.cols, out.data)
    ensures |out.data| == out.rows * out.cols && Wire.AllBelow(out.data, UINT_RANGE)
    ensures out.rows < Wire.SIZE_RANGE && out.cols < Wire.SIZE_RANGE
  {
    var k: nat :| GridAt(s.events, id, k, out.rows, out.cols, out.data);
    ServerTheorems.EventAhead(s, k);
    assert Shaped(ServerStore.Abs(s)[k]);
    MemoryBounded(s, k);
    forall x | 0 <= x < |out.data|
      ensures out.data[x] < UINT_RANGE
    {
      assert s.events[k].data[x] < UINT_RANGE;
    }
  }

  lemma ServedGoesOn(s: State, c: nat) returns (s': State)
    requires Inv(s) && c < |s.clients| && s.worker[c].Some? && !Sessions.Finished(s.clients[c]) && WellBehaved(s, c)
    ensures GoesOn(s, s')
  {
    assert WorkFits(s, c) && ClientOk(s, c) && ServesOne(s, c, c);
    var x, w := s.clients[c], s.worker[c].value;
    if !x.server.Executing? {
      s' := ClientBytes(s, c);
    } else {
      ExecutesNext(x);
      match s.works[c]
      case NotCalled =>
        RequestMeans(x.server.call);
        s' := CallStarts(s, c, w);
      case UnderWay => s' := StoreGoesOn(s, w);
      case Back(out) =>
        OutcomeAnswers(s, c);
        s' := AnswerWritten(s, c, w);
    }
  }

  // ----- Any client -----

  /** A client is left only when its session is over. */
  ghost predicate LeftAtEnd(s: State, c: nat) {
    c in s.taken ==> c < |s.clients| && c < |s.worker| && (s.worker[c].Some? || s.clients[c].server.Ended?)
  }

  /** No call before the one the client is at is QUIT. */
  ghost predicate QuitIsLast(s: State, c: nat) {
    c < |s.clients| ==> NoneQuit(s.clients[c])
  }

  ghost predicate NoneQuit(x: Sessions.State) {
    x.next <= |x.calls| && forall i :: 0 <= i < x.next ==> !x.calls[i].Quit?
  }

  ghost predicate Leaves(s: State) {
    Inv(s) && (forall c: nat :: LeftAtEnd(s, c)) && forall c: nat :: QuitIsLast(s, c)
  }

  /** Calls stay, and only the end of a reply takes the client to the next one. */
  ghost predicate Turns(x: Sessions.State, x': Sessions.State) {
    && x'.calls == x.calls
    && (x'.next == x.next || (x.client.Receiving? && x'.next == x.next + 1))
  }

  lemma ClientTurns(x: Sessions.State, x': Sessions.State)
    requires ClientMove(x, x')
    ensures Turns(x, x')
  {
  }

  lemma ServerTurns(x: Sessions.State, x': Sessions.State)
    requires ServerMove(x, x')
    ensures Turns(x, x')
  {
  }

  lemma NotAtQuit(x: Sessions.State)
    requires Sessions.Inv(x) && x.client.Receiving?
    ensures x.next < |x.calls| && !x.calls[x.next].Quit?
  {
  }

  lemma TurnNoneQuit(x: Sessions.State, x': Sessions.State)
    requires NoneQuit(x) && Turns(x, x')
    requires x.client.Receiving? ==> x.next < |x.calls| && !x.calls[x.next].Quit?
    ensures NoneQuit(x')
  {
  }

  lemma MoveNoneQuit(x: Sessions.State, x': Sessions.State)
    requires Sessions.Inv(x) && NoneQuit(x) && (ClientMove(x, x') || ServerMove(x, x'))
    ensures NoneQuit(x')
  {
    if ClientMove(x, x') {
      ClientTurns(x, x');
    } else {
      ServerTurns(x, x');
    }
    if x.client.Receiving? {
      NotAtQuit(x);
    }
    TurnNoneQuit(x, x');
  }

  lemma BytesNoneQuit(s: State, d: nat, s': State, c: nat)
    requires ClientOk(s, d) && QuitIsLast(s, d) && QuitIsLast(s, c) && MoveBytes(s, d, s')
    ensures QuitIsLast(s', c)
  {
    MoveNoneQuit(s.clients[d], s'.clients[d]);
  }

  lemma AnswerNoneQuit(s: State, d: nat, w: nat, s': State, c: nat)
    requires QuitIsLast(s, c) && AnswerCall(s, d, w, s')
    ensures QuitIsLast(s', c)
  {
  }

  lemma QuitStays(s: State, s': State, c: nat)
    requires Inv(s) && Next(s, s') && forall d: nat :: QuitIsLast(s, d)
    ensures QuitIsLast(s', c)
  {
    assert QuitIsLast(s, c);
    if d: nat :| MoveBytes(s, d, s') {
      assert ClientOk(s, d) && QuitIsLast(s, d);
      BytesNoneQuit(s, d, s', c);
    } else if d: nat, w: nat :| AnswerCall(s, d, w, s') {
      AnswerNoneQuit(s, d, w, s', c);
    }
  }

  lemma EndedStays(s: State, d: nat, s': State, c: nat)
    requires MoveBytes(s, d, s') && c < |s.clients| && s.clients[c].server.Ended?
    ensures c < |s'.clients| && s'.clients[c].server.Ended?
  {
  }

  lemma LeftStays(s: State, s': State, c: nat)
    requires Next(s, s') && LeftAtEnd(s, c)
    ensures LeftAtEnd(s', c)
  {
    if d: nat :| MoveBytes(s, d, s') {
      if c in s.taken && s.clients[c].server.Ended? {
        EndedStays(s, d, s', c);
      }
    } else if d: nat, w: nat :| AnswerCall(s, d, w, s') {
      AnswerNotEnded(s, d, w, s');
    }
  }

  lemma AnswerNotEnded(s: State, d: nat, w: nat, s': State)
    requires AnswerCall(s, d, w, s')
    ensures !s.clients[d].server.Ended? && s'.worker == s.worker && s'.taken == s.taken
    ensures |s'.clients| == |s.clients| && forall c :: 0 <= c < |s.clients| && c != d ==> s'.clients[c] == s.clients[c]
  {
  }

  lemma NextLeaves(s: State, s': State)
    requires Leaves(s) && Next(s, s')
    ensures Leaves(s')
  {
    NextKeepsInv(s, s');
    forall c: nat
      ensures LeftAtEnd(s', c) && QuitIsLast(s', c)
    {
      assert LeftAtEnd(s, c);
      LeftStays(s, s', c);
      QuitStays(s, s', c);
    }
  }

  lemma InitLeaves(s: State)
    requires IsInit(s)
    ensures Leaves(s)
  {
    Inductive();
    var clients, n: nat :| s == Init(clients, n) && AllNew(clients);
    forall c: nat
      ensures QuitIsLast(s, c)
    {
      if c < |clients| {
        NewNoneQuit(clients[c]);
      }
    }
  }

  lemma NewNoneQuit(x: Sessions.State)
    requires Sessions.IsInit(x)
    ensures NoneQuit(x)
  {
  }

  lemma RunLeaves(run: seq<State>, n: nat)
    requires Run(run) && n < |run|
    ensures Leaves(run[n])
  {
    forall s | IsInit(s)
      ensures Leaves(s)
    {
      InitLeaves(s);
    }
    forall s, s' | Leaves(s) && Next(s, s')
      ensures Leaves(s')
    {
      NextLeaves(s, s');
    }
    Runs.Invariant(IsInit, Next, Leaves, run, n);
  }

  lemma EndedFinished(x: Sessions.State)
    requires Sessions.Inv(x) && x.server.Ended?
    ensures Sessions.Finished(x)
  {
  }

  /** A session of a client that ends with QUIT is over when the server has read it. */
  lemma FinishedEnded(x: Sessions.State)
    requires Sessions.Inv(x) && Sessions.Finished(x) && NoneQuit(x) && x.calls != [] && x.calls[|x.calls| - 1].Quit?
    ensures x.server.Ended?
  {
  }

  /** With at least one worker, and clients that all end with QUIT, some step leads on until every session
      is over. */
  lemma ServerGoesOn(run: seq<State>, n: nat, c: nat) returns (s': State)
    requires Run(run) && n < |run| && |run[n].store.threads| >= 2
    requires forall d: nat :: WellBehaved(run[n], d)
    requires c < |run[n].clients| && !Sessions.Finished(run[n].clients[c])
    ensures GoesOn(run[n], s')
  {
    RunLeaves(run, n);
    var s := run[n];
    assert WellBehaved(s, c) && LeftAtEnd(s, c) && ClientOk(s, c);
    if s.worker[c].Some? {
      s' := ServedGoesOn(s, c);
    } else if c in s.taken {
      assert false by { EndedFinished(s.clients[c]); }
    } else if Free(s, 0) {
      s' := s.(worker := s.worker[c := Some(0)], taken := s.taken + {c});
      assert TakeClient(s, c, 0, s');
    } else {
      var d: nat :| d < |s.worker| && s.worker[d] == Some(0);
      s' := WorkerGoesOn(s, d);
    }
  }

  lemma WorkerGoesOn(s: State, d: nat) returns (s': State)
    requires Leaves(s) && d < |s.worker| && s.worker[d].Some? && WellBehaved(s, d)
    ensures GoesOn(s, s')
  {
    assert ClientOk(s, d) && QuitIsLast(s, d);
    if Sessions.Finished(s.clients[d]) {
      FinishedEnded(s.clients[d]);
      s' := s.(worker := s.worker[d := None]);
      assert DropClient(s, d, s');
    } else {
      s' := ServedGoesOn(s, d);
    }
  }
}
