/** The server as its clients see it: any number of client sessions, served by any number of workers on
    one store. A worker that has decoded a call runs it on the store and answers with its outcome. */
module ServerSessions {
  import opened Seating
  import opened Histories
  import opened ServerHistories
  import Reservation
  import Store
  import ServerStore
  import ServerTheorems
  import Sessions
  import Wire
  import Runs

  /** What an operation comes back with. */
  datatype Outcome =
    | Answer(res: Store.Result)
    | Shown(rows: nat, cols: nat, data: seq<nat>)
    | NoEvent

  /** How far the call that the server of a session executes has come. */
  datatype Work = NotCalled | UnderWay | Back(out: Outcome)

  /** Call number `call` of a client. */
  datatype Tag = Tag(client: nat, call: nat)

  /** `worker` is the worker that serves a client, `taken` the clients handed to a worker so far. The last
      thread of the store is the main thread, which only dumps. `tags` is bookkeeping: the call behind
      each effect on the store. */
  datatype State = State(
    clients: seq<Sessions.State>,
    worker: seq<Option<nat>>,
    works: seq<Work>,
    taken: set<nat>,
    store: ServerStore.State,
    tags: seq<Tag>)

  function Init(clients: seq<Sessions.State>, workers: nat): State {
    State(clients, seq(|clients|, _ => None), seq(|clients|, _ => NotCalled), {}, ServerStore.Init(workers + 1), [])
  }

  /** The operation of a call. A RESERVE of more seats than its arrays hold has none. */
  function RequestOf(r: Wire.Request): Option<ServerStore.Request> {
    match r
    case Create(id, rows, cols) => Some(ServerStore.Linear(Store.Create(id, rows, cols)))
    case Reserve(id, count, xs, ys) =>
      if count <= |xs| && count <= |ys| then
        Some(ServerStore.Linear(Store.Reserve(id, Reservation.SeatsOf(xs[..count], ys[..count]))))
      else None
    case Show(id) => Some(ServerStore.Show(id))
    case ListEvents => Some(ServerStore.Linear(Store.ListEvents))
    case Quit => None
  }

  /** The reply to an outcome: status 0 for success, a grid of no cells for a missing event. */
  function ReplyOf(out: Outcome): Wire.Reply {
    match out
    case Answer(Status(ok)) => Wire.Status(if ok then 0 else 1)
    case Answer(Ids(ids)) => Wire.Events(ids, 0)
    case Shown(rows, cols, data) => Wire.Grid(rows, cols, data, 0)
    case NoEvent => Wire.Grid(0, 0, [], 1)
  }

  // ----- Steps -----

  ghost predicate ClientMove(x: Sessions.State, x': Sessions.State) {
    || Sessions.CallStep(x, x')
    || (exists m :: Sessions.ClientWrites(x, m, x'))
    || (exists m :: Sessions.ClientReads(x, m, x'))
  }

  ghost predicate ServerMove(x: Sessions.State, x': Sessions.State) {
    || (exists m :: Sessions.ServerReads(x, m, x'))
    || (exists m :: Sessions.ServerWrites(x, m, x'))
  }

  /** Client `c` or the worker that serves it moves bytes. */
  ghost predicate MoveBytes(s: State, c: nat, s': State) {
    && c < |s.clients| == |s'.clients| && c < |s.worker| && s.worker[c].Some?
    && (ClientMove(s.clients[c], s'.clients[c]) || ServerMove(s.clients[c], s'.clients[c]))
    && s' == s.(clients := s.clients[c := s'.clients[c]])
  }

  ghost predicate Free(s: State, w: nat) { forall c :: 0 <= c < |s.worker| ==> s.worker[c] != Some(w) }

  /** A worker takes a client from the queue. */
  ghost predicate TakeClient(s: State, c: nat, w: nat, s': State) {
    && c < |s.clients| && c < |s.worker| && c !in s.taken && w + 1 < |s.store.threads| && Free(s, w)
    && s' == s.(worker := s.worker[c := Some(w)], taken := s.taken + {c})
  }

  /** The session is over. */
  ghost predicate DropClient(s: State, c: nat, s': State) {
    && c < |s.clients| && c < |s.worker| && s.worker[c].Some? && s.clients[c].server.Ended?
    && s' == s.(worker := s.worker[c := None])
  }

  /** The thread of the worker that serves client `c`. */
  ghost predicate ThreadOf(s: State, c: nat, w: nat) {
    c < |s.worker| && s.worker[c] == Some(w) && c < |s.works| && c < |s.clients| && w < |s.store.threads|
  }

  /** The outcome a thread at `pc` ends its operation with. */
  function OutcomeOf(pc: ServerStore.PC, es: seq<EventState>): Outcome {
    if pc.Leave? then Answer(pc.res)
    else if pc.ShowRead? && pc.k < |es| then Shown(es[pc.k].rows, es[pc.k].cols, pc.got)
    else NoEvent
  }

  /** The call behind an effect that this step of the store has, if it has one. */
  ghost predicate TagsEffect(s: State, tag: Tag, s': State) {
    s'.tags == if EffectAdded(s.store, s'.store) then s.tags + [tag] else s.tags
  }

  ghost predicate EffectAdded(s: ServerStore.State, s': ServerStore.State) {
    s'.history != s.history && s'.history != [] && Last(s'.history).Effect?
  }

  /** The worker calls the operation of the call it has decoded. */
  ghost predicate CallOperation(s: State, c: nat, w: nat, s': State) {
    && ThreadOf(s, c, w) && s.works[c].NotCalled? && s.clients[c].server.Executing?
    && RequestOf(s.clients[c].server.call).Some?
    && ServerStore.Step(s.store, w, RequestOf(s.clients[c].server.call).value) == Some(s'.store)
    && TagsEffect(s, Tag(c, |s.clients[c].sent|), s')
    && s' == s.(store := s'.store, works := s.works[c := UnderWay], tags := s'.tags)
  }

  /** One step of the operation. */
  ghost predicate RunOperation(s: State, c: nat, w: nat, s': State) {
    && ThreadOf(s, c, w) && s.works[c].UnderWay? && w < |s'.store.threads|
    && ServerStore.Step(s.store, w, ServerStore.Dump) == Some(s'.store)
    && TagsEffect(s, Tag(c, |s.clients[c].sent|), s')
    && s' == s.(store := s'.store, tags := s'.tags, works := s.works[c :=
         if s'.store.threads[w].Idle? then Back(OutcomeOf(s.store.threads[w], s.store.events)) else UnderWay])
  }

  /** The operation is over: the worker begins to write its reply. */
  ghost predicate AnswerCall(s: State, c: nat, w: nat, s': State) {
    && ThreadOf(s, c, w) && s.works[c].Back? && |s'.clients| == |s.clients|
    && Sessions.ServerAnswers(s.clients[c], ReplyOf(s.works[c].out), s'.clients[c])
    && s' == s.(clients := s.clients[c := s'.clients[c]], works := s.works[c := NotCalled])
  }

  /** The main thread dumps the store. */
  ghost predicate DumpMove(s: State, s': State) {
    && s.store.threads != []
    && ServerStore.Step(s.store, |s.store.threads| - 1, ServerStore.Dump) == Some(s'.store)
    && s' == s.(store := s'.store)
  }

  ghost predicate Next(s: State, s': State) {
    || (exists c: nat :: MoveBytes(s, c, s'))
    || (exists c: nat, w: nat :: TakeClient(s, c, w, s'))
    || (exists c: nat :: DropClient(s, c, s'))
    || (exists c: nat, w: nat :: CallOperation(s, c, w, s'))
    || (exists c: nat, w: nat :: RunOperation(s, c, w, s'))
    || (exists c: nat, w: nat :: AnswerCall(s, c, w, s'))
    || DumpMove(s, s')
  }

  ghost predicate IsInit(s: State) {
    exists clients, n: nat :: s == Init(clients, n) && AllNew(clients)
  }

  ghost predicate AllNew(clients: seq<Sessions.State>) {
    forall c :: 0 <= c < |clients| ==> Sessions.IsInit(clients[c])
  }

  ghost predicate Run(run: seq<State>) { Runs.Run(IsInit, Next, run) }

  // ----- Invariant -----

  /** The effects of a history, in order. */
  function Effects(h: seq<Ev>): (r: seq<Ev>)
    ensures forall j :: 0 <= j < |r| ==> r[j].Effect?
  {
    if h == [] then [] else Effects(Front(h)) + if Last(h).Effect? then [Last(h)] else []
  }

  /** The request a thread at `pc` works on. */
  function RequestAt(pc: ServerStore.PC): Option<ServerStore.Request> {
    match pc
    case Idle => None
    case CreateLock(op) => Some(ServerStore.Linear(op))
    case CreateSearch(op, _) => Some(ServerStore.Linear(op))
    case CreateAppend(op) => Some(ServerStore.Linear(op))
    case CreateUnlock(op, _) => Some(ServerStore.Linear(op))
    case FindLock(req) => Some(req)
    case FindSearch(req, _) => Some(req)
    case FindUnlock(req, _) => Some(req)
    case ReserveLock(op, _) => Some(ServerStore.Linear(op))
    case ReserveBounds(op, _) => Some(ServerStore.Linear(op))
    case ReserveScan(op, _, _) => Some(ServerStore.Linear(op))
    case ReserveBump(op, _) => Some(ServerStore.Linear(op))
    case ReserveWrite(op, _, _) => Some(ServerStore.Linear(op))
    case ReserveUnlock(op, _, _) => Some(ServerStore.Linear(op))
    case ShowRead(id, _, _, _) => Some(ServerStore.Show(id))
    case ListLock => Some(ServerStore.Linear(Store.ListEvents))
    case ListRead(_, _) => Some(ServerStore.Linear(Store.ListEvents))
    case ListUnlock(_) => Some(ServerStore.Linear(Store.ListEvents))
    case DumpLock => Some(ServerStore.Dump)
    case DumpEnter(_) => Some(ServerStore.Dump)
    case DumpRead(_, _) => Some(ServerStore.Dump)
    case DumpUnlock => Some(ServerStore.Dump)
    case Leave(op, _) => Some(ServerStore.Linear(op))
  }

  /** The effect behind tag `tag` came back with `res`. */
  ghost predicate ResultIs(s: State, tag: Tag, res: Store.Result) {
    exists j: nat :: TagAt(s, j, tag, res)
  }

  ghost predicate TagAt(s: State, j: nat, tag: Tag, res: Store.Result) {
    j < |s.tags| && j < |Effects(s.store.history)| && s.tags[j] == tag && Effects(s.store.history)[j].res == res
  }

  /** A grid that can have been read from the event `id` resolves to: no seat of it is made up. */
  ghost predicate GridOf(es: seq<EventState>, id: nat, rows: nat, cols: nat, data: seq<nat>) {
    exists k: nat :: GridAt(es, id, k, rows, cols, data)
  }

  ghost predicate GridAt(es: seq<EventState>, id: nat, k: nat, rows: nat, cols: nat, data: seq<nat>) {
    && Store.FoundAt(es, id, k) && es[k].rows == rows && es[k].cols == cols && |data| == |es[k].data|
    && forall x :: 0 <= x < |data| && data[x] != 0 ==> es[k].data[x] == data[x]
  }

  /** What the outcome of call `r`, whose effect if any has tag `tag`, must be. */
  ghost predicate OutcomeFits(s: State, r: Wire.Request, tag: Tag, out: Outcome) {
    match RequestOf(r)
    case None => false
    case Some(Linear(op)) => out.Answer? && ResultIs(s, tag, out.res)
    case Some(Show(id)) => out == NoEvent || (out.Shown? && GridOf(s.store.events, id, out.rows, out.cols, out.data))
    case Some(Dump) => false
  }

  ghost predicate WorkFits(s: State, c: nat) {
    c < |s.clients| && c < |s.worker| && c < |s.works| ==>
      var x := s.clients[c];
      match s.works[c]
      case NotCalled => s.worker[c].Some? && s.worker[c].value < |s.store.threads| ==> s.store.threads[s.worker[c].value].Idle?
      case UnderWay =>
        && s.worker[c].Some? && s.worker[c].value < |s.store.threads|
        && var pc := s.store.threads[s.worker[c].value];
        && !pc.Idle? && x.server.Executing? && RequestOf(x.server.call) == RequestAt(pc)
        && (ServerStore.PhaseAt(pc).Done? ==> ResultIs(s, Tag(c, |x.sent|), ServerStore.PhaseAt(pc).res))
      case Back(out) =>
        && s.worker[c].Some? && s.worker[c].value < |s.store.threads| && s.store.threads[s.worker[c].value].Idle?
        && x.server.Executing? && OutcomeFits(s, x.server.call, Tag(c, |x.sent|), out)
  }

  /** A worker serves one client at a time, a client it has taken. */
  ghost predicate ServesOne(s: State, c: nat, d: nat) {
    c < |s.worker| && d < |s.worker| && s.worker[c].Some? ==>
      && s.worker[c].value + 1 < |s.store.threads| && c in s.taken
      && (s.worker[d] == s.worker[c] ==> d == c)
  }

  /** A thread in the store serves somebody, or is the main thread. */
  ghost predicate ThreadFits(s: State, w: nat) {
    w + 1 < |s.store.threads| && Free(s, w) ==> s.store.threads[w].Idle?
  }

  /** The main thread dumps or does nothing. */
  ghost predicate MainFits(s: State) {
    s.store.threads != [] ==>
      RequestAt(s.store.threads[|s.store.threads| - 1]) in {None, Some(ServerStore.Dump)}
  }

  /** The operation of the call that client `c` waits for has had its effect. */
  ghost predicate AfterEffect(s: State, c: nat) {
    && c < |s.works| && c < |s.worker|
    && (s.works[c].Back? || (s.works[c].UnderWay? && s.worker[c].Some? && s.worker[c].value < |s.store.threads| &&
          ServerStore.PhaseAt(s.store.threads[s.worker[c].value]).Done?))
  }

  ghost predicate LinearCall(s: State, c: nat, i: nat) {
    && c < |s.clients| && i < |s.clients[c].calls|
    && RequestOf(s.clients[c].calls[i]).Some? && RequestOf(s.clients[c].calls[i]).value.Linear?
  }

  /** Call `i` of client `c` has an effect if it is answered, or will be with what it has found. */
  ghost predicate Effective(s: State, c: nat, i: nat) {
    LinearCall(s, c, i) && (i < |s.clients[c].sent| || (i == |s.clients[c].sent| && AfterEffect(s, c)))
  }

  ghost predicate CallFits(s: State, c: nat, i: nat) { Tag(c, i) in s.tags <==> Effective(s, c, i) }

  /** Effect `j` is that of the call behind it, and the reply to that call reports it. */
  ghost predicate EffectFits(s: State, j: nat) {
    j < |s.tags| && j < |Effects(s.store.history)| ==>
      var (tag, e) := (s.tags[j], Effects(s.store.history)[j]);
      && LinearCall(s, tag.client, tag.call)
      && var x := s.clients[tag.client];
      && RequestOf(x.calls[tag.call]).value.op == e.op
      && (tag.call < |x.sent| ==> x.sent[tag.call] == ReplyOf(Answer(e.res)))
  }

  /** What SHOW has answered. */
  ghost predicate ShowFits(s: State, c: nat, i: nat) {
    c < |s.clients| && i < |s.clients[c].sent| && i < |s.clients[c].calls| && s.clients[c].calls[i].Show? ==>
      var p := s.clients[c].sent[i];
      || p == ReplyOf(NoEvent)
      || (p.Grid? && p.status == 0 && GridOf(s.store.events, s.clients[c].calls[i].id, p.rows, p.cols, p.data))
  }

  /** Different effects are of different calls, and those of one client in the order of its calls. */
  ghost predicate InCallOrder(a: Tag, b: Tag) { a.client == b.client ==> a.call < b.call }

  ghost predicate CallOrder(tags: seq<Tag>) {
    forall i, j :: 0 <= i < j < |tags| ==> InCallOrder(tags[i], tags[j])
  }

  ghost predicate Sized(s: State) {
    && |s.worker| == |s.works| == |s.clients| && |s.store.threads| > 0
    && |s.tags| == |Effects(s.store.history)|
  }

  ghost predicate ClientOk(s: State, c: nat) { c < |s.clients| ==> Sessions.Inv(s.clients[c]) }

  ghost predicate Fits(s: State) {
    && Sized(s)
    && (forall c: nat :: ClientOk(s, c))
    && (forall c: nat :: WorkFits(s, c))
    && (forall c: nat, d: nat :: ServesOne(s, c, d))
    && (forall w: nat :: ThreadFits(s, w))
    && MainFits(s)
    && (forall c: nat, i: nat :: CallFits(s, c, i))
    && (forall j: nat :: EffectFits(s, j))
    && (forall c: nat, i: nat :: ShowFits(s, c, i))
    && CallOrder(s.tags)
  }

  ghost predicate Inv(s: State) { ServerStore.Inv(s.store) && Fits(s) }

  // ----- The store's steps, seen from the calls -----

  lemma EffectsSnoc(h: seq<Ev>, e: Ev)
    ensures Effects(h + [e]) == Effects(h) + if e.Effect? then [e] else []
  {
    assert Front(h + [e]) == h;
  }

  /** What a step of thread `t` adds to the history: nothing, or the next event of its operation. */
  ghost predicate LogStep(s: ServerStore.State, t: nat, s': ServerStore.State) {
    && t < |s.threads| == |s'.threads| && s'.threads == s.threads[t := s'.threads[t]]
    && var (p, p') := (ServerStore.PhaseAt(s.threads[t]), ServerStore.PhaseAt(s'.threads[t]));
    if s'.history == s.history then p' == p
    else
      && s'.history != [] && s'.history == s.history + [Last(s'.history)]
      && var e := Last(s'.history);
      e.t == t && p == PhaseBefore(e) && p' == PhaseAfter(e)
  }

  /** The thread stays with its request until it is idle again. */
  ghost predicate StaysWith(s: ServerStore.State, t: nat, s': ServerStore.State) {
    && t < |s.threads| == |s'.threads|
    && (RequestAt(s'.threads[t]) == RequestAt(s.threads[t]) || s'.threads[t].Idle?)
  }

  lemma CreateLogs(s: ServerStore.State, t: nat, s': ServerStore.State)
    requires t < |s.threads| && ServerStore.StepCreate(s, t) == Some(s')
    ensures LogStep(s, t, s') && StaysWith(s, t, s')
  {
  }

  lemma FindLogs(s: ServerStore.State, t: nat, s': ServerStore.State)
    requires t < |s.threads| && ServerStore.StepFind(s, t) == Some(s')
    ensures LogStep(s, t, s') && StaysWith(s, t, s')
  {
  }

  lemma ReserveLogs(s: ServerStore.State, t: nat, s': ServerStore.State)
    requires t < |s.threads| && ServerStore.StepReserve(s, t) == Some(s')
    ensures LogStep(s, t, s') && StaysWith(s, t, s')
  {
  }

  lemma ShowLogs(s: ServerStore.State, t: nat, s': ServerStore.State)
    requires t < |s.threads| && ServerStore.StepShow(s, t) == Some(s')
    ensures LogStep(s, t, s') && StaysWith(s, t, s')
  {
  }

  lemma ListLogs(s: ServerStore.State, t: nat, s': ServerStore.State)
    requires t < |s.threads| && ServerStore.StepList(s, t) == Some(s')
    ensures LogStep(s, t, s') && StaysWith(s, t, s')
  {
  }

  lemma DumpLogs(s: ServerStore.State, t: nat, s': ServerStore.State)
    requires t < |s.threads| && ServerStore.StepDump(s, t) == Some(s')
    ensures LogStep(s, t, s') && StaysWith(s, t, s')
  {
  }

  lemma BeginLogs(s: ServerStore.State, t: nat, req: ServerStore.Request, s': ServerStore.State)
    requires t < |s.threads| && s.threads[t].Idle? && ServerStore.Step(s, t, req) == Some(s')
    ensures LogStep(s, t, s') && RequestAt(s'.threads[t]) == Some(req) && !s'.threads[t].Idle?
  {
  }

  lemma StepLogs(s: ServerStore.State, t: nat, req: ServerStore.Request, s': ServerStore.State)
    requires ServerStore.Inv(s) && t < |s.threads| && !s.threads[t].Idle?
    requires ServerStore.Step(s, t, req) == Some(s')
    ensures LogStep(s, t, s') && StaysWith(s, t, s')
  {
    assert ServerStore.ThreadInv(s, t);
    if s.threads[t].Leave? {
    } else if ServerStore.StepCreate(s, t) == Some(s') {
      CreateLogs(s, t, s');
    } else if ServerStore.StepFind(s, t) == Some(s') {
      FindLogs(s, t, s');
    } else if ServerStore.StepShow(s, t) == Some(s') {
      ShowLogs(s, t, s');
    } else if ServerStore.StepList(s, t) == Some(s') {
      ListLogs(s, t, s');
    } else if ServerStore.StepDump(s, t) == Some(s') {
      DumpLogs(s, t, s');
    } else {
      ReserveLogs(s, t, s');
    }
  }

  // ----- What a step keeps -----

  /** All a step may do to what calls have found: add effects, seats and events. */
  ghost predicate Grows(s: State, s': State) {
    && |s.tags| == |Effects(s.store.history)| && |s'.tags| == |Effects(s'.store.history)|
    && s.tags <= s'.tags && Effects(s.store.history) <= Effects(s'.store.history)
    && ServerTheorems.Extends(s.store.events, s'.store.events)
  }

  lemma ResultStays(s: State, s': State, tag: Tag, res: Store.Result)
    requires Grows(s, s') && ResultIs(s, tag, res)
    ensures ResultIs(s', tag, res)
  {
    var j: nat :| TagAt(s, j, tag, res);
    assert TagAt(s', j, tag, res);
  }

  lemma GridStays(es: seq<EventState>, es': seq<EventState>, id: nat, rows: nat, cols: nat, data: seq<nat>)
    requires ServerTheorems.Extends(es, es') && GridOf(es, id, rows, cols, data)
    ensures GridOf(es', id, rows, cols, data)
  {
    var k: nat :| GridAt(es, id, k, rows, cols, data);
    assert ServerStore.SameFrame(es[k], es'[k]);
    assert forall j :: 0 <= j < k ==> ServerStore.SameFrame(es[j], es'[j]);
    assert GridAt(es', id, k, rows, cols, data);
  }

  lemma OutcomeStays(s: State, s': State, r: Wire.Request, tag: Tag, out: Outcome)
    requires Grows(s, s') && OutcomeFits(s, r, tag, out)
    ensures OutcomeFits(s', r, tag, out)
  {
    match RequestOf(r).value
    case Linear(op) => ResultStays(s, s', tag, out.res);
    case Show(id) =>
      if out.Shown? {
        GridStays(s.store.events, s'.store.events, id, out.rows, out.cols, out.data);
      }
  }

  /** Client `c` stays where it was, as far as its call is concerned. */
  ghost predicate SameCall(s: State, s': State, c: nat)
    requires c < |s.clients| && c < |s'.clients|
  {
    && s'.clients[c].calls == s.clients[c].calls && s'.clients[c].sent == s.clients[c].sent
    && (s.clients[c].server.Executing? ==> s'.clients[c].server == s.clients[c].server)
  }

  /** Client `c`, its worker and its worker's thread stay where they were. */
  ghost predicate Untouched(s: State, s': State, c: nat)
    requires c < |s.clients| && c < |s'.clients|
  {
    && SameCall(s, s', c) && c < |s.works| && c < |s'.works| && c < |s.worker| && c < |s'.worker|
    && s'.works[c] == s.works[c] && s'.worker[c] == s.worker[c]
    && |s'.store.threads| == |s.store.threads|
    && (s.worker[c].Some? && s.worker[c].value < |s.store.threads| ==>
          s'.store.threads[s.worker[c].value] == s.store.threads[s.worker[c].value])
  }

  lemma UntouchedWork(s: State, s': State, c: nat)
    requires Grows(s, s') && c < |s.clients| && c < |s'.clients| && Untouched(s, s', c) && WorkFits(s, c)
    ensures WorkFits(s', c)
    ensures AfterEffect(s', c) <==> AfterEffect(s, c)
  {
    var tag := Tag(c, |s.clients[c].sent|);
    match s.works[c]
    case NotCalled =>
    case UnderWay =>
      var pc := s.store.threads[s.worker[c].value];
      if ServerStore.PhaseAt(pc).Done? {
        ResultStays(s, s', tag, ServerStore.PhaseAt(pc).res);
      }
    case Back(out) => OutcomeStays(s, s', s.clients[c].server.call, tag, out);
  }

  lemma ShowStays(s: State, s': State, c: nat, i: nat)
    requires Grows(s, s') && c < |s.clients| && c < |s'.clients| && SameCall(s, s', c) && ShowFits(s, c, i)
    ensures ShowFits(s', c, i)
  {
    var x := s.clients[c];
    if i < |x.sent| && i < |x.calls| && x.calls[i].Show? && x.sent[i] != ReplyOf(NoEvent) {
      var p := x.sent[i];
      GridStays(s.store.events, s'.store.events, x.calls[i].id, p.rows, p.cols, p.data);
    }
  }

  lemma CallsStay(s: State, s': State)
    requires Grows(s, s') && s'.tags == s.tags && Effects(s'.store.history) == Effects(s.store.history)
    requires |s'.clients| == |s.clients|
    requires forall c: nat :: c < |s.clients| ==> SameCall(s, s', c) && (AfterEffect(s', c) <==> AfterEffect(s, c))
    requires forall c: nat, i: nat :: CallFits(s, c, i)
    requires forall j: nat :: EffectFits(s, j)
    requires forall c: nat, i: nat :: ShowFits(s, c, i)
    ensures forall c: nat, i: nat :: CallFits(s', c, i)
    ensures forall j: nat :: EffectFits(s', j)
    ensures forall c: nat, i: nat :: ShowFits(s', c, i)
  {
    forall c: nat, i: nat
      ensures CallFits(s', c, i)
    {
      assert CallFits(s, c, i);
      if c < |s.clients| {
        assert SameCall(s, s', c);
      }
    }
    forall j: nat
      ensures EffectFits(s', j)
    {
      assert EffectFits(s, j);
      if j < |s.tags| {
        assert SameCall(s, s', s.tags[j].client);
      }
    }
    forall c: nat, i: nat
      ensures ShowFits(s', c, i)
    {
      assert ShowFits(s, c, i);
      if c < |s.clients| {
        ShowStays(s, s', c, i);
      }
    }
  }

  lemma StoreStays(s: State, s': State)
    requires Sized(s) && s'.store == s.store && s'.tags == s.tags
    ensures Grows(s, s')
  {
    forall k | 0 <= k < |s.store.events|
      ensures ServerStore.SameFrame(s.store.events[k], s'.store.events[k])
    {
    }
  }

  // ----- Bytes -----

  lemma ClientMoveSame(x: Sessions.State, x': Sessions.State)
    requires ClientMove(x, x')
    ensures Sessions.Next(x, x') && x'.calls == x.calls && x'.sent == x.sent && x'.server == x.server
  {
  }

  lemma ServerMoveSame(x: Sessions.State, x': Sessions.State)
    requires ServerMove(x, x')
    ensures Sessions.Next(x, x') && x'.calls == x.calls && x'.sent == x.sent && !x.server.Executing?
  {
  }

  lemma BytesSame(x: Sessions.State, x': Sessions.State)
    requires Sessions.Inv(x) && (ClientMove(x, x') || ServerMove(x, x'))
    ensures Sessions.Inv(x') && x'.calls == x.calls && x'.sent == x.sent
    ensures x.server.Executing? ==> x'.server == x.server
  {
    if ClientMove(x, x') {
      ClientMoveSame(x, x');
    } else {
      ServerMoveSame(x, x');
    }
    Sessions.NextKeepsInv(x, x');
  }

  lemma ClientsOk(s: State, c: nat, s': State)
    requires c < |s.clients| && |s'.clients| == |s.clients| && s'.clients == s.clients[c := s'.clients[c]]
    requires (forall d: nat :: ClientOk(s, d)) && ClientOk(s', c)
    ensures forall d: nat :: ClientOk(s', d)
  {
    forall d: nat
      ensures ClientOk(s', d)
    {
      assert ClientOk(s, d);
    }
  }

  lemma BytesOk(s: State, c: nat, s': State)
    requires ClientOk(s, c) && MoveBytes(s, c, s')
    ensures ClientOk(s', c) && SameCall(s, s', c)
  {
    BytesSame(s.clients[c], s'.clients[c]);
  }

  lemma BytesKeepFits(s: State, c: nat, s': State)
    requires Fits(s) && MoveBytes(s, c, s')
    ensures Fits(s')
  {
    assert ClientOk(s, c);
    BytesOk(s, c, s');
    ClientsOk(s, c, s');
    StoreStays(s, s');
    WorksStay(s, s');
    CallsStay(s, s');
    SamePlaces(s, s');
  }

  lemma WorksStay(s: State, s': State)
    requires Grows(s, s') && |s'.clients| == |s.clients| && |s.works| == |s.worker| == |s.clients|
    requires |s'.works| == |s'.worker| == |s.clients|
    requires forall c: nat :: c < |s.clients| ==> Untouched(s, s', c)
    requires forall c: nat :: WorkFits(s, c)
    ensures forall c: nat :: WorkFits(s', c)
    ensures forall c: nat :: c < |s.clients| ==> (AfterEffect(s', c) <==> AfterEffect(s, c))
  {
    forall c: nat
      ensures WorkFits(s', c)
      ensures c < |s.clients| ==> (AfterEffect(s', c) <==> AfterEffect(s, c))
    {
      assert WorkFits(s, c);
      if c < |s.clients| {
        UntouchedWork(s, s', c);
      }
    }
  }

  /** Nobody changes places and no thread moves. */
  lemma SamePlaces(s: State, s': State)
    requires s'.worker == s.worker && s'.taken == s.taken && s'.store.threads == s.store.threads
    requires (forall c: nat, d: nat :: ServesOne(s, c, d)) && (forall w: nat :: ThreadFits(s, w)) && MainFits(s)
    ensures (forall c: nat, d: nat :: ServesOne(s', c, d)) && (forall w: nat :: ThreadFits(s', w)) && MainFits(s')
  {
    forall c: nat, d: nat
      ensures ServesOne(s', c, d)
    {
      assert ServesOne(s, c, d);
    }
    forall w: nat
      ensures ThreadFits(s', w)
    {
      assert ThreadFits(s, w);
      assert Free(s', w) <==> Free(s, w);
    }
  }

  // ----- Taking and dropping a client -----

  lemma TakeKeepsFits(s: State, c: nat, w: nat, s': State)
    requires Fits(s) && TakeClient(s, c, w, s')
    ensures Fits(s')
  {
    StoreStays(s, s');
    assert ServesOne(s, c, c) && ThreadFits(s, w) && WorkFits(s, c) && ClientOk(s, c);
    forall d: nat
      ensures WorkFits(s', d)
      ensures d < |s.clients| ==> (AfterEffect(s', d) <==> AfterEffect(s, d))
    {
      assert WorkFits(s, d);
      if d < |s.clients| && d != c {
        UntouchedWork(s, s', d);
      }
    }
    CallsStay(s, s');
    ClientsOk(s, c, s');
    TakenPlaces(s, c, w, s');
  }

  lemma TakenPlaces(s: State, c: nat, w: nat, s': State)
    requires Fits(s) && TakeClient(s, c, w, s')
    ensures (forall d: nat, e: nat :: ServesOne(s', d, e)) && (forall v: nat :: ThreadFits(s', v)) && MainFits(s')
  {
    assert ServesOne(s, c, c);
    forall d: nat, e: nat
      ensures ServesOne(s', d, e)
    {
      assert ServesOne(s, d, e);
    }
    forall v: nat
      ensures ThreadFits(s', v)
    {
      assert ThreadFits(s, v);
      if Free(s', v) {
        assert forall d :: 0 <= d < |s.worker| && d != c ==> s.worker[d] == s'.worker[d];
      }
    }
  }

  lemma DropKeepsFits(s: State, c: nat, s': State)
    requires Fits(s) && DropClient(s, c, s')
    ensures Fits(s')
  {
    StoreStays(s, s');
    assert ServesOne(s, c, c) && WorkFits(s, c) && ClientOk(s, c);
    forall d: nat
      ensures WorkFits(s', d)
      ensures d < |s.clients| ==> (AfterEffect(s', d) <==> AfterEffect(s, d))
    {
      assert WorkFits(s, d);
      if d < |s.clients| && d != c {
        UntouchedWork(s, s', d);
      }
    }
    CallsStay(s, s');
    ClientsOk(s, c, s');
    DroppedPlaces(s, c, s');
  }

  lemma DroppedPlaces(s: State, c: nat, s': State)
    requires Fits(s) && DropClient(s, c, s')
    ensures (forall d: nat, e: nat :: ServesOne(s', d, e)) && (forall v: nat :: ThreadFits(s', v)) && MainFits(s')
  {
    assert ServesOne(s, c, c) && WorkFits(s, c);
    forall d: nat, e: nat
      ensures ServesOne(s', d, e)
    {
      assert ServesOne(s, d, e);
    }
    forall v: nat
      ensures ThreadFits(s', v)
    {
      assert ThreadFits(s, v);
      if Free(s', v) && s.worker[c] != Some(v) {
        assert forall d :: 0 <= d < |s.worker| && d != c ==> s.worker[d] == s'.worker[d];
        assert Free(s, v);
      }
    }
  }

  // ----- The store moves -----

  lemma PhaseRequest(pc: ServerStore.PC)
    ensures var p := ServerStore.PhaseAt(pc); !p.Out? ==> RequestAt(pc) == Some(ServerStore.Linear(p.op))
    ensures RequestAt(pc).Some? && RequestAt(pc).value.Linear? ==> !ServerStore.PhaseAt(pc).Out?
    ensures RequestAt(pc).None? <==> pc.Idle?
  {
  }

  /** A step of a thread, as far as effects go: the effect of its operation, or a step before or after. */
  ghost predicate EffectStep(s: ServerStore.State, t: nat, s': ServerStore.State) {
    && t < |s.threads| == |s'.threads| && s'.threads == s.threads[t := s'.threads[t]]
    && var (p, p') := (ServerStore.PhaseAt(s.threads[t]), ServerStore.PhaseAt(s'.threads[t]));
    if EffectAdded(s, s') then
      && p.Called? && p'.Done? && p'.op == p.op
      && Effects(s'.history) == Effects(s.history) + [Effect(t, p.op, p'.res)]
    else
      && Effects(s'.history) == Effects(s.history)
      && (p'.Done? ==> p' == p) && (p'.Called? ==> !p.Done?) && (p'.Out? ==> !p.Called?)
  }

  lemma LogIsEffect(s: ServerStore.State, t: nat, s': ServerStore.State)
    requires LogStep(s, t, s')
    ensures EffectStep(s, t, s')
  {
    if s'.history != s.history {
      EffectsSnoc(s.history, Last(s'.history));
    }
  }

  /** What a step of the store by thread `w` is to the rest. */
  ghost predicate StoreStep(s: State, w: nat, s': State) {
    && EffectStep(s.store, w, s'.store)
    && ServerTheorems.Extends(s.store.events, s'.store.events)
    && s'.clients == s.clients && s'.worker == s.worker && s'.taken == s.taken
  }

  lemma StoreMoves(s: State, w: nat, req: ServerStore.Request, s': State)
    requires ServerStore.Inv(s.store) && w < |s.store.threads|
    requires ServerStore.Step(s.store, w, req) == Some(s'.store)
    requires s'.clients == s.clients && s'.worker == s.worker && s'.taken == s.taken
    ensures StoreStep(s, w, s')
    ensures s.store.threads[w].Idle? ==>
      RequestAt(s'.store.threads[w]) == Some(req) && !EffectAdded(s.store, s'.store)
    ensures !s.store.threads[w].Idle? ==> StaysWith(s.store, w, s'.store)
  {
    if s.store.threads[w].Idle? {
      BeginLogs(s.store, w, req, s'.store);
    } else {
      StepLogs(s.store, w, req, s'.store);
    }
    LogIsEffect(s.store, w, s'.store);
    ServerTheorems.StepGrows(s.store, w, req, s'.store);
  }

  // ----- The dump -----

  lemma DumpKeepsFits(s: State, s': State)
    requires Fits(s) && ServerStore.Inv(s.store) && DumpMove(s, s')
    ensures Fits(s')
  {
    var w := |s.store.threads| - 1;
    StoreMoves(s, w, ServerStore.Dump, s');
    PhaseRequest(s.store.threads[w]);
    PhaseRequest(s'.store.threads[w]);
    MainUntouched(s, s', w);
    WorksStay(s, s');
    CallsStay(s, s');
    forall c: nat
      ensures ClientOk(s', c)
    {
      assert ClientOk(s, c);
    }
    MainPlaces(s, s', w);
  }

  lemma MainUntouched(s: State, s': State, w: nat)
    requires Fits(s) && StoreStep(s, w, s') && w + 1 == |s.store.threads| && !EffectAdded(s.store, s'.store)
    requires s'.tags == s.tags && s'.works == s.works
    ensures Grows(s, s')
    ensures forall c: nat :: c < |s.clients| ==> Untouched(s, s', c)
  {
    forall c: nat | c < |s.clients|
      ensures Untouched(s, s', c)
    {
      assert ServesOne(s, c, c);
    }
  }

  lemma MainPlaces(s: State, s': State, w: nat)
    requires Fits(s) && StoreStep(s, w, s') && w + 1 == |s.store.threads|
    requires RequestAt(s'.store.threads[w]) in {None, Some(ServerStore.Dump)}
    ensures (forall c: nat, d: nat :: ServesOne(s', c, d)) && (forall v: nat :: ThreadFits(s', v)) && MainFits(s')
  {
    forall c: nat, d: nat
      ensures ServesOne(s', c, d)
    {
      assert ServesOne(s, c, d);
    }
    forall v: nat
      ensures ThreadFits(s', v)
    {
      assert ThreadFits(s, v);
      assert Free(s', v) <==> Free(s, v);
    }
  }

  // ----- One step of an operation -----

  /** The call a server executes is the next one its client waits for. */
  lemma ExecutesNext(x: Sessions.State)
    requires Sessions.Inv(x) && x.server.Executing?
    ensures |x.sent| < |x.calls| && x.server.call == x.calls[|x.sent|] && |x.received| == |x.sent|
  {
  }

  /** What the call of client `c` and the step of its worker `w` have to do with each other. */
  ghost predicate OperationMove(s: State, c: nat, w: nat, s': State) {
    && ThreadOf(s, c, w) && StoreStep(s, w, s') && s.clients[c].server.Executing?
    && |s'.works| == |s.works| && s'.works == s.works[c := s'.works[c]]
    && TagsEffect(s, Tag(c, |s.clients[c].sent|), s')
    && var (req, pc, pc') := (RequestOf(s.clients[c].server.call), s.store.threads[w], s'.store.threads[w]);
    && req.Some? && (pc'.Idle? || RequestAt(pc') == req)
    && s'.works[c] == (if pc'.Idle? then s'.works[c] else UnderWay)
    && if s.works[c].NotCalled? then pc.Idle? && !pc'.Idle? && !EffectAdded(s.store, s'.store)
       else s.works[c].UnderWay? && RequestAt(pc) == req && !pc.Idle? && (pc'.Idle? ==> s'.works[c].Back?)
  }

  lemma CallIsMove(s: State, c: nat, w: nat, s': State)
    requires Fits(s) && ServerStore.Inv(s.store) && CallOperation(s, c, w, s')
    ensures OperationMove(s, c, w, s')
  {
    assert WorkFits(s, c);
    StoreMoves(s, w, RequestOf(s.clients[c].server.call).value, s');
    PhaseRequest(s'.store.threads[w]);
  }

  lemma RunIsMove(s: State, c: nat, w: nat, s': State)
    requires Fits(s) && ServerStore.Inv(s.store) && RunOperation(s, c, w, s')
    ensures OperationMove(s, c, w, s')
    ensures s'.store.threads[w].Idle? ==> s'.works[c] == Back(OutcomeOf(s.store.threads[w], s.store.events))
  {
    assert WorkFits(s, c);
    StoreMoves(s, w, ServerStore.Dump, s');
    PhaseRequest(s.store.threads[w]);
  }

  /** The effect of an operation is that of its call; it comes once. */
  lemma EffectOfCall(s: State, c: nat, w: nat, s': State)
    requires WorkFits(s, c) && c < |s'.worker| && OperationMove(s, c, w, s')
    ensures EffectAdded(s.store, s'.store) ==>
      && !AfterEffect(s, c)
      && RequestOf(s.clients[c].server.call).value.Linear?
      && Effects(s'.store.history) == Effects(s.store.history) +
           [Effect(w, RequestOf(s.clients[c].server.call).value.op, ServerStore.PhaseAt(s'.store.threads[w]).res)]
    ensures RequestOf(s.clients[c].server.call).value.Linear? ==>
      (AfterEffect(s', c) <==> AfterEffect(s, c) || EffectAdded(s.store, s'.store))
  {
    PhaseRequest(s.store.threads[w]);
    PhaseRequest(s'.store.threads[w]);
  }

  lemma MoveGrows(s: State, c: nat, w: nat, s': State)
    requires Sized(s) && WorkFits(s, c) && c < |s'.worker| && OperationMove(s, c, w, s')
    ensures Grows(s, s')
  {
    EffectOfCall(s, c, w, s');
  }

  lemma OthersUntouched(s: State, c: nat, w: nat, s': State, d: nat)
    requires Sized(s) && ServesOne(s, c, d) && OperationMove(s, c, w, s') && d < |s.clients| && d != c
    ensures Untouched(s, s', d)
  {
  }

  /** The caller's own work, while its operation goes on. */
  lemma WorkGoesOn(s: State, c: nat, w: nat, s': State)
    requires Sized(s) && WorkFits(s, c) && OperationMove(s, c, w, s') && Grows(s, s')
    requires !s'.store.threads[w].Idle?
    ensures WorkFits(s', c)
  {
    EffectOfCall(s, c, w, s');
    PhaseRequest(s.store.threads[w]);
    var tag, p := Tag(c, |s.clients[c].sent|), ServerStore.PhaseAt(s'.store.threads[w]);
    if p.Done? {
      if EffectAdded(s.store, s'.store) {
        assert TagAt(s', |s.tags|, tag, p.res);
      } else {
        ResultStays(s, s', tag, p.res);
      }
    }
  }

  /** A SHOW that has read the whole grid. */
  lemma ShowEnds(s: ServerStore.State, pc: ServerStore.PC)
    requires |ServerStore.Abs(s)| == |s.events| && ServerStore.ThreadOk(s, pc)
    requires pc.ShowRead? && pc.k < |s.events| && |pc.got| >= |s.events[pc.k].data|
    ensures GridOf(s.events, pc.id, s.events[pc.k].rows, s.events[pc.k].cols, pc.got)
  {
    assert GridAt(s.events, pc.id, pc.k, s.events[pc.k].rows, s.events[pc.k].cols, pc.got);
  }

  lemma EndsWhere(s: ServerStore.State, w: nat, s': ServerStore.State)
    requires w < |s.threads| == |s'.threads| && !s.threads[w].Idle? && s'.threads[w].Idle?
    requires ServerStore.Step(s, w, ServerStore.Dump) == Some(s')
    ensures var (req, pc) := (RequestAt(s.threads[w]), s.threads[w]);
      && req.Some?
      && (req.value.Linear? ==> pc.Leave?)
      && (req.value.Show? ==> !pc.Leave?)
      && (pc.ShowRead? ==> pc.k < |s.events| && |pc.got| >= |s.events[pc.k].data|)
  {
  }

  /** Where operations end. */
  lemma OperationEnds(s: ServerStore.State, w: nat, s': ServerStore.State)
    requires ServerStore.Inv(s) && w < |s.threads| == |s'.threads| && !s.threads[w].Idle? && s'.threads[w].Idle?
    requires ServerStore.Step(s, w, ServerStore.Dump) == Some(s')
    ensures var (req, pc) := (RequestAt(s.threads[w]), s.threads[w]);
      && req.Some?
      && (req.value.Linear? ==> pc.Leave?)
      && (req.value.Show? ==> !pc.Leave?)
      && (req.value.Show? && pc.ShowRead? ==>
            pc.k < |s.events| && GridOf(s.events, req.value.id, s.events[pc.k].rows, s.events[pc.k].cols, pc.got))
  {
    assert ServerStore.ThreadInv(s, w);
    EndsWhere(s, w, s');
    if s.threads[w].ShowRead? {
      ShowEnds(s, s.threads[w]);
    }
  }

  lemma WorkEnds(s: State, c: nat, w: nat, s': State)
    requires ServerStore.Inv(s.store) && Sized(s) && WorkFits(s, c) && OperationMove(s, c, w, s') && Grows(s, s')
    requires s.works[c].UnderWay? && s'.store.threads[w].Idle?
    requires ServerStore.Step(s.store, w, ServerStore.Dump) == Some(s'.store)
    requires s'.works[c] == Back(OutcomeOf(s.store.threads[w], s.store.events))
    ensures WorkFits(s', c)
  {
    OperationEnds(s.store, w, s'.store);
    var tag, out := Tag(c, |s.clients[c].sent|), OutcomeOf(s.store.threads[w], s.store.events);
    OutcomeStays(s, s', s.clients[c].server.call, tag, out);
  }

  lemma MovedWorks(s: State, c: nat, w: nat, s': State)
    requires Fits(s) && OperationMove(s, c, w, s') && Grows(s, s') && WorkFits(s', c)
    ensures forall d: nat :: WorkFits(s', d)
    ensures forall d: nat :: d < |s.clients| && d != c ==> (AfterEffect(s', d) <==> AfterEffect(s, d))
  {
    forall d: nat
      ensures WorkFits(s', d)
      ensures d < |s.clients| && d != c ==> (AfterEffect(s', d) <==> AfterEffect(s, d))
    {
      assert WorkFits(s, d);
      if d < |s.clients| && d != c {
        assert ServesOne(s, c, d);
        OthersUntouched(s, c, w, s', d);
        UntouchedWork(s, s', d);
      }
    }
  }

  lemma MovedPlaces(s: State, c: nat, w: nat, s': State)
    requires Fits(s) && OperationMove(s, c, w, s')
    ensures (forall d: nat, e: nat :: ServesOne(s', d, e)) && (forall v: nat :: ThreadFits(s', v)) && MainFits(s')
  {
    assert ServesOne(s, c, c);
    forall d: nat, e: nat
      ensures ServesOne(s', d, e)
    {
      assert ServesOne(s, d, e);
    }
    forall v: nat
      ensures ThreadFits(s', v)
    {
      assert ThreadFits(s, v);
      assert Free(s', v) <==> Free(s, v);
    }
  }

  lemma MovedCall(s: State, c: nat, w: nat, s': State, d: nat, i: nat)
    requires CallFits(s, d, i) && WorkFits(s, c) && ClientOk(s, c) && OperationMove(s, c, w, s')
    requires d < |s.clients| && d != c ==> (AfterEffect(s', d) <==> AfterEffect(s, d))
    ensures CallFits(s', d, i)
  {
    EffectOfCall(s, c, w, s');
    ExecutesNext(s.clients[c]);
  }

  lemma MovedEffect(s: State, c: nat, w: nat, s': State, j: nat)
    requires Sized(s) && EffectFits(s, j) && WorkFits(s, c) && ClientOk(s, c) && OperationMove(s, c, w, s')
    ensures EffectFits(s', j)
  {
    EffectOfCall(s, c, w, s');
    ExecutesNext(s.clients[c]);
  }

  lemma MovedOrder(s: State, c: nat, w: nat, s': State)
    requires Fits(s) && OperationMove(s, c, w, s')
    ensures CallOrder(s'.tags)
  {
    assert WorkFits(s, c);
    EffectOfCall(s, c, w, s');
    forall i, j | 0 <= i < j < |s'.tags|
      ensures InCallOrder(s'.tags[i], s'.tags[j])
    {
      if j < |s.tags| {
        assert InCallOrder(s.tags[i], s.tags[j]);
      } else {
        assert CallFits(s, s.tags[i].client, s.tags[i].call);
        assert Tag(s.tags[i].client, s.tags[i].call) in s.tags;
      }
    }
  }

  lemma MoveKeepsFits(s: State, c: nat, w: nat, s': State)
    requires Fits(s) && OperationMove(s, c, w, s') && Grows(s, s') && WorkFits(s', c)
    ensures Fits(s')
  {
    assert WorkFits(s, c) && ClientOk(s, c);
    MovedWorks(s, c, w, s');
    MovedPlaces(s, c, w, s');
    MovedOrder(s, c, w, s');
    ClientsOk(s, c, s');
    MovedCalls(s, c, w, s');
  }

  lemma MovedCalls(s: State, c: nat, w: nat, s': State)
    requires Fits(s) && OperationMove(s, c, w, s') && Grows(s, s')
    requires forall d: nat :: d < |s.clients| && d != c ==> (AfterEffect(s', d) <==> AfterEffect(s, d))
    ensures forall d: nat, i: nat :: CallFits(s', d, i)
    ensures forall j: nat :: EffectFits(s', j)
    ensures forall d: nat, i: nat :: ShowFits(s', d, i)
  {
    assert WorkFits(s, c) && ClientOk(s, c);
    forall d: nat, i: nat
      ensures CallFits(s', d, i)
    {
      assert CallFits(s, d, i);
      MovedCall(s, c, w, s', d, i);
    }
    forall j: nat
      ensures EffectFits(s', j)
    {
      assert EffectFits(s, j);
      MovedEffect(s, c, w, s', j);
    }
    forall d: nat, i: nat
      ensures ShowFits(s', d, i)
    {
      assert ShowFits(s, d, i);
      if d < |s.clients| {
        ShowStays(s, s', d, i);
      }
    }
  }

  lemma CallKeepsFits(s: State, c: nat, w: nat, s': State)
    requires Fits(s) && ServerStore.Inv(s.store) && CallOperation(s, c, w, s')
    ensures Fits(s')
  {
    assert WorkFits(s, c);
    CallIsMove(s, c, w, s');
    MoveGrows(s, c, w, s');
    WorkGoesOn(s, c, w, s');
    MoveKeepsFits(s, c, w, s');
  }

  lemma RunKeepsFits(s: State, c: nat, w: nat, s': State)
    requires Fits(s) && ServerStore.Inv(s.store) && RunOperation(s, c, w, s')
    ensures Fits(s')
  {
    assert WorkFits(s, c);
    RunIsMove(s, c, w, s');
    MoveGrows(s, c, w, s');
    if s'.store.threads[w].Idle? {
      WorkEnds(s, c, w, s');
    } else {
      WorkGoesOn(s, c, w, s');
    }
    MoveKeepsFits(s, c, w, s');
  }

  // ----- Answering -----

  lemma AnsweredClient(s: State, c: nat, w: nat, s': State)
    requires Sized(s) && ClientOk(s, c) && AnswerCall(s, c, w, s')
    ensures ClientOk(s', c)
    ensures var (x, x') := (s.clients[c], s'.clients[c]);
      x'.calls == x.calls && x'.sent == x.sent + [ReplyOf(s.works[c].out)] && !x'.server.Executing?
  {
    Sessions.AnswerKeepsInv(s.clients[c], ReplyOf(s.works[c].out), s'.clients[c]);
  }

  /** The one effect with this tag. */
  lemma ResultOnce(s: State, tag: Tag, res: Store.Result, j: nat)
    requires ResultIs(s, tag, res) && CallOrder(s.tags)
    requires j < |s.tags| && j < |Effects(s.store.history)| && s.tags[j] == tag
    ensures Effects(s.store.history)[j].res == res
  {
    TagsDistinct(s.tags);
    var k: nat :| TagAt(s, k, tag, res);
  }

  lemma TagsDistinct(tags: seq<Tag>)
    requires CallOrder(tags)
    ensures forall i, j :: 0 <= i < j < |tags| ==> tags[i] != tags[j]
  {
    forall i, j | 0 <= i < j < |tags|
      ensures tags[i] != tags[j]
    {
      assert InCallOrder(tags[i], tags[j]);
    }
  }

  lemma AnsweredEffect(s: State, c: nat, w: nat, s': State, j: nat)
    requires Sized(s) && ClientOk(s, c) && WorkFits(s, c) && AnswerCall(s, c, w, s') && CallOrder(s.tags)
    requires EffectFits(s, j)
    ensures EffectFits(s', j)
  {
    var i := |s.clients[c].sent|;
    if j < |s.tags| && s.tags[j] == Tag(c, i) {
      AnsweredOwn(s, c, w, s', j);
    } else {
      AnsweredOther(s, c, w, s', j);
    }
  }

  lemma AnsweredOwn(s: State, c: nat, w: nat, s': State, j: nat)
    requires Sized(s) && ClientOk(s, c) && WorkFits(s, c) && AnswerCall(s, c, w, s') && CallOrder(s.tags)
    requires EffectFits(s, j) && j < |s.tags| && s.tags[j] == Tag(c, |s.clients[c].sent|)
    ensures EffectFits(s', j)
  {
    AnsweredClient(s, c, w, s');
    ExecutesNext(s.clients[c]);
    ResultOnce(s, s.tags[j], s.works[c].out.res, j);
  }

  lemma AnsweredOther(s: State, c: nat, w: nat, s': State, j: nat)
    requires Sized(s) && ClientOk(s, c) && AnswerCall(s, c, w, s')
    requires EffectFits(s, j) && (j < |s.tags| ==> s.tags[j] != Tag(c, |s.clients[c].sent|))
    ensures EffectFits(s', j)
  {
    AnsweredClient(s, c, w, s');
  }

  lemma AnsweredCall(s: State, c: nat, w: nat, s': State, d: nat, i: nat)
    requires Sized(s) && ClientOk(s, c) && AnswerCall(s, c, w, s') && CallFits(s, d, i)
    requires d < |s.clients| && d != c ==> (AfterEffect(s', d) <==> AfterEffect(s, d))
    ensures CallFits(s', d, i)
  {
    AnsweredClient(s, c, w, s');
  }

  lemma AnsweredShow(s: State, c: nat, w: nat, s': State, d: nat, i: nat)
    requires Sized(s) && ClientOk(s, c) && WorkFits(s, c) && AnswerCall(s, c, w, s') && ShowFits(s, d, i)
    ensures ShowFits(s', d, i)
  {
    if d == c && i == |s.clients[c].sent| {
      AnsweredOwnShow(s, c, w, s');
    } else {
      AnsweredClient(s, c, w, s');
    }
  }

  lemma AnsweredOwnShow(s: State, c: nat, w: nat, s': State)
    requires Sized(s) && ClientOk(s, c) && WorkFits(s, c) && AnswerCall(s, c, w, s')
    ensures ShowFits(s', c, |s.clients[c].sent|)
  {
    AnsweredClient(s, c, w, s');
    ExecutesNext(s.clients[c]);
    var p := ReplyOf(s.works[c].out);
    assert s'.clients[c].sent[|s.clients[c].sent|] == p;
  }

  lemma AnsweredWorks(s: State, c: nat, w: nat, s': State)
    requires Fits(s) && AnswerCall(s, c, w, s')
    ensures forall d: nat :: WorkFits(s', d)
    ensures forall d: nat :: d < |s.clients| && d != c ==> (AfterEffect(s', d) <==> AfterEffect(s, d))
  {
    StoreStays(s, s');
    forall d: nat
      ensures WorkFits(s', d)
      ensures d < |s.clients| && d != c ==> (AfterEffect(s', d) <==> AfterEffect(s, d))
    {
      assert WorkFits(s, d);
      if d < |s.clients| && d != c {
        UntouchedWork(s, s', d);
      }
    }
  }

  lemma AnsweredCalls(s: State, c: nat, w: nat, s': State)
    requires Fits(s) && AnswerCall(s, c, w, s')
    requires forall d: nat :: d < |s.clients| && d != c ==> (AfterEffect(s', d) <==> AfterEffect(s, d))
    ensures forall d: nat, i: nat :: CallFits(s', d, i)
    ensures forall j: nat :: EffectFits(s', j)
    ensures forall d: nat, i: nat :: ShowFits(s', d, i)
  {
    assert WorkFits(s, c) && ClientOk(s, c);
    forall d: nat, i: nat
      ensures CallFits(s', d, i)
    {
      assert CallFits(s, d, i);
      AnsweredCall(s, c, w, s', d, i);
    }
    forall j: nat
      ensures EffectFits(s', j)
    {
      assert EffectFits(s, j);
      AnsweredEffect(s, c, w, s', j);
    }
    forall d: nat, i: nat
      ensures ShowFits(s', d, i)
    {
      assert ShowFits(s, d, i);
      AnsweredShow(s, c, w, s', d, i);
    }
  }

  lemma AnswerKeepsFits(s: State, c: nat, w: nat, s': State)
    requires Fits(s) && AnswerCall(s, c, w, s')
    ensures Fits(s')
  {
    assert ClientOk(s, c);
    AnsweredClient(s, c, w, s');
    ClientsOk(s, c, s');
    AnsweredWorks(s, c, w, s');
    AnsweredCalls(s, c, w, s');
    SamePlaces(s, s');
  }

  // ----- The invariant in every run -----

  lemma StoreKeepsInv(s: State, w: nat, req: ServerStore.Request, s': State)
    requires ServerStore.Inv(s.store) && w < |s.store.threads|
    requires ServerStore.Step(s.store, w, req) == Some(s'.store)
    ensures ServerStore.Inv(s'.store)
  {
    ServerStore.StepKeepsInv(s.store, w, req, s'.store);
  }

  lemma OperationKeepsInv(s: State, c: nat, w: nat, s': State)
    requires Inv(s) && (CallOperation(s, c, w, s') || RunOperation(s, c, w, s'))
    ensures Inv(s')
  {
    if CallOperation(s, c, w, s') {
      CallKeepsFits(s, c, w, s');
      StoreKeepsInv(s, w, RequestOf(s.clients[c].server.call).value, s');
    } else {
      RunKeepsFits(s, c, w, s');
      StoreKeepsInv(s, w, ServerStore.Dump, s');
    }
  }

  lemma QuietKeepsInv(s: State, c: nat, w: nat, s': State)
    requires Inv(s)
    requires MoveBytes(s, c, s') || TakeClient(s, c, w, s') || DropClient(s, c, s') || AnswerCall(s, c, w, s')
    ensures Inv(s')
  {
    if MoveBytes(s, c, s') {
      BytesKeepFits(s, c, s');
    } else if TakeClient(s, c, w, s') {
      TakeKeepsFits(s, c, w, s');
    } else if DropClient(s, c, s') {
      DropKeepsFits(s, c, s');
    } else {
      AnswerKeepsFits(s, c, w, s');
    }
  }

  lemma DumpKeepsInv(s: State, s': State)
    requires Inv(s) && DumpMove(s, s')
    ensures Inv(s')
  {
    DumpKeepsFits(s, s');
    StoreKeepsInv(s, |s.store.threads| - 1, ServerStore.Dump, s');
  }

  lemma NextKeepsInv(s: State, s': State)
    requires Inv(s) && Next(s, s')
    ensures Inv(s')
  {
    if DumpMove(s, s') {
      DumpKeepsInv(s, s');
    } else if c: nat, w: nat :| CallOperation(s, c, w, s') || RunOperation(s, c, w, s') {
      OperationKeepsInv(s, c, w, s');
    } else if c: nat :| MoveBytes(s, c, s') || DropClient(s, c, s') {
      QuietKeepsInv(s, c, 0, s');
    } else {
      var c: nat, w: nat :| TakeClient(s, c, w, s') || AnswerCall(s, c, w, s');
      QuietKeepsInv(s, c, w, s');
    }
  }

  lemma NewClient(x: Sessions.State)
    requires Sessions.IsInit(x)
    ensures Sessions.Inv(x) && x.sent == [] && !x.server.Executing?
  {
  }

  lemma InitInv(clients: seq<Sessions.State>, n: nat)
    requires AllNew(clients)
    ensures Inv(Init(clients, n))
  {
    var s := Init(clients, n);
    ServerStore.InitInv(n + 1);
    assert Effects(s.store.history) == [];
    forall c: nat
      ensures ClientOk(s, c) && WorkFits(s, c)
    {
      if c < |clients| {
        NewClient(clients[c]);
      }
    }
    forall c: nat, i: nat
      ensures CallFits(s, c, i) && ShowFits(s, c, i)
    {
      if c < |clients| {
        NewClient(clients[c]);
      }
    }
  }

  lemma RunInv(run: seq<State>, i: nat)
    requires Run(run) && i < |run|
    ensures Inv(run[i])
  {
    Inductive();
    Runs.Invariant(IsInit, Next, Inv, run, i);
  }

  lemma Inductive()
    ensures forall s :: IsInit(s) ==> Inv(s)
    ensures forall s, s' :: Inv(s) && Next(s, s') ==> Inv(s')
  {
    forall s | IsInit(s)
      ensures Inv(s)
    {
      var clients, n: nat :| s == Init(clients, n) && AllNew(clients);
      InitInv(clients, n);
    }
    forall s, s' | Inv(s) && Next(s, s')
      ensures Inv(s')
    {
      NextKeepsInv(s, s');
    }
  }
}
