/** What a client learns from SHOW: which states of the store the reply it receives speaks of, and what
    it must report of them. */
module ServerSessionShows {
  import opened Seating
  import opened Histories
  import opened ServerHistories
  import opened ServerSessions
  import opened ServerSessionTheorems
  import ServerStore
  import ServerTheorems
  import Sessions
  import Store
  import Wire
  import Runs

  // ----- What a SHOW must report of an earlier state of the store -----

  /** Every seat taken in `old_` is reported in `data`, with the same reservation. */
  ghost predicate Covers(old_: seq<nat>, data: seq<nat>) {
    |data| == |old_| && forall x :: 0 <= x < |old_| && old_[x] != 0 ==> data[x] == old_[x]
  }

  /** The grid reports the event of that id in `es`, if there is one. */
  ghost predicate Reports(es: seq<EventState>, id: nat, rows: nat, cols: nat, data: seq<nat>) {
    forall k: nat :: Store.FoundAt(es, id, k) ==>
      es[k].rows == rows && es[k].cols == cols && Covers(es[k].data, data)
  }

  /** A SHOW at `pc`, which found or began to read since, will. */
  ghost predicate PcAbove(es: seq<EventState>, id: nat, pc: ServerStore.PC) {
    && (pc.FindUnlock? && pc.found.None? ==> !Store.HasId(es, id))
    && (pc.ShowRead? ==> forall k: nat :: Store.FoundAt(es, id, k) ==> pc.k == k && Covers(es[k].data, pc.start))
  }

  ghost predicate OutAbove(es: seq<EventState>, id: nat, out: Outcome) {
    && !out.Answer?
    && (out.NoEvent? ==> !Store.HasId(es, id))
    && (out.Shown? ==> Reports(es, id, out.rows, out.cols, out.data))
  }

  /** Status 0 with the event, or another status, no grid, and no event of that id. */
  ghost predicate ReplyAbove(es: seq<EventState>, id: nat, p: Wire.Reply) {
    && p.Grid?
    && if p.status == 0 then Reports(es, id, p.rows, p.cols, p.data)
       else p.rows == 0 && p.cols == 0 && p.data == [] && !Store.HasId(es, id)
  }

  /** Client `c` is served, and its SHOW, call number `i`, is executed or answered. */
  ghost predicate Decoded(s: State, c: nat, i: nat, id: nat) {
    && c < |s.clients| && c < |s.works| && c < |s.worker| && i < |s.clients[c].calls|
    && s.clients[c].calls[i] == Wire.Show(id)
    && (|s.clients[c].sent| > i ||
        (|s.clients[c].sent| == i && s.clients[c].server == Sessions.Executing(Wire.Show(id))))
  }

  ghost predicate WorkAbove(s: State, c: nat, id: nat, es: seq<EventState>)
    requires c < |s.works| && c < |s.worker|
  {
    match s.works[c]
    case NotCalled => true
    case UnderWay =>
      s.worker[c].Some? && s.worker[c].value < |s.store.threads| ==> PcAbove(es, id, s.store.threads[s.worker[c].value])
    case Back(out) => OutAbove(es, id, out)
  }

  /** The store has been at `es` since the call was decoded, and the call will say so, or has. */
  ghost predicate Above(s: State, c: nat, i: nat, id: nat, es: seq<EventState>) {
    && Decoded(s, c, i, id)
    && ServerTheorems.Extends(es, s.store.events)
    && if |s.clients[c].sent| > i then ReplyAbove(es, id, s.clients[c].sent[i]) else WorkAbove(s, c, id, es)
  }

  // ----- Steps of others -----

  lemma AboveStays(s: State, s': State, c: nat, i: nat, id: nat, es: seq<EventState>)
    requires Above(s, c, i, id, es) && c < |s'.clients| && Untouched(s, s', c)
    requires ServerTheorems.Extends(s.store.events, s'.store.events)
    ensures Above(s', c, i, id, es)
  {
    ExtendsOn(es, s.store.events, s'.store.events);
  }

  lemma ExtendsOn(a: seq<EventState>, b: seq<EventState>, c: seq<EventState>)
    requires ServerTheorems.Extends(a, b) && ServerTheorems.Extends(b, c)
    ensures ServerTheorems.Extends(a, c)
  {
    forall k | 0 <= k < |a|
      ensures ServerStore.SameFrame(a[k], c[k])
    {
      assert ServerStore.SameFrame(a[k], b[k]) && ServerStore.SameFrame(b[k], c[k]);
    }
  }

  /** Events keep their ids, so an id that was there is there, and resolves to the same event. */
  lemma FoundOn(a: seq<EventState>, b: seq<EventState>, id: nat)
    requires ServerTheorems.Extends(a, b)
    ensures Store.HasId(a, id) ==> Store.HasId(b, id)
    ensures forall k: nat :: Store.FoundAt(a, id, k) ==>
      Store.FoundAt(b, id, k) && ServerStore.SameFrame(a[k], b[k])
  {
    assert forall k :: 0 <= k < |a| ==> ServerStore.SameFrame(a[k], b[k]);
    if k :| 0 <= k < |a| && a[k].id == id {
      assert b[k].id == id;
    }
  }

  lemma FoundOnce(es: seq<EventState>, id: nat, j: nat, k: nat)
    requires Store.FoundAt(es, id, j) && Store.FoundAt(es, id, k)
    ensures j == k
  {
  }

  // ----- Steps of the SHOW -----

  /** One step of a thread on its way through a SHOW. */
  lemma PcStep(s: ServerStore.State, w: nat, s': ServerStore.State, id: nat, es: seq<EventState>)
    requires ServerStore.Inv(s) && w < |s.threads| == |s'.threads|
    requires RequestAt(s.threads[w]) == Some(ServerStore.Show(id)) && ServerTheorems.Extends(es, s.events)
    requires ServerStore.Step(s, w, ServerStore.Dump) == Some(s') && PcAbove(es, id, s.threads[w])
    ensures !s'.threads[w].Idle? ==> PcAbove(es, id, s'.threads[w])
    ensures s'.threads[w].Idle? ==> OutAbove(es, id, OutcomeOf(s.threads[w], s.events))
  {
    assert ServerStore.ThreadInv(s, w);
    FoundOn(es, s.events, id);
    var pc := s.threads[w];
    if pc.FindSearch? {
      SearchStep(s, w, s', id, es);
    } else if pc.FindUnlock? {
      UnlockStep(s, w, s', id, es);
    } else if pc.ShowRead? {
      ReadStep(s, w, s', id, es);
    }
  }

  lemma SearchStep(s: ServerStore.State, w: nat, s': ServerStore.State, id: nat, es: seq<EventState>)
    requires |ServerStore.Abs(s)| == |s.events| && w < |s.threads| == |s'.threads|
    requires ServerStore.ThreadOk(s, s.threads[w])
    requires s.threads[w].FindSearch? && s.threads[w].req == ServerStore.Show(id)
    requires ServerStore.StepFind(s, w) == Some(s')
    requires Store.HasId(es, id) ==> Store.HasId(s.events, id)
    ensures !s'.threads[w].Idle? && PcAbove(es, id, s'.threads[w])
  {
  }

  lemma UnlockStep(s: ServerStore.State, w: nat, s': ServerStore.State, id: nat, es: seq<EventState>)
    requires |ServerStore.Abs(s)| == |s.events| && w < |s.threads| == |s'.threads|
    requires ServerStore.ThreadOk(s, s.threads[w])
    requires s.threads[w].FindUnlock? && s.threads[w].req == ServerStore.Show(id)
    requires ServerStore.StepFind(s, w) == Some(s')
    requires PcAbove(es, id, s.threads[w])
    requires forall k: nat :: Store.FoundAt(es, id, k) ==>
      Store.FoundAt(s.events, id, k) && ServerStore.SameFrame(es[k], s.events[k])
    ensures !s'.threads[w].Idle? ==> PcAbove(es, id, s'.threads[w])
    ensures s'.threads[w].Idle? ==> OutAbove(es, id, OutcomeOf(s.threads[w], s.events))
  {
    var pc := s.threads[w];
    if pc.found.Some? {
      assert Store.FoundAt(s.events, id, pc.found.value);
      forall k: nat | Store.FoundAt(es, id, k)
        ensures k == pc.found.value && Covers(es[k].data, s.events[k].data)
      {
        FoundOnce(s.events, id, k, pc.found.value);
      }
    }
  }

  lemma ReadStep(s: ServerStore.State, w: nat, s': ServerStore.State, id: nat, es: seq<EventState>)
    requires |ServerStore.Abs(s)| == |s.events| && w < |s.threads| == |s'.threads|
    requires ServerStore.ThreadOk(s, s.threads[w])
    requires s.threads[w].ShowRead? && s.threads[w].id == id && ServerStore.StepShow(s, w) == Some(s')
    requires PcAbove(es, id, s.threads[w])
    requires forall k: nat :: Store.FoundAt(es, id, k) ==>
      Store.FoundAt(s.events, id, k) && ServerStore.SameFrame(es[k], s.events[k])
    ensures !s'.threads[w].Idle? ==> PcAbove(es, id, s'.threads[w])
    ensures s'.threads[w].Idle? ==> OutAbove(es, id, OutcomeOf(s.threads[w], s.events))
  {
    var pc := s.threads[w];
    if s'.threads[w].Idle? {
      forall k: nat | Store.FoundAt(es, id, k)
        ensures k == pc.k && Covers(es[k].data, pc.got)
      {
        assert Covers(es[k].data, pc.start);
      }
    }
  }

  // ----- Steps of the whole server -----

  lemma ExtendsItself(es: seq<EventState>)
    ensures ServerTheorems.Extends(es, es)
  {
    forall k | 0 <= k < |es|
      ensures ServerStore.SameFrame(es[k], es[k])
    {
    }
  }

  lemma BytesAbove(s: State, s': State, d: nat, c: nat, i: nat, id: nat, es: seq<EventState>)
    requires Fits(s) && MoveBytes(s, d, s') && Above(s, c, i, id, es)
    ensures Above(s', c, i, id, es)
  {
    assert ClientOk(s, d);
    BytesOk(s, d, s');
    ExtendsItself(s.store.events);
    AboveStays(s, s', c, i, id, es);
  }

  lemma PlacesAbove(s: State, s': State, d: nat, w: nat, c: nat, i: nat, id: nat, es: seq<EventState>)
    requires Fits(s) && (TakeClient(s, d, w, s') || DropClient(s, d, s')) && Above(s, c, i, id, es)
    ensures Above(s', c, i, id, es)
  {
    assert WorkFits(s, c) && ServesOne(s, c, c);
    ExtendsItself(s.store.events);
    if d != c {
      AboveStays(s, s', c, i, id, es);
    }
  }

  /** A step of the operation that client `c` waits for. */
  lemma RunAbove(s: State, s': State, w: nat, c: nat, i: nat, id: nat, es: seq<EventState>)
    requires Inv(s) && RunOperation(s, c, w, s') && Above(s, c, i, id, es)
    ensures Above(s', c, i, id, es)
  {
    assert WorkFits(s, c);
    RunIsMove(s, c, w, s');
    ExtendsOn(es, s.store.events, s'.store.events);
    if |s.clients[c].sent| == i {
      RequestMeans(Wire.Show(id));
      PcStep(s.store, w, s'.store, id, es);
    }
  }

  lemma CallAbove(s: State, s': State, w: nat, c: nat, i: nat, id: nat, es: seq<EventState>)
    requires Inv(s) && CallOperation(s, c, w, s') && Above(s, c, i, id, es)
    ensures Above(s', c, i, id, es)
  {
    assert WorkFits(s, c);
    CallIsMove(s, c, w, s');
    ExtendsOn(es, s.store.events, s'.store.events);
    if |s.clients[c].sent| == i {
      RequestMeans(Wire.Show(id));
      BeginShow(s.store, w, id, s'.store, es);
    }
  }

  lemma BeginShow(s: ServerStore.State, w: nat, id: nat, s': ServerStore.State, es: seq<EventState>)
    requires w < |s.threads| && s.threads[w].Idle?
    requires ServerStore.Step(s, w, ServerStore.Show(id)) == Some(s')
    ensures w < |s'.threads| && PcAbove(es, id, s'.threads[w])
  {
  }

  lemma OthersAbove(s: State, s': State, w: nat, d: nat, c: nat, i: nat, id: nat, es: seq<EventState>)
    requires Inv(s) && OperationMove(s, d, w, s') && d != c && Above(s, c, i, id, es)
    ensures Above(s', c, i, id, es)
  {
    assert ServesOne(s, d, c);
    OthersUntouched(s, d, w, s', c);
    AboveStays(s, s', c, i, id, es);
  }

  lemma AnswerAbove(s: State, s': State, d: nat, w: nat, c: nat, i: nat, id: nat, es: seq<EventState>)
    requires Fits(s) && AnswerCall(s, d, w, s') && Above(s, c, i, id, es)
    ensures Above(s', c, i, id, es)
  {
    assert ClientOk(s, d);
    AnsweredClient(s, d, w, s');
    ExtendsItself(s.store.events);
    if d != c {
      AboveStays(s, s', c, i, id, es);
    }
  }

  lemma DumpAbove(s: State, s': State, c: nat, i: nat, id: nat, es: seq<EventState>)
    requires Inv(s) && DumpMove(s, s') && Above(s, c, i, id, es)
    ensures Above(s', c, i, id, es)
  {
    var w := |s.store.threads| - 1;
    StoreMoves(s, w, ServerStore.Dump, s');
    PhaseRequest(s.store.threads[w]);
    PhaseRequest(s'.store.threads[w]);
    MainUntouched(s, s', w);
    AboveStays(s, s', c, i, id, es);
  }

  lemma OperationAbove(s: State, s': State, d: nat, w: nat, c: nat, i: nat, id: nat, es: seq<EventState>)
    requires Inv(s) && (CallOperation(s, d, w, s') || RunOperation(s, d, w, s')) && Above(s, c, i, id, es)
    ensures Above(s', c, i, id, es)
  {
    if CallOperation(s, d, w, s') {
      CallIsMove(s, d, w, s');
      if d == c {
        CallAbove(s, s', w, c, i, id, es);
      } else {
        OthersAbove(s, s', w, d, c, i, id, es);
      }
    } else {
      RunIsMove(s, d, w, s');
      if d == c {
        RunAbove(s, s', w, c, i, id, es);
      } else {
        OthersAbove(s, s', w, d, c, i, id, es);
      }
    }
  }

  /** Every step of the server keeps what a SHOW must report. */
  lemma NextAbove(s: State, s': State, c: nat, i: nat, id: nat, es: seq<EventState>)
    requires Inv(s) && Next(s, s') && Above(s, c, i, id, es)
    ensures Above(s', c, i, id, es)
  {
    if DumpMove(s, s') {
      DumpAbove(s, s', c, i, id, es);
    } else if d: nat, w: nat :| CallOperation(s, d, w, s') || RunOperation(s, d, w, s') {
      OperationAbove(s, s', d, w, c, i, id, es);
    } else if d: nat :| MoveBytes(s, d, s') {
      BytesAbove(s, s', d, c, i, id, es);
    } else if d: nat :| DropClient(s, d, s') {
      PlacesAbove(s, s', d, 0, c, i, id, es);
    } else {
      var d: nat, w: nat :| TakeClient(s, d, w, s') || AnswerCall(s, d, w, s');
      if TakeClient(s, d, w, s') {
        PlacesAbove(s, s', d, w, c, i, id, es);
      } else {
        AnswerAbove(s, s', d, w, c, i, id, es);
      }
    }
  }

  lemma StepOfRun(run: seq<State>, n: nat)
    requires Run(run) && n + 1 < |run|
    ensures Inv(run[n]) && Inv(run[n + 1]) && Next(run[n], run[n + 1])
  {
    RunInv(run, n);
    RunInv(run, n + 1);
    assert Runs.Linked(Next, run, n);
  }

  lemma AboveNext(run: seq<State>, n: nat, c: nat, i: nat, id: nat, es: seq<EventState>)
    requires Run(run) && n + 1 < |run| && Above(run[n], c, i, id, es)
    ensures Above(run[n + 1], c, i, id, es)
  {
    StepOfRun(run, n);
    NextAbove(run[n], run[n + 1], c, i, id, es);
  }

  lemma {:induction false} AboveOn(run: seq<State>, a: nat, n: nat, c: nat, i: nat, id: nat, es: seq<EventState>)
    requires Run(run) && a <= n < |run| && Above(run[a], c, i, id, es)
    ensures Above(run[n], c, i, id, es)
    decreases n
  {
    if a < n {
      AboveOn(run, a, n - 1, c, i, id, es);
      AboveNext(run, n - 1, c, i, id, es);
    }
  }

  // ----- The state in which the server decoded the call -----

  /** The server has decoded call `i` of client `c`, a SHOW. */
  ghost predicate HasSeen(s: State, c: nat, i: nat, id: nat) {
    && c < |s.clients| && i < |s.clients[c].calls| && s.clients[c].calls[i] == Wire.Show(id)
    && |s.clients[c].seen| > i
  }

  /** It has just done so: it has not called the operation yet. */
  ghost predicate Decodes(s: State, c: nat, i: nat, id: nat) {
    && Decoded(s, c, i, id) && |s.clients[c].sent| == i && |s.clients[c].seen| == i + 1
    && s.works[c].NotCalled?
  }

  lemma SeenByRead(x: Sessions.State, x': Sessions.State, i: nat)
    requires Sessions.Inv(x) && (ClientMove(x, x') || ServerMove(x, x'))
    requires |x.seen| <= i < |x'.seen| && i < |x.calls| && x.calls[i].Show?
    ensures !x.server.Executing? && x'.server == Sessions.Executing(x'.calls[i])
    ensures x'.calls == x.calls && |x'.sent| == i && |x'.seen| == i + 1
  {
    BytesSame(x, x');
    if ClientMove(x, x') {
      ClientMoveSeen(x, x');
    } else {
      ServerMoveSame(x, x');
      ReadCompletes(x, x', i);
    }
  }

  lemma ClientMoveSeen(x: Sessions.State, x': Sessions.State)
    requires ClientMove(x, x')
    ensures x'.seen == x.seen
  {
  }

  lemma ReadCompletes(x: Sessions.State, x': Sessions.State, i: nat)
    requires Sessions.Inv(x') && ServerMove(x, x') && x'.calls == x.calls
    requires |x.seen| <= i < |x'.seen| && i < |x.calls| && x.calls[i].Show?
    ensures x'.server == Sessions.Executing(x'.calls[i]) && |x'.sent| == i && |x'.seen| == i + 1
  {
  }

  /** Only bytes that move make a server decode. */
  lemma SeenByBytes(s: State, s': State, c: nat, i: nat, id: nat)
    requires Next(s, s') && HasSeen(s', c, i, id) && !HasSeen(s, c, i, id)
    ensures MoveBytes(s, c, s')
  {
    if d: nat, w: nat :| AnswerCall(s, d, w, s') {
      AnswerDecodesNothing(s, d, w, s', c);
    }
  }

  lemma AnswerDecodesNothing(s: State, d: nat, w: nat, s': State, c: nat)
    requires AnswerCall(s, d, w, s') && c < |s'.clients|
    ensures c < |s.clients| && s'.clients[c].seen == s.clients[c].seen && s'.clients[c].calls == s.clients[c].calls
  {
  }

  lemma DecodesBy(s: State, s': State, c: nat, i: nat, id: nat)
    requires Inv(s) && Next(s, s') && HasSeen(s', c, i, id) && !HasSeen(s, c, i, id)
    ensures Decodes(s', c, i, id)
  {
    SeenByBytes(s, s', c, i, id);
    assert WorkFits(s, c) && ClientOk(s, c);
    ClientCallsSame(s, s', c);
    SeenByRead(s.clients[c], s'.clients[c], i);
  }

  lemma ClientCallsSame(s: State, s': State, c: nat)
    requires ClientOk(s, c) && MoveBytes(s, c, s')
    ensures s'.clients[c].calls == s.clients[c].calls
  {
    BytesOk(s, c, s');
  }

  lemma SeenStays(s: State, s': State, c: nat, i: nat, id: nat)
    requires Next(s, s') && HasSeen(s, c, i, id)
    ensures HasSeen(s', c, i, id)
  {
    if d: nat :| MoveBytes(s, d, s') {
      BytesSee(s, d, s', c);
    } else if d: nat, w: nat :| AnswerCall(s, d, w, s') {
      AnswerDecodesNothing(s, d, w, s', c);
    }
  }

  lemma BytesSee(s: State, d: nat, s': State, c: nat)
    requires MoveBytes(s, d, s') && c < |s.clients|
    ensures c < |s'.clients| && s.clients[c].seen <= s'.clients[c].seen && s'.clients[c].calls == s.clients[c].calls
  {
  }

  lemma SeenNext(run: seq<State>, n: nat, c: nat, i: nat, id: nat)
    requires Run(run) && n + 1 < |run| && HasSeen(run[n], c, i, id)
    ensures HasSeen(run[n + 1], c, i, id)
  {
    assert Runs.Linked(Next, run, n);
    SeenStays(run[n], run[n + 1], c, i, id);
  }

  lemma {:induction false} SeenBefore(run: seq<State>, m: nat, n: nat, c: nat, i: nat, id: nat)
    requires Run(run) && m <= n < |run| && HasSeen(run[m], c, i, id)
    ensures HasSeen(run[n], c, i, id)
    decreases n
  {
    if m < n {
      SeenBefore(run, m, n - 1, c, i, id);
      SeenNext(run, n - 1, c, i, id);
    }
  }

  lemma SeenSince(run: seq<State>, n: nat, c: nat, i: nat, id: nat)
    requires Run(run) && n + 1 < |run| && !HasSeen(run[n], c, i, id) && HasSeen(run[n + 1], c, i, id)
    ensures Decodes(run[n + 1], c, i, id)
  {
    StepOfRun(run, n);
    DecodesBy(run[n], run[n + 1], c, i, id);
  }

  /** The state in which the server decoded a call: the first in which it has. */
  lemma WhenDecoded(run: seq<State>, n: nat, c: nat, i: nat, id: nat) returns (d: nat)
    requires Run(run) && n < |run| && HasSeen(run[n], c, i, id)
    ensures d <= n && Decodes(run[d], c, i, id)
    ensures forall m :: 0 <= m <= n ==> (HasSeen(run[m], c, i, id) <==> d <= m)
  {
    NothingYet(run[0], c, i, id);
    d := 0;
    while !HasSeen(run[d], c, i, id)
      invariant d <= n
      invariant forall m :: 0 <= m < d ==> !HasSeen(run[m], c, i, id)
      decreases n - d
    {
      d := d + 1;
    }
    SeenSince(run, d - 1, c, i, id);
    forall m | d <= m <= n
      ensures HasSeen(run[m], c, i, id)
    {
      SeenBefore(run, d, m, c, i, id);
    }
  }

  lemma NothingYet(s: State, c: nat, i: nat, id: nat)
    requires IsInit(s)
    ensures !HasSeen(s, c, i, id) && !HasFound(s, c, i, id)
  {
    var clients, n: nat :| s == Init(clients, n) && AllNew(clients);
    if c < |clients| {
      NewClient(clients[c]);
      NothingSeen(clients[c]);
    }
  }

  lemma NothingSeen(x: Sessions.State)
    requires Sessions.IsInit(x)
    ensures x.seen == []
  {
  }

  lemma AboveAtDecoding(s: State, c: nat, i: nat, id: nat)
    requires Decodes(s, c, i, id)
    ensures Above(s, c, i, id, s.store.events)
  {
    ExtendsItself(s.store.events);
  }

  // ----- The state in which reading began -----

  /** Call `i` of client `c` has found its event. */
  ghost predicate HasFound(s: State, c: nat, i: nat, id: nat) {
    && Decoded(s, c, i, id)
    && if |s.clients[c].sent| > i then s.clients[c].sent[i].Grid? && s.clients[c].sent[i].status == 0
       else match s.works[c]
            case NotCalled => false
            case UnderWay =>
              && s.worker[c].Some? && s.worker[c].value < |s.store.threads|
              && s.store.threads[s.worker[c].value].ShowRead?
            case Back(out) => out.Shown?
  }

  /** It has just done so: its worker has read no seat yet. */
  ghost predicate BeginsReading(s: State, c: nat, i: nat, id: nat) {
    && Decoded(s, c, i, id) && |s.clients[c].sent| == i && s.works[c].UnderWay?
    && s.worker[c].Some? && s.worker[c].value < |s.store.threads|
    && ReadsFrom(s.store, s.worker[c].value, id)
  }

  ghost predicate ReadsFrom(s: ServerStore.State, w: nat, id: nat) {
    && w < |s.threads| && s.threads[w].ShowRead?
    && var pc := s.threads[w];
    && pc.got == [] && Store.FoundAt(s.events, id, pc.k) && pc.start == s.events[pc.k].data
  }

  lemma FoundByStep(s: ServerStore.State, w: nat, s': ServerStore.State, id: nat)
    requires ServerStore.Inv(s) && w < |s.threads| == |s'.threads|
    requires RequestAt(s.threads[w]) == Some(ServerStore.Show(id))
    requires ServerStore.Step(s, w, ServerStore.Dump) == Some(s')
    ensures s'.threads[w].ShowRead? && !s.threads[w].ShowRead? ==> ReadsFrom(s', w, id)
    ensures s'.threads[w].Idle? && OutcomeOf(s.threads[w], s.events).Shown? ==> s.threads[w].ShowRead?
  {
    assert ServerStore.ThreadInv(s, w);
  }

  lemma FoundByRun(s: State, s': State, w: nat, c: nat, i: nat, id: nat)
    requires Inv(s) && RunOperation(s, c, w, s') && HasFound(s', c, i, id) && !HasFound(s, c, i, id)
    ensures BeginsReading(s', c, i, id)
  {
    assert WorkFits(s, c);
    RunIsMove(s, c, w, s');
    if |s.clients[c].sent| == i {
      RequestMeans(Wire.Show(id));
      FoundByStep(s.store, w, s'.store, id);
    }
  }

  lemma NotFoundByCall(s: State, s': State, w: nat, c: nat, i: nat, id: nat)
    requires Inv(s) && CallOperation(s, c, w, s') && HasFound(s', c, i, id)
    ensures HasFound(s, c, i, id)
  {
    assert WorkFits(s, c);
    CallIsMove(s, c, w, s');
    if |s.clients[c].sent| == i {
      RequestMeans(Wire.Show(id));
      FirstStep(s.store, w, id, s'.store);
    }
  }

  lemma FirstStep(s: ServerStore.State, w: nat, id: nat, s': ServerStore.State)
    requires w < |s.threads| && s.threads[w].Idle?
    requires ServerStore.Step(s, w, ServerStore.Show(id)) == Some(s')
    ensures w < |s'.threads| && s'.threads[w].FindLock?
  {
  }

  lemma NotFoundByOthers(s: State, s': State, c: nat, i: nat, id: nat)
    requires c < |s.clients| && c < |s'.clients| && Untouched(s, s', c) && HasFound(s', c, i, id)
    requires Decoded(s, c, i, id)
    ensures HasFound(s, c, i, id)
  {
  }

  lemma FoundBySession(s: State, s': State, d: nat, w: nat, c: nat, i: nat, id: nat)
    requires Inv(s) && (MoveBytes(s, d, s') || TakeClient(s, d, w, s') || DropClient(s, d, s'))
    requires HasFound(s', c, i, id)
    ensures HasFound(s, c, i, id)
  {
    assert WorkFits(s, c) && ServesOne(s, c, c) && ClientOk(s, d);
    if MoveBytes(s, d, s') {
      BytesOk(s, d, s');
    }
  }

  lemma FoundByAnswer(s: State, s': State, d: nat, w: nat, c: nat, i: nat, id: nat)
    requires Fits(s) && AnswerCall(s, d, w, s') && HasFound(s', c, i, id)
    ensures HasFound(s, c, i, id)
  {
    assert ClientOk(s, d) && WorkFits(s, d);
    AnsweredClient(s, d, w, s');
    ExecutesNext(s.clients[d]);
  }

  lemma FoundByOperation(s: State, s': State, d: nat, w: nat, c: nat, i: nat, id: nat)
    requires Inv(s) && (CallOperation(s, d, w, s') || RunOperation(s, d, w, s'))
    requires HasFound(s', c, i, id) && !HasFound(s, c, i, id)
    ensures BeginsReading(s', c, i, id)
  {
    if CallOperation(s, d, w, s') {
      CallIsMove(s, d, w, s');
      if d == c {
        NotFoundByCall(s, s', w, c, i, id);
      } else {
        NotFoundByMove(s, s', w, d, c, i, id);
      }
    } else {
      RunIsMove(s, d, w, s');
      if d == c {
        FoundByRun(s, s', w, c, i, id);
      } else {
        NotFoundByMove(s, s', w, d, c, i, id);
      }
    }
  }

  lemma NotFoundByMove(s: State, s': State, w: nat, d: nat, c: nat, i: nat, id: nat)
    requires Inv(s) && OperationMove(s, d, w, s') && d != c && HasFound(s', c, i, id)
    ensures HasFound(s, c, i, id)
  {
    assert ServesOne(s, d, c);
    OthersUntouched(s, d, w, s', c);
    NotFoundByOthers(s, s', c, i, id);
  }

  lemma NotFoundByDump(s: State, s': State, c: nat, i: nat, id: nat)
    requires Inv(s) && DumpMove(s, s') && HasFound(s', c, i, id)
    ensures HasFound(s, c, i, id)
  {
    var w := |s.store.threads| - 1;
    StoreMoves(s, w, ServerStore.Dump, s');
    PhaseRequest(s.store.threads[w]);
    PhaseRequest(s'.store.threads[w]);
    MainUntouched(s, s', w);
    NotFoundByOthers(s, s', c, i, id);
  }

  lemma FoundByNext(s: State, s': State, c: nat, i: nat, id: nat)
    requires Inv(s) && Next(s, s') && HasFound(s', c, i, id) && !HasFound(s, c, i, id)
    ensures BeginsReading(s', c, i, id)
  {
    if DumpMove(s, s') {
      NotFoundByDump(s, s', c, i, id);
    } else if d: nat, w: nat :| CallOperation(s, d, w, s') || RunOperation(s, d, w, s') {
      FoundByOperation(s, s', d, w, c, i, id);
    } else if d: nat, w: nat :| AnswerCall(s, d, w, s') {
      FoundByAnswer(s, s', d, w, c, i, id);
    } else if d: nat :| MoveBytes(s, d, s') || DropClient(s, d, s') {
      FoundBySession(s, s', d, 0, c, i, id);
    } else {
      var d: nat, w: nat :| TakeClient(s, d, w, s');
      FoundBySession(s, s', d, w, c, i, id);
    }
  }

  /** A SHOW that has found its event began to read it in some state of the run. */
  lemma WhenFound(run: seq<State>, n: nat, c: nat, i: nat, id: nat) returns (b: nat)
    requires Run(run) && n < |run| && HasFound(run[n], c, i, id)
    ensures b <= n && BeginsReading(run[b], c, i, id)
  {
    Inductive();
    forall s | IsInit(s)
      ensures Inv(s) && !HasFound(s, c, i, id)
    {
      NothingYet(s, c, i, id);
    }
    forall s, s' | Inv(s) && Next(s, s') && HasFound(s', c, i, id)
      ensures HasFound(s, c, i, id) || BeginsReading(s', c, i, id)
    {
      if !HasFound(s, c, i, id) {
        FoundByNext(s, s', c, i, id);
      }
    }
    b := Runs.Since(IsInit, Next, Inv, (s: State) => HasFound(s, c, i, id), (s: State) => BeginsReading(s, c, i, id), run, n);
  }

  lemma AboveAtReading(s: State, c: nat, i: nat, id: nat)
    requires BeginsReading(s, c, i, id)
    ensures Above(s, c, i, id, s.store.events)
  {
    var pc := s.store.threads[s.worker[c].value];
    ExtendsItself(s.store.events);
    forall k: nat | Store.FoundAt(s.store.events, id, k)
      ensures pc.k == k && Covers(s.store.events[k].data, pc.start)
    {
      FoundOnce(s.store.events, id, pc.k, k);
    }
  }

  // ----- What the client receives -----

  /** The reply `p` that client `c` has received to its call `i`, a SHOW of event `id`. */
  ghost predicate ShowAnswered(s: State, c: nat, i: nat, id: nat, p: Wire.Reply) {
    && c < |s.clients| && i < |s.clients[c].calls| && s.clients[c].calls[i] == Wire.Show(id)
    && i < |s.clients[c].received| && s.clients[c].received[i] == p
  }

  lemma AnsweredIsSent(s: State, c: nat, i: nat, id: nat, p: Wire.Reply)
    requires Fits(s) && ShowAnswered(s, c, i, id, p)
    ensures HasSeen(s, c, i, id) && i < |s.clients[c].sent| && s.clients[c].sent[i] == p
  {
    assert ClientOk(s, c);
    ReceivedIsSent(s.clients[c]);
  }

  lemma BegunIsSeen(s: State, c: nat, i: nat, id: nat)
    requires Inv(s) && BeginsReading(s, c, i, id)
    ensures HasSeen(s, c, i, id)
  {
    assert ClientOk(s, c);
    ReceivedIsSent(s.clients[c]);
  }

  /** A SHOW is answered with a grid and status 0, or with no grid and another status. It reports the event
      if the id was there in state `d`, in which the server decoded the call, and only if it was there in
      state `b`, in which the worker began to read. Every seat taken in state `b` is reported, and no seat
      that is not taken, by that reservation, when the client has the reply. */
  lemma ShowReplies(run: seq<State>, n: nat, c: nat, i: nat, id: nat, p: Wire.Reply) returns (d: nat, b: nat)
    requires Run(run) && n < |run| && ShowAnswered(run[n], c, i, id, p)
    ensures d <= b <= n && Decodes(run[d], c, i, id) && p.Grid?
    ensures forall m :: 0 <= m <= n ==> (HasSeen(run[m], c, i, id) <==> d <= m)
    ensures Store.HasId(run[d].store.events, id) ==> p.status == 0
    ensures p.status != 0 ==> p.rows == 0 && p.cols == 0 && p.data == []
    ensures p.status == 0 ==>
      && BeginsReading(run[b], c, i, id) && Store.HasId(run[b].store.events, id)
      && Reports(run[d].store.events, id, p.rows, p.cols, p.data)
      && Reports(run[b].store.events, id, p.rows, p.cols, p.data)
      && GridOf(run[n].store.events, id, p.rows, p.cols, p.data)
  {
    RunInv(run, n);
    AnsweredIsSent(run[n], c, i, id, p);
    d := WhenDecoded(run, n, c, i, id);
    AboveAtDecoding(run[d], c, i, id);
    AboveOn(run, d, n, c, i, id, run[d].store.events);
    b := d;
    if p.status == 0 {
      b := WhenFound(run, n, c, i, id);
      RunInv(run, b);
      BegunIsSeen(run[b], c, i, id);
      AboveAtReading(run[b], c, i, id);
      AboveOn(run, b, n, c, i, id, run[b].store.events);
      assert ShowFits(run[n], c, i);
    }
  }

  // ----- What an earlier success means for a SHOW -----

  lemma ApplyGrows(es: seq<EventState>, op: Store.Op)
    requires Store.AllShaped(es)
    ensures ServerTheorems.Extends(es, Store.Apply(es, op).0)
  {
    var es' := Store.Apply(es, op).0;
    forall k | 0 <= k < |es|
      ensures ServerStore.SameFrame(es[k], es'[k])
    {
    }
  }

  /** The store that a part of the history leaves grows into the one that all of it leaves. */
  lemma {:induction false} StoreGrows(h: seq<Ev>, p: nat)
    requires p <= |h|
    ensures ServerTheorems.Extends(StoreOf(h[..p]), StoreOf(h))
    decreases |h|
  {
    if p == |h| {
      assert h[..p] == h;
      ExtendsItself(StoreOf(h));
    } else {
      StoreGrows(Front(h), p);
      assert Front(h)[..p] == h[..p];
      if Last(h).Effect? {
        ApplyGrows(StoreOf(Front(h)), Last(h).op);
        ExtendsOn(StoreOf(h[..p]), StoreOf(Front(h)), StoreOf(h));
      }
    }
  }

  /** Memory has what any part of the history leaves. */
  lemma MemoryHas(s: ServerStore.State, p: nat)
    requires ServerStore.Inv(s) && p <= |s.history|
    ensures ServerTheorems.Extends(StoreOf(s.history[..p]), s.events)
  {
    StoreGrows(s.history, p);
    forall k | 0 <= k < |s.events|
      ensures ServerStore.SameFrame(StoreOf(s.history)[k], s.events[k])
    {
      ServerTheorems.EventAhead(s, k);
    }
    assert |StoreOf(s.history)| == |s.events|;
    assert ServerTheorems.Extends(StoreOf(s.history), s.events);
    ExtendsOn(StoreOf(s.history[..p]), StoreOf(s.history), s.events);
  }

  lemma OperationExtends(s: State, c: nat, w: nat, s': State)
    requires Inv(s) && (CallOperation(s, c, w, s') || RunOperation(s, c, w, s'))
    ensures ServerTheorems.Extends(s.store.events, s'.store.events)
  {
    if CallOperation(s, c, w, s') {
      CallIsMove(s, c, w, s');
    } else {
      RunIsMove(s, c, w, s');
    }
  }

  lemma DumpExtends(s: State, s': State)
    requires Inv(s) && DumpMove(s, s')
    ensures ServerTheorems.Extends(s.store.events, s'.store.events)
  {
    StoreMoves(s, |s.store.threads| - 1, ServerStore.Dump, s');
  }

  lemma QuietStore(s: State, c: nat, w: nat, s': State)
    requires MoveBytes(s, c, s') || TakeClient(s, c, w, s') || DropClient(s, c, s') || AnswerCall(s, c, w, s')
    ensures s'.store == s.store
  {
  }

  lemma NextExtends(s: State, s': State)
    requires Inv(s) && Next(s, s')
    ensures ServerTheorems.Extends(s.store.events, s'.store.events)
  {
    if DumpMove(s, s') {
      DumpExtends(s, s');
    } else if c: nat, w: nat :| CallOperation(s, c, w, s') || RunOperation(s, c, w, s') {
      OperationExtends(s, c, w, s');
    } else {
      if c: nat :| MoveBytes(s, c, s') || DropClient(s, c, s') {
        QuietStore(s, c, 0, s');
      } else {
        var c: nat, w: nat :| TakeClient(s, c, w, s') || AnswerCall(s, c, w, s');
        QuietStore(s, c, w, s');
      }
      ExtendsItself(s.store.events);
    }
  }

  lemma StepExtends(run: seq<State>, n: nat)
    requires Run(run) && n + 1 < |run|
    ensures ServerTheorems.Extends(run[n].store.events, run[n + 1].store.events)
  {
    StepOfRun(run, n);
    NextExtends(run[n], run[n + 1]);
  }

  lemma {:induction false} RunExtends(run: seq<State>, m: nat, n: nat)
    requires Run(run) && m <= n < |run|
    ensures ServerTheorems.Extends(run[m].store.events, run[n].store.events)
    decreases n
  {
    if m == n {
      ExtendsItself(run[m].store.events);
    } else {
      RunExtends(run, m, n - 1);
      StepExtends(run, n - 1);
      ExtendsOn(run[m].store.events, run[n - 1].store.events, run[n].store.events);
    }
  }

  lemma ReportsOn(es: seq<EventState>, es': seq<EventState>, id: nat, rows: nat, cols: nat, data: seq<nat>)
    requires ServerTheorems.Extends(es, es') && Reports(es', id, rows, cols, data)
    ensures Reports(es, id, rows, cols, data)
  {
    FoundOn(es, es', id);
  }

  /** No server has decoded call `i` of client `c`. */
  ghost predicate NotYetDecoded(s: State, c: nat, i: nat) { c < |s.clients| ==> |s.clients[c].seen| <= i }

  /** The reply to a SHOW that is decoded after state `m` reports all that any part of the history of
      state `m` leaves in the store. */
  lemma ShowReportsHistory(run: seq<State>, m: nat, n: nat, q: nat, c: nat, i: nat, id: nat, p: Wire.Reply)
    requires Run(run) && m <= n < |run| && q <= |run[m].store.history|
    requires NotYetDecoded(run[m], c, i) && ShowAnswered(run[n], c, i, id, p)
    ensures p.Grid?
    ensures var es := StoreOf(run[m].store.history[..q]);
      Store.HasId(es, id) ==> p.status == 0 && Reports(es, id, p.rows, p.cols, p.data)
  {
    var es := StoreOf(run[m].store.history[..q]);
    var d, b := ShowReplies(run, n, c, i, id, p);
    assert !HasSeen(run[m], c, i, id);
    RunInv(run, m);
    MemoryHas(run[m].store, q);
    RunExtends(run, m, d);
    ExtendsOn(es, run[m].store.events, run[d].store.events);
    FoundOn(es, run[d].store.events, id);
    if Store.HasId(es, id) {
      ReportsOn(es, run[d].store.events, id, p.rows, p.cols, p.data);
    }
  }

  /** Call `j` of client `e` is `r`, and its reply, which the client has, is status 0. */
  ghost predicate Succeeded(s: State, e: nat, j: nat, r: Wire.Request) {
    && e < |s.clients| && j < |s.clients[e].calls| && s.clients[e].calls[j] == r
    && j < |s.clients[e].received| && s.clients[e].received[j] == Wire.Status(0)
  }

  /** Once any client knows that an event was created, a SHOW of it is answered with a grid of that size. */
  lemma CreateThenShow(run: seq<State>, m: nat, n: nat, e: nat, j: nat, id: nat, rows: nat, cols: nat,
                       c: nat, i: nat, p: Wire.Reply)
    requires Run(run) && m <= n < |run| && Succeeded(run[m], e, j, Wire.Create(id, rows, cols))
    requires NotYetDecoded(run[m], c, i) && ShowAnswered(run[n], c, i, id, p)
    ensures p.Grid? && p.status == 0 && p.rows == rows && p.cols == cols
  {
    RunInv(run, m);
    WellFormedOrders(run[m].store.history);
    var _, q := ReplyReported(run[m], e, j);
    var h := run[m].store.history;
    AddedIsFound(StoreOf(h[..q]), StoreOf(h[..q + 1]), id, rows, cols);
    ShowReportsHistory(run, m, n, q + 1, c, i, id, p);
  }

  lemma AddedIsFound(es: seq<EventState>, es': seq<EventState>, id: nat, rows: nat, cols: nat)
    requires !Store.HasId(es, id) && Store.Adds(es, es', id, rows, cols)
    ensures Store.HasId(es', id) && Store.FoundAt(es', id, |es|) && es'[|es|].rows == rows && es'[|es|].cols == cols
  {
    forall k | 0 <= k < |es|
      ensures es'[k].id != id
    {
      assert es'[k] == es'[..|es|][k];
    }
  }

  /** Row `r`, column `col` of the grid `p` reports the reservation `v`. A number 0, which the counter wraps
      to, cannot be told from a free seat. */
  ghost predicate ReportsSeat(p: Wire.Reply, r: nat, col: nat, v: nat) {
    && p.Grid? && 1 <= r <= p.rows && 1 <= col <= p.cols
    && 0 <= (r - 1) * p.cols + (col - 1) < |p.data|
    && (v != 0 ==> p.data[(r - 1) * p.cols + (col - 1)] == v)
  }

  /** Once any client knows that its seats were reserved, a SHOW of the event reports each of them with the
      number of that reservation, the one the event had after it. */
  lemma ReserveThenShow(run: seq<State>, m: nat, n: nat, e: nat, j: nat, r: Wire.Request,
                        c: nat, i: nat, p: Wire.Reply) returns (x: nat, q: nat, k: nat)
    requires Run(run) && m <= n < |run| && r.Reserve? && IsStoreCall(r) && Succeeded(run[m], e, j, r)
    requires NotYetDecoded(run[m], c, i) && ShowAnswered(run[n], c, i, r.id, p)
    ensures Reported(run[m], e, j, x, q)
    ensures Store.FoundAt(StoreOf(run[m].store.history[..q + 1]), r.id, k)
    ensures p.Grid? && p.status == 0
    ensures forall y :: 0 <= y < r.count ==>
      ReportsSeat(p, r.xs[y], r.ys[y], StoreOf(run[m].store.history[..q + 1])[k].reservations)
  {
    RunInv(run, m);
    WellFormedOrders(run[m].store.history);
    x, q := ReplyReported(run[m], e, j);
    var h := run[m].store.history;
    var before, after := StoreOf(h[..q]), StoreOf(h[..q + 1]);
    k := TakenIsFound(r, before, after);
    ShowReportsHistory(run, m, n, q + 1, c, i, r.id, p);
    forall y | 0 <= y < r.count
      ensures ReportsSeat(p, r.xs[y], r.ys[y], after[k].reservations)
    {
      TakenIsReported(after[k], r.xs[y], r.ys[y], p);
    }
  }

  /** The event's row `r`, column `col` has its latest reservation. */
  ghost predicate TookLast(e: EventState, r: nat, col: nat) {
    && 1 <= r <= e.rows && 1 <= col <= e.cols && 0 <= (r - 1) * e.cols + (col - 1) < |e.data|
    && e.data[(r - 1) * e.cols + (col - 1)] == e.reservations
  }

  lemma TakenIsReported(e: EventState, r: nat, col: nat, p: Wire.Reply)
    requires TookLast(e, r, col) && p.Grid? && p.rows == e.rows && p.cols == e.cols && Covers(e.data, p.data)
    ensures ReportsSeat(p, r, col, e.reservations)
  {
  }

  lemma TakenIsFound(r: Wire.Request, before: seq<EventState>, after: seq<EventState>) returns (k: nat)
    requires r.Reserve? && ReplySays(r, Wire.Status(0), before, after)
    ensures Store.FoundAt(after, r.id, k) && Store.HasId(after, r.id)
    ensures r.count <= |r.xs| && r.count <= |r.ys|
    ensures forall y :: 0 <= y < r.count ==> TookLast(after[k], r.xs[y], r.ys[y])
  {
    var seats :| Names(seats, r.count, r.xs, r.ys) && ReserveSays(r.id, seats, Wire.Status(0), before, after);
    k :| Store.CanReserve(before, r.id, seats, k);
    assert Store.TakesSeats(before, after, k, seats);
    assert forall j :: 0 <= j < k ==> after[j].id == before[j].id;
    forall y | 0 <= y < r.count
      ensures TookLast(after[k], r.xs[y], r.ys[y])
    {
      assert seats[y] == Seat(r.xs[y], r.ys[y]);
      SeatIsTaken(before[k], seats, after[k], y);
    }
  }

  lemma SeatIsTaken(e: EventState, seats: seq<Seat>, e': EventState, j: nat)
    requires AllFree(e, seats) && Reserves(e, seats, e') && j < |seats|
    ensures TookLast(e', seats[j].x, seats[j].y)
  {
    var (x, y) := (seats[j].x, seats[j].y);
    assert SeatFree(e, x, y) && Seat(x, y) in seats;
    assert TakenAt(e, seats, e', x, y);
  }
}
