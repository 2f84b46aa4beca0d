/** What the clients of the server can rely on, however many there are and however their sessions,
    the workers and the bytes in the pipes interleave. */
module ServerSessionTheorems {
  import opened Seating
  import opened Histories
  import opened ServerHistories
  import opened ServerSessions
  import ServerStore
  import Sessions
  import Store
  import Wire
  import Runs

  // ----- What a reply says -----

  /** The calls that take effect at one instant. A RESERVE of more seats than its arrays hold is none. */
  predicate IsStoreCall(r: Wire.Request) {
    r.Create? || r.ListEvents? || (r.Reserve? && r.count <= |r.xs| && r.count <= |r.ys|)
  }

  ghost predicate Names(seats: seq<Seat>, count: nat, xs: seq<nat>, ys: seq<nat>) {
    |seats| == count <= |xs| && count <= |ys| && forall j :: 0 <= j < count ==> seats[j] == Seat(xs[j], ys[j])
  }

  /** What the reply `p` to the call `r` says of the store before and after the effect of the call. */
  ghost predicate ReplySays(r: Wire.Request, p: Wire.Reply, before: seq<EventState>, after: seq<EventState>) {
    match r
    case Create(id, rows, cols) =>
      if Store.HasId(before, id) then after == before && p.Status? && p.status != 0
      else Store.Adds(before, after, id, rows, cols) && p == Wire.Status(0)
    case Reserve(id, count, xs, ys) =>
      exists seats :: Names(seats, count, xs, ys) && ReserveSays(id, seats, p, before, after)
    case ListEvents =>
      && after == before && p.Events? && p.status == 0
      && |p.ids| == |before| && forall k :: 0 <= k < |before| ==> p.ids[k] == before[k].id
    case _ => false
  }

  ghost predicate ReserveSays(id: nat, seats: seq<Seat>, p: Wire.Reply, before: seq<EventState>, after: seq<EventState>) {
    if exists k: nat :: Store.CanReserve(before, id, seats, k) then
      && p == Wire.Status(0)
      && forall k: nat :: Store.CanReserve(before, id, seats, k) ==> Store.TakesSeats(before, after, k, seats)
    else
      after == before && p.Status? && p.status != 0
  }

  lemma RequestMeans(r: Wire.Request)
    ensures RequestOf(r).Some? && RequestOf(r).value.Linear? <==> IsStoreCall(r)
    ensures r.Show? ==> RequestOf(r) == Some(ServerStore.Show(r.id))
    ensures r.Create? ==> RequestOf(r) == Some(ServerStore.Linear(Store.Create(r.id, r.rows, r.cols)))
    ensures r.ListEvents? ==> RequestOf(r) == Some(ServerStore.Linear(Store.ListEvents))
    ensures r.Reserve? && IsStoreCall(r) ==>
      var op := RequestOf(r).value.op; op.Reserve? && op.id == r.id && Names(op.seats, r.count, r.xs, r.ys)
  {
  }

  /** The reply made of what an operation returns says what the operation did. */
  lemma AnswerSays(r: Wire.Request, es: seq<EventState>)
    requires IsStoreCall(r) && Store.AllShaped(es)
    ensures var op := RequestOf(r).value.op;
      RequestOf(r).value.Linear? &&
      ReplySays(r, ReplyOf(Answer(Store.Apply(es, op).1)), es, Store.Apply(es, op).0)
  {
    RequestMeans(r);
    match r
    case Create(id, rows, cols) => Store.CreateMeans(es, id, rows, cols);
    case Reserve(id, count, xs, ys) =>
      var seats := RequestOf(r).value.op.seats;
      Store.ReserveMeans(es, id, seats);
      var (es', res) := Store.Apply(es, RequestOf(r).value.op);
      assert Names(seats, count, xs, ys) && ReserveSays(id, seats, ReplyOf(Answer(res)), es, es');
    case ListEvents => Store.ListMeans(es);
  }

  /** Position `p` of the history is its effect number `j`. */
  ghost predicate EffectAt(h: seq<Ev>, j: nat, p: nat) {
    p < |h| && h[p].Effect? && j < |Effects(h)| && h[p] == Effects(h)[j] && |Effects(h[..p])| == j
  }

  lemma {:induction false} EffectPosition(h: seq<Ev>, j: nat) returns (p: nat)
    requires j < |Effects(h)|
    ensures EffectAt(h, j, p)
    decreases |h|
  {
    if j < |Effects(Front(h))| {
      p := EffectPosition(Front(h), j);
      assert Front(h)[..p] == h[..p];
    } else {
      p := |h| - 1;
      assert h[..p] == Front(h);
    }
  }

  lemma {:induction false} LegalEffect(h: seq<Ev>, p: nat)
    requires Legal(h) && p < |h| && h[p].Effect?
    ensures (StoreOf(h[..p + 1]), h[p].res) == Store.Apply(StoreOf(h[..p]), h[p].op)
    decreases |h|
  {
    if p < |h| - 1 {
      LegalEffect(Front(h), p);
      assert Front(h)[..p] == h[..p] && Front(h)[..p + 1] == h[..p + 1];
    } else {
      assert h[..p] == Front(h) && h[..p + 1] == h;
    }
  }

  /** Call `i` of client `c` had effect number `j`, at position `p` of the history, and what the client
      received says what that effect found and did. */
  ghost predicate Reported(s: State, c: nat, i: nat, j: nat, p: nat) {
    && c < |s.clients| && i < |s.clients[c].calls| && i < |s.clients[c].received|
    && j < |s.tags| && s.tags[j] == Tag(c, i) && EffectAt(s.store.history, j, p)
    && var h := s.store.history;
    ReplySays(s.clients[c].calls[i], s.clients[c].received[i], StoreOf(h[..p]), StoreOf(h[..p + 1]))
  }

  lemma ReceivedIsSent(x: Sessions.State)
    requires Sessions.Inv(x)
    ensures x.received <= x.sent && |x.received| == x.next <= |x.calls| && |x.sent| <= x.next + 1
    ensures x.client.Ready? ==> x.received == x.sent && !x.server.Executing?
    ensures x.server.Executing? ==> |x.seen| == |x.sent| + 1
    ensures !x.server.Executing? ==> |x.seen| >= |x.sent|
  {
  }

  /** A call of client `c` that takes effect at one instant. */
  ghost predicate StoreCall(s: State, c: nat, i: nat) {
    c < |s.clients| && i < |s.clients[c].calls| && IsStoreCall(s.clients[c].calls[i])
  }

  lemma StoreCallIsLinear(s: State, c: nat, i: nat)
    ensures StoreCall(s, c, i) <==> LinearCall(s, c, i)
  {
    if c < |s.clients| && i < |s.clients[c].calls| {
      RequestMeans(s.clients[c].calls[i]);
    }
  }

  lemma ReplyReported(s: State, c: nat, i: nat) returns (j: nat, p: nat)
    requires Fits(s) && Legal(s.store.history) && StoreCall(s, c, i) && i < |s.clients[c].received|
    ensures Reported(s, c, i, j, p)
  {
    StoreCallIsLinear(s, c, i);
    assert ClientOk(s, c) && CallFits(s, c, i);
    ReceivedIsSent(s.clients[c]);
    j :| 0 <= j < |s.tags| && s.tags[j] == Tag(c, i);
    assert EffectFits(s, j);
    var h := s.store.history;
    p := EffectPosition(h, j);
    LegalEffect(h, p);
    AnswerSays(s.clients[c].calls[i], StoreOf(h[..p]));
  }

  lemma EffectIsCalled(s: State, j: nat)
    requires Fits(s) && j < |s.tags|
    ensures StoreCall(s, s.tags[j].client, s.tags[j].call)
    ensures s.tags[j].call < |s.clients[s.tags[j].client].seen|
  {
    var tag := s.tags[j];
    StoreCallIsLinear(s, tag.client, tag.call);
    assert EffectFits(s, j);
    assert CallFits(s, tag.client, tag.call) && Tag(tag.client, tag.call) in s.tags;
    assert ClientOk(s, tag.client) && WorkFits(s, tag.client);
    ReceivedIsSent(s.clients[tag.client]);
  }

  /** All clients see one history: every reply to a CREATE, RESERVE or LIST says what the one effect of that
      call, in a single linearizable history of the store, found and did; every effect is of a call that its
      server has decoded, and the effects of one client come in the order of its calls. */
  lemma ClientsShareOneHistory(run: seq<State>, n: nat)
    requires Run(run) && n < |run|
    ensures Linearizable(run[n].store.history) && |run[n].tags| == |Effects(run[n].store.history)|
    ensures forall c: nat, i: nat :: StoreCall(run[n], c, i) && i < |run[n].clients[c].received| ==>
      exists j: nat, p: nat :: Reported(run[n], c, i, j, p)
    ensures forall j :: 0 <= j < |run[n].tags| ==>
      var tag := run[n].tags[j];
      StoreCall(run[n], tag.client, tag.call) && tag.call < |run[n].clients[tag.client].seen|
    ensures CallOrder(run[n].tags)
  {
    RunInv(run, n);
    var s := run[n];
    WellFormedOrders(s.store.history);
    forall c: nat, i: nat | StoreCall(s, c, i) && i < |s.clients[c].received|
      ensures exists j: nat, p: nat :: Reported(s, c, i, j, p)
    {
      var j, p := ReplyReported(s, c, i);
    }
    forall j | 0 <= j < |s.tags|
      ensures StoreCall(s, s.tags[j].client, s.tags[j].call)
      ensures s.tags[j].call < |s.clients[s.tags[j].client].seen|
    {
      EffectIsCalled(s, j);
    }
  }

  /** Between two calls of a client exactly its calls so far have had their effects, and its pipes are
      empty. */
  lemma ClientSettled(run: seq<State>, n: nat, c: nat, i: nat)
    requires Run(run) && n < |run| && c < |run[n].clients| && run[n].clients[c].client.Ready?
    ensures var x := run[n].clients[c];
      && x.next <= |x.calls| && x.req == [] && x.resp == [] && x.seen == x.calls[..x.next] && x.received == x.sent
      && (Tag(c, i) in run[n].tags <==> StoreCall(run[n], c, i) && i < x.next)
  {
    StoreCallIsLinear(run[n], c, i);
    RunInv(run, n);
    var s := run[n];
    assert ClientOk(s, c) && WorkFits(s, c) && CallFits(s, c, i);
    ReceivedIsSent(s.clients[c]);
  }

  // ----- Real time -----

  ghost predicate Keeps(s: State, s': State) {
    s.tags <= s'.tags && |s'.clients| == |s.clients|
  }

  lemma NextKeeps(s: State, s': State)
    requires Next(s, s')
    ensures Keeps(s, s')
  {
  }

  lemma RunKeeps(run: seq<State>, n: nat, m: nat)
    requires Run(run) && n <= m < |run|
    ensures run[n].tags <= run[m].tags
  {
    Inductive();
    forall s, s' | Inv(s) && Next(s, s')
      ensures Keeps(s, s')
    {
      NextKeeps(s, s');
    }
    Runs.Monotone(IsInit, Next, Inv, Keeps, run, n, m);
  }

  /** A call whose reply has been received took effect before any call that no server had decoded by
      then: the history respects the order in which clients see calls end and begin. */
  lemma RealTimeOrder(run: seq<State>, n: nat, m: nat, c: nat, i: nat, d: nat, k: nat, p: nat, q: nat)
    requires Run(run) && n <= m < |run|
    requires StoreCall(run[n], c, i) && i < |run[n].clients[c].received|
    requires d < |run[n].clients| && |run[n].clients[d].seen| <= k
    requires p < |run[m].tags| && run[m].tags[p] == Tag(c, i)
    requires q < |run[m].tags| && run[m].tags[q] == Tag(d, k)
    ensures p < q
  {
    RunInv(run, n);
    RunInv(run, m);
    RunKeeps(run, n, m);
    var j, _ := ReplyReported(run[n], c, i);
    TagsDistinct(run[m].tags);
    assert run[m].tags[j] == Tag(c, i);
    if q < |run[n].tags| {
      EffectIsCalled(run[n], q);
    }
  }
}
