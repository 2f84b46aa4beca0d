/** A whole session: a client making calls and a server answering them over two pipes of any
    capacity, every read and write moving any number of bytes. */
module Sessions {
  import opened Wire
  import Runs

  datatype Client =
    | Ready                     // between calls
    | Sending(left: seq<Byte>)  // bytes of the call still to write
    | Receiving(got: seq<Byte>) // bytes of the reply read so far
    | Closed

  datatype Server =
    | Reading(got: seq<Byte>)   // bytes of the request read so far
    | Executing(call: Request)  // the operation runs
    | Writing(left: seq<Byte>)  // bytes of the reply still to write
    | Ended

  /** `calls` is what the client is going to do; `seen`, `sent` and `received` are bookkeeping: the
      requests the server decoded, the replies it produced and the replies the client decoded. */
  datatype State = State(
    calls: seq<Request>,
    next: nat,
    client: Client,
    server: Server,
    req: seq<Byte>,
    resp: seq<Byte>,
    capacity: nat,
    seen: seq<Request>,
    sent: seq<Reply>,
    received: seq<Reply>)

  function Init(calls: seq<Request>, capacity: nat): State {
    State(calls, 0, Ready, Reading([]), [], [], capacity, [], [], [])
  }

  ghost predicate CallStep(s: State, s': State) {
    && s.client.Ready? && s.next < |s.calls|
    && s' == s.(client := Sending(EncRequest(s.calls[s.next])))
  }

  /** A write takes any number of bytes that fit the pipe; the last one turns the client to its reply,
      or, after QUIT, closes it. */
  ghost predicate ClientWrites(s: State, m: nat, s': State) {
    && s.client.Sending? && s.next < |s.calls| && 1 <= m <= |s.client.left|
    && |s.req| + m <= s.capacity
    && s' == s.(
        req := s.req + s.client.left[..m],
        client := if m < |s.client.left| then Sending(s.client.left[m..])
                  else if s.calls[s.next].Quit? then Closed else Receiving([]))
  }

  /** A read takes any number of bytes present, but not more than the field it asks for. When the
      request is complete the server decodes it and goes on to execute it. */
  ghost predicate ServerReads(s: State, m: nat, s': State) {
    && s.server.Reading? && 1 <= m <= |s.req| && |s.server.got| + m <= NextField(s.server.got)
    && var got := s.server.got + s.req[..m];
    && var s1 := s.(req := s.req[m..], server := Reading(got));
    if NextField(got) > |got| then s' == s1
    else
      && DecRequest(got).Some?
      && var r := DecRequest(got).value;
      && var s2 := s1.(seen := s.seen + [r]);
      s' == s2.(server := if r.Quit? then Ended else Executing(r))
  }

  /** The operation is over; `p` is what it answers. */
  ghost predicate ServerAnswers(s: State, p: Reply, s': State) {
    && s.server.Executing? && Answers(s.server.call, p)
    && s' == s.(sent := s.sent + [p], server := Writing(EncReply(p)))
  }

  ghost predicate ServerWrites(s: State, m: nat, s': State) {
    && s.server.Writing? && 1 <= m <= |s.server.left|
    && |s.resp| + m <= s.capacity
    && s' == s.(
        resp := s.resp + s.server.left[..m],
        server := if m < |s.server.left| then Writing(s.server.left[m..]) else Reading([]))
  }

  ghost predicate ClientReads(s: State, m: nat, s': State) {
    && s.client.Receiving? && s.next < |s.calls| && 1 <= m <= |s.resp|
    && var r := s.calls[s.next];
    && |s.client.got| + m <= NextReplyField(r, s.client.got)
    && var got := s.client.got + s.resp[..m];
    && var s1 := s.(resp := s.resp[m..], client := Receiving(got));
    if NextReplyField(r, got) > |got| then s' == s1
    else
      && DecReply(r, got).Some?
      && s' == s1.(client := Ready, next := s.next + 1, received := s.received + [DecReply(r, got).value])
  }

  ghost predicate Next(s: State, s': State) {
    || CallStep(s, s')
    || (exists m :: ClientWrites(s, m, s'))
    || (exists m :: ServerReads(s, m, s'))
    || (exists p :: ServerAnswers(s, p, s'))
    || (exists m :: ServerWrites(s, m, s'))
    || (exists m :: ClientReads(s, m, s'))
  }

  /** Scripts the client can run: any calls, QUIT at most as the last one. */
  ghost predicate Script(calls: seq<Request>) {
    && (forall i :: 0 <= i < |calls| ==> Sendable(calls[i]))
    && forall i :: 0 <= i < |calls| - 1 ==> !calls[i].Quit?
  }

  ghost predicate IsInit(s: State) {
    exists calls, capacity: nat :: Script(calls) && capacity > 0 && s == Init(calls, capacity)
  }

  ghost predicate Run(run: seq<State>) { Runs.Run(IsInit, Next, run) }

  // ----- Invariant -----

  /** Nothing is under way: both pipes are empty and nothing has been read in part. */
  ghost predicate AtRest(s: State) {
    && s.next <= |s.calls|
    && s.req == [] && s.resp == [] && s.server == Reading([])
    && s.seen == s.calls[..s.next] && s.received == s.sent
  }

  /** The call's bytes are split between the server, the pipe and the client. */
  ghost predicate RequestUnderWay(s: State, left: seq<Byte>)
    requires s.next < |s.calls|
  {
    && s.server.Reading? && s.resp == []
    && s.server.got + s.req + left == EncRequest(s.calls[s.next])
    && s.server.got != EncRequest(s.calls[s.next])
    && s.seen == s.calls[..s.next] && s.received == s.sent
  }

  /** The whole request has been read, and nothing of a reply is there. */
  ghost predicate UnderExecution(s: State)
    requires s.next < |s.calls|
  {
    && s.server == Executing(s.calls[s.next]) && s.req == [] && s.resp == []
    && s.seen == s.calls[..s.next + 1] && s.received == s.sent
  }

  /** Bytes of a reply that the server has still to put into the pipe. */
  function Unsent(s: State): seq<Byte> {
    if s.server.Writing? then s.server.left else []
  }

  /** The reply's bytes are split between the client, the pipe and the server. */
  ghost predicate ReplyUnderWay(s: State, got: seq<Byte>)
    requires s.next < |s.calls|
  {
    && s.req == [] && s.sent != []
    && var p := s.sent[|s.sent| - 1];
    && Answers(s.calls[s.next], p)
    && got != EncReply(p)
    && s.seen == s.calls[..s.next + 1] && s.received == s.sent[..|s.sent| - 1]
    && !s.server.Ended? && !s.server.Executing?
    && (s.server.Writing? ==> s.server.left != [])
    && (s.server.Reading? ==> s.server.got == [])
    && got + s.resp + Unsent(s) == EncReply(p)
  }

  ghost predicate Quitting(s: State)
    requires s.next < |s.calls|
  {
    && s.calls[s.next] == Quit && s.resp == [] && s.received == s.sent
    && if s.server.Ended? then s.req == [] && s.seen == s.calls[..s.next + 1]
       else s.server.Reading? && s.server.got + s.req == EncRequest(Quit) && s.server.got == [] &&
            s.seen == s.calls[..s.next]
  }

  ghost predicate Inv(s: State) {
    && s.capacity > 0 && Script(s.calls) && s.next <= |s.calls| && |s.received| == s.next
    && match s.client
       case Ready => AtRest(s)
       case Sending(left) => left != [] && s.next < |s.calls| && RequestUnderWay(s, left)
       case Receiving(got) =>
         && s.next < |s.calls| && !s.calls[s.next].Quit?
         && (ReplyUnderWay(s, got) || (got == [] && (RequestUnderWay(s, []) || UnderExecution(s))))
       case Closed => s.next < |s.calls| && Quitting(s)
  }

  lemma CallKeepsInv(s: State, s': State)
    requires Inv(s) && CallStep(s, s')
    ensures Inv(s')
  {
    var e := EncRequest(s.calls[s.next]);
    assert [] + [] + e == e;
    assert e != [];
  }

  lemma ClientWriteKeepsInv(s: State, m: nat, s': State)
    requires Inv(s) && ClientWrites(s, m, s')
    ensures Inv(s')
  {
    var left := s.client.left;
    assert left == left[..m] + left[m..];
    assert s.server.got + (s.req + left[..m]) + left[m..] == s.server.got + s.req + left;
    if m == |left| {
      assert left[m..] == [];
      assert s.server.got + (s.req + left) + [] == s.server.got + (s.req + left);
      if s.calls[s.next].Quit? {
        assert |EncRequest(Quit)| == 1;
      }
    }
  }

  /** Moving bytes from the writer into the pipe, or from the pipe to the reader, loses none. */
  lemma Moved(a: seq<Byte>, b: seq<Byte>, c: seq<Byte>, m: nat)
    requires m <= |c|
    ensures a + (b + c[..m]) + c[m..] == a + b + c
    ensures m == |c| ==> a + (b + c[..m]) == a + b + c && c[m..] == []
  {
  }

  lemma ServerWriteKeepsInv(s: State, m: nat, s': State)
    requires Inv(s) && ServerWrites(s, m, s')
    ensures Inv(s')
  {
    assert s.client.Receiving? && ReplyUnderWay(s, s.client.got);
    Moved(s.client.got, s.resp, s.server.left, m);
    assert ReplyUnderWay(s', s.client.got);
  }

  /** A reader that takes `m` bytes out of the pipe still holds a prefix of the message `e`. */
  lemma ReadPrefix(got: seq<Byte>, pipe: seq<Byte>, rest: seq<Byte>, m: nat, e: seq<Byte>)
    requires got + pipe + rest == e && m <= |pipe|
    ensures got + pipe[..m] <= e && (got + pipe[..m]) + pipe[m..] + rest == e
    ensures got + pipe[..m] == e ==> pipe[m..] == [] && rest == []
  {
    assert pipe == pipe[..m] + pipe[m..];
    assert (got + pipe[..m]) + pipe[m..] == got + pipe;
    assert e[..|got| + m] == got + pipe[..m];
    if got + pipe[..m] == e {
      assert |pipe[m..]| + |rest| == 0;
    }
  }

  /** The bytes a server has read, in one request, begin the call the client is making. */
  lemma ServerGotPrefix(s: State, m: nat, left: seq<Byte>)
    requires s.next < |s.calls| && RequestUnderWay(s, left) && m <= |s.req|
    ensures s.server.got + s.req[..m] <= EncRequest(s.calls[s.next])
    ensures (s.server.got + s.req[..m]) + s.req[m..] + left == EncRequest(s.calls[s.next])
    ensures s.server.got + s.req[..m] == EncRequest(s.calls[s.next]) ==> s.req[m..] == [] && left == []
  {
    ReadPrefix(s.server.got, s.req, left, m, EncRequest(s.calls[s.next]));
  }

  /** A read that does not complete the request. */
  lemma PartialRequest(s: State, m: nat, left: seq<Byte>, s': State)
    requires Inv(s) && s.next < |s.calls| && RequestUnderWay(s, left) && m <= |s.req|
    requires (s.client.Sending? && left == s.client.left) || (s.client.Receiving? && left == [] && s.client.got == [])
    requires s.server.got + s.req[..m] != EncRequest(s.calls[s.next])
    requires s.client.Receiving? ==> !s.calls[s.next].Quit?
    requires s' == s.(req := s.req[m..], server := Reading(s.server.got + s.req[..m]))
    ensures Inv(s')
  {
    ServerGotPrefix(s, m, left);
    assert RequestUnderWay(s', left);
  }

  /** A read that completes it: nothing of the request is left anywhere. */
  lemma WholeRequest(s: State, m: nat, left: seq<Byte>, s': State)
    requires Inv(s) && s.next < |s.calls| && RequestUnderWay(s, left) && m <= |s.req|
    requires (s.client.Sending? && left == s.client.left) || (s.client.Receiving? && left == [] && s.client.got == [])
    requires s.server.got + s.req[..m] == EncRequest(s.calls[s.next])
    requires !s.calls[s.next].Quit?
    requires s' == s.(req := s.req[m..], seen := s.seen + [s.calls[s.next]], server := Executing(s.calls[s.next]))
    ensures Inv(s')
  {
    ServerGotPrefix(s, m, left);
    assert s.client.Receiving?;
    assert s.calls[..s.next] + [s.calls[s.next]] == s.calls[..s.next + 1];
    assert UnderExecution(s');
  }

  /** The operation is over: the whole reply is still to be written. */
  lemma AnswerKeepsInv(s: State, p: Reply, s': State)
    requires Inv(s) && ServerAnswers(s, p, s')
    ensures Inv(s')
  {
    assert UnderExecution(s);
    assert s'.sent[..|s'.sent| - 1] == s.sent;
    assert [] + s'.resp + Unsent(s') == EncReply(p);
    ReplyNotEmpty(s.calls[s.next], p);
    assert ReplyUnderWay(s', []);
  }

  lemma ReplyNotEmpty(r: Request, p: Reply)
    requires Answers(r, p)
    ensures EncReply(p) != []
  {
  }

  lemma ServerReadKeepsInv(s: State, m: nat, s': State)
    requires Inv(s) && ServerReads(s, m, s')
    ensures Inv(s')
  {
    if s.client.Closed? {
      QuitReadKeepsInv(s, m, s');
    } else {
      RequestReadKeepsInv(s, m, s', if s.client.Sending? then s.client.left else []);
    }
  }

  /** While the client waits for a reply nobody has begun to write, its request is under way. */
  lemma RequestFirst(s: State)
    requires Inv(s) && s.server.Reading? && s.req != [] && !s.client.Closed?
    ensures s.next < |s.calls|
    ensures s.client.Sending? || (s.client.Receiving? && s.client.got == [] && !s.calls[s.next].Quit?)
    ensures RequestUnderWay(s, if s.client.Sending? then s.client.left else [])
  {
  }

  lemma RequestReadKeepsInv(s: State, m: nat, s': State, left: seq<Byte>)
    requires Inv(s) && ServerReads(s, m, s') && !s.client.Closed?
    requires left == if s.client.Sending? then s.client.left else []
    ensures Inv(s')
  {
    RequestFirst(s);
    var r := s.calls[s.next];
    ServerGotPrefix(s, m, left);
    RequestFraming(r, s.server.got + s.req[..m]);
    RequestRoundTrip(r);
    if NextField(s.server.got + s.req[..m]) == |s.server.got + s.req[..m]| {
      assert !r.Quit?;
      WholeRequest(s, m, left, s');
    } else {
      PartialRequest(s, m, left, s');
    }
  }

  lemma QuitReadKeepsInv(s: State, m: nat, s': State)
    requires Inv(s) && ServerReads(s, m, s') && s.client.Closed?
    ensures Inv(s')
  {
    assert s.req == EncRequest(Quit);
    assert m == 1 && s.server.got + s.req[..m] == EncRequest(Quit);
    RequestRoundTrip(Quit);
    assert s.calls[..s.next] + [s.calls[s.next]] == s.calls[..s.next + 1];
  }

  /** The bytes the client has read begin the reply that was sent. */
  lemma ClientGotPrefix(s: State, m: nat)
    requires s.client.Receiving? && s.next < |s.calls| && ReplyUnderWay(s, s.client.got) && m <= |s.resp|
    ensures var got, e := s.client.got + s.resp[..m], EncReply(s.sent[|s.sent| - 1]);
      && got <= e && got + s.resp[m..] + Unsent(s) == e
      && (got == e ==> s.resp[m..] == [] && Unsent(s) == [])
  {
    ReadPrefix(s.client.got, s.resp, Unsent(s), m, EncReply(s.sent[|s.sent| - 1]));
  }

  /** A read that does not complete the reply. */
  lemma PartialReadKeepsInv(s: State, m: nat, s': State)
    requires Inv(s) && s.client.Receiving? && ReplyUnderWay(s, s.client.got) && 1 <= m <= |s.resp|
    requires s.client.got + s.resp[..m] != EncReply(s.sent[|s.sent| - 1])
    requires s' == s.(resp := s.resp[m..], client := Receiving(s.client.got + s.resp[..m]))
    ensures Inv(s')
  {
    ClientGotPrefix(s, m);
    assert Unsent(s') == Unsent(s);
    assert ReplyUnderWay(s', s.client.got + s.resp[..m]);
  }

  /** A read that completes it: nothing of the reply is left anywhere. */
  lemma LastReadKeepsInv(s: State, m: nat, s': State)
    requires Inv(s) && s.client.Receiving? && ReplyUnderWay(s, s.client.got) && 1 <= m <= |s.resp|
    requires s.client.got + s.resp[..m] == EncReply(s.sent[|s.sent| - 1])
    requires s' == s.(resp := s.resp[m..], client := Ready, next := s.next + 1,
                      received := s.received + [s.sent[|s.sent| - 1]])
    ensures Inv(s')
  {
    ClientGotPrefix(s, m);
    assert s.sent[..|s.sent| - 1] + [s.sent[|s.sent| - 1]] == s.sent;
  }

  lemma ClientReadKeepsInv(s: State, m: nat, s': State)
    requires Inv(s) && ClientReads(s, m, s')
    ensures Inv(s')
  {
    assert ReplyUnderWay(s, s.client.got);
    var r, p := s.calls[s.next], s.sent[|s.sent| - 1];
    var got := s.client.got + s.resp[..m];
    ClientGotPrefix(s, m);
    ReplyFraming(r, p, got);
    if NextReplyField(r, got) == |got| {
      ReplyRoundTrip(r, p);
      LastReadKeepsInv(s, m, s');
    } else {
      PartialReadKeepsInv(s, m, s');
    }
  }

  lemma NextKeepsInv(s: State, s': State)
    requires Inv(s) && Next(s, s')
    ensures Inv(s')
  {
    if CallStep(s, s') {
      CallKeepsInv(s, s');
    } else if m :| ClientWrites(s, m, s') {
      ClientWriteKeepsInv(s, m, s');
    } else if m :| ServerReads(s, m, s') {
      ServerReadKeepsInv(s, m, s');
    } else if p :| ServerAnswers(s, p, s') {
      AnswerKeepsInv(s, p, s');
    } else if m :| ServerWrites(s, m, s') {
      ServerWriteKeepsInv(s, m, s');
    } else {
      var m :| ClientReads(s, m, s');
      ClientReadKeepsInv(s, m, s');
    }
  }

  lemma RunInv(run: seq<State>, i: nat)
    requires Run(run) && i < |run|
    ensures Inv(run[i])
  {
    forall s | IsInit(s)
      ensures Inv(s)
    {
    }
    forall s, s' | Inv(s) && Next(s, s')
      ensures Inv(s')
    {
      NextKeepsInv(s, s');
    }
    Runs.Invariant(IsInit, Next, Inv, run, i);
  }

  // ----- Main results -----

  /** Whenever the client is between two calls, both pipes are empty, the server is at the first byte
      of a request, it has decoded exactly the calls made, and the client exactly the replies sent. */
  lemma SessionAligned(run: seq<State>, i: nat)
    requires Run(run) && i < |run| && run[i].client.Ready?
    ensures var s := run[i];
      && s.req == [] && s.resp == [] && s.server == Reading([])
      && s.next <= |s.calls| && s.seen == s.calls[..s.next] && s.received == s.sent
  {
    RunInv(run, i);
  }

  /** At every moment the server has decoded a prefix of the calls made and the client a prefix of the
      replies sent, at most one behind. */
  lemma NothingMisread(run: seq<State>, i: nat)
    requires Run(run) && i < |run|
    ensures run[i].seen <= run[i].calls && run[i].received <= run[i].sent
    ensures |run[i].sent| <= |run[i].received| + 1
  {
    RunInv(run, i);
  }

  /** The session is over: every call made, or QUIT received. */
  ghost predicate Finished(s: State) {
    (s.client.Ready? && s.next == |s.calls|) || (s.client.Closed? && s.server.Ended?)
  }

  /** However small the pipes, client and server never wait for each other: until the session is
      over one of them can go on. `p` is a reply to the call under way. */
  lemma NeverStuck(run: seq<State>, i: nat, p: Reply) returns (s': State)
    requires Run(run) && i < |run| && !Finished(run[i])
    requires run[i].next < |run[i].calls| && !run[i].calls[run[i].next].Quit? ==>
      Answers(run[i].calls[run[i].next], p)
    ensures Next(run[i], s')
  {
    RunInv(run, i);
    s' := CanStep(run[i], p);
  }

  lemma CanStep(s: State, p: Reply) returns (s': State)
    requires Inv(s) && !Finished(s)
    requires s.next < |s.calls| && !s.calls[s.next].Quit? ==> Answers(s.calls[s.next], p)
    ensures Next(s, s')
  {
    match s.client
    case Ready =>
      s' := ClientCanCall(s);
    case Sending(left) =>
      if s.req == [] {
        s' := ClientCanWrite(s);
      } else {
        s' := ServerCanRead(s, left);
      }
    case Receiving(got) =>
      if ReplyUnderWay(s, got) {
        if s.resp != [] {
          s' := ClientCanRead(s);
        } else {
          s' := ServerCanWrite(s);
        }
      } else if UnderExecution(s) {
        s' := ServerCanAnswer(s, p);
      } else {
        assert s.server.got + s.req + [] == s.server.got + s.req;
        s' := ServerCanRead(s, []);
      }
    case Closed =>
      s' := ServerCanQuit(s);
  }

  lemma ServerCanAnswer(s: State, p: Reply) returns (s': State)
    requires s.next < |s.calls| && UnderExecution(s) && Answers(s.calls[s.next], p)
    ensures Next(s, s')
  {
    s' := s.(sent := s.sent + [p], server := Writing(EncReply(p)));
    assert ServerAnswers(s, p, s');
  }

  lemma ClientCanCall(s: State) returns (s': State)
    requires Inv(s) && s.client.Ready? && s.next < |s.calls|
    ensures Next(s, s')
  {
    s' := s.(client := Sending(EncRequest(s.calls[s.next])));
    assert CallStep(s, s');
  }

  lemma ServerCanQuit(s: State) returns (s': State)
    requires Inv(s) && s.client.Closed? && !s.server.Ended?
    ensures Next(s, s')
  {
    assert s.req == EncRequest(Quit);
    var got := s.server.got + s.req[..1];
    assert got == EncRequest(Quit);
    RequestRoundTrip(Quit);
    s' := s.(req := s.req[1..], server := Ended, seen := s.seen + [Quit]);
    assert ServerReads(s, 1, s');
  }

  lemma ClientCanWrite(s: State) returns (s': State)
    requires Inv(s) && s.client.Sending? && s.req == []
    ensures Next(s, s')
  {
    var left := s.client.left;
    s' := s.(
      req := s.req + left[..1],
      client := if 1 < |left| then Sending(left[1..])
                else if s.calls[s.next].Quit? then Closed else Receiving([]));
    assert ClientWrites(s, 1, s');
  }

  lemma ServerCanRead(s: State, left: seq<Byte>) returns (s': State)
    requires Inv(s) && s.next < |s.calls| && RequestUnderWay(s, left) && s.req != []
    ensures Next(s, s')
  {
    var r := s.calls[s.next];
    ServerGotPrefix(s, 0, left);
    assert s.server.got + s.req[..0] == s.server.got;
    RequestFraming(r, s.server.got);
    ServerGotPrefix(s, 1, left);
    var got := s.server.got + s.req[..1];
    RequestFraming(r, got);
    RequestRoundTrip(r);
    var s1 := s.(req := s.req[1..], server := Reading(got));
    if NextField(got) > |got| {
      s' := s1;
    } else {
      s' := s1.(seen := s.seen + [r], server := if r.Quit? then Ended else Executing(r));
    }
    assert ServerReads(s, 1, s');
  }

  lemma ServerCanWrite(s: State) returns (s': State)
    requires Inv(s) && s.client.Receiving? && s.next < |s.calls| && ReplyUnderWay(s, s.client.got)
    requires s.resp == []
    ensures Next(s, s')
  {
    assert s.server.Writing? by {
      assert s.client.got + [] == s.client.got;
    }
    var left := s.server.left;
    s' := s.(
      resp := s.resp + left[..1],
      server := if 1 < |left| then Writing(left[1..]) else Reading([]));
    assert ServerWrites(s, 1, s');
  }

  lemma ClientCanRead(s: State) returns (s': State)
    requires Inv(s) && s.client.Receiving? && s.next < |s.calls| && ReplyUnderWay(s, s.client.got)
    requires s.resp != []
    ensures Next(s, s')
  {
    var r, q := s.calls[s.next], s.sent[|s.sent| - 1];
    var e, old_, got := EncReply(q), s.client.got, s.client.got + s.resp[..1];
    assert e[..|old_|] == old_ && e[..|got|] == got;
    ReplyFraming(r, q, old_);
    ReplyFraming(r, q, got);
    ReplyRoundTrip(r, q);
    var s1 := s.(resp := s.resp[1..], client := Receiving(got));
    if NextReplyField(r, got) > |got| {
      s' := s1;
    } else {
      s' := s1.(client := Ready, next := s.next + 1, received := s.received + [q]);
    }
    assert ClientReads(s, 1, s');
  }

  // ----- Termination -----

  /** How far the call under way has come. */
  function Stage(s: State): nat {
    if s.server.Ended? then 0
    else if s.client.Ready? then 5
    else if |s.sent| > |s.received| then 2
    else if s.server.Executing? then 3
    else 4
  }

  /** Bytes still to move, twice for those that have to enter the pipe first. */
  function ToMove(s: State): nat {
    2 * (if s.client.Sending? then |s.client.left| else 0) + |s.req| +
    2 * (if s.server.Writing? then |s.server.left| else 0) + |s.resp|
  }

  ghost predicate Earlier(s: State, s': State) {
    || s.next < s'.next <= |s.calls|
    || (s'.next == s.next && Stage(s') < Stage(s))
    || (s'.next == s.next && Stage(s') == Stage(s) && ToMove(s') < ToMove(s))
  }

  lemma ServerReadAdvances(s: State, m: nat, s': State)
    requires Inv(s) && ServerReads(s, m, s')
    ensures Earlier(s, s')
  {
  }

  lemma AnswerAdvances(s: State, p: Reply, s': State)
    requires Inv(s) && ServerAnswers(s, p, s')
    ensures Earlier(s, s')
  {
  }

  lemma ServerWriteAdvances(s: State, m: nat, s': State)
    requires Inv(s) && ServerWrites(s, m, s')
    ensures Earlier(s, s')
  {
  }

  lemma ClientReadAdvances(s: State, m: nat, s': State)
    requires Inv(s) && ClientReads(s, m, s')
    ensures Earlier(s, s')
  {
  }

  lemma ClientWriteAdvances(s: State, m: nat, s': State)
    requires Inv(s) && (CallStep(s, s') || ClientWrites(s, m, s'))
    ensures Earlier(s, s')
  {
  }

  /** Every step of either side brings the session nearer to its end: in calls made, in the stage of
      the call, or in bytes moved. With NeverStuck, every session ends. */
  lemma EveryStepAdvances(s: State, s': State)
    requires Inv(s) && Next(s, s')
    ensures Earlier(s, s') && s'.calls == s.calls
  {
    if m :| ServerReads(s, m, s') {
      ServerReadAdvances(s, m, s');
    } else if p :| ServerAnswers(s, p, s') {
      AnswerAdvances(s, p, s');
    } else if m :| ServerWrites(s, m, s') {
      ServerWriteAdvances(s, m, s');
    } else if m :| ClientReads(s, m, s') {
      ClientReadAdvances(s, m, s');
    } else {
      var m: nat :| CallStep(s, s') || ClientWrites(s, m, s');
      ClientWriteAdvances(s, m, s');
    }
  }
}
