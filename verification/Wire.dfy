/** The bytes client and server exchange: one message per call and one per reply, read field by field. */
module Wire {
  import opened Seating

  type Byte = b: int | 0 <= b < 256

  function Pow256(w: nat): (p: nat)
    ensures p > 0
  {
    if w == 0 then 1 else 256 * Pow256(w - 1)
  }

  /** An unsigned integer of `w` bytes as memory holds it, least significant byte first. */
  function Enc(n: nat, w: nat): (s: seq<Byte>)
    ensures |s| == w
  {
    if w == 0 then [] else [n % 256] + Enc(n / 256, w - 1)
  }

  function Dec(s: seq<Byte>): nat {
    if s == [] then 0 else s[0] + 256 * Dec(s[1..])
  }

  lemma {:induction false} DecEnc(n: nat, w: nat)
    requires n < Pow256(w)
    ensures Dec(Enc(n, w)) == n
  {
    if w > 0 {
      assert n / 256 < Pow256(w - 1);
      DecEnc(n / 256, w - 1);
      assert Enc(n, w)[1..] == Enc(n / 256, w - 1);
    }
  }

  /** An array of integers of `w` bytes each. */
  function EncAll(ns: seq<nat>, w: nat): (s: seq<Byte>)
    ensures |s| == w * |ns|
  {
    if ns == [] then [] else Enc(ns[0], w) + EncAll(ns[1..], w)
  }

  function DecAll(s: seq<Byte>, w: nat, count: nat): (ns: seq<nat>)
    requires |s| == w * count
    ensures |ns| == count
  {
    if count == 0 then []
    else
      TakeOne(w, count);
      [Dec(s[..w])] + DecAll(s[w..], w, count - 1)
  }

  lemma TakeOne(w: nat, count: nat)
    requires count > 0
    ensures w * count == w + w * (count - 1)
  {
  }

  ghost predicate AllBelow(ns: seq<nat>, bound: nat) { forall i :: 0 <= i < |ns| ==> ns[i] < bound }

  lemma {:induction false} DecAllEncAll(ns: seq<nat>, w: nat)
    requires AllBelow(ns, Pow256(w))
    ensures DecAll(EncAll(ns, w), w, |ns|) == ns
  {
    if ns != [] {
      TakeOne(w, |ns|);
      var s := EncAll(ns, w);
      assert s[..w] == Enc(ns[0], w);
      assert s[w..] == EncAll(ns[1..], w);
      DecEnc(ns[0], w);
      DecAllEncAll(ns[1..], w);
    }
  }

  // ----- Requests -----

  const OP_QUIT: Byte := 2
  const OP_CREATE: Byte := 3
  const OP_RESERVE: Byte := 4
  const OP_SHOW: Byte := 5
  const OP_LIST: Byte := 6

  const SIZE_RANGE := 0x1_0000_0000_0000_0000

  /** A call of the client. RESERVE always sends its two arrays in full length. */
  datatype Request =
    | Create(id: nat, rows: nat, cols: nat)
    | Reserve(id: nat, count: nat, xs: seq<nat>, ys: seq<nat>)
    | Show(id: nat)
    | ListEvents
    | Quit

  ghost predicate Sendable(r: Request) {
    match r
    case Create(id, rows, cols) => id < UINT_RANGE && rows < SIZE_RANGE && cols < SIZE_RANGE
    case Reserve(id, count, xs, ys) =>
      && id < UINT_RANGE && count < SIZE_RANGE
      && |xs| == |ys| == MAX_RESERVATION_SIZE && AllBelow(xs, SIZE_RANGE) && AllBelow(ys, SIZE_RANGE)
    case Show(id) => id < UINT_RANGE
    case _ => true
  }

  /** The bytes the client writes for a call, in the order of its writes. */
  function EncRequest(r: Request): seq<Byte> {
    match r
    case Create(id, rows, cols) => [OP_CREATE] + Enc(id, 4) + (Enc(rows, 8) + Enc(cols, 8))
    case Reserve(id, count, xs, ys) => [OP_RESERVE] + Enc(id, 4) + Enc(count, 8) + EncAll(xs, 8) + EncAll(ys, 8)
    case Show(id) => [OP_SHOW] + Enc(id, 4)
    case ListEvents => [OP_LIST]
    case Quit => [OP_QUIT]
  }

  /** The server, having read `n` bytes of a request that starts with `op`, asks next for the bytes
      up to here; `n` itself when the request is complete. */
  function RequestField(op: Byte, n: nat): (end: nat)
    ensures end >= n
  {
    if n < 1 then 1
    else if op == OP_CREATE then (if n < 5 then 5 else if n < 21 then 21 else n)
    else if op == OP_RESERVE then
      (if n < 5 then 5 else if n < 13 then 13 else if n < 2061 then 2061 else if n < 4109 then 4109 else n)
    else if op == OP_SHOW then (if n < 5 then 5 else n)
    else n
  }

  function NextField(got: seq<Byte>): (end: nat)
    ensures end >= |got|
  {
    RequestField(if got == [] then 0 else got[0], |got|)
  }

  function DecRequest(s: seq<Byte>): Option<Request> {
    if s == [] then None
    else if s[0] == OP_CREATE && |s| == 21 then Some(Create(Dec(s[1..5]), Dec(s[5..13]), Dec(s[13..21])))
    else if s[0] == OP_RESERVE && |s| == 4109 then
      Some(Reserve(Dec(s[1..5]), Dec(s[5..13]), DecAll(s[13..2061], 8, 256), DecAll(s[2061..4109], 8, 256)))
    else if s[0] == OP_SHOW && |s| == 5 then Some(Show(Dec(s[1..5])))
    else if s[0] == OP_LIST && |s| == 1 then Some(ListEvents)
    else if s[0] == OP_QUIT && |s| == 1 then Some(Quit)
    else None
  }

  lemma Widths()
    ensures Pow256(4) == UINT_RANGE && Pow256(8) == SIZE_RANGE
  {
    assert Pow256(2) == 0x1_0000;
    assert Pow256(4) == 256 * (256 * Pow256(2));
    assert Pow256(6) == 256 * (256 * Pow256(4));
  }

  /** The parts of a message are where their widths say. */
  lemma Parts(a: seq<Byte>, b: seq<Byte>, c: seq<Byte>, d: seq<Byte>, e: seq<Byte>)
    ensures var (s, i, j, k) := (a + b + c + d + e, |a| + |b|, |a| + |b| + |c|, |a| + |b| + |c| + |d|);
      |s| == k + |e| && s[|a|..i] == b && s[i..j] == c && s[j..k] == d && s[k..k + |e|] == e
  {
  }

  lemma CreateDecodes(id: nat, rows: nat, cols: nat)
    requires Sendable(Create(id, rows, cols))
    ensures DecRequest(EncRequest(Create(id, rows, cols))) == Some(Create(id, rows, cols))
  {
    var s := EncRequest(Create(id, rows, cols));
    Widths();
    assert s[1..5] == Enc(id, 4) && s[5..13] == Enc(rows, 8) && s[13..21] == Enc(cols, 8);
    DecEnc(id, 4);
    DecEnc(rows, 8);
    DecEnc(cols, 8);
  }

  lemma ReserveDecodes(r: Request)
    requires r.Reserve? && Sendable(r)
    ensures |EncRequest(r)| == 4109 && DecRequest(EncRequest(r)) == Some(r)
  {
    var s := EncRequest(r);
    var (id, count, xs, ys) := (Enc(r.id, 4), Enc(r.count, 8), EncAll(r.xs, 8), EncAll(r.ys, 8));
    Widths();
    assert |id| == 4 && |count| == 8 && |xs| == 2048 && |ys| == 2048;
    Parts([OP_RESERVE], id, count, xs, ys);
    assert s[0] == OP_RESERVE && s[1..5] == id && s[5..13] == count && s[13..2061] == xs && s[2061..4109] == ys;
    DecEnc(r.id, 4);
    DecEnc(r.count, 8);
    DecAllEncAll(r.xs, 8);
    DecAllEncAll(r.ys, 8);
  }

  /** The server decodes the call the client made. */
  lemma RequestRoundTrip(r: Request)
    requires Sendable(r)
    ensures DecRequest(EncRequest(r)) == Some(r)
  {
    match r
    case Create(id, rows, cols) => CreateDecodes(id, rows, cols);
    case Reserve(_, _, _, _) => ReserveDecodes(r);
    case Show(id) =>
      var s := EncRequest(r);
      Widths();
      assert s[1..5] == Enc(id, 4);
      DecEnc(id, 4);
    case _ =>
  }

  /** Reading field by field never asks for a byte beyond the request and stops at its last byte. */
  lemma RequestFraming(r: Request, got: seq<Byte>)
    requires Sendable(r) && got <= EncRequest(r)
    ensures NextField(got) <= |EncRequest(r)|
    ensures NextField(got) == |got| <==> got == EncRequest(r)
  {
    if got != [] {
      assert got[0] == EncRequest(r)[0];
    }
    if |got| == |EncRequest(r)| {
      assert got == EncRequest(r);
    }
  }

  // ----- Replies -----

  /** What the server sends back. A SHOW of a missing event sends a grid of no rows and no columns. */
  datatype Reply =
    | Status(status: nat)
    | Grid(rows: nat, cols: nat, data: seq<nat>, status: nat)
    | Events(ids: seq<nat>, status: nat)

  ghost predicate Answers(r: Request, p: Reply) {
    match r
    case Create(_, _, _) => p.Status? && p.status < UINT_RANGE
    case Reserve(_, _, _, _) => p.Status? && p.status < UINT_RANGE
    case Show(_) =>
      && p.Grid? && p.rows < SIZE_RANGE && p.cols < SIZE_RANGE && p.status < UINT_RANGE
      && |p.data| == p.rows * p.cols && 4 * |p.data| < SIZE_RANGE && AllBelow(p.data, UINT_RANGE)
    case ListEvents => p.Events? && 4 * |p.ids| < SIZE_RANGE && AllBelow(p.ids, UINT_RANGE) && p.status < UINT_RANGE
    case Quit => false
  }

  function EncReply(p: Reply): seq<Byte> {
    match p
    case Status(st) => Enc(st, 4)
    case Grid(rows, cols, data, st) => Enc(rows, 8) + Enc(cols, 8) + EncAll(data, 4) + Enc(st, 4)
    case Events(ids, st) => Enc(|ids|, 8) + EncAll(ids, 4) + Enc(st, 4)
  }

  /** Bytes of the cells or ids that follow the head of a reply. */
  function Body(r: Request, got: seq<Byte>): nat {
    if r.Show? && |got| >= 16 then 4 * (Dec(got[..8]) * Dec(got[8..16]))
    else if r.ListEvents? && |got| >= 8 then 4 * Dec(got[..8])
    else 0
  }

  /** The client, having read `got` of the reply to `r`, asks next for the bytes up to here. */
  function NextReplyField(r: Request, got: seq<Byte>): (end: nat)
    ensures end >= |got|
  {
    var n := |got|;
    var head := if r.Show? then 16 else if r.ListEvents? then 8 else 0;
    if n < head then head
    else if n < head + Body(r, got) then head + Body(r, got)
    else if n < head + Body(r, got) + 4 then head + Body(r, got) + 4
    else n
  }

  function DecReply(r: Request, s: seq<Byte>): Option<Reply> {
    match r
    case Show(_) =>
      if |s| >= 16 && |s| == 16 + Body(r, s) + 4 then
        var rows, cols := Dec(s[..8]), Dec(s[8..16]);
        Some(Grid(rows, cols, DecAll(s[16..|s| - 4], 4, rows * cols), Dec(s[|s| - 4..])))
      else None
    case ListEvents =>
      if |s| >= 8 && |s| == 8 + Body(r, s) + 4 then
        Some(Events(DecAll(s[8..|s| - 4], 4, Dec(s[..8])), Dec(s[|s| - 4..])))
      else None
    case Quit => None
    case _ => if |s| == 4 then Some(Status(Dec(s))) else None
  }

  /** The head of a reply to SHOW or LIST, once read, tells the size of what follows. */
  lemma ReplyBody(r: Request, p: Reply, got: seq<Byte>)
    requires Answers(r, p) && got <= EncReply(p)
    ensures r.Show? && |got| >= 16 ==>
      Dec(got[..8]) == p.rows && Dec(got[8..16]) == p.cols && Body(r, got) == 4 * |p.data|
    ensures r.ListEvents? && |got| >= 8 ==> Dec(got[..8]) == |p.ids| && Body(r, got) == 4 * |p.ids|
  {
    Widths();
    var s := EncReply(p);
    if r.Show? && |got| >= 16 {
      assert got[..8] == s[..8] == Enc(p.rows, 8);
      assert got[8..16] == s[8..16] == Enc(p.cols, 8);
      DecEnc(p.rows, 8);
      DecEnc(p.cols, 8);
    }
    if r.ListEvents? && |got| >= 8 {
      assert got[..8] == s[..8] == Enc(|p.ids|, 8);
      DecEnc(|p.ids|, 8);
    }
  }

  lemma ReplyFraming(r: Request, p: Reply, got: seq<Byte>)
    requires Answers(r, p) && got <= EncReply(p)
    ensures NextReplyField(r, got) <= |EncReply(p)|
    ensures NextReplyField(r, got) == |got| <==> got == EncReply(p)
  {
    ReplyBody(r, p, got);
    if |got| == |EncReply(p)| {
      assert got == EncReply(p);
    }
  }

  /** The client decodes the reply the server sent, for a grid or list of any size. */
  lemma ReplyRoundTrip(r: Request, p: Reply)
    requires Answers(r, p)
    ensures DecReply(r, EncReply(p)) == Some(p)
  {
    var s := EncReply(p);
    Widths();
    ReplyBody(r, p, s);
    DecEnc(p.status, 4);
    match r
    case Show(_) =>
      assert s[|s| - 4..] == Enc(p.status, 4);
      assert s[16..|s| - 4] == EncAll(p.data, 4);
      DecAllEncAll(p.data, 4);
    case ListEvents =>
      assert s[|s| - 4..] == Enc(p.status, 4);
      assert s[8..|s| - 4] == EncAll(p.ids, 4);
      DecAllEncAll(p.ids, 4);
    case _ =>
  }
}
