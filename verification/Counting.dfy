/** Reservation ids count up without gaps: the ids standing in a grid are exactly the numbers up to
    the event's counter, so the counter never passes the number of seats and never wraps. */
module Counting {
  import opened Seating
  import opened Reservation
  import opened Store
  import opened Histories
  import opened ServerHistories
  import opened ServerStore
  import opened ServerTheorems

  /** The ids in the grid are exactly 1 to `reservations`, each on at least one seat. */
  ghost predicate Counted(e: EventState) {
    && Shaped(e)
    && e.rows * e.cols < UINT_RANGE
    && e.reservations <= e.rows * e.cols
    && (forall i :: 0 <= i < |e.data| ==> e.data[i] <= e.reservations)
    && forall v :: 1 <= v <= e.reservations ==> v in e.data
  }

  function Upto(n: nat): (r: set<nat>)
    ensures |r| == n + 1
    ensures forall v :: v in r <==> 0 <= v <= n
  {
    if n == 0 then {0} else Upto(n - 1) + {n}
  }

  function Values(data: seq<nat>): (r: set<nat>)
    ensures |r| <= |data|
    ensures forall v :: v in r <==> v in data
  {
    if data == [] then {} else Values(data[1..]) + {data[0]}
  }

  lemma SubsetSize(a: set<nat>, b: set<nat>)
    requires a <= b
    ensures |a| <= |b|
  {
    if a != {} {
      var x :| x in a;
      SubsetSize(a - {x}, b - {x});
    }
  }

  /** A grid that holds each of 0 to `n` has more than `n` cells. */
  lemma Pigeonhole(data: seq<nat>, n: nat)
    requires forall v :: 0 <= v <= n ==> v in data
    ensures n < |data|
  {
    SubsetSize(Upto(n), Values(data));
  }

  lemma EmptyCounted(id: nat, rows: nat, cols: nat)
    requires rows * cols < UINT_RANGE
    ensures Counted(EmptyEvent(id, rows, cols))
  {
  }

  /** A free seat and the ids 1 to `reservations` together leave room for one more. */
  lemma RoomForOneMore(e: EventState, i: nat)
    requires Counted(e) && i < |e.data| && e.data[i] == 0
    ensures e.reservations + 1 <= e.rows * e.cols && NextId(e) == e.reservations + 1
  {
    Pigeonhole(e.data, e.reservations);
  }

  lemma StillStanding(e: EventState, seats: seq<Seat>, v: nat)
    requires Counted(e) && Grants(e, seats) && 1 <= v <= e.reservations
    ensures v in Granted(e, seats).data
  {
    assert v in e.data;
    var c :| 0 <= c < |e.data| && e.data[c] == v;
    assert Granted(e, seats).data[c] == v;
  }

  /** A reservation of at least one seat takes the next number and leaves the others standing. */
  lemma GrantedCounted(e: EventState, seats: seq<Seat>)
    requires Counted(e) && Grants(e, seats) && seats != []
    ensures Counted(Granted(e, seats)) && Granted(e, seats).reservations == e.reservations + 1
  {
    var i := SeatIndex(e.cols, seats[0]);
    GrantsSeat(e, seats, 0);
    RoomForOneMore(e, i);
    var g := Granted(e, seats);
    assert Hits(e.cols, seats, i);
    forall v | 1 <= v <= g.reservations
      ensures v in g.data
    {
      if v <= e.reservations {
        StillStanding(e, seats, v);
      } else {
        assert g.data[i] == v;
      }
    }
  }

  /** A request the clients can send: at least one seat, and no grid with 2^32 seats or more. */
  predicate Modest(op: Op) {
    match op
    case Create(_, rows, cols) => rows * cols < UINT_RANGE
    case Reserve(_, seats) => seats != []
    case ListEvents => true
  }

  ghost predicate ModestCalls(h: seq<Ev>) {
    forall i :: 0 <= i < |h| && h[i].Call? ==> Modest(h[i].op)
  }

  ghost predicate AllCounted(es: seq<EventState>) {
    forall k :: 0 <= k < |es| ==> Counted(es[k])
  }

  lemma ApplyCounted(es: seq<EventState>, op: Op)
    requires AllShaped(es) && AllCounted(es) && Modest(op)
    ensures AllCounted(Apply(es, op).0)
  {
    match op
    case Create(id, rows, cols) =>
      EmptyCounted(id, rows, cols);
    case Reserve(id, seats) =>
      var k := FindId(IdsOf(es), id);
      if k.Some? && Grants(es[k.value], seats) {
        GrantedCounted(es[k.value], seats);
      }
    case ListEvents =>
  }

  lemma {:induction false} HistoryCounted(h: seq<Ev>)
    requires WellFormed(h) && ModestCalls(h)
    ensures AllCounted(StoreOf(h))
  {
    if h != [] {
      forall i | 0 <= i < |Front(h)| && Front(h)[i].Call?
        ensures Modest(Front(h)[i].op)
      {
        assert h[i] == Front(h)[i];
      }
      HistoryCounted(Front(h));
      if Last(h).Effect? {
        var c := EffectFollowsCall(h, |h| - 1);
        assert h[c].Call?;
        ApplyCounted(StoreOf(Front(h)), Last(h).op);
      }
    }
  }

  /** In every state of every run of modest requests, an event whose mutex is free has exactly the
      ids 1 to `reservations` on its seats, and has given out no more reservations than seats. */
  lemma ServerCounts(run: seq<State>, i: nat, k: nat)
    requires Run(run) && i < |run| && k < |run[i].events|
    requires ModestCalls(run[i].history)
    ensures k < |run[i].owner| && (run[i].owner[k].None? ==> Counted(run[i].events[k]))
  {
    RunInv(run, i);
    FreeEventIsSequential(run, i, k);
    HistoryCounted(run[i].history);
  }

  /** Even in the middle of a commit no seat holds a number beyond the counter. */
  lemma ServerNeverWraps(run: seq<State>, i: nat, k: nat)
    requires Run(run) && i < |run| && k < |run[i].events|
    requires ModestCalls(run[i].history)
    ensures var e := run[i].events[k];
      && e.reservations <= e.rows * e.cols < UINT_RANGE
      && forall c :: 0 <= c < |e.data| ==> e.data[c] <= e.reservations
  {
    RunInv(run, i);
    var s := run[i];
    HistoryCounted(s.history);
    assert s.events[k] == Expected(s, k);
    var abs := Abs(s)[k];
    assert Counted(abs);
    if s.owner[k].Some? {
      var t := s.owner[k].value;
      assert ThreadHolds(s, t);
      assert ThreadInv(s, t);
      assert ThreadLogged(s, t);
      var pc := s.threads[t];
      if pc.ReserveWrite? || (pc.ReserveUnlock? && pc.ok) {
        var c := LatestEvent(s.history, t);
        assert Modest(pc.op);
        GrantedCounted(abs, pc.op.seats);
        if pc.ReserveWrite? {
          HalfCounted(abs, pc.op.seats, pc.j);
        }
      }
    }
  }

  lemma HalfCounted(e: EventState, seats: seq<Seat>, j: nat)
    requires Counted(e) && j <= |seats| && NextId(e) == e.reservations + 1
    ensures var h := Half(e, seats, j);
      forall c :: 0 <= c < |h.data| ==> h.data[c] <= h.reservations
  {
  }

  /** Part 1 keeps the count too, although it writes seats before it knows the outcome. */
  lemma InPlaceCounted(e: EventState, seats: seq<Seat>)
    requires Counted(e) && GrantsInPlace(e, seats) && seats != []
    ensures Counted(Granted(e, seats)) && Granted(e, seats).reservations == e.reservations + 1
    ensures Distinct(seats)
  {
    TwoReservesAgree(e, seats);
    GrantedCounted(e, seats);
  }
}
