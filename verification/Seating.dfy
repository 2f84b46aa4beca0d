/** Seat grids: row-major addressing, the effect of one reservation on a grid, and the
    conditions under which the two versions of the program grant a reservation. */
module Seating {

  datatype Option<+T> = None | Some(value: T)

  /** Number of values of the C type `unsigned int`, which holds ids and reservation counters. */
  const UINT_RANGE := 0x1_0000_0000

  /** Seats one RESERVE has room for. */
  const MAX_RESERVATION_SIZE := 256

  /** A requested seat: row `x` and column `y`, both counted from 1. */
  datatype Seat = Seat(x: nat, y: nat)

  /** The value of an event: its grid is stored row by row, 0 meaning a free seat. */
  datatype EventState = EventState(id: nat, rows: nat, cols: nat, reservations: nat, data: seq<nat>)

  ghost predicate Shaped(e: EventState) {
    && |e.data| == e.rows * e.cols
    && e.reservations < UINT_RANGE
  }

  function SeatIndex(cols: nat, s: Seat): int {
    (s.x - 1) * cols + s.y - 1
  }

  predicate InGrid(rows: nat, cols: nat, s: Seat) {
    1 <= s.x <= rows && 1 <= s.y <= cols
  }

  ghost predicate AllInGrid(rows: nat, cols: nat, seats: seq<Seat>) {
    forall j :: 0 <= j < |seats| ==> InGrid(rows, cols, seats[j])
  }

  ghost predicate Distinct(seats: seq<Seat>) {
    forall i, j :: 0 <= i < j < |seats| ==> seats[i] != seats[j]
  }

  lemma MulMonotone(a: nat, b: nat, c: nat)
    requires a <= b
    ensures a * c <= b * c
  {
  }

  /** Seats inside the grid address cells inside the array. */
  lemma IndexInRange(rows: nat, cols: nat, s: Seat)
    requires InGrid(rows, cols, s)
    ensures 0 <= SeatIndex(cols, s) < rows * cols
  {
    MulMonotone(s.x - 1, rows - 1, cols);
    assert (rows - 1) * cols == rows * cols - cols;
  }

  /** Row-major addressing never sends two seats of a grid to one cell. */
  lemma IndexInjective(rows: nat, cols: nat, s: Seat, r: Seat)
    requires InGrid(rows, cols, s) && InGrid(rows, cols, r)
    ensures SeatIndex(cols, s) == SeatIndex(cols, r) <==> s == r
  {
    if s.x < r.x {
      MulMonotone(s.x, r.x - 1, cols);
      assert s.x * cols == (s.x - 1) * cols + cols;
    } else if r.x < s.x {
      MulMonotone(r.x, s.x - 1, cols);
      assert r.x * cols == (r.x - 1) * cols + cols;
    }
  }

  /** Every cell of the grid is some seat's cell, so the addressing is a bijection. */
  lemma IndexOnto(rows: nat, cols: nat, i: nat) returns (s: Seat)
    requires i < rows * cols
    ensures InGrid(rows, cols, s) && SeatIndex(cols, s) == i
  {
    if cols == 0 {
      assert false;
    }
    var q, r := i / cols, i % cols;
    assert i == q * cols + r;
    if q >= rows {
      MulMonotone(rows, q, cols);
    }
    s := Seat(q + 1, r + 1);
  }

  /** Some seat of the list addresses cell `i`. */
  predicate Hits(cols: nat, seats: seq<Seat>, i: int) {
    exists j :: 0 <= j < |seats| && SeatIndex(cols, seats[j]) == i
  }

  /** The grid with every requested cell holding `v`. */
  ghost function Marked(data: seq<nat>, cols: nat, seats: seq<Seat>, v: nat): (r: seq<nat>)
    ensures |r| == |data|
    ensures forall i :: 0 <= i < |data| ==> r[i] == if Hits(cols, seats, i) then v else data[i]
  {
    seq(|data|, i requires 0 <= i < |data| => if Hits(cols, seats, i) then v else data[i])
  }

  lemma HitsSnoc(cols: nat, seats: seq<Seat>, s: Seat, i: int)
    ensures Hits(cols, seats + [s], i) <==> Hits(cols, seats, i) || SeatIndex(cols, s) == i
  {
    var all := seats + [s];
    if Hits(cols, seats, i) {
      var j :| 0 <= j < |seats| && SeatIndex(cols, seats[j]) == i;
      assert all[j] == seats[j];
    }
    if SeatIndex(cols, s) == i {
      assert all[|seats|] == s;
    }
  }

  /** Writing one more seat. */
  lemma MarkedSnoc(data: seq<nat>, rows: nat, cols: nat, seats: seq<Seat>, s: Seat, v: nat)
    requires |data| == rows * cols && InGrid(rows, cols, s)
    ensures 0 <= SeatIndex(cols, s) < |data|
    ensures Marked(data, cols, seats + [s], v) == Marked(data, cols, seats, v)[SeatIndex(cols, s) := v]
  {
    IndexInRange(rows, cols, s);
    forall i | 0 <= i < |data|
      ensures Hits(cols, seats + [s], i) <==> Hits(cols, seats, i) || SeatIndex(cols, s) == i
    {
      HitsSnoc(cols, seats, s, i);
    }
  }

  lemma MarkedNothing(data: seq<nat>, cols: nat, v: nat)
    ensures Marked(data, cols, [], v) == data
  {
  }

  /** The id the next reservation gets: a pre-increment of an `unsigned int`, wrapping at 2^32. */
  function NextId(e: EventState): nat {
    (e.reservations + 1) % UINT_RANGE
  }

  /** Every requested seat exists and is free: what the server of Part 2 checks. */
  ghost predicate Grants(e: EventState, seats: seq<Seat>)
    requires Shaped(e)
  {
    && AllInGrid(e.rows, e.cols, seats)
    && forall i :: 0 <= i < |e.data| && Hits(e.cols, seats, i) ==> e.data[i] == 0
  }

  /** Every requested seat exists and is free once the seats before it in the same request have
      been written: what Part 1 finds, because it writes while it checks. */
  ghost predicate GrantsInPlace(e: EventState, seats: seq<Seat>)
    requires Shaped(e)
  {
    forall k :: 0 <= k < |seats| ==> PassesAt(e, seats, k)
  }

  ghost predicate PassesAt(e: EventState, seats: seq<Seat>, k: nat)
    requires Shaped(e) && k < |seats|
  {
    && InGrid(e.rows, e.cols, seats[k])
    && var i := SeatIndex(e.cols, seats[k]);
    && 0 <= i < |e.data|
    && Marked(e.data, e.cols, seats[..k], NextId(e))[i] == 0
  }

  /** The event after the first `n` seats of a granted request have been written. */
  ghost function Half(e: EventState, seats: seq<Seat>, n: nat): (r: EventState)
    requires n <= |seats|
    ensures r.id == e.id && r.rows == e.rows && r.cols == e.cols && |r.data| == |e.data|
  {
    e.(reservations := NextId(e), data := Marked(e.data, e.cols, seats[..n], NextId(e)))
  }

  /** The event after a granted request. */
  ghost function Granted(e: EventState, seats: seq<Seat>): EventState {
    e.(reservations := NextId(e), data := Marked(e.data, e.cols, seats, NextId(e)))
  }

  lemma HalfOfAll(e: EventState, seats: seq<Seat>)
    ensures Half(e, seats, |seats|) == Granted(e, seats)
    ensures Half(e, seats, 0) == e.(reservations := NextId(e))
  {
    assert seats[..|seats|] == seats;
    assert seats[..0] == [];
    MarkedNothing(e.data, e.cols, NextId(e));
  }

  /** A seat that addresses a free cell is free for Part 2 as well. */
  lemma GrantsSeat(e: EventState, seats: seq<Seat>, j: nat)
    requires Shaped(e) && Grants(e, seats) && j < |seats|
    ensures 0 <= SeatIndex(e.cols, seats[j]) < |e.data| && e.data[SeatIndex(e.cols, seats[j])] == 0
  {
    IndexInRange(e.rows, e.cols, seats[j]);
    assert Hits(e.cols, seats, SeatIndex(e.cols, seats[j]));
  }

  lemma PassesNeedsFree(e: EventState, seats: seq<Seat>, k: nat)
    requires Shaped(e) && k < |seats| && PassesAt(e, seats, k)
    requires NextId(e) != 0
    ensures e.data[SeatIndex(e.cols, seats[k])] == 0
    ensures forall j :: 0 <= j < k ==> seats[j] != seats[k]
  {
    var i := SeatIndex(e.cols, seats[k]);
    assert !Hits(e.cols, seats[..k], i);
    forall j | 0 <= j < k
      ensures seats[j] != seats[k]
    {
      assert seats[..k][j] == seats[j];
    }
  }

  lemma InPlaceImpliesGrants(e: EventState, seats: seq<Seat>)
    requires Shaped(e) && GrantsInPlace(e, seats)
    ensures Grants(e, seats)
  {
    forall j | 0 <= j < |seats|
      ensures InGrid(e.rows, e.cols, seats[j])
    {
      assert PassesAt(e, seats, j);
    }
    forall i | 0 <= i < |e.data| && Hits(e.cols, seats, i)
      ensures e.data[i] == 0
    {
      FirstHit(e, seats, i);
    }
  }

  /** The earliest seat that addresses a cell finds it as the request found it. */
  lemma {:induction false} FirstHit(e: EventState, seats: seq<Seat>, i: int)
    requires Shaped(e) && GrantsInPlace(e, seats)
    requires 0 <= i < |e.data| && Hits(e.cols, seats, i)
    ensures e.data[i] == 0
    decreases |seats|
  {
    var k := |seats| - 1;
    if Hits(e.cols, seats[..k], i) {
      forall n | 0 <= n < k
        ensures PassesAt(e, seats[..k], n)
      {
        assert PassesAt(e, seats, n);
        assert seats[..k][..n] == seats[..n];
      }
      FirstHit(e, seats[..k], i);
    } else {
      assert seats[..k] + [seats[k]] == seats;
      HitsSnoc(e.cols, seats[..k], seats[k], i);
      assert PassesAt(e, seats, k);
    }
  }

  lemma GrantsImpliesInPlace(e: EventState, seats: seq<Seat>)
    requires Shaped(e) && Grants(e, seats)
    requires Distinct(seats) || NextId(e) == 0
    ensures GrantsInPlace(e, seats)
  {
    forall k | 0 <= k < |seats|
      ensures PassesAt(e, seats, k)
    {
      var i := SeatIndex(e.cols, seats[k]);
      GrantsSeat(e, seats, k);
      if NextId(e) != 0 && Hits(e.cols, seats[..k], i) {
        var j :| 0 <= j < k && SeatIndex(e.cols, seats[..k][j]) == i;
        IndexInjective(e.rows, e.cols, seats[j], seats[k]);
        assert false;
      }
    }
  }

  /** The two versions of RESERVE differ on nothing but repeated seats: Part 1 grants a request
      exactly when Part 2 does and no seat is named twice. The one exception is a counter that
      has wrapped to 0, which Part 1 cannot tell from a free seat. */
  lemma TwoReservesAgree(e: EventState, seats: seq<Seat>)
    requires Shaped(e)
    ensures GrantsInPlace(e, seats) <==> Grants(e, seats) && (Distinct(seats) || NextId(e) == 0)
  {
    if GrantsInPlace(e, seats) {
      InPlaceImpliesGrants(e, seats);
      if NextId(e) != 0 {
        forall i, j | 0 <= i < j < |seats|
          ensures seats[i] != seats[j]
        {
          assert PassesAt(e, seats, j);
          PassesNeedsFree(e, seats, j);
        }
      }
    }
    if Grants(e, seats) && (Distinct(seats) || NextId(e) == 0) {
      GrantsImpliesInPlace(e, seats);
    }
  }

  /** One free seat named twice: Part 2 grants it, Part 1 finds the seat taken by the request itself. */
  lemma DoubledSeatDiffers()
    ensures var (e, seats) := (EventState(1, 1, 1, 0, [0]), [Seat(1, 1), Seat(1, 1)]);
      Shaped(e) && Grants(e, seats) && !GrantsInPlace(e, seats)
  {
    var e, seats := EventState(1, 1, 1, 0, [0]), [Seat(1, 1), Seat(1, 1)];
    TwoReservesAgree(e, seats);
    assert seats[0] == seats[1] && !Distinct(seats);
  }

  // ----- In rows and columns -----

  /** Row `x`, column `y` is a seat of the event and free. */
  ghost predicate SeatFree(e: EventState, x: nat, y: nat) {
    && 1 <= x <= e.rows && 1 <= y <= e.cols
    && 0 <= (x - 1) * e.cols + (y - 1) < |e.data|
    && e.data[(x - 1) * e.cols + (y - 1)] == 0
  }

  ghost predicate AllFree(e: EventState, seats: seq<Seat>) {
    forall j :: 0 <= j < |seats| ==> SeatFree(e, seats[j].x, seats[j].y)
  }

  /** Row `r`, column `c` of `after` holds the latest reservation if the request names it, and what it
      held before otherwise. */
  ghost predicate TakenAt(before: EventState, seats: seq<Seat>, after: EventState, r: nat, c: nat) {
    && 0 <= (r - 1) * before.cols + (c - 1) < |before.data| == |after.data|
    && after.data[(r - 1) * before.cols + (c - 1)] ==
         if Seat(r, c) in seats then after.reservations else before.data[(r - 1) * before.cols + (c - 1)]
  }

  /** What a granted request makes of an event. */
  ghost predicate Reserves(before: EventState, seats: seq<Seat>, after: EventState) {
    && after.id == before.id && after.rows == before.rows && after.cols == before.cols
    && |after.data| == |before.data|
    && after.reservations == (before.reservations + 1) % 0x1_0000_0000
    && forall r: nat, c: nat :: 1 <= r <= before.rows && 1 <= c <= before.cols ==> TakenAt(before, seats, after, r, c)
  }

  /** An event nobody has reserved a seat of. */
  ghost predicate NewEvent(e: EventState, id: nat, rows: nat, cols: nat) {
    && e.id == id && e.rows == rows && e.cols == cols && e.reservations == 0
    && |e.data| == rows * cols && forall i :: 0 <= i < rows * cols ==> e.data[i] == 0
  }

  /** The cell of row `r`, column `c` is that many rows of seats and then columns behind the first. */
  lemma CellOf(rows: nat, cols: nat, r: nat, c: nat)
    requires 1 <= r <= rows && 1 <= c <= cols
    ensures SeatIndex(cols, Seat(r, c)) == (r - 1) * cols + (c - 1)
    ensures 0 <= (r - 1) * cols + (c - 1) < rows * cols
  {
    IndexInRange(rows, cols, Seat(r, c));
  }

  lemma HitsMeans(rows: nat, cols: nat, seats: seq<Seat>, r: nat, c: nat)
    requires AllInGrid(rows, cols, seats) && 1 <= r <= rows && 1 <= c <= cols
    ensures Hits(cols, seats, (r - 1) * cols + (c - 1)) <==> Seat(r, c) in seats
  {
    CellOf(rows, cols, r, c);
    if Hits(cols, seats, SeatIndex(cols, Seat(r, c))) {
      var j :| 0 <= j < |seats| && SeatIndex(cols, seats[j]) == SeatIndex(cols, Seat(r, c));
      IndexInjective(rows, cols, seats[j], Seat(r, c));
    }
    if Seat(r, c) in seats {
      var j :| 0 <= j < |seats| && seats[j] == Seat(r, c);
    }
  }

  /** A request is granted by the server if and only if each row and column it names is a free seat. */
  lemma GrantsMeans(e: EventState, seats: seq<Seat>)
    requires Shaped(e)
    ensures Grants(e, seats) <==> AllFree(e, seats)
  {
    if Grants(e, seats) {
      forall j | 0 <= j < |seats|
        ensures SeatFree(e, seats[j].x, seats[j].y)
      {
        GrantsSeat(e, seats, j);
        CellOf(e.rows, e.cols, seats[j].x, seats[j].y);
      }
    }
    if AllFree(e, seats) {
      FreeGrants(e, seats);
    }
  }

  lemma FreeGrants(e: EventState, seats: seq<Seat>)
    requires Shaped(e) && AllFree(e, seats)
    ensures Grants(e, seats)
  {
    assert forall j :: 0 <= j < |seats| ==> SeatFree(e, seats[j].x, seats[j].y);
    forall i | 0 <= i < |e.data| && Hits(e.cols, seats, i)
      ensures e.data[i] == 0
    {
      var j :| 0 <= j < |seats| && SeatIndex(e.cols, seats[j]) == i;
      assert SeatFree(e, seats[j].x, seats[j].y);
      CellOf(e.rows, e.cols, seats[j].x, seats[j].y);
    }
  }

  /** And then exactly the rows and columns it names get the next number. */
  lemma GrantedMeans(e: EventState, seats: seq<Seat>)
    requires Shaped(e) && Grants(e, seats)
    ensures Reserves(e, seats, Granted(e, seats))
  {
    forall r: nat, c: nat | 1 <= r <= e.rows && 1 <= c <= e.cols
      ensures TakenAt(e, seats, Granted(e, seats), r, c)
    {
      HitsMeans(e.rows, e.cols, seats, r, c);
      CellOf(e.rows, e.cols, r, c);
    }
  }

  /** Part 1's condition: free seats, different ones unless the counter wraps. */
  ghost predicate FitsInPlace(e: EventState, seats: seq<Seat>) {
    AllFree(e, seats) && (Distinct(seats) || e.reservations + 1 == 0x1_0000_0000)
  }

  /** In Part 1 the rows and columns named must be different as well, unless the counter wraps. */
  lemma InPlaceMeans(e: EventState, seats: seq<Seat>)
    requires Shaped(e)
    ensures GrantsInPlace(e, seats) <==> FitsInPlace(e, seats)
    ensures GrantsInPlace(e, seats) ==> Reserves(e, seats, Granted(e, seats))
  {
    TwoReservesAgree(e, seats);
    GrantsMeans(e, seats);
    if GrantsInPlace(e, seats) {
      GrantedMeans(e, seats);
    }
  }
}
