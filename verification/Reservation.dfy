/** One event in memory, with the RESERVE of each part of the program as it runs on the seat array. */
module Reservation {
  import opened Seating

  /** The two coordinate arrays of a request, as the list of seats they name. */
  function SeatsOf(xs: seq<nat>, ys: seq<nat>): (r: seq<Seat>)
    requires |xs| == |ys|
    ensures |r| == |xs|
    ensures forall i :: 0 <= i < |r| ==> r[i] == Seat(xs[i], ys[i])
  {
    seq(|xs|, i requires 0 <= i < |xs| => Seat(xs[i], ys[i]))
  }

  /** A grid just created. */
  function EmptyEvent(id: nat, rows: nat, cols: nat): (e: EventState)
    ensures Shaped(e) && NewEvent(e, id, rows, cols)
  {
    EventState(id, rows, cols, 0, seq(rows * cols, _ => 0))
  }

  /** The in-place scan of the first `n` seats went through. */
  ghost predicate PassesUpTo(e: EventState, seats: seq<Seat>, n: nat)
    requires Shaped(e) && n <= |seats|
  {
    forall k :: 0 <= k < n ==> PassesAt(e, seats, k)
  }

  /** The grid while a failed in-place reservation of `seats` is undone: the cells of `undone`
      are back at 0, the others still hold what the scan wrote. */
  ghost function Undone(e: EventState, seats: seq<Seat>, undone: seq<Seat>): (r: seq<nat>)
    ensures |r| == |e.data|
    ensures forall i :: 0 <= i < |r| ==>
      r[i] == if Hits(e.cols, undone, i) then 0
              else if Hits(e.cols, seats, i) then NextId(e) else e.data[i]
  {
    Marked(Marked(e.data, e.cols, seats, NextId(e)), e.cols, undone, 0)
  }

  /** Undoing every seat that passed restores the grid, also when a seat was named twice. */
  lemma UndoneRestores(e: EventState, seats: seq<Seat>)
    requires Shaped(e) && GrantsInPlace(e, seats)
    ensures Undone(e, seats, seats) == e.data
  {
    forall i | 0 <= i < |e.data| && Hits(e.cols, seats, i)
      ensures e.data[i] == 0
    {
      FirstHit(e, seats, i);
    }
  }

  lemma PassedPrefix(e: EventState, seats: seq<Seat>, n: nat)
    requires Shaped(e) && n <= |seats| && PassesUpTo(e, seats, n)
    ensures GrantsInPlace(e, seats[..n])
  {
    forall k | 0 <= k < n
      ensures PassesAt(e, seats[..n], k)
    {
      assert PassesAt(e, seats, k);
      assert seats[..n][..k] == seats[..k];
    }
  }

  /** Cells below `n` hold nothing this request would overwrite. */
  ghost predicate ScannedTo(e: EventState, seats: seq<Seat>, n: nat) {
    && n <= |e.data|
    && forall i :: 0 <= i < n && Hits(e.cols, seats, i) ==> e.data[i] == 0
  }

  class Event {
    const id: nat
    const rows: nat
    const cols: nat
    const data: array<nat>
    var reservations: nat

    ghost predicate Valid()
      reads this
    {
      && data.Length == rows * cols
      && reservations < UINT_RANGE
    }

    ghost function View(): (e: EventState)
      reads this, data
      ensures Valid() ==> Shaped(e)
    {
      EventState(id, rows, cols, reservations, data[..])
    }

    constructor (id: nat, rows: nat, cols: nat)
      ensures Valid() && fresh(data)
      ensures View() == EmptyEvent(id, rows, cols)
      ensures this.id == id && this.rows == rows && this.cols == cols && reservations == 0
      ensures data.Length == rows * cols && forall i :: 0 <= i < data.Length ==> data[i] == 0
    {
      this.id := id;
      this.rows := rows;
      this.cols := cols;
      this.reservations := 0;
      var cells := new nat[rows * cols](_ => 0);
      this.data := cells;
    }

    /** The undo loop of Part 1's RESERVE: free again the `n` seats written so far. */
    method RollBack(xs: seq<nat>, ys: seq<nat>, n: nat, ghost e: EventState)
      requires Valid() && n <= |xs| == |ys|
      requires Shaped(e) && e.cols == cols && e.rows == rows
      requires GrantsInPlace(e, SeatsOf(xs, ys)[..n])
      requires data[..] == Marked(e.data, cols, SeatsOf(xs, ys)[..n], NextId(e))
      modifies data
      ensures data[..] == e.data
    {
      ghost var seats := SeatsOf(xs, ys)[..n];
      assert seats[..0] == [];
      MarkedNothing(data[..], cols, 0);
      for j := 0 to n
        invariant data[..] == Undone(e, seats, seats[..j])
      {
        assert PassesAt(e, seats, j);
        assert seats[j] == Seat(xs[j], ys[j]);
        data[SeatIndex(cols, Seat(xs[j], ys[j]))] := 0;
        MarkedSnoc(Marked(e.data, cols, seats, NextId(e)), rows, cols, seats[..j], seats[j], 0);
        assert seats[..j] + [seats[j]] == seats[..j + 1];
      }
      assert seats[..n] == seats;
      UndoneRestores(e, seats);
    }

    /** RESERVE of Part 1: write while checking, roll back at the first bad seat. */
    method ReserveInPlace(xs: seq<nat>, ys: seq<nat>) returns (ok: bool)
      requires Valid() && |xs| == |ys|
      modifies this`reservations, data
      ensures Valid()
      ensures ok <==> GrantsInPlace(old(View()), SeatsOf(xs, ys))
      ensures View() == if ok then Granted(old(View()), SeatsOf(xs, ys)) else old(View())
      ensures ok <==> FitsInPlace(old(View()), SeatsOf(xs, ys))
      ensures ok ==> Reserves(old(View()), SeatsOf(xs, ys), View())
    {
      ghost var seats := SeatsOf(xs, ys);
      ghost var e := View();
      reservations := (reservations + 1) % UINT_RANGE;
      var reservationId := reservations;
      var i := 0;
      MarkedNothing(e.data, cols, reservationId);
      assert seats[..0] == [];
      while i < |xs|
        invariant 0 <= i <= |xs|
        invariant reservations == reservationId == NextId(e)
        invariant PassesUpTo(e, seats, i)
        invariant data[..] == Marked(e.data, cols, seats[..i], reservationId)
      {
        var row, col := xs[i], ys[i];
        assert seats[i] == Seat(row, col);
        if row <= 0 || row > rows || col <= 0 || col > cols {
          assert !PassesAt(e, seats, i);
          break;
        }
        IndexInRange(rows, cols, seats[i]);
        var seat := data[SeatIndex(cols, Seat(row, col))];
        if seat != 0 {
          assert !PassesAt(e, seats, i);
          break;
        }
        data[SeatIndex(cols, Seat(row, col))] := reservationId;
        MarkedSnoc(e.data, rows, cols, seats[..i], seats[i], reservationId);
        assert seats[..i] + [seats[i]] == seats[..i + 1];
        i := i + 1;
      }
      PassedPrefix(e, seats, i);
      if i < |xs| {
        reservations := (reservations + UINT_RANGE - 1) % UINT_RANGE;
        assert reservations == e.reservations;
        RollBack(xs, ys, i, e);
        InPlaceMeans(e, seats);
        return false;
      }
      assert seats[..i] == seats;
      InPlaceMeans(e, seats);
      return true;
    }

    /** RESERVE of Part 2: check the bounds, scan the grid against the request, then commit. */
    method ReserveValidated(xs: seq<nat>, ys: seq<nat>) returns (ok: bool)
      requires Valid() && |xs| == |ys|
      modifies this`reservations, data
      ensures Valid()
      ensures ok <==> Grants(old(View()), SeatsOf(xs, ys))
      ensures View() == if ok then Granted(old(View()), SeatsOf(xs, ys)) else old(View())
      ensures ok <==> AllFree(old(View()), SeatsOf(xs, ys))
      ensures ok ==> Reserves(old(View()), SeatsOf(xs, ys), View())
    {
      ghost var seats := SeatsOf(xs, ys);
      ghost var e := View();
      for i := 0 to |xs|
        invariant forall j :: 0 <= j < i ==> InGrid(rows, cols, seats[j])
      {
        if xs[i] <= 0 || xs[i] > rows || ys[i] <= 0 || ys[i] > cols {
          assert !InGrid(rows, cols, seats[i]);
          GrantsMeans(e, seats);
          return false;
        }
      }
      for i := 0 to rows * cols
        invariant ScannedTo(e, seats, i)
      {
        var j := 0;
        while j < |xs|
          invariant 0 <= j <= |xs|
          invariant forall k :: 0 <= k < j ==> SeatIndex(cols, seats[k]) != i
        {
          assert seats[j] == Seat(xs[j], ys[j]);
          if SeatIndex(cols, Seat(xs[j], ys[j])) != i {
            j := j + 1;
            continue;
          }
          if data[i] != 0 {
            assert Hits(e.cols, seats, i);
            GrantsMeans(e, seats);
            return false;
          }
          break;
        }
        assert Hits(e.cols, seats, i) ==> e.data[i] == 0;
      }
      reservations := (reservations + 1) % UINT_RANGE;
      var reservationId := reservations;
      MarkedNothing(e.data, cols, reservationId);
      assert seats[..0] == [];
      for i := 0 to |xs|
        invariant reservations == reservationId == NextId(e)
        invariant data[..] == Marked(e.data, cols, seats[..i], reservationId)
      {
        assert seats[i] == Seat(xs[i], ys[i]) && InGrid(rows, cols, seats[i]);
        IndexInRange(rows, cols, seats[i]);
        data[SeatIndex(cols, Seat(xs[i], ys[i]))] := reservationId;
        MarkedSnoc(e.data, rows, cols, seats[..i], seats[i], reservationId);
        assert seats[..i] + [seats[i]] == seats[..i + 1];
      }
      assert seats[..|xs|] == seats;
      GrantsMeans(e, seats);
      GrantedMeans(e, seats);
      return true;
    }
  }
}
