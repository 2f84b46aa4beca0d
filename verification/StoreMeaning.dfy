/** What a store must hold, told from the successful CREATEs and RESERVEs alone: the id and size of each
    event, how many reservations it has had, and for each row and column the number of the last
    reservation that named it. */
module StoreMeaning {
  import opened Seating
  import opened Store

  /** A successful CREATE, or a successful RESERVE of seats of the event created as number `k`. */
  datatype Fact = Made(id: nat, rows: nat, cols: nat) | Took(k: nat, seats: seq<Seat>)

  function MadeOf(facts: seq<Fact>): (r: seq<Fact>)
    ensures forall i :: 0 <= i < |r| ==> r[i].Made?
  {
    if facts == [] then []
    else
      var last := facts[|facts| - 1];
      MadeOf(facts[..|facts| - 1]) + if last.Made? then [last] else []
  }

  /** Reservations of event `k` so far. */
  function CountOf(facts: seq<Fact>, k: nat): nat {
    if facts == [] then 0
    else
      var last := facts[|facts| - 1];
      CountOf(facts[..|facts| - 1], k) + if last.Took? && last.k == k then 1 else 0
  }

  /** The number of the last reservation of event `k` that named row `r`, column `c`; 0 if none did. */
  function NumberOf(facts: seq<Fact>, k: nat, r: nat, c: nat): nat {
    if facts == [] then 0
    else
      var last := facts[|facts| - 1];
      if last.Took? && last.k == k && Seat(r, c) in last.seats then CountOf(facts, k) % 0x1_0000_0000
      else NumberOf(facts[..|facts| - 1], k, r, c)
  }

  ghost predicate CellMeans(facts: seq<Fact>, k: nat, e: EventState, r: nat, c: nat) {
    && 0 <= (r - 1) * e.cols + (c - 1) < |e.data|
    && e.data[(r - 1) * e.cols + (c - 1)] == NumberOf(facts, k, r, c)
  }

  /** Event `e` is what the facts make of the event created as number `k`. */
  ghost predicate EventMeans(facts: seq<Fact>, k: nat, e: EventState) {
    && k < |MadeOf(facts)| && Made(e.id, e.rows, e.cols) == MadeOf(facts)[k]
    && e.reservations == CountOf(facts, k) % 0x1_0000_0000
    && |e.data| == e.rows * e.cols
    && forall r: nat, c: nat :: 1 <= r <= e.rows && 1 <= c <= e.cols ==> CellMeans(facts, k, e, r, c)
  }

  ghost predicate Means(facts: seq<Fact>, es: seq<EventState>) {
    && |es| == |MadeOf(facts)|
    && (forall k :: 0 <= k < |es| ==> EventMeans(facts, k, es[k]))
    && forall k: nat :: k >= |es| ==> CountOf(facts, k) == 0
  }

  lemma Snoc(facts: seq<Fact>, f: Fact, k: nat, r: nat, c: nat)
    ensures MadeOf(facts + [f]) == MadeOf(facts) + if f.Made? then [f] else []
    ensures CountOf(facts + [f], k) == CountOf(facts, k) + if f.Took? && f.k == k then 1 else 0
    ensures NumberOf(facts + [f], k, r, c) ==
      if f.Took? && f.k == k && Seat(r, c) in f.seats then CountOf(facts + [f], k) % 0x1_0000_0000
      else NumberOf(facts, k, r, c)
  {
    assert (facts + [f])[..|facts|] == facts;
  }

  lemma {:induction false} NoReservationYet(facts: seq<Fact>, k: nat, r: nat, c: nat)
    requires CountOf(facts, k) == 0
    ensures NumberOf(facts, k, r, c) == 0
  {
    if facts != [] {
      NoReservationYet(facts[..|facts| - 1], k, r, c);
    }
  }

  lemma Nothing()
    ensures Means([], [])
  {
  }

  lemma OtherEvent(facts: seq<Fact>, f: Fact, k: nat, e: EventState)
    requires EventMeans(facts, k, e) && (f.Took? ==> f.k != k)
    ensures EventMeans(facts + [f], k, e)
  {
    Snoc(facts, f, k, 0, 0);
    forall r: nat, c: nat | 1 <= r <= e.rows && 1 <= c <= e.cols
      ensures CellMeans(facts + [f], k, e, r, c)
    {
      assert CellMeans(facts, k, e, r, c);
      Snoc(facts, f, k, r, c);
    }
  }

  lemma AddedEvent(facts: seq<Fact>, k: nat, e: EventState, id: nat, rows: nat, cols: nat)
    requires k == |MadeOf(facts)| && CountOf(facts, k) == 0 && NewEvent(e, id, rows, cols)
    ensures EventMeans(facts + [Made(id, rows, cols)], k, e)
  {
    var f := Made(id, rows, cols);
    Snoc(facts, f, k, 0, 0);
    forall r: nat, c: nat | 1 <= r <= rows && 1 <= c <= cols
      ensures CellMeans(facts + [f], k, e, r, c)
    {
      Snoc(facts, f, k, r, c);
      NoReservationYet(facts, k, r, c);
      CellOf(rows, cols, r, c);
    }
  }

  lemma CountGoesOn(n: nat)
    ensures (n % 0x1_0000_0000 + 1) % 0x1_0000_0000 == (n + 1) % 0x1_0000_0000
  {
  }

  lemma TakenCount(facts: seq<Fact>, k: nat, e: EventState, seats: seq<Seat>, e': EventState)
    requires EventMeans(facts, k, e) && Reserves(e, seats, e')
    ensures e'.reservations == CountOf(facts + [Took(k, seats)], k) % 0x1_0000_0000
  {
    Snoc(facts, Took(k, seats), k, 0, 0);
    CountGoesOn(CountOf(facts, k));
  }

  lemma TakenCell(facts: seq<Fact>, k: nat, e: EventState, seats: seq<Seat>, e': EventState, r: nat, c: nat)
    requires CellMeans(facts, k, e, r, c) && TakenAt(e, seats, e', r, c) && e'.cols == e.cols
    requires e'.reservations == CountOf(facts + [Took(k, seats)], k) % 0x1_0000_0000
    ensures CellMeans(facts + [Took(k, seats)], k, e', r, c)
  {
    Snoc(facts, Took(k, seats), k, r, c);
  }

  lemma TakenEvent(facts: seq<Fact>, k: nat, e: EventState, seats: seq<Seat>, e': EventState)
    requires EventMeans(facts, k, e) && Reserves(e, seats, e')
    ensures EventMeans(facts + [Took(k, seats)], k, e')
  {
    var f := Took(k, seats);
    Snoc(facts, f, k, 0, 0);
    TakenCount(facts, k, e, seats, e');
    forall r: nat, c: nat | 1 <= r <= e.rows && 1 <= c <= e.cols
      ensures CellMeans(facts + [f], k, e', r, c)
    {
      assert CellMeans(facts, k, e, r, c) && TakenAt(e, seats, e', r, c);
      TakenCell(facts, k, e, seats, e', r, c);
    }
  }

  lemma MeansAfterCreate(facts: seq<Fact>, es: seq<EventState>, es': seq<EventState>, id: nat, rows: nat, cols: nat)
    requires Means(facts, es) && Adds(es, es', id, rows, cols)
    ensures Means(facts + [Made(id, rows, cols)], es')
  {
    var f := Made(id, rows, cols);
    Snoc(facts, f, 0, 0, 0);
    forall k | 0 <= k < |es'|
      ensures EventMeans(facts + [f], k, es'[k])
    {
      if k < |es| {
        assert es'[k] == es'[..|es|][k];
        OtherEvent(facts, f, k, es[k]);
      } else {
        AddedEvent(facts, k, es'[k], id, rows, cols);
      }
    }
    forall k: nat | k >= |es'|
      ensures CountOf(facts + [f], k) == 0
    {
      Snoc(facts, f, k, 0, 0);
    }
  }

  lemma MeansAfterReserve(facts: seq<Fact>, es: seq<EventState>, es': seq<EventState>, n: nat, seats: seq<Seat>)
    requires Means(facts, es) && TakesSeats(es, es', n, seats)
    ensures Means(facts + [Took(n, seats)], es')
  {
    var f := Took(n, seats);
    Snoc(facts, f, 0, 0, 0);
    forall k | 0 <= k < |es'|
      ensures EventMeans(facts + [f], k, es'[k])
    {
      if k == n {
        TakenEvent(facts, k, es[k], seats, es'[k]);
      } else {
        OtherEvent(facts, f, k, es[k]);
      }
    }
    forall k: nat | k >= |es'|
      ensures CountOf(facts + [f], k) == 0
    {
      Snoc(facts, f, k, 0, 0);
    }
  }
}
