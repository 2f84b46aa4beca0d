/** SHOW of the server: it takes no lock while it reads, so what it reports lies between two grids;
    when it is exactly the grid the reservations so far have made. */
module ServerShows {
  import opened Seating
  import opened Store
  import opened ServerHistories
  import opened ServerStore
  import opened ServerTheorems
  import Runs

  /** Thread `t` is reading event `k`, having started from the grid `start`. */
  ghost predicate Reading(t: nat, k: nat, start: seq<nat>, s: State) {
    t < |s.threads| && s.threads[t].ShowRead? && s.threads[t].k == k && s.threads[t].start == start
  }

  ghost predicate BeginsReading(t: nat, k: nat, start: seq<nat>, s: State) {
    Reading(t, k, start, s) && s.threads[t].got == [] && k < |s.events| && s.events[k].data == start
  }

  /** Thread `t` has been reading event `k` since state `a`, where the grid was `start`. */
  ghost predicate ReadsSince(run: seq<State>, t: nat, k: nat, start: seq<nat>, a: nat, i: nat)
    requires i < |run|
  {
    && a <= i
    && BeginsReading(t, k, start, run[a])
    && forall m :: a <= m <= i ==> Reading(t, k, start, run[m])
  }

  ghost predicate MovesOne(s: State, u: nat, s': State) {
    u < |s.threads| == |s'.threads| && s'.threads == s.threads[u := s'.threads[u]]
  }

  lemma ListMovesOne(s: State, u: nat, s': State)
    requires u < |s.threads| && Some(s') in {StepCreate(s, u), StepList(s, u), StepDump(s, u)}
    ensures MovesOne(s, u, s')
  {
  }

  lemma EventMovesOne(s: State, u: nat, s': State)
    requires u < |s.threads| && Some(s') in {StepFind(s, u), StepShow(s, u), StepReserve(s, u)}
    ensures MovesOne(s, u, s')
  {
  }

  lemma StepMovesOne(s: State, u: nat, req: Request, s': State)
    requires u < |s.threads| && Step(s, u, req) == Some(s')
    ensures MovesOne(s, u, s')
  {
    if Some(s') in {StepCreate(s, u), StepList(s, u), StepDump(s, u)} {
      ListMovesOne(s, u, s');
    } else if Some(s') in {StepFind(s, u), StepShow(s, u), StepReserve(s, u)} {
      EventMovesOne(s, u, s');
    }
  }

  lemma ShowBegins(s: State, t: nat, req: Request, s': State, k: nat, start: seq<nat>)
    requires t < |s.threads| && Step(s, t, req) == Some(s') && Reading(t, k, start, s')
    ensures Reading(t, k, start, s) || BeginsReading(t, k, start, s')
  {
    assert s.threads[t].ShowRead? || s.threads[t].FindUnlock?;
  }

  lemma NextReading(s: State, s': State, t: nat, k: nat, start: seq<nat>)
    requires Inv(s) && Next(s, s') && Reading(t, k, start, s')
    ensures Reading(t, k, start, s) || BeginsReading(t, k, start, s')
  {
    var u, req :| 0 <= u < |s.threads| && Step(s, u, req) == Some(s');
    StepMovesOne(s, u, req, s');
    if u == t {
      ShowBegins(s, t, req, s', k, start);
    }
  }

  lemma ShowHasStart(run: seq<State>, t: nat, k: nat, start: seq<nat>, i: nat) returns (a: nat)
    requires Run(run) && i < |run| && Reading(t, k, start, run[i])
    ensures ReadsSince(run, t, k, start, a, i)
  {
    Inductive();
    var p := s => Reading(t, k, start, s);
    var q := s => BeginsReading(t, k, start, s);
    forall s, s' | Inv(s) && Next(s, s') && p(s')
      ensures p(s) || q(s')
    {
      NextReading(s, s', t, k, start);
    }
    a := Runs.Since(IsInit, Next, Inv, p, q, run, i);
    forall m | a <= m <= i
      ensures Reading(t, k, start, run[m])
    {
      assert p(run[m]);
    }
  }

  /** SHOW takes no lock while it reads; what it collects is squeezed between two grids. Every seat
      taken when it began reading is reported with its reservation, and everything reported is still so
      at the end. The event is the one its id resolves to. */
  lemma ShowSandwich(run: seq<State>, t: nat, i: nat) returns (a: nat)
    requires Run(run) && i < |run| && t < |run[i].threads| && run[i].threads[t].ShowRead?
    ensures var pc := run[i].threads[t];
      && ReadsSince(run, t, pc.k, pc.start, a, i)
      && FindId(IdsOf(run[i].events), pc.id) == Some(pc.k)
      && var (before, now) := (run[a].events[pc.k].data, run[i].events[pc.k].data);
      && |before| == |now|
      && (forall c :: 0 <= c < |pc.got| && c < |now| && before[c] != 0 ==> pc.got[c] == before[c])
      && (forall c :: 0 <= c < |pc.got| && c < |now| && pc.got[c] != 0 ==> now[c] == pc.got[c])
  {
    var pc := run[i].threads[t];
    a := ShowHasStart(run, t, pc.k, pc.start, i);
    RunInv(run, i);
    assert ThreadInv(run[i], t);
    FoundAtIff(run[i].events, pc.id, pc.k);
  }

  /** In the terms of the history: a SHOW reports every reservation that was in effect when it began
      reading, on every seat it has read. */
  lemma ShowSeesEarlierReservations(run: seq<State>, t: nat, i: nat) returns (a: nat)
    requires Run(run) && i < |run| && t < |run[i].threads| && run[i].threads[t].ShowRead?
    ensures var pc := run[i].threads[t];
      && ReadsSince(run, t, pc.k, pc.start, a, i)
      && pc.k < |StoreOf(run[a].history)|
      && var granted := StoreOf(run[a].history)[pc.k].data;
      && |granted| == |pc.start| && |pc.got| <= |granted|
      && forall c :: 0 <= c < |pc.got| && granted[c] != 0 ==> pc.got[c] == granted[c]
  {
    a := ShowSandwich(run, t, i);
    var k := run[i].threads[t].k;
    RunInv(run, a);
    RunInv(run, i);
    assert ThreadInv(run[i], t);
    EventAhead(run[a], k);
  }

  // ----- Commits under way -----

  /** Thread `u` has written a seat of event `k` and not yet released its mutex. A counter wrapped to
      0 writes nothing that could be seen. */
  ghost predicate Wrote(s: State, u: nat, k: nat) {
    && u < |s.threads| && k < |s.events| && s.events[k].reservations != 0
    && var pc := s.threads[u];
    && ((pc.ReserveWrite? && pc.k == k && pc.j > 0)
        || (pc.ReserveUnlock? && pc.k == k && pc.ok && pc.op.Reserve? && pc.op.seats != []))
  }

  ghost predicate NoneWrote(s: State, k: nat) { forall u: nat :: !Wrote(s, u, k) }

  lemma SeatIsHit(e: EventState, seats: seq<Seat>, n: nat)
    requires Shaped(e) && Grants(e, seats) && 0 < n <= |seats|
    ensures var c := SeatIndex(e.cols, seats[0]);
      0 <= c < |e.data| && e.data[c] == 0 && Half(e, seats, n).data[c] == NextId(e)
  {
    GrantsSeat(e, seats, 0);
    assert seats[..n][0] == seats[0];
    assert Hits(e.cols, seats[..n], SeatIndex(e.cols, seats[0]));
  }

  lemma ZeroMarksNothing(e: EventState, seats: seq<Seat>, n: nat)
    requires Shaped(e) && Grants(e, seats) && n <= |seats| && (NextId(e) == 0 || n == 0)
    ensures Half(e, seats, n).data == e.data
  {
    forall c | 0 <= c < |e.data| && Hits(e.cols, seats[..n], c)
      ensures e.data[c] == 0
    {
      var j :| 0 <= j < n && SeatIndex(e.cols, seats[..n][j]) == c;
      GrantsSeat(e, seats, j);
    }
  }

  lemma WroteShows(s: State, u: nat, k: nat)
    requires Inv(s) && Wrote(s, u, k)
    ensures s.events[k].data != Abs(s)[k].data
  {
    assert ThreadHolds(s, u) && ThreadInv(s, u);
    assert s.events[k] == Expected(s, k);
    var pc, e := s.threads[u], Abs(s)[k];
    HalfOfAll(e, pc.op.seats);
    SeatIsHit(e, pc.op.seats, if pc.ReserveWrite? then pc.j else |pc.op.seats|);
  }

  lemma NoneWroteSettled(s: State, k: nat)
    requires Inv(s) && k < |s.events| && NoneWrote(s, k)
    ensures s.events[k].data == Abs(s)[k].data
  {
    assert s.events[k] == Expected(s, k);
    if s.owner[k].Some? {
      var u := s.owner[k].value;
      assert ThreadHolds(s, u) && ThreadInv(s, u) && !Wrote(s, u, k);
      var pc, e := s.threads[u], Abs(s)[k];
      if pc.ReserveWrite? {
        ZeroMarksNothing(e, pc.op.seats, pc.j);
      } else if pc.ReserveUnlock? && pc.ok {
        HalfOfAll(e, pc.op.seats);
        ZeroMarksNothing(e, pc.op.seats, |pc.op.seats|);
      }
    }
  }

  /** Memory shows the granted reservations and nothing else exactly when nobody is past the first
      write of a commit. */
  lemma SettledIff(s: State, k: nat)
    requires Inv(s) && k < |s.events|
    ensures s.events[k].data == Abs(s)[k].data <==> NoneWrote(s, k)
  {
    if u: nat :| Wrote(s, u, k) {
      WroteShows(s, u, k);
    } else {
      NoneWroteSettled(s, k);
    }
  }

  lemma OnlyWritesChangeGrids(s: State, t: nat, req: Request, s': State, k: nat)
    requires t < |s.threads| && Step(s, t, req) == Some(s') && k < |s.events|
    ensures |s.events| <= |s'.events|
    ensures s'.events[k].data == s.events[k].data || (s.threads[t].ReserveWrite? && s'.history == s.history)
  {
  }

  lemma GridStays(s: State, s': State, k: nat)
    requires Inv(s) && Inv(s') && Next(s, s') && k < |s.events|
    requires NoneWrote(s, k) && NoneWrote(s', k)
    ensures k < |s'.events| && s'.events[k].data == s.events[k].data
  {
    var t, req :| 0 <= t < |s.threads| && Step(s, t, req) == Some(s');
    OnlyWritesChangeGrids(s, t, req, s', k);
    SettledIff(s, k);
    SettledIff(s', k);
  }

  lemma GridStaysAt(run: seq<State>, i: nat, k: nat)
    requires Run(run) && i + 1 < |run| && k < |run[i].events|
    requires NoneWrote(run[i], k) && NoneWrote(run[i + 1], k)
    ensures k < |run[i + 1].events| && run[i + 1].events[k].data == run[i].events[k].data
  {
    RunInv(run, i);
    RunInv(run, i + 1);
    assert Runs.Linked(Next, run, i);
    GridStays(run[i], run[i + 1], k);
  }

  lemma {:induction false} GridStaysAlong(run: seq<State>, a: nat, i: nat, k: nat)
    requires Run(run) && a <= i < |run| && k < |run[a].events|
    requires forall m :: a <= m <= i ==> NoneWrote(run[m], k)
    ensures k < |run[i].events| && run[i].events[k].data == run[a].events[k].data
    decreases i
  {
    if a < i {
      GridStaysAlong(run, a, i - 1, k);
      GridStaysAt(run, i - 1, k);
    }
  }

  // ----- When SHOW is a snapshot -----

  /** A SHOW during which nobody is past the first write of a commit of its event reports exactly the
      reservations granted so far. */
  lemma ShowExactUnlessCommit(run: seq<State>, t: nat, i: nat) returns (a: nat)
    requires Run(run) && i < |run| && t < |run[i].threads| && run[i].threads[t].ShowRead?
    ensures var pc := run[i].threads[t];
      && ReadsSince(run, t, pc.k, pc.start, a, i)
      && pc.k < |StoreOf(run[i].history)|
      && var granted := StoreOf(run[i].history)[pc.k].data;
      && |pc.got| <= |granted|
      && ((forall m :: a <= m <= i ==> NoneWrote(run[m], pc.k)) ==> pc.got == granted[..|pc.got|])
  {
    a := ShowSandwich(run, t, i);
    var pc := run[i].threads[t];
    RunInv(run, i);
    assert ThreadInv(run[i], t);
    SettledIff(run[i], pc.k);
    if forall m :: a <= m <= i ==> NoneWrote(run[m], pc.k) {
      GridStaysAlong(run, a, i, pc.k);
    }
    EventAhead(run[i], pc.k);
  }

  /** Nothing but reservations is ever reported: each is granted by now, or its commit is under way. */
  lemma ShowReportsReservations(run: seq<State>, t: nat, i: nat, c: nat)
    requires Run(run) && i < |run| && t < |run[i].threads| && run[i].threads[t].ShowRead?
    requires c < |run[i].threads[t].got| && run[i].threads[t].got[c] != 0
    ensures var (pc, s) := (run[i].threads[t], run[i]);
      && pc.k < |StoreOf(s.history)| && pc.k < |s.events|
      && c < |StoreOf(s.history)[pc.k].data|
      && (StoreOf(s.history)[pc.k].data[c] == pc.got[c]
          || exists u: nat :: Wrote(s, u, pc.k) && pc.got[c] == s.events[pc.k].reservations)
  {
    var s, pc := run[i], run[i].threads[t];
    RunInv(run, i);
    assert ThreadInv(s, t);
    EventAhead(s, pc.k);
    assert s.events[pc.k] == Expected(s, pc.k);
    if s.events[pc.k].data[c] != Abs(s)[pc.k].data[c] {
      assert s.events[pc.k].data[c] == NextId(Abs(s)[pc.k]) == s.events[pc.k].reservations;
      SettledIff(s, pc.k);
    }
  }

  // ----- And only then -----

  lemma {:induction false} ReadAlone(s: State, t: nat, id: nat, k: nat, start: seq<nat>, got: seq<nat>)
    returns (ss: seq<State>)
    requires t < |s.threads| && s.threads[t] == ShowRead(id, k, start, got)
    requires k < |s.events| && |got| <= |s.events[k].data|
    ensures Runs.Path(Next, s, ss)
    ensures Runs.End(s, ss) == To(s, t, ShowRead(id, k, start, got + s.events[k].data[|got|..]))
    decreases |s.events[k].data| - |got|
  {
    var data := s.events[k].data;
    if |got| == |data| {
      ss := [];
      assert got + data[|got|..] == got;
      assert s.threads[t := s.threads[t]] == s.threads;
    } else {
      var more := got + [data[|got|]];
      var s1 := To(s, t, ShowRead(id, k, start, more));
      OneRead(s, t, id, k, start, got, s1);
      var rest := ReadAlone(s1, t, id, k, start, more);
      Runs.PathJoin(Next, s, [s1], rest);
      ss := [s1] + rest;
      assert more + data[|more|..] == got + data[|got|..];
      assert s.threads[t := ShowRead(id, k, start, more)][t := ShowRead(id, k, start, more + data[|more|..])] ==
        s.threads[t := ShowRead(id, k, start, more + data[|more|..])];
    }
  }

  lemma OneRead(s: State, t: nat, id: nat, k: nat, start: seq<nat>, got: seq<nat>, s': State)
    requires t < |s.threads| && s.threads[t] == ShowRead(id, k, start, got)
    requires k < |s.events| && |got| < |s.events[k].data|
    requires s' == To(s, t, ShowRead(id, k, start, got + [s.events[k].data[|got|]]))
    ensures Runs.Path(Next, s, [s'])
  {
    assert StepShow(s, t) == Some(s');
    assert Step(s, t, Dump) == Some(s');
    assert Next(s, s');
  }

  /** A SHOW about to read, from any reachable state, can go on undisturbed to its end; and what it
      then reports is the grid of the reservations granted if and only if nobody stood past the first
      write of a commit. */
  lemma AloneExactIff(run: seq<State>, t: nat) returns (more: seq<State>)
    requires Run(run) && var s := run[|run| - 1];
      t < |s.threads| && s.threads[t].ShowRead? && s.threads[t].got == []
    ensures Run(run + more)
    ensures var (s, e) := (run[|run| - 1], (run + more)[|run + more| - 1]);
      && var k := s.threads[t].k;
      && k < |StoreOf(s.history)| && e.history == s.history
      && t < |e.threads| && e.threads[t].ShowRead? && e.threads[t].k == k
      && |e.threads[t].got| == |StoreOf(s.history)[k].data|
      && (e.threads[t].got == StoreOf(s.history)[k].data <==> NoneWrote(s, k))
  {
    var s := run[|run| - 1];
    RunInv(run, |run| - 1);
    assert ThreadInv(s, t);
    var pc := s.threads[t];
    more := ReadAlone(s, t, pc.id, pc.k, pc.start, []);
    Runs.PathRun(IsInit, Next, run, more);
    assert (run + more)[|run + more| - 1] == Runs.End(s, more);
    assert [] + s.events[pc.k].data[0..] == s.events[pc.k].data;
    SettledIff(s, pc.k);
    EventAhead(s, pc.k);
  }

  /** While a seat of the request is still to be written, memory is the grid neither of before nor of
      after the reservation: half of it shows. */
  lemma HalfIsNeither(s: State, u: nat, k: nat, n: nat)
    requires Inv(s) && Wrote(s, u, k) && s.threads[u].ReserveWrite? && s.threads[u].op.Reserve?
    requires s.threads[u].j <= n < |s.threads[u].op.seats|
    requires s.threads[u].op.seats[n] !in s.threads[u].op.seats[..s.threads[u].j]
    ensures s.events[k].data != Abs(s)[k].data
    ensures s.events[k].data != Granted(Abs(s)[k], s.threads[u].op.seats).data
  {
    WroteShows(s, u, k);
    assert ThreadHolds(s, u) && ThreadInv(s, u);
    assert s.events[k] == Expected(s, k);
    var e, seats, j := Abs(s)[k], s.threads[u].op.seats, s.threads[u].j;
    NotYetHit(e, seats, j, n);
  }

  lemma NotYetHit(e: EventState, seats: seq<Seat>, j: nat, n: nat)
    requires Shaped(e) && Grants(e, seats) && j <= n < |seats| && seats[n] !in seats[..j] && NextId(e) != 0
    ensures Half(e, seats, j).data != Granted(e, seats).data
  {
    var c := SeatIndex(e.cols, seats[n]);
    GrantsSeat(e, seats, n);
    forall i | 0 <= i < j
      ensures SeatIndex(e.cols, seats[..j][i]) != c
    {
      assert seats[..j][i] == seats[i];
      IndexInjective(e.rows, e.cols, seats[i], seats[n]);
    }
    assert Hits(e.cols, seats, c);
    assert Half(e, seats, j).data[c] == 0 && Granted(e, seats).data[c] == NextId(e);
  }
}
