/** What Part 1's store holds and prints, told from its log alone, in rows and columns. */
module JobStoreMeaning {
  import opened Seating
  import opened Store
  import opened StoreMeaning
  import opened Rendering
  import opened JobStore
  import opened JobStoreSteps
  import opened JobStoreTheorems
  import opened GridTexts
  import Runs

  /** What one entry of the log says and does: a CREATE adds one empty event, a granted RESERVE takes
      exactly the seats named of the event its id resolves to, and everything else changes nothing. */
  lemma AfterMeans(es: seq<EventState>, e: Entry)
    requires AllShaped(es) && Follows(es, e)
    ensures var es' := After(es, e);
      match e
      case Created(id, rows, cols) => Adds(es, es', id, rows, cols)
      case Refused(id) => HasId(es, id) && es' == es
      case Missing(id) => !HasId(es, id) && es' == es
      case Reserved(id, k, seats, ok) =>
        && FoundAt(es, id, k) && (ok <==> FitsInPlace(es[k], seats))
        && if ok then TakesSeats(es, es', k, seats) else es' == es
      case Shown(id, k, rows, cols, data) =>
        FoundAt(es, id, k) && es[k].rows == rows && es[k].cols == cols && es[k].data == data && es' == es
      case Listed(ids) => |ids| == |es| && (forall k :: 0 <= k < |es| ==> ids[k] == es[k].id) && es' == es
  {
    match e
    case Refused(id) => HasIdIff(es, id);
    case Missing(id) => HasIdIff(es, id);
    case Reserved(id, k, seats, ok) =>
      FoundAtIff(es, id, k);
      InPlaceMeans(es[k], seats);
    case Shown(id, k, _, _, _) => FoundAtIff(es, id, k);
    case _ =>
  }

  /** The facts after one more entry. */
  function FactsAfter(facts: seq<Fact>, e: Entry): seq<Fact> {
    match e
    case Created(id, rows, cols) => facts + [Made(id, rows, cols)]
    case Reserved(_, k, seats, true) => facts + [Took(k, seats)]
    case _ => facts
  }

  /** The successful CREATEs and RESERVEs of a log. */
  function FactsOf(log: seq<Entry>): seq<Fact> {
    if log == [] then [] else FactsAfter(FactsOf(log[..|log| - 1]), log[|log| - 1])
  }

  lemma {:induction false} LogMeans(log: seq<Entry>)
    requires Legal(log)
    ensures Means(FactsOf(log), AbsOf(log))
  {
    if log == [] {
      Nothing();
    } else {
      var front, e := log[..|log| - 1], log[|log| - 1];
      LogMeans(front);
      EntryMeans(FactsOf(front), AbsOf(front), e);
    }
  }

  lemma EntryMeans(facts: seq<Fact>, es: seq<EventState>, e: Entry)
    requires AllShaped(es) && Follows(es, e) && Means(facts, es)
    ensures Means(FactsAfter(facts, e), After(es, e))
  {
    AfterMeans(es, e);
    match e
    case Created(id, rows, cols) => MeansAfterCreate(facts, es, After(es, e), id, rows, cols);
    case Reserved(_, k, seats, true) => MeansAfterReserve(facts, es, After(es, e), k, seats);
    case _ =>
  }

  /** Every event in memory has the id and the size of a CREATE that succeeded, the first of the log the
      first and so on, at every moment of every run. */
  lemma StoredWasCreated(run: seq<State>, i: nat, k: nat)
    requires Run(run) && i < |run| && k < |run[i].events|
    ensures var (e, mades) := (run[i].events[k], MadeOf(FactsOf(run[i].log)));
      |mades| == |run[i].events| && mades[k] == Made(e.id, e.rows, e.cols)
  {
    RunInv(run, i);
    LogMeans(run[i].log);
    assert EventMatches(run[i], k);
    assert EventMeans(FactsOf(run[i].log), k, Abs(run[i])[k]);
  }

  /** And whenever no reservation is under way, each row and column of it holds the number of the last
      granted reservation that named it, or 0, and the counter says how many there were. */
  lemma MemoryMeans(run: seq<State>, i: nat, k: nat)
    requires Run(run) && i < |run| && k < |run[i].events|
    requires run[i].event.writer.None? && run[i].seat.writer.None?
    ensures EventMeans(FactsOf(run[i].log), k, run[i].events[k])
  {
    RunInv(run, i);
    RunIsSequential(run, i, 0);
    LogMeans(run[i].log);
  }

  /** The text of an output, read back: a grid line by line, or the ids. */
  lemma OutputReadBack(what: Entry)
    requires WellShown(what) || what.Listed?
    ensures what.Shown? ==> ShowsGrid(EntryText(what), what.rows, what.cols, what.data)
    ensures what.Listed? ==> ShowsList(EntryText(what), what.ids)
  {
    if what.Shown? {
      GridReadBack(what.rows, what.cols, what.data);
    } else {
      ListReadBack(what.ids);
    }
  }

  /** What a SHOW has written into the file: in row `r`, column `c` the number of the last granted
      reservation before it that named that seat, or 0 if none did. */
  lemma ShowPrints(run: seq<State>, i: nat, what: Entry, r: nat, c: nat) returns (n: nat)
    requires Run(run) && i < |run| && what in run[i].outputs && what.Shown?
    requires 1 <= r <= what.rows && 1 <= c <= what.cols
    ensures n < |run[i].log| && run[i].log[n] == what
    ensures var facts := FactsOf(run[i].log[..n]);
      && what.k < |MadeOf(facts)| && MadeOf(facts)[what.k] == Made(what.id, what.rows, what.cols)
      && PrintedAt(EntryText(what), r, c) == Some(NumberOf(facts, what.k, r, c))
  {
    n := ShowIsSnapshot(run, i, what);
    var facts, es := FactsOf(run[i].log[..n]), AbsOf(run[i].log[..n]);
    PrefixLegal(run, i, n);
    LogMeans(run[i].log[..n]);
    FoundAtIff(es, what.id, what.k);
    assert EventMeans(facts, what.k, es[what.k]);
    assert CellMeans(facts, what.k, es[what.k], r, c);
    GridReadBack(what.rows, what.cols, what.data);
    PrintedCell(EntryText(what), what.rows, what.cols, what.data, r, c);
  }

  /** What a LIST has written: the ids of the successful CREATEs before it, in order, one line each. */
  lemma ListPrints(run: seq<State>, i: nat, what: Entry) returns (n: nat)
    requires Run(run) && i < |run| && what in run[i].outputs && what.Listed?
    ensures n < |run[i].log| && run[i].log[n] == what && ShowsList(EntryText(what), what.ids)
    ensures var mades := MadeOf(FactsOf(run[i].log[..n]));
      |what.ids| == |mades| && forall k :: 0 <= k < |mades| ==> what.ids[k] == mades[k].id
  {
    RunInv(run, i);
    n :| 0 <= n < |run[i].log| && run[i].log[n] == what;
    LegalAt(run[i].log, n);
    PrefixLegal(run, i, n);
    LogMeans(run[i].log[..n]);
    ListReadBack(what.ids);
    var facts, es := FactsOf(run[i].log[..n]), AbsOf(run[i].log[..n]);
    forall k | 0 <= k < |es|
      ensures what.ids[k] == MadeOf(facts)[k].id
    {
      assert EventMeans(facts, k, es[k]);
    }
  }

  lemma PrefixLegal(run: seq<State>, i: nat, n: nat)
    requires Run(run) && i < |run| && n <= |run[i].log|
    ensures Legal(run[i].log[..n])
  {
    RunInv(run, i);
    LegalPrefix(run[i].log, n);
  }

  lemma {:induction false} LegalPrefix(log: seq<Entry>, n: nat)
    requires Legal(log) && n <= |log|
    ensures Legal(log[..n])
    decreases |log|
  {
    if n < |log| {
      LegalPrefix(log[..|log| - 1], n);
      assert log[..|log| - 1][..n] == log[..n];
    } else {
      assert log[..n] == log;
    }
  }
}
