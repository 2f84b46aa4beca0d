/** What the server's store holds, told from its history alone, in rows and columns. */
module ServerMeaning {
  import opened Seating
  import opened Store
  import opened StoreMeaning
  import opened Histories
  import opened ServerHistories
  import opened ServerStore
  import opened ServerTheorems
  import Runs

  function MadeIds(facts: seq<Fact>): (ids: seq<nat>)
    ensures |ids| == |MadeOf(facts)|
    ensures forall k :: 0 <= k < |ids| ==> ids[k] == MadeOf(facts)[k].id
  {
    seq(|MadeOf(facts)|, k requires 0 <= k < |MadeOf(facts)| => MadeOf(facts)[k].id)
  }

  /** The facts after one more event of the history: successful effects count, a RESERVE for the event
      that was created with its id. */
  function FactsAfter(facts: seq<Fact>, e: Ev): seq<Fact> {
    if !e.Effect? || e.res != Status(true) then facts
    else match e.op
      case Create(id, rows, cols) => facts + [Made(id, rows, cols)]
      case Reserve(id, seats) =>
        var found := FindId(MadeIds(facts), id);
        if found.Some? then facts + [Took(found.value, seats)] else facts
      case ListEvents => facts
  }

  function FactsOf(h: seq<Ev>): seq<Fact> {
    if h == [] then [] else FactsAfter(FactsOf(Front(h)), Last(h))
  }

  lemma SameIdsMade(facts: seq<Fact>, es: seq<EventState>)
    requires Means(facts, es)
    ensures IdsOf(es) == MadeIds(facts)
  {
    forall k | 0 <= k < |es|
      ensures IdsOf(es)[k] == MadeIds(facts)[k]
    {
      assert EventMeans(facts, k, es[k]);
    }
  }

  lemma EffectMeans(facts: seq<Fact>, es: seq<EventState>, op: Op, t: nat)
    requires AllShaped(es) && Means(facts, es)
    ensures Means(FactsAfter(facts, Effect(t, op, Apply(es, op).1)), Apply(es, op).0)
  {
    match op
    case Create(id, rows, cols) =>
      CreateMeans(es, id, rows, cols);
      if !HasId(es, id) {
        MeansAfterCreate(facts, es, Apply(es, op).0, id, rows, cols);
      }
    case Reserve(id, seats) =>
      ReserveMeans(es, id, seats);
      SameIdsMade(facts, es);
      if k: nat :| CanReserve(es, id, seats, k) {
        FoundAtIff(es, id, k);
        MeansAfterReserve(facts, es, Apply(es, op).0, k, seats);
      }
    case ListEvents => ListMeans(es);
  }

  lemma {:induction false} HistoryMeans(h: seq<Ev>)
    requires Legal(h)
    ensures Means(FactsOf(h), StoreOf(h))
  {
    if h == [] {
      Nothing();
    } else {
      HistoryMeans(Front(h));
      if Last(h).Effect? {
        EffectMeans(FactsOf(Front(h)), StoreOf(Front(h)), Last(h).op, Last(h).t);
      }
    }
  }

  /** Every event in memory has the id and the size of a CREATE that succeeded, the first of the history
      the first and so on, at every moment of every run. */
  lemma StoredWasCreated(run: seq<State>, i: nat, k: nat)
    requires Run(run) && i < |run| && k < |run[i].events|
    ensures var (e, mades) := (run[i].events[k], MadeOf(FactsOf(run[i].history)));
      |mades| == |run[i].events| && mades[k] == Made(e.id, e.rows, e.cols)
  {
    RunInv(run, i);
    HistoryMeans(run[i].history);
    SameIds(run[i]);
    assert EventMeans(FactsOf(run[i].history), k, Abs(run[i])[k]);
  }

  /** An event whose mutex is free holds in each row and column the number of the last successful RESERVE
      that named it, or 0, and its counter says how many there were. */
  lemma FreeEventMeans(run: seq<State>, i: nat, k: nat)
    requires Run(run) && i < |run| && k < |run[i].events| && k < |run[i].owner| && run[i].owner[k].None?
    ensures EventMeans(FactsOf(run[i].history), k, run[i].events[k])
  {
    RunInv(run, i);
    HistoryMeans(run[i].history);
    FreeEventIsSequential(run, i, k);
  }
}
