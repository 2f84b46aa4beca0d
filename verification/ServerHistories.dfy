/** Histories of the server's store: the sequential run their effects make up, and linearizability. */
module ServerHistories {
  import opened Store
  import opened Seating
  import opened Histories

  type Ev = HistoryEvent<Op, Result>

  /** The store after the effects of the history, applied one at a time to the empty store. */
  ghost function StoreOf(h: seq<Ev>): (es: seq<EventState>)
    ensures AllShaped(es)
  {
    if h == [] then []
    else if Last(h).Effect? then Apply(StoreOf(Front(h)), Last(h).op).0
    else StoreOf(Front(h))
  }

  /** Every effect has the result the sequential run gives at that point. */
  ghost predicate Legal(h: seq<Ev>) {
    h == [] || (Legal(Front(h)) && (Last(h).Effect? ==> Last(h).res == Apply(StoreOf(Front(h)), Last(h).op).1))
  }

  lemma Snoc(h: seq<Ev>, e: Ev)
    ensures Front(h + [e]) == h && Last(h + [e]) == e
    ensures WellFormed(h + [e]) <==> WellFormed(h) && PhaseOf(h, e.t) == PhaseBefore(e)
    ensures Legal(h + [e]) <==> Legal(h) && (e.Effect? ==> e.res == Apply(StoreOf(h), e.op).1)
    ensures StoreOf(h + [e]) == if e.Effect? then Apply(StoreOf(h), e.op).0 else StoreOf(h)
    ensures PhaseOf(h + [e], e.t) == PhaseAfter(e)
    ensures forall t :: t != e.t ==> PhaseOf(h + [e], t) == PhaseOf(h, t)
  {
    SnocWellFormed(h, e);
  }

  /** Linearizability of a history: its effects, in order, are a legal sequential run, and each
      operation takes effect once, between its call and its return. */
  ghost predicate Linearizable(h: seq<Ev>) { Legal(h) && Ordered(h) }
}
