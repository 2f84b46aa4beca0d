/** The sequential meaning of the store: a list of events and what each operation does to it. */
module Store {
  import opened Seating
  import opened Reservation

  datatype Op =
    | Create(id: nat, rows: nat, cols: nat)
    | Reserve(id: nat, seats: seq<Seat>)
    | ListEvents

  datatype Result = Status(ok: bool) | Ids(ids: seq<nat>)

  function IdsOf(es: seq<EventState>): (r: seq<nat>)
    ensures |r| == |es|
    ensures forall i :: 0 <= i < |es| ==> r[i] == es[i].id
  {
    seq(|es|, i requires 0 <= i < |es| => es[i].id)
  }

  /** Position of the first occurrence of `id`. */
  function FindId(ids: seq<nat>, id: nat): (r: Option<nat>)
    ensures r.Some? ==> r.value < |ids| && ids[r.value] == id && id !in ids[..r.value]
    ensures r.None? ==> id !in ids
  {
    if ids == [] then None
    else if ids[0] == id then Some(0)
    else match FindId(ids[1..], id)
      case None => None
      case Some(k) => Some(k + 1)
  }

  /** An event is found by its id at its first occurrence only. */
  lemma FindIdUnique(ids: seq<nat>, id: nat, k: nat)
    requires k < |ids| && ids[k] == id && id !in ids[..k]
    ensures FindId(ids, id) == Some(k)
  {
    assert id in ids;
  }

  /** Lookups are stable: once an id resolves, appending events never changes what it resolves to. */
  lemma FindIdStable(ids: seq<nat>, more: seq<nat>, id: nat)
    requires id in ids
    ensures FindId(ids + more, id) == FindId(ids, id)
  {
    var k := FindId(ids, id).value;
    assert (ids + more)[..k] == ids[..k];
    FindIdUnique(ids + more, id, k);
  }

  /** Event `k` is the first one with this id. */
  ghost predicate FoundAt(es: seq<EventState>, id: nat, k: nat) {
    k < |es| && es[k].id == id && forall j :: 0 <= j < k ==> es[j].id != id
  }

  lemma FoundAtIff(es: seq<EventState>, id: nat, k: nat)
    ensures FoundAt(es, id, k) <==> FindId(IdsOf(es), id) == Some(k)
  {
    var ids := IdsOf(es);
    if FoundAt(es, id, k) {
      assert forall j :: 0 <= j < k ==> ids[..k][j] == es[j].id;
      FindIdUnique(ids, id, k);
    }
    if FindId(ids, id) == Some(k) {
      assert forall j :: 0 <= j < k ==> es[j].id == ids[..k][j];
    }
  }

  ghost predicate AllShaped(es: seq<EventState>) {
    forall k :: 0 <= k < |es| ==> Shaped(es[k])
  }

  /** One operation executed on its own, as the server of Part 2 defines it. */
  ghost function Apply(es: seq<EventState>, op: Op): (r: (seq<EventState>, Result))
    requires AllShaped(es)
    ensures AllShaped(r.0) && |es| <= |r.0|
    ensures IdsOf(r.0)[..|es|] == IdsOf(es)
  {
    match op
    case Create(id, rows, cols) =>
      if FindId(IdsOf(es), id).Some? then (es, Status(false))
      else (es + [EmptyEvent(id, rows, cols)], Status(true))
    case Reserve(id, seats) => (
      match FindId(IdsOf(es), id)
      case None => (es, Status(false))
      case Some(k) =>
        if Grants(es[k], seats) then (es[k := Granted(es[k], seats)], Status(true))
        else (es, Status(false))
    )
    case ListEvents => (es, Ids(IdsOf(es)))
  }

  /** No two events share an id. */
  ghost predicate DistinctIds(es: seq<EventState>) {
    forall i, j :: 0 <= i < j < |es| ==> es[i].id != es[j].id
  }

  lemma ApplyKeepsIdsDistinct(es: seq<EventState>, op: Op)
    requires AllShaped(es) && DistinctIds(es)
    ensures DistinctIds(Apply(es, op).0)
  {
    if op.Create? && FindId(IdsOf(es), op.id).None? {
      forall i | 0 <= i < |es|
        ensures es[i].id != op.id
      {
        assert IdsOf(es)[i] == es[i].id;
      }
    }
  }

  // ----- What the operations do, event by event -----

  ghost predicate HasId(es: seq<EventState>, id: nat) { exists k :: 0 <= k < |es| && es[k].id == id }

  /** One new event at the end, and nothing else. */
  ghost predicate Adds(es: seq<EventState>, es': seq<EventState>, id: nat, rows: nat, cols: nat) {
    |es'| == |es| + 1 && es'[..|es|] == es && NewEvent(es'[|es|], id, rows, cols)
  }

  /** The seats of event `k` are taken, and nothing else. */
  ghost predicate TakesSeats(es: seq<EventState>, es': seq<EventState>, k: nat, seats: seq<Seat>) {
    && k < |es| == |es'| && Reserves(es[k], seats, es'[k])
    && forall j :: 0 <= j < |es| && j != k ==> es'[j] == es[j]
  }

  lemma HasIdIff(es: seq<EventState>, id: nat)
    ensures HasId(es, id) <==> FindId(IdsOf(es), id).Some?
  {
    if k :| 0 <= k < |es| && es[k].id == id {
      assert IdsOf(es)[k] == id;
    }
  }

  /** CREATE fails if and only if the id is there, and otherwise adds one empty event of that id and size. */
  lemma CreateMeans(es: seq<EventState>, id: nat, rows: nat, cols: nat)
    requires AllShaped(es)
    ensures var r := Apply(es, Create(id, rows, cols));
      if HasId(es, id) then r == (es, Status(false))
      else r.1 == Status(true) && Adds(es, r.0, id, rows, cols)
  {
    HasIdIff(es, id);
  }

  ghost predicate CanReserve(es: seq<EventState>, id: nat, seats: seq<Seat>, k: nat) {
    FoundAt(es, id, k) && AllFree(es[k], seats)
  }

  /** RESERVE succeeds if and only if the id resolves to an event all of whose named seats are free, and
      then takes exactly these. */
  lemma ReserveMeans(es: seq<EventState>, id: nat, seats: seq<Seat>)
    requires AllShaped(es)
    ensures var r := Apply(es, Reserve(id, seats));
      && (forall k: nat :: CanReserve(es, id, seats, k) ==> r.1 == Status(true) && TakesSeats(es, r.0, k, seats))
      && ((forall k: nat :: !CanReserve(es, id, seats, k)) ==> r == (es, Status(false)))
  {
    var found := FindId(IdsOf(es), id);
    if found.Some? {
      FoundAtIff(es, id, found.value);
      GrantsMeans(es[found.value], seats);
      if Grants(es[found.value], seats) {
        GrantedMeans(es[found.value], seats);
      }
      assert CanReserve(es, id, seats, found.value) <==> Grants(es[found.value], seats);
    }
    forall k: nat | FoundAt(es, id, k)
      ensures found == Some(k)
    {
      FoundAtIff(es, id, k);
    }
  }

  /** LIST changes nothing and reports the ids in order. */
  lemma ListMeans(es: seq<EventState>)
    requires AllShaped(es)
    ensures var r := Apply(es, ListEvents);
      && r.0 == es && r.1.Ids? && |r.1.ids| == |es| && forall k :: 0 <= k < |es| ==> r.1.ids[k] == es[k].id
  {
  }
}
