/** The linked list of events and the operations of the server on it, run by a single thread. */
module EventLists {
  import opened Seating
  import opened Reservation
  import opened Store

  class ListNode {
    const event: Event
    var next: ListNode?

    constructor (event: Event)
      ensures this.event == event && next == null
    {
      this.event := event;
      this.next := null;
    }
  }

  function EventsOf(spine: seq<ListNode>): (r: seq<Event>)
    ensures |r| == |spine|
    ensures forall i :: 0 <= i < |spine| ==> r[i] == spine[i].event
  {
    seq(|spine|, i requires 0 <= i < |spine| => spine[i].event)
  }

  function EventIds(events: seq<Event>): (r: seq<nat>)
    ensures |r| == |events|
    ensures forall i :: 0 <= i < |events| ==> r[i] == events[i].id
  {
    seq(|events|, i requires 0 <= i < |events| => events[i].id)
  }

  lemma FoundBetween(ids: seq<nat>, a: nat, b: nat, k: nat, id: nat)
    requires a <= k <= b < |ids| && ids[k] == id && forall j :: a <= j < k ==> ids[j] != id
    ensures FindId(ids[a..b + 1], id) == Some(k - a)
  {
    var part := ids[a..b + 1];
    assert part[k - a] == id;
    assert forall j :: 0 <= j < k - a ==> part[j] == ids[a + j];
    FindIdUnique(part, id, k - a);
  }

  lemma NotBetween(ids: seq<nat>, a: nat, b: nat, id: nat)
    requires a <= b < |ids| && forall j :: a <= j <= b ==> ids[j] != id
    ensures FindId(ids[a..b + 1], id).None?
  {
    var part := ids[a..b + 1];
    assert forall j :: 0 <= j < |part| ==> part[j] == ids[a + j];
  }

  class EventList {
    var eventNum: nat
    var head: ListNode?
    var tail: ListNode?
    ghost var spine: seq<ListNode>

    /** The nodes reachable from `head` are those of `spine`, in order, and `tail` is the last. */
    ghost predicate Valid()
      reads this, spine
    {
      && eventNum == |spine|
      && (forall i, j :: 0 <= i < j < |spine| ==> spine[i] != spine[j])
      && (spine == [] ==> head == null && tail == null)
      && (spine != [] ==> head == spine[0] && tail == spine[|spine| - 1] && tail.next == null)
      && forall i :: 0 <= i < |spine| - 1 ==> spine[i].next == spine[i + 1]
    }

    ghost function Events(): seq<Event>
      reads this
    {
      EventsOf(spine)
    }

    constructor ()
      ensures Valid() && Events() == []
    {
      eventNum := 0;
      head := null;
      tail := null;
      spine := [];
    }

    method Append(event: Event)
      requires Valid()
      modifies this, spine
      ensures Valid() && |spine| == |old(spine)| + 1
      ensures fresh(spine[|old(spine)|]) && spine[..|old(spine)|] == old(spine)
      ensures Events() == old(Events()) + [event]
    {
      var node := new ListNode(event);
      if head == null {
        head := node;
        tail := node;
      } else {
        tail.next := node;
        tail := node;
      }
      eventNum := eventNum + 1;
      spine := spine + [node];
    }

    /** Part 1's search: walk from the head to the end of the chain. */
    method GetEvent(id: nat) returns (event: Event?)
      requires Valid()
      ensures match FindId(EventIds(Events()), id)
              case None => event == null
              case Some(k) => event == Events()[k]
    {
      var current := head;
      ghost var k := 0;
      ghost var ids := EventIds(Events());
      while current != null
        invariant 0 <= k <= |spine|
        invariant current == if k < |spine| then spine[k] else null
        invariant id !in ids[..k]
        decreases |spine| - k
      {
        if current.event.id == id {
          FindIdUnique(ids, id, k);
          return current.event;
        }
        assert ids[..k + 1] == ids[..k] + [ids[k]];
        current := current.next;
        k := k + 1;
      }
      assert ids[..k] == ids;
      return null;
    }

    /** Part 2's search between two nodes, both included; `a` and `b` are their positions. */
    method GetEventBetween(id: nat, from: ListNode?, to: ListNode?, ghost a: int, ghost b: int)
      returns (event: Event?)
      requires Valid()
      requires from != null && to != null ==> 0 <= a <= b < |spine| && from == spine[a] && to == spine[b]
      ensures from == null || to == null ==> event == null
      ensures from != null && to != null ==>
        match FindId(EventIds(Events())[a..b + 1], id)
        case None => event == null
        case Some(k) => event == Events()[a + k]
    {
      if from == null || to == null {
        return null;
      }
      var current := from;
      ghost var k := a;
      ghost var ids := EventIds(Events());
      while true
        invariant a <= k <= b && current == spine[k]
        invariant forall j :: a <= j < k ==> ids[j] != id
        decreases b - k
      {
        if current.event.id == id {
          FoundBetween(ids, a, b, k, id);
          return current.event;
        }
        if current == to {
          assert k == b;
          NotBetween(ids, a, b, id);
          return null;
        }
        current := current.next;
        k := k + 1;
      }
    }
  }

  /** The server state, as one thread sees it. */
  class Server {
    const list: EventList

    /** The lists are well formed and no two events share memory. */
    ghost predicate Valid()
      reads this, list, list.spine, list.Events()
    {
      && list.Valid()
      && var es := list.Events();
      && (forall i :: 0 <= i < |es| ==> es[i].Valid())
      && forall i, j :: 0 <= i < j < |es| ==> es[i] != es[j] && es[i].data != es[j].data
    }

    ghost function Cells(): set<array<nat>>
      reads list
    {
      set e | e in list.Events() :: e.data
    }

    ghost function View(): (r: seq<EventState>)
      reads this, list, list.Events(), Cells()
      ensures |r| == |list.spine|
      ensures forall i :: 0 <= i < |r| ==> r[i] == list.spine[i].event.View()
      ensures IdsOf(r) == EventIds(list.Events())
    {
      var es := list.Events();
      seq(|es|, i requires 0 <= i < |es| && list.Events() == es
                  reads list, list.Events(), Cells()
                => es[i].View())
    }

    constructor ()
      ensures Valid() && View() == []
    {
      list := new EventList();
    }

    /** The search every operation starts with: the whole list, from head to tail. */
    method Lookup(id: nat) returns (event: Event?)
      requires Valid()
      ensures View() == old(View())
      ensures match FindId(IdsOf(View()), id)
              case None => event == null
              case Some(k) => event == list.Events()[k]
    {
      event := list.GetEventBetween(id, list.head, list.tail, 0, |list.spine| - 1);
      assert EventIds(list.Events())[0..|list.spine|] == EventIds(list.Events());
    }

    /** The event shares no memory with those on the list. */
    ghost predicate Separate(event: Event)
      reads this, list, list.Events()
    {
      forall i :: 0 <= i < |list.Events()| ==> list.Events()[i] != event && list.Events()[i].data != event.data
    }

    /** Append an event; memory of the events already there is untouched. */
    method Append(event: Event)
      requires Valid() && event.Valid() && Separate(event)
      modifies list, list.spine
      ensures Valid() && View() == old(View()) + [event.View()]
    {
      list.Append(event);
      assert list.Events() == old(list.Events()) + [event];
    }

    method Insert(id: nat, rows: nat, cols: nat)
      requires Valid()
      modifies list, list.spine
      ensures Valid() && View() == old(View()) + [EmptyEvent(id, rows, cols)]
    {
      var event := new Event(id, rows, cols);
      assert View() == old(View());
      Append(event);
    }

    /** Reserve seats of the event at position `k`; the other events are untouched. */
    method ReserveAt(event: Event, ghost k: nat, xs: seq<nat>, ys: seq<nat>) returns (ok: bool)
      requires Valid() && |xs| == |ys|
      requires k < |list.spine| && event == list.Events()[k]
      modifies event`reservations, event.data
      ensures Valid() && Shaped(old(View())[k])
      ensures ok <==> Grants(old(View())[k], SeatsOf(xs, ys))
      ensures View() == if ok then old(View())[k := Granted(old(View())[k], SeatsOf(xs, ys))] else old(View())
    {
      ok := event.ReserveValidated(xs, ys);
      assert View() == old(View())[k := event.View()];
    }

    method Create(id: nat, rows: nat, cols: nat) returns (ok: bool)
      requires Valid() && AllShaped(View())
      modifies list, list.spine
      ensures Valid()
      ensures (View(), Status(ok)) == Apply(old(View()), Op.Create(id, rows, cols))
      ensures ok <==> !HasId(old(View()), id)
      ensures if ok then Adds(old(View()), View(), id, rows, cols) else View() == old(View())
    {
      CreateMeans(View(), id, rows, cols);
      var found := Lookup(id);
      if found != null {
        return false;
      }
      Insert(id, rows, cols);
      return true;
    }

    method Reserve(id: nat, xs: seq<nat>, ys: seq<nat>) returns (ok: bool)
      requires Valid() && |xs| == |ys| && AllShaped(View())
      modifies list.Events(), Cells()
      ensures Valid()
      ensures (View(), Status(ok)) == Apply(old(View()), Op.Reserve(id, SeatsOf(xs, ys)))
      ensures ok <==> exists k: nat :: CanReserve(old(View()), id, SeatsOf(xs, ys), k)
      ensures !ok ==> View() == old(View())
      ensures ok ==> forall k: nat :: CanReserve(old(View()), id, SeatsOf(xs, ys), k) ==>
        TakesSeats(old(View()), View(), k, SeatsOf(xs, ys))
    {
      ReserveMeans(View(), id, SeatsOf(xs, ys));
      var event := Lookup(id);
      if event == null {
        return false;
      }
      ok := ReserveAt(event, FindId(IdsOf(View()), id).value, xs, ys);
    }

    /** The ids LIST sends, read node by node from head to tail. */
    method ListEvents() returns (ids: seq<nat>)
      requires Valid()
      ensures AllShaped(View())
      ensures (View(), Ids(ids)) == Apply(View(), Op.ListEvents)
      ensures |ids| == |View()| && forall k :: 0 <= k < |ids| ==> ids[k] == View()[k].id
    {
      ids := [];
      if list.eventNum == 0 {
        return;
      }
      var to := list.tail;
      var current := list.head;
      ghost var k := 0;
      while true
        invariant 0 <= k < |list.spine| && current == list.spine[k]
        invariant ids == IdsOf(View())[..k]
        decreases |list.spine| - k
      {
        ids := ids + [current.event.id];
        assert IdsOf(View())[..k + 1] == IdsOf(View())[..k] + [IdsOf(View())[k]];
        if current == to {
          assert k == |list.spine| - 1;
          break;
        }
        current := current.next;
        k := k + 1;
      }
      assert ids == IdsOf(View());
    }
  }
}
