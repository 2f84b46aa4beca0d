/** The linked queue of connection requests. */
module ConnectionQueues {

  const MAX_PIPE_NAME_SIZE := 40
  const SETUP_REQUEST_BUFSIZ := 82

  /** What a request holds: the paths of the client's two pipes. */
  datatype Paths = Paths(req: string, resp: string)

  /** The paths in a setup message: one byte of operation code, then two fields of 40 bytes. */
  function PathsOf(setup: string): Paths
    requires |setup| == SETUP_REQUEST_BUFSIZ
  {
    Paths(setup[1..1 + MAX_PIPE_NAME_SIZE], setup[1 + MAX_PIPE_NAME_SIZE..1 + 2 * MAX_PIPE_NAME_SIZE])
  }

  /** A setup message of an operation code, two paths filled up to 40 characters and a NUL is taken for
      these paths, the one for requests first. */
  lemma SetupRoundTrip(op: char, req: string, resp: string)
    requires |req| == |resp| == 40
    ensures var setup := [op] + req + resp + ['\0'];
      |setup| == SETUP_REQUEST_BUFSIZ && PathsOf(setup).req == req && PathsOf(setup).resp == resp
  {
    var setup := [op] + req + resp + ['\0'];
    assert setup[1..41] == req && setup[41..81] == resp;
  }

  class Connection {
    const paths: Paths
    var next: Connection?

    constructor (paths: Paths)
      ensures this.paths == paths && next == null
    {
      this.paths := paths;
      this.next := null;
    }
  }

  class ConnectionQueue {
    var front: Connection?
    var rear: Connection?
    ghost var spine: seq<Connection>

    /** `spine` is the chain from `front` to `rear`. */
    ghost predicate Valid()
      reads this, spine
    {
      && (forall i, j :: 0 <= i < j < |spine| ==> spine[i] != spine[j])
      && (spine == [] ==> front == null && rear == null)
      && (spine != [] ==> front == spine[0] && rear == spine[|spine| - 1] && rear.next == null)
      && forall i :: 0 <= i < |spine| - 1 ==> spine[i].next == spine[i + 1]
    }

    ghost function Contents(): (r: seq<Paths>)
      reads this
      ensures |r| == |spine|
    {
      seq(|spine|, i requires 0 <= i < |spine| reads this => spine[i].paths)
    }

    constructor ()
      ensures Valid() && Contents() == []
    {
      front := null;
      rear := null;
      spine := [];
    }

    predicate IsEmpty()
      reads this
    {
      front == null
    }

    /** `front` alone tells whether anything is queued. */
    lemma EmptyMeansEmpty()
      requires Valid()
      ensures IsEmpty() <==> Contents() == []
    {
    }

    method Enqueue(setup: string)
      requires Valid() && |setup| == SETUP_REQUEST_BUFSIZ
      modifies this, spine
      ensures Valid() && |spine| == |old(spine)| + 1
      ensures fresh(spine[|old(spine)|]) && spine[..|old(spine)|] == old(spine)
      ensures Contents() == old(Contents()) + [PathsOf(setup)]
      ensures Contents()[|old(spine)|].req == setup[1..41] && Contents()[|old(spine)|].resp == setup[41..81]
    {
      var connection := new Connection(PathsOf(setup));
      if IsEmpty() {
        rear := connection;
        front := connection;
      } else {
        rear.next := connection;
        rear := connection;
      }
      spine := spine + [connection];
    }

    method Dequeue() returns (connection: Connection?)
      requires Valid()
      modifies this
      ensures Valid()
      ensures old(Contents()) == [] ==> connection == null && Contents() == []
      ensures old(Contents()) != [] ==>
        connection == old(spine)[0] && connection.paths == old(Contents())[0] &&
        spine == old(spine)[1..] && Contents() == old(Contents())[1..]
    {
      connection := front;
      if front == rear {
        front := null;
        rear := null;
        spine := [];
      } else {
        front := front.next;
        spine := spine[1..];
      }
    }

    /** free_queue: every request still queued is rejected, once, oldest first. */
    method FreeQueue() returns (rejected: seq<Paths>)
      requires Valid()
      modifies this
      ensures Valid() && Contents() == []
      ensures rejected == old(Contents())
    {
      rejected := [];
      var current := front;
      ghost var k := 0;
      while current != null
        invariant 0 <= k <= |spine| && spine == old(spine) && Valid()
        invariant current == if k < |spine| then spine[k] else null
        invariant rejected == old(Contents())[..k]
        decreases |spine| - k
      {
        var next := current.next;
        rejected := rejected + [current.paths];
        current := next;
        k := k + 1;
      }
      front := null;
      rear := null;
      spine := [];
    }
  }
}
