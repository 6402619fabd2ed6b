/** The bounded, droppable feed from the journal to its routes. */
module Live {
  import opened Wrappers
  import opened Spans
  import opened Store

  const BYTE_BUDGET: nat := 256 * 1024

  /** How many records a feed holds, whatever their size. */
  const SLOTS: nat := 32

  datatype Record = Record(position: nat, op: SpanOp, bytes: nat)

  /** A record carries the operation that was published at its position. */
  ghost predicate Faithful(records: seq<Record>, log: seq<Entry>) {
    forall i :: 0 <= i < |records| ==>
      0 < records[i].position <= |log| && records[i].op == log[records[i].position - 1].op
  }

  /** Faithful records at consecutive positions. */
  ghost predicate Run(records: seq<Record>, first: nat, log: seq<Entry>) {
    && Faithful(records, log)
    && (forall i :: 0 <= i < |records| ==> records[i].position == first + i)
  }

  lemma FaithfulGrows(records: seq<Record>, log: seq<Entry>, more: seq<Entry>)
    requires Faithful(records, log)
    ensures Faithful(records, log + more)
  {}

  lemma RunGrows(records: seq<Record>, first: nat, record: Record, log: seq<Entry>)
    requires Run(records, first, log) && record.position == first + |records|
    requires 0 < record.position <= |log| && record.op == log[record.position - 1].op
    ensures Run(records + [record], first, log)
  {}

  /** What a record takes of the byte budget; an oversized one travels alone. */
  function Permits(record: Record): nat {
    if record.bytes < 1 then 1 else if record.bytes > BYTE_BUDGET then BYTE_BUDGET else record.bytes
  }

  function Held(queue: seq<Record>): nat {
    if queue == [] then 0 else Held(queue[..|queue| - 1]) + Permits(queue[|queue| - 1])
  }

  predicate HasRoom(queue: seq<Record>, record: Record) {
    |queue| < SLOTS && Held(queue) + Permits(record) <= BYTE_BUDGET
  }

  /** A feed without records has room for any record; the next one must fit beside those that are there. */
  lemma {:induction false} RoomExactly(queue: seq<Record>, record: Record)
    ensures HasRoom([], record)
    ensures HasRoom(queue, record) <==> |queue| < 32 && Held(queue + [record]) <= 262144
    ensures Held([]) == 0
    ensures Held(queue + [record]) ==
              Held(queue) + (if record.bytes == 0 then 1 else if record.bytes > 262144 then 262144 else record.bytes)
    ensures |queue| <= Held(queue)
    ensures record.bytes >= 262144 ==> (HasRoom(queue, record) <==> queue == [])
  {
    assert (queue + [record])[..|queue|] == queue;
    if queue != [] {
      RoomExactly(queue[..|queue| - 1], record);
    }
  }

  /** The bytes of records, as they were encoded. */
  function Bytes(records: seq<Record>): nat {
    if records == [] then 0 else Bytes(records[..|records| - 1]) + records[|records| - 1].bytes
  }

  lemma BytesGrow(records: seq<Record>, record: Record)
    ensures Bytes([]) == 0 && Bytes([record]) == record.bytes
    ensures Bytes(records + [record]) == Bytes(records) + record.bytes
  {
    assert (records + [record])[..|records|] == records;
    assert [record][..0] == [];
  }

  /** What one publication may do to one feed. */
  predicate Offered(before: seq<Record>, after: seq<Record>, paused: bool, record: Record) {
    if paused then after == before
    else if HasRoom(before, record) then after == before + [record]
    else after == before || after == before + [record]
  }

  class Route {
    var queue: seq<Record>
    var paused: bool

    constructor ()
      ensures queue == [] && !paused
    {
      queue, paused := [], false;
    }

    /**
     * A running feed with room takes the record. One without room makes the
     * publisher wait; then the reader makes room, or the feed is paused or
     * resumed first and the record is dropped.
     */
    method Offer(record: Record)
      modifies this`queue
      ensures Offered(old(queue), queue, paused, record)
      ensures queue == old(queue) || queue == old(queue) + [record]
      ensures paused ==> queue == old(queue)
      ensures !paused && |old(queue)| < 32 && Held(old(queue) + [record]) <= 262144 ==> queue == old(queue) + [record]
    {
      RoomExactly(queue, record);
      if paused {
        return;
      }
      if !HasRoom(queue, record) {
        var interrupted: bool := *;
        if interrupted {
          return;
        }
      }
      queue := queue + [record];
    }

    method TryRecv() returns (record: Option<Record>)
      modifies this`queue
      ensures old(queue) == [] ==> record == None && queue == []
      ensures old(queue) != [] ==> record == Some(old(queue)[0]) && queue == old(queue)[1..]
    {
      if queue == [] {
        record := None;
      } else {
        record := Some(queue[0]);
        queue := queue[1..];
      }
    }

    method Clear()
      modifies this`queue
      ensures queue == []
    {
      while queue != []
        decreases |queue|
      {
        var record := TryRecv();
      }
    }

    method Pause()
      modifies this`paused
      ensures paused
    {
      paused := true;
    }

    method Resume()
      modifies this`paused
      ensures !paused
    {
      paused := false;
    }
  }

  class Multiplexer {
    var routes: seq<Route>

    constructor ()
      ensures routes == []
    {
      routes := [];
    }

    ghost predicate Distinct()
      reads this
    {
      forall i, j :: 0 <= i < j < |routes| ==> routes[i] != routes[j]
    }

    method Subscribe() returns (route: Route)
      requires Distinct()
      modifies this
      ensures fresh(route) && route.queue == [] && !route.paused
      ensures Distinct() && routes == old(routes) + [route]
    {
      route := new Route();
      routes := routes + [route];
    }

    method Publish(record: Record)
      requires Distinct()
      modifies routes
      ensures forall route <- routes :: Offered(old(route.queue), route.queue, route.paused, record)
      ensures forall route <- routes :: route.paused == old(route.paused)
      ensures forall route <- routes :: route.paused ==> route.queue == old(route.queue)
      ensures forall route <- routes :: !route.paused && |old(route.queue)| < 32 && Held(old(route.queue) + [record]) <= 262144
                ==> route.queue == old(route.queue) + [record]
    {
      for i := 0 to |routes|
        invariant forall k :: 0 <= k < i ==> Offered(old(routes[k].queue), routes[k].queue, routes[k].paused, record)
        invariant forall route <- routes :: route.paused == old(route.paused)
        invariant forall k :: i <= k < |routes| ==> routes[k].queue == old(routes[k].queue)
      {
        routes[i].Offer(record);
      }
      forall route <- routes
        ensures HasRoom(old(route.queue), record) <==> |old(route.queue)| < 32 && Held(old(route.queue) + [record]) <= 262144
      {
        RoomExactly(old(route.queue), record);
      }
    }
  }
}
