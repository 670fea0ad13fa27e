// The send queue of a transport connection (en50221_transport.c): a singly
// linked list of heap-allocated messages with a head and a tail pointer.
// Contents() is the sequence of messages the list stands for.
module SendQueue {
  import opened Bytes

  class Message {
    var next: Message?
    var data: seq<byte>

    constructor (data: seq<byte>)
      ensures this.data == data
    {
      this.data := data;
      this.next := null;
    }
  }

  ghost predicate Distinct(nodes: seq<Message>) {
    forall i, j :: 0 <= i < j < |nodes| ==> nodes[i] != nodes[j]
  }

  class Queue {
    var head: Message?
    var tail: Message?
    ghost var nodes: seq<Message>

    ghost predicate Valid()
      reads this, nodes
    {
      && Distinct(nodes)
      && (nodes == [] ==> head == null && tail == null)
      && (nodes != [] ==> head == nodes[0] && tail == nodes[|nodes| - 1] && tail.next == null)
      && forall i :: 0 <= i < |nodes| - 1 ==> nodes[i].next == nodes[i + 1]
    }

    ghost function Contents(): (s: seq<seq<byte>>)
      reads this, nodes
    {
      seq(|nodes|, i requires 0 <= i < |nodes| reads this, nodes => nodes[i].data)
    }

    constructor ()
      ensures Valid() && Contents() == [] && nodes == []
    {
      head, tail, nodes := null, null, [];
    }

    // queue_message
    method Append(msg: Message)
      requires Valid() && msg !in nodes
      modifies this, nodes, msg
      ensures Valid() && nodes == old(nodes) + [msg]
      ensures Contents() == old(Contents()) + [old(msg.data)]
    {
      msg.next := null;
      if tail != null {
        tail.next := msg;
        tail := msg;
      } else {
        head := msg;
        tail := msg;
      }
      nodes := nodes + [msg];
    }

    // The dequeue at the head of the poll loop.
    method Take() returns (msg: Message)
      requires Valid() && head != null
      modifies this
      ensures Valid() && old(nodes) != [] && nodes == old(nodes)[1..] && msg == old(nodes)[0]
      ensures [msg.data] + Contents() == old(Contents())
    {
      msg := head;
      if msg.next != null {
        head := msg.next;
      } else {
        head := null;
        tail := null;
      }
      nodes := nodes[1..];
    }

    // Freeing the queue when the slot is destroyed: every message is visited
    // exactly once, in order.
    method Clear() returns (ghost freed: seq<Message>)
      requires Valid()
      modifies this
      ensures Valid() && Contents() == [] && freed == old(nodes)
    {
      var cur := head;
      freed := [];
      while cur != null
        invariant |freed| <= |nodes| && freed == nodes[..|freed|]
        invariant cur == if |freed| == |nodes| then null else nodes[|freed|]
        decreases |nodes| - |freed|
      {
        var next := cur.next;
        freed := freed + [cur];
        cur := next;
      }
      head := null;
      tail := null;
      nodes := [];
    }

    method IsEmpty() returns (empty: bool)
      requires Valid()
      ensures empty == (Contents() == [])
    {
      empty := head == null;
    }
  }
}
