// The transport layer object of en50221_transport.c, updating its slots in place.
// Every method is proved against the step that module Transport gives it.
module TransportLayer {
  import opened Bytes
  import Asn1
  import opened Transport
  import TransportPoll

  lemma RestOf(data: seq<byte>, off: nat, left: seq<byte>, used: nat)
    requires off <= |data| && left == data[off..] && used <= |left|
    ensures left[used..] == data[off + used..]
  {
  }

  class Layer {
    var slots: seq<Slot>

    // en50221_tl_create
    constructor (maxSlots: byte, maxConns: byte)
      ensures slots == Initial(maxSlots, maxConns)
    {
      var made: seq<Slot> := [];
      for i := 0 to maxSlots
        invariant |made| == i
        invariant forall k :: 0 <= k < i ==> made[k] == Slot(false, seq(maxConns, _ => FRESH))
      {
        var conns: seq<Conn> := [];
        for j := 0 to maxConns
          invariant |conns| == j && forall k :: 0 <= k < j ==> conns[k] == FRESH
        {
          conns := conns + [Conn(Idle, false, None, [], [])];
        }
        made := made + [Slot(false, conns)];
      }
      slots := made;
    }

    method SetConn(s: nat, i: nat, c: Conn)
      requires s < |slots| && i < |slots[s].conns|
      modifies this
      ensures slots == Put(old(slots), s, i, c)
    {
      slots := slots[s := slots[s].(conns := slots[s].conns[i := c])];
    }

    // queue_message
    method QueueMessage(s: nat, i: nat, msg: Msg)
      requires s < |slots| && i < |slots[s].conns|
      modifies this
      ensures slots == Put(old(slots), s, i, Enqueue(old(slots[s].conns[i]), msg))
    {
      var c := slots[s].conns[i];
      SetConn(s, i, c.(queue := c.queue + [msg], log := c.log + [Accepted(msg)]));
    }

    // en50221_tl_alloc_new_tc
    method AllocNewTc(s: nat) returns (r: Option<nat>)
      requires s < |slots|
      modifies this
      ensures r == FirstIdle(old(slots[s].conns), 1)
      ensures slots == if r.None? then old(slots)
                       else Put(old(slots), s, r.value, Allocate(old(slots[s].conns[r.value])))
    {
      var conns := slots[s].conns;
      var i: nat := 1;
      while i < |conns| && conns[i].state != Idle
        invariant FirstIdle(conns, 1) == FirstIdle(conns, i)
      {
        i := i + 1;
      }
      if i >= |conns| { return None; }
      SetConn(s, i, conns[i].(state := InCreation, chain := None, log := conns[i].log + [Created]));
      return Some(i);
    }

    // en50221_tl_register_slot
    method RegisterSlot() returns (r: Result)
      modifies this
      ensures Step(slots, r) == Register(old(slots))
    {
      var s: nat := 0;
      while s < |slots| && slots[s].open
        invariant FirstClosed(slots, 0) == FirstClosed(slots, s) && slots == old(slots)
      {
        s := s + 1;
      }
      if s >= |slots| { return Fail(OutOfSlots); }
      slots := slots[s := slots[s].(open := true)];
      return Done(s);
    }

    // en50221_tl_destroy_slot
    // upcall: the callback with T_CALLBACK_REASON_SLOTCLOSE for s is made.
    method DestroySlotAt(s: byte) returns (upcall: bool)
      modifies this
      ensures slots == DestroySlot(old(slots), s)
      ensures upcall <==> s < |slots|
    {
      if s >= |slots| { return false; }
      var conns := slots[s].conns;
      var i := 0;
      while i < |conns|
        invariant 0 <= i <= |conns| == |slots[s].conns| && slots == old(slots)
        invariant forall k :: 0 <= k < i ==> conns[k] == Discard(slots[s].conns[k])
        invariant forall k :: i <= k < |conns| ==> conns[k] == slots[s].conns[k]
      {
        var log := conns[i].log + [SlotClosed, Cleared];
        var k := 0;
        while k < |conns[i].queue|
          invariant 0 <= k <= |conns[i].queue| && slots == old(slots)
          invariant log == conns[i].log + [SlotClosed, Cleared] + DroppedAll(conns[i].queue)[..k]
        {
          log := log + [Dropped(conns[i].queue[k])];
          k := k + 1;
        }
        conns := conns[i := Conn(Idle, false, None, [], log)];
        i := i + 1;
      }
      ghost var was := slots[s].conns;
      assert conns == seq(|was|, j requires 0 <= j < |was| => Discard(was[j]));
      slots := slots[s := Slot(false, conns)];
      return true;
    }

    // en50221_tl_send_data
    method SendDataOn(s: byte, i: byte, data: seq<byte>) returns (r: Result)
      modifies this
      ensures Step(slots, r) == SendData(old(slots), s, i, data)
    {
      r := SendDatavOn(s, i, [data]);
      assert Flatten([data]) == data + Flatten([]);
      assert data + [] == data;
    }

    // en50221_tl_send_datav: the parts of the vector are copied one after the other.
    method SendDatavOn(s: byte, i: byte, vector: seq<seq<byte>>) returns (r: Result)
      modifies this
      ensures Step(slots, r) == SendData(old(slots), s, i, Flatten(vector))
    {
      if s >= |slots| { return Fail(BadSlotId); }
      if !slots[s].open { return Fail(BadSlotId); }
      if i >= |slots[s].conns| { return Fail(BadConnectionId); }
      if slots[s].conns[i].state != Active { return Fail(BadConnectionId); }
      var size := 0;
      var n := 0;
      while n < |vector|
        invariant slots == old(slots) && 0 <= n <= |vector| && size == |Flatten(vector[..n])|
      {
        assert vector[..n + 1] == vector[..n] + [vector[n]];
        FlattenAppend(vector[..n], [vector[n]]);
        size := size + |vector[n]|;
        n := n + 1;
      }
      assert vector[..n] == vector;
      var header := [T_DATA_LAST] + Asn1.Field((size + 1) % 0x1_0000) + [i];
      var msg := header;
      n := 0;
      while n < |vector|
        invariant slots == old(slots) && 0 <= n <= |vector| && msg == header + Flatten(vector[..n])
      {
        assert vector[..n + 1] == vector[..n] + [vector[n]];
        FlattenAppend(vector[..n], [vector[n]]);
        msg := msg + vector[n];
        n := n + 1;
      }
      assert vector[..n] == vector;
      QueueMessage(s, i, msg);
      return Done(0);
    }

    // en50221_tl_new_tc
    method NewConnection(s: byte) returns (r: Result)
      modifies this
      ensures Step(slots, r) == NewTc(old(slots), s)
    {
      if s >= |slots| { return Fail(BadSlotId); }
      if !slots[s].open { return Fail(BadSlotId); }
      var n := AllocNewTc(s);
      if n.None? { return Fail(OutOfConnections); }
      QueueMessage(s, n.value, [T_CREATE_T_C, 1, n.value % 256]);
      PutTwice(old(slots), s, n.value, Allocate(old(slots[s].conns[n.value])), slots[s].conns[n.value]);
      return Done(n.value);
    }

    // en50221_tl_del_tc
    method DeleteConnection(s: byte, i: byte) returns (r: Result)
      modifies this
      ensures Step(slots, r) == DelTc(old(slots), s, i)
    {
      if s >= |slots| { return Fail(BadSlotId); }
      if !slots[s].open { return Fail(BadSlotId); }
      if i >= |slots[s].conns| { return Fail(BadConnectionId); }
      if slots[s].conns[i].state != Active && slots[s].conns[i].state != InDeletion { return Fail(BadState); }
      QueueMessage(s, i, [T_DELETE_T_C, 1, i]);
      SetConn(s, i, slots[s].conns[i].(state := ActiveDeleteQueued));
      PutTwice(old(slots), s, i, Enqueue(old(slots[s].conns[i]), [T_DELETE_T_C, 1, i]), slots[s].conns[i]);
      return Done(0);
    }

    // en50221_tl_handle_request_tc
    method HandleRequest(s: nat, i: byte, w: Writes) returns (r: Result)
      requires s < |slots| && i < |slots[s].conns|
      modifies this
      ensures var step := OnRequest(old(slots[s].conns), i, w);
        r == step.result && slots == old(slots)[s := old(slots[s]).(conns := step.conns)]
    {
      var n := AllocNewTc(s);
      if n.None? {
        ReplyTo(s, i, [T_T_C_ERROR, 2, i, 1], w.first);
        return if w.first then Done(0) else Fail(CaWrite);
      }
      var id := n.value;
      ReplyTo(s, i, [T_NEW_T_C, 2, i, id % 256], w.first);
      if !w.first {
        SetConn(s, id, Withdraw(slots[s].conns[id]));
        return Fail(CaWrite);
      }
      var c := slots[s].conns[id];
      c := c.(log := c.log + [Wrote([T_CREATE_T_C, 1, id % 256], w.second)]);
      if !w.second {
        SetConn(s, id, Say(Withdraw(c), Reported(CaWrite)));
        return Fail(CaWrite);
      }
      SetConn(s, id, CamOpen(c));
      return Done(0);
    }

    // The write that answers the request, and what follows on its connection.
    method ReplyTo(s: nat, i: nat, msg: Msg, ok: bool)
      requires s < |slots| && i < |slots[s].conns|
      modifies this
      ensures slots == Put(old(slots), s, i, Replied(old(slots[s].conns[i]), msg, ok))
    {
      var c := slots[s].conns[i];
      c := c.(log := c.log + [Wrote(msg, ok)]);
      if ok {
        c := c.(waiting := false, log := c.log + [Cleared]);
      } else {
        c := c.(log := c.log + [Reported(CaWrite)]);
      }
      SetConn(s, i, c);
    }

    // The handlers of every other TPDU.
    method HandleTpdu(s: nat, i: byte, tag: byte, body: seq<byte>, w: Writes) returns (r: Result)
      requires s < |slots| && i < |slots[s].conns|
      modifies this
      ensures var step := OnConnTpdu(old(slots[s].conns[i]), i, tag, body, w);
        r == step.result && slots == Put(old(slots), s, i, step.conn)
    {
      var c := slots[s].conns[i];
      r := Done(0);
      if tag == T_C_T_C_REPLY && c.state == InCreation {
        c := c.(state := Active, waiting := false);
        c := c.(log := c.log + [Cleared, Opened]);
      } else if tag == T_DELETE_T_C && (c.state == Active || c.state == InDeletion) {
        c := c.(state := Idle);
        c := c.(chain := None);
        c := c.(log := c.log + [Wrote([T_D_T_C_REPLY, 1, i], w.first)]);
        if w.first {
          c := c.(log := c.log + [Closed]);
        } else {
          c := c.(log := c.log + [Reported(CaWrite)]);
          r := Fail(CaWrite);
        }
      } else if tag == T_D_T_C_REPLY && c.state == InDeletion {
        c := c.(state := Idle);
      } else if tag == T_DATA_MORE && c.state == Active {
        c := c.(waiting := false, log := c.log + [Cleared, Fragment(false, body)]);
        c := c.(chain := Some(c.ChainBytes() + body));
      } else if tag == T_DATA_LAST && c.state == Active {
        assert c.ChainBytes() + body == if c.chain == None then body else c.chain.value + body;
        c := c.(waiting := false, log := c.log + [Cleared, Fragment(true, body)]);
        assert c.log + [] == c.log;
        if c.chain == None {
          if body != [] {
            c := c.(log := c.log + [Delivered(body)]);
          }
        } else {
          var block := c.chain.value + body;
          c := c.(chain := None);
          if body != [] {
            c := c.(log := c.log + [Delivered(block)]);
          }
        }
      } else if tag == T_SB && c.state == Active && |body| == 1 {
        if body[0] >= 0x80 {
          c := c.(log := c.log + [Wrote([T_RCV, 1, i], w.first)]);
          if w.first {
            c := c.(waiting := true);
          } else {
            c := c.(log := c.log + [Reported(CaWrite)]);
            r := Fail(CaWrite);
          }
        } else {
          c := c.(waiting := false, log := c.log + [Cleared]);
        }
      } else {
        c := c.(log := c.log + [Reported(BadCamData)]);
        r := Fail(BadCamData);
      }
      SetConn(s, i, c);
      assert slots[s].conns[i] == OnConnTpdu(old(slots[s].conns[i]), i, tag, body, w).conn;
    }

    // The switch of en50221_tl_process_data.
    method Dispatch(s: nat, i: byte, tag: byte, body: seq<byte>, w: Writes) returns (r: Result)
      requires s < |slots| && i < |slots[s].conns|
      modifies this
      ensures Step(slots, r) == Handle(old(slots), s, Tpdu(tag, i, body), w)
    {
      if tag == T_REQUEST_T_C {
        r := HandleRequest(s, i, w);
      } else {
        r := HandleTpdu(s, i, tag, body, w);
      }
    }

    // The header checks of one round of en50221_tl_process_data.
    method ReadHeader(left: seq<byte>) returns (p: Parsed)
      requires left != []
      ensures p == ParseTpdu(left)
    {
      var d := Asn1.Decode(left[1..]);
      if d.Bad? { return Garbage; }
      if d.value < 1 || d.value > |left| - (1 + d.used) { return Garbage; }
      var end := 1 + d.used + d.value;
      p := Parsed(Tpdu(left[0], left[1 + d.used], left[2 + d.used..end]), end);
    }

    // The rest of the round, for a TPDU with a proper header.
    method Receive(s: nat, t: Tpdu, w: Writes) returns (r: Result)
      requires s < |slots|
      modifies this
      ensures Step(slots, r) == OnTpdu(old(slots), s, t, w)
    {
      if t.conn >= |slots[s].conns| { return Fail(BadConnectionId); }
      SetConn(s, t.conn, Say(slots[s].conns[t.conn], Got(t.tag, t.body)));
      r := Dispatch(s, t.conn, t.tag, t.body, w);
    }

    // One round of the loop of en50221_tl_process_data.
    method ReceiveOne(s: nat, left: seq<byte>, w: nat -> Writes, k: nat) returns (r: Result, used: nat)
      requires s < |slots| && left != []
      modifies this
      ensures used <= |left| && |slots| == |old(slots)|
      ensures r.Fail? ==> Step(slots, r) == ProcessData(old(slots), s, left, w, k)
      ensures r.Done? ==> used > 0 && ProcessData(slots, s, left[used..], w, k + 1) == ProcessData(old(slots), s, left, w, k)
    {
      var p := ReadHeader(left);
      if p.Garbage? { return Fail(BadCamData), 0; }
      used := p.used;
      ProcessDataStep(slots, s, left, w, k);
      r := Receive(s, p.tpdu, w(k));
    }

    // en50221_tl_process_data
    method ProcessReceived(s: nat, data: seq<byte>, w: nat -> Writes) returns (r: Result)
      requires s < |slots|
      modifies this
      ensures Step(slots, r) == ProcessData(old(slots), s, data, w, 0)
    {
      var off: nat := 0;
      var k: nat := 0;
      ghost var left := data;
      while off < |data|
        invariant off <= |data| && s < |slots| && left == data[off..]
        invariant ProcessData(old(slots), s, data, w, 0) == ProcessData(slots, s, left, w, k)
      {
        var used;
        r, used := ReceiveOne(s, data[off..], w, k);
        if r.Fail? { return r; }
        RestOf(data, off, left, used);
        left := left[used..];
        off := off + used;
        k := k + 1;
      }
      return Done(0);
    }

    // The connection loop of en50221_tl_poll.
    method PollConnections(s: nat, v: nat -> Visit) returns (r: Result)
      requires s < |slots|
      modifies this
      ensures Step(slots, r) == VisitAll(old(slots), s, v, 0)
    {
      var j: nat := 0;
      while j < |slots[s].conns|
        invariant s < |slots| && |slots[s].conns| == |old(slots)[s].conns|
        invariant VisitAll(old(slots), s, v, 0) == VisitAll(slots, s, v, j)
      {
        var c := slots[s].conns[j];
        if c.state != Idle {
          var env := v(j);
          c := c.(log := c.log + [Looked(env)]);
          if (c.state == InCreation || c.state == Active || c.state == ActiveDeleteQueued)
            && c.queue != [] && !c.waiting
          {
            var msg := c.queue[0];
            c := c.(queue := c.queue[1..]);
            if !env.writeOk {
              SetConn(s, j, c.(log := c.log + [Lost(msg), Reported(CaWrite)]));
              return Fail(CaWrite);
            }
            c := c.(waiting := true, log := c.log + [Sent(msg)]);
            if IsDelete(msg) {
              c := c.(state := InDeletion, chain := None);
            }
          }
          if c.state == Active && !c.waiting && env.pollDue {
            c := c.(waiting := true);
            var poll := [T_DATA_LAST, 1, j % 256];
            if !env.writeOk {
              SetConn(s, j, c.(log := c.log + [Wrote(poll, false), Reported(CaWrite)]));
              return Fail(CaWrite);
            }
            c := c.(log := c.log + [Polled(poll)]);
          }
          if c.waiting && env.timedOut {
            c := c.(log := c.log + [TimedOut]);
            if c.state == InCreation || c.state == InDeletion {
              c := c.(state := Idle);
            } else if c.state == Active || c.state == ActiveDeleteQueued {
              SetConn(s, j, c.(log := c.log + [Reported(Timeout)]));
              return Fail(Timeout);
            }
          }
        }
        SetConn(s, j, c);
        j := j + 1;
      }
      return Done(0);
    }

    // ---- en50221_tl_poll ----

    // The search for another slot of the same device.
    method FindSlot(addr: nat -> TransportPoll.Address, a: TransportPoll.Address) returns (r: Option<nat>)
      ensures r == TransportPoll.FirstAt(slots, addr, a, 0)
    {
      var t: nat := 0;
      while t < |slots| && !(slots[t].open && addr(t) == a)
        invariant t <= |slots|
        invariant TransportPoll.FirstAt(slots, addr, a, 0) == TransportPoll.FirstAt(slots, addr, a, t)
      {
        t := t + 1;
      }
      r := if t < |slots| then Some(t) else None;
    }

    // What arrives on slot s.
    method HearSlot(s: nat, addr: nat -> TransportPoll.Address, e: TransportPoll.World) returns (r: Result)
      requires s < |slots| && slots[s].open
      modifies this
      ensures Step(slots, r) == TransportPoll.Hear(old(slots), addr, s, e)
    {
      match e.ready(s) {
        case Quiet => r := Done(0);
        case Broken => r := Fail(CaRead);
        case Readable(ReadFails) => r := Fail(CaRead);
        case Readable(Nothing) => r := Done(0);
        case Readable(Arrived(number, data)) =>
          if data == [] { return Done(0); }
          var t := Some(s);
          if addr(s).number != number {
            t := FindSlot(addr, TransportPoll.Address(addr(s).handle, number));
          }
          if t.None? { return Fail(BadSlotId); }
          r := ProcessReceived(t.value, data, e.w(s));
      }
    }

    // One round of the loop over the slots.
    method PollSlot(s: nat, addr: nat -> TransportPoll.Address, e: TransportPoll.World) returns (r: Result)
      requires s < |slots|
      modifies this
      ensures Step(slots, r) == TransportPoll.PollOne(old(slots), addr, s, e)
    {
      if !slots[s].open { return Done(0); }
      r := HearSlot(s, addr, e);
      if r.Fail? { return r; }
      r := PollConnections(s, e.v(s));
    }

    method PollAll(addr: nat -> TransportPoll.Address, e: TransportPoll.World) returns (r: Result)
      modifies this
      ensures Step(slots, r) == TransportPoll.Poll(old(slots), addr, e)
    {
      if !e.ok { return Fail(CaRead); }
      var s: nat := 0;
      while s < |slots|
        invariant s <= |slots| == |old(slots)|
        invariant TransportPoll.PollFrom(old(slots), addr, 0, e) == TransportPoll.PollFrom(slots, addr, s, e)
      {
        r := PollSlot(s, addr, e);
        if r.Fail? { return r; }
        s := s + 1;
      }
      return Done(0);
    }
  }
}
