// What every run of the transport layer keeps, for every connection: the send
// queue is a stop-and-wait FIFO, fragments are reassembled into exactly the
// blocks they spell, and the states allow no stray delete and no lost buffer.
module TransportRuns {
  import opened Bytes
  import opened Transport

  // ---- reading a connection's log ----

  // accepts, departures: messages that entered and left the queue, in order.
  // outstanding: a queued message or an empty poll was transmitted, and tx_time
  //   has not been cleared since.
  // stopAndWait: no transmission ever happened while one was outstanding.
  // pending: the fragments since the last T_DATA_LAST or the allocation.
  // spelled: the blocks the fragments spell, one per non-empty T_DATA_LAST.
  // blocks: the blocks passed upward.
  datatype Reading = Reading(
    accepts: seq<Msg>, departures: seq<Msg>, outstanding: bool, stopAndWait: bool,
    pending: seq<byte>, spelled: seq<seq<byte>>, blocks: seq<seq<byte>>)

  const NOTHING := Reading([], [], false, true, [], [], [])

  predicate IsTx(e: Event) { e.Sent? || e.Polled? }

  function Next(r: Reading, e: Event): Reading {
    match e
    case Accepted(m) => r.(accepts := r.accepts + [m])
    case Sent(m) => Transmit(r).(departures := r.departures + [m])
    case Polled(_) => Transmit(r)
    case Lost(m) => r.(departures := r.departures + [m])
    case Dropped(m) => r.(departures := r.departures + [m])
    case Cleared => r.(outstanding := false)
    case Created => r.(pending := [])
    case Fragment(last, data) =>
      if !last then r.(pending := r.pending + data)
      else r.(pending := [], spelled := r.spelled + if data == [] then [] else [r.pending + data])
    case Delivered(b) => r.(blocks := r.blocks + [b])
    case _ => r
  }

  function Transmit(r: Reading): Reading {
    r.(outstanding := true, stopAndWait := r.stopAndWait && !r.outstanding)
  }

  function Read(log: seq<Event>): Reading {
    if log == [] then NOTHING else Next(Read(log[..|log| - 1]), log[|log| - 1])
  }

  function ReadMore(r: Reading, es: seq<Event>): Reading
    decreases |es|
  {
    if es == [] then r else ReadMore(Next(r, es[0]), es[1..])
  }

  lemma ReadSnoc(log: seq<Event>, e: Event)
    ensures Read(log + [e]) == Next(Read(log), e)
  {
    assert (log + [e])[..|log|] == log;
  }

  lemma {:induction false} ReadAppend(log: seq<Event>, es: seq<Event>)
    ensures Read(log + es) == ReadMore(Read(log), es)
    decreases |es|
  {
    if es == [] {
      assert log + es == log;
    } else {
      var more := log + [es[0]];
      assert more[..|log|] == log;
      assert log + es == more + es[1..];
      ReadAppend(more, es[1..]);
    }
  }

  // ---- the invariant ----

  predicate Inv(c: Conn, r: Reading) {
    && (forall k :: 0 <= k < |c.queue| && IsDelete(c.queue[k]) ==> c.state == ActiveDeleteQueued && k == |c.queue| - 1)
    && (c.state == InDeletion ==> c.queue == [])
    && (c.chain.Some? ==> c.state == Active || c.state == ActiveDeleteQueued)
    && r.accepts == r.departures + c.queue
    && r.stopAndWait
    && (r.outstanding ==> c.waiting)
    && (c.state == InCreation || c.state == Active ==> r.pending == c.ChainBytes())
    && r.blocks == r.spelled
  }

  predicate ConnInv(c: Conn) { Inv(c, Read(c.log)) }

  ghost predicate LayerInv(slots: seq<Slot>) {
    forall s :: 0 <= s < |slots| ==> ConnsInv(slots[s].conns)
  }

  ghost predicate ConnsInv(conns: seq<Conn>) {
    && (forall i :: 0 <= i < |conns| ==> ConnInv(conns[i]))
    && (|conns| > 0 ==> conns[0].state == Idle)
  }

  // ---- preservation, one connection ----

  lemma ByReading(d: Conn, r: Reading)
    requires r == Read(d.log) && Inv(d, r)
    ensures ConnInv(d)
  {
  }

  lemma Read2(log: seq<Event>, e: Event, f: Event)
    ensures Read(log + [e, f]) == Next(Next(Read(log), e), f)
  {
    ReadSnoc(log, e);
    ReadSnoc(log + [e], f);
    TwoMore(log, e, f);
  }

  lemma TwoMore(log: seq<Event>, e: Event, f: Event)
    ensures log + [e] + [f] == log + [e, f]
  {
  }

  lemma Read3(log: seq<Event>, e: Event, f: Event, g: Event)
    ensures Read(log + [e, f] + [g]) == Next(Next(Next(Read(log), e), f), g)
  {
    Read2(log, e, f);
    ReadSnoc(log + [e, f], g);
  }

  // d follows from c by logging one, two or three events, which lead to the reading r.
  lemma Step(c: Conn, d: Conn, e: Event)
    requires d.log == c.log + [e] && Inv(d, Next(Read(c.log), e))
    ensures ConnInv(d)
  {
    ReadSnoc(c.log, e);
    ByReading(d, Next(Read(c.log), e));
  }

  lemma Step2(c: Conn, d: Conn, e: Event, f: Event, r: Reading)
    requires d.log == c.log + [e, f] && r == Next(Next(Read(c.log), e), f) && Inv(d, r)
    ensures ConnInv(d)
  {
    Read2(c.log, e, f);
    ByReading(d, r);
  }

  lemma Step3(c: Conn, d: Conn, e: Event, f: Event, g: Event, r: Reading)
    requires d.log == c.log + [e, f] + [g] && r == Next(Next(Next(Read(c.log), e), f), g) && Inv(d, r)
    ensures ConnInv(d)
  {
    Read3(c.log, e, f, g);
    ByReading(d, r);
  }

  lemma EnqueueKeeps(c: Conn, m: Msg)
    requires ConnInv(c) && !IsDelete(m) && (c.state == Active || c.state == InCreation)
    ensures ConnInv(Enqueue(c, m))
  {
    Step(c, Enqueue(c, m), Accepted(m));
  }

  lemma EnqueueDeleteKeeps(c: Conn, m: Msg)
    requires ConnInv(c) && (c.state == Active || c.state == InDeletion)
    ensures ConnInv(Enqueue(c, m).(state := ActiveDeleteQueued))
  {
    Step(c, Enqueue(c, m).(state := ActiveDeleteQueued), Accepted(m));
  }

  lemma AllocateKeeps(c: Conn)
    requires ConnInv(c) && c.state == Idle
    ensures ConnInv(Allocate(c))
  {
    Step(c, Allocate(c), Created);
  }

  lemma ClearKeeps(c: Conn)
    requires ConnInv(c)
    ensures ConnInv(Clear(c))
  {
    Step(c, Clear(c), Cleared);
  }

  lemma OnMoreKeeps(c: Conn, data: seq<byte>)
    requires ConnInv(c)
    ensures ConnInv(OnMore(c, data).conn)
  {
    if c.state == Active {
      var r := Read(c.log);
      Step2(c, OnMore(c, data).conn, Cleared, Fragment(false, data), r.(outstanding := false, pending := r.pending + data));
    } else {
      SayKeeps(c, Reported(BadCamData));
    }
  }

  lemma OnLastKeeps(c: Conn, data: seq<byte>)
    requires ConnInv(c)
    ensures ConnInv(OnLast(c, data).conn)
  {
    if c.state == Active {
      if data == [] {
        EmptyLastKeeps(c, OnLast(c, data).conn);
      } else {
        LastKeeps(c, data, c.ChainBytes() + data, OnLast(c, data).conn);
      }
    } else {
      SayKeeps(c, Reported(BadCamData));
    }
  }

  lemma EmptyLastKeeps(c: Conn, d: Conn)
    requires ConnInv(c) && c.state == Active
    requires d == c.(waiting := false, chain := None, log := c.log + [Cleared, Fragment(true, [])])
    ensures ConnInv(d)
  {
    var r := Read(c.log);
    assert r.spelled + [] == r.spelled;
    Step2(c, d, Cleared, Fragment(true, []), r.(outstanding := false, pending := []));
  }

  lemma LastKeeps(c: Conn, data: seq<byte>, block: seq<byte>, d: Conn)
    requires ConnInv(c) && c.state == Active && data != [] && block == c.ChainBytes() + data
    requires d == c.(waiting := false, chain := None, log := c.log + [Cleared, Fragment(true, data)] + [Delivered(block)])
    ensures ConnInv(d)
  {
    var r := Read(c.log);
    Step3(c, d, Cleared, Fragment(true, data), Delivered(block),
          r.(outstanding := false, pending := [], spelled := r.spelled + [block], blocks := r.blocks + [block]));
  }

  lemma OnCreateReplyKeeps(c: Conn)
    requires ConnInv(c)
    ensures ConnInv(OnCreateReply(c).conn)
  {
    if c.state == InCreation {
      Step2(c, OnCreateReply(c).conn, Cleared, Opened, Read(c.log).(outstanding := false));
    } else {
      SayKeeps(c, Reported(BadCamData));
    }
  }

  // Events that say nothing of the queue, the fragments or tx_time.
  predicate Quiet(e: Event) {
    e.Wrote? || e.Closed? || e.Got? || e.Looked? || e.TimedOut? || e.Withdrawn? || e.SlotClosed? || e.Reported?
  }

  lemma SayKeeps(c: Conn, e: Event)
    requires ConnInv(c) && Quiet(e)
    ensures ConnInv(Say(c, e))
  {
    Step(c, Say(c, e), e);
  }

  lemma OnDeleteKeeps(c: Conn, i: nat, writeOk: bool)
    requires ConnInv(c)
    ensures ConnInv(OnDelete(c, i, writeOk).conn)
  {
    if c.state == Active || c.state == InDeletion {
      EndedKeeps(c, c.(state := Idle, chain := None), Wrote(Short(T_D_T_C_REPLY, i), writeOk),
                 if writeOk then Closed else Reported(CaWrite));
    } else {
      SayKeeps(c, Reported(BadCamData));
    }
  }

  lemma EndedKeeps(c: Conn, d: Conn, e: Event, f: Event)
    requires ConnInv(c) && (c.state == Active || c.state == InDeletion)
    requires d == c.(state := Idle, chain := None) && Quiet(e) && Quiet(f)
    ensures ConnInv(Say(Say(d, e), f))
  {
    assert ConnInv(d);
    SayKeeps(d, e);
    SayKeeps(Say(d, e), f);
  }

  lemma OnStatusKeeps(c: Conn, i: nat, data: seq<byte>, writeOk: bool)
    requires ConnInv(c)
    ensures ConnInv(OnStatus(c, i, data, writeOk).conn)
  {
    if c.state == Active && |data| == 1 {
      if data[0] < 0x80 {
        ClearKeeps(c);
      } else {
        var e := Wrote(Short(T_RCV, i), writeOk);
        SayKeeps(c, e);
        SayKeeps(Say(c, e), Reported(CaWrite));
        assert ConnInv(Say(c, e).(waiting := true));
      }
    } else {
      SayKeeps(c, Reported(BadCamData));
    }
  }

  lemma OnConnTpduKeeps(c: Conn, i: nat, tag: byte, body: seq<byte>, w: Writes)
    requires ConnInv(c)
    ensures ConnInv(OnConnTpdu(c, i, tag, body, w).conn)
  {
    if tag == T_C_T_C_REPLY {
      OnCreateReplyKeeps(c);
    } else if tag == T_DELETE_T_C {
      OnDeleteKeeps(c, i, w.first);
    } else if tag == T_DATA_MORE {
      OnMoreKeeps(c, body);
    } else if tag == T_DATA_LAST {
      OnLastKeeps(c, body);
    } else if tag == T_SB {
      OnStatusKeeps(c, i, body, w.first);
    } else {
      SayKeeps(c, Reported(BadCamData));
    }
  }

  lemma SendHeadKeeps(c: Conn, writeOk: bool)
    requires ConnInv(c) && MaySend(c)
    ensures ConnInv(SendHead(c, writeOk).conn)
  {
    var m := c.queue[0];
    var r := Read(c.log);
    assert r.departures + c.queue == (r.departures + [m]) + c.queue[1..];
    if writeOk {
      Step(c, SendHead(c, writeOk).conn, Sent(m));
    } else {
      Step2(c, SendHead(c, writeOk).conn, Lost(m), Reported(CaWrite), r.(departures := r.departures + [m]));
    }
  }

  lemma PollIfDueKeeps(c: Conn, i: nat, v: Visit)
    requires ConnInv(c)
    ensures ConnInv(PollIfDue(c, i, v).conn)
  {
    if c.state == Active && !c.waiting && v.pollDue {
      var poll := Short(T_DATA_LAST, i);
      if v.writeOk {
        Step(c, PollIfDue(c, i, v).conn, Polled(poll));
      } else {
        Step2(c, PollIfDue(c, i, v).conn, Wrote(poll, false), Reported(CaWrite), Read(c.log));
      }
    }
  }

  lemma CheckTimeoutKeeps(c: Conn, v: Visit)
    requires ConnInv(c)
    ensures ConnInv(CheckTimeout(c, v).conn)
  {
    var d := Say(c, TimedOut);
    SayKeeps(c, TimedOut);
    SayKeeps(d, Reported(Timeout));
    assert (c.state == InCreation || c.state == InDeletion) ==> ConnInv(d.(state := Idle));
  }

  lemma OnVisitKeeps(c: Conn, i: nat, v: Visit)
    requires ConnInv(c)
    ensures ConnInv(OnVisit(c, i, v).conn)
  {
    if c.state != Idle {
      SayKeeps(c, Looked(v));
      ServeKeeps(Say(c, Looked(v)), i, v);
    }
  }

  lemma ServeKeeps(c: Conn, i: nat, v: Visit)
    requires ConnInv(c)
    ensures ConnInv(Serve(c, i, v).conn)
  {
    if MaySend(c) {
      SendHeadKeeps(c, v.writeOk);
      PollAndCheckKeeps(SendHead(c, v.writeOk).conn, i, v);
    } else {
      PollAndCheckKeeps(c, i, v);
    }
  }

  lemma PollAndCheckKeeps(c: Conn, i: nat, v: Visit)
    requires ConnInv(c)
    ensures ConnInv(PollAndCheck(c, i, v).conn)
  {
    PollIfDueKeeps(c, i, v);
    CheckTimeoutKeeps(PollIfDue(c, i, v).conn, v);
  }

  lemma DroppedHead(queue: seq<Msg>)
    requires queue != []
    ensures DroppedAll(queue) == [Dropped(queue[0])] + DroppedAll(queue[1..])
  {
  }

  lemma ReadMoreHead(r: Reading, e: Event, es: seq<Event>, next: Reading)
    requires next == Next(r, e)
    ensures ReadMore(r, [e] + es) == ReadMore(next, es)
  {
    assert ([e] + es)[1..] == es;
  }

  lemma {:induction false} ReadDropped(r: Reading, queue: seq<Msg>)
    ensures ReadMore(r, DroppedAll(queue)) == r.(departures := r.departures + queue)
    decreases |queue|
  {
    if queue == [] {
      assert r.departures + queue == r.departures;
    } else {
      var rest, first := queue[1..], r.(departures := r.departures + [queue[0]]);
      DroppedHead(queue);
      ReadDropped(first, rest);
      ReadMoreHead(r, Dropped(queue[0]), DroppedAll(rest), first);
      Associates(r.departures, [queue[0]], rest);
      assert [queue[0]] + rest == queue;
    }
  }

  lemma DiscardKeeps(c: Conn)
    requires ConnInv(c)
    ensures ConnInv(Discard(c))
  {
    var log := c.log + [SlotClosed, Cleared];
    Read2(c.log, SlotClosed, Cleared);
    ReadDropped(Read(log), c.queue);
    ReadAppend(log, DroppedAll(c.queue));
  }

  // ---- preservation, the layer ----

  lemma PutKeeps(conns: seq<Conn>, i: nat, c: Conn)
    requires i < |conns| && ConnsInv(conns) && ConnInv(c) && (i == 0 ==> c.state == Idle)
    ensures ConnsInv(conns[i := c])
  {
  }

  lemma AllocateInPlace(conns: seq<Conn>, n: nat)
    requires 0 < n < |conns| && ConnsInv(conns) && conns[n].state == Idle
    ensures ConnsInv(conns[n := Allocate(conns[n])])
  {
    AllocateKeeps(conns[n]);
    PutKeeps(conns, n, Allocate(conns[n]));
  }

  lemma ClearInPlace(conns: seq<Conn>, i: nat)
    requires i < |conns| && ConnsInv(conns)
    ensures ConnsInv(conns[i := Clear(conns[i])])
  {
    ClearKeeps(conns[i]);
    PutKeeps(conns, i, Clear(conns[i]));
  }

  lemma WithdrawKeeps(c: Conn)
    requires ConnInv(c) && c.state == InCreation
    ensures ConnInv(Withdraw(c)) && ConnInv(Say(Withdraw(c), Reported(CaWrite)))
  {
    Step(c, Withdraw(c), Withdrawn);
    SayKeeps(Withdraw(c), Reported(CaWrite));
  }

  lemma AskToOpenKeeps(c: Conn, n: nat, ok: bool)
    requires ConnInv(c) && c.state == InCreation
    ensures ConnInv(AskToOpen(c, n, ok))
  {
    var d := Say(c, Wrote(Short(T_CREATE_T_C, n), ok));
    SayKeeps(c, Wrote(Short(T_CREATE_T_C, n), ok));
    WithdrawKeeps(d);
    if ok { Step(d, CamOpen(d), CamOpened); }
  }

  // A connection still in creation is withdrawn, or its module is asked to open it.
  lemma SettleInPlace(conns: seq<Conn>, n: nat, ok: bool)
    requires 0 < n < |conns| && ConnsInv(conns) && conns[n].state == InCreation
    ensures ConnsInv(conns[n := Withdraw(conns[n])]) && ConnsInv(conns[n := AskToOpen(conns[n], n, ok)])
  {
    WithdrawKeeps(conns[n]);
    AskToOpenKeeps(conns[n], n, ok);
    PutKeeps(conns, n, Withdraw(conns[n]));
    PutKeeps(conns, n, AskToOpen(conns[n], n, ok));
  }

  lemma OnRequestKeeps(conns: seq<Conn>, i: byte, w: Writes)
    requires i < |conns| && ConnsInv(conns)
    ensures ConnsInv(OnRequest(conns, i, w).conns)
  {
    match FirstIdle(conns, 1)
    case None =>
      RepliedInPlace(conns, i, [T_T_C_ERROR, 2, i, 1], w.first);
    case Some(n) =>
      GrantKeeps(conns, i, n, w);
  }

  lemma GrantKeeps(conns: seq<Conn>, i: byte, n: nat, w: Writes)
    requires i < |conns| && 0 < n < |conns| && ConnsInv(conns) && conns[n].state == Idle
    ensures ConnsInv(Grant(conns, i, n, w).conns)
  {
    AllocateInPlace(conns, n);
    var taken := conns[n := Allocate(conns[n])];
    var x := [T_NEW_T_C, 2, i, n % 256];
    RepliedInPlace(taken, i, x, w.first);
    SettleInPlace(taken[i := Replied(taken[i], x, w.first)], n, w.second);
  }

  lemma RepliedInPlace(conns: seq<Conn>, i: nat, x: Msg, ok: bool)
    requires i < |conns| && ConnsInv(conns)
    ensures ConnsInv(conns[i := Replied(conns[i], x, ok)])
  {
    var d := Say(conns[i], Wrote(x, ok));
    SayKeeps(conns[i], Wrote(x, ok));
    ClearKeeps(d);
    SayKeeps(d, Reported(CaWrite));
    PutKeeps(conns, i, Replied(conns[i], x, ok));
  }

  lemma SayInPlace(conns: seq<Conn>, i: nat, e: Event)
    requires i < |conns| && ConnsInv(conns) && Quiet(e)
    ensures ConnsInv(conns[i := Say(conns[i], e)])
  {
    SayKeeps(conns[i], e);
    PutKeeps(conns, i, Say(conns[i], e));
  }

  lemma OnTpduKeeps(slots: seq<Slot>, s: nat, t: Tpdu, w: Writes)
    requires s < |slots| && LayerInv(slots)
    ensures LayerInv(OnTpdu(slots, s, t, w).slots)
  {
    if t.conn < |slots[s].conns| {
      assert ConnsInv(slots[s].conns);
      SayInPlace(slots[s].conns, t.conn, Got(t.tag, t.body));
      HandleKeeps(Put(slots, s, t.conn, Say(slots[s].conns[t.conn], Got(t.tag, t.body))), s, t, w);
    }
  }

  lemma HandleKeeps(slots: seq<Slot>, s: nat, t: Tpdu, w: Writes)
    requires s < |slots| && t.conn < |slots[s].conns| && LayerInv(slots)
    ensures LayerInv(Handle(slots, s, t, w).slots)
  {
    assert ConnsInv(slots[s].conns);
    if t.tag == T_REQUEST_T_C {
      OnRequestKeeps(slots[s].conns, t.conn, w);
    } else {
      OnConnTpduKeeps(slots[s].conns[t.conn], t.conn, t.tag, t.body, w);
    }
  }

  lemma PutSlotKeeps(slots: seq<Slot>, s: nat, i: nat, c: Conn)
    requires s < |slots| && i < |slots[s].conns| && LayerInv(slots) && ConnInv(c) && (i == 0 ==> c.state == Idle)
    ensures LayerInv(Put(slots, s, i, c))
  {
    assert ConnsInv(slots[s].conns);
    PutKeeps(slots[s].conns, i, c);
  }

  lemma DestroyKeeps(slots: seq<Slot>, s: nat)
    requires LayerInv(slots)
    ensures LayerInv(DestroySlot(slots, s))
  {
    if s < |slots| {
      assert ConnsInv(slots[s].conns);
      forall i | 0 <= i < |slots[s].conns| ensures ConnInv(Discard(slots[s].conns[i])) {
        DiscardKeeps(slots[s].conns[i]);
      }
    }
  }

  lemma SendDataKeeps(slots: seq<Slot>, s: byte, i: byte, data: seq<byte>)
    requires LayerInv(slots)
    ensures LayerInv(SendData(slots, s, i, data).slots)
  {
    if SendData(slots, s, i, data).result.Done? {
      assert ConnsInv(slots[s].conns);
      EnqueueKeeps(slots[s].conns[i], DataMessage(i, data));
      PutSlotKeeps(slots, s, i, Enqueue(slots[s].conns[i], DataMessage(i, data)));
    }
  }

  lemma NewTcKeeps(slots: seq<Slot>, s: byte)
    requires LayerInv(slots)
    ensures LayerInv(NewTc(slots, s).slots)
  {
    var r := NewTc(slots, s).result;
    if r.Done? {
      assert ConnsInv(slots[s].conns);
      var c := Allocate(slots[s].conns[r.id]);
      AllocateKeeps(slots[s].conns[r.id]);
      EnqueueKeeps(c, [T_CREATE_T_C, 1, r.id % 256]);
      PutSlotKeeps(slots, s, r.id, Enqueue(c, [T_CREATE_T_C, 1, r.id % 256]));
    }
  }

  lemma DelTcKeeps(slots: seq<Slot>, s: byte, i: byte)
    requires LayerInv(slots)
    ensures LayerInv(DelTc(slots, s, i).slots)
  {
    if DelTc(slots, s, i).result.Done? {
      assert ConnsInv(slots[s].conns);
      EnqueueDeleteKeeps(slots[s].conns[i], [T_DELETE_T_C, 1, i]);
      PutSlotKeeps(slots, s, i, Enqueue(slots[s].conns[i], [T_DELETE_T_C, 1, i]).(state := ActiveDeleteQueued));
    }
  }

  lemma VisitedKeeps(slots: seq<Slot>, s: nat, i: nat, v: Visit)
    requires LayerInv(slots) && s < |slots| && i < |slots[s].conns|
    ensures LayerInv(Put(slots, s, i, OnVisit(slots[s].conns[i], i, v).conn))
  {
    assert ConnsInv(slots[s].conns);
    OnVisitKeeps(slots[s].conns[i], i, v);
    PutSlotKeeps(slots, s, i, OnVisit(slots[s].conns[i], i, v).conn);
  }

  lemma ApplyKeeps(slots: seq<Slot>, input: Input)
    requires LayerInv(slots)
    ensures LayerInv(Apply(slots, input).slots)
  {
    match input
    case RegisterSlotCall =>
    case DestroySlotCall(s) => DestroyKeeps(slots, s);
    case SendDataCall(s, i, data) => SendDataKeeps(slots, s, i, data);
    case NewTcCall(s) => NewTcKeeps(slots, s);
    case DelTcCall(s, i) => DelTcKeeps(slots, s, i);
    case Received(s, t, w) =>
      if s < |slots| && slots[s].open { OnTpduKeeps(slots, s, t, w); }
    case Visited(s, i, v) =>
      if s < |slots| && slots[s].open && i < |slots[s].conns| { VisitedKeeps(slots, s, i, v); }
  }

  lemma {:induction false} RunKeeps(slots: seq<Slot>, inputs: seq<Input>)
    requires LayerInv(slots)
    ensures LayerInv(Run(slots, inputs))
    decreases |inputs|
  {
    if inputs != [] {
      ApplyKeeps(slots, inputs[0]);
      RunKeeps(Apply(slots, inputs[0]).slots, inputs[1..]);
    }
  }
}
