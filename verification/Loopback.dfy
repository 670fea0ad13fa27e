// The two EN 50221 layers joined end to end: what the session layer sends goes into
// the transport layer's queue, the queued message comes back to the transport
// layer's parser, and every block that is delivered goes up to the session layer.
module Loopback {
  import opened Bytes
  import S = SessionMachine
  import T = Transport
  import SessionLayer
  import TransportLayer
  import opened LayerRoundTrip

  function ConnAt(slots: seq<T.Slot>, s: nat, i: nat): T.Conn {
    if s < |slots| && i < |slots[s].conns| then slots[s].conns[i] else T.FRESH
  }

  function LastQueued(c: T.Conn): seq<byte> {
    if c.queue == [] then [] else c.queue[|c.queue| - 1]
  }

  // The blocks among some events of a connection, in order.
  function Blocks(es: seq<T.Event>): seq<seq<byte>> {
    if es == [] then []
    else if es[0].Delivered? then [es[0].block] + Blocks(es[1..])
    else Blocks(es[1..])
  }

  function Since<E>(before: seq<E>, after: seq<E>): seq<E> {
    if |before| <= |after| then after[|before|..] else []
  }

  // The layers: the sessions with their history, and the slots below them.
  datatype Stack = Stack(layer: S.Layer, slots: seq<T.Slot>)

  // One data callback of the transport layer, with whatever it makes the session
  // layer send.
  function Up(k: Stack, block: seq<byte>, slot: byte, conn: byte, env: S.Env): Stack {
    var l := S.OnTransport(k.layer, S.Data, block, slot, conn,
                           env.(sendOk := SessionLayer.Accepts(k.slots, slot, conn)));
    Stack(l, SessionLayer.Forward(k.slots, Since(k.layer.log, l.log)))
  }

  function UpAll(k: Stack, blocks: seq<seq<byte>>, slot: byte, conn: byte, env: S.Env): Stack
    decreases |blocks|
  {
    if blocks == [] then k else UpAll(Up(k, blocks[0], slot, conn, env), blocks[1..], slot, conn, env)
  }

  // The session layer's send; the SPDU it logs is the one that is queued.
  function Send(k: Stack, n: u16, data: seq<byte>): Stack
    requires n < |k.layer.sessions|
  {
    var b := k.layer.sessions[n].binding;
    var l := S.SendData(k.layer, n, data, SessionLayer.Accepts(k.slots, b.slot, b.conn)).layer;
    Stack(l, SessionLayer.Forward(k.slots, Since(k.layer.log, l.log)))
  }

  // The last queued message of a connection arrives, and its blocks go up.
  function Receive(k: Stack, slot: byte, conn: byte, w: nat -> T.Writes, env: S.Env): Stack {
    if slot >= |k.slots| then k
    else
      var c := ConnAt(k.slots, slot, conn);
      var slots := T.ProcessData(k.slots, slot, LastQueued(c), w, 0).slots;
      UpAll(Stack(k.layer, slots), Blocks(Since(c.log, ConnAt(slots, slot, conn).log)), slot, conn, env)
  }

  ghost predicate Ready(k: Stack, n: u16) {
    && n < |k.layer.sessions| && k.layer.sessions[n].state == S.Active
    && var b := k.layer.sessions[n].binding;
       && b.slot < |k.slots| && k.slots[b.slot].open && b.conn < |k.slots[b.slot].conns|
       && k.slots[b.slot].conns[b.conn].state == T.Active && k.slots[b.slot].conns[b.conn].chain == None
  }

  lemma SinceAppend<E>(a: seq<E>, b: seq<E>)
    ensures Since(a, a + b) == b
  {
  }

  lemma ForwardOne(slots: seq<T.Slot>, e: S.Event)
    requires e.SpduSent?
    ensures SessionLayer.Forward(slots, [e]) == T.SendData(slots, e.slot, e.conn, e.spdu).slots
  {
    assert [e][1..] == [];
  }

  // What a send on an active session does to the stack, accepted or not.
  lemma SendOnActive(k: Stack, n: u16, data: seq<byte>)
    requires n < |k.layer.sessions| && k.layer.sessions[n].state == S.Active
    ensures var b := k.layer.sessions[n].binding;
      var spdu := S.DataSpdu(n, data);
      && Send(k, n, data).slots == T.SendData(k.slots, b.slot, b.conn, spdu).slots
      && Send(k, n, data).layer ==
           S.Log(k.layer, S.SpduSent(b.slot, b.conn, spdu, SessionLayer.Accepts(k.slots, b.slot, b.conn)))
  {
    var b := k.layer.sessions[n].binding;
    var e := S.SpduSent(b.slot, b.conn, S.DataSpdu(n, data), SessionLayer.Accepts(k.slots, b.slot, b.conn));
    SinceAppend(k.layer.log, [e]);
    ForwardOne(k.slots, e);
  }

  lemma SendQueues(k: Stack, n: u16, data: seq<byte>)
    requires Ready(k, n)
    ensures var b := k.layer.sessions[n].binding;
      var spdu := S.DataSpdu(n, data);
      && Send(k, n, data).slots == T.SendData(k.slots, b.slot, b.conn, spdu).slots
      && Send(k, n, data).layer == S.Log(k.layer, S.SpduSent(b.slot, b.conn, spdu, true))
  {
    SendOnActive(k, n, data);
  }

  lemma BlocksOfOther(e: T.Event, es: seq<T.Event>)
    requires !e.Delivered?
    ensures Blocks([e] + es) == Blocks(es)
  {
    assert ([e] + es)[1..] == es;
  }

  lemma BlocksOfLast(block: seq<byte>)
    ensures Blocks([T.Delivered(block)]) == [block]
  {
    assert [T.Delivered(block)][1..] == [];
  }

  lemma OneBlock(log: seq<T.Event>, data: seq<byte>)
    ensures Blocks(Since(log, log + Delivery(data))) == [data]
  {
    var last := [T.Delivered(data)];
    var more := [T.Fragment(true, data)] + last;
    BlocksOfLast(data);
    BlocksOfOther(T.Fragment(true, data), last);
    BlocksOfOther(T.Cleared, more);
    BlocksOfOther(T.Got(T.T_DATA_LAST, data), [T.Cleared] + more);
    assert Delivery(data) == [T.Got(T.T_DATA_LAST, data)] + ([T.Cleared] + more);
    SinceAppend(log, Delivery(data));
  }

  lemma UpToCallback(k: Stack, n: u16, data: seq<byte>, env: S.Env)
    requires n < |k.layer.sessions| && k.layer.sessions[n].state == S.Active
    ensures var b := k.layer.sessions[n].binding;
      Up(k, S.DataSpdu(n, data), b.slot, b.conn, env) ==
      Stack(k.layer.(log := k.layer.log + S.ApduEvents(n, b, b.slot, b.conn, S.Apdus(data))), k.slots)
  {
    var b := k.layer.sessions[n].binding;
    SpduOfSession(k.layer, n, data, env.(sendOk := SessionLayer.Accepts(k.slots, b.slot, b.conn)));
    var es := S.ApduEvents(n, b, b.slot, b.conn, S.Apdus(data));
    SinceAppend(k.layer.log, es);
    SessionLayer.ForwardQuiet(k.slots, es);
  }

  // Any data sent on a ready session, up to the size that the length field can
  // express, comes back to that session's callback: one SPDU down, and up one call
  // for each APDU that the data begins with.
  lemma DataComesBack(k: Stack, n: u16, data: seq<byte>, w: nat -> T.Writes, env: S.Env)
    requires Ready(k, n) && 5 + |data| <= 65535
    ensures var b := k.layer.sessions[n].binding;
      Receive(Send(k, n, data), b.slot, b.conn, w, env).layer ==
      k.layer.(log := k.layer.log + [S.SpduSent(b.slot, b.conn, S.DataSpdu(n, data), true)]
                      + S.ApduEvents(n, b, b.slot, b.conn, S.Apdus(data)))
  {
    var b := k.layer.sessions[n].binding;
    SendQueues(k, n, data);
    var slots := QueuedIsDelivered(k, n, data, w, Send(k, n, data));
    UpToCallback(Stack(Send(k, n, data).layer, slots), n, data, env);
    OneUp(Stack(Send(k, n, data).layer, slots), S.DataSpdu(n, data), b.slot, b.conn, env);
  }

  lemma OneUp(k: Stack, block: seq<byte>, slot: byte, conn: byte, env: S.Env)
    ensures UpAll(k, [block], slot, conn, env) == Up(k, block, slot, conn, env)
  {
    assert [block][1..] == [];
  }

  lemma QueuedIsDelivered(k: Stack, n: u16, data: seq<byte>, w: nat -> T.Writes,
                          sent: Stack) returns (slots: seq<T.Slot>)
    requires Ready(k, n) && 5 + |data| <= 65535
    requires var b := k.layer.sessions[n].binding;
      sent.slots == T.SendData(k.slots, b.slot, b.conn, S.DataSpdu(n, data)).slots
    ensures var b := k.layer.sessions[n].binding;
      var c := ConnAt(sent.slots, b.slot, b.conn);
      && b.slot < |sent.slots|
      && slots == T.ProcessData(sent.slots, b.slot, LastQueued(c), w, 0).slots
      && Blocks(Since(c.log, ConnAt(slots, b.slot, b.conn).log)) == [S.DataSpdu(n, data)]
  {
    var b := k.layer.sessions[n].binding;
    var spdu := S.DataSpdu(n, data);
    SentDataIsDelivered(k.slots, b.slot, b.conn, spdu, w);
    var c := ConnAt(sent.slots, b.slot, b.conn);
    assert LastQueued(c) == T.DataMessage(b.conn, spdu);
    slots := T.ProcessData(sent.slots, b.slot, LastQueued(c), w, 0).slots;
    OneBlock(c.log, spdu);
  }

  // So well-formed APDUs come back as exactly those, in order.
  lemma SentApdusComeBack(k: Stack, n: u16, apdus: seq<seq<byte>>, w: nat -> T.Writes, env: S.Env)
    requires Ready(k, n) && 5 + |Flatten(apdus)| <= 65535
    requires forall i :: 0 <= i < |apdus| ==> WellFormedApdu(apdus[i])
    ensures var b := k.layer.sessions[n].binding;
      Receive(Send(k, n, Flatten(apdus)), b.slot, b.conn, w, env).layer ==
      k.layer.(log := k.layer.log + [S.SpduSent(b.slot, b.conn, S.DataSpdu(n, Flatten(apdus)), true)]
                      + S.ApduEvents(n, b, b.slot, b.conn, apdus))
  {
    ApdusOfConcatenation(apdus);
    DataComesBack(k, n, Flatten(apdus), w, env);
  }

  // ---- over the objects ----

  ghost function View(h: SessionLayer.Sessions): Stack
    reads h, h.tl
  {
    Stack(h.View(), h.tl.slots)
  }

  method PassUp(h: SessionLayer.Sessions, block: seq<byte>, slot: byte, conn: byte, env: S.Env)
    modifies h, h.tl
    ensures View(h) == Up(old(View(h)), block, slot, conn, env)
  {
    h.TransportCallback(S.Data, block, slot, conn, env);
  }

  method PassAllUp(h: SessionLayer.Sessions, blocks: seq<seq<byte>>, slot: byte, conn: byte, env: S.Env)
    modifies h, h.tl
    ensures View(h) == UpAll(old(View(h)), blocks, slot, conn, env)
  {
    var k := 0;
    assert blocks[0..] == blocks;
    while k < |blocks|
      invariant 0 <= k <= |blocks|
      invariant UpAll(old(View(h)), blocks, slot, conn, env) == UpAll(View(h), blocks[k..], slot, conn, env)
    {
      assert blocks[k..][1..] == blocks[k + 1..];
      PassUp(h, blocks[k], slot, conn, env);
      k := k + 1;
    }
  }

  method SendDown(h: SessionLayer.Sessions, n: u16, data: seq<byte>)
    requires n < |h.sessions|
    modifies h, h.tl
    ensures View(h) == Send(old(View(h)), n, data)
  {
    ghost var k := View(h);
    var r := h.SendSessionData(n, data);
    if k.layer.sessions[n].state == S.Active {
      SendOnActive(k, n, data);
    } else {
      SinceAppend(k.layer.log, []);
      assert k.layer.log + [] == k.layer.log;
    }
  }

  method ComeUp(h: SessionLayer.Sessions, slot: byte, conn: byte, w: nat -> T.Writes, env: S.Env)
    requires slot < |h.tl.slots| && conn < |h.tl.slots[slot].conns|
    modifies h, h.tl
    ensures View(h) == Receive(old(View(h)), slot, conn, w, env)
  {
    var c := h.tl.slots[slot].conns[conn];
    var r := h.tl.ProcessReceived(slot, LastQueued(c), w);
    var blocks := Blocks(Since(c.log, ConnAt(h.tl.slots, slot, conn).log));
    PassAllUp(h, blocks, slot, conn, env);
  }

  // Both directions on the objects themselves: what the session object sends, its
  // own transport object hands back to the callback of that session.
  method RoundTrip(h: SessionLayer.Sessions, n: u16, apdus: seq<seq<byte>>, w: nat -> T.Writes, env: S.Env)
    requires Ready(View(h), n) && 5 + |Flatten(apdus)| <= 65535
    requires forall i :: 0 <= i < |apdus| ==> WellFormedApdu(apdus[i])
    modifies h, h.tl
    ensures h.sessions == old(h.sessions)
    ensures var b := old(h.sessions)[n].binding;
      h.log == old(h.log) + [S.SpduSent(b.slot, b.conn, S.DataSpdu(n, Flatten(apdus)), true)]
               + S.ApduEvents(n, b, b.slot, b.conn, apdus)
  {
    var b := h.sessions[n].binding;
    SendQueues(View(h), n, Flatten(apdus));
    SentApdusComeBack(View(h), n, apdus, w, env);
    SendDown(h, n, Flatten(apdus));
    ComeUp(h, b.slot, b.conn, w, env);
  }

  // en50221_tl_destroy_slot with its callback: afterwards no live session is on the
  // slot, and the sessions of other slots are as they were.
  method CloseSlot(h: SessionLayer.Sessions, s: byte, env: S.Env)
    modifies h, h.tl
    ensures s >= |old(h.tl.slots)| ==> View(h) == old(View(h))
    ensures s < |old(h.tl.slots)| ==>
      && h.tl.slots == T.DestroySlot(old(h.tl.slots), s)
      && |h.sessions| == |old(h.sessions)|
      && forall n :: 0 <= n < |h.sessions| ==>
        h.sessions[n] == S.EndOne(old(h.sessions)[n], S.SlotClose, s, 0)
  {
    var upcall := h.tl.DestroySlotAt(s);
    if upcall {
      ghost var l := h.View();
      h.HandleClose(S.SlotClose, s, 0, env);
    }
  }
}
