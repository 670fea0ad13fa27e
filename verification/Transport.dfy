// The EN 50221 transport layer (en50221_transport.c) as a state machine: what
// every API call, received TPDU and poll visit does to the connections of a slot.
// Each connection carries a log of what it accepted, sent, received and passed
// upward; link writes and timers are inputs.
module Transport {
  import opened Bytes
  import Asn1

  // Transport tags, Annex A.4.1.13 of EN 50221.
  const T_T_C_ERROR: byte := 0x77
  const T_SB: byte := 0x80
  const T_RCV: byte := 0x81
  const T_CREATE_T_C: byte := 0x82
  const T_C_T_C_REPLY: byte := 0x83
  const T_DELETE_T_C: byte := 0x84
  const T_D_T_C_REPLY: byte := 0x85
  const T_REQUEST_T_C: byte := 0x86
  const T_NEW_T_C: byte := 0x87
  const T_DATA_LAST: byte := 0xA0
  const T_DATA_MORE: byte := 0xA1

  type Msg = seq<byte>

  datatype ConnState = Idle | Active | ActiveDeleteQueued | InCreation | InDeletion

  datatype Event =
    | Created                     // the connection number was allocated
    | Accepted(msg: Msg)          // queue_message took a message
    | Sent(msg: Msg)              // a queued message was written to the link
    | Lost(msg: Msg)              // a queued message was freed after a failed write
    | Dropped(msg: Msg)           // a queued message was freed with its slot
    | Polled(msg: Msg)            // an empty poll was written to the link
    | Wrote(msg: Msg, ok: bool)   // any other write on its behalf, and its outcome
    | Cleared                     // tx_time was cleared
    | Fragment(last: bool, data: seq<byte>)  // T_DATA_MORE or T_DATA_LAST was accepted
    | Delivered(block: seq<byte>) // T_CALLBACK_REASON_DATA
    | Opened                      // T_CALLBACK_REASON_CONNECTIONOPEN
    | CamOpened                   // T_CALLBACK_REASON_CAMCONNECTIONOPEN
    | Closed                      // T_CALLBACK_REASON_CONNECTIONCLOSE
    | Got(tag: byte, body: seq<byte>)  // a TPDU for it arrived
    | Looked(v: Visit)            // en50221_tl_poll came to it, and what link and clock then did
    | TimedOut                    // the response timeout had passed
    | Withdrawn                   // a connection in creation was given up
    | SlotClosed                  // its slot was destroyed
    | Reported(error: Error)      // an error was reported on its account

  datatype Conn = Conn(
    state: ConnState,
    waiting: bool,                // tx_time is set
    chain: Option<seq<byte>>,     // chain_buffer and buffer_length
    queue: seq<Msg>,              // send_queue
    log: seq<Event>)
  {
    function ChainBytes(): seq<byte> {
      if chain.Some? then chain.value else []
    }
  }

  // open: ca_hndl is not -1.
  datatype Slot = Slot(open: bool, conns: seq<Conn>)

  datatype Error =
    | CaRead | CaWrite | Timeout | BadSlotId | BadConnectionId | BadState | BadCamData
    | OutOfConnections | OutOfSlots

  datatype Result = Done(id: nat) | Fail(error: Error)

  datatype ConnStep = ConnStep(conn: Conn, result: Result)

  datatype Step = Step(slots: seq<Slot>, result: Result)

  const FRESH := Conn(Idle, false, None, [], [])

  predicate IsDelete(m: Msg) { m != [] && m[0] == T_DELETE_T_C }

  // ---- one connection ----

  function Enqueue(c: Conn, m: Msg): Conn {
    c.(queue := c.queue + [m], log := c.log + [Accepted(m)])
  }

  function Allocate(c: Conn): Conn {
    c.(state := InCreation, chain := None, log := c.log + [Created])
  }

  // en50221_tl_handle_create_tc_reply
  function OnCreateReply(c: Conn): ConnStep {
    if c.state == InCreation then
      ConnStep(c.(state := Active, waiting := false, log := c.log + [Cleared, Opened]), Done(0))
    else Refuse(c)
  }

  function Refuse(c: Conn): ConnStep {
    ConnStep(Say(c, Reported(BadCamData)), Fail(BadCamData))
  }

  function Say(c: Conn, e: Event): Conn {
    c.(log := c.log + [e])
  }

  // A message of a tag and a connection number.
  function Short(tag: byte, i: nat): Msg { [tag, 1, i % 256] }

  // en50221_tl_handle_delete_tc
  function OnDelete(c: Conn, i: nat, writeOk: bool): ConnStep {
    if c.state == Active || c.state == InDeletion then
      var d := Say(c.(state := Idle, chain := None), Wrote(Short(T_D_T_C_REPLY, i), writeOk));
      if writeOk then ConnStep(Say(d, Closed), Done(0)) else ConnStep(Say(d, Reported(CaWrite)), Fail(CaWrite))
    else Refuse(c)
  }

  // en50221_tl_handle_delete_tc_reply
  function OnDeleteReply(c: Conn): ConnStep {
    if c.state == InDeletion then ConnStep(c.(state := Idle), Done(0)) else Refuse(c)
  }

  // en50221_tl_handle_data_more
  function OnMore(c: Conn, data: seq<byte>): ConnStep {
    if c.state == Active then
      ConnStep(c.(waiting := false, chain := Some(c.ChainBytes() + data),
                  log := c.log + [Cleared, Fragment(false, data)]), Done(0))
    else Refuse(c)
  }

  // en50221_tl_handle_data_last
  function OnLast(c: Conn, data: seq<byte>): ConnStep {
    if c.state == Active then
      var up := if data == [] then [] else [Delivered(c.ChainBytes() + data)];
      ConnStep(c.(waiting := false, chain := None,
                  log := c.log + [Cleared, Fragment(true, data)] + up), Done(0))
    else Refuse(c)
  }

  // en50221_tl_handle_sb
  function OnStatus(c: Conn, i: nat, data: seq<byte>, writeOk: bool): ConnStep {
    if c.state != Active || |data| != 1 then Refuse(c)
    else if data[0] >= 0x80 then
      var d := Say(c, Wrote(Short(T_RCV, i), writeOk));
      if writeOk then ConnStep(d.(waiting := true), Done(0)) else ConnStep(Say(d, Reported(CaWrite)), Fail(CaWrite))
    else ConnStep(c.(waiting := false, log := c.log + [Cleared]), Done(0))
  }

  // What the link and the clock do during one poll visit. A visit writes at
  // most once, because a successful send leaves the connection waiting.
  datatype Visit = Visit(writeOk: bool, pollDue: bool, timedOut: bool)

  predicate MaySend(c: Conn) {
    (c.state == InCreation || c.state == Active || c.state == ActiveDeleteQueued) && c.queue != [] && !c.waiting
  }

  function SendHead(c: Conn, writeOk: bool): ConnStep
    requires c.queue != []
  {
    var m := c.queue[0];
    var d := c.(queue := c.queue[1..]);
    if !writeOk then ConnStep(d.(log := d.log + [Lost(m), Reported(CaWrite)]), Fail(CaWrite))
    else
      var e := d.(waiting := true, log := d.log + [Sent(m)]);
      ConnStep(if IsDelete(m) then e.(state := InDeletion, chain := None) else e, Done(0))
  }

  // en50221_tl_poll_tc, when the poll is due
  function PollIfDue(c: Conn, i: nat, v: Visit): ConnStep {
    if c.state == Active && !c.waiting && v.pollDue then
      var d := c.(waiting := true);
      var poll := Short(T_DATA_LAST, i);
      if v.writeOk then ConnStep(Say(d, Polled(poll)), Done(0))
      else ConnStep(d.(log := d.log + [Wrote(poll, false), Reported(CaWrite)]), Fail(CaWrite))
    else ConnStep(c, Done(0))
  }

  function CheckTimeout(c: Conn, v: Visit): ConnStep {
    if c.waiting && v.timedOut then
      var d := Say(c, TimedOut);
      if c.state == InCreation || c.state == InDeletion then ConnStep(d.(state := Idle), Done(0))
      else if c.state == Active || c.state == ActiveDeleteQueued then ConnStep(Say(d, Reported(Timeout)), Fail(Timeout))
      else ConnStep(d, Done(0))
    else ConnStep(c, Done(0))
  }

  // The body of the connection loop of en50221_tl_poll.
  function OnVisit(c: Conn, i: nat, v: Visit): ConnStep {
    if c.state == Idle then ConnStep(c, Done(0)) else Serve(Say(c, Looked(v)), i, v)
  }

  function Serve(c: Conn, i: nat, v: Visit): ConnStep {
    var s := if MaySend(c) then SendHead(c, v.writeOk) else ConnStep(c, Done(0));
    if s.result.Fail? then s else PollAndCheck(s.conn, i, v)
  }

  function PollAndCheck(c: Conn, i: nat, v: Visit): ConnStep {
    var p := PollIfDue(c, i, v);
    if p.result.Fail? then p else CheckTimeout(p.conn, v)
  }

  // ---- slots ----

  function Put(slots: seq<Slot>, s: nat, i: nat, c: Conn): seq<Slot>
    requires s < |slots| && i < |slots[s].conns|
  {
    slots[s := slots[s].(conns := slots[s].conns[i := c])]
  }

  lemma PutTwice(slots: seq<Slot>, s: nat, i: nat, c: Conn, d: Conn)
    requires s < |slots| && i < |slots[s].conns|
    ensures Put(Put(slots, s, i, c), s, i, d) == Put(slots, s, i, d)
  {
    assert slots[s].conns[i := c][i := d] == slots[s].conns[i := d];
    assert Put(Put(slots, s, i, c), s, i, d) == Put(slots, s, i, d);
  }

  // The first idle connection from number i on: the search of en50221_tl_alloc_new_tc.
  function FirstIdle(conns: seq<Conn>, i: nat): (r: Option<nat>)
    ensures r.Some? ==> i <= r.value < |conns| && conns[r.value].state == Idle
    ensures r.Some? ==> forall j :: i <= j < r.value ==> conns[j].state != Idle
    ensures r.None? ==> forall j :: i <= j < |conns| ==> conns[j].state != Idle
    decreases |conns| - i
  {
    if i >= |conns| then None
    else if conns[i].state == Idle then Some(i)
    else FirstIdle(conns, i + 1)
  }

  function FirstClosed(slots: seq<Slot>, s: nat): (r: Option<nat>)
    ensures r.Some? ==> s <= r.value < |slots| && !slots[r.value].open
    decreases |slots| - s
  {
    if s >= |slots| then None else if !slots[s].open then Some(s) else FirstClosed(slots, s + 1)
  }

  // en50221_tl_register_slot
  function Register(slots: seq<Slot>): Step {
    match FirstClosed(slots, 0)
    case None => Step(slots, Fail(OutOfSlots))
    case Some(s) => Step(slots[s := slots[s].(open := true)], Done(s))
  }

  function DroppedAll(queue: seq<Msg>): (es: seq<Event>)
    ensures |es| == |queue|
    ensures forall i :: 0 <= i < |queue| ==> es[i] == Dropped(queue[i])
  {
    seq(|queue|, i requires 0 <= i < |queue| => Dropped(queue[i]))
  }

  function Discard(c: Conn): Conn {
    Conn(Idle, false, None, [], c.log + [SlotClosed, Cleared] + DroppedAll(c.queue))
  }

  // en50221_tl_destroy_slot
  function DestroySlot(slots: seq<Slot>, s: nat): seq<Slot> {
    if s >= |slots| then slots
    else
      var conns := slots[s].conns;
      slots[s := Slot(false, seq(|conns|, i requires 0 <= i < |conns| => Discard(conns[i])))]
  }

  // The T_DATA_LAST message that carries data; its length field is 16 bits wide.
  function DataMessage(conn: byte, data: seq<byte>): Msg {
    [T_DATA_LAST] + Asn1.Field((|data| + 1) % 0x1_0000) + [conn] + data
  }

  // en50221_tl_send_data, and en50221_tl_send_datav on the joined vector
  function SendData(slots: seq<Slot>, s: byte, i: byte, data: seq<byte>): Step {
    if s >= |slots| || !slots[s].open then Step(slots, Fail(BadSlotId))
    else if i >= |slots[s].conns| || slots[s].conns[i].state != Active then Step(slots, Fail(BadConnectionId))
    else Step(Put(slots, s, i, Enqueue(slots[s].conns[i], DataMessage(i, data))), Done(0))
  }

  // en50221_tl_new_tc
  function NewTc(slots: seq<Slot>, s: byte): Step {
    if s >= |slots| || !slots[s].open then Step(slots, Fail(BadSlotId))
    else
      match FirstIdle(slots[s].conns, 1)
      case None => Step(slots, Fail(OutOfConnections))
      case Some(i) =>
        Step(Put(slots, s, i, Enqueue(Allocate(slots[s].conns[i]), [T_CREATE_T_C, 1, i % 256])), Done(i))
  }

  // en50221_tl_del_tc
  function DelTc(slots: seq<Slot>, s: byte, i: byte): Step {
    if s >= |slots| || !slots[s].open then Step(slots, Fail(BadSlotId))
    else if i >= |slots[s].conns| then Step(slots, Fail(BadConnectionId))
    else
      var c := slots[s].conns[i];
      if c.state != Active && c.state != InDeletion then Step(slots, Fail(BadState))
      else Step(Put(slots, s, i, Enqueue(c, [T_DELETE_T_C, 1, i]).(state := ActiveDeleteQueued)), Done(0))
  }

  datatype Tpdu = Tpdu(tag: byte, conn: byte, body: seq<byte>)

  // The outcomes of the link writes that one TPDU may cause.
  datatype Writes = Writes(first: bool, second: bool)

  datatype SlotStep = SlotStep(conns: seq<Conn>, result: Result)

  // en50221_tl_handle_request_tc, over the connections of the slot
  function OnRequest(conns: seq<Conn>, i: byte, w: Writes): (r: SlotStep)
    requires i < |conns|
    ensures |r.conns| == |conns|
  {
    match FirstIdle(conns, 1)
    case None =>
      SlotStep(conns[i := Replied(conns[i], [T_T_C_ERROR, 2, i, 1], w.first)], Outcome(w.first))
    case Some(n) => Grant(conns, i, n, w)
  }

  // The answer when connection n is free for it.
  function Grant(conns: seq<Conn>, i: byte, n: nat, w: Writes): (r: SlotStep)
    requires i < |conns| && n < |conns|
    ensures |r.conns| == |conns|
  {
    var taken := conns[n := Allocate(conns[n])];
    var replied := taken[i := Replied(taken[i], [T_NEW_T_C, 2, i, n % 256], w.first)];
    var c := if w.first then AskToOpen(replied[n], n, w.second) else Withdraw(replied[n]);
    SlotStep(replied[n := c], Outcome(w.first && w.second))
  }

  function Outcome(ok: bool): Result { if ok then Done(0) else Fail(CaWrite) }

  // The connection that the request came on, with its answer written.
  function Replied(c: Conn, msg: Msg, ok: bool): Conn {
    var d := Say(c, Wrote(msg, ok));
    if ok then Clear(d) else Say(d, Reported(CaWrite))
  }

  // The new connection, with its T_CREATE_T_C written.
  function AskToOpen(c: Conn, n: nat, ok: bool): Conn {
    var d := Say(c, Wrote(Short(T_CREATE_T_C, n), ok));
    if ok then CamOpen(d) else Say(Withdraw(d), Reported(CaWrite))
  }

  function Withdraw(c: Conn): Conn {
    c.(state := Idle, log := c.log + [Withdrawn])
  }

  function CamOpen(c: Conn): Conn {
    c.(waiting := true, log := c.log + [CamOpened])
  }

  function Clear(c: Conn): Conn {
    c.(waiting := false, log := c.log + [Cleared])
  }

  // What a TPDU other than T_REQUEST_T_C does to the connection it names.
  function OnConnTpdu(c: Conn, i: nat, tag: byte, body: seq<byte>, w: Writes): ConnStep {
    if tag == T_C_T_C_REPLY then OnCreateReply(c)
    else if tag == T_DELETE_T_C then OnDelete(c, i, w.first)
    else if tag == T_D_T_C_REPLY then OnDeleteReply(c)
    else if tag == T_DATA_MORE then OnMore(c, body)
    else if tag == T_DATA_LAST then OnLast(c, body)
    else if tag == T_SB then OnStatus(c, i, body, w.first)
    else Refuse(c)
  }

  // One round of en50221_tl_process_data, after the header has been parsed.
  function OnTpdu(slots: seq<Slot>, s: nat, t: Tpdu, w: Writes): Step
    requires s < |slots|
  {
    if t.conn >= |slots[s].conns| then Step(slots, Fail(BadConnectionId))
    else Handle(Put(slots, s, t.conn, Say(slots[s].conns[t.conn], Got(t.tag, t.body))), s, t, w)
  }

  // Its switch on the tag.
  function Handle(slots: seq<Slot>, s: nat, t: Tpdu, w: Writes): Step
    requires s < |slots| && t.conn < |slots[s].conns|
  {
    if t.tag == T_REQUEST_T_C then
      var r := OnRequest(slots[s].conns, t.conn, w);
      Step(slots[s := slots[s].(conns := r.conns)], r.result)
    else
      var r := OnConnTpdu(slots[s].conns[t.conn], t.conn, t.tag, t.body, w);
      Step(Put(slots, s, t.conn, r.conn), r.result)
  }

  datatype Parsed = Garbage | Parsed(tpdu: Tpdu, used: nat)

  // The TPDU header at the front of data.
  function ParseTpdu(data: seq<byte>): (p: Parsed)
    requires data != []
    ensures p.Parsed? ==> 1 < p.used <= |data|
  {
    var d := Asn1.Decode(data[1..]);
    if d.Bad? || d.value < 1 || d.value > |data| - (1 + d.used) then Garbage
    else
      var end := 1 + d.used + d.value;
      Parsed(Tpdu(data[0], data[1 + d.used], data[2 + d.used..end]), end)
  }

  // en50221_tl_process_data: w(k) is what the link does for the k-th TPDU.
  function ProcessData(slots: seq<Slot>, s: nat, data: seq<byte>, w: nat -> Writes, k: nat): Step
    requires s < |slots|
    decreases |data|
  {
    if data == [] then Step(slots, Done(0))
    else
      var p := ParseTpdu(data);
      if p.Garbage? then Step(slots, Fail(BadCamData))
      else
        var r := OnTpdu(slots, s, p.tpdu, w(k));
        OnTpduKeepsShape(slots, s, p.tpdu, w(k));
        if r.result.Fail? then r else ProcessData(r.slots, s, data[p.used..], w, k + 1)
  }

  lemma ProcessDataStep(slots: seq<Slot>, s: nat, data: seq<byte>, w: nat -> Writes, k: nat)
    requires s < |slots| && data != [] && ParseTpdu(data).Parsed?
    ensures var p := ParseTpdu(data);
      var r := OnTpdu(slots, s, p.tpdu, w(k));
      |r.slots| == |slots| &&
      ProcessData(slots, s, data, w, k) ==
        if r.result.Fail? then r else ProcessData(r.slots, s, data[p.used..], w, k + 1)
  {
    OnTpduKeepsShape(slots, s, ParseTpdu(data).tpdu, w(k));
  }

  ghost predicate SameShape(a: seq<Slot>, b: seq<Slot>) {
    |a| == |b| && forall s :: 0 <= s < |a| ==> |a[s].conns| == |b[s].conns|
  }

  lemma OnTpduKeepsShape(slots: seq<Slot>, s: nat, t: Tpdu, w: Writes)
    requires s < |slots|
    ensures SameShape(slots, OnTpdu(slots, s, t, w).slots)
  {
  }

  // The connection loop of en50221_tl_poll over one slot, from connection j on;
  // v(j) is what the link and the clock do at connection j.
  function VisitAll(slots: seq<Slot>, s: nat, v: nat -> Visit, j: nat): Step
    requires s < |slots|
    decreases |slots[s].conns| - j
  {
    if j >= |slots[s].conns| then Step(slots, Done(0))
    else
      var r := OnVisit(slots[s].conns[j], j, v(j));
      var next := Put(slots, s, j, r.conn);
      if r.result.Fail? then Step(next, r.result) else VisitAll(next, s, v, j + 1)
  }

  // ---- runs ----

  datatype Input =
    | RegisterSlotCall
    | DestroySlotCall(slot: byte)
    | SendDataCall(slot: byte, conn: byte, data: seq<byte>)
    | NewTcCall(slot: byte)
    | DelTcCall(slot: byte, conn: byte)
    | Received(at: nat, tpdu: Tpdu, w: Writes)
    | Visited(at: nat, number: nat, v: Visit)

  function Apply(slots: seq<Slot>, input: Input): Step {
    match input
    case RegisterSlotCall => Register(slots)
    case DestroySlotCall(s) => Step(DestroySlot(slots, s), Done(0))
    case SendDataCall(s, i, data) => SendData(slots, s, i, data)
    case NewTcCall(s) => NewTc(slots, s)
    case DelTcCall(s, i) => DelTc(slots, s, i)
    case Received(s, t, w) =>
      if s < |slots| && slots[s].open then OnTpdu(slots, s, t, w) else Step(slots, Done(0))
    case Visited(s, i, v) =>
      if s < |slots| && slots[s].open && i < |slots[s].conns| then
        var r := OnVisit(slots[s].conns[i], i, v);
        Step(Put(slots, s, i, r.conn), r.result)
      else Step(slots, Done(0))
  }

  function Run(slots: seq<Slot>, inputs: seq<Input>): seq<Slot>
    decreases |inputs|
  {
    if inputs == [] then slots else Run(Apply(slots, inputs[0]).slots, inputs[1..])
  }

  // en50221_tl_create
  function Initial(maxSlots: byte, maxConns: byte): seq<Slot> {
    seq(maxSlots, _ => Slot(false, seq(maxConns, _ => FRESH)))
  }
}
