// The EN 50221 session layer (en50221_session.c) as a state machine. Handlers
// are atomic; what the transport layer, the lookup callback and the session
// callback answer are inputs, and everything the layer says is logged.
module SessionMachine {
  import opened Bytes
  import Asn1

  const ST_SESSION_NUMBER: byte := 0x90
  const ST_OPEN_SESSION_REQ: byte := 0x91
  const ST_OPEN_SESSION_RES: byte := 0x92
  const ST_CREATE_SESSION: byte := 0x93
  const ST_CREATE_SESSION_RES: byte := 0x94
  const ST_CLOSE_SESSION_REQ: byte := 0x95
  const ST_CLOSE_SESSION_RES: byte := 0x96

  const S_STATUS_OPEN := 0x00
  const S_STATUS_CLOSE_NO_RES := 0xF0
  const S_STATUS_CLOSE_RES_UNAVAILABLE := 0xF1
  const S_STATUS_CLOSE_RES_LOW_VERSION := 0xF2
  const S_STATUS_CLOSE_RES_BUSY := 0xF3

  datatype State = Idle | Active | InCreation | InDeletion

  // callback: the resource callback, or None for a null pointer.
  datatype Binding = Binding(resource: nat, slot: byte, conn: byte, callback: Option<nat>)

  datatype Session = Session(state: State, binding: Binding)

  datatype Event =
    | Allocated(n: nat, binding: Binding)
    | Apdu(n: nat, callback: nat, slot: byte, conn: byte, resource: nat, apdu: seq<byte>)
    | Close(n: nat, slot: byte, resource: nat)            // S_SCALLBACK_REASON_CLOSE
    | CamConnecting(n: nat, slot: byte, resource: nat)
    | CamConnected(n: nat, slot: byte, resource: nat)
    | CamConnectFail(n: nat, slot: byte, resource: nat)
    | Connected(n: nat, slot: byte, resource: nat)
    | ConnectFail(n: nat, slot: byte, resource: nat)
    | TcConnect(slot: byte, conn: byte)
    | TcCamConnect(slot: byte, conn: byte)
    | LookedUp(slot: byte, resource: nat)                 // the lookup callback was asked
    | SpduSent(slot: byte, conn: byte, spdu: seq<byte>, ok: bool)

  datatype Layer = Layer(sessions: seq<Session>, log: seq<Event>)

  datatype Result = Done(n: nat) | BadSessionNumber | OutOfSessions | IovLimit | TransportError

  datatype Step = Step(layer: Layer, result: Result)

  function SetState(l: Layer, n: nat, state: State): Layer
    requires n < |l.sessions|
  {
    l.(sessions := l.sessions[n := l.sessions[n].(state := state)])
  }

  function Log(l: Layer, e: Event): Layer { l.(log := l.log + [e]) }

  function FirstIdle(sessions: seq<Session>, i: nat): (r: Option<nat>)
    ensures r.Some? ==> i <= r.value < |sessions| && sessions[r.value].state == Idle
    ensures r.None? ==> forall j :: i <= j < |sessions| ==> sessions[j].state != Idle
    decreases |sessions| - i
  {
    if i >= |sessions| then None
    else if sessions[i].state == Idle then Some(i)
    else FirstIdle(sessions, i + 1)
  }

  // en50221_sl_alloc_new_session, once the number is found
  function Allocate(l: Layer, n: nat, b: Binding): Layer
    requires n < |l.sessions|
  {
    Layer(l.sessions[n := Session(InCreation, b)], l.log + [Allocated(n, b)])
  }

  function Number(n: int): seq<byte> {
    [n / 256 % 256, n % 256]
  }

  function ResourceId(r: nat): seq<byte> {
    [r / 0x100_0000 % 256, r / 0x1_0000 % 256, r / 256 % 256, r % 256]
  }

  // ---- calls from above ----

  // en50221_sl_create_session; the slot id is narrowed to a byte.
  function CreateSession(l: Layer, slot: int, conn: byte, resource: nat, callback: Option<nat>, sendOk: bool): Step {
    match FirstIdle(l.sessions, 1)
    case None => Step(l, OutOfSessions)
    case Some(n) =>
      var spdu := [ST_CREATE_SESSION, 6] + ResourceId(resource) + Number(n);
      var sent := Log(Allocate(l, n, Binding(resource, slot % 256, conn, callback)), SpduSent(slot % 256, conn, spdu, sendOk));
      if sendOk then Step(sent, Done(n)) else Step(SetState(sent, n, Idle), TransportError)
  }

  // en50221_sl_destroy_session
  function DestroySession(l: Layer, n: u16, sendOk: bool): Step {
    if n >= |l.sessions| || (l.sessions[n].state != Active && l.sessions[n].state != InDeletion) then
      Step(l, BadSessionNumber)
    else
      var b := l.sessions[n].binding;
      var sent := Log(SetState(l, n, InDeletion), SpduSent(b.slot, b.conn, [ST_CLOSE_SESSION_REQ, 2] + Number(n), sendOk));
      if sendOk then Step(sent, Done(n)) else Step(SetState(sent, n, Idle), TransportError)
  }

  function DataSpdu(n: u16, data: seq<byte>): seq<byte> {
    [ST_SESSION_NUMBER, 2] + Number(n) + data
  }

  // en50221_sl_send_data, and en50221_sl_send_datav on the joined vector
  function SendData(l: Layer, n: u16, data: seq<byte>, sendOk: bool): Step {
    if n >= |l.sessions| || l.sessions[n].state != Active then Step(l, BadSessionNumber)
    else
      var b := l.sessions[n].binding;
      Step(Log(l, SpduSent(b.slot, b.conn, DataSpdu(n, data), sendOk)), if sendOk then Done(n) else TransportError)
  }

  // ---- calls from the transport layer ----

  // What the world answers: the lookup callback's return code (None when no
  // callback is registered) with the resource callback and resource id it set,
  // whether the session callback refuses a connecting session (None when no
  // callback is registered), and whether the transport layer accepts the reply.
  datatype Env = Env(lookup: Option<int>, callback: Option<nat>, resource: nat, refuses: Option<bool>, sendOk: bool)

  function LookupStatus(code: Option<int>): int {
    match code
    case None => S_STATUS_CLOSE_NO_RES
    case Some(c) =>
      if c == 0 then S_STATUS_OPEN
      else if c == -1 then S_STATUS_CLOSE_NO_RES
      else if c == -2 then S_STATUS_CLOSE_RES_LOW_VERSION
      else if c == -3 then S_STATUS_CLOSE_RES_UNAVAILABLE
      else c
  }

  function OpenResponse(status: int, resource: nat, number: int): seq<byte> {
    [ST_OPEN_SESSION_RES, 7, status % 256] + ResourceId(resource) + Number(number)
  }

  function Be32(a: byte, b: byte, c: byte, d: byte): nat { a * 0x100_0000 + b * 0x1_0000 + c * 256 + d }

  // en50221_sl_handle_open_session_request
  function OnOpenRequest(l: Layer, data: seq<byte>, slot: byte, conn: byte, env: Env): Layer {
    if |data| < 5 || data[0] != 4 then l
    else
      var asked := LookedUp(slot, Be32(data[1], data[2], data[3], data[4]));
      Answer(if env.lookup.Some? then Log(l, asked) else l, slot, conn, env)
  }

  // The same, once the lookup callback has been asked.
  function Answer(l: Layer, slot: byte, conn: byte, env: Env): Layer {
    var status := LookupStatus(env.lookup);
    if status != S_STATUS_OPEN then
      Log(l, SpduSent(slot, conn, OpenResponse(status, env.resource, -1), env.sendOk))
    else
      match FirstIdle(l.sessions, 1)
      case None =>
        Log(l, SpduSent(slot, conn, OpenResponse(S_STATUS_CLOSE_NO_RES, env.resource, -1), env.sendOk))
      case Some(n) => Connect(Allocate(l, n, Binding(env.resource, slot, conn, env.callback)), n, slot, conn, env)
  }

  // And once session n has been allocated for it.
  function Connect(l: Layer, n: nat, slot: byte, conn: byte, env: Env): Layer
    requires n < |l.sessions|
  {
    var asked := if env.refuses.Some? then Log(l, CamConnecting(n, slot, env.resource)) else l;
    var answer :=
      if env.refuses.None? then S_STATUS_CLOSE_RES_UNAVAILABLE
      else if env.refuses.value then S_STATUS_CLOSE_RES_BUSY
      else S_STATUS_OPEN;
    var sent := Log(asked, SpduSent(slot, conn, OpenResponse(answer, env.resource, n), env.sendOk));
    var final := if env.sendOk then answer else S_STATUS_CLOSE_NO_RES;
    Report(SetState(sent, n, if final != S_STATUS_OPEN then Idle else Active), n, final, slot, env)
  }

  // What the upper layers are told at the end of an open_session_request.
  function Report(l: Layer, n: nat, status: int, slot: byte, env: Env): Layer
    requires n < |l.sessions|
  {
    if l.sessions[n].state != Active then l
    else if status == S_STATUS_OPEN then
      if env.refuses.Some? then Log(l, CamConnected(n, slot, env.resource)) else l
    else
      var idle := SetState(l, n, Idle);
      if env.refuses.Some? then Log(idle, CamConnectFail(n, slot, env.resource)) else idle
  }

  predicate BoundTo(s: Session, slot: byte, conn: byte) {
    s.binding.slot == slot && s.binding.conn == conn
  }

  // en50221_sl_handle_close_session_request
  function OnCloseRequest(l: Layer, data: seq<byte>, slot: byte, conn: byte, env: Env): Layer {
    if |data| < 3 || data[0] != 2 then l
    else
      var n := Be16(data[1], data[2]);
      var ok := n < |l.sessions| && BoundTo(l.sessions[n], slot, conn) &&
                (l.sessions[n].state == Active || l.sessions[n].state == InDeletion);
      var reply := SpduSent(slot, conn, [ST_CLOSE_SESSION_RES, 3, if ok then 0x00 else 0xF0] + Number(n), env.sendOk);
      if !ok then Log(l, reply)
      else
        var closed := Log(SetState(l, n, Idle), reply);
        if env.refuses.Some? then Log(closed, Close(n, slot, l.sessions[n].binding.resource)) else closed
  }

  // en50221_sl_handle_create_session_response
  function OnCreateResponse(l: Layer, data: seq<byte>, slot: byte, conn: byte, env: Env): Layer {
    if |data| < 8 || data[0] != 7 then l
    else
      var n := Be16(data[5], data[6]);
      if n >= |l.sessions| || !BoundTo(l.sessions[n], slot, conn) || l.sessions[n].state != InCreation then l
      else
        var resource := l.sessions[n].binding.resource;
        if data[1] != S_STATUS_OPEN then
          var failed := SetState(l, n, Idle);
          if env.refuses.Some? then Log(failed, ConnectFail(n, slot, resource)) else failed
        else
          var active := SetState(l, n, Active);
          if env.refuses.Some? then Log(active, Connected(n, slot, resource)) else active
  }

  // en50221_sl_handle_close_session_response
  function OnCloseResponse(l: Layer, data: seq<byte>, slot: byte, conn: byte): Layer {
    if |data| < 5 || data[0] != 4 then l
    else
      var n := Be16(data[2], data[3]);
      if n >= |l.sessions| || !BoundTo(l.sessions[n], slot, conn) || l.sessions[n].state != InDeletion then l
      else SetState(l, n, Idle)
  }

  // The APDUs at the front of a session package, up to the first that is cut
  // short or has a bad length field.
  function Apdus(d: seq<byte>): seq<seq<byte>>
    decreases |d|
  {
    if |d| < 3 then []
    else
      var f := Asn1.Decode(d[3..]);
      if f.Bad? || 3 + f.used + f.value > |d| then []
      else
        var n := 3 + f.used + f.value;
        [d[..n]] + Apdus(d[n..])
  }

  // The upcalls for APDUs that arrived on a slot and connection.
  function ApduEvents(n: nat, b: Binding, slot: byte, conn: byte, apdus: seq<seq<byte>>): seq<Event> {
    if b.callback.None? then []
    else seq(|apdus|, i requires 0 <= i < |apdus| =>
           Apdu(n, b.callback.value, slot, conn, b.resource, apdus[i]))
  }

  // en50221_sl_handle_session_package
  function OnSessionPackage(l: Layer, data: seq<byte>, slot: byte, conn: byte): Layer {
    if |data| < 3 || data[0] != 2 then l
    else
      var n := Be16(data[1], data[2]);
      if n >= |l.sessions| || !BoundTo(l.sessions[n], slot, conn) || l.sessions[n].state != Active then l
      else l.(log := l.log + ApduEvents(n, l.sessions[n].binding, slot, conn, Apdus(data[3..])))
  }

  datatype Reason = Data | ConnectionOpen | CamConnectionOpen | ConnectionClose | SlotClose

  // Does the closing of (slot, conn) for this reason end session s?
  predicate Ends(s: Session, reason: Reason, slot: byte, conn: byte) {
    s.state != Idle &&
    (if reason == ConnectionClose then s.binding.conn == conn else s.binding.slot == slot)
  }

  function EndOne(s: Session, reason: Reason, slot: byte, conn: byte): Session {
    if Ends(s, reason, slot, conn) then s.(state := Idle) else s
  }

  // The CLOSE callbacks of one closing, in order of session number.
  function Closings(sessions: seq<Session>, reason: Reason, slot: byte, conn: byte, i: nat): seq<Event>
    decreases |sessions| - i
  {
    if i >= |sessions| then []
    else if Ends(sessions[i], reason, slot, conn) then
      [Close(i, sessions[i].binding.slot, sessions[i].binding.resource)] +
      Closings(sessions, reason, slot, conn, i + 1)
    else Closings(sessions, reason, slot, conn, i + 1)
  }

  // The T_CALLBACK_REASON_CONNECTIONCLOSE and SLOTCLOSE branches
  function OnClose(l: Layer, reason: Reason, slot: byte, conn: byte, env: Env): Layer {
    Layer(seq(|l.sessions|, i requires 0 <= i < |l.sessions| => EndOne(l.sessions[i], reason, slot, conn)),
          l.log + if env.refuses.Some? then Closings(l.sessions, reason, slot, conn, 0) else [])
  }

  // en50221_sl_transport_callback
  function OnTransport(l: Layer, reason: Reason, data: seq<byte>, slot: byte, conn: byte, env: Env): Layer {
    match reason
    case ConnectionOpen => if env.refuses.Some? then Log(l, TcConnect(slot, conn)) else l
    case CamConnectionOpen => if env.refuses.Some? then Log(l, TcCamConnect(slot, conn)) else l
    case ConnectionClose => OnClose(l, reason, slot, conn, env)
    case SlotClose => OnClose(l, reason, slot, conn, env)
    case Data =>
      if data == [] then l
      else if data[0] == ST_OPEN_SESSION_REQ then OnOpenRequest(l, data[1..], slot, conn, env)
      else if data[0] == ST_CLOSE_SESSION_REQ then OnCloseRequest(l, data[1..], slot, conn, env)
      else if data[0] == ST_SESSION_NUMBER then OnSessionPackage(l, data[1..], slot, conn)
      else if data[0] == ST_CREATE_SESSION_RES then OnCreateResponse(l, data[1..], slot, conn, env)
      else if data[0] == ST_CLOSE_SESSION_RES then OnCloseResponse(l, data[1..], slot, conn)
      else l
  }

  // ---- runs ----

  datatype Input =
    | CreateCall(slotId: int, conn: byte, resource: nat, callback: Option<nat>, sendOk: bool)
    | DestroyCall(n: u16, sendOk: bool)
    | SendCall(n: u16, data: seq<byte>, sendOk: bool)
    | FromTransport(reason: Reason, data: seq<byte>, slot: byte, conn: byte, env: Env)

  function Apply(l: Layer, input: Input): Layer {
    match input
    case CreateCall(slot, conn, resource, callback, ok) => CreateSession(l, slot, conn, resource, callback, ok).layer
    case DestroyCall(n, ok) => DestroySession(l, n, ok).layer
    case SendCall(n, data, ok) => SendData(l, n, data, ok).layer
    case FromTransport(reason, data, slot, conn, env) => OnTransport(l, reason, data, slot, conn, env)
  }

  function Run(l: Layer, inputs: seq<Input>): Layer
    decreases |inputs|
  {
    if inputs == [] then l else Run(Apply(l, inputs[0]), inputs[1..])
  }

  // en50221_sl_create: every session idle, its binding not yet set.
  ghost predicate Initial(l: Layer) {
    l.log == [] && forall i :: 0 <= i < |l.sessions| ==> l.sessions[i].state == Idle
  }
}
