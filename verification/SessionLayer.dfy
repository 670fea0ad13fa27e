// The session layer object of en50221_session.c, updating its sessions in place
// and sending through the transport layer object below it. Every method is
// proved against the step that module SessionMachine gives it.
module SessionLayer {
  import opened Bytes
  import Asn1
  import opened SessionMachine
  import Transport
  import TransportLayer

  // Does the transport layer accept data for this connection?
  function Accepts(slots: seq<Transport.Slot>, slot: byte, conn: byte): bool {
    Transport.SendData(slots, slot, conn, []).result.Done?
  }

  // What the transport layer becomes when the SPDUs among es are sent in order.
  function Forward(slots: seq<Transport.Slot>, es: seq<Event>): seq<Transport.Slot>
    decreases |es|
  {
    if es == [] then slots
    else if es[0].SpduSent? then
      Forward(Transport.SendData(slots, es[0].slot, es[0].conn, es[0].spdu).slots, es[1..])
    else Forward(slots, es[1..])
  }

  lemma ForwardSnoc(slots: seq<Transport.Slot>, es: seq<Event>, e: Event)
    ensures Forward(slots, es + [e]) ==
      if e.SpduSent? then Transport.SendData(Forward(slots, es), e.slot, e.conn, e.spdu).slots else Forward(slots, es)
    decreases |es|
  {
    if es == [] {
      assert [] + [e] == [e];
    } else {
      assert (es + [e])[1..] == es[1..] + [e];
      if es[0].SpduSent? {
        ForwardSnoc(Transport.SendData(slots, es[0].slot, es[0].conn, es[0].spdu).slots, es[1..], e);
      } else {
        ForwardSnoc(slots, es[1..], e);
      }
    }
  }

  lemma {:induction false} ForwardQuiet(slots: seq<Transport.Slot>, es: seq<Event>)
    requires forall e :: e in es ==> !e.SpduSent?
    ensures Forward(slots, es) == slots
    decreases |es|
  {
    if es != [] {
      ForwardQuiet(slots, es[1..]);
    }
  }

  class Sessions {
    const tl: TransportLayer.Layer
    var sessions: seq<Session>
    var log: seq<Event>

    ghost function View(): Layer
      reads this
    {
      Layer(sessions, log)
    }

    // The SPDUs logged since `from` are those the transport layer was given.
    ghost predicate Forwarded(was: seq<Transport.Slot>, from: seq<Event>)
      reads this, tl
    {
      && |from| <= |log| && log[..|from|] == from
      && tl.slots == Forward(was, log[|from|..])
    }

    // en50221_sl_create
    constructor (tl: TransportLayer.Layer, maxSessions: nat, unset: Binding)
      ensures this.tl == tl && Initial(View()) && |sessions| == maxSessions
    {
      this.tl := tl;
      var made: seq<Session> := [];
      for i := 0 to maxSessions
        invariant |made| == i && forall k :: 0 <= k < i ==> made[k].state == Idle
      {
        made := made + [Session(Idle, unset)];
      }
      sessions := made;
      log := [];
    }

    method SetSessionState(n: nat, state: State)
      requires n < |sessions|
      modifies this`sessions
      ensures View() == SetState(old(View()), n, state)
      ensures forall was, from :: old(Forwarded(was, from)) ==> Forwarded(was, from)
    {
      sessions := sessions[n := sessions[n].(state := state)];
    }

    method Say(e: Event)
      requires !e.SpduSent?
      modifies this`log
      ensures View() == Log(old(View()), e)
      ensures forall was, from :: old(Forwarded(was, from)) ==> Forwarded(was, from)
    {
      log := log + [e];
      forall was, from | old(Forwarded(was, from)) ensures Forwarded(was, from) {
        ForwardSnoc(was, old(log)[|from|..], e);
        assert log[|from|..] == old(log)[|from|..] + [e];
      }
    }

    // en50221_tl_send_data as the session layer uses it
    method Transmit(slot: byte, conn: byte, spdu: seq<byte>) returns (ok: bool)
      modifies this`log, tl
      ensures ok == Accepts(old(tl.slots), slot, conn)
      ensures View() == Log(old(View()), SpduSent(slot, conn, spdu, ok))
      ensures forall was, from :: old(Forwarded(was, from)) ==> Forwarded(was, from)
    {
      var r := tl.SendDataOn(slot, conn, spdu);
      ok := r.Done?;
      var e := SpduSent(slot, conn, spdu, ok);
      log := log + [e];
      forall was, from | old(Forwarded(was, from)) ensures Forwarded(was, from) {
        ForwardSnoc(was, old(log)[|from|..], e);
        assert log[|from|..] == old(log)[|from|..] + [e];
      }
    }

    // en50221_sl_alloc_new_session
    method AllocNewSession(b: Binding) returns (r: Option<nat>)
      modifies this
      ensures r == FirstIdle(old(sessions), 1)
      ensures View() == if r.None? then old(View()) else Allocate(old(View()), r.value, b)
      ensures forall was, from :: old(Forwarded(was, from)) ==> Forwarded(was, from)
    {
      var i: nat := 1;
      while i < |sessions| && sessions[i].state != Idle
        invariant FirstIdle(sessions, 1) == FirstIdle(sessions, i) && View() == old(View())
      {
        i := i + 1;
      }
      if i >= |sessions| { return None; }
      sessions := sessions[i := Session(InCreation, b)];
      label before:
      Say(Allocated(i, b));
      return Some(i);
    }

    // en50221_sl_create_session
    method CreateSessionTo(slot: int, conn: byte, resource: nat, callback: Option<nat>) returns (r: Result)
      modifies this, tl
      ensures Step(View(), r) ==
        CreateSession(old(View()), slot, conn, resource, callback, Accepts(old(tl.slots), slot % 256, conn))
      ensures Forwarded(old(tl.slots), old(log))
    {
      assert Forwarded(tl.slots, log);
      var n := AllocNewSession(Binding(resource, slot % 256, conn, callback));
      if n.None? { return OutOfSessions; }
      var id := n.value;
      var ok := Transmit(slot % 256, conn, [ST_CREATE_SESSION, 6] + ResourceId(resource) + Number(id));
      if !ok {
        if sessions[id].state == InCreation {
          SetSessionState(id, Idle);
        }
        return TransportError;
      }
      return Done(id);
    }

    // en50221_sl_destroy_session
    method DestroySessionOf(n: u16) returns (r: Result)
      modifies this, tl
      ensures n >= |old(sessions)| ==> Step(View(), r) == Step(old(View()), BadSessionNumber)
      ensures n < |old(sessions)| ==>
        var b := old(sessions)[n].binding;
        Step(View(), r) == DestroySession(old(View()), n, Accepts(old(tl.slots), b.slot, b.conn))
      ensures Forwarded(old(tl.slots), old(log))
    {
      assert Forwarded(tl.slots, log);
      if n >= |sessions| || (sessions[n].state != Active && sessions[n].state != InDeletion) {
        return BadSessionNumber;
      }
      SetSessionState(n, InDeletion);
      var b := sessions[n].binding;
      var ok := Transmit(b.slot, b.conn, [ST_CLOSE_SESSION_REQ, 2] + Number(n));
      if !ok {
        if sessions[n].state == InDeletion {
          SetSessionState(n, Idle);
        }
        r := TransportError;
      } else {
        r := Done(n);
      }
    }

    // en50221_sl_send_data
    method SendSessionData(n: u16, data: seq<byte>) returns (r: Result)
      modifies this, tl
      ensures (n >= |old(sessions)| || old(sessions)[n].state != Active) ==>
        r == BadSessionNumber && View() == old(View()) && tl.slots == old(tl.slots)
      ensures n < |old(sessions)| && old(sessions)[n].state == Active ==>
        var b := old(sessions)[n].binding;
        && Step(View(), r) == SendData(old(View()), n, data, Accepts(old(tl.slots), b.slot, b.conn))
        && tl.slots == Transport.SendData(old(tl.slots), b.slot, b.conn, DataSpdu(n, data)).slots
    {
      if n >= |sessions| { return BadSessionNumber; }
      if sessions[n].state != Active { return BadSessionNumber; }
      r := SendVector(n, [data]);
      assert Flatten([data]) == data + Flatten([]) == data;
    }

    // en50221_sl_send_datav
    method SendSessionDatav(n: u16, vector: seq<seq<byte>>) returns (r: Result)
      modifies this, tl
      ensures (n >= |old(sessions)| || old(sessions)[n].state != Active) ==>
        r == BadSessionNumber && View() == old(View()) && tl.slots == old(tl.slots)
      ensures n < |old(sessions)| && old(sessions)[n].state == Active && |vector| > 9 ==>
        r == IovLimit && View() == old(View()) && tl.slots == old(tl.slots)
      ensures n < |old(sessions)| && old(sessions)[n].state == Active && |vector| <= 9 ==>
        var b := old(sessions)[n].binding;
        && Step(View(), r) == SendData(old(View()), n, Flatten(vector), Accepts(old(tl.slots), b.slot, b.conn))
        && tl.slots == Transport.SendData(old(tl.slots), b.slot, b.conn, DataSpdu(n, Flatten(vector))).slots
    {
      if n >= |sessions| { return BadSessionNumber; }
      if sessions[n].state != Active { return BadSessionNumber; }
      if |vector| > 9 { return IovLimit; }
      r := SendVector(n, vector);
    }

    // The header goes in front of the caller's vector.
    method SendVector(n: u16, vector: seq<seq<byte>>) returns (r: Result)
      requires n < |sessions| && sessions[n].state == Active
      modifies this`log, tl
      ensures var b := sessions[n].binding;
        && Step(View(), r) == SendData(old(View()), n, Flatten(vector), Accepts(old(tl.slots), b.slot, b.conn))
        && tl.slots == Transport.SendData(old(tl.slots), b.slot, b.conn, DataSpdu(n, Flatten(vector))).slots
    {
      var b := sessions[n].binding;
      var header := [ST_SESSION_NUMBER, 2] + Number(n);
      assert ([header] + vector)[1..] == vector;
      assert header + Flatten(vector) == DataSpdu(n, Flatten(vector));
      var sent := tl.SendDatavOn(b.slot, b.conn, [header] + vector);
      log := log + [SpduSent(b.slot, b.conn, DataSpdu(n, Flatten(vector)), sent.Done?)];
      r := if sent.Done? then Done(n) else TransportError;
    }

    // en50221_sl_handle_open_session_request
    method HandleOpenRequest(data: seq<byte>, slot: byte, conn: byte, env: Env)
      modifies this, tl
      ensures View() == OnOpenRequest(old(View()), data, slot, conn, env.(sendOk := Accepts(old(tl.slots), slot, conn)))
      ensures Forwarded(old(tl.slots), old(log))
    {
      assert Forwarded(tl.slots, log);
      if |data| < 5 || data[0] != 4 { return; }
      if env.lookup.Some? { Say(LookedUp(slot, Be32(data[1], data[2], data[3], data[4]))); }
      AnswerRequest(slot, conn, env);
    }

    // The rest of it, once the lookup callback has been asked.
    method AnswerRequest(slot: byte, conn: byte, env: Env)
      modifies this, tl
      ensures View() == Answer(old(View()), slot, conn, env.(sendOk := Accepts(old(tl.slots), slot, conn)))
      ensures forall was, from :: old(Forwarded(was, from)) ==> Forwarded(was, from)
    {
      var status := LookupStatus(env.lookup);
      var number: int := -1;
      if status == S_STATUS_OPEN {
        var n := AllocNewSession(Binding(env.resource, slot, conn, env.callback));
        if n.None? {
          status := S_STATUS_CLOSE_NO_RES;
        } else {
          number := n.value;
          if env.refuses.Some? {
            Say(CamConnecting(number, slot, env.resource));
            if env.refuses.value {
              status := S_STATUS_CLOSE_RES_BUSY;
            }
          } else {
            status := S_STATUS_CLOSE_RES_UNAVAILABLE;
          }
        }
      }
      var ok := Transmit(slot, conn, OpenResponse(status, env.resource, number));
      if !ok {
        status := S_STATUS_CLOSE_NO_RES;
      }
      if number != -1 {
        if status != S_STATUS_OPEN {
          SetSessionState(number, Idle);
        } else {
          SetSessionState(number, Active);
        }
        ReportOpening(number, status, slot, env);
      }
    }

    // The end of en50221_sl_handle_open_session_request: what the upper layers are told.
    method ReportOpening(n: nat, status: int, slot: byte, env: Env)
      requires n < |sessions|
      modifies this
      ensures View() == Report(old(View()), n, status, slot, env)
      ensures forall was, from :: old(Forwarded(was, from)) ==> Forwarded(was, from)
    {
      if sessions[n].state == Active {
        if status == S_STATUS_OPEN {
          if env.refuses.Some? { Say(CamConnected(n, slot, env.resource)); }
        } else {
          SetSessionState(n, Idle);
          if env.refuses.Some? { Say(CamConnectFail(n, slot, env.resource)); }
        }
      }
    }

    // en50221_sl_handle_close_session_request
    method HandleCloseRequest(data: seq<byte>, slot: byte, conn: byte, env: Env)
      modifies this, tl
      ensures View() == OnCloseRequest(old(View()), data, slot, conn, env.(sendOk := Accepts(old(tl.slots), slot, conn)))
      ensures Forwarded(old(tl.slots), old(log))
    {
      assert Forwarded(tl.slots, log);
      if |data| < 3 || data[0] != 2 { return; }
      var n := Be16(data[1], data[2]);
      var code: byte := 0x00;
      var resource := 0;
      if n >= |sessions| {
        code := 0xF0;
      } else {
        if slot != sessions[n].binding.slot { code := 0xF0; }
        if conn != sessions[n].binding.conn { code := 0xF0; }
        if sessions[n].state != Active && sessions[n].state != InDeletion { code := 0xF0; }
        if code == 0x00 {
          SetSessionState(n, Idle);
        }
        resource := sessions[n].binding.resource;
      }
      var ok := Transmit(slot, conn, [ST_CLOSE_SESSION_RES, 3, code] + Number(n));
      if code == 0x00 && env.refuses.Some? {
        Say(Close(n, slot, resource));
      }
    }

    // en50221_sl_handle_create_session_response
    method HandleCreateResponse(data: seq<byte>, slot: byte, conn: byte, env: Env)
      modifies this
      ensures View() == OnCreateResponse(old(View()), data, slot, conn, env)
      ensures Forwarded(old(tl.slots), old(log))
    {
      assert Forwarded(tl.slots, log);
      if |data| < 8 || data[0] != 7 { return; }
      var n := Be16(data[5], data[6]);
      if n >= |sessions| { return; }
      var s := sessions[n];
      if slot != s.binding.slot || conn != s.binding.conn || s.state != InCreation { return; }
      if data[1] != S_STATUS_OPEN {
        SetSessionState(n, Idle);
        if env.refuses.Some? { Say(ConnectFail(n, slot, s.binding.resource)); }
        return;
      }
      SetSessionState(n, Active);
      if env.refuses.Some? { Say(Connected(n, slot, s.binding.resource)); }
    }

    // en50221_sl_handle_close_session_response
    method HandleCloseResponse(data: seq<byte>, slot: byte, conn: byte)
      modifies this`sessions
      ensures View() == OnCloseResponse(old(View()), data, slot, conn)
      ensures Forwarded(old(tl.slots), old(log))
    {
      if |data| < 5 || data[0] != 4 { return; }
      var n := Be16(data[2], data[3]);
      if n >= |sessions| { return; }
      var s := sessions[n];
      if slot != s.binding.slot || conn != s.binding.conn || s.state != InDeletion { return; }
      SetSessionState(n, Idle);
    }

    // en50221_sl_handle_session_package: one upcall per APDU.
    method HandleSessionPackage(data: seq<byte>, slot: byte, conn: byte)
      modifies this`log
      ensures View() == OnSessionPackage(old(View()), data, slot, conn)
      ensures Forwarded(old(tl.slots), old(log))
    {
      if |data| < 3 || data[0] != 2 { return; }
      var n := Be16(data[1], data[2]);
      if n >= |sessions| { return; }
      var s := sessions[n];
      if slot != s.binding.slot || conn != s.binding.conn || s.state != Active { return; }
      ghost var was := log;
      PassApdus(n, s.binding, slot, conn, data[3..]);
      ghost var events := ApduEvents(n, s.binding, slot, conn, Apdus(data[3..]));
      assert log[..|was|] == was && log[|was|..] == events;
      ForwardQuiet(tl.slots, events);
    }

    // The loop that hands the APDUs of a package up.
    method PassApdus(n: nat, b: Binding, slot: byte, conn: byte, data: seq<byte>)
      modifies this`log
      ensures log == old(log) + ApduEvents(n, b, slot, conn, Apdus(data))
    {
      ghost var given: seq<seq<byte>> := [];
      var off := 0;
      assert data[0..] == data && given + Apdus(data) == Apdus(data);
      assert log == old(log) + ApduEvents(n, b, slot, conn, given);
      while off < |data|
        invariant 0 <= off <= |data|
        invariant given + Apdus(data[off..]) == Apdus(data)
        invariant log == old(log) + ApduEvents(n, b, slot, conn, given)
        decreases |data| - off
      {
        ghost var left, before := data[off..], ApduEvents(n, b, slot, conn, given);
        var size := PassFirst(n, b, slot, conn, data[off..]);
        if size == 0 { break; }
        ghost var apdu := left[..size];
        assert left[size..] == data[off + size..];
        Associates(given, [apdu], Apdus(data[off + size..]));
        Associates(old(log), before, OneApduEvent(n, b, slot, conn, apdu));
        OneMoreEvent(n, b, slot, conn, given, apdu);
        given := given + [apdu];
        off := off + size;
      }
      assert given + [] == given;
    }

    // One round of it: the first APDU of what is left, if there is one.
    method PassFirst(n: nat, b: Binding, slot: byte, conn: byte, left: seq<byte>) returns (size: nat)
      modifies this`log
      ensures size <= |left|
      ensures size == 0 ==> Apdus(left) == [] && log == old(log)
      ensures size > 0 ==> Apdus(left) == [left[..size]] + Apdus(left[size..])
      ensures size > 0 ==> log == old(log) + OneApduEvent(n, b, slot, conn, left[..size])
    {
      if |left| < 3 { return 0; }
      var f := Asn1.Decode(left[3..]);
      if f.Bad? { return 0; }
      size := 3 + f.used + f.value;
      if size > |left| { return 0; }
      PassOne(n, b, slot, conn, left[..size]);
    }

    method PassOne(n: nat, b: Binding, slot: byte, conn: byte, apdu: seq<byte>)
      modifies this`log
      ensures log == old(log) + OneApduEvent(n, b, slot, conn, apdu)
    {
      if b.callback.Some? {
        log := log + [Apdu(n, b.callback.value, slot, conn, b.resource, apdu)];
      }
    }

    // The closing loops of en50221_sl_transport_callback
    method HandleClose(reason: Reason, slot: byte, conn: byte, env: Env)
      modifies this
      ensures View() == OnClose(old(View()), reason, slot, conn, env)
      ensures Forwarded(old(tl.slots), old(log))
    {
      ghost var start := log;
      ghost var said := EndSessions(reason, slot, conn, env);
      assert View() == OnClose(old(View()), reason, slot, conn, env);
      ClosingsQuiet(old(sessions), reason, slot, conn, 0);
      assert log[..|start|] == start && log[|start|..] == said;
      ForwardQuiet(tl.slots, said);
    }

    // The loop over the sessions; `said` is what it logs.
    method EndSessions(reason: Reason, slot: byte, conn: byte, env: Env) returns (ghost said: seq<Event>)
      modifies this`sessions, this`log
      ensures |sessions| == |old(sessions)|
      ensures forall k :: 0 <= k < |sessions| ==> sessions[k] == EndOne(old(sessions)[k], reason, slot, conn)
      ensures said == if env.refuses.Some? then Closings(old(sessions), reason, slot, conn, 0) else []
      ensures log == old(log) + said
    {
      ghost var was := sessions;
      ghost var closings: seq<Event> := [];
      assert log == old(log) + [] && closings + Closings(was, reason, slot, conn, 0) == Closings(was, reason, slot, conn, 0);
      var i := 0;
      while i < |sessions|
        invariant 0 <= i <= |sessions| == |was|
        invariant forall k :: 0 <= k < i ==> sessions[k] == EndOne(was[k], reason, slot, conn)
        invariant forall k :: i <= k < |was| ==> sessions[k] == was[k]
        invariant closings + Closings(was, reason, slot, conn, i) == Closings(was, reason, slot, conn, 0)
        invariant log == old(log) + if env.refuses.Some? then closings else []
      {
        var s := sessions[i];
        var matches := if reason == ConnectionClose then s.binding.conn == conn else s.binding.slot == slot;
        if s.state != Idle && matches {
          sessions := sessions[i := s.(state := Idle)];
          var e := Close(i, s.binding.slot, s.binding.resource);
          if env.refuses.Some? {
            log := log + [e];
          }
          Associates(closings, [e], Closings(was, reason, slot, conn, i + 1));
          closings := closings + [e];
        }
        i := i + 1;
      }
      assert closings + [] == closings;
      said := if env.refuses.Some? then closings else [];
    }

    // en50221_sl_transport_callback
    method TransportCallback(reason: Reason, data: seq<byte>, slot: byte, conn: byte, env: Env)
      modifies this, tl
      ensures View() ==
        OnTransport(old(View()), reason, data, slot, conn, env.(sendOk := Accepts(old(tl.slots), slot, conn)))
      ensures Forwarded(old(tl.slots), old(log))
    {
      assert Forwarded(tl.slots, log);
      match reason
      case ConnectionOpen =>
        if env.refuses.Some? { Say(TcConnect(slot, conn)); }
      case CamConnectionOpen =>
        if env.refuses.Some? { Say(TcCamConnect(slot, conn)); }
      case ConnectionClose =>
        HandleClose(reason, slot, conn, env);
      case SlotClose =>
        HandleClose(reason, slot, conn, env);
      case Data =>
        if |data| < 1 { return; }
        if data[0] == ST_OPEN_SESSION_REQ {
          HandleOpenRequest(data[1..], slot, conn, env);
        } else if data[0] == ST_CLOSE_SESSION_REQ {
          HandleCloseRequest(data[1..], slot, conn, env);
        } else if data[0] == ST_SESSION_NUMBER {
          HandleSessionPackage(data[1..], slot, conn);
        } else if data[0] == ST_CREATE_SESSION_RES {
          HandleCreateResponse(data[1..], slot, conn, env);
        } else if data[0] == ST_CLOSE_SESSION_RES {
          HandleCloseResponse(data[1..], slot, conn);
        }
    }
  }

  function OneApduEvent(n: nat, b: Binding, slot: byte, conn: byte, apdu: seq<byte>): seq<Event> {
    if b.callback.Some? then [Apdu(n, b.callback.value, slot, conn, b.resource, apdu)] else []
  }

  lemma OneMoreEvent(n: nat, b: Binding, slot: byte, conn: byte, given: seq<seq<byte>>, apdu: seq<byte>)
    ensures ApduEvents(n, b, slot, conn, given + [apdu]) ==
      ApduEvents(n, b, slot, conn, given) + OneApduEvent(n, b, slot, conn, apdu)
  {
  }

  lemma {:induction false} ClosingsQuiet(sessions: seq<Session>, reason: Reason, slot: byte, conn: byte, i: nat)
    ensures forall e :: e in Closings(sessions, reason, slot, conn, i) ==> !e.SpduSent?
    decreases |sessions| - i
  {
    if i < |sessions| {
      ClosingsQuiet(sessions, reason, slot, conn, i + 1);
    }
  }
}
