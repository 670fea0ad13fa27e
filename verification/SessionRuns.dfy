// What every run of the session layer keeps: session 0 is never used, a live
// session keeps its binding, its APDUs reach the callback bound when it was
// allocated and come from the bound slot and connection, and it is closed at
// most once.
module SessionRuns {
  import opened Bytes
  import opened SessionMachine

  // ---- reading the log for one session number ----

  // bound: the binding of the last allocation; honest: every APDU so far came from
  // the slot and connection of the binding in force and went to its callback;
  // closes: the CLOSE callbacks; closed: nothing was allocated since the last of
  // them; once: every one of them found an allocation since the one before.
  datatype Reading = Reading(bound: Option<Binding>, honest: bool, closes: nat, closed: bool, once: bool)

  const NOTHING := Reading(None, true, 0, true, true)

  function Next(r: Reading, e: Event, n: nat): Reading {
    if e.Allocated? && e.n == n then r.(bound := Some(e.binding), closed := false)
    else if e.Close? && e.n == n then Closed(r)
    else if e.Apdu? && e.n == n then
      r.(honest := r.honest && r.bound == Some(Binding(e.resource, e.slot, e.conn, Some(e.callback))))
    else r
  }

  function Closed(r: Reading): Reading {
    r.(closes := r.closes + 1, closed := true, once := r.once && !r.closed)
  }

  function Read(log: seq<Event>, n: nat): Reading {
    if log == [] then NOTHING else Next(Read(log[..|log| - 1], n), log[|log| - 1], n)
  }

  lemma ReadSnoc(log: seq<Event>, e: Event, n: nat)
    ensures Read(log + [e], n) == Next(Read(log, n), e, n)
  {
    assert (log + [e])[..|log|] == log;
  }

  // Events that say nothing about allocation, APDUs or closing.
  predicate Quiet(e: Event) { !e.Allocated? && !e.Close? && !e.Apdu? && !e.CamConnectFail? }

  predicate NoConnectFail(log: seq<Event>) { forall e <- log :: !e.CamConnectFail? }

  // ---- the invariant ----

  predicate SessionInv(s: Session, r: Reading) {
    && r.honest
    && r.once
    && (s.state != Idle ==> r.bound == Some(s.binding) && !r.closed)
  }

  ghost predicate LayerInv(l: Layer) {
    && (|l.sessions| > 0 ==> l.sessions[0].state == Idle)
    && NoConnectFail(l.log)
    && forall n: nat :: NumberInv(l, n)
  }

  // Nothing is ever logged for a number the layer does not have.
  predicate NumberInv(l: Layer, n: nat) {
    if n < |l.sessions| then SessionInv(l.sessions[n], Read(l.log, n)) else Read(l.log, n) == NOTHING
  }

  // ---- preservation ----

  lemma LogQuiet(l: Layer, e: Event)
    requires LayerInv(l) && Quiet(e)
    ensures LayerInv(Log(l, e))
  {
    forall n: nat ensures NumberInv(Log(l, e), n) {
      assert NumberInv(l, n);
      ReadSnoc(l.log, e, n);
    }
  }

  lemma SetStateKeeps(l: Layer, n: nat, state: State)
    requires LayerInv(l) && n < |l.sessions| && (state == Idle || l.sessions[n].state != Idle)
    ensures LayerInv(SetState(l, n, state))
  {
    forall k: nat ensures NumberInv(SetState(l, n, state), k) {
      assert NumberInv(l, k);
    }
  }

  lemma AllocateKeeps(l: Layer, n: nat, b: Binding)
    requires LayerInv(l) && 0 < n < |l.sessions| && l.sessions[n].state == Idle
    ensures LayerInv(Allocate(l, n, b))
  {
    var m := Allocate(l, n, b);
    forall k: nat ensures NumberInv(m, k) {
      assert NumberInv(l, k);
      ReadSnoc(l.log, Allocated(n, b), k);
    }
  }

  lemma CloseKeeps(l: Layer, n: nat, slot: byte, resource: nat)
    requires LayerInv(l) && n < |l.sessions| && l.sessions[n].state != Idle
    ensures LayerInv(Log(SetState(l, n, Idle), Close(n, slot, resource)))
  {
    var m := Log(SetState(l, n, Idle), Close(n, slot, resource));
    forall k: nat ensures NumberInv(m, k) {
      assert NumberInv(l, k);
      ReadSnoc(l.log, Close(n, slot, resource), k);
    }
  }

  // A reading after APDUs that came from the slot and connection of b and went to its
  // callback, if any of them was for the session.
  function Heard(r: Reading, b: Binding, any: bool): Reading {
    if any then r.(honest := r.honest && r.bound == Some(b)) else r
  }

  lemma NextApdu(r: Reading, n: nat, b: Binding, apdu: seq<byte>, e: Event, k: nat)
    requires b.callback.Some? && e == Apdu(n, b.callback.value, b.slot, b.conn, b.resource, apdu)
    ensures Next(r, e, k) == Heard(r, b, k == n)
  {
    assert b == Binding(b.resource, b.slot, b.conn, Some(b.callback.value));
  }

  lemma {:induction false} ReadApdus(log: seq<Event>, n: nat, b: Binding, slot: byte, conn: byte,
                                     apdus: seq<seq<byte>>, k: nat)
    requires b.slot == slot && b.conn == conn
    ensures Read(log + ApduEvents(n, b, slot, conn, apdus), k) ==
      Heard(Read(log, k), b, k == n && ApduEvents(n, b, slot, conn, apdus) != [])
    decreases |apdus|
  {
    var es := ApduEvents(n, b, slot, conn, apdus);
    if es == [] {
      assert log + es == log;
    } else {
      var m := |apdus| - 1;
      var init := ApduEvents(n, b, slot, conn, apdus[..m]);
      ReadApdus(log, n, b, slot, conn, apdus[..m], k);
      ApduEventsSnoc(n, b, slot, conn, apdus, es, init);
      Associates(log, init, [es[m]]);
      ReadSnoc(log + init, es[m], k);
      NextApdu(Read(log + init, k), n, b, apdus[m], es[m], k);
    }
  }

  lemma ApduEventsSnoc(n: nat, b: Binding, slot: byte, conn: byte, apdus: seq<seq<byte>>, es: seq<Event>,
                       init: seq<Event>)
    requires es == ApduEvents(n, b, slot, conn, apdus) != []
    requires init == ApduEvents(n, b, slot, conn, apdus[..|apdus| - 1])
    ensures |es| == |apdus| && es == init + [es[|apdus| - 1]]
  {
  }

  // Reading the CLOSE callbacks of one closing: one for each session that ends.
  lemma {:induction false} ReadClosings(log: seq<Event>, sessions: seq<Session>, reason: Reason, slot: byte, conn: byte,
                                        i: nat, n: nat)
    ensures var r := Read(log, n);
      Read(log + Closings(sessions, reason, slot, conn, i), n) ==
        if i <= n < |sessions| && Ends(sessions[n], reason, slot, conn) then Closed(r) else r
    decreases |sessions| - i
  {
    if i >= |sessions| {
      assert log + [] == log;
    } else {
      var rest := Closings(sessions, reason, slot, conn, i + 1);
      if Ends(sessions[i], reason, slot, conn) {
        var e := Close(i, sessions[i].binding.slot, sessions[i].binding.resource);
        ReadSnoc(log, e, n);
        ReadClosings(log + [e], sessions, reason, slot, conn, i + 1, n);
        Associates(log, [e], rest);
      } else {
        ReadClosings(log, sessions, reason, slot, conn, i + 1, n);
      }
    }
  }

  lemma {:induction false} ClosingsReportNoFailure(sessions: seq<Session>, reason: Reason, slot: byte, conn: byte,
                                                   i: nat)
    ensures NoConnectFail(Closings(sessions, reason, slot, conn, i))
    decreases |sessions| - i
  {
    if i < |sessions| { ClosingsReportNoFailure(sessions, reason, slot, conn, i + 1); }
  }

  lemma OnCloseKeeps(l: Layer, reason: Reason, slot: byte, conn: byte, env: Env)
    requires LayerInv(l)
    ensures LayerInv(OnClose(l, reason, slot, conn, env))
  {
    var m := OnClose(l, reason, slot, conn, env);
    ClosingsReportNoFailure(l.sessions, reason, slot, conn, 0);
    forall n: nat ensures NumberInv(m, n) {
      assert NumberInv(l, n);
      if env.refuses.Some? {
        ReadClosings(l.log, l.sessions, reason, slot, conn, 0, n);
      } else {
        assert m.log == l.log;
      }
    }
  }

  lemma OnOpenRequestKeeps(l: Layer, data: seq<byte>, slot: byte, conn: byte, env: Env)
    requires LayerInv(l)
    ensures LayerInv(OnOpenRequest(l, data, slot, conn, env))
  {
    if |data| >= 5 && data[0] == 4 {
      var e := LookedUp(slot, Be32(data[1], data[2], data[3], data[4]));
      LogQuiet(l, e);
      AnswerKeeps(if env.lookup.Some? then Log(l, e) else l, slot, conn, env);
    }
  }

  lemma AnswerKeeps(l: Layer, slot: byte, conn: byte, env: Env)
    requires LayerInv(l)
    ensures LayerInv(Answer(l, slot, conn, env))
  {
    var status := LookupStatus(env.lookup);
    var free := FirstIdle(l.sessions, 1);
    LogQuiet(l, SpduSent(slot, conn, OpenResponse(status, env.resource, -1), env.sendOk));
    LogQuiet(l, SpduSent(slot, conn, OpenResponse(S_STATUS_CLOSE_NO_RES, env.resource, -1), env.sendOk));
    if status == S_STATUS_OPEN && free.Some? {
      var b := Binding(env.resource, slot, conn, env.callback);
      AllocateKeeps(l, free.value, b);
      ConnectKeeps(Allocate(l, free.value, b), free.value, slot, conn, env);
    }
  }

  lemma ConnectKeeps(l: Layer, n: nat, slot: byte, conn: byte, env: Env)
    requires LayerInv(l) && n < |l.sessions| && l.sessions[n].state == InCreation
    ensures LayerInv(Connect(l, n, slot, conn, env))
  {
    LogQuiet(l, CamConnecting(n, slot, env.resource));
    var asked := if env.refuses.Some? then Log(l, CamConnecting(n, slot, env.resource)) else l;
    var answer :=
      if env.refuses.None? then S_STATUS_CLOSE_RES_UNAVAILABLE
      else if env.refuses.value then S_STATUS_CLOSE_RES_BUSY
      else S_STATUS_OPEN;
    AfterAnswer(asked, n, SpduSent(slot, conn, OpenResponse(answer, env.resource, n), env.sendOk), slot, env.resource);
  }

  lemma AfterAnswer(l: Layer, n: nat, e: Event, slot: byte, resource: nat)
    requires LayerInv(l) && n < |l.sessions| && l.sessions[n].state != Idle && Quiet(e)
    ensures LayerInv(SetState(Log(l, e), n, Idle))
    ensures LayerInv(SetState(Log(l, e), n, Active))
    ensures LayerInv(Log(SetState(Log(l, e), n, Active), CamConnected(n, slot, resource)))
  {
    LogQuiet(l, e);
    SetStateKeeps(Log(l, e), n, Idle);
    SetStateKeeps(Log(l, e), n, Active);
    LogQuiet(SetState(Log(l, e), n, Active), CamConnected(n, slot, resource));
  }

  lemma OnCloseRequestKeeps(l: Layer, data: seq<byte>, slot: byte, conn: byte, env: Env)
    requires LayerInv(l)
    ensures LayerInv(OnCloseRequest(l, data, slot, conn, env))
  {
    if |data| >= 3 && data[0] == 2 {
      var n := Be16(data[1], data[2]);
      var ok := n < |l.sessions| && BoundTo(l.sessions[n], slot, conn) &&
                (l.sessions[n].state == Active || l.sessions[n].state == InDeletion);
      var reply := SpduSent(slot, conn, [ST_CLOSE_SESSION_RES, 3, if ok then 0x00 else 0xF0] + Number(n), env.sendOk);
      LogQuiet(l, reply);
      if ok {
        var replied := Log(l, reply);
        SetStateKeeps(replied, n, Idle);
        CloseKeeps(replied, n, slot, l.sessions[n].binding.resource);
        assert Log(SetState(l, n, Idle), reply) == SetState(replied, n, Idle);
      }
    }
  }

  lemma OnCreateResponseKeeps(l: Layer, data: seq<byte>, slot: byte, conn: byte, env: Env)
    requires LayerInv(l)
    ensures LayerInv(OnCreateResponse(l, data, slot, conn, env))
  {
    if |data| >= 8 && data[0] == 7 {
      var n := Be16(data[5], data[6]);
      if n < |l.sessions| && BoundTo(l.sessions[n], slot, conn) && l.sessions[n].state == InCreation {
        var resource := l.sessions[n].binding.resource;
        SetStateKeeps(l, n, Idle);
        SetStateKeeps(l, n, Active);
        LogQuiet(SetState(l, n, Idle), ConnectFail(n, slot, resource));
        LogQuiet(SetState(l, n, Active), Connected(n, slot, resource));
      }
    }
  }

  lemma OnSessionPackageKeeps(l: Layer, data: seq<byte>, slot: byte, conn: byte)
    requires LayerInv(l)
    ensures LayerInv(OnSessionPackage(l, data, slot, conn))
  {
    var m := OnSessionPackage(l, data, slot, conn);
    if m != l {
      var n := Be16(data[1], data[2]);
      forall k: nat ensures NumberInv(m, k) {
        assert NumberInv(l, k);
        ReadApdus(l.log, n, l.sessions[n].binding, slot, conn, Apdus(data[3..]), k);
      }
    }
  }

  lemma OnTransportKeeps(l: Layer, reason: Reason, data: seq<byte>, slot: byte, conn: byte, env: Env)
    requires LayerInv(l)
    ensures LayerInv(OnTransport(l, reason, data, slot, conn, env))
  {
    match reason
    case ConnectionOpen => LogQuiet(l, TcConnect(slot, conn));
    case CamConnectionOpen => LogQuiet(l, TcCamConnect(slot, conn));
    case ConnectionClose => OnCloseKeeps(l, reason, slot, conn, env);
    case SlotClose => OnCloseKeeps(l, reason, slot, conn, env);
    case Data =>
      if data == [] {
      } else if data[0] == ST_OPEN_SESSION_REQ {
        OnOpenRequestKeeps(l, data[1..], slot, conn, env);
      } else if data[0] == ST_CLOSE_SESSION_REQ {
        OnCloseRequestKeeps(l, data[1..], slot, conn, env);
      } else if data[0] == ST_SESSION_NUMBER {
        OnSessionPackageKeeps(l, data[1..], slot, conn);
      } else if data[0] == ST_CREATE_SESSION_RES {
        OnCreateResponseKeeps(l, data[1..], slot, conn, env);
      } else if data[0] == ST_CLOSE_SESSION_RES {
        if OnCloseResponse(l, data[1..], slot, conn) != l {
          SetStateKeeps(l, Be16(data[1..][2], data[1..][3]), Idle);
        }
      }
  }

  lemma CreateSessionKeeps(l: Layer, slot: int, conn: byte, resource: nat, callback: Option<nat>, sendOk: bool)
    requires LayerInv(l)
    ensures LayerInv(CreateSession(l, slot, conn, resource, callback, sendOk).layer)
  {
    var free := FirstIdle(l.sessions, 1);
    if free.Some? {
      var n := free.value;
      var b := Binding(resource, slot % 256, conn, callback);
      var spdu := [ST_CREATE_SESSION, 6] + ResourceId(resource) + Number(n);
      AllocateKeeps(l, n, b);
      LogQuiet(Allocate(l, n, b), SpduSent(slot % 256, conn, spdu, sendOk));
      SetStateKeeps(Log(Allocate(l, n, b), SpduSent(slot % 256, conn, spdu, sendOk)), n, Idle);
    }
  }

  lemma DestroySessionKeeps(l: Layer, n: u16, sendOk: bool)
    requires LayerInv(l)
    ensures LayerInv(DestroySession(l, n, sendOk).layer)
  {
    if DestroySession(l, n, sendOk).result != BadSessionNumber {
      var b := l.sessions[n].binding;
      var e := SpduSent(b.slot, b.conn, [ST_CLOSE_SESSION_REQ, 2] + Number(n), sendOk);
      SetStateKeeps(l, n, InDeletion);
      LogQuiet(SetState(l, n, InDeletion), e);
      SetStateKeeps(Log(SetState(l, n, InDeletion), e), n, Idle);
    }
  }

  lemma ApplyKeeps(l: Layer, input: Input)
    requires LayerInv(l)
    ensures LayerInv(Apply(l, input))
  {
    match input
    case CreateCall(slot, conn, resource, callback, ok) => CreateSessionKeeps(l, slot, conn, resource, callback, ok);
    case DestroyCall(n, ok) => DestroySessionKeeps(l, n, ok);
    case SendCall(n, data, ok) =>
      if SendData(l, n, data, ok).result != BadSessionNumber {
        var b := l.sessions[n].binding;
        LogQuiet(l, SpduSent(b.slot, b.conn, DataSpdu(n, data), ok));
      }
    case FromTransport(reason, data, slot, conn, env) => OnTransportKeeps(l, reason, data, slot, conn, env);
  }

  lemma {:induction false} RunKeeps(l: Layer, inputs: seq<Input>)
    requires LayerInv(l)
    ensures LayerInv(Run(l, inputs))
    decreases |inputs|
  {
    if inputs != [] {
      ApplyKeeps(l, inputs[0]);
      RunKeeps(Apply(l, inputs[0]), inputs[1..]);
    }
  }
}
