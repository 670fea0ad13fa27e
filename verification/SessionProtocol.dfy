// What the session layer answers, byte for byte, to every SPDU and call that it gets
// (section 7.2 of EN 50221): which sessions come of it, what the module is told and
// what the upper layers are.
module SessionProtocol {
  import opened Bytes
  import opened SessionMachine

  // ---- numbers on the wire ----

  // A 32-bit resource id, and a 16-bit session number, most significant byte first.
  ghost predicate ResourceAt(spdu: seq<byte>, at: nat, resource: nat) {
    at + 4 <= |spdu| && Be32(spdu[at], spdu[at + 1], spdu[at + 2], spdu[at + 3]) == resource % 0x1_0000_0000
  }

  ghost predicate NumberAt(spdu: seq<byte>, at: nat, n: int) {
    at + 2 <= |spdu| && (var hi: nat, lo: nat := spdu[at], spdu[at + 1]; hi * 256 + lo == n % 0x1_0000)
  }

  lemma ResourceBytes(r: nat)
    ensures ResourceAt(ResourceId(r), 0, r)
  {
    var a, b, c := r / 0x100_0000, r / 0x1_0000, r / 256;
    assert c == b * 256 + c % 256 && b == a * 256 + b % 256;
    assert r == a * 0x100_0000 + b % 256 * 0x1_0000 + c % 256 * 256 + r % 256;
    FourBytes(r, a, b % 256, c % 256, r % 256);
  }

  lemma FourBytes(r: nat, a: nat, b: nat, c: nat, d: nat)
    requires b < 256 && c < 256 && d < 256 && r == a * 0x100_0000 + b * 0x1_0000 + c * 256 + d
    ensures a % 256 * 0x100_0000 + b * 0x1_0000 + c * 256 + d == r % 0x1_0000_0000
  {
    var low := a % 256 * 0x100_0000 + b * 0x1_0000 + c * 256 + d;
    assert r == a / 256 * 0x1_0000_0000 + low && 0 <= low < 0x1_0000_0000;
  }

  lemma NumberBytes(n: int)
    ensures NumberAt(Number(n), 0, n)
  {
    var h := n / 256;
    assert n == h / 256 * 0x1_0000 + (h % 256 * 256 + n % 256);
  }

  // ---- open_session_request ----

  // n is the lowest free session number, or there is none and n is their count.
  ghost predicate Free(l: Layer, n: nat) {
    && 1 <= n && (n < |l.sessions| ==> l.sessions[n].state == Idle)
    && (forall k :: 1 <= k < n && k < |l.sessions| ==> l.sessions[k].state != Idle)
    && (n >= |l.sessions| ==> n == if |l.sessions| == 0 then 1 else |l.sessions|)
  }

  lemma FreeIsFound(l: Layer, n: nat)
    requires Free(l, n)
    ensures FirstIdle(l.sessions, 1) == if n < |l.sessions| then Some(n) else None
  {
    LowestIdle(l.sessions, 1, n);
  }

  lemma {:induction false} LowestIdle(sessions: seq<Session>, i: nat, n: nat)
    requires i <= n && (n < |sessions| ==> sessions[n].state == Idle)
    requires forall k :: i <= k < n && k < |sessions| ==> sessions[k].state != Idle
    ensures FirstIdle(sessions, i) == if n < |sessions| then Some(n) else None
    decreases n - i
  {
    if i < n && i < |sessions| { LowestIdle(sessions, i + 1, n); }
  }

  // The status byte of the answer: what the lookup says, and if it found the resource,
  // whether there is a session for it and what the session callback makes of that.
  function StatusByte(env: Env, free: bool): byte {
    match env.lookup
    case None => 0xF0
    case Some(c) =>
      if c == 0 then
        if !free then 0xF0
        else if env.refuses.None? then 0xF1
        else if env.refuses.value then 0xF3
        else 0x00
      else if c == -1 then 0xF0
      else if c == -2 then 0xF2
      else if c == -3 then 0xF1
      else c % 256
  }

  // The resource is known, and the session callback is there and accepts.
  predicate Granted(env: Env) { env.lookup == Some(0) && env.refuses.Some? && !env.refuses.value }

  ghost predicate IsOpenRequest(spdu: seq<byte>) { |spdu| >= 6 && spdu[0] == 0x91 && spdu[1] == 4 }

  ghost function Requested(spdu: seq<byte>): nat
    requires IsOpenRequest(spdu)
  {
    Be32(spdu[2], spdu[3], spdu[4], spdu[5])
  }

  ghost predicate IsOpenAnswer(spdu: seq<byte>, status: byte, resource: nat, number: int) {
    && |spdu| == 9 && spdu[0] == 0x92 && spdu[1] == 7 && spdu[2] == status
    && ResourceAt(spdu, 3, resource) && NumberAt(spdu, 7, number)
  }

  // What is told around the answer.
  function ToldBefore(slot: byte, conn: byte, asked: nat, env: Env, n: nat, free: bool): seq<Event> {
    (if env.lookup.Some? then [LookedUp(slot, asked)] else [])
    + (if env.lookup == Some(0) && free then [Allocated(n, Binding(env.resource, slot, conn, env.callback))] else [])
    + (if env.lookup == Some(0) && free && env.refuses.Some? then [CamConnecting(n, slot, env.resource)] else [])
  }

  function ToldAfter(slot: byte, env: Env, n: nat, free: bool): seq<Event> {
    if Granted(env) && free && env.sendOk then [CamConnected(n, slot, env.resource)] else []
  }

  // The states afterwards.
  function SessionsAfter(l: Layer, slot: byte, conn: byte, env: Env, n: nat): seq<Session> {
    if env.lookup == Some(0) && n < |l.sessions| then
      var b := Binding(env.resource, slot, conn, env.callback);
      l.sessions[n := Session(if Granted(env) && env.sendOk then Active else Idle, b)]
    else l.sessions
  }

  lemma AnswerBytes(status: int, resource: nat, number: int)
    ensures IsOpenAnswer(OpenResponse(status, resource, number), status % 256, resource, number)
  {
    var spdu, id, num := OpenResponse(status, resource, number), ResourceId(resource), Number(number);
    ResourceBytes(resource);
    NumberBytes(number);
    assert spdu[3] == id[0] && spdu[4] == id[1] && spdu[5] == id[2] && spdu[6] == id[3];
    assert spdu[7] == num[0] && spdu[8] == num[1];
  }

  ghost predicate Answers(m: Layer, l: Layer, slot: byte, conn: byte, asked: nat, env: Env, n: nat, spdu: seq<byte>) {
    var free := n < |l.sessions|;
    && IsOpenAnswer(spdu, StatusByte(env, free), env.resource, if env.lookup == Some(0) && free then n else 0xFFFF)
    && m == Layer(SessionsAfter(l, slot, conn, env, n),
                  l.log + ToldBefore(slot, conn, asked, env, n, free) + [SpduSent(slot, conn, spdu, env.sendOk)]
                  + ToldAfter(slot, env, n, free))
  }

  // Every well-formed open_session_request gets exactly one answer, on the slot and
  // connection it came on; its bytes, the states afterwards and what is told around it.
  lemma OpenRequestIsAnswered(l: Layer, req: seq<byte>, slot: byte, conn: byte, env: Env, n: nat)
    returns (spdu: seq<byte>)
    requires IsOpenRequest(req) && Free(l, n)
    ensures Answers(OnTransport(l, Data, req, slot, conn, env), l, slot, conn, Requested(req), env, n, spdu)
  {
    var asked := Requested(req);
    var data := req[1..];
    assert data[0] == 4 && Be32(data[1], data[2], data[3], data[4]) == asked;
    var heard := if env.lookup.Some? then Log(l, LookedUp(slot, asked)) else l;
    assert OnTransport(l, Data, req, slot, conn, env) == Answer(heard, slot, conn, env);
    FreeIsFound(l, n);
    if env.lookup != Some(0) {
      var status := LookupStatus(env.lookup);
      AnswerBytes(status, env.resource, -1);
      spdu := OpenResponse(status, env.resource, -1);
      assert l.log + [] == l.log;
    } else if n >= |l.sessions| {
      AnswerBytes(0xF0, env.resource, -1);
      spdu := OpenResponse(0xF0, env.resource, -1);
    } else {
      spdu := ConnectIsAnswered(l, slot, conn, asked, env, n);
    }
  }

  lemma SetTwice(ss: seq<Session>, n: nat, x: Session, y: Session)
    requires n < |ss|
    ensures ss[n := x][n := y] == ss[n := y]
  {
  }

  lemma ToldInOrder(log: seq<Event>, a: Event, b: Event, told: seq<Event>)
    ensures log + [a] + [b] + told == log + ([a] + [b] + told)
  {
  }

  lemma ConnectIsAnswered(l: Layer, slot: byte, conn: byte, asked: nat, env: Env, n: nat) returns (spdu: seq<byte>)
    requires env.lookup == Some(0) && n < |l.sessions|
    ensures var b := Binding(env.resource, slot, conn, env.callback);
      Answers(Connect(Allocate(Log(l, LookedUp(slot, asked)), n, b), n, slot, conn, env), l, slot, conn, asked, env, n, spdu)
  {
    var b := Binding(env.resource, slot, conn, env.callback);
    var made := Allocate(Log(l, LookedUp(slot, asked)), n, b);
    var status: byte := StatusByte(env, true);
    AnswerBytes(status, env.resource, n);
    spdu := OpenResponse(status, env.resource, n);
    ConnectOutcome(made, n, slot, conn, env, spdu);
    SetTwice(l.sessions, n, made.sessions[n], SessionsAfter(l, slot, conn, env, n)[n]);
    ToldInOrder(l.log, LookedUp(slot, asked), Allocated(n, b),
                if env.refuses.Some? then [CamConnecting(n, slot, env.resource)] else []);
  }

  lemma ConnectOutcome(l: Layer, n: nat, slot: byte, conn: byte, env: Env, spdu: seq<byte>)
    requires env.lookup == Some(0) && n < |l.sessions| && spdu == OpenResponse(StatusByte(env, true), env.resource, n)
    ensures var state := if Granted(env) && env.sendOk then Active else Idle;
      Connect(l, n, slot, conn, env) ==
      Layer(l.sessions[n := l.sessions[n].(state := state)],
            l.log + (if env.refuses.Some? then [CamConnecting(n, slot, env.resource)] else [])
            + [SpduSent(slot, conn, spdu, env.sendOk)] + ToldAfter(slot, env, n, true))
  {
    assert l.log + [] == l.log;
    assert forall e :: l.log + [e] + [] == l.log + [e];
  }

  // A session that was idle is active after it if and only if the lookup found the
  // resource, the session callback is there and accepts, the session is the first free
  // one, and the answer goes out.
  lemma OpenRequestOpensIff(l: Layer, req: seq<byte>, slot: byte, conn: byte, env: Env, n: nat, k: nat)
    requires IsOpenRequest(req) && Free(l, n) && k < |l.sessions| && l.sessions[k].state == Idle
    ensures var m := OnTransport(l, Data, req, slot, conn, env);
      && |m.sessions| == |l.sessions|
      && (m.sessions[k].state == Active <==>
            env.lookup == Some(0) && env.refuses.Some? && !env.refuses.value && env.sendOk && k == n)
      && (m.sessions[k].state == Active ==> m.sessions[k].binding == Binding(env.resource, slot, conn, env.callback))
      && m.sessions[k].state in {Idle, Active}
  {
    var spdu := OpenRequestIsAnswered(l, req, slot, conn, env, n);
  }

  // What the module reads in the status byte, when the lookup keeps to its codes.
  lemma StatusByteSays(env: Env, free: bool)
    requires env.lookup.Some? ==> -3 <= env.lookup.value <= 0
    ensures StatusByte(env, free) == 0x00 <==> Granted(env) && free
    ensures StatusByte(env, free) == 0xF3 <==> env.lookup == Some(0) && free && env.refuses.Some? && env.refuses.value
    ensures StatusByte(env, free) == 0xF1 <==>
      env.lookup == Some(-3) || (env.lookup == Some(0) && free && env.refuses.None?)
    ensures StatusByte(env, free) == 0xF2 <==> env.lookup == Some(-2)
  {
    assert env.lookup.Some? ==> env.lookup == Some(env.lookup.value);
  }

  // Another code is passed on, cut to a byte: the module may be told that a session is
  // open that was not even allocated.
  lemma OtherCodeMaySayOpen(l: Layer, req: seq<byte>, slot: byte, conn: byte, env: Env, n: nat)
    returns (spdu: seq<byte>)
    requires IsOpenRequest(req) && Free(l, n) && env.lookup == Some(256)
    ensures IsOpenAnswer(spdu, 0x00, env.resource, 0xFFFF)
    ensures OnTransport(l, Data, req, slot, conn, env) ==
      l.(log := l.log + [LookedUp(slot, Requested(req))] + [SpduSent(slot, conn, spdu, env.sendOk)])
  {
    spdu := OpenRequestIsAnswered(l, req, slot, conn, env, n);
    var e := LookedUp(slot, Requested(req));
    assert ToldBefore(slot, conn, Requested(req), env, n, n < |l.sessions|) == [e];
    assert ToldAfter(slot, env, n, n < |l.sessions|) == [];
    assert l.log + [e] + [SpduSent(slot, conn, spdu, env.sendOk)] + []
        == l.log + [e] + [SpduSent(slot, conn, spdu, env.sendOk)];
  }

  // ---- close_session_request ----

  ghost predicate Closable(l: Layer, n: nat, slot: byte, conn: byte) {
    n < |l.sessions| && l.sessions[n].binding.slot == slot && l.sessions[n].binding.conn == conn
    && l.sessions[n].state in {Active, InDeletion}
  }

  // One answer, with the number that came; the session it names ends if and only if it
  // is live and bound to where the request came from, and then its CLOSE is told.
  lemma CloseRequestIsAnswered(l: Layer, hi: byte, lo: byte, rest: seq<byte>, slot: byte, conn: byte, env: Env)
    ensures var m := OnTransport(l, Data, [0x95, 2, hi, lo] + rest, slot, conn, env);
      var n: nat, h: nat, low: nat := Be16(hi, lo), hi, lo;
      && n == h * 256 + low
      && if Closable(l, n, slot, conn) then
           && m.sessions == l.sessions[n := l.sessions[n].(state := Idle)]
           && m.log == l.log + [SpduSent(slot, conn, [0x96, 3, 0x00, hi, lo], env.sendOk)]
                       + if env.refuses.Some? then [Close(n, slot, l.sessions[n].binding.resource)] else []
         else m == Log(l, SpduSent(slot, conn, [0x96, 3, 0xF0, hi, lo], env.sendOk))
  {
    var spdu := [0x95, 2, hi, lo] + rest;
    assert spdu[1..][0] == 2 && spdu[1..][1] == hi && spdu[1..][2] == lo;
    assert Number(Be16(hi, lo)) == [hi, lo];
    assert forall code: byte :: [0x96, 3, code] + [hi, lo] == [0x96, 3, code, hi, lo];
  }

  // ---- what the host asks for ----

  ghost predicate IsCreate(spdu: seq<byte>, resource: nat, n: nat) {
    |spdu| == 8 && spdu[0] == 0x93 && spdu[1] == 6 && ResourceAt(spdu, 2, resource) && NumberAt(spdu, 6, n)
  }

  // create_session goes out for the first free session, which waits for the answer if
  // it was sent and is idle again if not.
  lemma CreateAsks(l: Layer, slot: int, conn: byte, resource: nat, callback: Option<nat>, ok: bool, n: nat)
    returns (spdu: seq<byte>)
    requires Free(l, n)
    ensures var r := CreateSession(l, slot, conn, resource, callback, ok);
      if n >= |l.sessions| then r == Step(l, OutOfSessions)
      else
        var b := Binding(resource, slot % 256, conn, callback);
        && IsCreate(spdu, resource, n)
        && r.result == (if ok then Done(n) else TransportError)
        && r.layer == Layer(l.sessions[n := Session(if ok then InCreation else Idle, b)],
                            l.log + [Allocated(n, b)] + [SpduSent(slot % 256, conn, spdu, ok)])
  {
    FreeIsFound(l, n);
    var id, num := ResourceId(resource), Number(n);
    spdu := [0x93, 6] + id + num;
    ResourceBytes(resource);
    NumberBytes(n);
    assert spdu[2] == id[0] && spdu[3] == id[1] && spdu[4] == id[2] && spdu[5] == id[3];
    assert spdu[6] == num[0] && spdu[7] == num[1];
  }

  // close_session_request goes out for a live session, which is in deletion if it was
  // sent and idle if not; any other number is refused and nothing changes.
  lemma DestroyAsks(l: Layer, n: u16, ok: bool) returns (spdu: seq<byte>)
    ensures var r := DestroySession(l, n, ok);
      if n < |l.sessions| && l.sessions[n].state in {Active, InDeletion} then
        var b := l.sessions[n].binding;
        && |spdu| == 4 && spdu[0] == 0x95 && spdu[1] == 2 && NumberAt(spdu, 2, n)
        && r.result == (if ok then Done(n) else TransportError)
        && r.layer == Layer(l.sessions[n := l.sessions[n].(state := if ok then InDeletion else Idle)],
                            l.log + [SpduSent(b.slot, b.conn, spdu, ok)])
      else r == Step(l, BadSessionNumber)
  {
    spdu := [0x95, 2] + Number(n);
    NumberBytes(n);
    assert spdu[2] == Number(n)[0] && spdu[3] == Number(n)[1];
  }

  // Data goes out on the slot and connection of an active session, behind its number.
  lemma SendSends(l: Layer, n: u16, data: seq<byte>, ok: bool) returns (spdu: seq<byte>)
    ensures var r := SendData(l, n, data, ok);
      if n < |l.sessions| && l.sessions[n].state == Active then
        var b := l.sessions[n].binding;
        && |spdu| == 4 + |data| && spdu[0] == 0x90 && spdu[1] == 2 && NumberAt(spdu, 2, n) && spdu[4..] == data
        && r == Step(Log(l, SpduSent(b.slot, b.conn, spdu, ok)), if ok then Done(n) else TransportError)
      else r == Step(l, BadSessionNumber)
  {
    spdu := [0x90, 2] + Number(n) + data;
    NumberBytes(n);
    assert spdu[2] == Number(n)[0] && spdu[3] == Number(n)[1];
  }

  // ---- what arrives for a session that was asked for ----

  // The answer to create_session, as far as the code reads it: its number at bytes 6
  // and 7, for a session that waits on the slot and connection it came on.
  lemma CreateResponseSettles(l: Layer, spdu: seq<byte>, slot: byte, conn: byte, env: Env)
    requires |spdu| >= 9 && spdu[0] == 0x94 && spdu[1] == 7
    ensures var m, n := OnTransport(l, Data, spdu, slot, conn, env), Be16(spdu[6], spdu[7]);
      if n < |l.sessions| && BoundTo(l.sessions[n], slot, conn) && l.sessions[n].state == InCreation then
        var ok, resource := spdu[2] == 0, l.sessions[n].binding.resource;
        && m.sessions == l.sessions[n := l.sessions[n].(state := if ok then Active else Idle)]
        && m.log == l.log + if env.refuses.None? then []
                            else if ok then [Connected(n, slot, resource)] else [ConnectFail(n, slot, resource)]
      else m == l
  {
    var data := spdu[1..];
    assert data[0] == 7 && data[1] == spdu[2] && data[5] == spdu[6] && data[6] == spdu[7];
    assert l.log + [] == l.log;
  }

  // The answer to close_session_request, in the form the code expects.
  lemma CloseResponseSettles(l: Layer, spdu: seq<byte>, slot: byte, conn: byte, env: Env)
    requires |spdu| >= 6 && spdu[0] == 0x96 && spdu[1] == 4
    ensures var m, n := OnTransport(l, Data, spdu, slot, conn, env), Be16(spdu[3], spdu[4]);
      m == if n < |l.sessions| && BoundTo(l.sessions[n], slot, conn) && l.sessions[n].state == InDeletion
           then l.(sessions := l.sessions[n := l.sessions[n].(state := Idle)]) else l
  {
    var data := spdu[1..];
    assert data[0] == 4 && data[2] == spdu[3] && data[3] == spdu[4];
  }

  // Anything else is ignored: an unknown tag, a wrong length byte, or too few bytes.
  ghost predicate Understood(spdu: seq<byte>) {
    || (|spdu| >= 6 && spdu[0] == 0x91 && spdu[1] == 4)
    || (|spdu| >= 4 && spdu[0] == 0x95 && spdu[1] == 2)
    || (|spdu| >= 4 && spdu[0] == 0x90 && spdu[1] == 2)
    || (|spdu| >= 9 && spdu[0] == 0x94 && spdu[1] == 7)
    || (|spdu| >= 6 && spdu[0] == 0x96 && spdu[1] == 4)
  }

  lemma OthersAreIgnored(l: Layer, spdu: seq<byte>, slot: byte, conn: byte, env: Env)
    requires !Understood(spdu)
    ensures OnTransport(l, Data, spdu, slot, conn, env) == l
  {
    if |spdu| >= 2 { assert spdu[1..][0] == spdu[1]; }
  }

  // A package for a session that is not active there is ignored, too.
  lemma StrayPackageIsIgnored(l: Layer, hi: byte, lo: byte, data: seq<byte>, slot: byte, conn: byte, env: Env)
    requires var n := Be16(hi, lo);
      n >= |l.sessions| || !BoundTo(l.sessions[n], slot, conn) || l.sessions[n].state != Active
    ensures OnTransport(l, Data, [0x90, 2, hi, lo] + data, slot, conn, env) == l
  {
    var spdu := [0x90, 2, hi, lo] + data;
    assert spdu[1..][0] == 2 && spdu[1..][1] == hi && spdu[1..][2] == lo;
  }

  // The opening of a connection is told to the session callback, as what it is.
  lemma OpeningsAreTold(l: Layer, data: seq<byte>, slot: byte, conn: byte, env: Env)
    ensures OnTransport(l, ConnectionOpen, data, slot, conn, env) ==
      if env.refuses.None? then l else Log(l, TcConnect(slot, conn))
    ensures OnTransport(l, CamConnectionOpen, data, slot, conn, env) ==
      if env.refuses.None? then l else Log(l, TcCamConnect(slot, conn))
  {
  }
}
