// The session layer's promises, read off the invariant that every run keeps,
// and the two places where the code does not meet section 7.2 of EN 50221.
module SessionTheorems {
  import opened Bytes
  import opened SessionMachine
  import opened SessionRuns

  // Session 0 is never used, and a live session carries the binding it was
  // allocated with, for every run and every session.
  lemma EveryRunKeepsBindings(start: Layer, inputs: seq<Input>, n: nat)
    requires Initial(start) && n < |Run(start, inputs).sessions|
    ensures var l := Run(start, inputs);
      && l.sessions[0].state == Idle
      && (l.sessions[n].state != Idle ==> Read(l.log, n).bound == Some(l.sessions[n].binding))
  {
    assert forall k: nat :: NumberInv(start, k);
    RunKeeps(start, inputs);
    assert NumberInv(Run(start, inputs), n);
  }

  ghost predicate LastAllocation(log: seq<Event>, j: nat, n: nat, b: Binding) {
    && j < |log| && log[j] == Allocated(n, b)
    && forall k :: j < k < |log| ==> !(log[k].Allocated? && log[k].n == n)
  }

  // What `bound` means: the last allocation of the number.
  lemma {:induction false} BoundIsLastAllocation(log: seq<Event>, n: nat)
    ensures var r := Read(log, n);
      && (r.bound.None? ==> forall k :: 0 <= k < |log| ==> !(log[k].Allocated? && log[k].n == n))
      && (r.bound.Some? ==> exists j: nat :: LastAllocation(log, j, n, r.bound.value))
  {
    if log != [] {
      var m := |log| - 1;
      BoundIsLastAllocation(log[..m], n);
      var r := Read(log[..m], n);
      if log[m].Allocated? && log[m].n == n {
        assert LastAllocation(log, m, n, log[m].binding);
      } else if r.bound.Some? {
        var j: nat :| LastAllocation(log[..m], j, n, r.bound.value);
        forall k | j < k < |log| ensures !(log[k].Allocated? && log[k].n == n) {
          if k < m { assert log[k] == log[..m][k]; }
        }
        assert LastAllocation(log, j, n, r.bound.value);
      } else {
        forall k | 0 <= k < |log| ensures !(log[k].Allocated? && log[k].n == n) {
          if k < m { assert log[k] == log[..m][k]; }
        }
      }
    }
  }

  lemma {:induction false} HonestAt(log: seq<Event>, k: nat, n: nat)
    requires k < |log| && Read(log, n).honest && log[k].Apdu? && log[k].n == n
    ensures var e := log[k];
      Read(log[..k], n).bound == Some(Binding(e.resource, e.slot, e.conn, Some(e.callback)))
  {
    var m := |log| - 1;
    if k < m {
      HonestAt(log[..m], k, n);
      assert log[..m][..k] == log[..k];
    }
  }

  // In every run, an APDU handed up for session n went to the callback of the
  // last allocation of n, with its resource id, and arrived on its slot and
  // connection.
  lemma EveryApduReachesItsOwner(start: Layer, inputs: seq<Input>, k: nat)
    requires Initial(start) && k < |Run(start, inputs).log| && Run(start, inputs).log[k].Apdu?
    ensures var log := Run(start, inputs).log;
      var e := log[k];
      exists j: nat :: LastAllocation(log[..k], j, e.n, Binding(e.resource, e.slot, e.conn, Some(e.callback)))
  {
    assert forall k: nat :: NumberInv(start, k);
    RunKeeps(start, inputs);
    var l := Run(start, inputs);
    var e := l.log[k];
    assert NumberInv(l, e.n);
    HonestAt(l.log, k, e.n);
    BoundIsLastAllocation(l.log[..k], e.n);
  }

  // No step rebinds a live session; at most it changes its state.
  lemma LiveBindingNeverChanges(l: Layer, input: Input, n: nat)
    requires n < |l.sessions| && l.sessions[n].state != Idle
    ensures |Apply(l, input).sessions| == |l.sessions|
    ensures Apply(l, input).sessions[n].binding == l.sessions[n].binding
  {
    if input.FromTransport? {
      UpcallKeepsBinding(l, input.reason, input.data, input.slot, input.conn, input.env, n);
    }
  }

  lemma UpcallKeepsBinding(l: Layer, reason: Reason, data: seq<byte>, slot: byte, conn: byte, env: Env, n: nat)
    requires n < |l.sessions| && l.sessions[n].state != Idle
    ensures var m := OnTransport(l, reason, data, slot, conn, env);
      |m.sessions| == |l.sessions| && m.sessions[n].binding == l.sessions[n].binding
  {
    if reason == Data && data != [] {
      OpenKeepsBinding(l, data[1..], slot, conn, env, n);
    }
  }

  lemma OpenKeepsBinding(l: Layer, data: seq<byte>, slot: byte, conn: byte, env: Env, n: nat)
    requires n < |l.sessions| && l.sessions[n].state != Idle
    ensures var m := OnOpenRequest(l, data, slot, conn, env);
      |m.sessions| == |l.sessions| && m.sessions[n].binding == l.sessions[n].binding
  {
  }

  // Closing a connection (of any slot) or a slot: afterwards no live session
  // bears that connection id or slot id and the others are untouched; and, where a
  // session callback is registered, each session that ended got exactly one CLOSE.
  lemma ClosingEndsExactly(l: Layer, reason: Reason, slot: byte, conn: byte, env: Env, n: nat)
    requires (reason == ConnectionClose || reason == SlotClose) && n < |l.sessions|
    ensures var m := OnTransport(l, reason, [], slot, conn, env);
      var ends := Ends(l.sessions[n], reason, slot, conn);
      && |m.sessions| == |l.sessions|
      && (m.sessions[n].state != Idle ==>
            if reason == ConnectionClose then m.sessions[n].binding.conn != conn
            else m.sessions[n].binding.slot != slot)
      && (!ends ==> m.sessions[n] == l.sessions[n])
      && Read(m.log, n).closes == Read(l.log, n).closes + if ends && env.refuses.Some? then 1 else 0
  {
    if env.refuses.Some? {
      ReadClosings(l.log, l.sessions, reason, slot, conn, 0, n);
    } else {
      assert l.log + [] == l.log;
    }
  }

  // ---- one CLOSE for one allocation ----

  predicate CloseOf(e: Event, n: nat) { e.Close? && e.n == n }

  // Number n was allocated at i, and has not been closed since.
  ghost predicate OpenSince(log: seq<Event>, i: nat, n: nat) {
    && i < |log| && log[i].Allocated? && log[i].n == n
    && forall k :: i < k < |log| ==> !CloseOf(log[k], n)
  }

  lemma {:induction false} OpenMeansAllocated(log: seq<Event>, n: nat)
    requires !Read(log, n).closed
    ensures exists i: nat :: OpenSince(log, i, n)
  {
    var m := |log| - 1;
    if log[m].Allocated? && log[m].n == n {
      assert OpenSince(log, m, n);
    } else {
      OpenMeansAllocated(log[..m], n);
      var i: nat :| OpenSince(log[..m], i, n);
      OpenStays(log, i, n);
    }
  }

  lemma OpenStays(log: seq<Event>, i: nat, n: nat)
    requires log != [] && OpenSince(log[..|log| - 1], i, n) && !CloseOf(log[|log| - 1], n)
    ensures OpenSince(log, i, n)
  {
    forall k | i < k < |log| ensures !CloseOf(log[k], n) {
      if k < |log| - 1 { assert log[k] == log[..|log| - 1][k]; }
    }
  }

  lemma {:induction false} OpenBeforeClose(log: seq<Event>, j: nat, n: nat)
    requires Read(log, n).once && j < |log| && CloseOf(log[j], n)
    ensures !Read(log[..j], n).closed
  {
    var m := |log| - 1;
    if j < m {
      OpenBeforeClose(log[..m], j, n);
      assert log[..m][..j] == log[..j];
    }
  }

  // In every run each CLOSE callback ends an allocation of its session that no
  // earlier CLOSE ended, so there is at most one for each; and a live session's
  // allocation has none yet.
  lemma EveryRunClosesAtMostOnce(start: Layer, inputs: seq<Input>, n: nat)
    requires Initial(start) && n < |Run(start, inputs).sessions|
    ensures var l := Run(start, inputs);
      && (forall j :: 0 <= j < |l.log| && CloseOf(l.log[j], n) ==> exists i: nat :: OpenSince(l.log[..j], i, n))
      && (l.sessions[n].state != Idle ==> exists i: nat :: OpenSince(l.log, i, n))
  {
    assert forall k: nat :: NumberInv(start, k);
    RunKeeps(start, inputs);
    var l := Run(start, inputs);
    assert NumberInv(l, n);
    forall j | 0 <= j < |l.log| && CloseOf(l.log[j], n) ensures exists i: nat :: OpenSince(l.log[..j], i, n) {
      OpenBeforeClose(l.log, j, n);
      OpenMeansAllocated(l.log[..j], n);
    }
    if l.sessions[n].state != Idle { OpenMeansAllocated(l.log, n); }
  }

  // S_SCALLBACK_REASON_CAMCONNECTFAIL has a branch of its own, and no run takes it.
  lemma EveryRunReportsNoConnectFail(start: Layer, inputs: seq<Input>, k: nat)
    requires Initial(start) && k < |Run(start, inputs).log|
    ensures !Run(start, inputs).log[k].CamConnectFail?
  {
    assert forall k: nat :: NumberInv(start, k);
    RunKeeps(start, inputs);
    assert Run(start, inputs).log[k] in Run(start, inputs).log;
  }

  // ---- where the code departs from section 7.2 of EN 50221 ----

  function CreateResponse(status: byte, resource: nat, n: u16): seq<byte> {
    [ST_CREATE_SESSION_RES, 7, status] + ResourceId(resource) + Number(n)
  }

  // The session number of a create_session_response is read one byte too early.
  // A well-formed positive response therefore activates the session it names if
  // and only if three bytes happen to agree.
  lemma CreateResponseActivatesIff(l: Layer, n: u16, slot: byte, conn: byte, env: Env)
    requires n < |l.sessions| && l.sessions[n].state == InCreation && BoundTo(l.sessions[n], slot, conn)
    ensures var resource := l.sessions[n].binding.resource;
      OnTransport(l, Data, CreateResponse(S_STATUS_OPEN, resource, n), slot, conn, env).sessions[n].state == Active
      <==> resource % 256 == n / 256 == n % 256
  {
    var data := CreateResponse(S_STATUS_OPEN, l.sessions[n].binding.resource, n);
    assert data[1..][5] == l.sessions[n].binding.resource % 256;
    assert data[1..][6] == n / 256;
  }

  // In particular no session that the host can number below 257 is ever opened
  // by its own response.
  lemma HostSessionsStayInCreation(l: Layer, n: u16, slot: byte, conn: byte, env: Env)
    requires 1 <= n < 257 && n < |l.sessions| && l.sessions[n].state == InCreation && BoundTo(l.sessions[n], slot, conn)
    ensures OnTransport(l, Data, CreateResponse(S_STATUS_OPEN, l.sessions[n].binding.resource, n), slot, conn, env)
              .sessions[n].state != Active
  {
    CreateResponseActivatesIff(l, n, slot, conn, env);
  }

  // A close_session_response has length 3, which the code refuses: it completes
  // a deletion if and only if its length byte is 4 and a byte follows the number.
  lemma CloseResponseCompletesIff(l: Layer, length: byte, status: byte, n: u16, rest: seq<byte>, slot: byte,
                                  conn: byte, env: Env)
    requires n < |l.sessions| && l.sessions[n].state == InDeletion && BoundTo(l.sessions[n], slot, conn)
    ensures var m := OnTransport(l, Data, [ST_CLOSE_SESSION_RES, length, status] + Number(n) + rest, slot, conn, env);
      m.sessions[n].state == Idle <==> length == 4 && rest != []
  {
    var data := [ST_CLOSE_SESSION_RES, length, status] + Number(n) + rest;
    assert data[1..][0] == length && data[1..][2] == n / 256 && data[1..][3] == n % 256;
  }

  // Even the layer's own reply to a close_session_request would be refused.
  lemma OwnCloseResponseIsRefused(l: Layer, code: byte, n: u16, slot: byte, conn: byte, env: Env)
    ensures OnTransport(l, Data, [ST_CLOSE_SESSION_RES, 3, code] + Number(n), slot, conn, env) == l
  {
    var data := [ST_CLOSE_SESSION_RES, 3, code] + Number(n);
    assert data[1..][0] == 3;
  }

  // A connection id is only unique within its slot, but a closing connection ends
  // the sessions with its id on every slot: the sessions of other slots are left
  // alone if and only if no live one of them has the same connection id.
  lemma ClosingIsLocalIff(l: Layer, slot: byte, conn: byte, env: Env)
    ensures var m := OnTransport(l, ConnectionClose, [], slot, conn, env);
      (forall n :: 0 <= n < |l.sessions| && l.sessions[n].binding.slot != slot ==> m.sessions[n] == l.sessions[n])
      <==> forall n :: 0 <= n < |l.sessions| && l.sessions[n].binding.slot != slot && l.sessions[n].state != Idle ==>
             l.sessions[n].binding.conn != conn
  {
    var m := OnTransport(l, ConnectionClose, [], slot, conn, env);
    assert forall n :: 0 <= n < |l.sessions| ==> m.sessions[n] == EndOne(l.sessions[n], ConnectionClose, slot, conn);
  }

  // Connection 1 of slot 0 closes, and the session on connection 1 of slot 1 is gone.
  lemma OtherSlotIsEnded(b: Binding, env: Env)
    requires b.slot == 1 && b.conn == 1
    ensures var l := Layer([Session(Idle, b), Session(Active, b)], []);
      OnTransport(l, ConnectionClose, [], 0, 1, env).sessions[1].state == Idle
  {
  }
}
