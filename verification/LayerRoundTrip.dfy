// The session and transport layers print what they parse: data sent on a session
// comes back, TPDU by TPDU and APDU by APDU, as what was sent.
module LayerRoundTrip {
  import opened Bytes
  import Asn1
  import T = Transport
  import S = SessionMachine

  // A tag of three bytes, a length field and as many bytes as it says.
  predicate WellFormedApdu(a: seq<byte>) {
    |a| >= 3 &&
    (var f := Asn1.Decode(a[3..]);
     f.Length? && |a| == 3 + f.used + f.value)
  }

  // ---- APDUs ----

  lemma OneApdu(a: seq<byte>, rest: seq<byte>)
    requires WellFormedApdu(a)
    ensures S.Apdus(a + rest) == [a] + S.Apdus(rest)
  {
    Asn1.DecodePrefix(a[3..], rest);
    assert (a + rest)[3..] == a[3..] + rest;
    assert (a + rest)[..|a|] == a && (a + rest)[|a|..] == rest;
  }

  lemma {:induction false} ApdusOfConcatenation(apdus: seq<seq<byte>>)
    requires forall i :: 0 <= i < |apdus| ==> WellFormedApdu(apdus[i])
    ensures S.Apdus(Flatten(apdus)) == apdus
  {
    if apdus != [] {
      ApdusOfConcatenation(apdus[1..]);
      OneApdu(apdus[0], Flatten(apdus[1..]));
      assert apdus == [apdus[0]] + apdus[1..];
    }
  }

  lemma FirstApdu(d: seq<byte>) returns (n: nat)
    requires S.Apdus(d) != []
    ensures 0 < n <= |d| && WellFormedApdu(d[..n]) && S.Apdus(d) == [d[..n]] + S.Apdus(d[n..])
  {
    var f := Asn1.Decode(d[3..]);
    n := 3 + f.used + f.value;
    FieldIsLocal(d, n);
  }

  lemma PrefixGrows(d: seq<byte>, n: nat, rest: seq<byte>)
    requires n <= |d| && rest <= d[n..]
    ensures d[..n] + rest == d[..n + |rest|] && d[n..][|rest|..] == d[n + |rest|..]
  {
  }

  // On any input the splitter yields well-formed APDUs that are a prefix of it,
  // and stops only where no further APDU can be read.
  lemma {:induction false} ApdusOfAnything(d: seq<byte>)
    ensures var apdus := S.Apdus(d);
      && (forall i :: 0 <= i < |apdus| ==> WellFormedApdu(apdus[i]))
      && |Flatten(apdus)| <= |d| && Flatten(apdus) == d[..|Flatten(apdus)|]
      && S.Apdus(d[|Flatten(apdus)|..]) == []
    decreases |d|
  {
    if S.Apdus(d) == [] {
      assert d[0..] == d;
    } else {
      var n := FirstApdu(d);
      ApdusOfAnything(d[n..]);
      var more := S.Apdus(d[n..]);
      assert S.Apdus(d)[0] == d[..n] && S.Apdus(d)[1..] == more;
      PrefixGrows(d, n, Flatten(more));
    }
  }

  lemma FieldIsLocal(d: seq<byte>, n: nat)
    requires 3 <= |d| && n <= |d|
    requires var f := Asn1.Decode(d[3..]); f.Length? && n == 3 + f.used + f.value
    ensures WellFormedApdu(d[..n])
  {
    var f := Asn1.Decode(d[3..]);
    assert d[..n][3..] == d[3..n];
    Asn1.DecodePrefix(d[3..], []);
    assert d[3..][..f.used] == d[3..n][..f.used];
    Asn1.DecodePrefix(d[3..][..f.used], d[3..n][f.used..]);
    assert d[3..n] == d[3..][..f.used] + d[3..n][f.used..];
  }

  // ---- TPDUs ----

  // A data message parses back to exactly the data it was built from if and only
  // if its length, one more than the data, fits the 16-bit field.
  lemma DataMessageParsesIff(conn: byte, data: seq<byte>)
    ensures var m := T.DataMessage(conn, data);
      T.ParseTpdu(m) == T.Parsed(T.Tpdu(T.T_DATA_LAST, conn, data), |m|) <==> |data| + 1 <= 65535
  {
    var m, n := T.DataMessage(conn, data), (|data| + 1) % 0x1_0000;
    MessageDecodes(m, n, conn, data);
    HeaderCovers(m, |Asn1.Field(n)|, n, conn, data);
  }

  lemma MessageDecodes(m: seq<byte>, n: u16, conn: byte, data: seq<byte>)
    requires m == [T.T_DATA_LAST] + Asn1.Field(n) + [conn] + data
    ensures var f := |Asn1.Field(n)|;
      && |m| == 2 + f + |data| && m[0] == T.T_DATA_LAST && m[1 + f] == conn && m[2 + f..] == data
      && Asn1.Decode(m[1..]) == Asn1.Length(f, n)
  {
    MessageParts(m, T.T_DATA_LAST, Asn1.Field(n), conn, data);
    Asn1.FieldRoundTrip(n, [conn] + data);
  }

  lemma HeaderCovers(m: seq<byte>, f: nat, n: u16, conn: byte, data: seq<byte>)
    requires |m| == 2 + f + |data| && m[1 + f] == conn && m[2 + f..] == data
    requires Asn1.Decode(m[1..]) == Asn1.Length(f, n) && n <= |data| + 1
    ensures T.ParseTpdu(m) == T.Parsed(T.Tpdu(m[0], conn, data), |m|) <==> n == |data| + 1
  {
    if n == |data| + 1 {
      assert m[2 + f..|m|] == data;
    }
  }

  lemma MessageParts(m: seq<byte>, tag: byte, field: seq<byte>, conn: byte, data: seq<byte>)
    requires m == [tag] + field + [conn] + data
    ensures |m| == 2 + |field| + |data| && m[0] == tag && m[1 + |field|] == conn
    ensures m[1..] == field + ([conn] + data) && m[2 + |field|..] == data
  {
  }

  // One data message, received on an active connection with no pending chain,
  // is passed upward as it is.
  lemma MessageIsDelivered(slots: seq<T.Slot>, s: nat, conn: byte, data: seq<byte>, w: nat -> T.Writes)
    requires s < |slots| && conn < |slots[s].conns|
    requires slots[s].conns[conn].state == T.Active && slots[s].conns[conn].chain == None
    requires data != [] && |data| + 1 <= 65535
    ensures var c := slots[s].conns[conn];
      T.ProcessData(slots, s, T.DataMessage(conn, data), w, 0) ==
      T.Step(T.Put(slots, s, conn, c.(waiting := false,
               log := c.log + Delivery(data))), T.Done(0))
  {
    var m := T.DataMessage(conn, data);
    var c := slots[s].conns[conn];
    DataMessageParsesIff(conn, data);
    T.ProcessDataStep(slots, s, m, w, 0);
    assert m[|m|..] == [];
    OneMessage(slots, s, conn, data, w(0));
  }

  // The history of one block that arrives as a single message.
  function Delivery(data: seq<byte>): seq<T.Event> {
    [T.Got(T.T_DATA_LAST, data), T.Cleared, T.Fragment(true, data), T.Delivered(data)]
  }

  lemma OneMessage(slots: seq<T.Slot>, s: nat, conn: byte, data: seq<byte>, w: T.Writes)
    requires s < |slots| && conn < |slots[s].conns| && data != []
    requires slots[s].conns[conn].state == T.Active && slots[s].conns[conn].chain == None
    ensures var c := slots[s].conns[conn];
      T.OnTpdu(slots, s, T.Tpdu(T.T_DATA_LAST, conn, data), w) ==
      T.Step(T.Put(slots, s, conn, c.(waiting := false, log := c.log + Delivery(data))), T.Done(0))
  {
    var c := slots[s].conns[conn];
    var h := T.Say(c, T.Got(T.T_DATA_LAST, data));
    assert [] + data == data;
    DeliveryLog(c.log, data);
    T.PutTwice(slots, s, conn, h, T.OnLast(h, data).conn);
  }

  lemma DeliveryLog(log: seq<T.Event>, data: seq<byte>)
    ensures log + [T.Got(T.T_DATA_LAST, data)] + [T.Cleared, T.Fragment(true, data)] + [T.Delivered(data)]
      == log + Delivery(data)
  {
  }

  // ---- both layers ----

  // Whatever is sent on an active connection without a pending chain: the message
  // queued for it, fed back to the receiving side, is passed upward as it is.
  lemma SentDataIsDelivered(slots: seq<T.Slot>, s: byte, conn: byte, data: seq<byte>, w: nat -> T.Writes)
    requires s < |slots| && slots[s].open && conn < |slots[s].conns|
    requires slots[s].conns[conn].state == T.Active && slots[s].conns[conn].chain == None
    requires data != [] && |data| + 1 <= 65535
    ensures var sent := T.SendData(slots, s, conn, data);
      && sent.result == T.Done(0) && |sent.slots| == |slots| && |sent.slots[s].conns| == |slots[s].conns|
      && var c := sent.slots[s].conns[conn];
         && c.queue == slots[s].conns[conn].queue + [T.DataMessage(conn, data)]
         && T.ProcessData(sent.slots, s, T.DataMessage(conn, data), w, 0) ==
              T.Step(T.Put(sent.slots, s, conn, c.(waiting := false,
                       log := c.log + Delivery(data))), T.Done(0))
  {
    MessageIsDelivered(T.SendData(slots, s, conn, data).slots, s, conn, data, w);
  }

  // The receiving session layer turns the SPDU of well-formed APDUs into one call
  // of the session's callback for each of them, in order.
  lemma SpduReachesCallback(l: S.Layer, n: u16, apdus: seq<seq<byte>>, env: S.Env)
    requires n < |l.sessions| && l.sessions[n].state == S.Active
    requires forall i :: 0 <= i < |apdus| ==> WellFormedApdu(apdus[i])
    ensures var b := l.sessions[n].binding;
      S.OnTransport(l, S.Data, S.DataSpdu(n, Flatten(apdus)), b.slot, b.conn, env)
        == l.(log := l.log + S.ApduEvents(n, b, b.slot, b.conn, apdus))
  {
    ApdusOfConcatenation(apdus);
    SpduOfSession(l, n, Flatten(apdus), env);
  }

  lemma SpduOfSession(l: S.Layer, n: u16, data: seq<byte>, env: S.Env)
    requires n < |l.sessions| && l.sessions[n].state == S.Active
    ensures var b := l.sessions[n].binding;
      S.OnTransport(l, S.Data, S.DataSpdu(n, data), b.slot, b.conn, env)
        == l.(log := l.log + S.ApduEvents(n, b, b.slot, b.conn, S.Apdus(data)))
  {
    var b := l.sessions[n].binding;
    PackageReachesCallback(l, n, data);
    SpduShape(n, data);
    SpduIsPackage(l, S.DataSpdu(n, data), [2] + S.Number(n) + data, b.slot, b.conn, env);
  }

  lemma SpduShape(n: u16, data: seq<byte>)
    ensures S.DataSpdu(n, data) == [S.ST_SESSION_NUMBER] + ([2] + S.Number(n) + data)
  {
  }

  lemma SpduIsPackage(l: S.Layer, spdu: seq<byte>, body: seq<byte>, slot: byte, conn: byte, env: S.Env)
    requires spdu == [S.ST_SESSION_NUMBER] + body
    ensures S.OnTransport(l, S.Data, spdu, slot, conn, env) == S.OnSessionPackage(l, body, slot, conn)
  {
    assert spdu[1..] == body;
  }

  lemma PackageReachesCallback(l: S.Layer, n: u16, data: seq<byte>)
    requires n < |l.sessions| && l.sessions[n].state == S.Active
    ensures var b := l.sessions[n].binding;
      S.OnSessionPackage(l, [2] + S.Number(n) + data, b.slot, b.conn)
        == l.(log := l.log + S.ApduEvents(n, b, b.slot, b.conn, S.Apdus(data)))
  {
    var body := [2] + S.Number(n) + data;
    assert body[0] == 2 && body[1] == n / 256 && body[2] == n % 256;
    assert body[3..] == data;
  }
}
