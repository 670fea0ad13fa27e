// What one poll of the transport layer does, as one flat list of steps worked out
// before it begins: for every open slot, in order, the TPDUs in what arrives for it and
// then a visit to each of its connections; the first error ends it.
module TransportScript {
  import opened Bytes
  import Asn1
  import opened Transport
  import opened TransportPoll

  datatype Order = Do(input: Input) | Raise(error: Error)

  function Play(slots: seq<Slot>, os: seq<Order>): Step
    decreases |os|
  {
    if os == [] then Step(slots, Done(0))
    else
      match os[0]
      case Raise(error) => Step(slots, Fail(error))
      case Do(input) =>
        var r := Apply(slots, input);
        if r.result.Fail? then r else Play(r.slots, os[1..])
  }

  lemma {:induction false} PlayAppend(slots: seq<Slot>, a: seq<Order>, b: seq<Order>)
    ensures Play(slots, a + b) ==
      var r := Play(slots, a);
      if r.result.Fail? then r else Play(r.slots, b)
    decreases |a|
  {
    if a == [] {
      assert a + b == b;
    } else {
      assert (a + b)[1..] == a[1..] + b;
      if a[0].Do? { PlayAppend(Apply(slots, a[0].input).slots, a[1..], b); }
    }
  }

  // ---- the TPDUs in what arrives ----

  // The TPDUs at the front of the data, and what is left behind them.
  function Cut(data: seq<byte>): (r: (seq<Tpdu>, seq<byte>))
    decreases |data|
  {
    if data == [] then ([], [])
    else
      match ParseTpdu(data)
      case Garbage => ([], data)
      case Parsed(t, used) =>
        var (ts, rest) := Cut(data[used..]);
        ([t] + ts, rest)
  }

  predicate Printable(t: Tpdu) { |t.body| + 1 < 0x1_0000 }

  // A TPDU on the wire.
  function TpduBytes(t: Tpdu): seq<byte>
    requires Printable(t)
  {
    [t.tag] + Asn1.Field(|t.body| + 1) + [t.conn] + t.body
  }

  function AllBytes(ts: seq<Tpdu>): seq<byte>
    requires forall k :: 0 <= k < |ts| ==> Printable(ts[k])
  {
    if ts == [] then [] else TpduBytes(ts[0]) + AllBytes(ts[1..])
  }

  lemma Parts(tag: byte, field: seq<byte>, conn: byte, body: seq<byte>, rest: seq<byte>, d: seq<byte>)
    requires d == [tag] + field + [conn] + body + rest
    ensures d[0] == tag && d[1..] == field + ([conn] + body + rest) && |d| == 2 + |field| + |body| + |rest|
    ensures d[1 + |field|] == conn && d[2 + |field|..2 + |field| + |body|] == body && d[2 + |field| + |body|..] == rest
  {
  }

  lemma TpduIsParsed(t: Tpdu, rest: seq<byte>)
    requires Printable(t)
    ensures ParseTpdu(TpduBytes(t) + rest) == Parsed(t, |TpduBytes(t)|)
    ensures (TpduBytes(t) + rest)[|TpduBytes(t)|..] == rest
  {
    var field := Asn1.Field(|t.body| + 1);
    Parts(t.tag, field, t.conn, t.body, rest, TpduBytes(t) + rest);
    Asn1.FieldRoundTrip(|t.body| + 1, [t.conn] + t.body + rest);
  }

  // A TPDU that is cut short is not taken for one.
  lemma CutShortIsGarbage(t: Tpdu, n: nat)
    requires Printable(t) && 0 < n < |TpduBytes(t)|
    ensures ParseTpdu(TpduBytes(t)[..n]).Garbage?
  {
    var d, f := TpduBytes(t), Asn1.Field(|t.body| + 1);
    var a := d[..n][1..];
    Parts(t.tag, f, t.conn, t.body, [], d + []);
    assert d + [] == d && a + d[n..] == d[1..];
    Asn1.FieldRoundTrip(|t.body| + 1, [t.conn] + t.body + []);
    if Asn1.Decode(a).Length? { Asn1.DecodePrefix(a, d[n..]); }
  }

  // Any TPDUs, one behind the other, are taken apart again, whatever is left behind.
  lemma {:induction false} TpdusComeBack(ts: seq<Tpdu>, rest: seq<byte>)
    requires forall k :: 0 <= k < |ts| ==> Printable(ts[k])
    requires rest == [] || ParseTpdu(rest).Garbage?
    ensures Cut(AllBytes(ts) + rest) == (ts, rest)
  {
    if ts == [] {
      assert AllBytes(ts) + rest == rest;
    } else {
      TpdusComeBack(ts[1..], rest);
      var more := AllBytes(ts[1..]) + rest;
      Associates(TpduBytes(ts[0]), AllBytes(ts[1..]), rest);
      FirstComesBack(ts[0], more, ts[1..], rest);
      assert [ts[0]] + ts[1..] == ts;
    }
  }

  lemma FirstComesBack(t: Tpdu, more: seq<byte>, ts: seq<Tpdu>, rest: seq<byte>)
    requires Printable(t) && Cut(more) == (ts, rest)
    ensures Cut(TpduBytes(t) + more) == ([t] + ts, rest)
  {
    TpduIsParsed(t, more);
    OneTpdu(TpduBytes(t) + more, t, |TpduBytes(t)|, more, ts, rest);
  }

  lemma OneTpdu(data: seq<byte>, t: Tpdu, used: nat, more: seq<byte>, ts: seq<Tpdu>, rest: seq<byte>)
    requires data != [] && ParseTpdu(data) == Parsed(t, used) && data[used..] == more && Cut(more) == (ts, rest)
    ensures Cut(data) == ([t] + ts, rest)
  {
  }

  // w(k + i) is what the link does for the i-th of them.
  function Receipts(s: nat, ts: seq<Tpdu>, w: nat -> Writes, k: nat): seq<Order> {
    seq(|ts|, i requires 0 <= i < |ts| => Do(Received(s, ts[i], w(k + i))))
  }

  lemma ReceiptsFromFront(s: nat, t: Tpdu, ts: seq<Tpdu>, w: nat -> Writes, k: nat)
    ensures Receipts(s, [t] + ts, w, k) == [Do(Received(s, t, w(k)))] + Receipts(s, ts, w, k + 1)
  {
    var a, b := Receipts(s, [t] + ts, w, k), [Do(Received(s, t, w(k)))] + Receipts(s, ts, w, k + 1);
    forall i | 0 <= i < |a| ensures a[i] == b[i] {
      if i > 0 { assert ([t] + ts)[i] == ts[i - 1] && k + i == k + 1 + (i - 1); }
    }
  }

  // What arrives for a slot: every TPDU of it, and an error if that is not all.
  function Taken(s: nat, data: seq<byte>, w: nat -> Writes, k: nat): seq<Order> {
    Receipts(s, Cut(data).0, w, k) + if Cut(data).1 == [] then [] else [Raise(BadCamData)]
  }

  lemma TakenFromFront(s: nat, data: seq<byte>, w: nat -> Writes, k: nat, t: Tpdu, used: nat)
    requires data != [] && ParseTpdu(data) == Parsed(t, used)
    ensures Taken(s, data, w, k) == [Do(Received(s, t, w(k)))] + Taken(s, data[used..], w, k + 1)
  {
    var (ts, rest) := Cut(data[used..]);
    OneTpdu(data, t, used, data[used..], ts, rest);
    ReceiptsFromFront(s, t, ts, w, k);
    Associates([Do(Received(s, t, w(k)))], Receipts(s, ts, w, k + 1), if rest == [] then [] else [Raise(BadCamData)]);
  }

  lemma PlayFirst(slots: seq<Slot>, input: Input, os: seq<Order>)
    ensures Play(slots, [Do(input)] + os) ==
      var r := Apply(slots, input);
      if r.result.Fail? then r else Play(r.slots, os)
  {
    assert ([Do(input)] + os)[1..] == os;
  }

  lemma {:induction false} ProcessIsPlay(slots: seq<Slot>, s: nat, data: seq<byte>, w: nat -> Writes, k: nat)
    requires s < |slots| && slots[s].open
    ensures ProcessData(slots, s, data, w, k) == Play(slots, Taken(s, data, w, k))
    decreases |data|
  {
    if data == [] {
      assert Taken(s, data, w, k) == [];
    } else {
      var p := ParseTpdu(data);
      if p.Garbage? {
        assert Taken(s, data, w, k) == [Raise(BadCamData)];
      } else {
        var r := OnTpdu(slots, s, p.tpdu, w(k));
        TpduKeepsSlots(slots, s, p.tpdu, w(k));
        ProcessDataStep(slots, s, data, w, k);
        TakenFromFront(s, data, w, k, p.tpdu, p.used);
        PlayFirst(slots, Received(s, p.tpdu, w(k)), Taken(s, data[p.used..], w, k + 1));
        if r.result.Done? { ProcessIsPlay(r.slots, s, data[p.used..], w, k + 1); }
      }
    }
  }

  // ---- the visits ----

  // A visit to each of n connections, from the j-th on.
  function Turn(s: nat, n: nat, v: nat -> Visit, j: nat): (os: seq<Order>)
    decreases n - j
  {
    if j >= n then [] else [Do(Visited(s, j, v(j)))] + Turn(s, n, v, j + 1)
  }

  lemma {:induction false} TurnVisitsEach(s: nat, n: nat, v: nat -> Visit, j: nat, k: nat)
    requires j <= k < n
    ensures |Turn(s, n, v, j)| == n - j && Turn(s, n, v, j)[k - j] == Do(Visited(s, k, v(k)))
    decreases n - j
  {
    if j < k {
      TurnVisitsEach(s, n, v, j + 1, k);
    } else if j + 1 < n {
      TurnVisitsEach(s, n, v, j + 1, j + 1);
    }
  }

  lemma {:induction false} VisitsArePlay(slots: seq<Slot>, s: nat, v: nat -> Visit, j: nat)
    requires s < |slots| && slots[s].open
    ensures VisitAll(slots, s, v, j) == Play(slots, Turn(s, |slots[s].conns|, v, j))
    decreases |slots[s].conns| - j
  {
    var n := |slots[s].conns|;
    if j < n {
      var r := Apply(slots, Visited(s, j, v(j)));
      PlayFirst(slots, Visited(s, j, v(j)), Turn(s, n, v, j + 1));
      if r.result.Done? { VisitsArePlay(r.slots, s, v, j + 1); }
    }
  }

  // ---- the poll ----

  function Heard(slots: seq<Slot>, addr: nat -> Address, s: nat, e: World): seq<Order>
    requires s < |slots| && slots[s].open
  {
    match e.ready(s)
    case Quiet => []
    case Broken => [Raise(CaRead)]
    case Readable(ReadFails) => [Raise(CaRead)]
    case Readable(Nothing) => []
    case Readable(Arrived(number, data)) =>
      var t := Target(slots, addr, s, number);
      if data == [] then [] else if t.None? then [Raise(BadSlotId)] else Taken(t.value, data, e.w(s), 0)
  }

  function SlotScript(slots: seq<Slot>, addr: nat -> Address, s: nat, e: World): seq<Order>
    requires s < |slots|
  {
    if slots[s].open then Heard(slots, addr, s, e) + Turn(s, |slots[s].conns|, e.v(s), 0) else []
  }

  function Script(slots: seq<Slot>, addr: nat -> Address, e: World): seq<Order> {
    if !e.ok then [Raise(CaRead)]
    else Flatten(seq(|slots|, s requires 0 <= s < |slots| => SlotScript(slots, addr, s, e)))
  }

  // The script is the same for all slots that differ in their connections' states only.
  lemma {:induction false} SameFirst(a: seq<Slot>, b: seq<Slot>, addr: nat -> Address, x: Address, t: nat)
    requires SameSlots(a, b)
    ensures FirstAt(a, addr, x, t) == FirstAt(b, addr, x, t)
    decreases |a| - t
  {
    if t < |a| { SameFirst(a, b, addr, x, t + 1); }
  }

  lemma SameScript(a: seq<Slot>, b: seq<Slot>, addr: nat -> Address, s: nat, e: World)
    requires SameSlots(a, b) && s < |a|
    ensures SlotScript(a, addr, s, e) == SlotScript(b, addr, s, e)
  {
    if a[s].open {
      match e.ready(s) {
        case Readable(Arrived(number, data)) => SameFirst(a, b, addr, Address(addr(s).handle, number), 0);
        case _ =>
      }
    }
  }

  lemma HearIsPlay(slots: seq<Slot>, addr: nat -> Address, s: nat, e: World)
    requires s < |slots| && slots[s].open
    ensures Hear(slots, addr, s, e) == Play(slots, Heard(slots, addr, s, e))
  {
    match e.ready(s) {
      case Readable(Arrived(number, data)) =>
        var t := Target(slots, addr, s, number);
        if data != [] && t.Some? { ProcessIsPlay(slots, t.value, data, e.w(s), 0); }
      case _ =>
    }
  }

  lemma PollOneIsPlay(slots: seq<Slot>, addr: nat -> Address, s: nat, e: World)
    requires s < |slots|
    ensures PollOne(slots, addr, s, e) == Play(slots, SlotScript(slots, addr, s, e))
  {
    if slots[s].open {
      var h, n := Hear(slots, addr, s, e), |slots[s].conns|;
      HearIsPlay(slots, addr, s, e);
      PlayAppend(slots, Heard(slots, addr, s, e), Turn(s, n, e.v(s), 0));
      if h.result.Done? { VisitsArePlay(h.slots, s, e.v(s), 0); }
    }
  }

  // The scripts of the slots from s on.
  function Scripts(slots: seq<Slot>, addr: nat -> Address, e: World, s: nat): seq<seq<Order>>
    requires s <= |slots|
  {
    seq(|slots| - s, k requires 0 <= k < |slots| - s => SlotScript(slots, addr, s + k, e))
  }

  lemma ScriptsFromFront(slots: seq<Slot>, addr: nat -> Address, e: World, s: nat)
    requires s < |slots|
    ensures Scripts(slots, addr, e, s) == [SlotScript(slots, addr, s, e)] + Scripts(slots, addr, e, s + 1)
  {
    var a, b := Scripts(slots, addr, e, s), [SlotScript(slots, addr, s, e)] + Scripts(slots, addr, e, s + 1);
    forall k | 0 <= k < |a| ensures a[k] == b[k] {
      if k > 0 { assert s + k == s + 1 + (k - 1); }
    }
  }

  lemma SameScripts(a: seq<Slot>, b: seq<Slot>, addr: nat -> Address, e: World, s: nat)
    requires SameSlots(a, b) && s <= |a|
    ensures Scripts(a, addr, e, s) == Scripts(b, addr, e, s)
  {
    var x, y := Scripts(a, addr, e, s), Scripts(b, addr, e, s);
    forall k | 0 <= k < |x| ensures x[k] == y[k] {
      SameScript(a, b, addr, s + k, e);
    }
  }

  lemma FlattenFirst(one: seq<Order>, more: seq<seq<Order>>)
    ensures Flatten([one] + more) == one + Flatten(more)
  {
    assert ([one] + more)[1..] == more;
  }

  lemma {:induction false} PollFromIsPlay(slots: seq<Slot>, addr: nat -> Address, s: nat, e: World)
    requires s <= |slots|
    ensures PollFrom(slots, addr, s, e) == Play(slots, Flatten(Scripts(slots, addr, e, s)))
    decreases |slots| - s
  {
    if s < |slots| {
      var r := PollOne(slots, addr, s, e);
      var one, more := SlotScript(slots, addr, s, e), Scripts(slots, addr, e, s + 1);
      PollOneIsPlay(slots, addr, s, e);
      ScriptsFromFront(slots, addr, e, s);
      FlattenFirst(one, more);
      PlayAppend(slots, one, Flatten(more));
      if r.result.Done? {
        SameScripts(slots, r.slots, addr, e, s + 1);
        PollFromIsPlay(r.slots, addr, s + 1, e);
      }
    }
  }

  // A whole poll plays exactly its script.
  lemma PollIsItsScript(slots: seq<Slot>, addr: nat -> Address, e: World)
    ensures Poll(slots, addr, e) == Play(slots, Script(slots, addr, e))
  {
    if e.ok {
      PollFromIsPlay(slots, addr, 0, e);
      assert Scripts(slots, addr, e, 0) == seq(|slots|, s requires 0 <= s < |slots| => SlotScript(slots, addr, s, e));
    }
  }
}
