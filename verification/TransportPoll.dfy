// en50221_tl_poll over all slots: what arrives is routed to the slot it is for, and
// the connections of every open slot are visited. Each poll is a run of the machine,
// so what holds in every run holds through any polls and calls.
module TransportPoll {
  import opened Bytes
  import opened Transport

  // Where a slot's module is: the device handle, and the slot number on that device.
  datatype Address = Address(handle: int, number: byte)

  // What a readable device gives: an error, nothing, or data for a slot number of it.
  datatype Arrival = ReadFails | Nothing | Arrived(number: byte, data: seq<byte>)

  // What poll(2) reports of a slot.
  datatype Ready = Quiet | Readable(arrival: Arrival) | Broken

  // What the link, poll(2) and the clock do in one poll: w(s)(k) with the k-th TPDU
  // that arrives on slot s, v(s)(j) at connection j of slot s.
  datatype World = World(ok: bool, ready: nat -> Ready, w: nat -> nat -> Writes, v: nat -> nat -> Visit)

  // The first open slot from t on with an address.
  function FirstAt(slots: seq<Slot>, addr: nat -> Address, a: Address, t: nat): (r: Option<nat>)
    ensures r.Some? ==> t <= r.value < |slots| && slots[r.value].open && addr(r.value) == a
    ensures forall i :: t <= i < (if r.Some? then r.value else |slots|) ==> !slots[i].open || addr(i) != a
    decreases |slots| - t
  {
    if t >= |slots| then None
    else if slots[t].open && addr(t) == a then Some(t)
    else FirstAt(slots, addr, a, t + 1)
  }

  // The slot that data read on slot s is for.
  function Target(slots: seq<Slot>, addr: nat -> Address, s: nat, number: byte): (r: Option<nat>)
    requires s < |slots| && slots[s].open
    ensures r.Some? ==> r.value < |slots| && slots[r.value].open && addr(r.value) == Address(addr(s).handle, number)
    ensures r.None? ==> forall i :: 0 <= i < |slots| && slots[i].open ==> addr(i) != Address(addr(s).handle, number)
  {
    if addr(s).number == number then Some(s) else FirstAt(slots, addr, Address(addr(s).handle, number), 0)
  }

  // ---- nothing that is received or visited adds, removes, opens or closes a slot ----

  ghost predicate SameSlots(a: seq<Slot>, b: seq<Slot>) {
    |a| == |b| && forall s :: 0 <= s < |a| ==> a[s].open == b[s].open && |a[s].conns| == |b[s].conns|
  }

  lemma TpduKeepsSlots(slots: seq<Slot>, s: nat, t: Tpdu, w: Writes)
    requires s < |slots|
    ensures SameSlots(slots, OnTpdu(slots, s, t, w).slots)
  {
  }

  lemma {:induction false} ProcessKeepsSlots(slots: seq<Slot>, s: nat, data: seq<byte>, w: nat -> Writes, k: nat)
    requires s < |slots|
    ensures SameSlots(slots, ProcessData(slots, s, data, w, k).slots)
    decreases |data|
  {
    if data != [] {
      var p := ParseTpdu(data);
      if p.Parsed? {
        var r := OnTpdu(slots, s, p.tpdu, w(k));
        TpduKeepsSlots(slots, s, p.tpdu, w(k));
        ProcessDataStep(slots, s, data, w, k);
        if r.result.Done? { ProcessKeepsSlots(r.slots, s, data[p.used..], w, k + 1); }
      }
    }
  }

  lemma {:induction false} VisitsKeepSlots(slots: seq<Slot>, s: nat, v: nat -> Visit, j: nat)
    requires s < |slots|
    ensures SameSlots(slots, VisitAll(slots, s, v, j).slots)
    decreases |slots[s].conns| - j
  {
    if j < |slots[s].conns| {
      var r := OnVisit(slots[s].conns[j], j, v(j));
      if r.result.Done? { VisitsKeepSlots(Put(slots, s, j, r.conn), s, v, j + 1); }
    }
  }

  // ---- the poll ----

  function Hear(slots: seq<Slot>, addr: nat -> Address, s: nat, e: World): (r: Step)
    requires s < |slots| && slots[s].open
    ensures SameSlots(slots, r.slots)
  {
    match e.ready(s)
    case Quiet => Step(slots, Done(0))
    case Broken => Step(slots, Fail(CaRead))
    case Readable(ReadFails) => Step(slots, Fail(CaRead))
    case Readable(Nothing) => Step(slots, Done(0))
    case Readable(Arrived(number, data)) =>
      if data == [] then Step(slots, Done(0))
      else
        match Target(slots, addr, s, number)
        case None => Step(slots, Fail(BadSlotId))
        case Some(t) =>
          ProcessKeepsSlots(slots, t, data, e.w(s), 0);
          ProcessData(slots, t, data, e.w(s), 0)
  }

  // One slot: what arrives, then its connections.
  function PollOne(slots: seq<Slot>, addr: nat -> Address, s: nat, e: World): (r: Step)
    requires s < |slots|
    ensures SameSlots(slots, r.slots)
  {
    if !slots[s].open then Step(slots, Done(0))
    else
      var h := Hear(slots, addr, s, e);
      VisitsKeepSlots(h.slots, s, e.v(s), 0);
      if h.result.Fail? then h else VisitAll(h.slots, s, e.v(s), 0)
  }

  function PollFrom(slots: seq<Slot>, addr: nat -> Address, s: nat, e: World): Step
    decreases |slots| - s
  {
    if s >= |slots| then Step(slots, Done(0))
    else
      var r := PollOne(slots, addr, s, e);
      if r.result.Fail? then r else PollFrom(r.slots, addr, s + 1, e)
  }

  function Poll(slots: seq<Slot>, addr: nat -> Address, e: World): Step {
    if !e.ok then Step(slots, Fail(CaRead)) else PollFrom(slots, addr, 0, e)
  }

  // ---- a poll is a run ----

  lemma {:induction false} RunAppend(slots: seq<Slot>, a: seq<Input>, b: seq<Input>)
    ensures Run(slots, a + b) == Run(Run(slots, a), b)
    decreases |a|
  {
    if a == [] {
      assert a + b == b;
    } else {
      assert (a + b)[1..] == a[1..] + b;
      RunAppend(Apply(slots, a[0]).slots, a[1..], b);
    }
  }

  lemma RunOne(slots: seq<Slot>, i: Input, rest: seq<Input>)
    ensures Run(slots, [i] + rest) == Run(Apply(slots, i).slots, rest)
  {
    assert ([i] + rest)[1..] == rest;
  }

  lemma {:induction false} ProcessIsRun(slots: seq<Slot>, s: nat, data: seq<byte>, w: nat -> Writes, k: nat)
    returns (inputs: seq<Input>)
    requires s < |slots| && slots[s].open
    ensures Run(slots, inputs) == ProcessData(slots, s, data, w, k).slots
    decreases |data|
  {
    inputs := [];
    if data != [] {
      var p := ParseTpdu(data);
      if p.Parsed? {
        var r := OnTpdu(slots, s, p.tpdu, w(k));
        TpduKeepsSlots(slots, s, p.tpdu, w(k));
        ProcessDataStep(slots, s, data, w, k);
        var i := Received(s, p.tpdu, w(k));
        var rest := [];
        if r.result.Done? { rest := ProcessIsRun(r.slots, s, data[p.used..], w, k + 1); }
        RunOne(slots, i, rest);
        inputs := [i] + rest;
      }
    }
  }

  lemma {:induction false} VisitsAreRun(slots: seq<Slot>, s: nat, v: nat -> Visit, j: nat) returns (inputs: seq<Input>)
    requires s < |slots| && slots[s].open
    ensures Run(slots, inputs) == VisitAll(slots, s, v, j).slots
    decreases |slots[s].conns| - j
  {
    inputs := [];
    if j < |slots[s].conns| {
      var i := Visited(s, j, v(j));
      var r := Apply(slots, i);
      var rest := [];
      if r.result.Done? { rest := VisitsAreRun(r.slots, s, v, j + 1); }
      RunOne(slots, i, rest);
      inputs := [i] + rest;
    }
  }

  lemma HearIsRun(slots: seq<Slot>, addr: nat -> Address, s: nat, e: World) returns (inputs: seq<Input>)
    requires s < |slots| && slots[s].open
    ensures Run(slots, inputs) == Hear(slots, addr, s, e).slots
  {
    inputs := [];
    match e.ready(s) {
      case Readable(Arrived(number, data)) =>
        var t := Target(slots, addr, s, number);
        if data != [] && t.Some? { inputs := ProcessIsRun(slots, t.value, data, e.w(s), 0); }
      case _ =>
    }
  }

  lemma PollOneIsRun(slots: seq<Slot>, addr: nat -> Address, s: nat, e: World) returns (inputs: seq<Input>)
    requires s < |slots|
    ensures Run(slots, inputs) == PollOne(slots, addr, s, e).slots
  {
    inputs := [];
    if slots[s].open {
      inputs := HearIsRun(slots, addr, s, e);
      var h := Hear(slots, addr, s, e);
      if h.result.Done? {
        var more := VisitsAreRun(h.slots, s, e.v(s), 0);
        RunAppend(slots, inputs, more);
        inputs := inputs + more;
      }
    }
  }

  lemma {:induction false} PollFromIsRun(slots: seq<Slot>, addr: nat -> Address, s: nat,
                                         e: World) returns (inputs: seq<Input>)
    ensures Run(slots, inputs) == PollFrom(slots, addr, s, e).slots
    decreases |slots| - s
  {
    inputs := [];
    if s < |slots| {
      inputs := PollOneIsRun(slots, addr, s, e);
      var r := PollOne(slots, addr, s, e);
      if r.result.Done? {
        var more := PollFromIsRun(r.slots, addr, s + 1, e);
        RunAppend(slots, inputs, more);
        inputs := inputs + more;
      }
    }
  }

  // A call to the layer, or a poll.
  datatype Use = Call(input: Input) | PollAll(addr: nat -> Address, e: World)

  function Uses(slots: seq<Slot>, us: seq<Use>): seq<Slot>
    decreases |us|
  {
    if us == [] then slots
    else
      var next := if us[0].Call? then Apply(slots, us[0].input).slots else Poll(slots, us[0].addr, us[0].e).slots;
      Uses(next, us[1..])
  }

  // Any calls and polls whatever come to a run of the machine: every theorem about
  // all runs is one about all uses of the layer.
  lemma {:induction false} EveryUseIsARun(slots: seq<Slot>, us: seq<Use>) returns (inputs: seq<Input>)
    ensures Run(slots, inputs) == Uses(slots, us)
    decreases |us|
  {
    inputs := [];
    if us != [] {
      if us[0].Call? {
        var next := Apply(slots, us[0].input).slots;
        var rest := EveryUseIsARun(next, us[1..]);
        RunOne(slots, us[0].input, rest);
        inputs := [us[0].input] + rest;
      } else {
        if us[0].e.ok { inputs := PollFromIsRun(slots, us[0].addr, 0, us[0].e); }
        var rest := EveryUseIsARun(Poll(slots, us[0].addr, us[0].e).slots, us[1..]);
        RunAppend(slots, inputs, rest);
        inputs := inputs + rest;
      }
    }
  }
}
