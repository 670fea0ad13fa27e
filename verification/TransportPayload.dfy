// Sections packed into transport packet payloads as section 2.4.4 of ISO/IEC
// 13818-1 lays out, and what the reassembler's documented use makes of them.
module TransportPayload {
  import opened Bytes
  import opened SectionBuf

  // ---- the documented use: reset after each complete section, and the rest of
  // ---- the payload is passed without the unit start indicator

  datatype Driven = Driven(buf: Buf, sections: seq<seq<byte>>, failed: bool)

  ghost predicate Progress(s: Step, payload: seq<byte>) {
    Valid(s.buf) && 0 < s.used <= |payload| && (s.status == More ==> !Finished(s.buf))
  }

  lemma AccumulateProgress(b: Buf, payload: seq<byte>, used: nat)
    requires Valid(b) && !Finished(b) && used <= |payload| && (used > 0 || payload != [])
    ensures Progress(Accumulate(b, payload, used), payload)
  {
    AddKeepsValid(b, payload[used..]);
  }

  lemma FinishProgress(b: Buf, payload: seq<byte>, offset: nat)
    requires Valid(b) && !Finished(b) && offset < |payload|
    ensures Progress(Finish(b, payload, offset), payload)
  {
    AddKeepsValid(b, payload[1..1 + offset]);
  }

  // Every call on a payload makes progress through it.
  lemma AddPayloadProgress(b: Buf, payload: seq<byte>, start: bool)
    requires Valid(b) && payload != [] && !Finished(b)
    ensures Progress(AddPayload(b, payload, start), payload)
  {
    if !start {
      AccumulateProgress(b, payload, 0);
    } else if payload[0] < |payload| {
      var c, offset: int := b.(waitPdu := false), payload[0];
      if b.data != [] { FinishProgress(c, payload, offset); } else { AccumulateProgress(c, payload, 1 + offset); }
    }
  }

  function Drive(b: Buf, payload: seq<byte>, start: bool): Driven
    requires Valid(b) && !Finished(b)
    decreases |payload|
  {
    if payload == [] then Driven(b, [], false)
    else
      AddPayloadProgress(b, payload, start);
      var s := AddPayload(b, payload, start);
      if s.status == Complete then
        var rest := Drive(Reset(s.buf), payload[s.used..], false);
        rest.(sections := [s.buf.data] + rest.sections)
      else if s.status == More then Drive(s.buf, payload[s.used..], false)
      else Driven(s.buf, [], true)
  }

  lemma {:induction false} DriveKeepsValid(b: Buf, payload: seq<byte>, start: bool)
    requires Valid(b) && !Finished(b)
    ensures var d := Drive(b, payload, start); !d.failed ==> Valid(d.buf) && !Finished(d.buf)
    decreases |payload|
  {
    if payload != [] {
      AddPayloadProgress(b, payload, start);
      var s := AddPayload(b, payload, start);
      if s.status == Complete {
        DriveKeepsValid(Reset(s.buf), payload[s.used..], false);
      } else if s.status == More {
        DriveKeepsValid(s.buf, payload[s.used..], false);
      }
    }
  }

  // ---- packing ----

  // One payload: the end (or a piece) of the section under way, whole sections,
  // the head of the next section, of which `more` is still to come, and stuffing.
  datatype Payload = Payload(tail: seq<byte>, whole: seq<seq<byte>>, head: seq<byte>, more: seq<byte>, stuffing: nat)

  predicate Starts(p: Payload) { p.whole != [] || p.head != [] }

  function Pads(n: nat): (s: seq<byte>)
    ensures |s| == n && forall i :: 0 <= i < n ==> s[i] == 0xff
  {
    seq(n, _ => 0xff)
  }

  function Content(p: Payload): seq<byte> {
    Flatten(p.whole) + p.head + Pads(p.stuffing)
  }

  // The bytes on the wire: pointer_field is there when a section starts.
  function Wire(p: Payload): seq<byte>
    requires |p.tail| < 256
  {
    if Starts(p) then [|p.tail|] + p.tail + Content(p) else p.tail + Pads(p.stuffing)
  }

  predicate Section(max: nat, s: seq<byte>) {
    |s| >= 3 && s[0] != 0xff && |s| == SizeOf(s) <= max
  }

  // A section under way: part has been sent, rest has not.
  predicate UnderWay(max: nat, part: seq<byte>, rest: seq<byte>) {
    (part == [] && rest == []) || (part != [] && rest != [] && Section(max, part + rest))
  }

  predicate WellFormed(max: nat, p: Payload, rest: seq<byte>) {
    && |p.tail| < 256
    && (forall i :: 0 <= i < |p.whole| ==> Section(max, p.whole[i]))
    && UnderWay(max, p.head, p.more)
    && (p.head != [] ==> p.stuffing == 0)
    && (if Starts(p) then p.tail == rest else p.tail <= rest && (p.tail != rest ==> p.stuffing == 0))
  }

  datatype Pending = Pending(part: seq<byte>, rest: seq<byte>)

  function After(p: Payload, u: Pending): Pending {
    if Starts(p) then Pending(p.head, p.more)
    else if p.tail < u.rest then Pending(u.part + p.tail, u.rest[|p.tail|..])
    else Pending([], [])
  }

  predicate WellPacked(max: nat, u: Pending, ps: seq<Payload>)
    decreases |ps|
  {
    ps == [] || (WellFormed(max, ps[0], u.rest) && WellPacked(max, After(ps[0], u), ps[1..]))
  }

  // The sections that end in one payload, in order.
  function Ending(p: Payload, u: Pending): seq<seq<byte>> {
    (if u.part != [] && p.tail == u.rest then [u.part + u.rest] else []) + p.whole
  }

  function AllEnding(u: Pending, ps: seq<Payload>): seq<seq<byte>>
    decreases |ps|
  {
    if ps == [] then [] else Ending(ps[0], u) + AllEnding(After(ps[0], u), ps[1..])
  }

  // A receiver that joins in the middle sees nothing before the first unit start,
  // and not the section under way at that point.
  function EndingAfterJoin(u: Pending, ps: seq<Payload>): seq<seq<byte>>
    decreases |ps|
  {
    if ps == [] then []
    else if Starts(ps[0]) then ps[0].whole + AllEnding(After(ps[0], u), ps[1..])
    else EndingAfterJoin(After(ps[0], u), ps[1..])
  }

  function DriveAll(b: Buf, ps: seq<Payload>): Driven
    requires Valid(b) && !Finished(b)
    requires forall i :: 0 <= i < |ps| ==> |ps[i].tail| < 256
    decreases |ps|
  {
    if ps == [] then Driven(b, [], false)
    else
      var d := Drive(b, Wire(ps[0]), Starts(ps[0]));
      DriveKeepsValid(b, Wire(ps[0]), Starts(ps[0]));
      if d.failed then d
      else
        var rest := DriveAll(d.buf, ps[1..]);
        rest.(sections := d.sections + rest.sections)
  }

  // ---- proofs ----

  function Fresh(max: nat): Buf { Init(max).(waitPdu := false) }

  // The buffer of a synchronised receiver after `part` of a section.
  function Holding(max: nat, part: seq<byte>): Buf
    requires max >= HDR
  {
    Add(Fresh(max), part).buf
  }

  lemma HoldingNothing(max: nat)
    requires max >= HDR
    ensures Holding(max, []) == Fresh(max)
  {
    AddNothing(Fresh(max));
  }

  // What a synchronised receiver holds of a section's bytes and what follows it.
  lemma FreshAdd(max: nat, sec: seq<byte>, t: seq<byte>)
    requires max >= HDR && Section(max, sec) && (t <= sec || sec <= t)
    ensures var s := Add(Fresh(max), t);
      && s.buf.data == (if sec <= t then sec else t)
      && s.used == |s.buf.data|
      && s.status == (if sec <= t then Complete else More)
      && (Finished(s.buf) <==> sec <= t)
      && Valid(s.buf) && s.buf.max == max && !s.buf.waitPdu
  {
    AddFromFresh(Fresh(max), t);
    AddKeepsValid(Fresh(max), t);
    NoPadding(sec, t);
    assert t[0..] == t;
    SizeOfPrefix(sec, t);
  }

  // Adding bytes that go on a section under way, and perhaps beyond its end.
  lemma AddGoesOn(max: nat, sec: seq<byte>, part: seq<byte>, z: seq<byte>)
    requires max >= HDR && Section(max, sec) && part < sec
    requires part + z <= sec || sec <= part + z
    ensures var h := Holding(max, part);
      && Valid(h) && !Finished(h) && !h.waitPdu && h.data == part && h.max == max
      && var s := Add(h, z);
         && s.buf.data == (if sec <= part + z then sec else part + z)
         && s.used == |s.buf.data| - |part|
         && (s.status == Complete <==> sec <= part + z)
         && (s.status != Complete ==> s.status == More && s.buf == Holding(max, part + z))
         && Valid(s.buf) && s.buf.max == max && !s.buf.waitPdu
  {
    FreshAdd(max, sec, part);
    FreshAdd(max, sec, part + z);
    AddIsFragmentationFree(Fresh(max), part, z);
  }

  lemma NoPadding(sec: seq<byte>, t: seq<byte>)
    requires sec != [] && sec[0] != PAD && (t <= sec || sec <= t)
    ensures Padding(t) == 0
  {
    if t != [] { assert t[0] == sec[0]; }
  }

  lemma SizeOfPrefix(sec: seq<byte>, t: seq<byte>)
    requires |sec| >= HDR && (t <= sec || sec <= t)
    ensures |t| >= HDR ==> SizeOf(t) == SizeOf(sec)
  {
    if |t| >= HDR { assert t[1] == sec[1] && t[2] == sec[2]; }
  }

  lemma {:induction false} PadsArePadding(n: nat)
    ensures Padding(Pads(n)) == n
  {
    if n > 0 {
      assert Pads(n)[1..] == Pads(n - 1);
      PadsArePadding(n - 1);
    }
  }

  // One call that ends a section, and one that takes everything without ending it.
  lemma DriveComplete(h: Buf, payload: seq<byte>, start: bool, s: Step, rest: seq<byte>)
    requires Valid(h) && !Finished(h) && payload != [] && s == AddPayload(h, payload, start) && s.status == Complete
    requires s.used <= |payload| && payload[s.used..] == rest && Valid(s.buf)
    ensures var d := Drive(Reset(s.buf), rest, false);
      Drive(h, payload, start) == d.(sections := [s.buf.data] + d.sections)
  {
    AddPayloadProgress(h, payload, start);
  }

  lemma DriveMore(h: Buf, payload: seq<byte>, start: bool, s: Step)
    requires Valid(h) && !Finished(h) && payload != [] && s == AddPayload(h, payload, start) && s.status == More
    requires s.used == |payload|
    ensures Drive(h, payload, start) == Driven(s.buf, [], false)
  {
    AddPayloadProgress(h, payload, start);
    assert payload[s.used..] == [];
  }

  // Without the unit start indicator a synchronised receiver just adds.
  lemma PlainAdd(h: Buf, z: seq<byte>)
    requires Valid(h) && !Finished(h) && !h.waitPdu && Add(h, z).status != TooLong
    ensures AddPayload(h, z, false) == Add(h, z)
  {
    assert z[0..] == z;
  }

  // The end of a section under way, without the unit start indicator: the section
  // is returned and the rest of the payload goes to a reset buffer.
  lemma DriveToEnd(max: nat, part: seq<byte>, rest: seq<byte>, x: seq<byte>)
    requires max >= HDR && Section(max, part + rest) && rest != []
    ensures var h := Holding(max, part);
      var d := Drive(Fresh(max), x, false);
      Valid(h) && !Finished(h) && Drive(h, rest + x, false) == d.(sections := [part + rest] + d.sections)
  {
    var sec, z := part + rest, rest + x;
    assert part + z == sec + x;
    AddGoesOn(max, sec, part, z);
    var h := Holding(max, part);
    PlainAdd(h, z);
    var s := Add(h, z);
    assert Reset(s.buf) == Fresh(max);
    assert z[|rest|..] == x;
    DriveComplete(h, z, false, s, x);
  }

  // A piece of a section under way that does not end it.
  lemma DrivePiece(max: nat, part: seq<byte>, piece: seq<byte>, more: seq<byte>)
    requires max >= HDR && Section(max, part + piece + more) && more != []
    ensures var h := Holding(max, part);
      Valid(h) && !Finished(h) && Drive(h, piece, false) == Driven(Holding(max, part + piece), [], false)
  {
    AddGoesOn(max, part + piece + more, part, piece);
    var h := Holding(max, part);
    if piece == [] {
      assert part + [] == part;
    } else {
      PlainAdd(h, piece);
      DriveMore(h, piece, false, Add(h, piece));
    }
  }

  lemma DriveStuffing(max: nat, n: nat)
    requires max >= HDR
    ensures Drive(Fresh(max), Pads(n), false) == Driven(Fresh(max), [], false)
  {
    PadsArePadding(n);
    AddNothing(Fresh(max));
    assert Pads(n)[0..] == Pads(n) && Pads(n)[n..] == [];
  }

  // A synchronised receiver between sections takes whole sections, the head of
  // the next one, or stuffing.
  lemma {:induction false} DriveContent(max: nat, p: Payload)
    requires max >= HDR && (forall i :: 0 <= i < |p.whole| ==> Section(max, p.whole[i]))
    requires UnderWay(max, p.head, p.more) && (p.head != [] ==> p.stuffing == 0)
    ensures Drive(Fresh(max), Content(p), false) == Driven(Holding(max, p.head), p.whole, false)
    decreases |p.whole|
  {
    if p.whole != [] {
      var next := p.(whole := p.whole[1..]);
      DriveContent(max, next);
      DriveFirst(max, p, next, Drive(Fresh(max), Content(next), false));
    } else if p.head != [] {
      HeadContent(p);
      DriveHead(max, p.head, p.more);
    } else {
      HoldingNothing(max);
      StuffingContent(p);
      DriveStuffing(max, p.stuffing);
    }
  }

  lemma HeadContent(p: Payload)
    requires p.whole == [] && p.head != [] && p.stuffing == 0
    ensures Content(p) == p.head
  {
  }

  lemma StuffingContent(p: Payload)
    requires p.whole == [] && p.head == []
    ensures Content(p) == Pads(p.stuffing)
  {
  }

  lemma DriveFirst(max: nat, p: Payload, next: Payload, d: Driven)
    requires max >= HDR && p.whole != [] && Section(max, p.whole[0]) && next == p.(whole := p.whole[1..])
    requires d == Drive(Fresh(max), Content(next), false) && d.sections == next.whole
    ensures Drive(Fresh(max), Content(p), false) == d.(sections := p.whole)
  {
    ContentFromFront(p);
    DriveWhole(max, p.whole[0], Content(next));
    assert [p.whole[0]] + next.whole == p.whole;
  }

  lemma ContentFromFront(p: Payload)
    requires p.whole != []
    ensures Content(p) == p.whole[0] + Content(p.(whole := p.whole[1..]))
  {
  }

  lemma DriveWhole(max: nat, sec: seq<byte>, x: seq<byte>)
    requires max >= HDR && Section(max, sec)
    ensures var d := Drive(Fresh(max), x, false);
      Drive(Fresh(max), sec + x, false) == d.(sections := [sec] + d.sections)
  {
    HoldingNothing(max);
    assert [] + sec == sec;
    DriveToEnd(max, [], sec, x);
  }

  lemma DriveHead(max: nat, head: seq<byte>, more: seq<byte>)
    requires max >= HDR && Section(max, head + more) && more != []
    ensures Drive(Fresh(max), head, false) == Driven(Holding(max, head), [], false)
  {
    HoldingNothing(max);
    assert [] + head == head;
    DrivePiece(max, [], head, more);
  }

  // pointer_field and what it points past are skipped between sections.
  lemma DriveSkips(b: Buf, junk: seq<byte>, content: seq<byte>)
    requires Valid(b) && b.data == [] && |junk| < 256 && content != []
    ensures Drive(b, [|junk|] + junk + content, true) == Drive(b.(waitPdu := false), content, false)
  {
    var payload := [|junk|] + junk + content;
    var c := b.(waitPdu := false);
    var t := AddPayload(c, content, false);
    SkipAdd(b, c, payload, junk, content, t);
    AddPayloadProgress(b, payload, true);
    AddPayloadProgress(c, content, false);
    RestOfWire(payload, junk, content, t.used);
    SameDrive(b, payload, true, t.(used := 1 + |junk| + t.used), c, content, false, t, content[t.used..]);
  }

  // Two first calls with the same outcome and the same rest.
  lemma SameDrive(b: Buf, payload: seq<byte>, start: bool, s: Step,
                  c: Buf, content: seq<byte>, plain: bool, t: Step, rest: seq<byte>)
    requires Valid(b) && !Finished(b) && payload != [] && s == AddPayload(b, payload, start)
    requires Valid(c) && !Finished(c) && content != [] && t == AddPayload(c, content, plain)
    requires Progress(s, payload) && Progress(t, content) && s.buf == t.buf && s.status == t.status
    requires rest == payload[s.used..] && rest == content[t.used..]
    ensures Drive(b, payload, start) == Drive(c, content, plain)
  {
    DriveIs(b, payload, start, s, rest);
    DriveIs(c, content, plain, t, rest);
  }

  lemma RestOfWire(wire: seq<byte>, tail: seq<byte>, content: seq<byte>, used: nat)
    requires |tail| < 256 && wire == [|tail|] + tail + content && used <= |content|
    ensures wire[1 + |tail| + used..] == content[used..]
  {
  }

  // One call, and what follows it.
  lemma DriveIs(h: Buf, payload: seq<byte>, start: bool, s: Step, rest: seq<byte>)
    requires Valid(h) && !Finished(h) && payload != [] && s == AddPayload(h, payload, start)
    requires Progress(s, payload) && rest == payload[s.used..]
    ensures Drive(h, payload, start) ==
      if s.status == Complete then
        var d := Drive(Reset(s.buf), rest, false);
        d.(sections := [s.buf.data] + d.sections)
      else if s.status == More then Drive(s.buf, rest, false)
      else Driven(s.buf, [], true)
  {
  }

  lemma SkipAdd(b: Buf, c: Buf, payload: seq<byte>, junk: seq<byte>, content: seq<byte>, t: Step)
    requires Valid(b) && b.data == [] && |junk| < 256 && content != [] && payload == [|junk|] + junk + content
    requires c == b.(waitPdu := false) && t == AddPayload(c, content, false)
    ensures AddPayload(b, payload, true) == t.(used := 1 + |junk| + t.used)
  {
    assert payload[1 + |junk|..] == content && content[0..] == content;
  }

  lemma ContentNotEmpty(max: nat, p: Payload)
    requires Starts(p) && forall i :: 0 <= i < |p.whole| ==> Section(max, p.whole[i])
    ensures Content(p) != []
  {
  }

  // The end of a section under way, announced by the unit start indicator; `d` is
  // what becomes of the rest of the payload.
  lemma DriveToPointer(max: nat, part: seq<byte>, rest: seq<byte>, x: seq<byte>, h: Buf, wire: seq<byte>, d: Driven)
    requires max >= HDR && Section(max, part + rest) && part != [] && rest != [] && |rest| < 256
    requires h == Holding(max, part) && wire == [|rest|] + rest + x && d == Drive(Fresh(max), x, false)
    ensures Valid(h) && !Finished(h) && Drive(h, wire, true) == d.(sections := [part + rest] + d.sections)
  {
    AddEnds(max, part, rest, h);
    EndAtPointer(max, h, wire, rest, x, Add(h, rest), part + rest, d);
  }

  lemma AddEnds(max: nat, part: seq<byte>, rest: seq<byte>, h: Buf)
    requires max >= HDR && Section(max, part + rest) && part != [] && rest != [] && h == Holding(max, part)
    ensures Valid(h) && !Finished(h) && !h.waitPdu && h.data == part
    ensures var s := Add(h, rest);
      && s.status == Complete && s.used == |rest| && s.buf.data == part + rest
      && Valid(s.buf) && Finished(s.buf) && s.buf.max == max && !s.buf.waitPdu
  {
    AddGoesOn(max, part + rest, part, rest);
    AddKeepsValid(h, rest);
  }

  // The call that ends the section, and the drive of what follows it.
  lemma EndAtPointer(max: nat, h: Buf, wire: seq<byte>, rest: seq<byte>, x: seq<byte>, s: Step, sec: seq<byte>,
                     d: Driven)
    requires Valid(h) && !Finished(h) && !h.waitPdu && h.data != [] && |rest| < 256 && wire == [|rest|] + rest + x
    requires s == Add(h, rest) && s.status == Complete && s.used == |rest| && s.buf.data == sec
    requires Valid(s.buf) && Finished(s.buf) && s.buf.max == max && !s.buf.waitPdu
    requires d == Drive(Fresh(max), x, false)
    ensures Drive(h, wire, true) == d.(sections := [sec] + d.sections)
  {
    PointerAdd(h, wire, rest, x, s);
    assert wire[1 + |rest|..] == x;
    DriveComplete(h, wire, true, s.(used := 1 + |rest|), x);
    assert Reset(s.buf) == Fresh(max);
  }

  // The pointer covers exactly the end of the section under way.
  lemma PointerAdd(h: Buf, wire: seq<byte>, rest: seq<byte>, x: seq<byte>, s: Step)
    requires Valid(h) && !Finished(h) && !h.waitPdu && h.data != [] && |rest| < 256 && wire == [|rest|] + rest + x
    requires s == Add(h, rest) && s.status == Complete && s.used == |rest| && Finished(s.buf)
    ensures AddPayload(h, wire, true) == s.(used := 1 + |rest|)
  {
    assert wire[1..1 + |rest|] == rest;
    assert h.(waitPdu := false) == h;
  }

  // What one payload does to a synchronised receiver.
  lemma DriveOne(max: nat, p: Payload, u: Pending)
    requires max >= HDR && UnderWay(max, u.part, u.rest) && WellFormed(max, p, u.rest)
    ensures var h := Holding(max, u.part);
      && Valid(h) && !Finished(h)
      && Drive(h, Wire(p), Starts(p)) == Driven(Holding(max, After(p, u).part), Ending(p, u), false)
    ensures UnderWay(max, After(p, u).part, After(p, u).rest)
  {
    HoldingNothing(max);
    if Starts(p) {
      DriveContent(max, p);
      if u.part == [] {
        ContentNotEmpty(max, p);
        DriveSkips(Fresh(max), [], Content(p));
      } else {
        DriveToPointer(max, u.part, u.rest, Content(p), Holding(max, u.part), Wire(p), Drive(Fresh(max), Content(p), false));
      }
    } else if u.part == [] {
      assert Wire(p) == Pads(p.stuffing);
      DriveStuffing(max, p.stuffing);
    } else if p.tail == u.rest {
      DriveToEnd(max, u.part, u.rest, Pads(p.stuffing));
      DriveStuffing(max, p.stuffing);
    } else {
      var more := u.rest[|p.tail|..];
      assert u.part + u.rest == u.part + p.tail + more;
      assert Wire(p) == p.tail;
      DrivePiece(max, u.part, p.tail, more);
    }
  }

  // From a synchronised receiver, with u under way, all payloads are driven without an
  // error, and exactly the sections that end in them are returned, in order.
  ghost predicate Returns(max: nat, u: Pending, ps: seq<Payload>)
    requires max >= HDR
  {
    && (forall i :: 0 <= i < |ps| ==> |ps[i].tail| < 256)
    && var h := Holding(max, u.part);
       && Valid(h) && !Finished(h)
       && DriveAll(h, ps).sections == AllEnding(u, ps) && !DriveAll(h, ps).failed
  }

  // Any packing of any sequence of sections is returned.
  lemma {:induction false} EverySectionIsReturned(max: nat, u: Pending, ps: seq<Payload>)
    requires max >= HDR && UnderWay(max, u.part, u.rest) && WellPacked(max, u, ps)
    ensures Returns(max, u, ps)
    decreases |ps|
  {
    if ps == [] {
      HoldingIsOpen(max, u);
    } else {
      DriveOne(max, ps[0], u);
      EverySectionIsReturned(max, After(ps[0], u), ps[1..]);
      ReturnsOneMore(max, u, ps, Holding(max, u.part), After(ps[0], u));
    }
  }

  lemma ReturnsOneMore(max: nat, u: Pending, ps: seq<Payload>, h: Buf, after: Pending)
    requires max >= HDR && ps != [] && |ps[0].tail| < 256 && h == Holding(max, u.part) && Valid(h) && !Finished(h)
    requires Drive(h, Wire(ps[0]), Starts(ps[0])) == Driven(Holding(max, after.part), Ending(ps[0], u), false)
    requires after == After(ps[0], u) && Returns(max, after, ps[1..])
    ensures Returns(max, u, ps)
  {
    var d := Driven(Holding(max, after.part), Ending(ps[0], u), false);
    DriveAllStep(h, ps, d, DriveAll(d.buf, ps[1..]));
  }

  lemma HoldingIsOpen(max: nat, u: Pending)
    requires max >= HDR && UnderWay(max, u.part, u.rest)
    ensures Valid(Holding(max, u.part)) && !Finished(Holding(max, u.part))
  {
    HoldingNothing(max);
    if u.part != [] {
      assert u.part + [] == u.part;
      AddGoesOn(max, u.part + u.rest, u.part, []);
    }
  }

  lemma DriveAllStep(b: Buf, ps: seq<Payload>, d: Driven, rest: Driven)
    requires Valid(b) && !Finished(b) && ps != [] && forall i :: 0 <= i < |ps| ==> |ps[i].tail| < 256
    requires d == Drive(b, Wire(ps[0]), Starts(ps[0])) && !d.failed && Valid(d.buf) && !Finished(d.buf)
    requires rest == DriveAll(d.buf, ps[1..])
    ensures DriveAll(b, ps) == rest.(sections := d.sections + rest.sections)
  {
  }

  // The same from section_buf_init, at any point of the stream: everything before
  // the first unit start and the section under way are passed over, and from
  // there on every section is returned.
  lemma {:induction false} EverySectionAfterJoin(max: nat, u: Pending, ps: seq<Payload>)
    requires max >= HDR && UnderWay(max, u.part, u.rest) && WellPacked(max, u, ps)
    ensures forall i :: 0 <= i < |ps| ==> |ps[i].tail| < 256
    ensures DriveAll(Init(max), ps).sections == EndingAfterJoin(u, ps) && !DriveAll(Init(max), ps).failed
    decreases |ps|
  {
    if ps != [] {
      var p := ps[0];
      UnderWayAfter(max, p, u);
      if Starts(p) {
        ContentNotEmpty(max, p);
        DriveSkips(Init(max), p.tail, Content(p));
        DriveContent(max, p);
        EverySectionIsReturned(max, After(p, u), ps[1..]);
      } else {
        DriveWaiting(max, Wire(p));
        EverySectionAfterJoin(max, After(p, u), ps[1..]);
      }
    }
  }

  lemma UnderWayAfter(max: nat, p: Payload, u: Pending)
    requires UnderWay(max, u.part, u.rest) && WellFormed(max, p, u.rest)
    ensures UnderWay(max, After(p, u).part, After(p, u).rest)
  {
    if !Starts(p) && p.tail < u.rest {
      assert u.part + u.rest == (u.part + p.tail) + u.rest[|p.tail|..];
    }
  }

  // Until the first unit start every payload is passed over.
  lemma DriveWaiting(max: nat, payload: seq<byte>)
    requires max >= HDR
    ensures Drive(Init(max), payload, false) == Driven(Init(max), [], false)
  {
    assert payload[|payload|..] == [];
  }

  // ---- what does not fit ----

  // A pointer is refused exactly when it points past the payload; nothing is taken.
  lemma BadPointerIff(b: Buf, payload: seq<byte>, start: bool)
    requires Valid(b) && !Finished(b) && payload != []
    ensures var s := AddPayload(b, payload, start);
      && (s.status == BadPointer <==> start && |payload| <= payload[0])
      && (s.status == BadPointer ==> s.used == |payload| && s.buf.data == b.data)
  {
    var offset: int := payload[0];
    if !start {
      AccumulateWaits(b, payload, 0);
    } else if offset < |payload| {
      AccumulateWaits(b.(waitPdu := false), payload, 1 + offset);
    }
  }

  function Shorter(a: seq<byte>, b: seq<byte>): seq<byte> { if |a| < |b| then a else b }

  // With a section under way, the unit start must come exactly where the section ends:
  // one that comes too early or too late is refused.
  lemma PointerMeetsTheEndIff(max: nat, part: seq<byte>, rest: seq<byte>, z: seq<byte>, x: seq<byte>)
    requires max >= HDR && Section(max, part + rest) && part != [] && rest != []
    requires |z| < 256 && (z <= rest || rest <= z)
    ensures var h := Holding(max, part);
      && Valid(h) && !Finished(h)
      && var s := AddPayload(h, [|z|] + z + x, true);
         && s.status == (if z == rest then Complete else TooLong)
         && s.buf.data == part + Shorter(z, rest) && s.used == 1 + |Shorter(z, rest)|
         && s.buf.waitPdu == (z != rest)
  {
    var h := AtTheEnd(max, part, rest, z);
    AtPointer(h, [|z|] + z + x, z, x, Add(h, z));
  }

  lemma AtTheEnd(max: nat, part: seq<byte>, rest: seq<byte>, z: seq<byte>) returns (h: Buf)
    requires max >= HDR && Section(max, part + rest) && part != [] && rest != [] && (z <= rest || rest <= z)
    ensures h == Holding(max, part) && Valid(h) && !Finished(h) && !h.waitPdu && h.data != []
    ensures var s := Add(h, z);
      && s.buf.data == part + Shorter(z, rest) && s.used == |Shorter(z, rest)| && !s.buf.waitPdu
      && (s.status == Complete <==> |rest| <= |z|) && (s.status == Complete <==> Finished(s.buf))
  {
    h := Holding(max, part);
    PieceOrMore(part, rest, z);
    AddGoesOn(max, part + rest, part, z);
    AddKeepsValid(h, z);
  }

  // The call with the final fragment z.
  lemma AtPointer(h: Buf, payload: seq<byte>, z: seq<byte>, x: seq<byte>, s: Step)
    requires Valid(h) && !Finished(h) && !h.waitPdu && h.data != [] && |z| < 256 && payload == [|z|] + z + x
    requires s == Add(h, z) && !s.buf.waitPdu && (s.status == Complete <==> Finished(s.buf))
    ensures var r := AddPayload(h, payload, true);
      && r.status == (if s.status == Complete && s.used == |z| then Complete else TooLong)
      && r.buf == s.buf.(waitPdu := r.status != Complete) && r.used == 1 + s.used
  {
    assert payload[1..1 + |z|] == z && h.(waitPdu := false) == h;
    assert AddPayload(h, payload, true) == Finish(h, payload, |z|);
  }

  lemma PieceOrMore(part: seq<byte>, rest: seq<byte>, z: seq<byte>)
    requires z <= rest || rest <= z
    ensures (part + z <= part + rest) == (|z| <= |rest|) && (part + rest <= part + z) == (|rest| <= |z|)
    ensures (if part + rest <= part + z then part + rest else part + z) == part + Shorter(z, rest)
  {
    if |z| <= |rest| {
      assert part + rest == part + z + rest[|z|..];
    } else {
      assert part + z == part + rest + z[|rest|..];
    }
  }

  // After any refusal and a reset, the receiver joins the stream anew: every section
  // from the next unit start on is returned.
  lemma JoinsAfterRefusal(b: Buf, payload: seq<byte>, start: bool, u: Pending, ps: seq<Payload>)
    requires Valid(b) && !Finished(b) && payload != []
    requires UnderWay(b.max, u.part, u.rest) && WellPacked(b.max, u, ps)
    ensures forall i :: 0 <= i < |ps| ==> |ps[i].tail| < 256
    ensures var s := AddPayload(b, payload, start);
      s.status == TooLong || s.status == BadPointer ==>
        var c := Reset(s.buf);
        Valid(c) && !Finished(c) && DriveAll(c, ps).sections == EndingAfterJoin(u, ps) && !DriveAll(c, ps).failed
  {
    EverySectionAfterJoin(b.max, u, ps);
    RefusalWaits(b, payload, start);
  }

  lemma RefusalWaits(b: Buf, payload: seq<byte>, start: bool)
    requires Valid(b) && !Finished(b) && payload != []
    ensures var s := AddPayload(b, payload, start);
      s.status == TooLong || s.status == BadPointer ==> Reset(s.buf) == Init(b.max)
  {
    if !start {
      AccumulateWaits(b, payload, 0);
    } else if payload[0] < |payload| {
      var c, offset: int := b.(waitPdu := false), payload[0];
      FinishWaits(c, payload, offset);
      AccumulateWaits(c, payload, 1 + offset);
    }
  }

  lemma AccumulateWaits(b: Buf, payload: seq<byte>, used: nat)
    requires Valid(b) && used <= |payload|
    ensures var s := Accumulate(b, payload, used);
      s.status != BadPointer && s.buf.max == b.max && (s.status == TooLong ==> s.buf.waitPdu)
  {
    AddKeepsValid(b, payload[used..]);
  }

  lemma FinishWaits(b: Buf, payload: seq<byte>, offset: nat)
    requires Valid(b) && offset < |payload|
    ensures var s := Finish(b, payload, offset);
      s.status != BadPointer && s.buf.max == b.max && (s.status == TooLong ==> s.buf.waitPdu)
  {
    AddKeepsValid(b, payload[1..1 + offset]);
  }
}
