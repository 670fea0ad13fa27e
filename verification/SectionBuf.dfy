// The PSI section reassembler (section_buf.c). Add and AddPayload say what the
// two entry points do to the buffer; the class below does it in place.
module SectionBuf {
  import opened Bytes

  const HDR := 3
  const PAD: byte := 0xff

  datatype Status = More | Complete | TooLong | BadPointer   // 0, 1, -ERANGE, -EINVAL

  // data: the `count` bytes accumulated so far.
  datatype Buf = Buf(max: nat, data: seq<byte>, len: nat, header: bool, waitPdu: bool)

  datatype Step = Step(buf: Buf, used: nat, status: Status)

  function Init(max: nat): Buf { Buf(max, [], HDR, false, true) }

  function Reset(b: Buf): Buf { Init(b.max).(waitPdu := b.waitPdu) }

  // The total size that a complete header announces.
  function SizeOf(h: seq<byte>): (n: nat)
    requires |h| >= HDR
    ensures var hi: nat, lo: nat := h[1], h[2]; n == 3 + (hi * 256 + lo) % 4096
  {
    HDR + Be16(h[1] % 16, h[2])
  }

  ghost predicate Valid(b: Buf) {
    && b.max >= HDR
    && (b.header ==> |b.data| >= HDR && b.len == SizeOf(b.data) <= b.max && |b.data| <= b.len)
    && (!b.header ==> |b.data| <= HDR && (|b.data| == HDR ==> SizeOf(b.data) > b.max))
    && (|b.data| > 0 ==> b.data[0] != PAD)
    && (|b.data| < HDR ==> b.len == HDR)
  }

  predicate Finished(b: Buf) { b.header && b.len == |b.data| }

  function Min(a: int, b: int): int { if a < b then a else b }

  function Padding(frag: seq<byte>): (n: nat)
    ensures n <= |frag| && (forall i :: 0 <= i < n ==> frag[i] == PAD) && (n < |frag| ==> frag[n] != PAD)
  {
    if frag != [] && frag[0] == PAD then 1 + Padding(frag[1..]) else 0
  }

  // section_buf_add
  function Add(b: Buf, frag: seq<byte>): Step
    requires Valid(b)
  {
    if Finished(b) then Step(b, 0, Complete)
    else
      var pad := if b.data == [] then Padding(frag) else 0;
      var s := AddData(b, frag[pad..]);
      s.(used := pad + s.used)
  }

  // The rest of section_buf_add, once padding has been skipped.
  function AddData(b: Buf, frag: seq<byte>): Step
    requires Valid(b)
  {
    if b.header then AddBody(b, frag)
    else
      var copy := Min(HDR - |b.data|, |frag|);
      var c := b.(data := b.data + frag[..copy]);
      if |c.data| != HDR then Step(c, copy, More)
      else
        var d := c.(len := SizeOf(c.data));
        if d.len > d.max then Step(d, |frag|, TooLong)
        else
          var s := AddBody(d.(header := true), frag[copy..]);
          s.(used := copy + s.used)
  }

  function AddBody(b: Buf, frag: seq<byte>): Step
    requires |b.data| <= b.len
  {
    var copy := Min(b.len - |b.data|, |frag|);
    var c := b.(data := b.data + frag[..copy]);
    Step(c, copy, if Finished(c) then Complete else More)
  }

  // section_buf_add_transport_payload
  function AddPayload(b: Buf, payload: seq<byte>, pduStart: bool): Step
    requires Valid(b) && (pduStart ==> payload != [])
  {
    if Finished(b) then Step(b, 0, Complete)
    else if b.waitPdu && !pduStart then Step(b, |payload|, More)
    else if !pduStart then Accumulate(b, payload, 0)
    else
      var offset := payload[0];
      if offset + 1 > |payload| then Step(b.(waitPdu := true), |payload|, BadPointer)
      else
        var c := b.(waitPdu := false);
        if b.data != [] then Finish(c, payload, offset) else Accumulate(c, payload, 1 + offset)
  }

  // The final fragment that a unit start announces.
  function Finish(b: Buf, payload: seq<byte>, offset: nat): Step
    requires Valid(b) && offset < |payload|
  {
    var s := Add(b, payload[1..1 + offset]);
    if s.used != offset || s.buf.len != |s.buf.data| || s.status != Complete then
      Step(s.buf.(waitPdu := true), 1 + s.used, TooLong)
    else Step(s.buf, 1 + s.used, Complete)
  }

  function Accumulate(b: Buf, payload: seq<byte>, used: nat): Step
    requires Valid(b) && used <= |payload|
  {
    var s := Add(b, payload[used..]);
    var c := if s.status == TooLong then s.buf.(waitPdu := true) else s.buf;
    Step(c, used + s.used, s.status)
  }

  // ---- what section_buf_add keeps and promises ----

  lemma AddKeepsValid(b: Buf, frag: seq<byte>)
    requires Valid(b)
    ensures var s := Add(b, frag);
      && Valid(s.buf) && s.used <= |frag| && s.buf.max == b.max && s.buf.waitPdu == b.waitPdu
      && (s.status == Complete <==> Finished(s.buf))
      && s.status != BadPointer
      && (frag != [] && !Finished(b) ==> s.used > 0)
  {
  }

  // What adding first one piece and then b comes to.
  function Then(first: Step, b: seq<byte>): Step
    requires Valid(first.buf)
  {
    var second := Add(first.buf, b);
    Step(second.buf, first.used + second.used, second.status)
  }

  // Add, once the leading padding is counted.
  lemma AddSkips(s: Buf, frag: seq<byte>, pad: nat)
    requires Valid(s) && !Finished(s) && pad == if s.data == [] then Padding(frag) else 0
    ensures Add(s, frag) == AddData(s, frag[pad..]).(used := pad + AddData(s, frag[pad..]).used)
  {
  }

  lemma AddOfPadding(s: Buf, a: seq<byte>)
    requires Valid(s) && s.data == [] && Padding(a) == |a|
    ensures Add(s, a) == Step(s, |a|, More)
  {
    AddSkips(s, a, |a|);
    assert a[|a|..] == [];
    AddNothing(s);
  }

  lemma PaddingThenAnything(s: Buf, a: seq<byte>, b: seq<byte>)
    requires Valid(s) && s.data == [] && Padding(a) == |a|
    ensures Add(s, a + b) == Then(Add(s, a), b)
  {
    AddOfPadding(s, a);
    PaddingIsSkipped(s, a, b, Padding(b), b[Padding(b)..]);
  }

  lemma PaddingIsSkipped(s: Buf, a: seq<byte>, b: seq<byte>, pad: nat, rest: seq<byte>)
    requires Valid(s) && s.data == [] && Padding(a) == |a| && pad == Padding(b) && rest == b[pad..]
    ensures Add(s, a + b) == Add(s, b).(used := |a| + Add(s, b).used)
  {
    PaddingOfConcat(a, b);
    assert (a + b)[|a| + pad..] == rest;
    AddIs(s, a + b, |a| + pad, rest);
    AddIs(s, b, pad, rest);
  }

  lemma AddIs(s: Buf, frag: seq<byte>, pad: nat, rest: seq<byte>)
    requires Valid(s) && !Finished(s) && s.data == [] && pad == Padding(frag) && rest == frag[pad..]
    ensures Add(s, frag) == AddData(s, rest).(used := pad + AddData(s, rest).used)
  {
  }

  lemma ThenShift(x: Step, pad: nat, b: seq<byte>)
    requires Valid(x.buf)
    ensures Then(x.(used := pad + x.used), b) == Then(x, b).(used := pad + Then(x, b).used)
  {
  }

  lemma RestOfConcat(a: seq<byte>, b: seq<byte>, pad: nat)
    requires pad <= |a|
    ensures (a + b)[pad..] == a[pad..] + b
  {
  }

  lemma PastPadding(s: Buf, a: seq<byte>, b: seq<byte>, pad: nat)
    requires Valid(s) && !Finished(s) && pad == if s.data == [] then Padding(a) else 0
    requires s.data == [] ==> pad < |a|
    ensures Valid(Add(s, a).buf)
    ensures Add(s, a + b) == Then(Add(s, a), b)
  {
    PaddingOfConcat(a, b);
    AddSkips(s, a, pad);
    AddSkips(s, a + b, pad);
    RestOfConcat(a, b, pad);
    AddDataIsFragmentationFree(s, a[pad..], b);
    ThenShift(AddData(s, a[pad..]), pad, b);
  }

  // The pieces may be cut anywhere: adding a and then b leaves the buffer, uses
  // the bytes and reports the status that adding both at once would.
  lemma AddIsFragmentationFree(s: Buf, a: seq<byte>, b: seq<byte>)
    requires Valid(s)
    ensures Valid(Add(s, a).buf)
    ensures Add(s, a + b) == Then(Add(s, a), b)
  {
    AddKeepsValid(s, a);
    if Finished(s) {
    } else if s.data == [] && Padding(a) == |a| {
      PaddingThenAnything(s, a, b);
    } else {
      PastPadding(s, a, b, if s.data == [] then Padding(a) else 0);
    }
  }

  lemma AddNothing(s: Buf)
    requires Valid(s) && s.data == []
    ensures AddData(s, []) == Step(s, 0, More)
  {
  }

  lemma {:induction false} PaddingOfConcat(a: seq<byte>, b: seq<byte>)
    ensures Padding(a + b) == if Padding(a) < |a| then Padding(a) else |a| + Padding(b)
  {
    if a == [] {
      assert a + b == b;
    } else if a[0] == PAD {
      assert (a + b)[1..] == a[1..] + b;
      PaddingOfConcat(a[1..], b);
    }
  }

  lemma AddDataKeepsValid(s: Buf, a: seq<byte>)
    requires Valid(s) && !Finished(s) && (s.data == [] ==> a == [] || a[0] != PAD)
    ensures Valid(AddData(s, a).buf)
  {
  }

  lemma AddDataIsFragmentationFree(s: Buf, a: seq<byte>, b: seq<byte>)
    requires Valid(s) && !Finished(s)
    requires s.data == [] ==> a != [] && a[0] != PAD
    ensures Valid(AddData(s, a).buf)
    ensures AddData(s, a + b) == Then(AddData(s, a), b)
  {
    AddDataKeepsValid(s, a);
    if s.header {
      AddBodyIsFragmentationFree(s, a, b);
    } else if |s.data| + |a| >= HDR {
      HeaderInFirst(s, a, b);
    } else {
      HeaderInSecond(s, a, b);
    }
  }

  // The header ends in a.
  lemma HeaderInFirst(s: Buf, a: seq<byte>, b: seq<byte>)
    requires Valid(s) && !s.header && |s.data| + |a| >= HDR && (s.data == [] ==> a[0] != PAD)
    ensures Valid(AddData(s, a).buf)
    ensures AddData(s, a + b) == Then(AddData(s, a), b)
  {
    AddDataKeepsValid(s, a);
    var copy := HDR - |s.data|;
    var d := s.(data := s.data + a[..copy], len := SizeOf(s.data + a[..copy]));
    RestOfConcat(a, b, copy);
    AtHeader(s, a, copy, d);
    AtHeader(s, a + b, copy, d);
    if d.len <= d.max {
      var body := d.(header := true);
      AddBodyIsFragmentationFree(body, a[copy..], b);
      ThenShift(AddBody(body, a[copy..]), copy, b);
    } else {
      StaysTooLong(d, b);
    }
  }

  // The header is completed by the first `copy` bytes.
  lemma AtHeader(s: Buf, a: seq<byte>, copy: nat, d: Buf)
    requires Valid(s) && !s.header && |s.data| + |a| >= HDR && copy == HDR - |s.data|
    requires d == s.(data := s.data + a[..copy], len := SizeOf(s.data + a[..copy]))
    ensures AddData(s, a) ==
      if d.len > d.max then Step(d, |a|, TooLong)
      else AddBody(d.(header := true), a[copy..]).(used := copy + AddBody(d.(header := true), a[copy..]).used)
  {
  }

  lemma StaysTooLong(d: Buf, b: seq<byte>)
    requires Valid(d) && !d.header && |d.data| == HDR && d.len == SizeOf(d.data)
    ensures Add(d, b) == Step(d, |b|, TooLong)
  {
    assert d.data + b[..0] == d.data;
    assert b[0..] == b;
  }

  // The header is still incomplete after a.
  lemma HeaderInSecond(s: Buf, a: seq<byte>, b: seq<byte>)
    requires Valid(s) && !s.header && |s.data| + |a| < HDR && (s.data == [] ==> a != [] && a[0] != PAD)
    ensures Valid(AddData(s, a).buf)
    ensures AddData(s, a + b) == Then(AddData(s, a), b)
  {
    AddDataKeepsValid(s, a);
    BeforeHeader(s, a);
    var c := s.(data := s.data + a);
    AddSkips(c, b, 0);
    assert b[0..] == b;
    if |s.data| + |a + b| < HDR {
      BeforeHeader(s, a + b);
      BeforeHeader(c, b);
      assert s.data + (a + b) == c.data + b;
    } else {
      HeaderAcross(s, a, b, c);
    }
  }

  lemma HeaderAcross(s: Buf, a: seq<byte>, b: seq<byte>, c: Buf)
    requires Valid(s) && !s.header && |s.data| + |a| < HDR <= |s.data| + |a + b|
    requires c == s.(data := s.data + a) && Valid(c)
    ensures AddData(s, a + b) == AddData(c, b).(used := |a| + AddData(c, b).used)
  {
    var more := HDR - |c.data|;
    assert (a + b)[..|a| + more] == a + b[..more] && (a + b)[|a| + more..] == b[more..];
    assert s.data + (a + b[..more]) == c.data + b[..more];
    var d := c.(data := c.data + b[..more], len := SizeOf(c.data + b[..more]));
    AtHeader(s, a + b, |a| + more, d);
    AtHeader(c, b, more, d);
  }

  lemma BeforeHeader(s: Buf, a: seq<byte>)
    requires Valid(s) && !s.header && |s.data| + |a| < HDR
    ensures AddData(s, a) == Step(s.(data := s.data + a), |a|, More)
  {
    assert a[..|a|] == a;
  }

  lemma AddBodyIsFragmentationFree(s: Buf, a: seq<byte>, b: seq<byte>)
    requires Valid(s) && s.header
    ensures Valid(AddBody(s, a).buf)
    ensures AddBody(s, a + b) == Then(AddBody(s, a), b)
  {
    var copy := Min(s.len - |s.data|, |a|);
    if copy < |a| || |s.data| + |a| == s.len {
      assert (a + b)[..copy] == a[..copy];
    } else {
      BodyGoesOn(s, a, b);
    }
  }

  // The section does not end in a.
  lemma BodyGoesOn(s: Buf, a: seq<byte>, b: seq<byte>)
    requires Valid(s) && s.header && |s.data| + |a| < s.len
    ensures Valid(AddBody(s, a).buf)
    ensures AddBody(s, a + b) == Then(AddBody(s, a), b)
  {
    var first := s.(data := s.data + a);
    var more := Min(first.len - |first.data|, |b|);
    assert a[..|a|] == a && AddBody(s, a) == Step(first, |a|, More);
    AddSkips(first, b, 0);
    TwoPieces(s.data, a, b, more);
  }

  lemma TwoPieces(d: seq<byte>, a: seq<byte>, b: seq<byte>, more: nat)
    requires more <= |b|
    ensures d + (a + b)[..|a| + more] == d + a + b[..more]
    ensures b[0..] == b
  {
    assert (a + b)[..|a| + more] == a + b[..more];
  }

  // ---- what is in the buffer ----

  lemma ShortFromFresh(b: Buf, t: seq<byte>)
    requires Valid(b) && b.data == [] && |t| < HDR && (t == [] || t[0] != PAD)
    ensures AddData(b, t) == Step(b.(data := t), |t|, More)
  {
    assert [] + t[..|t|] == t;
  }

  lemma TooLongFromFresh(b: Buf, t: seq<byte>)
    requires Valid(b) && b.data == [] && |t| >= HDR && SizeOf(t) > b.max
    ensures AddData(b, t) == Step(b.(data := t[..HDR], len := SizeOf(t)), |t|, TooLong)
  {
    assert [] + t[..HDR] == t[..HDR];
  }

  lemma LongFromFresh(b: Buf, t: seq<byte>)
    requires Valid(b) && b.data == [] && |t| >= HDR && SizeOf(t) <= b.max
    ensures var n := Min(SizeOf(t), |t|);
      AddData(b, t) ==
      Step(b.(data := t[..n], len := SizeOf(t), header := true), n, if |t| >= SizeOf(t) then Complete else More)
  {
    assert [] + t[..HDR] == t[..HDR];
    var rest := t[HDR..];
    var copy := Min(SizeOf(t) - HDR, |rest|);
    assert t[..HDR] + rest[..copy] == t[..HDR + copy];
  }

  // From a fresh buffer, whatever was added ends up there without its leading
  // padding, up to the size that its header announces; the status is Complete
  // exactly when that many bytes have come, TooLong exactly when the header
  // announces more than the maximum.
  lemma AddFromFresh(b: Buf, frag: seq<byte>)
    requires Valid(b) && b.data == []
    ensures var max := b.max;
      var t := frag[Padding(frag)..];
      var s := Add(b, frag);
      if |t| < HDR then
        s.status == More && s.buf.data == t && s.used == |frag|
      else if SizeOf(t) > max then
        s.status == TooLong && s.buf.data == t[..HDR] && s.used == |frag|
      else
        && s.buf.data == t[..Min(SizeOf(t), |t|)]
        && s.used == Padding(frag) + |s.buf.data|
        && (s.status == Complete <==> |t| >= SizeOf(t))
  {
    var t := frag[Padding(frag)..];
    AddSkips(b, frag, Padding(frag));
    if |t| < HDR {
      ShortFromFresh(b, t);
    } else if SizeOf(t) > b.max {
      TooLongFromFresh(b, t);
    } else {
      LongFromFresh(b, t);
    }
  }

  // ---- reset ----

  lemma ResetIsValid(b: Buf)
    requires b.max >= HDR
    ensures Valid(Reset(b)) && !Finished(Reset(b))
  {
  }

  // A synchronised buffer goes on taking data right after a reset.
  lemma SynchronisedResetTakesData(b: Buf, payload: seq<byte>)
    requires b.max >= HDR && !b.waitPdu && payload != [] && payload[0] != PAD
    ensures Valid(Reset(b)) && AddPayload(Reset(b), payload, false).buf.data != []
  {
    ResetIsValid(b);
    var r := Reset(b);
    assert payload[0..] == payload;
    AddFromFresh(r, payload);
    AddKeepsValid(r, payload);
  }

  // After a reset the buffer waits for a unit start, as its comment promises, if and
  // only if it was waiting before: the flag is kept.
  lemma ResetWaitsIff(b: Buf)
    requires b.max >= HDR
    ensures Valid(Reset(b))
    ensures (forall payload: seq<byte> | payload != [] ::
               AddPayload(Reset(b), payload, false) == Step(Reset(b), |payload|, More)) <==> b.waitPdu
  {
    ResetIsValid(b);
    if !b.waitPdu {
      SynchronisedResetTakesData(b, [0]);
      assert AddPayload(Reset(b), [0], false) != Step(Reset(b), 1, More);
    }
  }
}
