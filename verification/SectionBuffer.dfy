// The section buffer of section_buf.c as it lives in memory: counters, flags and
// the trailing data area, changed in place by memcpy.
module SectionBuffer {
  import opened Bytes
  import opened SectionBuf

  const EINVAL := 22

  // memcpy(to + at, from + start, n)
  method Copy(to: array<byte>, at: nat, from: seq<byte>, start: nat, n: nat)
    requires at + n <= to.Length && start + n <= |from|
    modifies to
    ensures to[..at + n] == old(to[..at]) + from[start..start + n]
  {
    var i := 0;
    while i < n
      invariant 0 <= i <= n
      invariant to[..at + i] == old(to[..at]) + from[start..start + i]
    {
      to[at + i] := from[start + i];
      i := i + 1;
    }
  }

  class Buffer {
    const area: array<byte>
    var max: nat
    var count: nat
    var len: nat
    var header: bool
    var waitPdu: bool

    ghost function View(): Buf
      requires count <= area.Length
      reads this, area
    {
      Buf(max, area[..count], len, header, waitPdu)
    }

    ghost predicate Sound()
      reads this, area
    {
      count <= area.Length && max <= area.Length && Valid(View())
    }

    constructor (capacity: nat)
      ensures area.Length == capacity && fresh(area)
    {
      area := new byte[capacity](_ => 0);
      max, count, len, header, waitPdu := 0, 0, 0, false, false;
    }

    // section_buf_init
    method Initialise(limit: int) returns (r: int)
      requires limit <= area.Length
      modifies this
      ensures r == if limit < HDR then -EINVAL else 0
      ensures r == 0 ==> Sound() && View() == Init(limit)
      ensures r != 0 ==> unchanged(this)
    {
      if limit < HDR { return -EINVAL; }
      count, header := 0, false;
      max := limit;
      len := HDR;
      waitPdu := true;
      return 0;
    }

    // section_buf_reset
    method ResetBuffer()
      requires Sound()
      modifies this
      ensures Sound() && View() == Reset(old(View()))
    {
      var tmp := waitPdu;
      var r := Initialise(max);
      waitPdu := tmp;
    }

    // section_buf_remaining
    method Remaining() returns (n: int)
      requires Sound()
      ensures n == View().len - |View().data|
    {
      n := len - count;
    }

    // Accumulates n bytes of frag from pos on.
    method Take(frag: seq<byte>, pos: nat, n: nat)
      requires pos + n <= |frag| && count + n <= area.Length
      modifies this`count, area
      ensures count == old(count) + n <= area.Length
      ensures View() == old(View()).(data := old(View()).data + frag[pos..pos + n])
    {
      Copy(area, count, frag, pos, n);
      count := count + n;
    }

    // As much of the body as is still missing.
    method TakeBody(frag: seq<byte>, pos: nat) returns (used: nat, status: Status)
      requires pos <= |frag| && count <= len <= area.Length
      modifies this`count, area
      ensures count <= area.Length
      ensures SectionBuf.Step(View(), used, status) == AddBody(old(View()), frag[pos..])
    {
      used := if len - count > |frag| - pos then |frag| - pos else len - count;
      assert frag[pos..][..used] == frag[pos..pos + used];
      Take(frag, pos, used);
      status := if header && len == count then Complete else More;
    }

    // The header first, and the section length from it.
    method TakeData(frag: seq<byte>, pos: nat) returns (used: nat, status: Status)
      requires Sound() && !Finished(View()) && pos <= |frag|
      modifies this`count, this`len, this`header, area
      ensures count <= area.Length
      ensures SectionBuf.Step(View(), used, status) == AddData(old(View()), frag[pos..])
    {
      if header {
        used, status := TakeBody(frag, pos);
        return;
      }
      ghost var b, rest := View(), frag[pos..];
      var copy := if HDR - count > |frag| - pos then |frag| - pos else HDR - count;
      assert rest[..copy] == frag[pos..pos + copy];
      Take(frag, pos, copy);
      if count != HDR {
        BeforeHeader(b, rest);
        assert rest[..copy] == rest;
        return copy, More;
      }
      ghost var d := View().(len := SizeOf(View().data));
      AtHeader(b, rest, copy, d);
      ReadLength();
      if len > max { return |frag| - pos, TooLong; }
      header := true;
      assert frag[pos + copy..] == rest[copy..];
      used, status := TakeBody(frag, pos + copy);
      used := copy + used;
    }

    // The section length, from the complete header.
    method ReadLength()
      requires HDR == count <= area.Length
      modifies this`len
      ensures View() == old(View()).(len := SizeOf(old(View()).data))
    {
      len := HDR + Be16(area[1] % 16, area[2]);
      assert area[..count][1] == area[1] && area[..count][2] == area[2];
    }

    // section_buf_add
    method AddFragment(frag: seq<byte>) returns (used: nat, status: Status)
      requires Sound()
      modifies this`count, this`len, this`header, area
      ensures Sound() && SectionBuf.Step(View(), used, status) == Add(old(View()), frag)
    {
      ghost var b := View();
      if header && len == count { return 0, Complete; }
      var pos := 0;
      if count == 0 {
        while pos < |frag| && frag[pos] == PAD
          invariant 0 <= pos <= |frag| && Padding(frag) == pos + Padding(frag[pos..])
        {
          pos := pos + 1;
        }
        if pos == |frag| {
          AddNothing(b);
          assert frag[pos..] == [];
          return pos, More;
        }
      }
      AddDataKeepsValid(b, frag[pos..]);
      used, status := TakeData(frag, pos);
      used := pos + used;
    }

    // The final fragment that a unit start announces.
    method AddFinal(payload: seq<byte>, offset: nat) returns (used: nat, status: Status)
      requires Sound() && offset < |payload|
      modifies this, area
      ensures Sound() && SectionBuf.Step(View(), used, status) == Finish(old(View()), payload, offset)
    {
      AddKeepsValid(View(), payload[1..1 + offset]);
      used, status := AddFragment(payload[1..1 + offset]);
      status := Settle(offset, used, status);
      used := 1 + used;
    }

    // Unless the fragment ends the section, the buffer waits for the next unit start.
    method Settle(offset: nat, used: nat, was: Status) returns (status: Status)
      requires Sound()
      modifies this`waitPdu
      ensures Sound()
      ensures var b := old(View());
        if used != offset || b.len != |b.data| || was != Complete then View() == b.(waitPdu := true) && status == TooLong
        else View() == b && status == Complete
    {
      status := was;
      if used != offset || len - count != 0 || status != Complete {
        waitPdu := true;
        status := TooLong;
      }
    }

    // section_buf_add_transport_payload
    method AddTransportPayload(payload: seq<byte>, pduStart: bool) returns (used: nat, status: Status)
      requires Sound() && (pduStart ==> payload != [])
      modifies this, area
      ensures Sound() && SectionBuf.Step(View(), used, status) == AddPayload(old(View()), payload, pduStart)
    {
      if header && len == count { return 0, Complete; }
      if waitPdu && !pduStart { return |payload|, More; }
      if !pduStart {
        used, status := AddRest(payload, 0);
      } else {
        used, status := AddStart(payload);
      }
    }

    // A payload in which a section starts.
    method AddStart(payload: seq<byte>) returns (used: nat, status: Status)
      requires Sound() && !Finished(View()) && payload != []
      modifies this, area
      ensures Sound() && SectionBuf.Step(View(), used, status) == AddPayload(old(View()), payload, true)
    {
      ghost var b := View();
      waitPdu := false;
      assert View() == b.(waitPdu := false);
      var offset: int := payload[0];
      if offset + 1 > |payload| {
        waitPdu := true;
        return |payload|, BadPointer;
      }
      if count != 0 {
        used, status := AddFinal(payload, offset);
      } else {
        used, status := AddRest(payload, 1 + offset);
      }
    }

    // Everything past the pointer goes to the section under way.
    method AddRest(payload: seq<byte>, from: nat) returns (used: nat, status: Status)
      requires Sound() && from <= |payload|
      modifies this, area
      ensures Sound() && SectionBuf.Step(View(), used, status) == Accumulate(old(View()), payload, from)
    {
      AddKeepsValid(View(), payload[from..]);
      used, status := AddFragment(payload[from..]);
      if status == TooLong {
        waitPdu := true;
      }
      used := from + used;
    }
  }
}
