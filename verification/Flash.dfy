// joker_spi.c: writing an image into the serial flash. The device is modelled as
// its data sheet describes it: erasing sets a sector to ones, programming can only
// clear bits, both need the write-enable latch and take time, and an address is
// the 24 bits that a command carries.
module Flash {
  import opened Bytes

  const PAGE: nat := 256
  const SECTOR: nat := 262144
  const SIZE: nat := 0x100_0000

  datatype Command =
    | WriteEnable
    | ReadStatus
    | SectorErase(high: byte, mid: byte, low: byte)
    | PageProgram(high: byte, mid: byte, low: byte, data: seq<bv8>)

  function Address(high: byte, mid: byte, low: byte): (a: nat)
    ensures a < SIZE
  {
    high * 65536 + mid * 256 + low
  }

  type Memory = m: seq<bv8> | |m| == SIZE witness seq(SIZE, _ => 0)

  // ---- what the device does ----

  function Erased(m: Memory, a: nat): Memory {
    seq(SIZE, i requires 0 <= i < SIZE => if i / SECTOR == a / SECTOR then 0xff else m[i])
  }

  // Bits are cleared within the addressed page; past its end the address wraps.
  function Programmed(m: Memory, a: nat, data: seq<bv8>): Memory {
    seq(SIZE, i requires 0 <= i < SIZE =>
      if i / PAGE == a / PAGE && (i - a) % PAGE < |data| then m[i] & data[(i - a) % PAGE] else m[i])
  }

  // ---- what a write should leave ----

  // One cell once the first `done` bytes of the image are written.
  function Cell(start: Memory, image: seq<bv8>, done: nat, i: nat): bv8
    requires done <= |image| && i < SIZE
  {
    if i < done then image[i] else if done > 0 && i < SECTOR * (done / SECTOR + 1) then 0xff else start[i]
  }

  // The memory after a successful write. At exactly 16 MiB the sector erased ahead
  // of the last page has address 0 again.
  function After(start: Memory, image: seq<bv8>): Memory
    requires 0 < |image| <= SIZE
  {
    seq(SIZE, i requires 0 <= i < SIZE =>
      if |image| == SIZE && i < SECTOR then 0xff else Cell(start, image, |image|, i))
  }

  // The image is in the flash exactly when it is shorter than the device, or its
  // first sector is blank.
  lemma ImageIsStoredIff(m: Memory, image: seq<bv8>)
    requires 0 < |image| <= SIZE
    ensures After(m, image)[..|image|] == image
      <==> |image| < SIZE || (forall i :: 0 <= i < SECTOR ==> image[i] == 0xff)
  {
    var after := After(m, image);
    if |image| == SIZE {
      assert after[..|image|] == after;
      forall i | 0 <= i < SECTOR ensures after[i] == 0xff {}
    }
  }

  // The image that fills the device with zeros is lost in its first sector.
  lemma FullImageIsNotStored(m: Memory, image: seq<bv8>)
    requires |image| == SIZE && image[0] == 0
    ensures After(m, image)[0] == 0xff && After(m, image)[..|image|] != image
  {
    assert After(m, image)[..|image|][0] == 0xff;
  }

  // Beyond the last erased sector nothing changes.
  lemma RestIsKept(m: Memory, image: seq<bv8>, i: nat)
    requires 0 < |image| < SIZE && SECTOR * (|image| / SECTOR + 1) <= i < SIZE
    ensures After(m, image)[i] == m[i]
  {
  }

  // ---- one page ----

  lemma OnesAreKept(x: bv8)
    ensures 0xff & x == x
  {
  }

  // The sector that holds the last byte about to be written, or the one after it.
  function NextSector(done: nat, n: nat): nat { (done + n) / SECTOR }

  function PrevSector(done: nat): int { if done == 0 then -1 else done / SECTOR }

  // Pages start on multiples of 256 and never straddle a sector, so the sector
  // number steps by at most one, and only ahead of a sector's last page.
  lemma SectorSteps(done: nat, n: nat)
    requires done % PAGE == 0 && 0 < n <= PAGE
    ensures PrevSector(done + n) == NextSector(done, n)
    ensures PrevSector(done) <= NextSector(done, n) <= PrevSector(done) + 1
    ensures done + n <= SECTOR * (PrevSector(done) + 1) || NextSector(done, n) > PrevSector(done)
  {
  }

  ghost predicate Written(start: Memory, m: Memory, image: seq<bv8>, done: nat)
    requires done <= |image| <= SIZE
  {
    forall i :: 0 <= i < SIZE ==> m[i] == Cell(start, image, done, i)
  }

  function Cleared(m: Memory, done: nat, n: nat): Memory {
    if NextSector(done, n) > PrevSector(done) then Erased(m, SECTOR * NextSector(done, n) % SIZE) else m
  }

  // What is done to the memory for one page.
  function Step(m: Memory, image: seq<bv8>, done: nat, n: nat): Memory
    requires done + n <= |image| <= SIZE
  {
    Programmed(Cleared(m, done, n), done, image[done..done + n])
  }

  // Ahead of a page, everything up to the end of its sector is blank, and no erase
  // has reached a byte already written.
  lemma ClearedCell(start: Memory, m: Memory, image: seq<bv8>, done: nat, n: nat, i: nat)
    requires done + n <= |image| <= SIZE && done % PAGE == 0 && 0 < n <= PAGE && done + n < SIZE && i < SIZE
    requires m[i] == Cell(start, image, done, i)
    ensures Cleared(m, done, n)[i] ==
      if i < done then image[i] else if i < SECTOR * (NextSector(done, n) + 1) then 0xff else start[i]
  {
    SectorSteps(done, n);
    var next := NextSector(done, n);
    assert SECTOR * next % SIZE == SECTOR * next;
    if next > PrevSector(done) { SectorOf(i, next); }
  }

  lemma ProgrammedCell(e: Memory, image: seq<bv8>, done: nat, n: nat, i: nat)
    requires done + n <= |image| <= SIZE && done % PAGE == 0 && 0 < n <= PAGE && i < SIZE
    requires done <= i < done + n ==> e[i] == 0xff
    ensures Programmed(e, done, image[done..done + n])[i] == if done <= i < done + n then image[i] else e[i]
  {
    InPage(i, done, n);
    if done <= i < done + n { OnesAreKept(image[i]); }
  }

  lemma StepWrites(start: Memory, m: Memory, image: seq<bv8>, done: nat, n: nat)
    requires done + n <= |image| <= SIZE && done % PAGE == 0 && 0 < n <= PAGE && done + n < SIZE
    requires Written(start, m, image, done)
    ensures Written(start, Step(m, image, done, n), image, done + n)
  {
    forall i | 0 <= i < SIZE ensures Step(m, image, done, n)[i] == Cell(start, image, done + n, i) {
      ClearedCell(start, m, image, done, n, i);
      InSector(done, n);
      ProgrammedCell(Cleared(m, done, n), image, done, n, i);
    }
  }

  lemma InSector(done: nat, n: nat)
    ensures done + n < SECTOR * (NextSector(done, n) + 1)
  {
  }

  lemma SectorOf(i: nat, k: nat)
    ensures i / SECTOR == SECTOR * k / SECTOR <==> SECTOR * k <= i < SECTOR * (k + 1)
  {
    assert SECTOR * k / SECTOR == k;
  }

  // The last page of a full device: its erase lands on sector 0.
  lemma LastStepOfFullImage(start: Memory, m: Memory, image: seq<bv8>)
    requires |image| == SIZE && Written(start, m, image, SIZE - PAGE)
    ensures Step(m, image, SIZE - PAGE, PAGE) == After(start, image)
  {
    var done := SIZE - PAGE;
    assert NextSector(done, PAGE) == 64 && PrevSector(done) == 63;
    var e := Cleared(m, done, PAGE);
    assert e == Erased(m, 0);
    forall i | 0 <= i < SIZE ensures Step(m, image, done, PAGE)[i] == After(start, image)[i] {
      ProgrammedCell(e, image, done, PAGE, i);
    }
  }

  lemma InPage(i: nat, done: nat, n: nat)
    requires done % PAGE == 0 && 0 < n <= PAGE
    ensures i / PAGE == done / PAGE && (i - done) % PAGE < n <==> done <= i < done + n
    ensures done <= i < done + n ==> (i - done) % PAGE == i - done
  {
    if i / PAGE == done / PAGE {
      assert done <= i < done + PAGE;
      assert (i - done) % PAGE == i - done;
    }
  }

  // ---- the device, and the code that drives it ----

  class Device {
    var mem: Memory
    var latch: bool
    var busy: nat
    var faults: nat
    var lastFault: int

    constructor ()
      ensures Idle()
    {
      mem, latch, busy, faults, lastFault := seq(SIZE, _ => 0xff), false, 0, 0, -1;
    }

    predicate Idle()
      reads this
    {
      busy == 0 && !latch
    }

    // One joker_cmd transfer. It may fail, before or after the device has acted, with
    // any error code.
    method Transfer(c: Command) returns (ret: int, status: byte)
      modifies this
      ensures faults == if ret == 0 then old(faults) else old(faults) + 1
      ensures lastFault == if ret == 0 then old(lastFault) else ret
      ensures mem == old(mem) || (old(latch) && old(busy) == 0 && mem == Acted(old(mem), c))
      ensures ret == 0 && c.WriteEnable? && old(busy) == 0 ==> latch && busy == 0 && mem == old(mem)
      ensures ret == 0 && (c.SectorErase? || c.PageProgram?) && old(latch) && old(busy) == 0 ==>
        !latch && mem == Acted(old(mem), c)
      ensures c.ReadStatus? ==> mem == old(mem) && latch == old(latch) && busy <= old(busy)
      ensures ret == 0 && c.ReadStatus? && !latch ==> busy < old(busy) || busy == 0
      ensures ret == 0 && c.ReadStatus? && !latch ==> (status == 0 <==> busy == 0)
    {
      ret, status := *, 0;
      if ret != 0 { faults, lastFault := faults + 1, ret; }
      var heard: bool := *;
      if ret != 0 && !heard { return; }
      match c {
        case ReadStatus =>
          busy := if busy == 0 then 0 else busy - 1;
          status := (if busy == 0 then 0 else 1) + (if latch then 2 else 0);
        case WriteEnable =>
          if busy == 0 { latch := true; }
        case SectorErase(_, _, _) =>
          if busy == 0 && latch { mem := Acted(mem, c); latch, busy := false, *; }
        case PageProgram(_, _, _, _) =>
          if busy == 0 && latch { mem := Acted(mem, c); latch, busy := false, *; }
      }
    }

    // The loop that reads the status until it is zero.
    method AwaitReady() returns (ret: int)
      requires !latch
      modifies this
      ensures mem == old(mem) && faults >= old(faults)
      ensures (ret == 0 <==> faults == old(faults)) && (ret != 0 ==> ret == lastFault)
      ensures ret == 0 ==> Idle()
    {
      while true
        invariant mem == old(mem) && !latch && faults == old(faults)
        decreases busy
      {
        var status;
        ret, status := Transfer(ReadStatus);
        if ret != 0 { return; }
        if status == 0 { return 0; }
      }
    }

    method Perform(c: Command) returns (ret: int)
      requires Idle() && (c.SectorErase? || c.PageProgram?)
      modifies this
      ensures faults >= old(faults)
      ensures (ret == 0 <==> faults == old(faults)) && (ret != 0 ==> ret == lastFault)
      ensures mem == old(mem) || mem == Acted(old(mem), c)
      ensures ret == 0 ==> Idle() && mem == Acted(old(mem), c)
    {
      var status;
      ret, status := Transfer(WriteEnable);
      if ret != 0 { return; }
      ret, status := Transfer(c);
      if ret != 0 { return; }
      ret := AwaitReady();
    }

    // joker_flash_erase_sector
    method EraseSector(off: nat) returns (ret: int)
      requires Idle()
      modifies this
      ensures faults >= old(faults)
      ensures (ret == 0 <==> faults == old(faults)) && (ret != 0 ==> ret == lastFault)
      ensures mem == old(mem) || mem == Erased(old(mem), off % SIZE)
      ensures ret == 0 ==> Idle() && mem == Erased(old(mem), off % SIZE)
    {
      AddressBytes(off);
      ret := Perform(SectorErase(off / 65536 % 256, off / 256 % 256, off % 256));
    }

    // joker_flash_write_page
    method WritePage(data: seq<bv8>, off: nat) returns (ret: int)
      requires Idle()
      modifies this
      ensures faults >= old(faults)
      ensures (ret == 0 <==> faults == old(faults)) && (ret != 0 ==> ret == lastFault)
      ensures mem == old(mem) || mem == Programmed(old(mem), off % SIZE, data)
      ensures ret == 0 ==> Idle() && mem == Programmed(old(mem), off % SIZE, data)
    {
      AddressBytes(off);
      ret := Perform(PageProgram(off / 65536 % 256, off / 256 % 256, off % 256, data));
    }

    // The body of joker_flash_write's loop.
    method WriteNext(image: seq<bv8>, off: nat, n: nat, prev: int) returns (ret: int, sector: int)
      requires Idle() && off + n <= |image| <= SIZE && off % PAGE == 0 && 0 < n <= PAGE && prev == PrevSector(off)
      modifies this
      ensures (ret == 0 || ret == -1) && faults >= old(faults)
      ensures ret == 0 <==> faults == old(faults)
      ensures ret == 0 ==> Idle() && mem == Step(old(mem), image, off, n) && sector == PrevSector(off + n)
    {
      ret, sector := EraseAhead(off, n, prev);
      if ret != 0 { return -1, sector; }
      SectorReached(off, n, sector);
      Unwrapped(off);
      ret := WritePage(image[off..off + n], off);
      if ret != 0 { ret := -1; }
    }

    method EraseAhead(off: nat, n: nat, prev: int) returns (ret: int, sector: int)
      requires Idle() && prev == PrevSector(off)
      modifies this
      ensures faults >= old(faults)
      ensures ret == 0 <==> faults == old(faults)
      ensures ret == 0 ==> Idle() && mem == Cleared(old(mem), off, n)
      ensures ret == 0 ==> sector == if NextSector(off, n) > prev then NextSector(off, n) else prev
    {
      ret, sector := 0, prev;
      var next := (off + n) / SECTOR;
      if next > prev {
        ret := EraseSector(SECTOR * next);
        sector := next;
      }
    }

    // joker_flash_write, for the bytes of the file
    method Write(image: seq<bv8>) returns (ret: int)
      requires Idle()
      modifies this
      ensures ret == 0 || ret == -1
      ensures image == [] || |image| > SIZE ==> ret == -1 && unchanged(this)
      ensures 0 < |image| <= SIZE ==> (ret == 0 <==> faults == old(faults))
      ensures ret == 0 ==> Idle() && mem == After(old(mem), image)
    {
      if |image| <= 0 || |image| > SIZE { return -1; }
      ghost var start := mem;
      var off, prev := 0, -1;
      while off < |image|
        invariant 0 <= off <= |image| && (off % PAGE == 0 || off == |image|)
        invariant prev == PrevSector(off) && Idle() && faults == old(faults)
        invariant Reached(start, mem, image, off)
      {
        var n := if |image| - off > PAGE then PAGE else |image| - off;
        ghost var before := mem;
        ret, prev := WriteNext(image, off, n, prev);
        if ret != 0 { return; }
        StepMatches(start, before, mem, image, off, n);
        off := off + n;
      }
      Finished(start, mem, image);
      return 0;
    }
  }

  lemma SectorReached(off: nat, n: nat, sector: int)
    requires off % PAGE == 0 && 0 < n <= PAGE
    requires sector == if NextSector(off, n) > PrevSector(off) then NextSector(off, n) else PrevSector(off)
    ensures sector == PrevSector(off + n)
  {
    SectorSteps(off, n);
  }

  lemma Unwrapped(off: nat)
    requires off < SIZE
    ensures off % SIZE == off
  {
  }

  ghost predicate Reached(start: Memory, m: Memory, image: seq<bv8>, done: nat)
    requires done <= |image| <= SIZE
  {
    if done == SIZE then m == After(start, image) else Written(start, m, image, done)
  }

  lemma Finished(start: Memory, m: Memory, image: seq<bv8>)
    requires 0 < |image| <= SIZE && Reached(start, m, image, |image|)
    ensures m == After(start, image)
  {
  }

  lemma StepMatches(start: Memory, before: Memory, m: Memory, image: seq<bv8>, done: nat, n: nat)
    requires done < |image| <= SIZE && done % PAGE == 0
    requires n == if |image| - done > PAGE then PAGE else |image| - done
    requires Reached(start, before, image, done) && m == Step(before, image, done, n)
    ensures Reached(start, m, image, done + n)
  {
    if done + n == SIZE {
      LastStepOfFullImage(start, before, image);
    } else {
      StepWrites(start, before, image, done, n);
    }
  }

  function Acted(m: Memory, c: Command): Memory {
    match c
    case SectorErase(high, mid, low) => Erased(m, Address(high, mid, low))
    case PageProgram(high, mid, low, data) => Programmed(m, Address(high, mid, low), data)
    case _ => m
  }

  lemma AddressBytes(off: nat)
    ensures Address(off / 65536 % 256, off / 256 % 256, off % 256) == off % SIZE
  {
    var q, r := off / 65536, off % 65536;
    Remainder(off, q / 256, q % 256 * 65536 + r);
    Quotient(off, q, r / 256, r % 256);
  }

  lemma Quotient(off: nat, q: nat, mid: nat, low: nat)
    requires off == (q * 256 + mid) * 256 + low && mid < 256 && low < 256
    ensures off / 256 == q * 256 + mid && off % 256 == low && off / 256 % 256 == mid
  {
  }

  lemma Remainder(off: nat, k: nat, r: nat)
    requires off == SIZE * k + r && r < SIZE
    ensures off % SIZE == r
  {
  }
}
