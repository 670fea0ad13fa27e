// The CRC of PSI sections (crc32.h, crc32.c): the table-driven loop computes the
// bit-by-bit division by 0x04C11DB7 of Annex A of ISO/IEC 13818-1.
module Crc32 {

  const INIT: bv32 := 0xFFFF_FFFF

  // ---- the definition: one message bit at a time, most significant first ----

  predicate Top(r: bv32) { r & 0x8000_0000 != 0 }

  function BitStep(r: bv32, bit: bool): bv32 {
    if Top(r) != bit then (r << 1) ^ 0x04C1_1DB7 else r << 1
  }

  // The register after the n top bits of z.
  function Feed(r: bv32, z: bv32, n: nat): bv32
    decreases n, z
  {
    if n == 0 then r else Feed(BitStep(r, Top(z)), z << 1, n - 1)
  }

  function High(b: bv8): bv32 { (b as bv32) << 24 }

  function Byte(r: bv32, b: bv8): bv32 { Feed(r, High(b), 8) }

  function Crc(r: bv32, msg: seq<bv8>): bv32
    decreases |msg|
  {
    if msg == [] then r else Crc(Byte(r, msg[0]), msg[1..])
  }

  // ---- the table ----

  // crc32tbl, sixteen entries a row.
  function Row(k: nat): (row: seq<bv32>)
    requires k < 16
    ensures |row| == 16
  {
    match k
    case 0 => [0x00000000, 0x04c11db7, 0x09823b6e, 0x0d4326d9, 0x130476dc, 0x17c56b6b, 0x1a864db2, 0x1e475005,
      0x2608edb8, 0x22c9f00f, 0x2f8ad6d6, 0x2b4bcb61, 0x350c9b64, 0x31cd86d3, 0x3c8ea00a, 0x384fbdbd]
    case 1 => [0x4c11db70, 0x48d0c6c7, 0x4593e01e, 0x4152fda9, 0x5f15adac, 0x5bd4b01b, 0x569796c2, 0x52568b75,
      0x6a1936c8, 0x6ed82b7f, 0x639b0da6, 0x675a1011, 0x791d4014, 0x7ddc5da3, 0x709f7b7a, 0x745e66cd]
    case 2 => [0x9823b6e0, 0x9ce2ab57, 0x91a18d8e, 0x95609039, 0x8b27c03c, 0x8fe6dd8b, 0x82a5fb52, 0x8664e6e5,
      0xbe2b5b58, 0xbaea46ef, 0xb7a96036, 0xb3687d81, 0xad2f2d84, 0xa9ee3033, 0xa4ad16ea, 0xa06c0b5d]
    case 3 => [0xd4326d90, 0xd0f37027, 0xddb056fe, 0xd9714b49, 0xc7361b4c, 0xc3f706fb, 0xceb42022, 0xca753d95,
      0xf23a8028, 0xf6fb9d9f, 0xfbb8bb46, 0xff79a6f1, 0xe13ef6f4, 0xe5ffeb43, 0xe8bccd9a, 0xec7dd02d]
    case 4 => [0x34867077, 0x30476dc0, 0x3d044b19, 0x39c556ae, 0x278206ab, 0x23431b1c, 0x2e003dc5, 0x2ac12072,
      0x128e9dcf, 0x164f8078, 0x1b0ca6a1, 0x1fcdbb16, 0x018aeb13, 0x054bf6a4, 0x0808d07d, 0x0cc9cdca]
    case 5 => [0x7897ab07, 0x7c56b6b0, 0x71159069, 0x75d48dde, 0x6b93dddb, 0x6f52c06c, 0x6211e6b5, 0x66d0fb02,
      0x5e9f46bf, 0x5a5e5b08, 0x571d7dd1, 0x53dc6066, 0x4d9b3063, 0x495a2dd4, 0x44190b0d, 0x40d816ba]
    case 6 => [0xaca5c697, 0xa864db20, 0xa527fdf9, 0xa1e6e04e, 0xbfa1b04b, 0xbb60adfc, 0xb6238b25, 0xb2e29692,
      0x8aad2b2f, 0x8e6c3698, 0x832f1041, 0x87ee0df6, 0x99a95df3, 0x9d684044, 0x902b669d, 0x94ea7b2a]
    case 7 => [0xe0b41de7, 0xe4750050, 0xe9362689, 0xedf73b3e, 0xf3b06b3b, 0xf771768c, 0xfa325055, 0xfef34de2,
      0xc6bcf05f, 0xc27dede8, 0xcf3ecb31, 0xcbffd686, 0xd5b88683, 0xd1799b34, 0xdc3abded, 0xd8fba05a]
    case 8 => [0x690ce0ee, 0x6dcdfd59, 0x608edb80, 0x644fc637, 0x7a089632, 0x7ec98b85, 0x738aad5c, 0x774bb0eb,
      0x4f040d56, 0x4bc510e1, 0x46863638, 0x42472b8f, 0x5c007b8a, 0x58c1663d, 0x558240e4, 0x51435d53]
    case 9 => [0x251d3b9e, 0x21dc2629, 0x2c9f00f0, 0x285e1d47, 0x36194d42, 0x32d850f5, 0x3f9b762c, 0x3b5a6b9b,
      0x0315d626, 0x07d4cb91, 0x0a97ed48, 0x0e56f0ff, 0x1011a0fa, 0x14d0bd4d, 0x19939b94, 0x1d528623]
    case 10 => [0xf12f560e, 0xf5ee4bb9, 0xf8ad6d60, 0xfc6c70d7, 0xe22b20d2, 0xe6ea3d65, 0xeba91bbc, 0xef68060b,
      0xd727bbb6, 0xd3e6a601, 0xdea580d8, 0xda649d6f, 0xc423cd6a, 0xc0e2d0dd, 0xcda1f604, 0xc960ebb3]
    case 11 => [0xbd3e8d7e, 0xb9ff90c9, 0xb4bcb610, 0xb07daba7, 0xae3afba2, 0xaafbe615, 0xa7b8c0cc, 0xa379dd7b,
      0x9b3660c6, 0x9ff77d71, 0x92b45ba8, 0x9675461f, 0x8832161a, 0x8cf30bad, 0x81b02d74, 0x857130c3]
    case 12 => [0x5d8a9099, 0x594b8d2e, 0x5408abf7, 0x50c9b640, 0x4e8ee645, 0x4a4ffbf2, 0x470cdd2b, 0x43cdc09c,
      0x7b827d21, 0x7f436096, 0x7200464f, 0x76c15bf8, 0x68860bfd, 0x6c47164a, 0x61043093, 0x65c52d24]
    case 13 => [0x119b4be9, 0x155a565e, 0x18197087, 0x1cd86d30, 0x029f3d35, 0x065e2082, 0x0b1d065b, 0x0fdc1bec,
      0x3793a651, 0x3352bbe6, 0x3e119d3f, 0x3ad08088, 0x2497d08d, 0x2056cd3a, 0x2d15ebe3, 0x29d4f654]
    case 14 => [0xc5a92679, 0xc1683bce, 0xcc2b1d17, 0xc8ea00a0, 0xd6ad50a5, 0xd26c4d12, 0xdf2f6bcb, 0xdbee767c,
      0xe3a1cbc1, 0xe760d676, 0xea23f0af, 0xeee2ed18, 0xf0a5bd1d, 0xf464a0aa, 0xf9278673, 0xfde69bc4]
    case _ => [0x89b8fd09, 0x8d79e0be, 0x803ac667, 0x84fbdbd0, 0x9abc8bd5, 0x9e7d9662, 0x933eb0bb, 0x97ffad0c,
      0xafb010b1, 0xab710d06, 0xa6322bdf, 0xa2f33668, 0xbcb4666d, 0xb8757bda, 0xb5365d03, 0xb1f740b4]
  }

  function Table(x: bv8): bv32 { Row((x >> 4) as nat)[(x & 15) as nat] }

  // The body of the loop.
  method Round(crc: bv32, b: bv8) returns (r: bv32)
    ensures r == Byte(crc, b)
  {
    TableStep(crc, b);
    r := (crc << 8) ^ Table(((crc >> 24) as bv8) ^ b);
  }

  // crc32
  method Compute(crc: bv32, buf: seq<bv8>) returns (r: bv32)
    ensures r == Crc(crc, buf)
  {
    r := crc;
    var i := 0;
    while i < |buf|
      invariant 0 <= i <= |buf| && Crc(crc, buf) == Crc(r, buf[i..])
    {
      r := Round(r, buf[i]);
      i := i + 1;
    }
  }

  // ---- the register as a linear map ----

  // The solver takes bit-vector facts best over named values, so each fact below
  // comes first about values and then about the functions.

  // The register shifted past a zero bit; past n of them.
  function Shift(r: bv32): bv32 {
    if r & 0x8000_0000 != 0 then (r << 1) ^ 0x04C1_1DB7 else r << 1
  }

  function Shifts(r: bv32, n: nat): bv32
    decreases n
  {
    if n == 0 then r else Shifts(Shift(r), n - 1)
  }

  ghost predicate Sums(a: bv32, b: bv32, c: bv32, sa: bv32, sb: bv32, sc: bv32) {
    c == a ^ b && sa == Shift(a) && sb == Shift(b) && sc == Shift(c)
  }

  lemma Sum11(a: bv32, b: bv32, c: bv32, sa: bv32, sb: bv32, sc: bv32)
    requires Sums(a, b, c, sa, sb, sc) && Top(a) && Top(b)
    ensures sc == sa ^ sb
  {
  }

  lemma Sum10(a: bv32, b: bv32, c: bv32, sa: bv32, sb: bv32, sc: bv32)
    requires Sums(a, b, c, sa, sb, sc) && Top(a) && !Top(b)
    ensures sc == sa ^ sb
  {
  }

  lemma Sum01(a: bv32, b: bv32, c: bv32, sa: bv32, sb: bv32, sc: bv32)
    requires Sums(a, b, c, sa, sb, sc) && !Top(a) && Top(b)
    ensures sc == sa ^ sb
  {
  }

  lemma Sum00(a: bv32, b: bv32, c: bv32, sa: bv32, sb: bv32, sc: bv32)
    requires Sums(a, b, c, sa, sb, sc) && !Top(a) && !Top(b)
    ensures sc == sa ^ sb
  {
  }

  lemma Sum(a: bv32, b: bv32, c: bv32, sa: bv32, sb: bv32, sc: bv32)
    requires Sums(a, b, c, sa, sb, sc)
    ensures sc == sa ^ sb
  {
    if Top(a) {
      if Top(b) { Sum11(a, b, c, sa, sb, sc); } else { Sum10(a, b, c, sa, sb, sc); }
    } else {
      if Top(b) { Sum01(a, b, c, sa, sb, sc); } else { Sum00(a, b, c, sa, sb, sc); }
    }
  }

  lemma ShiftXor(a: bv32, b: bv32, c: bv32) returns (sa: bv32, sb: bv32, sc: bv32)
    requires c == a ^ b
    ensures sa == Shift(a) && sb == Shift(b) && sc == Shift(c) && sc == sa ^ sb
  {
    sa, sb, sc := Shift(a), Shift(b), Shift(c);
    Sum(a, b, c, sa, sb, sc);
  }

  lemma {:induction false} ShiftsXor(a: bv32, b: bv32, c: bv32, n: nat, p: bv32, q: bv32, s: bv32)
    requires c == a ^ b && p == Shifts(a, n) && q == Shifts(b, n) && s == Shifts(c, n)
    ensures s == p ^ q
    decreases n
  {
    if n > 0 {
      var sa, sb, sc := ShiftXor(a, b, c);
      ShiftsXor(sa, sb, sc, n - 1, p, q, s);
    }
  }

  // The polynomial is odd, so no shift forgets anything.
  lemma ShiftInjective(a: bv32, b: bv32, s: bv32)
    requires Shift(a) == s && Shift(b) == s
    ensures a == b
  {
    Undone(a, s);
    Undone(b, s);
  }

  function Unshift(r: bv32): bv32 {
    if r & 1 != 0 then ((r ^ 0x04C1_1DB7) >> 1) | 0x8000_0000 else r >> 1
  }

  lemma Undone(a: bv32, s: bv32)
    requires s == Shift(a)
    ensures Unshift(s) == a
  {
    if Top(a) { UndoneHigh(a, s); } else { UndoneLow(a, s); }
  }

  lemma UndoneHigh(a: bv32, s: bv32)
    requires s == Shift(a) && Top(a)
    ensures Unshift(s) == a
  {
  }

  lemma UndoneLow(a: bv32, s: bv32)
    requires s == Shift(a) && !Top(a)
    ensures Unshift(s) == a
  {
  }

  lemma {:induction false} ShiftsInjective(a: bv32, b: bv32, n: nat)
    requires Shifts(a, n) == Shifts(b, n)
    ensures a == b
    decreases n
  {
    if n > 0 {
      ShiftsInjective(Shift(a), Shift(b), n - 1);
      ShiftInjective(a, b, Shift(a));
    }
  }

  // ---- a byte of message is eight shifts of the register it was added to ----

  // Message bits may wait in the top of the register: z holds those to come.
  ghost predicate Waiting(r: bv32, z: bv32, w: bv32, s: bv32, t: bv32, u: bv32) {
    w == r ^ z && s == Shift(w) && t == BitStep(r, Top(z)) && u == z << 1
  }

  lemma Wait11(r: bv32, z: bv32, w: bv32, s: bv32, t: bv32, u: bv32)
    requires Waiting(r, z, w, s, t, u) && Top(r) && Top(z)
    ensures s == t ^ u
  {
  }

  lemma Wait10(r: bv32, z: bv32, w: bv32, s: bv32, t: bv32, u: bv32)
    requires Waiting(r, z, w, s, t, u) && Top(r) && !Top(z)
    ensures s == t ^ u
  {
  }

  lemma Wait01(r: bv32, z: bv32, w: bv32, s: bv32, t: bv32, u: bv32)
    requires Waiting(r, z, w, s, t, u) && !Top(r) && Top(z)
    ensures s == t ^ u
  {
  }

  lemma Wait00(r: bv32, z: bv32, w: bv32, s: bv32, t: bv32, u: bv32)
    requires Waiting(r, z, w, s, t, u) && !Top(r) && !Top(z)
    ensures s == t ^ u
  {
  }

  lemma Wait(r: bv32, z: bv32, w: bv32, s: bv32, t: bv32, u: bv32)
    requires Waiting(r, z, w, s, t, u)
    ensures s == t ^ u
  {
    if Top(r) {
      if Top(z) { Wait11(r, z, w, s, t, u); } else { Wait10(r, z, w, s, t, u); }
    } else {
      if Top(z) { Wait01(r, z, w, s, t, u); } else { Wait00(r, z, w, s, t, u); }
    }
  }

  lemma BitWaits(r: bv32, z: bv32, w: bv32) returns (s: bv32, t: bv32, u: bv32)
    requires w == r ^ z
    ensures s == Shift(w) && t == BitStep(r, Top(z)) && u == z << 1 && s == t ^ u
  {
    s, t, u := Shift(w), BitStep(r, Top(z)), z << 1;
    Wait(r, z, w, s, t, u);
  }

  function Rest(z: bv32, n: nat): bv32
    decreases n
  {
    if n == 0 then z else Rest(z << 1, n - 1)
  }

  // Feeding n bits is n shifts of the register they were added to, apart from
  // the bits that still wait.
  lemma {:induction false} FeedIsShifts(r: bv32, z: bv32, w: bv32, n: nat)
    requires w == r ^ z
    ensures Feed(r, z, n) ^ Rest(z, n) == Shifts(w, n)
    decreases n
  {
    if n > 0 {
      var s, t, u := BitWaits(r, z, w);
      FeedIsShifts(t, u, s, n - 1);
    }
  }

  lemma NoBitWaits(b: bv8)
    ensures Rest(High(b), 8) == 0
  {
  }

  lemma XorZero(a: bv32)
    ensures a ^ 0 == a
  {
  }

  lemma FeedAll(r: bv32, z: bv32, w: bv32, n: nat)
    requires w == r ^ z && Rest(z, n) == 0
    ensures Feed(r, z, n) == Shifts(w, n)
  {
    FeedIsShifts(r, z, w, n);
    XorZero(Feed(r, z, n));
  }

  lemma ByteIsShifts(r: bv32, b: bv8, w: bv32)
    requires w == r ^ High(b)
    ensures Byte(r, b) == Shifts(w, 8)
  {
    NoBitWaits(b);
    FeedAll(r, High(b), w, 8);
  }

  // ---- the table-driven round ----

  function Shift8(r: bv32): bv32 { Shift(Shift(Shift(Shift(Shift(Shift(Shift(Shift(r)))))))) }

  lemma EightShifts(r: bv32)
    ensures Shifts(r, 8) == Shift8(r)
  {
  }

  lemma Table0(x: bv8)
    requires x >> 6 == 0
    ensures Table(x) == Shift8(High(x))
  {
  }

  lemma Table1(x: bv8)
    requires x >> 6 == 1
    ensures Table(x) == Shift8(High(x))
  {
  }

  lemma Table2(x: bv8)
    requires x >> 6 == 2
    ensures Table(x) == Shift8(High(x))
  {
  }

  lemma Table3(x: bv8)
    requires x >> 6 == 3
    ensures Table(x) == Shift8(High(x))
  {
  }

  lemma TableInQuarters(x: bv8)
    ensures Table(x) == Shift8(High(x))
  {
    if x >> 6 == 0 { Table0(x); } else if x >> 6 == 1 { Table1(x); } else if x >> 6 == 2 { Table2(x); } else { Table3(x); }
  }

  // Every entry of the table is its index divided: eight shifts of the top byte.
  lemma TableIsShifts(x: bv8, h: bv32)
    requires h == High(x)
    ensures Table(x) == Shifts(h, 8)
  {
    TableInQuarters(x);
    EightShifts(h);
  }

  // Below the top byte eight shifts only move bits up.
  lemma ShiftsLow(r: bv32, l: bv32)
    requires r & 0xFF00_0000 == 0 && l == r << 8
    ensures Shifts(r, 8) == l
  {
  }

  lemma TopAndLow(r: bv32, b: bv8, x: bv8, low: bv32, high: bv32, w: bv32, l: bv32)
    requires x == ((r >> 24) as bv8) ^ b && low == r & 0x00FF_FFFF && high == High(x)
    requires w == r ^ High(b) && l == r << 8
    ensures w == high ^ low && l == low << 8 && low & 0xFF00_0000 == 0
  {
  }

  lemma Swap(p: bv32, q: bv32, s: bv32)
    requires s == p ^ q
    ensures s == q ^ p
  {
  }

  lemma RoundOnValues(r: bv32, b: bv8, x: bv8, low: bv32, high: bv32, w: bv32, t: bv32, l: bv32, y: bv32)
    requires x == ((r >> 24) as bv8) ^ b && low == r & 0x00FF_FFFF && high == High(x)
    requires w == r ^ High(b) && t == Shifts(high, 8) && l == r << 8 && y == Byte(r, b)
    ensures y == l ^ t
  {
    TopAndLow(r, b, x, low, high, w, l);
    ShiftsLow(low, l);
    ByteIsShifts(r, b, w);
    ShiftsXor(high, low, w, 8, t, l, y);
    Swap(t, l, y);
  }

  // One round of the table-driven loop is eight bits of the division.
  lemma TableStep(r: bv32, b: bv8)
    ensures (r << 8) ^ Table(((r >> 24) as bv8) ^ b) == Byte(r, b)
  {
    var x := ((r >> 24) as bv8) ^ b;
    TableIsShifts(x, High(x));
    RoundOnValues(r, b, x, r & 0x00FF_FFFF, High(x), r ^ High(b), Table(x), r << 8, Byte(r, b));
  }
}
