// What the CRC of a section can be relied on for: it forgets nothing about the
// register, detects every burst of up to four bytes, and leaves residue zero.
module CrcProperties {
  import opened Crc32

  lemma {:induction false} CrcOfConcat(r: bv32, a: seq<bv8>, b: seq<bv8>)
    ensures Crc(r, a + b) == Crc(Crc(r, a), b)
    decreases |a|
  {
    if a == [] {
      assert a + b == b;
    } else {
      assert (a + b)[1..] == a[1..] + b;
      CrcOfConcat(Byte(r, a[0]), a[1..], b);
    }
  }

  // ---- one byte ----

  lemma CancelHigh(r: bv32, s: bv32, h: bv32, x: bv32, y: bv32)
    requires x == r ^ h && y == s ^ h && x == y
    ensures r == s
  {
  }

  lemma ByteInjective(r: bv32, s: bv32, b: bv8)
    requires Byte(r, b) == Byte(s, b)
    ensures r == s
  {
    var h := High(b);
    var x, y := r ^ h, s ^ h;
    ByteIsShifts(r, b, x);
    ByteIsShifts(s, b, y);
    ShiftsInjective(x, y, 8);
    CancelHigh(r, s, h, x, y);
  }

  // Different registers stay different through any message.
  lemma {:induction false} CrcInjective(r: bv32, s: bv32, msg: seq<bv8>)
    requires Crc(r, msg) == Crc(s, msg)
    ensures r == s
    decreases |msg|
  {
    if msg != [] {
      CrcInjective(Byte(r, msg[0]), Byte(s, msg[0]), msg[1..]);
      ByteInjective(r, s, msg[0]);
    }
  }

  // ---- four bytes ----

  function Word(a: bv8, b: bv8, c: bv8, d: bv8): bv32 {
    ((a as bv32) << 24) | ((b as bv32) << 16) | ((c as bv32) << 8) | (d as bv32)
  }

  lemma SplitTop(r: bv32, z: bv32, w: bv32, b: bv8, h: bv32, x: bv32, low: bv32, u: bv32)
    requires w == r ^ z && b == (z >> 24) as bv8 && h == High(b) && x == r ^ h && low == z & 0x00FF_FFFF && u == z << 8
    ensures w == x ^ low && low & 0xFF00_0000 == 0 && u == low << 8
  {
  }

  // The top byte of z goes into the register, the rest of z waits.
  lemma ByteWaits(r: bv32, z: bv32, w: bv32, b: bv8, s: bv32, t: bv32, u: bv32)
    requires w == r ^ z && b == (z >> 24) as bv8 && s == Shifts(w, 8) && t == Byte(r, b) && u == z << 8
    ensures s == t ^ u
  {
    var h := High(b);
    var x, low := r ^ h, z & 0x00FF_FFFF;
    SplitTop(r, z, w, b, h, x, low, u);
    ByteIsShifts(r, b, x);
    ShiftsLow(low, u);
    ShiftsXor(x, low, w, 8, t, u, s);
  }

  // z holds msg, first byte on top, and nothing below it.
  predicate Holds(z: bv32, msg: seq<bv8>)
    decreases |msg|
  {
    if msg == [] then z == 0 else (z >> 24) as bv8 == msg[0] && Holds(z << 8, msg[1..])
  }

  lemma HoldsOneMore(z: bv32, b: bv8, rest: seq<bv8>, u: bv32)
    requires (z >> 24) as bv8 == b && u == z << 8 && Holds(u, rest)
    ensures Holds(z, [b] + rest)
  {
    assert ([b] + rest)[1..] == rest;
  }

  lemma WordHolds(a: bv8, b: bv8, c: bv8, d: bv8, z: bv32)
    requires z == Word(a, b, c, d)
    ensures Holds(z, [a, b, c, d])
  {
    var z1 := z << 8;
    var z2 := z1 << 8;
    var z3 := z2 << 8;
    BytesOfWord(a, b, c, d, z, z1, z2, z3);
    HoldsOneMore(z3, d, [], 0);
    HoldsOneMore(z2, c, [d], z3);
    HoldsOneMore(z1, b, [c, d], z2);
    HoldsOneMore(z, a, [b, c, d], z1);
    assert [] + [d] == [d] && [c] + [d] == [c, d] && [b] + [c, d] == [b, c, d] && [a] + [b, c, d] == [a, b, c, d];
  }

  lemma BytesOfWord(a: bv8, b: bv8, c: bv8, d: bv8, z: bv32, z1: bv32, z2: bv32, z3: bv32)
    requires z == Word(a, b, c, d) && z1 == z << 8 && z2 == z1 << 8 && z3 == z2 << 8
    ensures (z >> 24) as bv8 == a && (z1 >> 24) as bv8 == b && (z2 >> 24) as bv8 == c && (z3 >> 24) as bv8 == d
    ensures z3 << 8 == 0
  {
  }

  // Eight shifts, k times over.
  function Octets(r: bv32, k: nat): bv32
    decreases k
  {
    if k == 0 then r else Octets(Shifts(r, 8), k - 1)
  }

  // Up to four bytes of message are as many octets of shifts of the register
  // plus the word that holds them.
  lemma {:induction false} BytesAreOctets(r: bv32, msg: seq<bv8>, z: bv32, w: bv32)
    requires Holds(z, msg) && w == r ^ z
    ensures Crc(r, msg) == Octets(w, |msg|)
    decreases |msg|
  {
    if msg == [] {
      XorZero(r);
    } else {
      var s, t, u := Shifts(w, 8), Byte(r, msg[0]), z << 8;
      ByteWaits(r, z, w, msg[0], s, t, u);
      BytesAreOctets(t, msg[1..], u, s);
    }
  }

  lemma {:induction false} OctetsInjective(x: bv32, y: bv32, k: nat)
    requires Octets(x, k) == Octets(y, k)
    ensures x == y
    decreases k
  {
    if k > 0 {
      OctetsInjective(Shifts(x, 8), Shifts(y, 8), k - 1);
      ShiftsInjective(x, y, 8);
    }
  }

  lemma {:induction false} OctetsOfZero(k: nat)
    ensures Octets(0, k) == 0
    decreases k
  {
    if k > 0 {
      ShiftsZero(8);
      OctetsOfZero(k - 1);
    }
  }

  lemma SameWord(a: bv8, b: bv8, c: bv8, d: bv8, a': bv8, b': bv8, c': bv8, d': bv8, z: bv32)
    requires z == Word(a, b, c, d) && z == Word(a', b', c', d')
    ensures a == a' && b == b' && c == c' && d == d'
  {
  }

  lemma CancelLow(r: bv32, z: bv32, z': bv32, w: bv32)
    requires w == r ^ z && w == r ^ z'
    ensures z == z'
  {
  }

  // No two four-byte words have the same CRC from the same register.
  lemma WindowInjective(r: bv32, v: seq<bv8>, w: seq<bv8>)
    requires |v| == |w| == 4 && Crc(r, v) == Crc(r, w)
    ensures v == w
  {
    assert v == [v[0], v[1], v[2], v[3]] && w == [w[0], w[1], w[2], w[3]];
    var y, z := Word(v[0], v[1], v[2], v[3]), Word(w[0], w[1], w[2], w[3]);
    WordHolds(v[0], v[1], v[2], v[3], y);
    WordHolds(w[0], w[1], w[2], w[3], z);
    var p, q := r ^ y, r ^ z;
    BytesAreOctets(r, v, y, p);
    BytesAreOctets(r, w, z, q);
    OctetsInjective(p, q, 4);
    CancelLow(r, y, z, p);
    SameWord(v[0], v[1], v[2], v[3], w[0], w[1], w[2], w[3], y);
  }

  lemma SameCrcSameWindow(r: bv32, before: seq<bv8>, v: seq<bv8>, w: seq<bv8>, after: seq<bv8>)
    requires |v| == |w| <= 4 && Crc(r, before + v + after) == Crc(r, before + w + after)
    ensures v == w
  {
    var pad := seq(4 - |v|, _ => 0 as bv8);
    var s := Crc(r, before);
    CrcOfConcat(r, before + v, after);
    CrcOfConcat(r, before + w, after);
    CrcOfConcat(r, before, v);
    CrcOfConcat(r, before, w);
    CrcInjective(Crc(s, v), Crc(s, w), after);
    CrcOfConcat(s, v, pad);
    CrcOfConcat(s, w, pad);
    WindowInjective(s, v + pad, w + pad);
    assert v == (v + pad)[..|v|] == (w + pad)[..|v|] == w;
  }

  // Any change confined to at most four consecutive bytes changes the CRC.
  lemma BurstChangesCrc(r: bv32, before: seq<bv8>, v: seq<bv8>, w: seq<bv8>, after: seq<bv8>)
    requires |v| == |w| <= 4 && v != w
    ensures Crc(r, before + v + after) != Crc(r, before + w + after)
  {
    if Crc(r, before + v + after) == Crc(r, before + w + after) {
      SameCrcSameWindow(r, before, v, w, after);
    }
  }

  // ---- residue ----

  // The register as it is stored after a message: most significant byte first.
  function BigEndian(r: bv32): seq<bv8> {
    [(r >> 24) as bv8, ((r >> 16) & 0xFF) as bv8, ((r >> 8) & 0xFF) as bv8, (r & 0xFF) as bv8]
  }

  lemma WordOfBigEndian(r: bv32, a: bv8, b: bv8, c: bv8, d: bv8, z: bv32, w: bv32)
    requires [a, b, c, d] == BigEndian(r) && z == Word(a, b, c, d) && w == r ^ z
    ensures w == 0
  {
  }

  lemma {:induction false} ShiftsZero(n: nat)
    ensures Shifts(0, n) == 0
  {
    if n > 0 { ShiftsZero(n - 1); }
  }

  // A message followed by its own CRC has CRC zero, and no other four bytes
  // after it do.
  lemma ResidueIsZero(r: bv32, msg: seq<bv8>, tail: seq<bv8>)
    requires |tail| == 4
    ensures Crc(r, msg + tail) == 0 <==> tail == BigEndian(Crc(r, msg))
  {
    var s := Crc(r, msg);
    var own := BigEndian(s);
    CrcOfConcat(r, msg, tail);
    var z := Word(own[0], own[1], own[2], own[3]);
    var w := s ^ z;
    WordOfBigEndian(s, own[0], own[1], own[2], own[3], z, w);
    assert own == [own[0], own[1], own[2], own[3]];
    WordHolds(own[0], own[1], own[2], own[3], z);
    BytesAreOctets(s, own, z, w);
    OctetsOfZero(4);
    if Crc(s, tail) == 0 {
      WindowInjective(s, tail, own);
    }
  }
}
