// The in-place section codec (section.h) on a little-endian host: byte swapping,
// the CRC check, and the extended header's decode and encode.
module Section {
  import opened Bytes
  import opened Crc32
  import opened CrcProperties

  const CRC_SIZE := 4

  // ---- what the buffer holds ----

  function Swap16(s: seq<bv8>, i: nat): (t: seq<bv8>)
    requires i + 2 <= |s|
    ensures |t| == |s|
  {
    s[i := s[i + 1]][i + 1 := s[i]]
  }

  // The low twelve bits of two bytes.
  function Length(hi: bv8, lo: bv8): (n: nat)
    ensures n == (hi as nat * 256 + lo as nat) % 4096
  {
    TwelveBits(hi as nat, lo as nat);
    hi as nat % 16 * 256 + lo as nat
  }

  lemma TwelveBits(hi: nat, lo: nat)
    requires lo < 256
    ensures hi % 16 * 256 + lo == (hi * 256 + lo) % 4096
  {
  }

  // section_length, for a section in host order (bytes 1 and 2 swapped).
  function Size(s: seq<bv8>): nat
    requires |s| >= 3
  {
    3 + Length(s[2], s[1])
  }

  function Syntax(s: seq<bv8>): bool
    requires |s| >= 3
  {
    s[2] >= 0x80
  }

  // The verdict of section_check_crc.
  predicate CrcOk(s: seq<bv8>)
    requires |s| >= 3 && Size(s) <= |s|
  {
    Crc(INIT, Swap16(s, 1)[..Size(s)]) == 0
  }

  // section_ext_decode
  function Decoded(s: seq<bv8>, check: bool): Option<seq<bv8>>
    requires |s| >= 5 && Size(s) <= |s|
  {
    if !Syntax(s) || (check && !CrcOk(s)) then None else Some(Swap16(s, 3))
  }

  // section_ext_encode. The CRC goes into the last four bytes of the section,
  // whatever is there.
  function Encoded(s: seq<bv8>, update: bool): Option<seq<bv8>>
    requires |s| >= 5 && (update ==> CRC_SIZE <= Size(s) <= |s|)
  {
    if !Syntax(s) then None
    else
      var t := Swap16(s, 3);
      var n := Size(s);
      if !update then Some(t)
      else Some(t[..n - CRC_SIZE] + BigEndian(Crc(INIT, Swap16(t, 1)[..n - CRC_SIZE])) + t[n..])
  }

  // ---- the code ----

  // bswap16
  method Bswap16(a: array<bv8>, at: nat)
    requires at + 2 <= a.Length
    modifies a
    ensures a[..] == Swap16(old(a[..]), at)
  {
    a[at], a[at + 1] := a[at + 1], a[at];
  }

  // bswap32
  method Bswap32(a: array<bv8>, at: nat)
    requires at + 4 <= a.Length
    modifies a
    ensures a[..] == old(a[..at] + [a[at + 3], a[at + 2], a[at + 1], a[at]] + a[at + 4..])
  {
    a[at], a[at + 1], a[at + 2], a[at + 3] := a[at + 3], a[at + 2], a[at + 1], a[at];
  }

  // section_codec
  method Codec(a: array<bv8>, len: nat) returns (ok: bool)
    requires len <= a.Length
    modifies a
    ensures len < 3 ==> !ok && a[..] == old(a[..])
    ensures len >= 3 ==> a[..] == Swap16(old(a[..]), 1) && (ok <==> len == Size(a[..]))
  {
    if len < 3 { return false; }
    Bswap16(a, 1);
    return len == 3 + Length(a[2], a[1]);
  }

  // The CRC is taken over the section as it is on the wire.
  method WireCrc(a: array<bv8>, len: nat) returns (crc: bv32)
    requires 3 <= a.Length && len <= a.Length
    modifies a
    ensures a[..] == old(a[..]) && crc == Crc(INIT, Swap16(a[..], 1)[..len])
  {
    ghost var s := a[..];
    Bswap16(a, 1);
    assert a[..len] == Swap16(s, 1)[..len];
    crc := Compute(INIT, a[..len]);
    Bswap16(a, 1);
    SwapTwice(s, 1);
  }

  // section_check_crc: zero on success in the source.
  method CheckCrc(a: array<bv8>) returns (ok: bool)
    requires a.Length >= 3 && Size(a[..]) <= a.Length
    modifies a
    ensures a[..] == old(a[..]) && ok == CrcOk(a[..])
  {
    var crc := WireCrc(a, 3 + Length(a[2], a[1]));
    return crc == 0;
  }

  // The CRC is stored in host order and then swapped to network order.
  method StoreCrc(a: array<bv8>, at: nat, crc: bv32)
    requires at + 4 <= a.Length
    modifies a
    ensures a[..] == old(a[..at]) + BigEndian(crc) + old(a[at + 4..])
  {
    a[at], a[at + 1], a[at + 2], a[at + 3] :=
      (crc & 0xFF) as bv8, ((crc >> 8) & 0xFF) as bv8, ((crc >> 16) & 0xFF) as bv8, (crc >> 24) as bv8;
    Bswap32(a, at);
  }

  // section_ext_decode
  method ExtDecode(a: array<bv8>, check: bool) returns (ok: bool)
    requires a.Length >= 5 && Size(a[..]) <= a.Length
    modifies a
    ensures ok == Decoded(old(a[..]), check).Some?
    ensures a[..] == if ok then Decoded(old(a[..]), check).value else old(a[..])
  {
    if a[2] < 0x80 { return false; }
    if check {
      var good := CheckCrc(a);
      if !good { return false; }
    }
    Bswap16(a, 3);
    return true;
  }

  // section_ext_encode
  method ExtEncode(a: array<bv8>, update: bool) returns (ok: bool)
    requires a.Length >= 5 && (update ==> CRC_SIZE <= Size(a[..]) <= a.Length)
    modifies a
    ensures ok == Encoded(old(a[..]), update).Some?
    ensures a[..] == if ok then Encoded(old(a[..]), update).value else old(a[..])
  {
    if a[2] < 0x80 { return false; }
    Bswap16(a, 3);
    if update {
      var len := 3 + Length(a[2], a[1]);
      var crc := WireCrc(a, len - 4);
      StoreCrc(a, len - 4, crc);
    }
    return true;
  }

  // ---- what they promise ----

  lemma SwapTwice(s: seq<bv8>, i: nat)
    requires i + 2 <= |s|
    ensures Swap16(Swap16(s, i), i) == s
  {
  }

  // The check reads the section as it was on the wire: w, before section_codec.
  lemma CheckReadsTheWire(w: seq<bv8>)
    requires |w| >= 3 && 3 + Length(w[1], w[2]) <= |w|
    ensures CrcOk(Swap16(w, 1)) <==> Crc(INIT, w[..3 + Length(w[1], w[2])]) == 0
  {
    SwapTwice(w, 1);
  }

  // Decoding succeeds exactly for the long syntax with, if that is asked for, a good CRC;
  // it exchanges the bytes of the table id extension and leaves the others.
  lemma DecodesIff(s: seq<bv8>, check: bool)
    requires |s| >= 5 && Size(s) <= |s|
    ensures Decoded(s, check).Some? <==> s[2] >= 0x80 && (check ==> Crc(INIT, Swap16(s, 1)[..Size(s)]) == 0)
    ensures Decoded(s, check).Some? ==>
      var d := Decoded(s, check).value;
      |d| == |s| && forall i :: 0 <= i < |s| ==> d[i] == s[if i == 3 then 4 else if i == 4 then 3 else i]
  {
  }

  // Encoding does so without the CRC, and refuses the short syntax too.
  lemma EncodesIff(s: seq<bv8>, update: bool)
    requires |s| >= 5 && (update ==> CRC_SIZE <= Size(s) <= |s|)
    ensures Encoded(s, update).Some? <==> s[2] >= 0x80
    ensures s[2] >= 0x80 && !update ==> Encoded(s, update).value == s[..3] + [s[4], s[3]] + s[5..]
  {
  }

  // A section that passes the check fails it after any change to at most four
  // consecutive bytes that leaves the length field alone.
  lemma BurstIsDetected(before: seq<bv8>, v: seq<bv8>, w: seq<bv8>, after: seq<bv8>)
    requires |v| == |w| <= 4 && v != w
    requires var s, t := before + v + after, before + w + after;
      |s| >= 3 && |s| == 3 + Length(s[1], s[2]) == 3 + Length(t[1], t[2])
    ensures CrcOk(Swap16(before + v + after, 1)) ==> !CrcOk(Swap16(before + w + after, 1))
  {
    var s, t := before + v + after, before + w + after;
    CheckReadsWhole(s);
    CheckReadsWhole(t);
    BurstChangesCrc(INIT, before, v, w, after);
  }

  lemma CheckReadsWhole(w: seq<bv8>)
    requires |w| >= 3 && |w| == 3 + Length(w[1], w[2])
    ensures CrcOk(Swap16(w, 1)) <==> Crc(INIT, w) == 0
  {
    CheckReadsTheWire(w);
    assert w[..|w|] == w;
  }

  // A section in host order of n bytes in all, with room for its CRC.
  predicate Encodable(s: seq<bv8>, n: nat) {
    |s| >= 5 && Size(s) == n && CRC_SIZE <= n <= |s| && s[2] >= 0x80
  }

  // Encoded with a fresh CRC and decoded with the check, it is accepted at the same
  // size, and every byte but those of the CRC comes back.
  predicate ComesBack(s: seq<bv8>, n: nat)
    requires Encodable(s, n)
  {
    var e := Encoded(s, true).value;
    |e| == |s| && Size(e) == n
    && var d := Decoded(e, true); d.Some? && d.value[..n - CRC_SIZE] == s[..n - CRC_SIZE] && d.value[n..] == s[n..]
  }

  // The CRC lies behind the length field.
  lemma EncodedParts(s: seq<bv8>, n: nat, t: seq<bv8>, tail: seq<bv8>, e: seq<bv8>)
    requires Encodable(s, n) && n >= 7 && t == Swap16(s, 3)
    requires tail == BigEndian(Crc(INIT, Swap16(t, 1)[..n - CRC_SIZE])) && e == Encoded(s, true).value
    ensures |e| == |s| && e[1] == s[1] && e[2] == s[2] && e == t[..n - CRC_SIZE] + tail + t[n..]
  {
  }

  lemma WireOfEncoded(t: seq<bv8>, tail: seq<bv8>, e: seq<bv8>, n: nat)
    requires 7 <= n <= |t| && |tail| == CRC_SIZE && e == t[..n - CRC_SIZE] + tail + t[n..]
    ensures Swap16(e, 1)[..n] == Swap16(t, 1)[..n - CRC_SIZE] + tail
  {
  }

  lemma EncodedPasses(s: seq<bv8>, n: nat, e: seq<bv8>)
    requires Encodable(s, n) && n >= 7 && e == Encoded(s, true).value
    ensures |e| == |s| && Size(e) == n && CrcOk(e)
  {
    var t := Swap16(s, 3);
    var msg := Swap16(t, 1)[..n - CRC_SIZE];
    var tail := BigEndian(Crc(INIT, msg));
    EncodedParts(s, n, t, tail, e);
    WireOfEncoded(t, tail, e, n);
    ResidueIsZero(INIT, msg, tail);
  }

  lemma DecodedBytes(s: seq<bv8>, t: seq<bv8>, tail: seq<bv8>, e: seq<bv8>, n: nat)
    requires (n == 7 || 9 <= n) && 5 <= |s| && n <= |s| && t == Swap16(s, 3) && |tail| == CRC_SIZE
    requires e == t[..n - CRC_SIZE] + tail + t[n..]
    ensures |e| == |s| && Swap16(e, 3)[..n - CRC_SIZE] == s[..n - CRC_SIZE] && Swap16(e, 3)[n..] == s[n..]
    ensures n >= 9 ==> Swap16(e, 3)[n - CRC_SIZE..n] == tail
  {
    var d := Swap16(e, 3);
    assert forall i :: 0 <= i < n - CRC_SIZE ==> d[i] == s[i];
  }

  // Encoding with a fresh CRC and decoding with the check succeeds and gives back
  // every byte but the CRC.
  lemma EncodeThenDecode(s: seq<bv8>, n: nat)
    requires Encodable(s, n) && (n == 7 || n >= 9)
    ensures ComesBack(s, n)
  {
    var t, e := Swap16(s, 3), Encoded(s, true).value;
    var tail := BigEndian(Crc(INIT, Swap16(t, 1)[..n - CRC_SIZE]));
    EncodedPasses(s, n, e);
    EncodedParts(s, n, t, tail, e);
    DecodedBytes(s, t, tail, e, n);
    assert Syntax(e);
  }

  // What stands in the last four bytes then: the CRC of the bytes before it, as they
  // are on the wire.
  lemma EncodedCrc(s: seq<bv8>, n: nat)
    requires Encodable(s, n) && n >= 9
    ensures Decoded(Encoded(s, true).value, true).Some?
    ensures Decoded(Encoded(s, true).value, true).value[n - CRC_SIZE..n]
      == BigEndian(Crc(INIT, Swap16(Swap16(s, 3), 1)[..n - CRC_SIZE]))
  {
    var t, e := Swap16(s, 3), Encoded(s, true).value;
    var tail := BigEndian(Crc(INIT, Swap16(t, 1)[..n - CRC_SIZE]));
    EncodeThenDecode(s, n);
    EncodedParts(s, n, t, tail, e);
    DecodedBytes(s, t, tail, e, n);
  }

  // ---- sections too short for the extended header and a CRC ----

  // The CRC of no byte at all overwrites the length field with ones.
  lemma FourBytesAreLost(s: seq<bv8>)
    requires Encodable(s, 4)
    ensures !ComesBack(s, 4)
  {
    var e := Encoded(s, true).value;
    var none := Swap16(Swap16(s, 3), 1)[..0];
    assert none == [] && Crc(INIT, none) == INIT;
    OnesBigEndian();
    assert e[1] == 0xff && e[2] == 0xff;
  }

  lemma OnesBigEndian()
    ensures BigEndian(INIT) == [0xff, 0xff, 0xff, 0xff]
  {
  }

  lemma CrcOfZero(r: bv32)
    requires r == Byte(INIT, 0)
    ensures r == 0x4e08_bfb4
  {
    TableStep(INIT, 0);
    assert Table(0xff) == 0xb1f7_40b4;
  }

  lemma CrcOfTwo(r: bv32, q: bv32)
    requires r == 0x4e08_bfb4 && q == Byte(r, 0x80)
    ensures q == 0x69bb_8493
  {
    TableStep(r, 0x80);
    assert Table(0xce) == 0x6104_3093;
  }

  lemma FirstOctet(r: bv32, b: bv8)
    requires b == (r >> 24) as bv8
    ensures BigEndian(r)[0] == b
  {
  }

  // Five bytes: the CRC of the table id lands on the length field.
  lemma FiveBytesAreLost(s: seq<bv8>)
    requires s == [0, 2, 0x80, 0, 0]
    ensures Encodable(s, 5) && !ComesBack(s, 5)
  {
    var e := Encoded(s, true).value;
    var msg := Swap16(Swap16(s, 3), 1)[..1];
    assert msg == [0] && msg[1..] == [];
    assert Crc(INIT, msg) == Byte(INIT, 0);
    CrcOfZero(Crc(INIT, msg));
    FirstOctet(0x4e08_bfb4, 0x4e);
    assert e[1] == 0x4e;
  }

  lemma CrcOfPair(a: bv8, b: bv8)
    ensures Crc(INIT, [a, b]) == Byte(Byte(INIT, a), b)
  {
    assert [a, b][1..] == [b] && [b][1..] == [];
    assert Crc(Byte(INIT, a), [b]) == Crc(Byte(Byte(INIT, a), b), []);
  }

  // Six bytes: it lands on the flags and the high bits of the length.
  lemma SixBytesAreLost(s: seq<bv8>)
    requires s == [0, 3, 0x80, 0, 0, 0]
    ensures Encodable(s, 6) && !ComesBack(s, 6)
  {
    var e := Encoded(s, true).value;
    var msg := Swap16(Swap16(s, 3), 1)[..2];
    assert msg == [0, 0x80];
    CrcOfPair(0, 0x80);
    CrcOfZero(Byte(INIT, 0));
    CrcOfTwo(0x4e08_bfb4, Byte(0x4e08_bfb4, 0x80));
    FirstOctet(0x69bb_8493, 0x69);
    assert e[2] == 0x69;
  }

  // Eight bytes: it lands on the second byte of the table id extension, which the
  // decoder swaps into the place of the first.
  lemma EightBytesAreLost(s: seq<bv8>)
    requires Encodable(s, 8) && |s| == 8
    requires s[3] != BigEndian(Crc(INIT, Swap16(Swap16(s, 3), 1)[..4]))[0]
    ensures !ComesBack(s, 8)
  {
    var e := Encoded(s, true).value;
    assert e[4] == BigEndian(Crc(INIT, Swap16(Swap16(s, 3), 1)[..4]))[0];
    assert Swap16(e, 3)[..4][3] == e[4] && s[..4][3] == s[3];
  }

  // The byte that is lost does not enter the CRC, so one of two values differs.
  lemma SomeEightBytesAreLost() returns (s: seq<bv8>)
    ensures Encodable(s, 8) && !ComesBack(s, 8)
  {
    var front: seq<bv8> := [0, 0x80, 5, 0];
    var b := ByteOutsideCrc(front);
    s := [0, 5, 0x80, b, 0, 0, 0, 0];
    SwappedFront(b, s);
    LostWith(s, front, b);
  }

  lemma ByteOutsideCrc(front: seq<bv8>) returns (b: bv8)
    ensures b != BigEndian(Crc(INIT, front))[0]
  {
    var c := BigEndian(Crc(INIT, front))[0];
    b := if c == 0 then 1 else 0;
  }

  lemma LostWith(s: seq<bv8>, front: seq<bv8>, b: bv8)
    requires Encodable(s, 8) && |s| == 8 && s[3] == b && Swap16(Swap16(s, 3), 1)[..4] == front
    requires b != BigEndian(Crc(INIT, front))[0]
    ensures !ComesBack(s, 8)
  {
    EightBytesAreLost(s);
  }

  lemma SwappedFront(b: bv8, s: seq<bv8>)
    requires s == [0, 5, 0x80, b, 0, 0, 0, 0]
    ensures Encodable(s, 8) && Swap16(Swap16(s, 3), 1)[..4] == [0, 0x80, 5, 0]
  {
  }

  // So the round trip holds for all sections of a size exactly when that size leaves
  // room for the extended header, or the CRC covers all of it.
  lemma SizesThatComeBack(n: nat)
    requires 4 <= n < 4099
    ensures (forall s :: Encodable(s, n) ==> ComesBack(s, n)) <==> n == 7 || n >= 9
  {
    if n == 7 || n >= 9 {
      forall s | Encodable(s, n) ensures ComesBack(s, n) { EncodeThenDecode(s, n); }
    } else {
      var s := LostAt(n);
    }
  }

  lemma LostAt(n: nat) returns (s: seq<bv8>)
    requires 4 <= n < 9 && n != 7
    ensures Encodable(s, n) && !ComesBack(s, n)
  {
    if n == 4 {
      s := [0, 1, 0x80, 0, 0];
      FourBytesAreLost(s);
    } else if n == 5 {
      s := [0, 2, 0x80, 0, 0];
      FiveBytesAreLost(s);
    } else if n == 6 {
      s := [0, 3, 0x80, 0, 0, 0];
      SixBytesAreLost(s);
    } else {
      s := SomeEightBytesAreLost();
    }
  }
}
