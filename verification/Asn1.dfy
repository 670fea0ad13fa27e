// The length field of EN 50221 (asn_1.c): one byte below 0x80, or 0x81 and one
// byte, or 0x82 and two bytes.
module Asn1 {
  import opened Bytes

  datatype Decoded = Bad | Length(used: nat, value: u16)

  // asn_1_decode, over the bytes it is allowed to look at.
  function Decode(a: seq<byte>): (d: Decoded)
    ensures d.Length? ==> 1 <= d.used <= 3 && d.used <= |a|
  {
    if |a| < 1 then Bad
    else if a[0] < 0x80 then Length(1, a[0])
    else if a[0] == 0x81 then
      if |a| < 2 then Bad else Length(2, a[1])
    else if a[0] == 0x82 then
      if |a| < 3 then Bad else Length(3, Be16(a[1], a[2]))
    else Bad
  }

  // The shortest field that denotes n.
  function Field(n: u16): (f: seq<byte>)
    ensures 1 <= |f| <= 3
  {
    if n < 0x80 then [n]
    else if n < 0x100 then [0x81, n]
    else [0x82, Hi(n), Lo(n)]
  }

  // asn_1_encode: writes the field into the caller's array at `at`, and reports
  // its size, or -1 when `room` bytes are not enough.
  method Encode(length: u16, a: array<byte>, at: nat, room: nat) returns (r: int)
    requires at + room <= a.Length
    modifies a
    ensures r == if |Field(length)| <= room then |Field(length)| else -1
    ensures r >= 0 ==> a[..] == old(a[..at]) + Field(length) + old(a[at + r..])
    ensures r < 0 ==> a[..] == old(a[..])
  {
    if length < 0x80 {
      if room < 1 { return -1; }
      a[at] := length;
      r := 1;
    } else if length < 0x100 {
      if room < 2 { return -1; }
      a[at] := 0x81;
      a[at + 1] := length;
      r := 2;
    } else {
      if room < 3 { return -1; }
      a[at] := 0x82;
      a[at + 1] := length / 256;
      a[at + 2] := length % 256;
      r := 3;
    }
  }

  // Decoding undoes encoding whatever follows the field, and no other field of
  // the same size denotes the same length.
  lemma FieldRoundTrip(n: u16, rest: seq<byte>)
    ensures Decode(Field(n) + rest) == Length(|Field(n)|, n)
    ensures forall g: seq<byte> :: Decode(g) == Length(|g|, n) && |g| <= |Field(n)| ==> g == Field(n)
  {
    var a := Field(n) + rest;
    assert forall i :: 0 <= i < |Field(n)| ==> a[i] == Field(n)[i];
    forall g: seq<byte> | Decode(g) == Length(|g|, n) && |g| <= |Field(n)| ensures g == Field(n) {
      assert n >= 0x100 ==> g[0] == 0x82;
    }
  }

  // A field that decodes is never read past its end, so what follows is free.
  lemma DecodePrefix(a: seq<byte>, rest: seq<byte>)
    requires Decode(a).Length?
    ensures Decode(a + rest) == Decode(a)
    ensures Decode(a[..Decode(a).used]) == Decode(a)
  {
    var used := Decode(a).used;
    assert forall i :: 0 <= i < used ==> (a + rest)[i] == a[i] && a[..used][i] == a[i];
  }
}
