// Bytes as the libraries see them: unsigned 8-bit values, and the big-endian
// 16-bit fields that the wire formats build from two of them.
module Bytes {

  type byte = x: int | 0 <= x < 256

  type u16 = x: int | 0 <= x < 0x1_0000

  datatype Option<+T> = None | Some(value: T)

  function Hi(n: u16): byte { n / 256 }

  function Lo(n: nat): byte { n % 256 }

  function Be16(hi: byte, lo: byte): u16 { hi * 256 + lo }

  function Flatten<T>(parts: seq<seq<T>>): seq<T> {
    if parts == [] then [] else parts[0] + Flatten(parts[1..])
  }

  lemma {:induction false} FlattenAppend<T>(a: seq<seq<T>>, b: seq<seq<T>>)
    ensures Flatten(a + b) == Flatten(a) + Flatten(b)
  {
    if a == [] {
      assert a + b == b;
    } else {
      assert (a + b)[1..] == a[1..] + b;
      FlattenAppend(a[1..], b);
    }
  }

  lemma FlattenOne<T>(a: seq<seq<T>>, d: seq<T>)
    ensures Flatten(a + [d]) == Flatten(a) + d
  {
    FlattenAppend(a, [d]);
    assert Flatten([d]) == d + [];
  }

  lemma Associates<T>(a: seq<T>, b: seq<T>, c: seq<T>)
    ensures a + b + c == a + (b + c)
  {
  }
}
