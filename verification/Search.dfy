// xmemmem (joker_utils.c): substring search with a rolling exclusive-or. The
// search is proved for any group whose elements are their own inverses, and then
// taken at the exclusive-or of sign-extended characters that the code uses.
module Search {
  import opened Bytes

  // memcmp over the first n characters says zero.
  predicate Agree<C(==)>(hay: seq<C>, at: nat, needle: seq<C>, n: nat) {
    at + n <= |hay| && n <= |needle| && forall i :: 0 <= i < n ==> hay[at + i] == needle[i]
  }

  predicate OccursAt<C(==)>(hay: seq<C>, needle: seq<C>, j: nat) {
    Agree(hay, j, needle, |needle|)
  }

  ghost predicate NoneBelow<C>(hay: seq<C>, needle: seq<C>, k: nat) {
    forall j: nat :: j < k ==> !OccursAt(hay, needle, j)
  }

  // r is the offset of the first occurrence, or None when there is none.
  ghost predicate IsFirst<C>(hay: seq<C>, needle: seq<C>, r: Option<nat>) {
    match r
    case Some(k) => OccursAt(hay, needle, k) && NoneBelow(hay, needle, k)
    case None => forall j: nat :: !OccursAt(hay, needle, j)
  }

  // ---- groups whose elements are their own inverses ----

  // The laws are named so that a proof cites the instance it needs.
  predicate Associates<G(==)>(op: (G, G) -> G, a: G, b: G, c: G) { op(op(a, b), c) == op(a, op(b, c)) }

  predicate Commutes<G(==)>(op: (G, G) -> G, a: G, b: G) { op(a, b) == op(b, a) }

  predicate Cancels<G(==)>(op: (G, G) -> G, zero: G, a: G) { op(zero, a) == a && op(a, a) == zero }

  predicate KeptApart<C(==), G(==)>(ext: C -> G, a: C, b: C) { ext(a) == ext(b) ==> a == b }

  ghost predicate Suits<C(!new), G(!new)>(op: (G, G) -> G, zero: G, ext: C -> G) {
    && (forall a, b, c :: Associates(op, a, b, c))
    && (forall a, b :: Commutes(op, a, b))
    && (forall a :: Cancels(op, zero, a))
    && (forall a, b :: KeptApart(ext, a, b))
  }

  // The sum of the characters from lo up to hi.
  function Sum<C, G>(op: (G, G) -> G, zero: G, ext: C -> G, s: seq<C>, lo: nat, hi: nat): G
    requires lo <= hi <= |s|
    decreases hi
  {
    if lo == hi then zero else op(Sum(op, zero, ext, s, lo, hi - 1), ext(s[hi - 1]))
  }

  lemma {:induction false} SumFromFront<C(!new), G(!new)>(op: (G, G) -> G, zero: G, ext: C -> G, s: seq<C>, lo: nat,
                                          hi: nat)
    requires Suits(op, zero, ext) && lo < hi <= |s|
    ensures Sum(op, zero, ext, s, lo, hi) == op(ext(s[lo]), Sum(op, zero, ext, s, lo + 1, hi))
    decreases hi
  {
    var x := ext(s[lo]);
    if hi == lo + 1 {
      assert Sum(op, zero, ext, s, lo, lo) == zero && Sum(op, zero, ext, s, hi, hi) == zero;
      assert Commutes(op, zero, x);
    } else {
      SumFromFront(op, zero, ext, s, lo, hi - 1);
      assert Associates(op, x, Sum(op, zero, ext, s, lo + 1, hi - 1), ext(s[hi - 1]));
    }
  }

  // Moving the window one place: its first character is added again and drops out.
  lemma Slide<C(!new), G(!new)>(op: (G, G) -> G, zero: G, ext: C -> G, s: seq<C>, lo: nat, hi: nat)
    requires Suits(op, zero, ext) && lo < hi < |s|
    ensures Sum(op, zero, ext, s, lo + 1, hi + 1) ==
      op(op(Sum(op, zero, ext, s, lo, hi), ext(s[lo])), ext(s[hi]))
  {
    var x, r := ext(s[lo]), Sum(op, zero, ext, s, lo + 1, hi);
    SumFromFront(op, zero, ext, s, lo, hi);
    assert Commutes(op, op(x, r), x) && Associates(op, x, x, r) && Cancels(op, zero, x) && Cancels(op, zero, r);
  }

  lemma {:induction false} AgreeingSums<C(!new), G(!new)>(op: (G, G) -> G, zero: G, ext: C -> G,
                                                        hay: seq<C>, at: nat, needle: seq<C>, n: nat)
    requires Agree(hay, at, needle, n)
    ensures Sum(op, zero, ext, hay, at, at + n) == Sum(op, zero, ext, needle, 0, n)
  {
    if n > 0 {
      AgreeingSums(op, zero, ext, hay, at, needle, n - 1);
      assert hay[at + (n - 1)] == needle[n - 1];
    }
  }

  // Equal sums, and equal characters but the last, leave no choice for the last.
  lemma LastIsForced<C(!new), G(!new)>(op: (G, G) -> G, zero: G, ext: C -> G,
                                     hay: seq<C>, at: nat, needle: seq<C>, n: nat)
    requires Suits(op, zero, ext) && at + n + 1 <= |hay| && n + 1 <= |needle| && Agree(hay, at, needle, n)
    requires Sum(op, zero, ext, hay, at, at + n + 1) == Sum(op, zero, ext, needle, 0, n + 1)
    ensures hay[at + n] == needle[n]
  {
    AgreeingSums(op, zero, ext, hay, at, needle, n);
    var p, x, y := Sum(op, zero, ext, needle, 0, n), ext(hay[at + n]), ext(needle[n]);
    assert op(p, x) == op(p, y);
    assert Cancels(op, zero, p) && Cancels(op, zero, x) && Cancels(op, zero, y);
    assert Associates(op, p, p, x) && Associates(op, p, p, y);
    assert KeptApart(ext, hay[at + n], needle[n]);
  }

  // The test made at each position is exact.
  lemma TestIsExact<C(!new), G(!new)>(op: (G, G) -> G, zero: G, ext: C -> G, hay: seq<C>, needle: seq<C>, at: nat)
    requires Suits(op, zero, ext) && needle != [] && at + |needle| <= |hay|
    ensures
      (Sum(op, zero, ext, hay, at, at + |needle|) == Sum(op, zero, ext, needle, 0, |needle|)
       && Agree(hay, at, needle, |needle| - 1))
      <==> OccursAt(hay, needle, at)
  {
    var n := |needle| - 1;
    if Sum(op, zero, ext, hay, at, at + |needle|) == Sum(op, zero, ext, needle, 0, |needle|) && Agree(hay, at, needle, n) {
      LastIsForced(op, zero, ext, hay, at, needle, n);
    }
    if OccursAt(hay, needle, at) {
      AgreeingSums(op, zero, ext, hay, at, needle, |needle|);
    }
  }

  // ---- the search ----

  // memchr
  method FindCharacter<C(==)>(hay: seq<C>, c: C) returns (r: Option<nat>)
    ensures r.Some? ==> r.value < |hay| && hay[r.value] == c && forall i :: 0 <= i < r.value ==> hay[i] != c
    ensures r.None? ==> forall i :: 0 <= i < |hay| ==> hay[i] != c
  {
    var i := 0;
    while i < |hay|
      invariant 0 <= i <= |hay| && forall k :: 0 <= k < i ==> hay[k] != c
    {
      if hay[i] == c { return Some(i); }
      i := i + 1;
    }
    return None;
  }

  lemma StartsAlike<C>(hay: seq<C>, needle: seq<C>, j: nat)
    requires needle != [] && OccursAt(hay, needle, j)
    ensures hay[j] == needle[0]
  {
    assert hay[j + 0] == needle[0];
  }

  // No occurrence starts where the needle's first character is not.
  lemma NoneBefore<C>(hay: seq<C>, needle: seq<C>, k: nat)
    requires needle != [] && k <= |hay| && forall i :: 0 <= i < k ==> hay[i] != needle[0]
    ensures NoneBelow(hay, needle, k)
  {
    forall j: nat | j < k ensures !OccursAt(hay, needle, j) {
      if OccursAt(hay, needle, j) { StartsAlike(hay, needle, j); }
    }
  }

  lemma NoneAtAll<C>(hay: seq<C>, needle: seq<C>, k: nat)
    requires NoneBelow(hay, needle, k) && |hay| < k + |needle|
    ensures IsFirst(hay, needle, None)
  {
  }

  // The body of xmemmem; None stands for a null pointer.
  method Find<C(!new, ==), G(!new, ==)>(op: (G, G) -> G, zero: G, ext: C -> G, hay: seq<C>, needle: seq<C>)
    returns (r: Option<nat>)
    requires Suits(op, zero, ext)
    ensures IsFirst(hay, needle, r)
  {
    if |needle| == 0 { return Some(0); }
    var first := FindCharacter(hay, needle[0]);
    if first.None? {
      NoneBefore(hay, needle, |hay|);
      NoneAtAll(hay, needle, |hay|);
      return None;
    }
    var start := first.value;
    NoneBefore(hay, needle, start);
    var hp, hsum, nsum, eqp := Compare(op, zero, ext, hay, needle, start);
    if hp - start < |needle| {
      NoneAtAll(hay, needle, start);
      return None;
    }
    if eqp { return Some(start); }
    r := Scan(op, zero, ext, hay, needle, start, hsum, nsum);
  }

  // The first window: both sums, and whether the characters agree so far.
  method Compare<C(!new, ==), G(!new)>(op: (G, G) -> G, zero: G, ext: C -> G, hay: seq<C>, needle: seq<C>, start: nat)
    returns (hp: nat, hsum: G, nsum: G, eqp: bool)
    requires Suits(op, zero, ext) && needle != [] && start < |hay| && hay[start] == needle[0]
    ensures start < hp <= |hay| && hp <= start + |needle| && (hp < start + |needle| ==> hp == |hay|)
    ensures hsum == Sum(op, zero, ext, hay, start, hp) && nsum == Sum(op, zero, ext, needle, 0, hp - start)
    ensures eqp == Agree(hay, start, needle, hp - start)
  {
    hp := start + 1;
    var np := 1;
    hsum, nsum, eqp := ext(hay[start]), ext(hay[start]), true;
    assert Sum(op, zero, ext, hay, start, start) == zero && Sum(op, zero, ext, needle, 0, 0) == zero;
    assert Cancels(op, zero, hsum);
    while hp < |hay| && np < |needle|
      invariant start + np == hp <= |hay| && 1 <= np <= |needle|
      invariant hsum == Sum(op, zero, ext, hay, start, hp) && nsum == Sum(op, zero, ext, needle, 0, np)
      invariant eqp == Agree(hay, start, needle, np)
    {
      hsum := op(hsum, ext(hay[hp]));
      nsum := op(nsum, ext(needle[np]));
      AgreeGrows(hay, start, needle, np);
      eqp := eqp && hay[hp] == needle[np];
      hp, np := hp + 1, np + 1;
    }
  }

  lemma AgreeGrows<C>(hay: seq<C>, at: nat, needle: seq<C>, n: nat)
    requires at + n < |hay| && n < |needle|
    ensures Agree(hay, at, needle, n + 1) <==> Agree(hay, at, needle, n) && hay[at + n] == needle[n]
  {
  }

  // The later windows, with the sum kept up to date.
  method Scan<C(!new, ==), G(!new, ==)>(op: (G, G) -> G, zero: G, ext: C -> G, hay: seq<C>, needle: seq<C>, start: nat,
                                    sum: G, nsum: G) returns (r: Option<nat>)
    requires Suits(op, zero, ext) && needle != [] && start + |needle| <= |hay|
    requires sum == Sum(op, zero, ext, hay, start, start + |needle|) && nsum == Sum(op, zero, ext, needle, 0, |needle|)
    requires NoneBelow(hay, needle, start) && !OccursAt(hay, needle, start)
    ensures IsFirst(hay, needle, r)
  {
    var hsum := sum;
    var cand := start;
    var hp := start + |needle|;
    while hp < |hay|
      invariant cand + |needle| == hp <= |hay| && hsum == Sum(op, zero, ext, hay, cand, hp)
      invariant NoneBelow(hay, needle, cand + 1)
    {
      Slide(op, zero, ext, hay, cand, hp);
      hsum := op(hsum, ext(hay[cand]));
      cand := cand + 1;
      hsum := op(hsum, ext(hay[hp]));
      hp := hp + 1;
      TestIsExact(op, zero, ext, hay, needle, cand);
      if hsum == nsum && Agree(hay, cand, needle, |needle| - 1) {
        return Some(cand);
      }
    }
    NoneAtAll(hay, needle, cand + 1);
    return None;
  }

  // ---- the group the code uses: exclusive-or of 32-bit words ----

  function Xor(a: bv32, b: bv32): bv32 { a ^ b }

  // A char is signed: it is sign-extended before it enters the 32-bit sum.
  function Extend(c: bv8): bv32 {
    if c >= 0x80 then 0xFFFF_FF00 | (c as bv32) else c as bv32
  }

  lemma XorAssociates()
    ensures forall a, b, c :: Associates(Xor, a, b, c)
  {
    forall a, b, c ensures Associates(Xor, a, b, c) {
      XorAssociatesAt(a, b, c);
    }
  }

  lemma XorAssociatesAt(a: bv32, b: bv32, c: bv32)
    ensures Xor(Xor(a, b), c) == Xor(a, Xor(b, c))
  {
    Regroup(a, b, c);
  }

  lemma Regroup(a: bv32, b: bv32, c: bv32)
    ensures (a ^ b) ^ c == a ^ (b ^ c)
  {
  }

  lemma XorCommutes()
    ensures forall a, b :: Commutes(Xor, a, b)
  {
  }

  lemma XorCancels()
    ensures forall a :: Cancels(Xor, 0, a)
  {
  }

  lemma ExtendInjective(a: bv8, b: bv8, x: bv32)
    requires x == Extend(a) && x == Extend(b)
    ensures a == b
  {
  }

  lemma XorSuits()
    ensures Suits(Xor, 0, Extend)
  {
    XorAssociates();
    XorCommutes();
    XorCancels();
    forall a: bv8, b: bv8 ensures KeptApart(Extend, a, b) {
      if Extend(a) == Extend(b) { ExtendInjective(a, b, Extend(a)); }
    }
  }

  // xmemmem: the offset of the first occurrence, or a null pointer exactly when
  // there is none.
  method Xmemmem(hay: seq<bv8>, needle: seq<bv8>) returns (r: Option<nat>)
    ensures IsFirst(hay, needle, r)
  {
    XorSuits();
    r := Find(Xor, 0, Extend, hay, needle);
  }
}
