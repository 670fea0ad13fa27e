// The circular doubly linked list of joker_list.h, in the heap, against the
// sequence of entries it stands for.
module ListHead {

  // struct list_head
  class Link {
    var next: Link?
    var prev: Link?

    // INIT_LIST_HEAD
    constructor ()
      ensures Ring(this, [])
    {
      next, prev := this, this;
    }
  }

  // Position i on the way round: the head at both ends, the entries between.
  function Nth(head: Link, s: seq<Link>, i: nat): Link
    requires i <= |s| + 1
  {
    if i == 0 || i == |s| + 1 then head else s[i - 1]
  }

  ghost predicate Distinct(head: Link, s: seq<Link>) {
    head !in s && forall i, j :: 0 <= i < j < |s| ==> s[i] != s[j]
  }

  // From head the next pointers run through s and back, and the prev pointers the
  // other way.
  ghost predicate Ring(head: Link, s: seq<Link>)
    reads head, s
  {
    && Distinct(head, s)
    && forall i: nat :: i <= |s| ==>
      Nth(head, s, i).next == Nth(head, s, i + 1) && Nth(head, s, i + 1).prev == Nth(head, s, i)
  }

  // A ring determines its sequence.
  lemma {:induction false} RingIsUnique(head: Link, s: seq<Link>, t: seq<Link>, n: nat)
    requires Ring(head, s) && Ring(head, t) && n <= |s| && n <= |t|
    ensures s[..n] == t[..n]
  {
    if n > 0 {
      RingIsUnique(head, s, t, n - 1);
      assert Nth(head, s, n - 1) == Nth(head, t, n - 1);
      assert Nth(head, s, n - 1).next == Nth(head, s, n) && Nth(head, t, n - 1).next == Nth(head, t, n);
    }
  }

  lemma RingsAgree(head: Link, s: seq<Link>, t: seq<Link>)
    requires Ring(head, s) && Ring(head, t)
    ensures s == t
  {
    var n := if |s| <= |t| then |s| else |t|;
    RingIsUnique(head, s, t, n);
    assert Nth(head, s, n) == Nth(head, t, n);
    assert Nth(head, s, n).next == Nth(head, s, n + 1) && Nth(head, t, n).next == Nth(head, t, n + 1);
    assert s[..n] == t[..n];
  }

  // list_empty
  method Empty(head: Link, ghost s: seq<Link>) returns (b: bool)
    requires Ring(head, s)
    ensures b <==> s == []
  {
    b := head.next == head;
    assert Nth(head, s, 0).next == Nth(head, s, 1);
  }

  // list_first_entry
  method First(head: Link, ghost s: seq<Link>) returns (e: Link)
    requires Ring(head, s) && s != []
    ensures e == s[0]
  {
    assert Nth(head, s, 0).next == Nth(head, s, 1);
    e := head.next;
  }

  // list_add_tail
  method AddTail(item: Link, head: Link, ghost s: seq<Link>)
    requires Ring(head, s) && item != head && item !in s
    modifies item, head, s
    ensures Ring(head, s + [item])
  {
    assert Nth(head, s, |s|).next == Nth(head, s, |s| + 1) && Nth(head, s, |s| + 1).prev == Nth(head, s, |s|);
    ghost var t := s + [item];
    Add(item, head.prev, head);
    forall i: nat | i <= |t|
      ensures Nth(head, t, i).next == Nth(head, t, i + 1) && Nth(head, t, i + 1).prev == Nth(head, t, i)
    {
      if i < |s| {
        assert Nth(head, t, i) == Nth(head, s, i) && Nth(head, t, i + 1) == Nth(head, s, i + 1);
      }
    }
  }

  // __list_add
  method Add(item: Link, prev: Link?, next: Link)
    requires prev != null && item != prev && item != next
    modifies item, prev, next
    ensures item.next == next && item.prev == prev && prev.next == item && next.prev == item
    ensures prev != next ==> prev.prev == old(prev.prev) && next.next == old(next.next)
  {
    next.prev := item;
    item.next := next;
    item.prev := prev;
    prev.next := item;
  }

  // list_del of the entry at position k; the poisoned pointers become null.
  method Del(entry: Link, head: Link, ghost s: seq<Link>, ghost k: nat)
    requires Ring(head, s) && k < |s| && s[k] == entry
    modifies entry, Nth(head, s, k), Nth(head, s, k + 2)
    ensures Ring(head, s[..k] + s[k + 1..])
    ensures entry.next == null && entry.prev == null
  {
    assert Nth(head, s, k + 1) == entry;
    assert Nth(head, s, k).next == Nth(head, s, k + 1) && Nth(head, s, k + 1).prev == Nth(head, s, k);
    assert Nth(head, s, k + 1).next == Nth(head, s, k + 2) && Nth(head, s, k + 2).prev == Nth(head, s, k + 1);
    ghost var t := s[..k] + s[k + 1..];
    var prev, next := entry.prev, entry.next;
    next.prev := prev;
    prev.next := next;
    entry.next, entry.prev := null, null;
    forall i: nat | i <= |t|
      ensures Nth(head, t, i).next == Nth(head, t, i + 1) && Nth(head, t, i + 1).prev == Nth(head, t, i)
    {
      ghost var a := if i <= k then i else i + 1;
      ghost var b := if i + 1 <= k then i + 1 else i + 2;
      assert Nth(head, t, i) == Nth(head, s, a) && Nth(head, t, i + 1) == Nth(head, s, b);
      assert old(Nth(head, s, a).next) == Nth(head, s, a + 1) && old(Nth(head, s, b).prev) == Nth(head, s, b - 1);
    }
  }

  // The entries that a walk keeps.
  ghost function Without(s: seq<Link>, drop: set<Link>): seq<Link> {
    if s == [] then [] else (if s[0] in drop then [] else [s[0]]) + Without(s[1..], drop)
  }

  lemma NthInside(head: Link, s: seq<Link>, all: seq<Link>, i: nat)
    requires i <= |s| + 1 && forall e <- s :: e in all
    ensures Nth(head, s, i) == head || Nth(head, s, i) in all
  {
  }

  // One round of list_for_each_entry_safe: the next entry is looked up before this
  // one may be deleted.
  method VisitOne(pos: Link, head: Link, drop: set<Link>, ghost kept: seq<Link>, ghost rest: seq<Link>,
                  ghost all: seq<Link>)
    returns (next: Link)
    requires rest != [] && rest[0] == pos && Ring(head, kept + rest) && forall e <- kept + rest :: e in all
    modifies head, all
    ensures var before := if pos in drop then kept else kept + [pos];
      Ring(head, before + rest[1..]) && next == Nth(head, before + rest[1..], |before| + 1)
  {
    ghost var ring := kept + rest;
    assert ring[|kept|] == pos == Nth(head, ring, |kept| + 1);
    assert Nth(head, ring, |kept| + 1).next == Nth(head, ring, |kept| + 2);
    next := pos.next;
    NthInside(head, ring, all, |kept|);
    NthInside(head, ring, all, |kept| + 1);
    NthInside(head, ring, all, |kept| + 2);
    assert pos != head && pos in all;
    if pos in drop {
      Del(pos, head, ring, |kept|);
      assert ring[..|kept|] + ring[|kept| + 1..] == kept + rest[1..];
    } else {
      assert (kept + [pos]) + rest[1..] == ring;
    }
  }

  lemma Walks(met: seq<Link>, rest: seq<Link>)
    requires rest != []
    ensures (met + [rest[0]]) + rest[1..] == met + rest
  {
    assert rest == [rest[0]] + rest[1..] && (met + [rest[0]]) + rest[1..] == met + ([rest[0]] + rest[1..]);
  }

  lemma Sifts(kept: seq<Link>, rest: seq<Link>, drop: set<Link>)
    requires rest != []
    ensures (if rest[0] in drop then kept else kept + [rest[0]]) + Without(rest[1..], drop) == kept + Without(rest, drop)
  {
    if rest[0] !in drop { Regroup(kept, rest[0], Without(rest[1..], drop)); }
    else { assert [] + Without(rest[1..], drop) == Without(rest[1..], drop); }
  }

  lemma Regroup(a: seq<Link>, e: Link, b: seq<Link>)
    ensures (a + [e]) + b == a + ([e] + b)
  {
  }

  // list_for_each_entry_safe with deletion of some entries: each entry is met once,
  // in order, and exactly the chosen ones leave the list.
  method DropSome(head: Link, ghost s: seq<Link>, drop: set<Link>) returns (met: seq<Link>)
    requires Ring(head, s)
    modifies head, s
    ensures met == s && Ring(head, Without(s, drop))
  {
    met := [];
    ghost var kept: seq<Link>, rest := [], s;
    assert Nth(head, s, 0).next == Nth(head, s, 1);
    var pos := head.next;
    assert kept + rest == s && kept + Without(s, drop) == Without(s, drop);
    while pos != head
      invariant met + rest == s && (forall e <- kept + rest :: e in s)
      invariant Ring(head, kept + rest) && pos == Nth(head, kept + rest, |kept| + 1)
      invariant kept + Without(rest, drop) == Without(s, drop)
      decreases |rest|
    {
      assert (kept + rest)[|kept|] == rest[0] == pos;
      Walks(met, rest);
      Sifts(kept, rest, drop);
      met := met + [pos];
      pos := VisitOne(pos, head, drop, kept, rest, s);
      kept := if rest[0] in drop then kept else kept + [rest[0]];
      rest := rest[1..];
    }
    AtHead(head, kept, rest);
    assert kept + [] == kept && met + [] == met;
  }

  // Back at the head, nothing is left.
  lemma AtHead(head: Link, kept: seq<Link>, rest: seq<Link>)
    requires Distinct(head, kept + rest) && Nth(head, kept + rest, |kept| + 1) == head
    ensures rest == []
  {
    if rest != [] { FirstOfRest(head, kept, rest); }
  }

  lemma FirstOfRest(head: Link, kept: seq<Link>, rest: seq<Link>)
    requires rest != []
    ensures Nth(head, kept + rest, |kept| + 1) in kept + rest
  {
  }
}
