// What readers are shown (u_drv_data.c): with a generator set, every node that was
// not met before is shown with its tables replaced, once, however it is read.
module TsPresented {
  import opened Bytes
  import opened TsRealign
  import opened PatReplacement
  import opened TsList

  // Reads came to the node `was` with the generator g; they have made it `now`, and
  // left the generator h.
  datatype Meeting = Meeting(g: Generator, was: Node, now: Node, h: Generator)

  predicate Replaces(m: Meeting) { !m.was.replaced && m.now.replaced }

  // From the bytes a to b, once.
  predicate Remade(g: Generator, was: bool, a: seq<byte>, now: bool, b: seq<byte>, h: Generator) {
    Ready(g) && (if now && !was then (h, b) == Regenerate(g, a) else (h, b) == (g, a)) && (was ==> now)
  }

  // What n has delivered since it was x is what it holds there; it is left alone until
  // its tables are replaced.
  predicate Told(x: Node, n: Node) {
    && (!n.replaced ==> n == x) && n.arrived == x.arrived && x.readOff <= n.readOff <= |n.data|
    && n.delivered == x.delivered + n.data[x.readOff..n.readOff]
  }

  // The tables are replaced in the whole node, and before anything is handed out.
  predicate Follows(m: Meeting) {
    Remade(m.g, m.was.replaced, m.was.data, m.now.replaced, m.now.data, m.h) && Told(m.was, m.now)
  }

  function Last(g: Generator, ms: seq<Meeting>): Generator { if ms == [] then g else ms[|ms| - 1].h }

  ghost predicate FollowsAt(g: Generator, ms: seq<Meeting>, i: nat) {
    i < |ms| && Follows(ms[i]) && ms[i].g == Last(g, ms[..i])
  }

  // What readers have had of a node.
  function Given(m: Meeting): seq<byte> {
    if m.was.readOff <= m.now.readOff <= |m.now.data| then m.now.data[m.was.readOff..m.now.readOff] else []
  }

  function Gifts(ms: seq<Meeting>): seq<seq<byte>> { seq(|ms|, i requires 0 <= i < |ms| => Given(ms[i])) }

  function Befores(ms: seq<Meeting>): seq<Node> { seq(|ms|, i requires 0 <= i < |ms| => ms[i].was) }

  function Nows(ms: seq<Meeting>): seq<Node> { seq(|ms|, i requires 0 <= i < |ms| => ms[i].now) }

  // Reads that began with the generator g came to these nodes in turn, have left the
  // generator `gen`, and have handed out `out`.
  ghost predicate Reads(g: Generator, ms: seq<Meeting>, gen: Option<Generator>, out: seq<byte>) {
    && (forall i: nat :: i < |ms| ==> FollowsAt(g, ms, i))
    && gen == Some(Last(g, ms)) && out == Flatten(Gifts(ms))
  }

  // ---- one node ----

  lemma OneMore(g: Generator, ms: seq<Meeting>, gen: Option<Generator>, out: seq<byte>, m: Meeting)
    requires Reads(g, ms, gen, out) && Follows(m) && gen == Some(m.g)
    ensures Reads(g, ms + [m], Some(m.h), out + Given(m))
  {
    var ns := ms + [m];
    forall i: nat | i < |ns| ensures FollowsAt(g, ns, i) {
      assert ns[..i] == ms[..i];
      assert i < |ms| ==> FollowsAt(g, ms, i);
    }
    assert Gifts(ns) == Gifts(ms) + [Given(m)];
    FlattenOne(Gifts(ms), Given(m));
  }

  lemma OneLess(g: Generator, ms: seq<Meeting>, gen: Option<Generator>, out: seq<byte>, m: Meeting)
    requires Reads(g, ms + [m], gen, out)
    ensures Follows(m) && gen == Some(m.h) && Reads(g, ms, Some(m.g), Flatten(Gifts(ms)))
    ensures out == Flatten(Gifts(ms)) + Given(m)
  {
    var ns := ms + [m];
    forall i: nat | i < |ms| ensures FollowsAt(g, ms, i) {
      assert FollowsAt(g, ns, i) && ns[..i] == ms[..i];
    }
    assert FollowsAt(g, ns, |ms|) && ns[..|ms|] == ms;
    assert Gifts(ns) == Gifts(ms) + [Given(m)];
    FlattenOne(Gifts(ms), Given(m));
  }

  lemma Untouched(g: Generator, ms: seq<Meeting>, gen: Option<Generator>, out: seq<byte>, x: Node, m: Meeting)
    requires Ready(g) && Reads(g, ms, gen, out) && x.readOff <= |x.data| && m == Meeting(Last(g, ms), x, x, Last(g, ms))
    requires Ready(m.g)
    ensures Reads(g, ms + [m], gen, out)
  {
    assert x.delivered == x.delivered + x.data[x.readOff..x.readOff];
    OneMore(g, ms, gen, out, m);
    assert out == out + Given(m);
  }

  // A visit to a node replaces its tables unless that was done,
  lemma PrepareFollows(m: Meeting, s: Store, t: Store, n: Node)
    requires Follows(m) && Ready(m.h) && s.gen == Some(m.h) && (t, n) == Prepare(s, m.now)
    ensures n.replaced && |n.data| == |m.now.data| && n.readOff == m.now.readOff && t == s.(gen := t.gen) && t.gen.Some?
    ensures var w := m.(now := n, h := t.gen.value); Follows(w) && Given(w) == Given(m)
  {
    if !m.now.replaced {
      var w := m.(now := n, h := t.gen.value);
      assert Given(w) == [] == Given(m) && n.delivered == m.was.delivered + [];
    }
  }

  lemma ToldOn(x: Node, n: Node, k: nat, to: Node)
    requires Told(x, n) && n.replaced && n.readOff + k <= |n.data| && to == Advanced(n, k)
    ensures Told(x, to) && to.replaced == n.replaced && to.data == n.data
    ensures n.data[x.readOff..n.readOff] + n.data[n.readOff..to.readOff] == to.data[x.readOff..to.readOff]
  {
    assert n.data[x.readOff..n.readOff + k] == n.data[x.readOff..n.readOff] + n.data[n.readOff..n.readOff + k];
    Associates(x.delivered, n.data[x.readOff..n.readOff], n.data[n.readOff..n.readOff + k]);
  }

  // and hands out the next bytes of what is then there.
  lemma AdvancedFollows(m: Meeting, k: nat, to: Node, w: Meeting)
    requires Follows(m) && m.now.replaced && m.now.readOff + k <= |m.now.data| && to == Advanced(m.now, k)
    requires w == m.(now := to)
    ensures Follows(w) && Given(w) == Given(m) + m.now.data[m.now.readOff..to.readOff]
  {
    ToldOn(m.was, m.now, k, to);
  }

  lemma VisitFollows(m: Meeting, s: Store, t: Store, n: Node, k: nat, part: seq<byte>, w: Meeting)
    requires Follows(m) && Ready(m.h) && s.gen == Some(m.h) && (t, n) == Prepare(s, m.now)
    requires n.readOff + k <= |n.data| && part == n.data[n.readOff..n.readOff + k]
    requires t.gen.Some? && w == m.(now := Advanced(n, k), h := t.gen.value)
    ensures Follows(w) && Given(w) == Given(m) + part
  {
    PrepareFollows(m, s, t, n);
    AdvancedFollows(m.(now := n, h := t.gen.value), k, Advanced(n, k), w);
  }

  lemma LastBecomes(g: Generator, ms: seq<Meeting>, m: Meeting, gen: Option<Generator>, out: seq<byte>, w: Meeting,
                    part: seq<byte>)
    requires Reads(g, ms + [m], gen, out) && Follows(w) && w.g == m.g && Given(w) == Given(m) + part
    ensures Reads(g, ms + [w], Some(w.h), out + part)
  {
    OneLess(g, ms, gen, out, m);
    OneMore(g, ms, Some(m.g), Flatten(Gifts(ms)), w);
    Associates(Flatten(Gifts(ms)), Given(m), part);
  }

  // ---- the list ----

  function Front(nodes: seq<Node>): seq<Node> { if nodes == [] then [] else [nodes[0]] }

  function Behind(nodes: seq<Node>): seq<Node> { if nodes == [] then [] else nodes[1..] }

  // The nodes st were queued with the generator g, when those in `gone` were freed, or
  // inserted since. Reads have met as ms says those freed since and the first of the
  // list, in turn, and the others are as they were; readers have had `out`.
  ghost predicate Served(g: Generator, gone: seq<Node>, st: seq<Node>, ms: seq<Meeting>, s: Store, out: seq<byte>) {
    && Ready(g) && Reads(g, ms, s.gen, out) && gone <= s.gone
    && gone + Nows(ms) == s.gone + Front(s.all) && Befores(ms) + Behind(s.all) == st
  }

  lemma Appended(ms: seq<Meeting>, m: Meeting)
    ensures Nows(ms + [m]) == Nows(ms) + [m.now] && Befores(ms + [m]) == Befores(ms) + [m.was]
  {
  }

  // The last meeting was with the node that is now first.
  lemma LastMeeting(g: Generator, gone: seq<Node>, st: seq<Node>, ms: seq<Meeting>, s: Store, out: seq<byte>)
      returns (before: seq<Meeting>, m: Meeting)
    requires Served(g, gone, st, ms, s, out) && s.all != []
    ensures ms == before + [m] && m.now == s.all[0] && gone + Nows(before) == s.gone
    ensures Befores(before) + [m.was] + s.all[1..] == st && Reads(g, before + [m], s.gen, out)
  {
    assert |Nows(ms)| > 0;
    before, m := ms[..|ms| - 1], ms[|ms| - 1];
    assert ms == before + [m];
    Appended(before, m);
    LastOf(gone + Nows(before), m.now, s.gone, s.all[0]);
  }

  lemma LastOf(a: seq<Node>, x: Node, b: seq<Node>, y: Node)
    requires a + [x] == b + [y]
    ensures a == b && x == y
  {
    assert (a + [x])[|a|] == x && (b + [y])[|b|] == y;
    assert (a + [x])[..|a|] == a && (b + [y])[..|b|] == b;
  }

  // It goes on with the same node first,
  lemma FirstStays(g: Generator, gone: seq<Node>, st: seq<Node>, ms: seq<Meeting>, m: Meeting, t: Store, out: seq<byte>)
    requires Ready(g) && Reads(g, ms + [m], t.gen, out) && gone + Nows(ms) == t.gone && t.all != [] && t.all[0] == m.now
    requires Befores(ms) + [m.was] + t.all[1..] == st
    ensures Served(g, gone, st, ms + [m], t, out)
  {
    Appended(ms, m);
    Associates(gone, Nows(ms), [m.now]);
  }

  lemma HeadAndTail(a: seq<Node>, b: seq<Node>)
    requires b != []
    ensures a + [b[0]] + b[1..] == a + b
  {
  }

  // or, when that is freed, with the next.
  lemma NextComes(g: Generator, gone: seq<Node>, st: seq<Node>, ms: seq<Meeting>, t: Store, out: seq<byte>)
      returns (ns: seq<Meeting>)
    requires Ready(g) && Reads(g, ms, t.gen, out) && gone + Nows(ms) == t.gone && Befores(ms) + t.all == st
    requires Usable(t)
    ensures Served(g, gone, st, ns, t, out)
  {
    if t.all == [] {
      ns := ms;
    } else {
      var h, x := Last(g, ms), t.all[0];
      assert x in t.all;
      var m := Meeting(h, x, x, h);
      Untouched(g, ms, t.gen, out, x, m);
      ns := ms + [m];
      HeadAndTail(Befores(ms), t.all);
      FirstStays(g, gone, st, ms, m, t, out);
    }
  }

  lemma FirstFreed(g: Generator, gone: seq<Node>, st: seq<Node>, ms: seq<Meeting>, m: Meeting, s: Store, t: Store,
                   out: seq<byte>)
      returns (ns: seq<Meeting>)
    requires Ready(g) && Reads(g, ms + [m], t.gen, out) && gone + Nows(ms) == s.gone && s.all != [] && Usable(t)
    requires Befores(ms) + [m.was] + s.all[1..] == st && t.all == s.all[1..] && t.gone == s.gone + [m.now]
    ensures Served(g, gone, st, ns, t, out)
  {
    Appended(ms, m);
    Associates(gone, Nows(ms), [m.now]);
    ns := NextComes(g, gone, st, ms + [m], t, out);
  }

  lemma VisitServes(g: Generator, gone: seq<Node>, st: seq<Node>, ms: seq<Meeting>, s: Store, out: seq<byte>,
                    remain: nat)
      returns (ns: seq<Meeting>)
    requires Usable(s) && s.all != [] && Served(g, gone, st, ms, s, out)
    ensures Served(g, gone, st, ns, Visit(s, remain).0, out + Visit(s, remain).1)
  {
    var before, m := LastMeeting(g, gone, st, ms, s, out);
    var (t, n) := Prepare(s, m.now);
    assert m.now in s.all;
    var k, w := Handed(g, before, m, s, out, t, n, remain);
    ns := TakeServes(g, gone, st, before, w, s, t, n, remain, k, Take(t, n, remain).0,
                     out + n.data[n.readOff..n.readOff + k]);
  }

  lemma Handed(g: Generator, ms: seq<Meeting>, m: Meeting, s: Store, out: seq<byte>, t: Store, n: Node, remain: nat)
      returns (k: nat, w: Meeting)
    requires Reads(g, ms + [m], s.gen, out) && Usable(s) && m.now in s.all && (t, n) == Prepare(s, m.now)
    ensures n.readOff <= |n.data| && k == (if remain > |n.data| - n.readOff then |n.data| - n.readOff else remain)
    ensures t == s.(gen := t.gen) && (t.gen.Some? ==> Ready(t.gen.value))
    ensures w.was == m.was && w.now == Advanced(n, k) && Reads(g, ms + [w], t.gen, out + n.data[n.readOff..n.readOff + k])
  {
    OneLess(g, ms, s.gen, out, m);
    PrepareFollows(m, s, t, n);
    var left := |n.data| - n.readOff;
    k := if remain > left then left else remain;
    w := m.(now := Advanced(n, k), h := t.gen.value);
    VisitFollows(m, s, t, n, k, n.data[n.readOff..n.readOff + k], w);
    LastBecomes(g, ms, m, s.gen, out, w, n.data[n.readOff..n.readOff + k]);
  }

  lemma TakeServes(g: Generator, gone: seq<Node>, st: seq<Node>, ms: seq<Meeting>, w: Meeting, s: Store, t: Store,
                   n: Node,
                   remain: nat, k: nat, u: Store, out: seq<byte>)
      returns (ns: seq<Meeting>)
    requires Ready(g) && Reads(g, ms + [w], t.gen, out) && Usable(s) && s.all != [] && gone + Nows(ms) == s.gone
    requires Befores(ms) + [w.was] + s.all[1..] == st && t == s.(gen := t.gen) && (t.gen.Some? ==> Ready(t.gen.value))
    requires n.readOff <= |n.data| && k == if remain > |n.data| - n.readOff then |n.data| - n.readOff else remain
    requires w.now == Advanced(n, k) && u == Take(t, n, remain).0
    ensures Served(g, gone, st, ns, u, out)
  {
    if remain > |n.data| - n.readOff {
      TailUsable(s, u);
      ns := FirstFreed(g, gone, st, ms, w, s, u, out);
    } else {
      ns := ms + [w];
      assert u.all == [w.now] + s.all[1..];
      FirstStays(g, gone, st, ms, w, u, out);
    }
  }

  lemma TailUsable(s: Store, u: Store)
    requires Usable(s) && s.all != [] && u.all == s.all[1..] && (u.gen.Some? ==> Ready(u.gen.value))
    ensures Usable(u)
  {
  }

  lemma {:induction false} PassServes(g: Generator, gone: seq<Node>, st: seq<Node>, ms: seq<Meeting>, s: Store,
                                      out: seq<byte>, remain: nat)
      returns (ns: seq<Meeting>)
    requires Usable(s) && Served(g, gone, st, ms, s, out)
    ensures Served(g, gone, st, ns, Pass(s, remain).0, out + Pass(s, remain).1)
    decreases |s.all|
  {
    ns := ms;
    if s.all == [] || remain == 0 {
      assert out + [] == out;
    } else {
      ns := VisitServes(g, gone, st, ms, s, out, remain);
      VisitUsable(s, remain);
      var (t, part, rest) := Visit(s, remain);
      if rest > 0 {
        ns := PassServes(g, gone, st, ns, t, out + part, rest);
        Associates(out, part, Pass(t, rest).1);
      }
    }
  }

  lemma {:induction false} EvictServes(g: Generator, gone: seq<Node>, st: seq<Node>, ms: seq<Meeting>, s: Store,
                                       out: seq<byte>, u: Store)
      returns (ns: seq<Meeting>)
    requires Usable(s) && Served(g, gone, st, ms, s, out) && u == Evict(s)
    ensures Served(g, gone, st, ns, u, out)
    decreases |s.all|
  {
    ns := ms;
    if s.size > s.max && s.all != [] {
      var t := DropFirst(s, s.all[0]);
      var before, m := LastMeeting(g, gone, st, ms, s, out);
      TailUsable(s, t);
      ns := FirstFreed(g, gone, st, before, m, s, t, out);
      ns := EvictServes(g, gone, st, ns, t, out, u);
    }
  }

  lemma InsertServes(g: Generator, gone: seq<Node>, st: seq<Node>, ms: seq<Meeting>, s: Store, out: seq<byte>,
                     data: seq<byte>, u: Store)
      returns (ns: seq<Meeting>)
    requires Usable(s) && Served(g, gone, st, ms, s, out) && u == Insert(s, data)
    ensures Served(g, gone, st + [Fresh(data)], ns, u, out)
  {
    var t := s.(all := s.all + [Fresh(data)], size := s.size + |data|);
    ns := AppendServes(g, gone, st, ms, s, out, Fresh(data), t);
    ns := EvictServes(g, gone, st + [Fresh(data)], ns, t, out, u);
  }

  lemma AppendServes(g: Generator, gone: seq<Node>, st: seq<Node>, ms: seq<Meeting>, s: Store, out: seq<byte>,
                     n: Node, t: Store)
      returns (ns: seq<Meeting>)
    requires Usable(s) && Served(g, gone, st, ms, s, out) && n.readOff <= |n.data|
    requires t == s.(all := s.all + [n], size := t.size)
    ensures Usable(t) && Served(g, gone, st + [n], ns, t, out)
  {
    if s.all == [] {
      assert gone + Nows(ms) == t.gone && Befores(ms) == st && t.all == [n];
      ns := NextComes(g, gone, st + [n], ms, t, out);
    } else {
      ns := ms;
      assert Behind(t.all) == Behind(s.all) + [n];
      Associates(Befores(ms), Behind(s.all), [n]);
    }
  }

  // At the start nothing has been met.
  lemma NothingServed(g: Generator, s: Store) returns (ms: seq<Meeting>)
    requires Usable(s) && s.gen == Some(g)
    ensures Served(g, s.gone, s.all, ms, s, [])
  {
    assert Nows([]) == [] && Befores([]) == [] && Gifts([]) == [] && s.gone + [] == s.gone && [] + s.all == s.all;
    ms := NextComes(g, s.gone, s.all, [], s, []);
  }

  // ---- reads ----

  function Freshes(nodes: seq<seq<byte>>): seq<Node> {
    if nodes == [] then [] else [Fresh(nodes[0])] + Freshes(nodes[1..])
  }

  lemma {:induction false} FreshesAppend(a: seq<seq<byte>>, b: seq<seq<byte>>)
    ensures Freshes(a + b) == Freshes(a) + Freshes(b)
  {
    if a == [] {
      assert a + b == b;
    } else {
      assert (a + b)[1..] == a[1..] + b;
      FreshesAppend(a[1..], b);
    }
  }

  lemma InsertUsable(s: Store, data: seq<byte>)
    requires Usable(s)
    ensures Usable(Insert(s, data))
  {
    EvictUsable(s.(all := s.all + [Fresh(data)], size := s.size + |data|));
  }

  lemma InsertAllUnfolds(s: Store, nodes: seq<seq<byte>>, t: Store, u: Store)
    requires nodes != [] && t == Insert(s, nodes[0]) && u == InsertAll(s, nodes)
    ensures u == InsertAll(t, nodes[1..])
  {
  }

  lemma FreshFirst(st: seq<Node>, nodes: seq<seq<byte>>)
    requires nodes != []
    ensures st + [Fresh(nodes[0])] + Freshes(nodes[1..]) == st + Freshes(nodes)
  {
    Associates(st, [Fresh(nodes[0])], Freshes(nodes[1..]));
  }

  lemma {:induction false} InsertAllServes(g: Generator, gone: seq<Node>, st: seq<Node>, ms: seq<Meeting>, s: Store,
                                           out: seq<byte>,
                                           nodes: seq<seq<byte>>, u: Store)
      returns (ns: seq<Meeting>)
    requires Usable(s) && Served(g, gone, st, ms, s, out) && u == InsertAll(s, nodes)
    ensures Served(g, gone, st + Freshes(nodes), ns, u, out)
    decreases |nodes|
  {
    ns := ms;
    if nodes == [] {
      assert st + Freshes(nodes) == st;
    } else {
      var t := Insert(s, nodes[0]);
      ns := InsertServes(g, gone, st, ms, s, out, nodes[0], t);
      InsertUsable(s, nodes[0]);
      InsertAllUnfolds(s, nodes, t, u);
      ns := InsertAllServes(g, gone, st + [Fresh(nodes[0])], ns, t, out, nodes[1..], u);
      FreshFirst(st, nodes);
    }
  }

  lemma FreshOn(st: seq<Node>, feed: seq<seq<seq<byte>>>, k: nat)
    requires feed != [] && k <= |feed[1..]|
    ensures st + Freshes(feed[0]) + Freshes(Flatten(feed[1..][..k])) == st + Freshes(Flatten(feed[..1 + k]))
  {
    assert feed[..1 + k][1..] == feed[1..][..k];
    var more := Flatten(feed[1..][..k]);
    FreshesAppend(feed[0], more);
    Associates(st, Freshes(feed[0]), Freshes(more));
  }

  lemma {:induction false} ReadAllServes(g: Generator, gone: seq<Node>, st: seq<Node>, ms: seq<Meeting>, s: Store,
                                         out: seq<byte>,
                                         remain: nat, feed: seq<seq<seq<byte>>>)
      returns (ns: seq<Meeting>)
    requires Usable(s) && Served(g, gone, st, ms, s, out)
    ensures var (t, bytes, rest, used) := ReadAll(s, remain, feed);
      used <= |feed| && Served(g, gone, st + Freshes(Flatten(feed[..used])), ns, t, out + bytes)
    decreases |feed|
  {
    ns := ms;
    if remain == 0 || feed == [] {
      assert out + [] == out && feed[..0] == [] && st + Freshes([]) == st;
    } else {
      InsertAllUsable(s, feed[0]);
      var t := InsertAll(s, feed[0]);
      ns := InsertAllServes(g, gone, st, ms, s, out, feed[0], t);
      ns := PassServes(g, gone, st + Freshes(feed[0]), ns, t, out, remain);
      PassUsable(t, remain);
      var (u, part, rest) := Pass(t, remain);
      ns := ReadAllServes(g, gone, st + Freshes(feed[0]), ns, u, out + part, rest, feed[1..]);
      var r := ReadAll(u, rest, feed[1..]);
      ReadAllUnfolds(s, remain, feed, u, part, rest, r);
      FreshOn(st, feed, r.3);
      Associates(out, part, r.1);
    }
  }

  lemma NothingBefore(b: seq<byte>)
    ensures [] + b == b
  {
  }

  // Whatever a read meets, with whatever is inserted and evicted between its passes.
  lemma EveryReadIsServed(g: Generator, s: Store, remain: nat, feed: seq<seq<seq<byte>>>) returns (ms: seq<Meeting>)
    requires Usable(s) && s.gen == Some(g)
    ensures var (t, bytes, rest, used) := ReadAll(s, remain, feed);
      used <= |feed| && Served(g, s.gone, s.all + Freshes(Flatten(feed[..used])), ms, t, bytes)
  {
    ms := NothingServed(g, s);
    NothingBefore(ReadAll(s, remain, feed).1);
    ms := ReadAllServes(g, s.gone, s.all, ms, s, [], remain, feed);
  }

  lemma EventServes(g: Generator, gone: seq<Node>, st: seq<Node>, ms: seq<Meeting>, s: Store, out: seq<byte>, e: Event)
      returns (ns: seq<Meeting>)
    requires Usable(s) && Served(g, gone, st, ms, s, out) && !e.Generate?
    ensures Served(g, gone, st + Freshes(if e.Arrive? then [e.data] else []), ns, Apply(s, e).0, out + Apply(s, e).1)
  {
    assert st + [] == st && out + [] == out;
    match e {
      case Arrive(data) =>
        ns := InsertServes(g, gone, st, ms, s, out, data, Insert(s, data));
        assert Freshes([data]) == [Fresh(data)];
      case Read(remain) => ns := PassServes(g, gone, st, ms, s, out, remain);
    }
  }

  // The events es from the store s on, and what readers get in them.
  function Onward(s: Store, es: seq<Event>): (r: (Store, seq<byte>))
    requires Usable(s) && forall e <- es :: Acceptable(e)
    ensures Usable(r.0)
  {
    if es == [] then (s, [])
    else
      var (t, out) := Onward(s, es[..|es| - 1]);
      var e := es[|es| - 1];
      ApplyUsable(t, e);
      (Apply(t, e).0, out + Apply(t, e).1)
  }

  lemma ApplyUsable(s: Store, e: Event)
    requires Usable(s) && Acceptable(e)
    ensures Usable(Apply(s, e).0)
  {
    match e {
      case Arrive(data) => InsertUsable(s, data);
      case Read(remain) => PassUsable(s, remain);
      case Generate(g) =>
    }
  }

  lemma PartsAcceptable(a: seq<Event>, b: seq<Event>)
    requires forall e <- a + b :: Acceptable(e)
    ensures (forall e <- a :: Acceptable(e)) && forall e <- b :: Acceptable(e)
  {
    forall e | e in a ensures Acceptable(e) { assert e in a + b; }
    forall e | e in b ensures Acceptable(e) { assert e in a + b; }
  }

  // Every run goes on like this from wherever it has come to.
  lemma {:induction false} RunGoesOn(max: nat, began: seq<Event>, es: seq<Event>)
    requires forall e <- began + es :: Acceptable(e)
    ensures (forall e <- began :: Acceptable(e)) && forall e <- es :: Acceptable(e)
    ensures var (s, out) := TsList.Run(max, began); Usable(s) && var (t, more) := Onward(s, es);
      TsList.Run(max, began + es) == (t, out + more)
    decreases |es|
  {
    PartsAcceptable(began, es);
    var (s, out) := TsList.Run(max, began);
    if es == [] {
      assert began + es == began && out + [] == out;
    } else {
      var init, e := es[..|es| - 1], es[|es| - 1];
      assert began + es == began + init + [e];
      RunLast(max, began + es, began + init, e);
      RunGoesOn(max, began, init);
      Associates(out, Onward(s, init).1, Apply(Onward(s, init).0, e).1);
    }
  }

  lemma RunLast(max: nat, all: seq<Event>, before: seq<Event>, e: Event)
    requires all == before + [e] && forall d <- all :: Acceptable(d)
    ensures forall d <- before :: Acceptable(d)
    ensures var (s, out) := TsList.Run(max, before);
      Usable(s) && TsList.Run(max, all) == (Apply(s, e).0, out + Apply(s, e).1)
  {
    PartsAcceptable(before, [e]);
    assert all[..|all| - 1] == before;
  }

  // Until another generator is set, that is served too, whatever the events.
  lemma {:induction false} EveryRunIsServed(g: Generator, s: Store, es: seq<Event>) returns (ms: seq<Meeting>)
    requires Usable(s) && s.gen == Some(g) && forall e <- es :: !e.Generate?
    ensures var (t, out) := Onward(s, es); Served(g, s.gone, s.all + Freshes(Inserted(es)), ms, t, out)
    decreases |es|
  {
    if es == [] {
      assert s.all + [] == s.all;
      ms := NothingServed(g, s);
    } else {
      var k := |es| - 1;
      ms := EveryRunIsServed(g, s, es[..k]);
      var (t, out) := Onward(s, es[..k]);
      ms := EventServes(g, s.gone, s.all + Freshes(Inserted(es[..k])), ms, t, out, es[k]);
      InsertedOn(s.all, es);
    }
  }

  lemma InsertedOn(st: seq<Node>, es: seq<Event>)
    requires es != []
    ensures var e := es[|es| - 1];
      st + Freshes(Inserted(es[..|es| - 1])) + Freshes(if e.Arrive? then [e.data] else []) == st + Freshes(Inserted(es))
  {
    var e, was := es[|es| - 1], Inserted(es[..|es| - 1]);
    var now := if e.Arrive? then [e.data] else [];
    assert was + now == Inserted(es);
    FreshesAppend(was, now);
    Associates(st, Freshes(was), Freshes(now));
  }

  // ---- the tables ----

  function TablesIn(m: Meeting, pid: nat): nat { if Replaces(m) then Tables(m.was.data, pid) else 0 }

  // The packets of a PID in the nodes whose tables were replaced.
  function TablesMet(ms: seq<Meeting>, pid: nat): nat {
    if ms == [] then 0
    else
      var m := ms[|ms| - 1];
      TablesMet(ms[..|ms| - 1], pid) + TablesIn(m, pid)
  }

  lemma MeetingMoves(m: Meeting)
    requires Follows(m)
    ensures Ready(m.h)
    ensures Moved(m.g, m.h, TablesIn(m, PAT_PID), TablesIn(m, SDT_PID))
  {
    if Replaces(m) { RegenerateMoves(m.g, m.was.data); } else { NotMoved(m.g); }
  }

  // The generator that a node is met with has moved on by the tables replaced so far.
  lemma {:induction false} MovesAlong(g: Generator, ms: seq<Meeting>, i: nat)
    requires Ready(g) && i <= |ms| && forall j: nat :: j < |ms| ==> FollowsAt(g, ms, j)
    ensures var h := Last(g, ms[..i]);
      Ready(h) && Moved(g, h, TablesMet(ms[..i], PAT_PID), TablesMet(ms[..i], SDT_PID))
    decreases i
  {
    if i == 0 {
      NotMoved(g);
    } else {
      MovesAlong(g, ms, i - 1);
      assert FollowsAt(g, ms, i - 1) && ms[..i][..i - 1] == ms[..i - 1];
      var m := ms[i - 1];
      MeetingMoves(m);
      MovedOn(g, m.g, m.h, TablesMet(ms[..i - 1], PAT_PID), TablesMet(ms[..i - 1], SDT_PID),
              TablesIn(m, PAT_PID), TablesIn(m, SDT_PID));
    }
  }

  // Where in `out` the packet at o of the i-th node stands.
  function Place(ms: seq<Meeting>, i: nat, o: nat): int
    requires i < |ms|
  {
    |Flatten(Gifts(ms[..i]))| + o - ms[i].was.readOff
  }

  // A packet that readers have had of a node that was not met before.
  ghost predicate HadNew(ms: seq<Meeting>, i: nat, o: nat) {
    && i < |ms| && !ms[i].was.replaced && ms[i].was.readOff <= o && o + TS_SIZE <= ms[i].now.readOff
    && PacketOf(ms[i].was.data, o) == Some(o)
  }

  lemma {:induction false} PlaceOf(ms: seq<Meeting>, i: nat, o: nat)
    requires i < |ms| && ms[i].was.readOff <= o && o + TS_SIZE <= ms[i].now.readOff <= |ms[i].now.data|
    ensures var at, out := Place(ms, i, o), Flatten(Gifts(ms));
      0 <= at && at + TS_SIZE <= |out| && out[at..at + TS_SIZE] == ms[i].now.data[o..o + TS_SIZE]
  {
    var m := ms[i];
    var a, b := Gifts(ms[..i]), Gifts(ms[i + 1..]);
    assert Gifts(ms) == (a + [Given(m)]) + b;
    FlattenAppend(a + [Given(m)], b);
    FlattenOne(a, Given(m));
    Inside(Flatten(a), m.now.data, m.was.readOff, m.now.readOff, Flatten(b), o);
  }

  lemma SliceBefore(a: seq<byte>, b: seq<byte>, i: nat, j: nat)
    requires i <= j <= |a|
    ensures (a + b)[i..j] == a[i..j]
  {
  }

  lemma SliceOfSlice(d: seq<byte>, r: nat, to: nat, i: nat, j: nat)
    requires r <= i <= j <= to <= |d|
    ensures d[r..to][i - r..j - r] == d[i..j]
  {
    var x, y := d[r..to], d[r..to][i - r..j - r];
    forall k | 0 <= k < |y| ensures y[k] == d[i..j][k] {
      assert y[k] == x[i - r + k];
    }
  }

  lemma Inside(a: seq<byte>, d: seq<byte>, r: nat, to: nat, b: seq<byte>, o: nat)
    requires r <= o && o + TS_SIZE <= to <= |d|
    ensures var at, out := |a| + o - r, a + d[r..to] + b;
      at + TS_SIZE <= |out| && out[at..at + TS_SIZE] == d[o..o + TS_SIZE]
  {
    var at, x := |a| + o - r, d[r..to];
    SliceBefore(a + x, b, at, at + TS_SIZE);
    SliceOfConcat(a, x, at, at + TS_SIZE);
    SliceOfSlice(d, r, to, o, o + TS_SIZE);
    assert at - |a| == o - r && at + TS_SIZE - |a| == o + TS_SIZE - r;
    assert (a + x + b)[at..at + TS_SIZE] == x[o - r..o + TS_SIZE - r] == d[o..o + TS_SIZE];
  }

  // Such a node was regenerated when it was met,
  lemma MetWith(g: Generator, ms: seq<Meeting>, i: nat, o: nat)
    requires HadNew(ms, i, o) && forall j: nat :: j < |ms| ==> FollowsAt(g, ms, j)
    ensures var m := ms[i]; Ready(m.g) && m.now.data == Regenerate(m.g, m.was.data).1 && m.now.readOff <= |m.now.data|
  {
    assert FollowsAt(g, ms, i);
  }

  // with the generator as it had moved on by then.
  lemma MovedWith(g: Generator, ms: seq<Meeting>, i: nat)
    requires Ready(g) && i < |ms| && forall j: nat :: j < |ms| ==> FollowsAt(g, ms, j)
    ensures Ready(ms[i].g) && Moved(g, ms[i].g, TablesMet(ms[..i], PAT_PID), TablesMet(ms[..i], SDT_PID))
  {
    MovesAlong(g, ms, i);
    assert FollowsAt(g, ms, i);
  }

  lemma SameModulo(a: nat, b: nat, n: nat)
    requires a % 16 == b % 16
    ensures (a + n) % 16 == (b + n) % 16
  {
  }

  lemma TableOnward(g: Generator, h: Generator, p: seq<byte>, met: nat, n: nat)
    requires Ready(g) && Restamped(g.pat, h.pat) && h.patCounter == Advance(g.patCounter, met)
    requires ShowsTable(h, p, n)
    ensures ShowsTable(g, p, met + n)
  {
    RestampedTwice(g.pat, h.pat, p);
    AdvanceModulo(g.patCounter, met);
    SameModulo(h.patCounter, g.patCounter + met, n);
  }

  lemma TableMoved(g: Generator, h: Generator, p: seq<byte>, met: nat, other: nat, n: nat)
    requires Ready(g) && Moved(g, h, met, other) && ShowsTable(h, p, n)
    ensures ShowsTable(g, p, met + n)
  {
    TableOnward(g, h, p, met, n);
  }

  // The packet that stands there, in terms of the generator its node was met with.
  lemma MetTable(g: Generator, ms: seq<Meeting>, i: nat, o: nat)
    requires HadNew(ms, i, o) && forall j: nat :: j < |ms| ==> FollowsAt(g, ms, j)
    requires Pid(ms[i].was.data, o) == PAT_PID
    ensures o + TS_SIZE <= ms[i].now.readOff <= |ms[i].now.data|
    ensures ShowsTable(ms[i].g, ms[i].now.data[o..o + TS_SIZE], Tables(ms[i].was.data[..o], PAT_PID))
  {
    MetWith(g, ms, i, o);
    TableCarriesCounter(ms[i].g, ms[i].was.data, ms[i].now.data, o);
  }

  lemma NewTable(g: Generator, ms: seq<Meeting>, i: nat, o: nat, n: nat)
    requires Ready(g) && HadNew(ms, i, o) && forall j: nat :: j < |ms| ==> FollowsAt(g, ms, j)
    requires Pid(ms[i].was.data, o) == PAT_PID && n == Tables(ms[i].was.data[..o], PAT_PID)
    ensures o + TS_SIZE <= ms[i].now.readOff <= |ms[i].now.data|
    ensures ShowsTable(g, ms[i].now.data[o..o + TS_SIZE], TablesMet(ms[..i], PAT_PID) + n)
  {
    MetTable(g, ms, i, o);
    MovedWith(g, ms, i);
    TableMoved(g, ms[i].g, ms[i].now.data[o..o + TS_SIZE], TablesMet(ms[..i], PAT_PID), TablesMet(ms[..i], SDT_PID), n);
  }

  lemma DescriptionOnward(g: Generator, h: Generator, p: seq<byte>, n: nat, k: nat, c: nat)
    requires k < |g.sdts| == |h.sdts| && Restamped(g.sdts[k], h.sdts[k])
    requires CarriesTable(p, h.sdts[k], (h.sdtCounter + n) % 16) && h.sdtCounter % 16 == c % 16
    ensures CarriesTable(p, g.sdts[k], (c + n) % 16)
  {
    RestampedTwice(g.sdts[k], h.sdts[k], p);
    SameModulo(h.sdtCounter, c, n);
  }

  lemma DescriptionMoved(g: Generator, h: Generator, p: seq<byte>, other: nat, met: nat, n: nat)
    requires Ready(g) && Moved(g, h, other, met) && g.sdts != [] && ShowsDescription(h, p, n)
    ensures ShowsDescription(g, p, met + n)
  {
    AdvanceModulo(g.sdtCounter, met);
    TurnedTwice(g.cur, |g.sdts|, met, n);
    DescriptionOnward(g, h, p, n, Turned(g.cur, |g.sdts|, met + n), g.sdtCounter + met);
  }

  lemma MetDescription(g: Generator, ms: seq<Meeting>, i: nat, o: nat)
    requires HadNew(ms, i, o) && forall j: nat :: j < |ms| ==> FollowsAt(g, ms, j)
    requires Pid(ms[i].was.data, o) == SDT_PID && ms[i].g.sdts != []
    ensures o + TS_SIZE <= ms[i].now.readOff <= |ms[i].now.data|
    ensures ShowsDescription(ms[i].g, ms[i].now.data[o..o + TS_SIZE], Tables(ms[i].was.data[..o], SDT_PID))
  {
    MetWith(g, ms, i, o);
    DescriptionCarriesCounter(ms[i].g, ms[i].was.data, ms[i].now.data, o);
  }

  lemma NewDescription(g: Generator, ms: seq<Meeting>, i: nat, o: nat, met: nat, n: nat)
    requires Ready(g) && HadNew(ms, i, o) && forall j: nat :: j < |ms| ==> FollowsAt(g, ms, j)
    requires Pid(ms[i].was.data, o) == SDT_PID && n == Tables(ms[i].was.data[..o], SDT_PID) && g.sdts != []
    requires met == TablesMet(ms[..i], SDT_PID)
    ensures o + TS_SIZE <= ms[i].now.readOff <= |ms[i].now.data|
    ensures ShowsDescription(g, ms[i].now.data[o..o + TS_SIZE], met + n)
  {
    MovedWith(g, ms, i);
    MetDescription(g, ms, i, o);
    DescriptionMoved(g, ms[i].g, ms[i].now.data[o..o + TS_SIZE], TablesMet(ms[..i], PAT_PID), met, n);
  }

  // Every program association table that a reader gets of such a node is the generated
  // one, and its continuity counter runs on over all tables replaced before it.
  lemma TablesAreGenerated(g: Generator, ms: seq<Meeting>, gen: Option<Generator>, out: seq<byte>, i: nat, o: nat)
    requires Ready(g) && Reads(g, ms, gen, out) && HadNew(ms, i, o) && Pid(ms[i].was.data, o) == PAT_PID
    ensures var at := Place(ms, i, o);
      && 0 <= at && at + TS_SIZE <= |out|
      && ShowsTable(g, out[at..at + TS_SIZE], TablesMet(ms[..i], PAT_PID) + Tables(ms[i].was.data[..o], PAT_PID))
  {
    var n := TablesMet(ms[..i], PAT_PID) + Tables(ms[i].was.data[..o], PAT_PID);
    NewTable(g, ms, i, o, Tables(ms[i].was.data[..o], PAT_PID));
    TableInPlace(g, ms, out, i, o, n);
  }

  lemma TableInPlace(g: Generator, ms: seq<Meeting>, out: seq<byte>, i: nat, o: nat, n: nat)
    requires out == Flatten(Gifts(ms)) && i < |ms|
    requires ms[i].was.readOff <= o && o + TS_SIZE <= ms[i].now.readOff <= |ms[i].now.data|
    requires ShowsTable(g, ms[i].now.data[o..o + TS_SIZE], n)
    ensures var at := Place(ms, i, o); 0 <= at && at + TS_SIZE <= |out| && ShowsTable(g, out[at..at + TS_SIZE], n)
  {
    PlaceOf(ms, i, o);
  }

  lemma DescriptionInPlace(g: Generator, ms: seq<Meeting>, out: seq<byte>, i: nat, o: nat, n: nat)
    requires out == Flatten(Gifts(ms)) && i < |ms|
    requires ms[i].was.readOff <= o && o + TS_SIZE <= ms[i].now.readOff <= |ms[i].now.data|
    requires ShowsDescription(g, ms[i].now.data[o..o + TS_SIZE], n)
    ensures var at := Place(ms, i, o); 0 <= at && at + TS_SIZE <= |out| && ShowsDescription(g, out[at..at + TS_SIZE], n)
  {
    PlaceOf(ms, i, o);
  }

  // Every service description is the next of the generated packets, likewise,
  lemma DescriptionsAreGenerated(g: Generator, ms: seq<Meeting>, gen: Option<Generator>, out: seq<byte>, i: nat, o: nat)
    requires Ready(g) && Reads(g, ms, gen, out) && HadNew(ms, i, o) && Pid(ms[i].was.data, o) == SDT_PID && g.sdts != []
    ensures var at := Place(ms, i, o);
      && 0 <= at && at + TS_SIZE <= |out|
      && ShowsDescription(g, out[at..at + TS_SIZE], TablesMet(ms[..i], SDT_PID) + Tables(ms[i].was.data[..o], SDT_PID))
  {
    var n := TablesMet(ms[..i], SDT_PID) + Tables(ms[i].was.data[..o], SDT_PID);
    NewDescription(g, ms, i, o, TablesMet(ms[..i], SDT_PID), Tables(ms[i].was.data[..o], SDT_PID));
    DescriptionInPlace(g, ms, out, i, o, n);
  }

  // or a null packet when there are none.
  lemma DescriptionsAreNull(g: Generator, ms: seq<Meeting>, gen: Option<Generator>, out: seq<byte>, i: nat, o: nat)
    requires Ready(g) && Reads(g, ms, gen, out) && HadNew(ms, i, o) && Pid(ms[i].was.data, o) == SDT_PID && g.sdts == []
    ensures var at := Place(ms, i, o);
      && 0 <= at && at + TS_SIZE <= |out|
      && out[at..at + TS_SIZE] == [0x47, 0x1f, 0xff, 0] + ms[i].was.data[o + 4..o + TS_SIZE]
  {
    var m := ms[i];
    MetWith(g, ms, i, o);
    MovedWith(g, ms, i);
    PlaceOf(ms, i, o);
    DescriptionBecomesNull(m.g, m.was.data, m.now.data, o);
  }
}
