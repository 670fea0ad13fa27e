// The list of transport stream nodes (u_drv_data.c): insertion with eviction in
// process_ts, and delivery in read_ts_data.
module TsList {
  import opened Bytes
  import opened TsRealign
  import opened PatReplacement

  // `arrived` and `delivered` are history: the bytes the node was inserted with, and
  // those of them that readers have had. The code keeps neither.
  datatype Node = Node(data: seq<byte>, readOff: nat, replaced: bool, arrived: seq<byte>, delivered: seq<byte>)

  // `gone` is history too: the nodes freed so far, oldest first.
  datatype Store = Store(all: seq<Node>, size: int, max: nat, gen: Option<Generator>, gone: seq<Node>)

  function Total(nodes: seq<Node>): nat {
    if nodes == [] then 0 else |nodes[0].data| + Total(nodes[1..])
  }

  lemma {:induction false} TotalAppend(a: seq<Node>, b: seq<Node>)
    ensures Total(a + b) == Total(a) + Total(b)
  {
    if a == [] {
      assert a + b == b;
    } else {
      assert (a + b)[1..] == a[1..] + b;
      TotalAppend(a[1..], b);
    }
  }

  // ---- process_ts ----

  function Fresh(data: seq<byte>): Node { Node(data, 0, false, data, []) }

  function DropFirst(s: Store, n: Node): Store
    requires s.all != []
  {
    s.(all := s.all[1..], size := s.size - |n.data|, gone := s.gone + [n])
  }

  function Evict(s: Store): Store
    decreases |s.all|
  {
    if s.size > s.max && s.all != [] then Evict(DropFirst(s, s.all[0])) else s
  }

  function Insert(s: Store, data: seq<byte>): Store {
    Evict(s.(all := s.all + [Fresh(data)], size := s.size + |data|))
  }

  // ---- read_ts_data ----

  // What a reader does first with each node it meets.
  function Prepare(s: Store, n: Node): (r: (Store, Node))
    requires s.gen.Some? ==> Ready(s.gen.value)
  {
    if s.gen.Some? && !n.replaced then
      var (g, d) := Regenerate(s.gen.value, n.data);
      (s.(gen := Some(g)), n.(data := d, replaced := true))
    else (s, n)
  }

  predicate Usable(s: Store) {
    && (s.gen.Some? ==> Ready(s.gen.value))
    && forall n <- s.all :: n.readOff <= |n.data|
  }

  function Advanced(n: Node, k: nat): Node
    requires n.readOff + k <= |n.data|
  {
    n.(readOff := n.readOff + k, delivered := n.delivered + n.data[n.readOff..n.readOff + k])
  }

  // Copying from the prepared first node n: the store, the bytes copied out, and
  // how many are still wanted. A node read to its very end stays until the next
  // round.
  function Take(s: Store, n: Node, remain: nat): (r: (Store, seq<byte>, nat))
    requires s.all != [] && n.readOff <= |n.data|
    ensures r.2 <= remain
  {
    var left := |n.data| - n.readOff;
    var k := if remain > left then left else remain;
    (if remain > left then DropFirst(s, Advanced(n, left)) else s.(all := [Advanced(n, remain)] + s.all[1..]),
     n.data[n.readOff..n.readOff + k],
     remain - k)
  }

  function Visit(s: Store, remain: nat): (r: (Store, seq<byte>, nat))
    requires Usable(s) && s.all != []
    ensures r.2 <= remain
  {
    var (t, n) := Prepare(s, s.all[0]);
    Take(t, n, remain)
  }

  // One pass over the list under the lock.
  function Pass(s: Store, remain: nat): (r: (Store, seq<byte>, nat))
    requires Usable(s)
    decreases |s.all|, remain
  {
    if s.all == [] || remain == 0 then (s, [], remain)
    else
      VisitUsable(s, remain);
      var (t, part, rest) := Visit(s, remain);
      if rest == 0 then (t, part, 0)
      else
        var (u, more, last) := Pass(t, rest);
        (u, part + more, last)
  }

  lemma VisitUsable(s: Store, remain: nat)
    requires Usable(s) && s.all != []
    ensures Usable(Visit(s, remain).0)
    ensures Visit(s, remain).2 > 0 ==> |Visit(s, remain).0.all| < |s.all|
  {
  }

  // ---- read_ts_data: passes until enough has been read ----

  function InsertAll(s: Store, nodes: seq<seq<byte>>): Store
    decreases |nodes|
  {
    if nodes == [] then s else InsertAll(Insert(s, nodes[0]), nodes[1..])
  }

  lemma {:induction false} EvictUsable(s: Store)
    requires Usable(s)
    ensures Usable(Evict(s))
    decreases |s.all|
  {
    if s.size > s.max && s.all != [] { EvictUsable(DropFirst(s, s.all[0])); }
  }

  lemma {:induction false} InsertAllUsable(s: Store, nodes: seq<seq<byte>>)
    requires Usable(s)
    ensures Usable(InsertAll(s, nodes))
    decreases |nodes|
  {
    if nodes != [] {
      EvictUsable(s.(all := s.all + [Fresh(nodes[0])], size := s.size + |nodes[0]|));
      InsertAllUsable(Insert(s, nodes[0]), nodes[1..]);
    }
  }

  lemma {:induction false} PassUsable(s: Store, remain: nat)
    requires Usable(s)
    ensures Usable(Pass(s, remain).0) && Pass(s, remain).2 <= remain
    decreases |s.all|
  {
    if s.all != [] && remain > 0 {
      VisitUsable(s, remain);
      if Visit(s, remain).2 > 0 { PassUsable(Visit(s, remain).0, Visit(s, remain).2); }
    }
  }

  // A read of `remain` bytes, when feed[k] is what the producer inserts before the
  // k-th pass: the store, the bytes, how many are still wanted when the feed ends, and
  // how much of the feed was used.
  function ReadAll(s: Store, remain: nat, feed: seq<seq<seq<byte>>>): (r: (Store, seq<byte>, nat, nat))
    requires Usable(s)
    decreases |feed|
  {
    if remain == 0 || feed == [] then (s, [], remain, 0)
    else
      InsertAllUsable(s, feed[0]);
      var t := InsertAll(s, feed[0]);
      PassUsable(t, remain);
      var (u, part, rest) := Pass(t, remain);
      var (v, more, last, used) := ReadAll(u, rest, feed[1..]);
      (v, part + more, last, 1 + used)
  }

  // ---- what is kept ----

  function History(s: Store): seq<Node> { s.gone + s.all }

  function Arrivals(nodes: seq<Node>): seq<seq<byte>> { seq(|nodes|, i requires 0 <= i < |nodes| => nodes[i].arrived) }

  function Deliveries(nodes: seq<Node>): seq<seq<byte>> { seq(|nodes|,
                      i requires 0 <= i < |nodes| => nodes[i].delivered) }

  // d is a prefix of the arrived bytes, with nothing changed outside service packets.
  ghost predicate AlikePrefix(a: seq<byte>, d: seq<byte>) {
    |d| <= |a| && forall i: nat :: i < |d| && a[i] != d[i] ==> InService(a, i)
  }

  ghost predicate NodeInv(n: Node) {
    && |n.delivered| == n.readOff <= |n.data|
    && Alike(n.arrived, n.data)
    && AlikePrefix(n.arrived, n.delivered)
    && (!n.replaced ==> n.data == n.arrived && n.delivered == n.arrived[..n.readOff])
  }

  ghost predicate Consistent(s: Store, ins: seq<seq<byte>>, out: seq<byte>) {
    && Usable(s)
    && s.size == Total(s.all)
    && (forall n <- s.all :: NodeInv(n))
    && (forall n <- s.gone :: NodeInv(n))
    && (forall i :: 1 <= i < |s.all| ==> s.all[i].readOff == 0)
    && ins == Arrivals(History(s))
    && out == Flatten(Deliveries(History(s)))
  }

  // `ins` is every node inserted so far, `out` every byte delivered so far.
  ghost predicate Inv(s: Store, ins: seq<seq<byte>>, out: seq<byte>) {
    Consistent(s, ins, out) && s.size <= s.max
  }

  lemma UndeliveredFlatten(nodes: seq<Node>)
    requires forall n <- nodes :: n.delivered == []
    ensures Flatten(Deliveries(nodes)) == []
  {
    if nodes != [] {
      assert Deliveries(nodes)[1..] == Deliveries(nodes[1..]);
      UndeliveredFlatten(nodes[1..]);
    }
  }

  lemma SplitDeliveries(gone: seq<Node>, n: Node, rest: seq<Node>)
    requires forall m <- rest :: m.delivered == []
    ensures Flatten(Deliveries(gone + [n] + rest)) == Flatten(Deliveries(gone)) + n.delivered
  {
    assert Deliveries(gone + [n] + rest) == (Deliveries(gone) + [n.delivered]) + Deliveries(rest);
    FlattenAppend(Deliveries(gone) + [n.delivered], Deliveries(rest));
    FlattenOne(Deliveries(gone), n.delivered);
    UndeliveredFlatten(rest);
  }

  // ---- eviction ----

  lemma DropFirstKeeps(s: Store, ins: seq<seq<byte>>, out: seq<byte>)
    requires Consistent(s, ins, out) && s.all != []
    ensures Consistent(DropFirst(s, s.all[0]), ins, out)
  {
    var t := DropFirst(s, s.all[0]);
    assert History(t) == History(s);
  }

  lemma {:induction false} EvictKeeps(s: Store, ins: seq<seq<byte>>, out: seq<byte>)
    requires Consistent(s, ins, out)
    ensures Inv(Evict(s), ins, out)
    decreases |s.all|
  {
    if s.size > s.max && s.all != [] {
      DropFirstKeeps(s, ins, out);
      EvictKeeps(DropFirst(s, s.all[0]), ins, out);
    }
  }

  lemma InsertKeeps(s: Store, ins: seq<seq<byte>>, out: seq<byte>, data: seq<byte>)
    requires Inv(s, ins, out)
    ensures Inv(Insert(s, data), ins + [data], out)
  {
    var n := Fresh(data);
    var t := s.(all := s.all + [n], size := s.size + |data|);
    TotalAppend(s.all, [n]);
    assert History(t) == History(s) + [n];
    HistoryAppended(History(s), n);
    EvictKeeps(t, ins + [data], out);
  }

  lemma HistoryAppended(nodes: seq<Node>, n: Node)
    requires n.delivered == []
    ensures Arrivals(nodes + [n]) == Arrivals(nodes) + [n.arrived]
    ensures Flatten(Deliveries(nodes + [n])) == Flatten(Deliveries(nodes))
  {
    assert Deliveries(nodes + [n]) == Deliveries(nodes) + [[]];
    FlattenOne(Deliveries(nodes), []);
  }

  function Evicted(s: Store): (k: nat)
    ensures k <= |s.all|
    decreases |s.all|
  {
    if s.size > s.max && s.all != [] then 1 + Evicted(DropFirst(s, s.all[0])) else 0
  }

  // Eviction takes the oldest nodes.
  lemma {:induction false} EvictsOldest(s: Store)
    requires s.size == Total(s.all)
    ensures Evict(s) ==
      s.(all := s.all[Evicted(s)..], size := Total(s.all[Evicted(s)..]), gone := s.gone + s.all[..Evicted(s)])
    decreases |s.all|
  {
    if s.size > s.max && s.all != [] {
      var t := DropFirst(s, s.all[0]);
      EvictsOldest(t);
      assert t.all[Evicted(t)..] == s.all[Evicted(s)..];
      assert s.gone + [s.all[0]] + t.all[..Evicted(t)] == s.gone + s.all[..Evicted(s)];
    } else {
      assert s.all[0..] == s.all && s.gone + s.all[..0] == s.gone;
    }
  }

  // And no more of them than it must: with one fewer the list is too long.
  lemma {:induction false} EvictsLeast(s: Store, j: nat)
    requires s.size == Total(s.all) && j < Evicted(s)
    ensures Total(s.all[j..]) > s.max
    decreases |s.all|
  {
    if j == 0 {
      assert s.all[0..] == s.all;
    } else {
      var t := DropFirst(s, s.all[0]);
      EvictsLeast(t, j - 1);
      assert s.all[j..] == t.all[j - 1..];
    }
  }

  // ---- delivery ----

  lemma PrepareKeeps(s: Store, n: Node)
    requires (s.gen.Some? ==> Ready(s.gen.value)) && NodeInv(n)
    ensures NodeInv(Prepare(s, n).1)
    ensures var m := Prepare(s, n).1;
      m.arrived == n.arrived && m.delivered == n.delivered && m.readOff == n.readOff && |m.data| == |n.data|
    ensures Prepare(s, n).0 == s.(gen := Prepare(s, n).0.gen)
    ensures Prepare(s, n).0.gen.Some? ==> Ready(Prepare(s, n).0.gen.value)
  {
    if s.gen.Some? && !n.replaced { RegeneratedIsAlike(s.gen.value, n.data); }
  }

  lemma AdvancedKeeps(n: Node, k: nat)
    requires NodeInv(n) && n.readOff + k <= |n.data|
    ensures NodeInv(Advanced(n, k))
  {
    var m := Advanced(n, k);
    assert !n.replaced ==> m.delivered == n.arrived[..m.readOff];
  }

  lemma RestUndelivered(s: Store, ins: seq<seq<byte>>, out: seq<byte>)
    requires Consistent(s, ins, out) && s.all != []
    ensures forall m <- s.all[1..] :: m.delivered == []
  {
    forall i | 0 <= i < |s.all[1..]| ensures s.all[1..][i].delivered == [] {
      assert s.all[1..][i] == s.all[i + 1] && NodeInv(s.all[i + 1]);
    }
  }

  // The first node becomes n, which `part` has been delivered from.
  lemma HistoryGrows(gone: seq<Node>, first: Node, n: Node, rest: seq<Node>, part: seq<byte>)
    requires n.arrived == first.arrived && n.delivered == first.delivered + part
    requires forall m <- rest :: m.delivered == []
    ensures Arrivals(gone + [n] + rest) == Arrivals(gone + [first] + rest)
    ensures Flatten(Deliveries(gone + [n] + rest)) == Flatten(Deliveries(gone + [first] + rest)) + part
  {
    SplitDeliveries(gone, first, rest);
    SplitDeliveries(gone, n, rest);
    Associates(Flatten(Deliveries(gone)), first.delivered, part);
    SameArrivals(gone, first, n, rest);
  }

  lemma SameArrivals(gone: seq<Node>, first: Node, n: Node, rest: seq<Node>)
    requires n.arrived == first.arrived
    ensures Arrivals(gone + [n] + rest) == Arrivals(gone + [first] + rest)
  {
  }

  lemma FirstDropped(s: Store, ins: seq<seq<byte>>, out: seq<byte>, n: Node, part: seq<byte>, gen: Option<Generator>)
    requires Inv(s, ins, out) && s.all != [] && (gen.Some? ==> Ready(gen.value)) && NodeInv(n) && |n.data| == |s.all[0].data|
    requires n.arrived == s.all[0].arrived && n.delivered == s.all[0].delivered + part
    ensures Inv(DropFirst(s.(gen := gen), n), ins, out + part)
  {
    var u, tail := DropFirst(s.(gen := gen), n), s.all[1..];
    RestUndelivered(s, ins, out);
    HistoryGrows(s.gone, s.all[0], n, tail, part);
    assert History(s) == s.gone + [s.all[0]] + tail && History(u) == s.gone + [n] + tail;
  }

  lemma FirstStays(s: Store, ins: seq<seq<byte>>, out: seq<byte>, n: Node, part: seq<byte>, gen: Option<Generator>)
    requires Inv(s, ins, out) && s.all != [] && (gen.Some? ==> Ready(gen.value)) && NodeInv(n) && |n.data| == |s.all[0].data|
    requires n.arrived == s.all[0].arrived && n.delivered == s.all[0].delivered + part
    ensures Inv(s.(gen := gen, all := [n] + s.all[1..]), ins, out + part)
  {
    var tail := s.all[1..];
    var u := s.(gen := gen, all := [n] + tail);
    RestUndelivered(s, ins, out);
    HistoryGrows(s.gone, s.all[0], n, tail, part);
    assert History(s) == s.gone + [s.all[0]] + tail && History(u) == s.gone + [n] + tail;
    assert u.all[1..] == tail;
  }

  lemma TakeKeeps(s: Store, ins: seq<seq<byte>>, out: seq<byte>, t: Store, n: Node, remain: nat)
    requires Inv(s, ins, out) && s.all != [] && t == s.(gen := t.gen) && (t.gen.Some? ==> Ready(t.gen.value))
    requires NodeInv(n) && n.arrived == s.all[0].arrived && n.delivered == s.all[0].delivered && |n.data| == |s.all[0].data|
    ensures var (u, part, rest) := Take(t, n, remain);
      Inv(u, ins, out + part) && |part| + rest == remain
  {
    var left := |n.data| - n.readOff;
    var k := if remain > left then left else remain;
    var m, part := Advanced(n, k), n.data[n.readOff..n.readOff + k];
    AdvancedKeeps(n, k);
    if remain > left {
      FirstDropped(s, ins, out, m, part, t.gen);
      assert Take(t, n, remain) == (DropFirst(t, m), part, remain - k);
    } else {
      FirstStays(s, ins, out, m, part, t.gen);
      assert Take(t, n, remain) == (t.(all := [m] + t.all[1..]), part, remain - k);
    }
  }

  lemma VisitKeeps(s: Store, ins: seq<seq<byte>>, out: seq<byte>, remain: nat)
    requires Inv(s, ins, out) && s.all != []
    ensures var (t, part, rest) := Visit(s, remain);
      Inv(t, ins, out + part) && |part| + rest == remain
  {
    PrepareKeeps(s, s.all[0]);
    var (t, n) := Prepare(s, s.all[0]);
    TakeKeeps(s, ins, out, t, n, remain);
  }

  lemma {:induction false} PassKeeps(s: Store, ins: seq<seq<byte>>, out: seq<byte>, remain: nat)
    requires Inv(s, ins, out)
    ensures var (t, part, rest) := Pass(s, remain);
      Inv(t, ins, out + part) && |part| + rest == remain && (rest > 0 ==> t.all == [])
    decreases |s.all|
  {
    if s.all == [] || remain == 0 {
      assert out + [] == out;
    } else {
      VisitKeeps(s, ins, out, remain);
      VisitUsable(s, remain);
      var (t, part, rest) := Visit(s, remain);
      if rest > 0 {
        PassKeeps(t, ins, out + part, rest);
        var (u, more, last) := Pass(t, rest);
        assert out + (part + more) == (out + part) + more;
      }
    }
  }

  lemma {:induction false} InsertAllKeeps(s: Store, ins: seq<seq<byte>>, out: seq<byte>, nodes: seq<seq<byte>>)
    requires Inv(s, ins, out)
    ensures Inv(InsertAll(s, nodes), ins + nodes, out)
    decreases |nodes|
  {
    if nodes == [] {
      assert ins + [] == ins;
    } else {
      InsertKeeps(s, ins, out, nodes[0]);
      InsertAllKeeps(Insert(s, nodes[0]), ins + [nodes[0]], out, nodes[1..]);
      assert ins + [nodes[0]] + nodes[1..] == ins + nodes;
    }
  }

  // What is kept of a read of `remain` bytes, with r its outcome: the store, the bytes
  // delivered, those still wanted, and how often the reader waited.
  ghost predicate ReadKeeps(r: (Store, seq<byte>, nat, nat), ins: seq<seq<byte>>, out: seq<byte>, remain: nat,
                            feed: seq<seq<seq<byte>>>)
  {
    && r.3 <= |feed| && |r.1| + r.2 == remain && (r.2 > 0 ==> r.3 == |feed|)
    && (r.2 > 0 && feed != [] ==> r.0.all == [])
    && Inv(r.0, ins + Flatten(feed[..r.3]), out + r.1)
  }

  // A whole read delivers what it was asked for, once and in order, with whatever the
  // producer inserts between its passes; while bytes are still wanted the list is empty.
  lemma {:induction false} ReadAllKeeps(s: Store, ins: seq<seq<byte>>, out: seq<byte>, remain: nat,
                                        feed: seq<seq<seq<byte>>>)
    requires Inv(s, ins, out)
    ensures ReadKeeps(ReadAll(s, remain, feed), ins, out, remain, feed)
    decreases |feed|
  {
    if remain == 0 || feed == [] {
      assert out + [] == out && ins + [] == ins && feed[..0] == [];
    } else {
      FirstPassKeeps(s, ins, out, remain, feed[0]);
      var (u, part, rest) := Pass(InsertAll(s, feed[0]), remain);
      ReadAllKeeps(u, ins + feed[0], out + part, rest, feed[1..]);
      var r := ReadAll(u, rest, feed[1..]);
      ReadAllUnfolds(s, remain, feed, u, part, rest, r);
      ReadKeepsOn(ins, out, remain, feed, u, part, rest, r);
    }
  }

  lemma ReadAllUnfolds(s: Store, remain: nat, feed: seq<seq<seq<byte>>>, u: Store, part: seq<byte>, rest: nat,
                       r: (Store, seq<byte>, nat, nat))
    requires Usable(s) && remain > 0 && feed != [] && Usable(InsertAll(s, feed[0])) && Usable(u)
    requires (u, part, rest) == Pass(InsertAll(s, feed[0]), remain) && r == ReadAll(u, rest, feed[1..])
    ensures ReadAll(s, remain, feed) == (r.0, part + r.1, r.2, 1 + r.3)
    ensures feed[1..] == [] ==> r.0 == u && r.2 == rest
  {
  }

  lemma ReadKeepsOn(ins: seq<seq<byte>>, out: seq<byte>, remain: nat, feed: seq<seq<seq<byte>>>,
                    u: Store, part: seq<byte>, rest: nat, r: (Store, seq<byte>, nat, nat))
    requires feed != [] && |part| + rest == remain && (rest > 0 ==> u.all == [])
    requires feed[1..] == [] ==> r.0 == u && r.2 == rest
    requires ReadKeeps(r, ins + feed[0], out + part, rest, feed[1..])
    ensures ReadKeeps((r.0, part + r.1, r.2, 1 + r.3), ins, out, remain, feed)
  {
    Associates(out, part, r.1);
    FeedUsed(ins, feed, r.3);
  }

  lemma FirstPassKeeps(s: Store, ins: seq<seq<byte>>, out: seq<byte>, remain: nat, nodes: seq<seq<byte>>)
    requires Inv(s, ins, out)
    ensures Usable(InsertAll(s, nodes))
    ensures var (u, part, rest) := Pass(InsertAll(s, nodes), remain);
      Inv(u, ins + nodes, out + part) && |part| + rest == remain && (rest > 0 ==> u.all == [])
  {
    InsertAllKeeps(s, ins, out, nodes);
    PassKeeps(InsertAll(s, nodes), ins + nodes, out, remain);
  }

  lemma FeedUsed(ins: seq<seq<byte>>, feed: seq<seq<seq<byte>>>, used: nat)
    requires feed != [] && used < |feed|
    ensures ins + feed[0] + Flatten(feed[1..][..used]) == ins + Flatten(feed[..1 + used])
  {
    assert feed[..1 + used][1..] == feed[1..][..used];
    Associates(ins, feed[0], Flatten(feed[1..][..used]));
  }

  // ---- every run ----

  datatype Event = Arrive(data: seq<byte>) | Read(remain: nat) | Generate(g: Generator)

  predicate Acceptable(e: Event) { e.Generate? ==> Ready(e.g) }

  function Apply(s: Store, e: Event): (Store, seq<byte>)
    requires Usable(s)
  {
    match e
    case Arrive(data) => (Insert(s, data), [])
    case Read(remain) => var (t, part, rest) := Pass(s, remain); (t, part)
    case Generate(g) => (s.(gen := Some(g)), [])
  }

  lemma ApplyKeeps(s: Store, ins: seq<seq<byte>>, out: seq<byte>, e: Event)
    requires Inv(s, ins, out) && Acceptable(e)
    ensures Inv(Apply(s, e).0, if e.Arrive? then ins + [e.data] else ins, out + Apply(s, e).1)
  {
    assert out + [] == out;
    match e {
      case Arrive(data) => InsertKeeps(s, ins, out, data);
      case Read(remain) => PassKeeps(s, ins, out, remain);
      case Generate(g) =>
    }
  }

  function Inserted(es: seq<Event>): seq<seq<byte>> {
    if es == [] then []
    else
      var e := es[|es| - 1];
      var ins := Inserted(es[..|es| - 1]);
      if e.Arrive? then ins + [e.data] else ins
  }

  function Initial(max: nat): Store { Store([], 0, max, None, []) }

  // The store after a run, and everything delivered in it.
  function Run(max: nat, es: seq<Event>): (r: (Store, seq<byte>))
    requires forall e <- es :: Acceptable(e)
    ensures Inv(r.0, Inserted(es), r.1)
  {
    if es == [] then (Initial(max), [])
    else
      var (s, out) := Run(max, es[..|es| - 1]);
      var e := es[|es| - 1];
      ApplyKeeps(s, Inserted(es[..|es| - 1]), out, e);
      var (t, part) := Apply(s, e);
      (t, out + part)
  }

  // d is a prefix of the arrived bytes, with nothing changed outside the packets of
  // the grid that carry one of the tables.
  ghost predicate OnlyService(a: seq<byte>, d: seq<byte>) {
    |d| <= |a| && forall i: nat :: i < |d| && a[i] != d[i] ==> Service(a, i - i % TS_SIZE)
  }

  lemma AlikeOnGrid(a: seq<byte>, d: seq<byte>)
    requires AlikePrefix(a, d) && Aligned(a) && Whole(a)
    ensures OnlyService(a, d)
  {
    forall i: nat | i < |d| && a[i] != d[i] ensures Service(a, i - i % TS_SIZE) {
      GridPackets(a, i);
    }
  }

  // Each inserted node is freed or still queued, oldest freed first; what readers
  // had is a prefix of each, in order of insertion, and so is what they will get of
  // the queued ones, but for packets that carry one of the tables; the sizes add up,
  // within the limit.
  lemma EveryRunConserves(max: nat, es: seq<Event>)
    requires forall e <- es :: Acceptable(e)
    ensures var (s, out) := Run(max, es);
      && s.size == Total(s.all) <= s.max
      && Arrivals(s.gone) + Arrivals(s.all) == Inserted(es)
      && out == Flatten(Deliveries(s.gone)) + Flatten(Deliveries(s.all))
      && (forall n <- s.gone + s.all :: AlikePrefix(n.arrived, n.delivered))
      && (forall n <- s.all :: Alike(n.arrived, n.data) && |n.delivered| == n.readOff <= |n.data|)
  {
    var (s, out) := Run(max, es);
    SplitHistory(s);
    NodesOf(s, Inserted(es), out);
  }

  lemma SplitHistory(s: Store)
    ensures Arrivals(History(s)) == Arrivals(s.gone) + Arrivals(s.all)
    ensures Flatten(Deliveries(History(s))) == Flatten(Deliveries(s.gone)) + Flatten(Deliveries(s.all))
  {
    assert Deliveries(History(s)) == Deliveries(s.gone) + Deliveries(s.all);
    FlattenAppend(Deliveries(s.gone), Deliveries(s.all));
  }

  lemma NodesOf(s: Store, ins: seq<seq<byte>>, out: seq<byte>)
    requires Inv(s, ins, out)
    ensures forall n <- s.gone + s.all :: AlikePrefix(n.arrived, n.delivered)
    ensures forall n <- s.all :: Alike(n.arrived, n.data) && |n.delivered| == n.readOff <= |n.data|
  {
    forall n | n in s.gone + s.all ensures NodeInv(n) {}
  }

  // For nodes of whole aligned packets, as the realignment makes them, only packets
  // of the grid that carry one of the tables differ.
  lemma EveryRunChangesOnlyService(max: nat, es: seq<Event>)
    requires forall e <- es :: Acceptable(e)
    requires forall a <- Inserted(es) :: Aligned(a) && Whole(a)
    ensures var s := Run(max, es).0;
      && (forall n <- s.gone + s.all :: OnlyService(n.arrived, n.delivered))
      && (forall n <- s.all :: OnlyService(n.arrived, n.data))
  {
    var s := Run(max, es).0;
    EveryRunConserves(max, es);
    forall i | 0 <= i < |History(s)| ensures Aligned(History(s)[i].arrived) && Whole(History(s)[i].arrived) {
      assert Arrivals(History(s))[i] == History(s)[i].arrived;
    }
    forall n | n in s.gone + s.all ensures OnlyService(n.arrived, n.delivered) {
      AlikeOnGrid(n.arrived, n.delivered);
    }
    forall n | n in s.all ensures OnlyService(n.arrived, n.data) {
      assert n in History(s);
      AlikeOnGrid(n.arrived, n.data);
    }
  }

  lemma VisitFrees(s: Store, remain: nat)
    requires Usable(s) && s.all != [] && NodeInv(s.all[0])
    ensures var (t, part, rest) := Visit(s, remain);
      if rest == 0 then t.gone == s.gone
      else exists m :: t.gone == s.gone + [m] && |m.delivered| == |m.arrived|
  {
    PrepareKeeps(s, s.all[0]);
    var (t, n) := Prepare(s, s.all[0]);
    var m := Advanced(n, |n.data| - n.readOff);
    if remain > |n.data| - n.readOff {
      assert Take(t, n, remain).0.gone == s.gone + [m];
    }
  }

  // A reader frees only nodes it has read to the end.
  lemma {:induction false} ReadersFreeOnlyReadNodes(s: Store, ins: seq<seq<byte>>, out: seq<byte>, remain: nat)
    requires Inv(s, ins, out)
    ensures var t := Pass(s, remain).0;
      s.gone <= t.gone && forall i :: |s.gone| <= i < |t.gone| ==> |t.gone[i].delivered| == |t.gone[i].arrived|
    decreases |s.all|
  {
    if s.all != [] && remain > 0 {
      VisitKeeps(s, ins, out, remain);
      VisitUsable(s, remain);
      VisitFrees(s, remain);
      var (t, part, rest) := Visit(s, remain);
      if rest > 0 { ReadersFreeOnlyReadNodes(t, ins, out + part, rest); }
    }
  }

  // ---- without replacement, and without eviction ----

  function Pending(nodes: seq<Node>): seq<byte>
    requires forall n <- nodes :: n.readOff <= |n.data|
  {
    if nodes == [] then [] else nodes[0].data[nodes[0].readOff..] + Pending(nodes[1..])
  }

  lemma {:induction false} PendingIsArrived(nodes: seq<Node>)
    requires forall n <- nodes :: NodeInv(n) && !n.replaced && n.readOff == 0
    ensures Pending(nodes) == Flatten(Arrivals(nodes))
  {
    if nodes != [] {
      PendingIsArrived(nodes[1..]);
      assert Arrivals(nodes)[1..] == Arrivals(nodes[1..]);
      assert nodes[0].data[0..] == nodes[0].arrived;
    }
  }

  // When no table was replaced and every freed node had been read, what was
  // delivered followed by what is queued is exactly what was inserted.
  lemma NothingIsLost(s: Store, ins: seq<seq<byte>>, out: seq<byte>)
    requires Inv(s, ins, out) && (forall n <- History(s) :: !n.replaced)
    requires forall n <- s.gone :: |n.delivered| == |n.arrived|
    ensures out + Pending(s.all) == Flatten(ins)
  {
    forall i | 0 <= i < |s.gone| ensures s.gone[i].delivered == s.gone[i].arrived {
      assert NodeInv(s.gone[i]) && s.gone[i] in History(s);
    }
    assert Deliveries(s.gone) == Arrivals(s.gone);
    SplitHistory(s);
    FlattenAppend(Arrivals(s.gone), Arrivals(s.all));
    QueueKeepsAll(s, ins, out);
    Associates(Flatten(Arrivals(s.gone)), Flatten(Deliveries(s.all)), Pending(s.all));
  }

  lemma ReadAndUnread(n: Node)
    requires NodeInv(n) && !n.replaced
    ensures n.delivered + n.data[n.readOff..] == n.arrived
  {
    assert n.arrived[..n.readOff] + n.arrived[n.readOff..] == n.arrived;
  }

  lemma QueueKeepsAll(s: Store, ins: seq<seq<byte>>, out: seq<byte>)
    requires Inv(s, ins, out) && (forall n <- s.all :: !n.replaced)
    ensures Flatten(Deliveries(s.all)) + Pending(s.all) == Flatten(Arrivals(s.all))
  {
    if s.all != [] {
      var n, rest := s.all[0], s.all[1..];
      RestUndelivered(s, ins, out);
      RestIsPending(s, ins, out);
      assert [] + [n] + rest == s.all;
      SplitDeliveries([], n, rest);
      FirstArrival(s.all);
      ReadAndUnread(n);
      Associates(n.delivered, n.data[n.readOff..], Pending(rest));
    }
  }

  lemma FirstArrival(nodes: seq<Node>)
    requires nodes != []
    ensures Flatten(Arrivals(nodes)) == nodes[0].arrived + Flatten(Arrivals(nodes[1..]))
  {
    assert Arrivals(nodes)[1..] == Arrivals(nodes[1..]);
  }

  lemma RestIsPending(s: Store, ins: seq<seq<byte>>, out: seq<byte>)
    requires Inv(s, ins, out) && s.all != [] && (forall n <- s.all :: !n.replaced)
    ensures (forall m <- s.all[1..] :: m.readOff <= |m.data|) && Pending(s.all[1..]) == Flatten(Arrivals(s.all[1..]))
  {
    RestUndelivered(s, ins, out);
    forall m | m in s.all[1..] ensures NodeInv(m) && !m.replaced && m.readOff == 0 {
      assert m in s.all && m.delivered == [];
    }
    PendingIsArrived(s.all[1..]);
  }
}
