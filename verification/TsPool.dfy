// The pool of u_drv_data.c as it changes in place: the saved tail, the queue from
// the USB callback to the processing thread, and the list that readers drain.
module TsPool {
  import opened Bytes
  import opened TsRealign
  import opened PatReplacement
  import opened TsList

  const LIST_SIZE_DEFAULT: nat := 1024 * 1024 * 128

  // C division truncates toward zero.
  function TruncatedQuotient(a: int, b: int): int
    requires b > 0
  {
    if a >= 0 then a / b else -(-a / b)
  }

  function Head(tail: seq<byte>, c: Chunk, entry: nat): seq<byte>
    requires entry <= |c.data|
  {
    if entry + |tail| == TS_SIZE then tail + c.data[..entry] else []
  }

  // The pieces that the code copies make up the whole packets and the tail.
  lemma CutIsOut(t: seq<byte>, c: Chunk, entry: nat, cnt: int)
    requires Sound(c) && Used(c) && |t| < TS_SIZE && entry == Entry(t, c)
    requires cnt == TruncatedQuotient(c.len - entry, TS_SIZE)
    ensures cnt >= 0 && entry + cnt * TS_SIZE <= |c.data|
    ensures Head(t, c, entry) + c.data[entry..entry + cnt * TS_SIZE] == Out(t, c)
    ensures Rest(t, c) == if entry + cnt * TS_SIZE < c.len then c.data[entry + cnt * TS_SIZE..c.len] else []
  {
    var k, cut := Kept(t, c), entry + cnt * TS_SIZE;
    if entry > c.len {
      assert cnt == 0 && c.data[entry..cut] == [];
      assert k == Head(t, c, entry) && |k| == TS_SIZE;
      WholeUnique(k, 1, 0);
    } else {
      var left := c.len - cut;
      assert 0 <= left < TS_SIZE;
      KeptInPieces(t, c, entry, cut);
      WholeUnique(k, if entry + |t| == TS_SIZE then cnt + 1 else cnt, left);
    }
  }

  lemma KeptInPieces(t: seq<byte>, c: Chunk, entry: nat, cut: nat)
    requires Sound(c) && |t| < TS_SIZE && entry == Entry(t, c) && entry <= cut <= c.len
    ensures Kept(t, c) == Head(t, c, entry) + c.data[entry..cut] + c.data[cut..c.len]
  {
    assert c.data[entry..c.len] == c.data[entry..cut] + c.data[cut..c.len];
    if entry + |t| == TS_SIZE {
      assert c.data[..c.len] == c.data[..entry] + c.data[entry..c.len];
    }
  }

  lemma WholeUnique(k: seq<byte>, n: nat, left: nat)
    requires |k| == n * TS_SIZE + left && left < TS_SIZE
    ensures WholeLength(k) == n * TS_SIZE
  {
  }

  // A pass over s0 has copied `got` out, and is now at s with `rest` still wanted.
  ghost predicate Reading(s0: Store, remain: nat, s: Store, got: seq<byte>, rest: nat)
    requires Usable(s0)
  {
    && Usable(s) && |got| + rest == remain
    && Pass(s0, remain) == (Pass(s, rest).0, got + Pass(s, rest).1, Pass(s, rest).2)
  }

  lemma ReadingStarts(s0: Store, remain: nat)
    requires Usable(s0)
    ensures Reading(s0, remain, s0, [], remain)
  {
    assert [] + Pass(s0, remain).1 == Pass(s0, remain).1;
  }

  lemma ReadingGoesOn(s0: Store, remain: nat, s: Store, got: seq<byte>, want: nat, t: Store, part: seq<byte>, rest: nat)
    requires Usable(s0) && Reading(s0, remain, s, got, want) && s.all != [] && want > 0
    requires (t, part, rest) == Visit(s, want) && |part| == want - rest
    ensures Reading(s0, remain, t, got + part, rest) && (|t.all| < |s.all| || rest == 0)
  {
    VisitUsable(s, want);
    var more := Pass(t, rest).1;
    assert got + (part + more) == (got + part) + more;
    assert part + [] == part;
  }

  lemma ReadingEnds(s0: Store, remain: nat, s: Store, got: seq<byte>, rest: nat)
    requires Usable(s0) && Reading(s0, remain, s, got, rest) && (s.all == [] || rest == 0)
    ensures Pass(s0, remain) == (s, got, rest)
  {
    assert got + [] == got;
  }

  lemma OverwriteTwice(d: seq<byte>, at: nat, got: seq<byte>, part: seq<byte>)
    requires at + |got| + |part| <= |d|
    ensures Overwrite(Overwrite(d, at, got), at + |got|, part) == Overwrite(d, at, got + part)
  {
    var e := Overwrite(d, at, got);
    assert e[..at + |got|] == d[..at] + got;
    assert e[at + |got| + |part|..] == d[at + |got| + |part|..];
  }

  // memcpy(dst + at, part, |part|)
  method CopyTo(dst: array<byte>, at: nat, part: seq<byte>)
    requires at + |part| <= dst.Length
    modifies dst
    ensures dst[..] == Overwrite(old(dst[..]), at, part)
  {
    var i := 0;
    while i < |part|
      invariant 0 <= i <= |part|
      invariant forall j :: 0 <= j < dst.Length ==> dst[j] == if at <= j < at + i then part[j - at] else old(dst[j])
    {
      dst[at + i] := part[i];
      i := i + 1;
    }
  }

  // ---- the hooks ----

  // The calls for one node: each packet whose PID has a hook, in order.
  function HookCalls(data: seq<byte>, hooks: nat -> bool): seq<(nat, seq<byte>)>
    decreases |data|
  {
    if |data| < TS_SIZE then []
    else
      (if hooks(Pid(data, 0)) then [(Pid(data, 0), data[..TS_SIZE])] else []) + HookCalls(data[TS_SIZE..], hooks)
  }

  function Packets(calls: seq<(nat, seq<byte>)>): seq<byte> {
    if calls == [] then [] else calls[0].1 + Packets(calls[1..])
  }

  // With a hook on every PID, the packets handed out are the whole node.
  lemma {:induction false} EveryPacketIsHooked(data: seq<byte>, hooks: nat -> bool)
    requires Whole(data) && forall pid: nat :: hooks(pid)
    ensures Packets(HookCalls(data, hooks)) == data
    decreases |data|
  {
    if |data| >= TS_SIZE {
      EveryPacketIsHooked(data[TS_SIZE..], hooks);
      var calls := HookCalls(data, hooks);
      assert calls[1..] == HookCalls(data[TS_SIZE..], hooks);
    }
  }

  function OneCall(pkt: seq<byte>, hooks: nat -> bool): seq<(nat, seq<byte>)>
    requires |pkt| == TS_SIZE
  {
    if hooks(Pid(pkt, 0)) then [(Pid(pkt, 0), pkt)] else []
  }

  // The hooked packets before offset o.
  function Hooked(data: seq<byte>, hooks: nat -> bool, o: nat): nat
    decreases |data|
  {
    if o < TS_SIZE || |data| < TS_SIZE then 0
    else (if hooks(Pid(data, 0)) then 1 else 0) + Hooked(data[TS_SIZE..], hooks, o - TS_SIZE)
  }

  // If the packet at o is hooked, it is the k-th call.
  ghost predicate CalledAt(data: seq<byte>, hooks: nat -> bool, o: nat, calls: seq<(nat, seq<byte>)>, k: nat) {
    && k <= |calls|
    && (o + TS_SIZE <= |data| && hooks(Pid(data, o)) ==> k < |calls| && calls[k] == (Pid(data, o), data[o..o + TS_SIZE]))
  }

  // The calls are the hooked packets, each once and in order, and nothing else.
  lemma {:induction false} HookedPacketsAreCalled(data: seq<byte>, hooks: nat -> bool, o: nat)
    requires Whole(data) && o % TS_SIZE == 0 && o <= |data|
    ensures |HookCalls(data, hooks)| == Hooked(data, hooks, |data|)
    ensures CalledAt(data, hooks, o, HookCalls(data, hooks), Hooked(data, hooks, o))
    decreases |data|
  {
    if |data| >= TS_SIZE {
      var rest := data[TS_SIZE..];
      var more := HookCalls(rest, hooks);
      CallsHead(data, hooks);
      OneOrNone(data, hooks);
      if o == 0 {
        HookedPacketsAreCalled(rest, hooks, 0);
        CalledFirst(data, hooks, more);
      } else {
        HookedPacketsAreCalled(rest, hooks, o - TS_SIZE);
        CalledLater(data, hooks, o, rest, more, Hooked(rest, hooks, o - TS_SIZE));
      }
    }
  }

  lemma OneOrNone(data: seq<byte>, hooks: nat -> bool)
    requires |data| >= TS_SIZE
    ensures |OneCall(data[..TS_SIZE], hooks)| == if hooks(Pid(data, 0)) then 1 else 0
  {
    assert Pid(data[..TS_SIZE], 0) == Pid(data, 0);
  }

  lemma CalledFirst(data: seq<byte>, hooks: nat -> bool, more: seq<(nat, seq<byte>)>)
    requires |data| >= TS_SIZE
    ensures CalledAt(data, hooks, 0, OneCall(data[..TS_SIZE], hooks) + more, 0)
  {
    assert Pid(data[..TS_SIZE], 0) == Pid(data, 0) && data[0..TS_SIZE] == data[..TS_SIZE];
  }

  lemma CalledLater(data: seq<byte>, hooks: nat -> bool, o: nat, rest: seq<byte>, more: seq<(nat, seq<byte>)>, k: nat)
    requires TS_SIZE <= o <= |data| && rest == data[TS_SIZE..] && CalledAt(rest, hooks, o - TS_SIZE, more, k)
    ensures var one := OneCall(data[..TS_SIZE], hooks); CalledAt(data, hooks, o, one + more, |one| + k)
  {
    if o + TS_SIZE <= |data| {
      assert Pid(rest, o - TS_SIZE) == Pid(data, o) && rest[o - TS_SIZE..o] == data[o..o + TS_SIZE];
    }
  }

  lemma CallsStep(data: seq<byte>, hooks: nat -> bool, i: nat, calls: seq<(nat, seq<byte>)>)
    requires i + TS_SIZE <= |data|
    ensures calls + HookCalls(data[i..], hooks) ==
      calls + OneCall(data[i..i + TS_SIZE], hooks) + HookCalls(data[i + TS_SIZE..], hooks)
  {
    var rest := data[i..];
    assert rest[..TS_SIZE] == data[i..i + TS_SIZE] && rest[TS_SIZE..] == data[i + TS_SIZE..];
    CallsHead(rest, hooks);
    Associates(calls, OneCall(rest[..TS_SIZE], hooks), HookCalls(rest[TS_SIZE..], hooks));
  }

  lemma CallsHead(rest: seq<byte>, hooks: nat -> bool)
    requires |rest| >= TS_SIZE
    ensures HookCalls(rest, hooks) == OneCall(rest[..TS_SIZE], hooks) + HookCalls(rest[TS_SIZE..], hooks)
  {
    assert Pid(rest[..TS_SIZE], 0) == Pid(rest, 0);
  }

  // The loop of process_ts over a node of whole packets.
  method RunHooks(data: seq<byte>, hooks: nat -> bool) returns (calls: seq<(nat, seq<byte>)>)
    requires Whole(data)
    ensures calls == HookCalls(data, hooks)
  {
    calls := [];
    var i := 0;
    assert data[0..] == data && calls + HookCalls(data, hooks) == HookCalls(data, hooks);
    while i < |data|
      invariant 0 <= i <= |data| && i % TS_SIZE == 0
      invariant calls + HookCalls(data[i..], hooks) == HookCalls(data, hooks)
    {
      MorePackets(|data|, i);
      CallsStep(data, hooks, i, calls);
      var called := RunHook(data[i..i + TS_SIZE], hooks);
      calls := calls + called;
      i := i + TS_SIZE;
    }
    NoMoreCalls(data[i..], hooks, calls);
  }

  lemma NoMoreCalls(rest: seq<byte>, hooks: nat -> bool, calls: seq<(nat, seq<byte>)>)
    requires rest == []
    ensures calls + HookCalls(rest, hooks) == calls
  {
  }

  method RunHook(pkt: seq<byte>, hooks: nat -> bool) returns (called: seq<(nat, seq<byte>)>)
    requires |pkt| == TS_SIZE
    ensures called == OneCall(pkt, hooks)
  {
    var pid := Pid(pkt, 0);
    called := if hooks(pid) then [(pid, pkt)] else [];
  }

  lemma MorePackets(size: nat, i: nat)
    requires size % TS_SIZE == 0 && i % TS_SIZE == 0 && i < size
    ensures i + TS_SIZE <= size && (i + TS_SIZE) % TS_SIZE == 0
  {
  }

  // ---- a read in progress ----

  // After k passes of a read over s0 the reader has `got`, still wants `remain`, and
  // the store is s.
  ghost predicate ReadingAll(s0: Store, size: nat, feed: seq<seq<seq<byte>>>,
                             s: Store, got: seq<byte>, remain: nat, left: seq<seq<seq<byte>>>, k: nat)
    requires Usable(s0)
  {
    && Usable(s)
    && var (t, bytes, rest, used) := ReadAll(s, remain, left);
       ReadAll(s0, size, feed) == (t, got + bytes, rest, k + used)
  }

  lemma ReadAllStarts(s0: Store, size: nat, feed: seq<seq<seq<byte>>>)
    requires Usable(s0)
    ensures ReadingAll(s0, size, feed, s0, [], size, feed[0..], 0)
  {
    assert feed[0..] == feed;
    assert [] + ReadAll(s0, size, feed).1 == ReadAll(s0, size, feed).1;
  }

  lemma ReadAllGoesOn(s0: Store, size: nat, feed: seq<seq<seq<byte>>>, s: Store, got: seq<byte>, remain: nat,
                      left: seq<seq<seq<byte>>>, k: nat, u: Store, part: seq<byte>, rest: nat)
    requires Usable(s0) && ReadingAll(s0, size, feed, s, got, remain, left, k) && remain > 0 && left != []
    requires Usable(InsertAll(s, left[0])) && (u, part, rest) == Pass(InsertAll(s, left[0]), remain)
    ensures ReadingAll(s0, size, feed, u, got + part, rest, left[1..], k + 1)
  {
    PassUsable(InsertAll(s, left[0]), remain);
    var r := ReadAll(u, rest, left[1..]);
    ReadAllUnfolds(s, remain, left, u, part, rest, r);
    OutcomeOn(ReadAll(s0, size, feed), got, part, k, r);
  }

  lemma OutcomeOn(all: (Store, seq<byte>, nat, nat), got: seq<byte>, part: seq<byte>, k: nat, r: (Store, seq<byte>,
                  nat, nat))
    requires all == (r.0, got + (part + r.1), r.2, k + (1 + r.3))
    ensures all == (r.0, got + part + r.1, r.2, k + 1 + r.3)
  {
    Associates(got, part, r.1);
  }

  lemma ReadAllEnds(s0: Store, size: nat, feed: seq<seq<seq<byte>>>, s: Store, got: seq<byte>, remain: nat,
                    left: seq<seq<seq<byte>>>, k: nat)
    requires Usable(s0) && ReadingAll(s0, size, feed, s, got, remain, left, k) && (remain == 0 || left == [])
    ensures ReadAll(s0, size, feed) == (s, got, remain, k)
  {
    assert got + [] == got;
  }

  class Pool {
    const tail: array<byte>
    var tailSize: nat
    var waiting: seq<seq<byte>>
    var all: seq<Node>
    var size: int
    const max: nat
    var gen: Option<Generator>
    ghost var gone: seq<Node>

    predicate Valid()
      reads this
    {
      tail.Length == TS_SIZE && tailSize < TS_SIZE && forall node <- waiting :: Whole(node)
    }

    ghost function Tail(): seq<byte>
      requires Valid()
      reads this, tail
    {
      tail[..tailSize]
    }

    ghost function View(): Store
      reads this
    {
      Store(all, size, max, gen, gone)
    }

    // pool_init
    constructor (sizeMax: int)
      ensures Valid() && Tail() == [] && waiting == [] && fresh(tail)
      ensures View() == Initial(max) && max == if sizeMax <= LIST_SIZE_DEFAULT then LIST_SIZE_DEFAULT else sizeMax
    {
      tail := new byte[TS_SIZE](_ => 0);
      tailSize, waiting, all, size, gen := 0, [], [], 0, None;
      max := if sizeMax <= LIST_SIZE_DEFAULT then LIST_SIZE_DEFAULT else sizeMax;
      gone := [];
    }

    // memcpy into the saved tail
    method SaveTail(bytes: seq<byte>)
      requires Valid() && |bytes| < TS_SIZE
      modifies `tailSize, tail
      ensures Valid() && Tail() == bytes
    {
      var i := 0;
      while i < |bytes|
        invariant 0 <= i <= |bytes| && tail[..i] == bytes[..i]
      {
        tail[i] := bytes[i];
        i := i + 1;
      }
      tailSize := |bytes|;
    }

    // The body of record_callback's loop over the isochronous packets.
    method TakeChunk(c: Chunk, node: seq<byte>) returns (r: seq<byte>)
      requires Valid() && Sound(c)
      modifies `tailSize, tail
      ensures Valid() && r == node + Out(old(Tail()), c) && Tail() == Rest(old(Tail()), c)
    {
      if !c.completed || c.len <= 0 { return node; }
      ghost var t := Tail();
      var tsOff := FindEntry(c);
      if tsOff < 0 { return node; }
      var cnt := TruncatedQuotient(c.len - tsOff, TS_SIZE);
      CutIsOut(t, c, tsOff, cnt);
      r := node;
      if tsOff + tailSize == TS_SIZE {
        r := r + (tail[..tailSize] + c.data[..tsOff]);
      }
      tailSize := 0;
      r := r + c.data[tsOff..tsOff + cnt * TS_SIZE];
      Associates(node, Head(t, c, tsOff), c.data[tsOff..tsOff + cnt * TS_SIZE]);
      if tsOff + cnt * TS_SIZE < c.len {
        SaveTail(c.data[tsOff + cnt * TS_SIZE..c.len]);
      }
    }

    method FindEntry(c: Chunk) returns (tsOff: int)
      requires Valid() && Sound(c)
      ensures tsOff == Entry(Tail(), c)
    {
      if c.data[TS_SIZE - tailSize] == TS_SYNC {
        tsOff := TS_SIZE - tailSize;
      } else {
        tsOff := NextTsOff(c.data, c.len);
      }
    }

    // record_callback, for a transfer that was neither cancelled nor failed
    method RecordCallback(cs: seq<Chunk>)
      requires Valid() && AllSound(cs)
      modifies this, tail
      ensures Valid() && View() == old(View())
      ensures waiting == old(waiting) + [Realign(old(Tail()), cs).0]
      ensures Tail() == Realign(old(Tail()), cs).1
    {
      var node := [];
      var i := 0;
      while i < |cs|
        invariant 0 <= i <= |cs| && Valid() && View() == old(View()) && waiting == old(waiting)
        invariant (node, Tail()) == Realign(old(Tail()), cs[..i])
      {
        assert cs[..i + 1][..i] == cs[..i] && cs[..i + 1][i] == cs[i];
        node := TakeChunk(cs[i], node);
        i := i + 1;
      }
      assert cs[..i] == cs;
      waiting := waiting + [node];
    }

    // One round of process_ts: the hooks see the oldest waiting node, which then goes
    // to the readers' list.
    method ProcessTs(hooks: nat -> bool) returns (calls: seq<(nat, seq<byte>)>)
      requires Valid()
      modifies `waiting, `all, `size, `gone
      ensures Valid() && Tail() == old(Tail())
      ensures old(waiting) == [] ==> calls == [] && waiting == [] && View() == old(View())
      ensures old(waiting) != [] ==>
        calls == HookCalls(old(waiting)[0], hooks) && waiting == old(waiting)[1..]
        && View() == Insert(old(View()), old(waiting)[0])
    {
      if waiting == [] { return []; }
      var data := waiting[0];
      waiting := waiting[1..];
      calls := RunHooks(data, hooks);
      AddNode(data);
    }

    // The insertion, and the dropping of old nodes while the list is too long.
    method AddNode(data: seq<byte>)
      modifies `all, `size, `gone
      ensures View() == Insert(old(View()), data)
    {
      all := all + [Fresh(data)];
      size := size + |data|;
      while size > max && all != []
        invariant Evict(View()) == Insert(old(View()), data)
        decreases |all|
      {
        var node := all[0];
        size := size - |node.data|;
        gone := gone + [node];
        all := all[1..];
      }
    }

    // read_ts_data. feed[k] is what the producer inserts while the reader waits for
    // its k-th pass; the read is still waiting when the feed ends before it does.
    method ReadTsData(dst: array<byte>, size: nat, feed: seq<seq<seq<byte>>>) returns (resOff: nat,
                      ghost got: seq<byte>)
      requires Usable(View()) && size <= dst.Length
      modifies `all, `size, `gen, `gone, dst
      ensures var (t, bytes, rest, used) := ReadAll(old(View()), size, feed);
        View() == t && got == bytes && resOff + rest == size
      ensures |got| == resOff && dst[..] == Overwrite(old(dst[..]), 0, got)
    {
      var remain, k := size, 0;
      resOff, got := 0, [];
      ghost var s0 := View();
      ReadAllStarts(s0, size, feed);
      while remain > 0 && k < |feed|
        invariant 0 <= k <= |feed| && |got| == resOff && resOff + remain == size
        invariant ReadingAll(s0, size, feed, View(), got, remain, feed[k..], k)
        invariant dst[..] == Overwrite(old(dst[..]), 0, got)
      {
        ghost var s := View();
        AddNodes(feed[k]);
        InsertAllUsable(s, feed[k]);
        ghost var t := View();
        var rest, part := ReadPass(dst, resOff, remain);
        assert feed[k..][1..] == feed[k + 1..] && feed[k..][0] == feed[k];
        ReadAllGoesOn(s0, size, feed, s, got, remain, feed[k..], k, View(), part, rest);
        OverwriteTwice(old(dst[..]), 0, got, part);
        resOff, got := resOff + (remain - rest), got + part;
        remain, k := rest, k + 1;
      }
      ReadAllEnds(s0, size, feed, View(), got, remain, feed[k..], k);
    }

    method AddNodes(nodes: seq<seq<byte>>)
      modifies `all, `size, `gone
      ensures View() == InsertAll(old(View()), nodes)
    {
      var k := 0;
      assert nodes[0..] == nodes;
      while k < |nodes|
        invariant 0 <= k <= |nodes| && InsertAll(View(), nodes[k..]) == InsertAll(old(View()), nodes)
      {
        assert nodes[k..][1..] == nodes[k + 1..];
        AddNode(nodes[k]);
        k := k + 1;
      }
    }

    // One pass of read_ts_data over the list, under its lock: copies up to `remain`
    // bytes to dst from position `at`.
    method ReadPass(dst: array<byte>, at: nat, remain: nat) returns (rest: nat, ghost got: seq<byte>)
      requires Usable(View()) && at + remain <= dst.Length
      modifies `all, `size, `gen, `gone, dst
      ensures (View(), got, rest) == Pass(old(View()), remain)
      ensures |got| + rest == remain && dst[..] == Overwrite(old(dst[..]), at, got)
    {
      var pos := at;
      rest, got := remain, [];
      ReadingStarts(View(), remain);
      while all != [] && rest > 0
        invariant Reading(old(View()), remain, View(), got, rest) && pos == at + |got|
        invariant dst[..] == Overwrite(old(dst[..]), at, got)
        decreases |all|, rest
      {
        ghost var before, want := View(), rest;
        var part;
        part, rest := VisitFirst(rest);
        ReadingGoesOn(old(View()), remain, before, got, want, View(), part, rest);
        OverwriteTwice(old(dst[..]), at, got, part);
        CopyTo(dst, pos, part);
        pos, got := pos + |part|, got + part;
      }
      ReadingEnds(old(View()), remain, View(), got, rest);
    }

    // The body of the loop over the list.
    method VisitFirst(remain: nat) returns (part: seq<byte>, rest: nat)
      requires Usable(View()) && all != [] && remain > 0
      modifies `all, `size, `gen, `gone
      ensures (View(), part, rest) == Visit(old(View()), remain) && |part| == remain - rest
    {
      var node := PrepareFirst();
      part, rest := TakeFirst(node, remain);
    }

    // Replacing the tables in the first node, if that is still to be done.
    method PrepareFirst() returns (node: Node)
      requires Usable(View()) && all != []
      modifies `gen
      ensures (View(), node) == Prepare(old(View()), all[0])
      ensures |node.data| == |all[0].data| && node.readOff == all[0].readOff
    {
      node := all[0];
      if gen.Some? && !node.replaced {
        var g, d := ReplacePat(gen.value, node.data);
        gen := Some(g);
        node := node.(data := d, replaced := true);
      }
    }

    method TakeFirst(node: Node, remain: nat) returns (part: seq<byte>, rest: nat)
      requires all != [] && node.readOff <= |node.data|
      modifies `all, `size, `gone
      ensures (View(), part, rest) == Take(old(View()), node, remain) && |part| + rest == remain
    {
      var left := |node.data| - node.readOff;
      if remain > left {
        part, rest := node.data[node.readOff..], remain - left;
        size := size - |node.data|;
        gone := gone + [Advanced(node, left)];
        all := all[1..];
        assert part == node.data[node.readOff..node.readOff + left];
      } else {
        part, rest := node.data[node.readOff..node.readOff + remain], 0;
        all := [Advanced(node, remain)] + all[1..];
      }
    }
  }
}
