// The tail and realignment part of record_callback (u_drv_data.c): isochronous
// chunks of any length are cut back into whole 188-byte transport packets.
module TsRealign {
  import opened Bytes

  const TS_SIZE: nat := 188
  const TS_SYNC: byte := 0x47

  // One isochronous packet: `data` is its whole buffer, of which the first `len`
  // bytes arrived in this transfer; the rest is left from earlier ones. A packet
  // without a buffer is one that did not complete.
  datatype Chunk = Chunk(completed: bool, data: seq<byte>, len: nat)

  // The buffer reaches one byte past a transport packet, where the code looks.
  predicate Sound(c: Chunk) { c.len <= |c.data| && TS_SIZE < |c.data| }

  predicate Used(c: Chunk) { c.completed && c.len > 0 }

  function Payload(c: Chunk): seq<byte>
    requires Sound(c)
  {
    if Used(c) then c.data[..c.len] else []
  }

  predicate AllSound(cs: seq<Chunk>) { forall c <- cs :: Sound(c) }

  function Received(cs: seq<Chunk>): seq<byte>
    requires AllSound(cs)
  {
    if cs == [] then [] else Received(cs[..|cs| - 1]) + Payload(cs[|cs| - 1])
  }

  // ---- next_ts_off ----

  // A packet may start at off: a sync byte here, and another where the next packet
  // would start unless the buffer ends there.
  predicate Starts(buf: seq<byte>, size: nat, off: nat)
    requires size <= |buf|
  {
    off + TS_SIZE <= size && buf[off] == TS_SYNC && (off + TS_SIZE == size || buf[off + TS_SIZE] == TS_SYNC)
  }

  // The first start at or after off, or -1.
  function FirstFrom(buf: seq<byte>, size: nat, off: nat): (r: int)
    requires off <= size <= |buf|
    ensures r == -1 ==> forall o: nat :: off <= o ==> !Starts(buf, size, o)
    ensures r != -1 ==> off <= r && Starts(buf, size, r) && forall o: nat :: off <= o < r ==> !Starts(buf, size, o)
    decreases size - off
  {
    if Starts(buf, size, off) then off else if off == size then -1 else FirstFrom(buf, size, off + 1)
  }

  method NextTsOff(buf: seq<byte>, size: nat) returns (r: int)
    requires size <= |buf|
    ensures r == FirstFrom(buf, size, 0)
  {
    if size < TS_SIZE { return -1; }
    var off := 0;
    while off <= size - TS_SIZE
      invariant 0 <= off <= size - TS_SIZE + 1
      invariant FirstFrom(buf, size, off) == FirstFrom(buf, size, 0)
    {
      if buf[off] == TS_SYNC && off + TS_SIZE == size { return off; }
      if buf[off] == TS_SYNC && buf[off + TS_SIZE] == TS_SYNC { return off; }
      off := off + 1;
    }
    return -1;
  }

  // ---- one chunk ----

  // Where the chunk is entered: at the end of the packet the tail began, if a sync
  // byte stands there, or else at the first place that looks like a start.
  function Entry(tail: seq<byte>, c: Chunk): int
    requires Sound(c) && |tail| < TS_SIZE
  {
    if c.data[TS_SIZE - |tail|] == TS_SYNC then TS_SIZE - |tail| else FirstFrom(c.data, c.len, 0)
  }

  // The bytes that survive: the tail with the chunk, or the chunk from its entry on.
  function Kept(tail: seq<byte>, c: Chunk): seq<byte>
    requires Sound(c) && |tail| < TS_SIZE && Entry(tail, c) >= 0
  {
    var e := Entry(tail, c);
    if e + |tail| == TS_SIZE then tail + c.data[..if c.len < e then e else c.len] else c.data[e..c.len]
  }

  predicate Whole(s: seq<byte>) { |s| % TS_SIZE == 0 }

  lemma WholeJoin(a: seq<byte>, b: seq<byte>)
    requires Whole(a) && Whole(b)
    ensures Whole(a + b)
  {
  }

  function WholeLength(s: seq<byte>): (n: nat)
    ensures n <= |s| < n + TS_SIZE && n % TS_SIZE == 0
  {
    |s| - |s| % TS_SIZE
  }

  // The whole packets a chunk completes, and the tail it leaves.
  function Out(tail: seq<byte>, c: Chunk): (s: seq<byte>)
    requires Sound(c) && |tail| < TS_SIZE
    ensures Whole(s)
  {
    if !Used(c) || Entry(tail, c) < 0 then [] else Kept(tail, c)[..WholeLength(Kept(tail, c))]
  }

  function Rest(tail: seq<byte>, c: Chunk): (s: seq<byte>)
    requires Sound(c) && |tail| < TS_SIZE
    ensures |s| < TS_SIZE
  {
    if !Used(c) || Entry(tail, c) < 0 then tail else Kept(tail, c)[WholeLength(Kept(tail, c))..]
  }

  // What every chunk comes to, in sync or not. It goes on with the packet that the tail
  // began if a sync byte stands behind that; or else it is entered at the first place
  // that looks like a start, and if there is none it is passed over.
  lemma EveryChunkIsCut(tail: seq<byte>, c: Chunk)
    requires Sound(c) && |tail| < TS_SIZE
    ensures var kept, e := Out(tail, c) + Rest(tail, c), 188 - |tail|;
      if !c.completed || c.len == 0 then Out(tail, c) == [] && Rest(tail, c) == tail
      else if c.data[e] == 0x47 then kept == tail + c.data[..if c.len < e then e else c.len]
      else if exists o: nat :: Starts(c.data, c.len, o) then
        exists o: nat :: Starts(c.data, c.len, o) && (forall p: nat :: p < o ==> !Starts(c.data, c.len, p))
                         && kept == (if o == e then tail + c.data[..c.len] else c.data[o..c.len])
      else Out(tail, c) == [] && Rest(tail, c) == tail
  {
    var e := Entry(tail, c);
    if Used(c) && e >= 0 {
      var k := Kept(tail, c);
      assert k[..WholeLength(k)] + k[WholeLength(k)..] == k;
      if c.data[TS_SIZE - |tail|] != TS_SYNC { assert Starts(c.data, c.len, e) && e + TS_SIZE <= c.len; }
    }
  }

  // ---- one transfer, and a run of them ----

  // The node built from a transfer, and the tail afterwards.
  function Realign(tail: seq<byte>, cs: seq<Chunk>): (r: (seq<byte>, seq<byte>))
    requires AllSound(cs) && |tail| < TS_SIZE
    ensures Whole(r.0) && |r.1| < TS_SIZE
  {
    if cs == [] then ([], tail)
    else
      var (node, t) := Realign(tail, cs[..|cs| - 1]);
      var c := cs[|cs| - 1];
      WholeJoin(node, Out(t, c));
      (node + Out(t, c), Rest(t, c))
  }

  // Every packet boundary of the stream shows a sync byte.
  ghost predicate Aligned(s: seq<byte>) {
    forall i :: 0 <= i < |s| && i % TS_SIZE == 0 ==> s[i] == TS_SYNC
  }

  predicate LongEnough(cs: seq<Chunk>) { forall c <- cs :: Used(c) ==> c.len >= TS_SIZE }

  // In an aligned stream a chunk of at least one packet is never entered wrongly.
  lemma EnteredInSync(before: seq<byte>, tail: seq<byte>, c: Chunk)
    requires Sound(c) && |tail| < TS_SIZE && Whole(before) && Used(c) && c.len >= TS_SIZE
    requires Aligned(before + tail + Payload(c))
    ensures Entry(tail, c) >= 0 && Kept(tail, c) == tail + Payload(c)
  {
    var s := before + tail + Payload(c);
    var e := TS_SIZE - |tail|;
    if e < c.len {
      SyncAt(s, |before| + TS_SIZE);
      assert s[|before| + TS_SIZE] == c.data[e];
    } else {
      SyncAt(s, |before|);
      assert s[|before|] == c.data[0];
      assert Starts(c.data, c.len, 0);
      assert FirstFrom(c.data, c.len, 0) == 0;
    }
  }

  lemma SyncAt(s: seq<byte>, i: nat)
    requires Aligned(s) && i < |s| && i % TS_SIZE == 0
    ensures s[i] == TS_SYNC
  {
  }

  lemma ChunkKeepsAll(before: seq<byte>, tail: seq<byte>, c: Chunk)
    requires Sound(c) && |tail| < TS_SIZE && Whole(before)
    requires Used(c) ==> c.len >= TS_SIZE
    requires Aligned(before + tail + Payload(c))
    ensures Out(tail, c) + Rest(tail, c) == tail + Payload(c)
  {
    if Used(c) {
      EnteredInSync(before, tail, c);
      var k := Kept(tail, c);
      assert k[..WholeLength(k)] + k[WholeLength(k)..] == k;
    }
  }

  lemma AlignedPrefix(s: seq<byte>, n: nat)
    requires n <= |s| && Aligned(s)
    ensures Aligned(s[..n])
  {
  }

  // One transfer of an aligned stream: the node and the tail are what was received.
  lemma {:induction false} TransferKeepsAll(before: seq<byte>, tail: seq<byte>, cs: seq<Chunk>)
    requires AllSound(cs) && LongEnough(cs) && |tail| < TS_SIZE && Whole(before)
    requires Aligned(before + tail + Received(cs))
    ensures Realign(tail, cs).0 + Realign(tail, cs).1 == tail + Received(cs)
  {
    if cs == [] {
    } else {
      var init, c := cs[..|cs| - 1], cs[|cs| - 1];
      PrefixAligned(before, tail, Received(init), Payload(c));
      TransferKeepsAll(before, tail, init);
      var (node, t) := Realign(tail, init);
      Carry(before, node, t, tail, Received(init), Payload(c));
      WholeJoin(before, node);
      ChunkKeepsAll(before + node, t, c);
      Join(node, Out(t, c), Rest(t, c), t, tail, Received(init), Payload(c));
    }
  }

  lemma PrefixAligned(before: seq<byte>, tail: seq<byte>, r: seq<byte>, p: seq<byte>)
    requires Aligned(before + tail + (r + p))
    ensures Aligned(before + tail + r)
  {
    var s := before + tail + (r + p);
    assert s[..|before + tail + r|] == before + tail + r;
    AlignedPrefix(s, |before + tail + r|);
  }

  lemma Carry(before: seq<byte>, node: seq<byte>, t: seq<byte>, tail: seq<byte>, r: seq<byte>, p: seq<byte>)
    requires node + t == tail + r
    ensures before + node + t + p == before + tail + (r + p)
  {
    assert before + node + t + p == before + (node + t) + p;
  }

  lemma Join(node: seq<byte>, out: seq<byte>, rest: seq<byte>, t: seq<byte>, tail: seq<byte>, r: seq<byte>,
             p: seq<byte>)
    requires node + t == tail + r && out + rest == t + p
    ensures (node + out) + rest == tail + (r + p)
  {
    assert (node + out) + rest == node + (out + rest) == (node + t) + p;
  }

  // The nodes queued by a run of transfers, and the tail at its end.
  function Run(transfers: seq<seq<Chunk>>): (r: (seq<seq<byte>>, seq<byte>))
    requires forall cs <- transfers :: AllSound(cs)
    ensures |r.0| == |transfers| && |r.1| < TS_SIZE
    ensures forall node <- r.0 :: Whole(node)
  {
    if transfers == [] then ([], [])
    else
      var (nodes, t) := Run(transfers[..|transfers| - 1]);
      var (node, u) := Realign(t, transfers[|transfers| - 1]);
      (nodes + [node], u)
  }

  function Stream(transfers: seq<seq<Chunk>>): seq<byte>
    requires forall cs <- transfers :: AllSound(cs)
  {
    if transfers == [] then [] else Stream(transfers[..|transfers| - 1]) + Received(transfers[|transfers| - 1])
  }

  lemma {:induction false} WholePackets(nodes: seq<seq<byte>>)
    requires forall node <- nodes :: Whole(node)
    ensures Whole(Flatten(nodes))
  {
    if nodes != [] {
      WholePackets(nodes[1..]);
      WholeJoin(nodes[0], Flatten(nodes[1..]));
    }
  }

  // For an aligned stream, cut into chunks of any lengths of at least one packet
  // and spread over any transfers: the queued nodes followed by the tail are the
  // stream received so far.
  lemma {:induction false} EveryRunKeepsTheStream(transfers: seq<seq<Chunk>>)
    requires forall cs <- transfers :: AllSound(cs) && LongEnough(cs)
    requires Aligned(Stream(transfers))
    ensures Flatten(Run(transfers).0) + Run(transfers).1 == Stream(transfers)
  {
    if transfers == [] {
    } else {
      var init, cs := transfers[..|transfers| - 1], transfers[|transfers| - 1];
      var done, more := Stream(init), Received(cs);
      assert [] + [] + done == done && [] + [] + (done + more) == Stream(transfers);
      PrefixAligned([], [], done, more);
      EveryRunKeepsTheStream(init);
      var (nodes, t) := Run(init);
      WholePackets(nodes);
      Carry([], Flatten(nodes), t, [], done, more);
      TransferKeepsAll(Flatten(nodes), t, cs);
      var (node, u) := Realign(t, cs);
      FlattenOne(nodes, node);
      Join(Flatten(nodes), node, u, t, [], done, more);
    }
  }

  // Where a node lies in the joined nodes.
  lemma NodeWithin(nodes: seq<seq<byte>>, k: nat, i: nat)
    requires k < |nodes| && i < |nodes[k]|
    ensures |Flatten(nodes[..k])| + i < |Flatten(nodes)|
    ensures Flatten(nodes)[|Flatten(nodes[..k])| + i] == nodes[k][i]
  {
    assert nodes == nodes[..k + 1] + nodes[k + 1..] && nodes[..k + 1] == nodes[..k] + [nodes[k]];
    FlattenAppend(nodes[..k + 1], nodes[k + 1..]);
    FlattenOne(nodes[..k], nodes[k]);
  }

  lemma SyncInNode(nodes: seq<seq<byte>>, t: seq<byte>, s: seq<byte>, k: nat, i: nat)
    requires Flatten(nodes) + t == s && Aligned(s) && (forall node <- nodes :: Whole(node))
    requires k < |nodes| && i < |nodes[k]| && i % TS_SIZE == 0
    ensures nodes[k][i] == TS_SYNC
  {
    NodeWithin(nodes, k, i);
    WholePackets(nodes[..k]);
    SyncAt(s, |Flatten(nodes[..k])| + i);
  }

  // So each queued node is a block of packets that begin with the sync byte.
  lemma EveryPacketBeginsWithSync(transfers: seq<seq<Chunk>>, k: nat, i: nat)
    requires forall cs <- transfers :: AllSound(cs) && LongEnough(cs)
    requires Aligned(Stream(transfers))
    requires k < |transfers| && i < |Run(transfers).0[k]| && i % TS_SIZE == 0
    ensures Run(transfers).0[k][i] == 0x47
  {
    EveryRunKeepsTheStream(transfers);
    var (nodes, t) := Run(transfers);
    SyncInNode(nodes, t, Stream(transfers), k, i);
  }
}
