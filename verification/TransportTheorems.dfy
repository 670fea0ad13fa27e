// The transport layer's promises, read off the invariant that every run keeps.
module TransportTheorems {
  import opened Bytes
  import opened Transport
  import opened TransportRuns

  lemma InitialInv(maxSlots: byte, maxConns: byte)
    ensures LayerInv(Initial(maxSlots, maxConns))
  {
  }

  // ---- safety of the connection states, in every run ----

  ghost predicate StatesSafe(conns: seq<Conn>) {
    && (|conns| > 0 ==> conns[0].state == Idle)
    && forall i :: 0 <= i < |conns| ==>
      var c := conns[i];
      && (c.chain.Some? ==> c.state == Active || c.state == ActiveDeleteQueued)
      && (c.state == InDeletion ==> c.queue == [])
      && (forall k :: 0 <= k < |c.queue| && IsDelete(c.queue[k]) ==>
            c.state == ActiveDeleteQueued && k == |c.queue| - 1)
  }

  lemma EveryRunKeepsStatesSafe(maxSlots: byte, maxConns: byte, inputs: seq<Input>, s: nat)
    requires s < |Run(Initial(maxSlots, maxConns), inputs)|
    ensures StatesSafe(Run(Initial(maxSlots, maxConns), inputs)[s].conns)
  {
    InitialInv(maxSlots, maxConns);
    RunKeeps(Initial(maxSlots, maxConns), inputs);
    assert ConnsInv(Run(Initial(maxSlots, maxConns), inputs)[s].conns);
  }

  // The allocator overwrites chain_buffer without freeing it; in no run does
  // that lose a buffer.
  lemma AllocationLosesNoChain(maxSlots: byte, maxConns: byte, inputs: seq<Input>, s: nat)
    requires s < |Run(Initial(maxSlots, maxConns), inputs)|
    ensures var conns := Run(Initial(maxSlots, maxConns), inputs)[s].conns;
      var n := FirstIdle(conns, 1);
      n.Some? ==> conns[n.value].chain == None
  {
    EveryRunKeepsStatesSafe(maxSlots, maxConns, inputs, s);
  }

  // ---- stop-and-wait FIFO, in every run ----

  lemma {:induction false} OutstandingAfterTx(log: seq<Event>, i: nat)
    requires i < |log| && IsTx(log[i]) && forall k :: i < k < |log| ==> log[k] != Cleared
    ensures Read(log).outstanding
  {
    var n := |log| - 1;
    if i < n {
      assert forall k :: i < k < n ==> log[..n][k] == log[k];
      OutstandingAfterTx(log[..n], i);
    }
  }

  lemma {:induction false} StopAndWaitOfPrefix(log: seq<Event>, n: nat)
    requires n <= |log| && Read(log).stopAndWait
    ensures Read(log[..n]).stopAndWait
  {
    if n < |log| {
      var m := |log| - 1;
      assert log[..m][..n] == log[..n];
      StopAndWaitOfPrefix(log[..m], n);
    } else {
      assert log[..n] == log;
    }
  }

  lemma ClearedSince(log: seq<Event>, i: nat)
    requires !Read(log).outstanding && i < |log| && IsTx(log[i])
    ensures exists k :: i < k < |log| && log[k] == Cleared
  {
    if forall k :: i < k < |log| ==> log[k] != Cleared {
      OutstandingAfterTx(log, i);
    }
  }

  lemma TxFindsNothingOutstanding(r: Reading, e: Event)
    requires IsTx(e) && Next(r, e).stopAndWait
    ensures !r.outstanding
  {
  }

  lemma NothingOutstandingBeforeTx(log: seq<Event>, j: nat)
    requires Read(log).stopAndWait && j < |log| && IsTx(log[j])
    ensures !Read(log[..j]).outstanding
  {
    StopAndWaitOfPrefix(log, j + 1);
    LastOfPrefix(log, j);
    TxFindsNothingOutstanding(Read(log[..j]), log[j]);
  }

  lemma LastOfPrefix(log: seq<Event>, j: nat)
    requires j < |log|
    ensures Read(log[..j + 1]) == Next(Read(log[..j]), log[j])
  {
    assert log[..j + 1] == log[..j] + [log[j]];
    ReadSnoc(log[..j], log[j]);
  }

  lemma TransmissionsAreSeparated(log: seq<Event>, i: nat, j: nat)
    requires Read(log).stopAndWait && i < j < |log| && IsTx(log[i]) && IsTx(log[j])
    ensures exists k :: i < k < j && log[k] == Cleared
  {
    NothingOutstandingBeforeTx(log, j);
    ClearedSince(log[..j], i);
    var k :| i < k < j && log[..j][k] == Cleared;
    assert log[k] == Cleared;
  }

  // On every connection of every run: messages leave the queue in the order
  // they entered it and each at most once, and between any two transmissions
  // of a queued message or an empty poll tx_time was cleared.
  lemma EveryRunIsStopAndWaitFifo(maxSlots: byte, maxConns: byte, inputs: seq<Input>, s: nat, i: nat)
    requires s < |Run(Initial(maxSlots, maxConns), inputs)|
    requires i < |Run(Initial(maxSlots, maxConns), inputs)[s].conns|
    ensures var c := Run(Initial(maxSlots, maxConns), inputs)[s].conns[i];
      && Read(c.log).departures + c.queue == Read(c.log).accepts
      && forall a, b :: 0 <= a < b < |c.log| && IsTx(c.log[a]) && IsTx(c.log[b]) ==>
           exists k :: a < k < b && c.log[k] == Cleared
  {
    InitialInv(maxSlots, maxConns);
    RunKeeps(Initial(maxSlots, maxConns), inputs);
    var slots := Run(Initial(maxSlots, maxConns), inputs);
    assert ConnsInv(slots[s].conns);
    var c := slots[s].conns[i];
    assert ConnInv(c);
    forall a, b | 0 <= a < b < |c.log| && IsTx(c.log[a]) && IsTx(c.log[b])
      ensures exists k :: a < k < b && c.log[k] == Cleared
    {
      TransmissionsAreSeparated(c.log, a, b);
    }
  }

  // ---- reassembly ----

  // On every connection of every run the blocks passed upward are exactly those
  // that its accepted fragments spell.
  lemma EveryRunDeliversWhatWasSpelled(maxSlots: byte, maxConns: byte, inputs: seq<Input>, s: nat, i: nat)
    requires s < |Run(Initial(maxSlots, maxConns), inputs)|
    requires i < |Run(Initial(maxSlots, maxConns), inputs)[s].conns|
    ensures var r := Read(Run(Initial(maxSlots, maxConns), inputs)[s].conns[i].log); r.blocks == r.spelled
  {
    InitialInv(maxSlots, maxConns);
    RunKeeps(Initial(maxSlots, maxConns), inputs);
    var slots := Run(Initial(maxSlots, maxConns), inputs);
    assert ConnsInv(slots[s].conns);
    assert ConnInv(slots[s].conns[i]);
  }

  datatype Frag = Frag(conn: byte, last: bool, data: seq<byte>)

  function FragTpdu(f: Frag): Tpdu {
    Tpdu(if f.last then T_DATA_LAST else T_DATA_MORE, f.conn, f.data)
  }

  function Feed(slots: seq<Slot>, s: nat, frags: seq<Frag>): Step
    requires s < |slots|
    decreases |frags|
  {
    if frags == [] then Step(slots, Done(0))
    else
      var r := OnTpdu(slots, s, FragTpdu(frags[0]), Writes(true, true));
      if r.result.Fail? then r else Feed(r.slots, s, frags[1..])
  }

  // The blocks that the fragments addressed to connection i spell, p being what
  // it already holds; and what it holds afterwards.
  function BlocksFor(frags: seq<Frag>, i: nat, p: seq<byte>): seq<seq<byte>> {
    if frags == [] then []
    else if frags[0].conn != i then BlocksFor(frags[1..], i, p)
    else if !frags[0].last then BlocksFor(frags[1..], i, p + frags[0].data)
    else [p + frags[0].data] + BlocksFor(frags[1..], i, [])
  }

  function LeftFor(frags: seq<Frag>, i: nat, p: seq<byte>): seq<byte> {
    if frags == [] then p
    else if frags[0].conn != i then LeftFor(frags[1..], i, p)
    else LeftFor(frags[1..], i, if frags[0].last then [] else p + frags[0].data)
  }

  ghost predicate AllActive(conns: seq<Conn>, frags: seq<Frag>) {
    forall k :: 0 <= k < |frags| ==> frags[k].conn < |conns| && conns[frags[k].conn].state == Active
  }

  // What an accepted fragment adds to the blocks read from a history.
  lemma BlocksAfter(log: seq<Event>, last: bool, data: seq<byte>, block: seq<byte>)
    ensures Read(log + [Cleared, Fragment(last, data)]).blocks == Read(log).blocks
    ensures Read(log + [Cleared, Fragment(last, data)] + [Delivered(block)]).blocks == Read(log).blocks + [block]
  {
    Read2(log, Cleared, Fragment(last, data));
    Read3(log, Cleared, Fragment(last, data), Delivered(block));
  }

  // One fragment touches only the connection it names.
  lemma FeedOne(c: Conn, i: nat, f: Frag)
    requires c.state == Active && f.data != []
    ensures var r := OnConnTpdu(Say(c, Got(FragTpdu(f).tag, f.data)), i, FragTpdu(f).tag, f.data, Writes(true, true));
      && r.result.Done? && r.conn.state == Active
      && Read(r.conn.log).blocks == Read(c.log).blocks + (if f.last then [c.ChainBytes() + f.data] else [])
      && r.conn.ChainBytes() == (if f.last then [] else c.ChainBytes() + f.data)
  {
    var h := Say(c, Got(FragTpdu(f).tag, f.data));
    ReadSnoc(c.log, Got(FragTpdu(f).tag, f.data));
    BlocksAfter(h.log, f.last, f.data, c.ChainBytes() + f.data);
    if f.last {
      assert OnConnTpdu(h, i, T_DATA_LAST, f.data, Writes(true, true)) == OnLast(h, f.data);
    } else {
      assert OnConnTpdu(h, i, T_DATA_MORE, f.data, Writes(true, true)) == OnMore(h, f.data);
    }
  }

  // What the fragments have made of a connection.
  ghost predicate Fed(before: Conn, after: Conn, blocks: seq<seq<byte>>, left: seq<byte>) {
    && after.state == before.state && after.ChainBytes() == left
    && Read(after.log).blocks == Read(before.log).blocks + blocks
  }

  // Any interleaving of non-empty fragments over active connections: on every
  // connection i, each T_DATA_LAST delivers one block, made of the connection's
  // own fragments and of nothing else.
  lemma {:induction false} InterleavedReassembly(slots: seq<Slot>, s: nat, frags: seq<Frag>, i: nat)
    requires s < |slots| && i < |slots[s].conns| && AllActive(slots[s].conns, frags)
    requires forall k :: 0 <= k < |frags| ==> frags[k].data != []
    ensures var r := Feed(slots, s, frags); var before := slots[s].conns[i];
      && r.result.Done? && |r.slots| == |slots| && |r.slots[s].conns| == |slots[s].conns|
      && Fed(before, r.slots[s].conns[i], BlocksFor(frags, i, before.ChainBytes()), LeftFor(frags, i, before.ChainBytes()))
    decreases |frags|
  {
    var c := slots[s].conns[i];
    if frags == [] {
      assert Read(c.log).blocks + [] == Read(c.log).blocks;
    } else {
      var next := FeedFirst(slots, s, frags, i);
      InterleavedReassembly(next, s, frags[1..], i);
      var d := next[s].conns[i];
      FedOn(frags, i, Read(c.log).blocks, c.ChainBytes(), Read(d.log).blocks, d.ChainBytes());
    }
  }

  ghost predicate FedFirst(c: Conn, d: Conn, f: Frag, i: nat) {
    if i != f.conn then d == c
    else
      && c.state == d.state == Active
      && Read(d.log).blocks == Read(c.log).blocks + (if f.last then [c.ChainBytes() + f.data] else [])
      && d.ChainBytes() == (if f.last then [] else c.ChainBytes() + f.data)
  }

  // The blocks of a connection that had `had` with p left, and after the first fragment
  // has `has` with q left.
  lemma FedOn(frags: seq<Frag>, i: nat, had: seq<seq<byte>>, p: seq<byte>, has: seq<seq<byte>>, q: seq<byte>)
    requires frags != []
    requires var f := frags[0];
      if i != f.conn then has == had && q == p
      else has == had + (if f.last then [p + f.data] else []) && q == if f.last then [] else p + f.data
    ensures has + BlocksFor(frags[1..], i, q) == had + BlocksFor(frags, i, p)
    ensures LeftFor(frags[1..], i, q) == LeftFor(frags, i, p)
  {
    Associates(had, [p + frags[0].data], BlocksFor(frags[1..], i, []));
  }

  // The first fragment changes the connection it names and no other.
  lemma FeedFirst(slots: seq<Slot>, s: nat, frags: seq<Frag>, i: nat) returns (next: seq<Slot>)
    requires s < |slots| && i < |slots[s].conns| && AllActive(slots[s].conns, frags)
    requires frags != [] && frags[0].data != []
    ensures |next| == |slots| && |next[s].conns| == |slots[s].conns|
    ensures Feed(slots, s, frags) == Feed(next, s, frags[1..])
    ensures AllActive(next[s].conns, frags[1..])
    ensures FedFirst(slots[s].conns[i], next[s].conns[i], frags[0], i)
  {
    var f := frags[0];
    FeedOne(slots[s].conns[f.conn], f.conn, f);
    var r := OnTpdu(slots, s, FragTpdu(f), Writes(true, true));
    next := r.slots;
    assert forall j :: 0 <= j < |slots[s].conns| && j != f.conn ==> next[s].conns[j] == slots[s].conns[j];
    assert next[s].conns[f.conn].state == Active;
  }

  // Emptiness matters exactly at T_DATA_LAST: the chain is delivered if and only
  // if the closing fragment carries data, and is dropped otherwise.
  lemma LastFragmentDeliversIff(c: Conn, data: seq<byte>)
    requires c.state == Active
    ensures var d := OnLast(c, data).conn;
      && d.chain == None
      && (Read(d.log).blocks == Read(c.log).blocks + [c.ChainBytes() + data] <==> data != [])
      && (data == [] ==> Read(d.log).blocks == Read(c.log).blocks)
  {
    var blocks, block := Read(c.log).blocks, c.ChainBytes() + data;
    BlocksAfter(c.log, true, data, block);
    assert |blocks + [block]| == |blocks| + 1;
    if data == [] {
      assert OnLast(c, data).conn.log == c.log + [Cleared, Fragment(true, data)];
    } else {
      assert OnLast(c, data).conn.log == c.log + [Cleared, Fragment(true, data)] + [Delivered(block)];
    }
  }
}
