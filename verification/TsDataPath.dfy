// The transport stream from the USB callback to its readers: realignment, the queue
// between the two threads, and the readers' list, put together.
module TsDataPath {
  import opened Bytes
  import R = TsRealign
  import L = TsList

  // The nodes that the processing thread has not taken yet.
  function Waiting(nodes: seq<seq<byte>>, taken: nat): seq<byte>
    requires taken <= |nodes|
  {
    Flatten(nodes[taken..])
  }

  // After any transfers of an aligned stream and any reads, when nothing was replaced
  // or evicted: what the readers had, what their list still holds, what waits to be
  // taken and the saved tail are, in this order, exactly the stream received.
  lemma DataPathKeepsTheStream(transfers: seq<seq<R.Chunk>>, max: nat, es: seq<L.Event>, taken: nat)
    requires forall cs <- transfers :: R.AllSound(cs) && R.LongEnough(cs)
    requires R.Aligned(R.Stream(transfers)) && taken <= |R.Run(transfers).0|
    requires (forall e <- es :: L.Acceptable(e)) && L.Inserted(es) == R.Run(transfers).0[..taken]
    requires forall n <- L.History(L.Run(max, es).0) :: !n.replaced
    requires forall n <- L.Run(max, es).0.gone :: |n.delivered| == |n.arrived|
    ensures var (nodes, tail) := R.Run(transfers);
      var (s, out) := L.Run(max, es);
      out + L.Pending(s.all) + Waiting(nodes, taken) + tail == R.Stream(transfers)
  {
    var (nodes, tail) := R.Run(transfers);
    var (s, out) := L.Run(max, es);
    R.EveryRunKeepsTheStream(transfers);
    L.NothingIsLost(s, L.Inserted(es), out);
    assert nodes == nodes[..taken] + nodes[taken..];
    FlattenAppend(nodes[..taken], nodes[taken..]);
  }

  lemma RealignedNodes(transfers: seq<seq<R.Chunk>>, k: nat)
    requires forall cs <- transfers :: R.AllSound(cs) && R.LongEnough(cs)
    requires R.Aligned(R.Stream(transfers)) && k < |R.Run(transfers).0|
    ensures R.Aligned(R.Run(transfers).0[k]) && R.Whole(R.Run(transfers).0[k])
  {
    var node := R.Run(transfers).0[k];
    assert node in R.Run(transfers).0;
    forall i | 0 <= i < |node| && i % R.TS_SIZE == 0 ensures node[i] == R.TS_SYNC {
      R.EveryPacketBeginsWithSync(transfers, k, i);
    }
  }

  // With tables replaced, and nodes evicted too: everything that readers had, and
  // everything that still waits for them, is what arrived over USB, but for whole
  // packets of the stream that carry one of the two tables.
  lemma OnlyTablesAreReplaced(transfers: seq<seq<R.Chunk>>, max: nat, es: seq<L.Event>, taken: nat)
    requires forall cs <- transfers :: R.AllSound(cs) && R.LongEnough(cs)
    requires R.Aligned(R.Stream(transfers)) && taken <= |R.Run(transfers).0|
    requires (forall e <- es :: L.Acceptable(e)) && L.Inserted(es) == R.Run(transfers).0[..taken]
    ensures var s := L.Run(max, es).0;
      && L.Arrivals(s.gone) + L.Arrivals(s.all) == R.Run(transfers).0[..taken]
      && (forall n <- s.gone + s.all :: L.OnlyService(n.arrived, n.delivered))
      && (forall n <- s.all :: L.OnlyService(n.arrived, n.data))
  {
    forall k | 0 <= k < taken ensures R.Aligned(L.Inserted(es)[k]) && R.Whole(L.Inserted(es)[k]) {
      RealignedNodes(transfers, k);
    }
    L.EveryRunConserves(max, es);
    L.EveryRunChangesOnlyService(max, es);
  }
}
