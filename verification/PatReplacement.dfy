// replace_pat (u_drv_data.c): in the packets handed to a reader, the program
// association table is replaced by a generated one, and service description
// packets by generated ones or by null packets.
module PatReplacement {
  import opened Bytes
  import opened TsRealign

  const PAT_PID := 0
  const SDT_PID := 0x11

  datatype Generator = Generator(pat: seq<byte>, patCounter: nat, sdts: seq<seq<byte>>, cur: nat, sdtCounter: nat)

  predicate Ready(g: Generator) {
    && |g.pat| == TS_SIZE && g.patCounter <= 16 && g.sdtCounter <= 16
    && (forall p <- g.sdts :: |p| == TS_SIZE) && (g.sdts == [] || g.cur < |g.sdts|)
  }

  // The low thirteen bits of the second and third byte.
  function Pid(pkt: seq<byte>, o: nat): nat
    requires o + 3 <= |pkt|
  {
    var hi: nat, lo: nat := pkt[o + 1], pkt[o + 2];
    hi % 32 * 256 + lo
  }

  lemma PidBits(pkt: seq<byte>, o: nat)
    requires o + 3 <= |pkt|
    ensures var hi: nat, lo: nat := pkt[o + 1], pkt[o + 2]; Pid(pkt, o) == (hi * 256 + lo) % 8192
  {
  }

  // The packet at o carries one of the two tables.
  predicate Service(s: seq<byte>, o: nat) {
    o + TS_SIZE <= |s| && s[o] == TS_SYNC && (Pid(s, o) == PAT_PID || Pid(s, o) == SDT_PID)
  }

  // Where the packet that covers position i begins, for a scan that goes from sync
  // byte to sync byte and takes a whole packet at each.
  function PacketOf(s: seq<byte>, i: nat): (o: Option<nat>)
    ensures o.Some? ==> o.value <= i < o.value + TS_SIZE <= |s| && s[o.value] == TS_SYNC
    decreases |s|
  {
    if |s| < TS_SIZE then None
    else if s[0] != TS_SYNC then if i == 0 then None else Later(PacketOf(s[1..], i - 1), 1)
    else if i < TS_SIZE then Some(0)
    else Later(PacketOf(s[TS_SIZE..], i - TS_SIZE), TS_SIZE)
  }

  function Later(o: Option<nat>, n: nat): Option<nat> {
    match o
    case None => None
    case Some(k) => Some(k + n)
  }

  predicate InService(s: seq<byte>, i: nat) {
    var o := PacketOf(s, i);
    o.Some? && Service(s, o.value)
  }

  // b is a with nothing changed outside packets that carry one of the tables.
  ghost predicate Alike(a: seq<byte>, b: seq<byte>) {
    |b| == |a| && forall i: nat :: i < |a| && a[i] != b[i] ==> InService(a, i)
  }

  // In a block of whole aligned packets those are the packets of the grid.
  lemma {:induction false} GridPackets(s: seq<byte>, i: nat)
    requires Aligned(s) && Whole(s) && i < |s|
    ensures PacketOf(s, i) == Some(i - i % TS_SIZE)
    decreases |s|
  {
    SyncAt(s, 0);
    FitsGrid(s, i);
    if i >= TS_SIZE {
      AlignedRest(s);
      GridPackets(s[TS_SIZE..], i - TS_SIZE);
    }
  }

  lemma FitsGrid(s: seq<byte>, i: nat)
    requires Whole(s) && i < |s|
    ensures |s| >= TS_SIZE
    ensures i < TS_SIZE ==> i - i % TS_SIZE == 0
    ensures i >= TS_SIZE ==> i - TS_SIZE < |s[TS_SIZE..]|
    ensures i >= TS_SIZE ==> (i - TS_SIZE) - (i - TS_SIZE) % TS_SIZE + TS_SIZE == i - i % TS_SIZE
  {
  }

  lemma AlignedRest(s: seq<byte>)
    requires Aligned(s) && Whole(s) && |s| >= TS_SIZE
    ensures Aligned(s[TS_SIZE..]) && Whole(s[TS_SIZE..])
  {
    forall k | 0 <= k < |s| - TS_SIZE && k % TS_SIZE == 0 ensures s[TS_SIZE + k] == TS_SYNC {
      SyncAt(s, TS_SIZE + k);
    }
  }

  function LowHalf(b: byte, c: nat): byte { b / 16 * 16 + c % 16 }

  // The continuity counter is the low half of the fourth byte.
  function Stamp(pkt: seq<byte>, c: nat): (p: seq<byte>)
    requires |pkt| == TS_SIZE
    ensures |p| == TS_SIZE
  {
    pkt[3 := LowHalf(pkt[3], c)]
  }

  function Rewound(c: nat): nat { if c == 16 then 0 else c }

  // ---- one packet ----

  function Replace(g: Generator, pkt: seq<byte>): (r: (Generator, seq<byte>))
    requires Ready(g) && |pkt| == TS_SIZE
    ensures Ready(r.0) && |r.1| == TS_SIZE
  {
    if Pid(pkt, 0) == PAT_PID then
      var c := Rewound(g.patCounter);
      var p := Stamp(g.pat, c);
      (g.(pat := p, patCounter := c + 1), p)
    else if Pid(pkt, 0) == SDT_PID then
      if g.sdts == [] then (g, [0x47, 0x1f, 0xff, 0] + pkt[4..])
      else
        var c := Rewound(g.sdtCounter);
        var p := Stamp(g.sdts[g.cur], c);
        (g.(sdts := g.sdts[g.cur := p], cur := if g.cur + 1 >= |g.sdts| then 0 else g.cur + 1, sdtCounter := c + 1), p)
    else (g, pkt)
  }

  // ---- a node ----

  // The bytes as the reader gets them, and the generator afterwards.
  function Regenerate(g: Generator, s: seq<byte>): (r: (Generator, seq<byte>))
    requires Ready(g)
    ensures Ready(r.0) && |r.1| == |s|
    decreases |s|
  {
    if |s| < TS_SIZE then (g, s)
    else if s[0] == TS_SYNC then
      var (h, p) := Replace(g, s[..TS_SIZE]);
      var (k, rest) := Regenerate(h, s[TS_SIZE..]);
      (k, p + rest)
    else
      var (k, rest) := Regenerate(g, s[1..]);
      (k, [s[0]] + rest)
  }

  lemma ServiceShift(s: seq<byte>, n: nat, i: nat)
    requires n <= |s| && InService(s[n..], i) && PacketOf(s, n + i) == Later(PacketOf(s[n..], i), n)
    ensures InService(s, n + i)
  {
  }

  // Only packets that the scan stops at, and that carry one of the tables, change.
  lemma {:induction false} ChangesOnlyService(g: Generator, s: seq<byte>, i: nat)
    requires Ready(g) && i < |s| && Regenerate(g, s).1[i] != s[i]
    ensures InService(s, i)
    decreases |s|
  {
    if |s| >= TS_SIZE {
      if s[0] == TS_SYNC {
        var (h, p) := Replace(g, s[..TS_SIZE]);
        if i < TS_SIZE {
          assert PacketOf(s, i) == Some(0);
        } else {
          ChangesOnlyService(h, s[TS_SIZE..], i - TS_SIZE);
          ServiceShift(s, TS_SIZE, i - TS_SIZE);
        }
      } else if i > 0 {
        ChangesOnlyService(g, s[1..], i - 1);
        ServiceShift(s, 1, i - 1);
      }
    }
  }

  lemma RegeneratedIsAlike(g: Generator, s: seq<byte>)
    requires Ready(g)
    ensures Alike(s, Regenerate(g, s).1)
  {
    forall i: nat | i < |s| && s[i] != Regenerate(g, s).1[i] ensures InService(s, i) {
      ChangesOnlyService(g, s, i);
    }
  }

  function OneTable(pkt: seq<byte>, pid: nat): nat
    requires |pkt| == TS_SIZE
  {
    if Pid(pkt, 0) == pid then 1 else 0
  }

  // The packets of a PID that the scan meets in a node.
  function Tables(s: seq<byte>, pid: nat): nat
    decreases |s|
  {
    if |s| < TS_SIZE then 0
    else if s[0] == TS_SYNC then OneTable(s[..TS_SIZE], pid) + Tables(s[TS_SIZE..], pid)
    else Tables(s[1..], pid)
  }

  // A continuity counter after n more tables.
  function Advance(c: nat, n: nat): nat
    decreases n
  {
    if n == 0 then c else Advance(Rewound(c) + 1, n - 1)
  }

  lemma {:induction false} AdvanceModulo(c: nat, n: nat)
    requires c <= 16
    ensures Advance(c, n) % 16 == (c + n) % 16
    decreases n
  {
    if n > 0 { AdvanceModulo(Rewound(c) + 1, n - 1); }
  }

  // ---- what becomes of the generator ----

  // q is the table p with another continuity counter.
  ghost predicate Restamped(p: seq<byte>, q: seq<byte>) {
    |p| == |q| == TS_SIZE && q[3] / 16 == p[3] / 16 && forall k :: 0 <= k < TS_SIZE && k != 3 ==> q[k] == p[k]
  }

  // Between packets a generator only moves on: the tables stay the same but for their
  // counters.
  ghost predicate SameTables(g: Generator, h: Generator) {
    Restamped(g.pat, h.pat) && |g.sdts| == |h.sdts| && forall k :: 0 <= k < |g.sdts| ==> Restamped(g.sdts[k], h.sdts[k])
  }

  // h is g after `pats` program association tables and `sdts` service descriptions.
  ghost predicate Moved(g: Generator, h: Generator, pats: nat, sdts: nat) {
    && SameTables(g, h)
    && h.patCounter == Advance(g.patCounter, pats)
    && (g.sdts != [] ==> h.sdtCounter == Advance(g.sdtCounter, sdts) && h.cur == Turned(g.cur, |g.sdts|, sdts))
  }

  lemma NotMoved(g: Generator)
    requires Ready(g)
    ensures Moved(g, g, 0, 0)
  {
    Unstamped(g.pat);
    forall k | 0 <= k < |g.sdts| ensures Restamped(g.sdts[k], g.sdts[k]) {
      assert g.sdts[k] in g.sdts;
      Unstamped(g.sdts[k]);
    }
  }

  lemma Unstamped(p: seq<byte>)
    requires |p| == TS_SIZE
    ensures Restamped(p, p)
  {
  }

  lemma StampRestamps(p: seq<byte>, c: nat)
    requires |p| == TS_SIZE
    ensures Restamped(p, Stamp(p, c))
  {
  }

  lemma ReplaceMoves(g: Generator, pkt: seq<byte>, k: Generator)
    requires Ready(g) && |pkt| == TS_SIZE && k == Replace(g, pkt).0
    ensures Moved(g, k, OneTable(pkt, PAT_PID), OneTable(pkt, SDT_PID))
  {
    NotMoved(g);
    StampRestamps(g.pat, Rewound(g.patCounter));
    if Pid(pkt, 0) == SDT_PID && g.sdts != [] {
      assert g.sdts[g.cur] in g.sdts;
      StampRestamps(g.sdts[g.cur], Rewound(g.sdtCounter));
    }
  }

  // The packet that is next after n more, of `size` in turn.
  function Turned(cur: nat, size: nat, n: nat): (k: nat)
    ensures cur < size ==> k < size
    decreases n
  {
    if n == 0 then cur else Turned(if cur + 1 >= size then 0 else cur + 1, size, n - 1)
  }

  lemma {:induction false} TurnedModulo(cur: nat, size: nat, n: nat)
    requires cur < size
    ensures Turned(cur, size, n) == (cur + n) % size
    decreases n
  {
    if n == 0 {
      RemainderIs(cur, size, 0, cur);
    } else if cur + 1 < size {
      TurnedModulo(cur + 1, size, n - 1);
    } else {
      TurnedModulo(0, size, n - 1);
      var q, r := (n - 1) / size, (n - 1) % size;
      assert cur + n == size + (q * size + r);
      Distributes(q, size);
      RemainderIs(cur + n, size, q + 1, r);
    }
  }

  lemma Distributes(q: nat, size: nat)
    ensures (q + 1) * size == q * size + size
  {
  }

  lemma RemainderIs(x: nat, size: nat, q: nat, r: nat)
    requires r < size && x == q * size + r
    ensures x % size == r
  {
    var d: int := x / size - q;
    Scaled(x / size, q, size);
    assert d * size == r - x % size;
    if d >= 1 { AtLeast(d, size); }
    if d <= -1 { AtLeast(-d, size); }
  }

  lemma Scaled(a: int, b: int, size: nat)
    ensures (a - b) * size == a * size - b * size
  {
  }

  lemma AtLeast(d: int, size: nat)
    requires d >= 1
    ensures d * size >= size
  {
    Scaled(d, 1, size);
  }

  lemma RestampedTwice(p: seq<byte>, q: seq<byte>, r: seq<byte>)
    requires Restamped(p, q) && Restamped(q, r)
    ensures Restamped(p, r)
  {
  }

  lemma SameAgain(g: Generator, k: Generator, h: Generator)
    requires SameTables(g, k) && SameTables(k, h)
    ensures SameTables(g, h)
  {
    RestampedTwice(g.pat, k.pat, h.pat);
    forall j | 0 <= j < |g.sdts| ensures Restamped(g.sdts[j], h.sdts[j]) {
      RestampedTwice(g.sdts[j], k.sdts[j], h.sdts[j]);
    }
  }

  lemma {:induction false} AdvanceTwice(c: nat, a: nat, b: nat)
    ensures Advance(Advance(c, a), b) == Advance(c, a + b)
    decreases a
  {
    if a > 0 { AdvanceTwice(Rewound(c) + 1, a - 1, b); }
  }

  lemma {:induction false} TurnedTwice(cur: nat, size: nat, a: nat, b: nat)
    ensures Turned(Turned(cur, size, a), size, b) == Turned(cur, size, a + b)
    decreases a
  {
    if a > 0 { TurnedTwice(if cur + 1 >= size then 0 else cur + 1, size, a - 1, b); }
  }

  lemma MovedOn(g: Generator, k: Generator, h: Generator, a: nat, b: nat, pats: nat, sdts: nat)
    requires Moved(g, k, a, b) && Moved(k, h, pats, sdts)
    ensures Moved(g, h, a + pats, b + sdts)
  {
    SameAgain(g, k, h);
    AdvanceTwice(g.patCounter, a, pats);
    AdvanceTwice(g.sdtCounter, b, sdts);
    TurnedTwice(g.cur, |g.sdts|, b, sdts);
  }

  // Regenerating a node moves the generator on by the tables met in it.
  lemma {:induction false} RegenerateMoves(g: Generator, s: seq<byte>)
    requires Ready(g)
    ensures Moved(g, Regenerate(g, s).0, Tables(s, PAT_PID), Tables(s, SDT_PID))
    decreases |s|
  {
    if |s| < TS_SIZE {
      NotMoved(g);
    } else if s[0] == TS_SYNC {
      var k := Replace(g, s[..TS_SIZE]).0;
      ReplaceMoves(g, s[..TS_SIZE], k);
      RegenerateMoves(k, s[TS_SIZE..]);
      MovedOn(g, k, Regenerate(k, s[TS_SIZE..]).0, OneTable(s[..TS_SIZE], PAT_PID), OneTable(s[..TS_SIZE], SDT_PID),
              Tables(s[TS_SIZE..], PAT_PID), Tables(s[TS_SIZE..], SDT_PID));
    } else {
      RegenerateMoves(g, s[1..]);
    }
  }

  // ---- what the reader finds in place of a table ----

  lemma SliceOfConcat(a: seq<byte>, b: seq<byte>, i: nat, j: nat)
    requires |a| <= i <= j <= |a| + |b|
    ensures (a + b)[i..j] == b[i - |a|..j - |a|]
  {
  }

  lemma SliceOfRest(s: seq<byte>, n: nat, i: nat, j: nat)
    requires n <= i <= j <= |s|
    ensures s[n..][i - n..j - n] == s[i..j]
  {
  }

  // In out, the scan stopped at o with the generator h.
  ghost predicate StopsWith(g: Generator, s: seq<byte>, out: seq<byte>, o: nat, h: Generator) {
    && Ready(h) && o + TS_SIZE <= |s| == |out|
    && Moved(g, h, Tables(s[..o], PAT_PID), Tables(s[..o], SDT_PID))
    && out[o..o + TS_SIZE] == Replace(h, s[o..o + TS_SIZE]).1
  }

  lemma StopAtFirst(g: Generator, s: seq<byte>, out: seq<byte>)
    requires Ready(g) && |s| >= TS_SIZE && s[0] == TS_SYNC && out == Regenerate(g, s).1
    ensures StopsWith(g, s, out, 0, g)
  {
    NotMoved(g);
    var (k, p) := Replace(g, s[..TS_SIZE]);
    assert out[..TS_SIZE] == p;
  }

  lemma StopPastByte(g: Generator, s: seq<byte>, rest: seq<byte>, o: nat, h: Generator)
    requires 0 < o && o + TS_SIZE <= |s| && s[0] != TS_SYNC && StopsWith(g, s[1..], rest, o - 1, h)
    ensures StopsWith(g, s, [s[0]] + rest, o, h)
  {
    TablesSkip(s, o, PAT_PID);
    TablesSkip(s, o, SDT_PID);
    SliceOfConcat([s[0]], rest, o, o + TS_SIZE);
    SliceOfRest(s, 1, o, o + TS_SIZE);
  }

  // The generator at o, seen from before the first packet.
  lemma MovedPast(g: Generator, s: seq<byte>, o: nat, k: Generator, h: Generator)
    requires Ready(g) && TS_SIZE <= o <= |s| && s[0] == TS_SYNC && k == Replace(g, s[..TS_SIZE]).0
    requires var rest := s[TS_SIZE..][..o - TS_SIZE]; Moved(k, h, Tables(rest, PAT_PID), Tables(rest, SDT_PID))
    ensures Moved(g, h, Tables(s[..o], PAT_PID), Tables(s[..o], SDT_PID))
  {
    var first, rest := s[..TS_SIZE], s[TS_SIZE..][..o - TS_SIZE];
    ReplaceMoves(g, first, k);
    MovedOn(g, k, h, OneTable(first, PAT_PID), OneTable(first, SDT_PID), Tables(rest, PAT_PID), Tables(rest, SDT_PID));
    TablesPast(s, o, PAT_PID);
    TablesPast(s, o, SDT_PID);
  }

  lemma StopPastPacket(g: Generator, s: seq<byte>, p: seq<byte>, rest: seq<byte>, o: nat, k: Generator, h: Generator)
    requires TS_SIZE <= o && o + TS_SIZE <= |s| && |p| == TS_SIZE && StopsWith(k, s[TS_SIZE..], rest, o - TS_SIZE, h)
    requires Moved(g, h, Tables(s[..o], PAT_PID), Tables(s[..o], SDT_PID))
    ensures StopsWith(g, s, p + rest, o, h)
  {
    SliceOfConcat(p, rest, o, o + TS_SIZE);
    SliceOfRest(s, TS_SIZE, o, o + TS_SIZE);
  }

  lemma PacketLater(g: Generator, s: seq<byte>, o: nat)
    requires Ready(g) && PacketOf(s, o) == Some(o) && s[0] == TS_SYNC && o > 0
    ensures TS_SIZE <= o && PacketOf(s[TS_SIZE..], o - TS_SIZE) == Some(o - TS_SIZE)
    ensures var (k, p) := Replace(g, s[..TS_SIZE]);
      Ready(k) && |p| == TS_SIZE && Regenerate(g, s).1 == p + Regenerate(k, s[TS_SIZE..]).1
  {
  }

  lemma ByteLater(g: Generator, s: seq<byte>, o: nat)
    requires Ready(g) && PacketOf(s, o) == Some(o) && s[0] != TS_SYNC
    ensures 0 < o && PacketOf(s[1..], o - 1) == Some(o - 1)
    ensures Regenerate(g, s).1 == [s[0]] + Regenerate(g, s[1..]).1
  {
  }

  // The packet that the reader gets where the scan stops at o.
  lemma {:induction false} PacketAt(g: Generator, s: seq<byte>, out: seq<byte>, o: nat) returns (h: Generator)
    requires Ready(g) && out == Regenerate(g, s).1 && PacketOf(s, o) == Some(o)
    ensures StopsWith(g, s, out, o, h)
    decreases |s|, 1
  {
    if s[0] != TS_SYNC {
      h := PacketPastByte(g, s, out, o);
    } else if o == 0 {
      h := g;
      StopAtFirst(g, s, out);
    } else {
      h := PacketPastPacket(g, s, out, o);
    }
  }

  lemma {:induction false} PacketPastByte(g: Generator, s: seq<byte>, out: seq<byte>, o: nat) returns (h: Generator)
    requires Ready(g) && out == Regenerate(g, s).1 && PacketOf(s, o) == Some(o) && s[0] != TS_SYNC
    ensures StopsWith(g, s, out, o, h)
    decreases |s|, 0
  {
    ByteLater(g, s, o);
    var rest := Regenerate(g, s[1..]).1;
    h := PacketAt(g, s[1..], rest, o - 1);
    StopPastByte(g, s, rest, o, h);
  }

  lemma {:induction false} PacketPastPacket(g: Generator, s: seq<byte>, out: seq<byte>, o: nat) returns (h: Generator)
    requires Ready(g) && out == Regenerate(g, s).1 && PacketOf(s, o) == Some(o) && s[0] == TS_SYNC && o > 0
    ensures StopsWith(g, s, out, o, h)
    decreases |s|, 0
  {
    PacketLater(g, s, o);
    var (k, p) := Replace(g, s[..TS_SIZE]);
    var rest := Regenerate(k, s[TS_SIZE..]).1;
    h := PacketAt(k, s[TS_SIZE..], rest, o - TS_SIZE);
    StopLater(g, s, out, p, rest, o, k, h);
  }

  lemma StopLater(g: Generator, s: seq<byte>, out: seq<byte>, p: seq<byte>, rest: seq<byte>, o: nat, k: Generator,
                  h: Generator)
    requires Ready(g) && TS_SIZE <= o && o + TS_SIZE <= |s| && s[0] == TS_SYNC && (k, p) == Replace(g, s[..TS_SIZE])
    requires out == p + rest && StopsWith(k, s[TS_SIZE..], rest, o - TS_SIZE, h)
    ensures StopsWith(g, s, out, o, h)
  {
    MovedPast(g, s, o, k, h);
    StopPastPacket(g, s, p, rest, o, k, h);
  }

  lemma TablesSkip(s: seq<byte>, o: nat, pid: nat)
    requires 0 < o <= |s| && s[0] != TS_SYNC
    ensures Tables(s[..o], pid) == Tables(s[1..][..o - 1], pid)
  {
    if o >= TS_SIZE {
      assert s[..o][1..] == s[1..][..o - 1];
    }
  }

  lemma TablesPast(s: seq<byte>, o: nat, pid: nat)
    requires TS_SIZE <= o <= |s| && s[0] == TS_SYNC
    ensures Tables(s[..o], pid) == OneTable(s[..TS_SIZE], pid) + Tables(s[TS_SIZE..][..o - TS_SIZE], pid)
  {
    assert s[..o][..TS_SIZE] == s[..TS_SIZE] && s[..o][TS_SIZE..] == s[TS_SIZE..][..o - TS_SIZE];
  }

  // The table `pat`, with continuity counter c.
  ghost predicate CarriesTable(p: seq<byte>, pat: seq<byte>, c: nat) {
    Restamped(pat, p) && p[3] % 16 == c
  }

  // The generated table, n tables on from g.
  ghost predicate ShowsTable(g: Generator, pkt: seq<byte>, n: nat) { CarriesTable(pkt, g.pat, (g.patCounter + n) % 16) }

  // The generated description packet whose turn it is, n on from g.
  ghost predicate ShowsDescription(g: Generator, pkt: seq<byte>, n: nat) {
    g.sdts != [] && Ready(g) && CarriesTable(pkt, g.sdts[Turned(g.cur, |g.sdts|, n)], (g.sdtCounter + n) % 16)
  }

  lemma SamePid(s: seq<byte>, o: nat)
    requires o + TS_SIZE <= |s|
    ensures Pid(s[o..o + TS_SIZE], 0) == Pid(s, o)
  {
  }

  lemma Stamped(p: seq<byte>, c: nat)
    requires |p| == TS_SIZE && c <= 16
    ensures CarriesTable(Stamp(p, Rewound(c)), p, c % 16)
  {
  }

  // In place of each program association table the reader gets the generated one,
  // and its continuity counter runs on over all tables before it, modulo 16.
  lemma TableCarriesCounter(g: Generator, s: seq<byte>, out: seq<byte>, o: nat)
    requires Ready(g) && out == Regenerate(g, s).1 && PacketOf(s, o) == Some(o) && Pid(s, o) == PAT_PID
    ensures ShowsTable(g, out[o..o + TS_SIZE], Tables(s[..o], PAT_PID))
  {
    var h := PacketAt(g, s, out, o);
    TableAtStop(g, s, out, o, h);
  }

  lemma TableAtStop(g: Generator, s: seq<byte>, out: seq<byte>, o: nat, h: Generator)
    requires Ready(g) && StopsWith(g, s, out, o, h) && Pid(s, o) == PAT_PID
    ensures ShowsTable(g, out[o..o + TS_SIZE], Tables(s[..o], PAT_PID))
  {
    SamePid(s, o);
    TableOf(g, h, s[o..o + TS_SIZE], out[o..o + TS_SIZE], Tables(s[..o], PAT_PID));
  }

  lemma TableOf(g: Generator, h: Generator, pkt: seq<byte>, p: seq<byte>, n: nat)
    requires Ready(g) && Ready(h) && SameTables(g, h) && h.patCounter == Advance(g.patCounter, n)
    requires |pkt| == TS_SIZE && Pid(pkt, 0) == PAT_PID && p == Replace(h, pkt).1
    ensures CarriesTable(p, g.pat, (g.patCounter + n) % 16)
  {
    Stamped(h.pat, h.patCounter);
    RestampedTwice(g.pat, h.pat, p);
    AdvanceModulo(g.patCounter, n);
  }

  // In place of each service description the reader gets the next of the generated
  // packets, in turn, and their common counter runs on likewise.
  lemma DescriptionCarriesCounter(g: Generator, s: seq<byte>, out: seq<byte>, o: nat)
    requires Ready(g) && out == Regenerate(g, s).1 && PacketOf(s, o) == Some(o) && Pid(s, o) == SDT_PID && g.sdts != []
    ensures ShowsDescription(g, out[o..o + TS_SIZE], Tables(s[..o], SDT_PID))
  {
    var h := PacketAt(g, s, out, o);
    DescriptionAtStop(g, s, out, o, h);
  }

  lemma DescriptionAtStop(g: Generator, s: seq<byte>, out: seq<byte>, o: nat, h: Generator)
    requires Ready(g) && StopsWith(g, s, out, o, h) && Pid(s, o) == SDT_PID && g.sdts != []
    ensures ShowsDescription(g, out[o..o + TS_SIZE], Tables(s[..o], SDT_PID))
  {
    SamePid(s, o);
    DescriptionOf(g, h, s[o..o + TS_SIZE], out[o..o + TS_SIZE], Tables(s[..o], SDT_PID), h.cur);
  }

  lemma DescriptionOf(g: Generator, h: Generator, pkt: seq<byte>, p: seq<byte>, n: nat, cur: nat)
    requires Ready(g) && Ready(h) && SameTables(g, h) && h.sdtCounter == Advance(g.sdtCounter, n)
    requires g.sdts != [] && h.cur == cur
    requires |pkt| == TS_SIZE && Pid(pkt, 0) == SDT_PID && p == Replace(h, pkt).1
    ensures CarriesTable(p, g.sdts[cur], (g.sdtCounter + n) % 16)
  {
    assert h.sdts[cur] in h.sdts;
    Stamped(h.sdts[cur], h.sdtCounter);
    RestampedTwice(g.sdts[cur], h.sdts[cur], p);
    AdvanceModulo(g.sdtCounter, n);
  }

  // Without generated description packets the reader gets a null packet in place of
  // each service description, with its other bytes as they were.
  lemma DescriptionBecomesNull(g: Generator, s: seq<byte>, out: seq<byte>, o: nat)
    requires Ready(g) && out == Regenerate(g, s).1 && g.sdts == [] && PacketOf(s, o) == Some(o) && Pid(s, o) == SDT_PID
    ensures out[o..o + TS_SIZE] == [0x47, 0x1f, 0xff, 0] + s[o + 4..o + TS_SIZE]
  {
    var h := PacketAt(g, s, out, o);
    NullAtStop(g, s, out, o, h);
  }

  lemma NullAtStop(g: Generator, s: seq<byte>, out: seq<byte>, o: nat, h: Generator)
    requires StopsWith(g, s, out, o, h) && g.sdts == [] && Pid(s, o) == SDT_PID
    ensures out[o..o + TS_SIZE] == [0x47, 0x1f, 0xff, 0] + s[o + 4..o + TS_SIZE]
  {
    SamePid(s, o);
    NullOf(h, s[o..o + TS_SIZE], out[o..o + TS_SIZE]);
    assert s[o..o + TS_SIZE][4..] == s[o + 4..o + TS_SIZE];
  }

  lemma NullOf(h: Generator, pkt: seq<byte>, p: seq<byte>)
    requires Ready(h) && h.sdts == [] && |pkt| == TS_SIZE && Pid(pkt, 0) == SDT_PID && p == Replace(h, pkt).1
    ensures p == [0x47, 0x1f, 0xff, 0] + pkt[4..]
  {
  }

  lemma ReplaceCounts(g: Generator, pkt: seq<byte>, k: Generator)
    requires Ready(g) && |pkt| == TS_SIZE && k == Replace(g, pkt).0
    ensures var one := OneTable(pkt, PAT_PID);
      Ready(k) && (k.patCounter == g.patCounter + one || (g.patCounter == 16 && k.patCounter == one == 1))
  {
  }

  // And from node to node, the counter runs on over the tables of each.
  lemma {:induction false} ContinuityRunsOn(g: Generator, s: seq<byte>)
    requires Ready(g)
    ensures Regenerate(g, s).0.patCounter % 16 == (g.patCounter + Tables(s, PAT_PID)) % 16
    decreases |s|
  {
    if |s| >= TS_SIZE && s[0] == TS_SYNC {
      var k := Replace(g, s[..TS_SIZE]).0;
      ReplaceCounts(g, s[..TS_SIZE], k);
      ContinuityRunsOn(k, s[TS_SIZE..]);
      ShiftModulo(k.patCounter, g.patCounter, OneTable(s[..TS_SIZE], PAT_PID), Tables(s[TS_SIZE..], PAT_PID));
    } else if |s| >= TS_SIZE {
      ContinuityRunsOn(g, s[1..]);
    }
  }

  lemma ShiftModulo(k: nat, c: nat, one: nat, n: nat)
    requires k == c + one || (c == 16 && k == one == 1)
    ensures (k + n) % 16 == (c + (one + n)) % 16
  {
  }

  predicate OnGrid(g: Generator) { Ready(g) && g.pat[0] == TS_SYNC && forall p <- g.sdts :: p[0] == TS_SYNC }

  lemma PacketOnGrid(g: Generator, pkt: seq<byte>)
    requires OnGrid(g) && |pkt| == TS_SIZE && pkt[0] == TS_SYNC
    ensures OnGrid(Replace(g, pkt).0) && Replace(g, pkt).1[0] == TS_SYNC
  {
  }

  lemma LastIsWhole(s: seq<byte>, i: nat)
    requires Whole(s) && i < |s|
    ensures |s| >= TS_SIZE && (i >= TS_SIZE ==> i - TS_SIZE < |s[TS_SIZE..]|)
    ensures i >= TS_SIZE && i % TS_SIZE == 0 ==> (i - TS_SIZE) % TS_SIZE == 0
    ensures 0 < i < TS_SIZE ==> i % TS_SIZE != 0
  {
  }

  // Neither a generated table nor a null packet loses the packet grid.
  lemma {:induction false} GridIsKept(g: Generator, s: seq<byte>, i: nat)
    requires OnGrid(g) && Aligned(s) && Whole(s) && i < |s| && i % TS_SIZE == 0
    ensures Regenerate(g, s).1[i] == TS_SYNC
    decreases |s|
  {
    SyncAt(s, 0);
    LastIsWhole(s, i);
    PacketOnGrid(g, s[..TS_SIZE]);
    var (h, p) := Replace(g, s[..TS_SIZE]);
    if i >= TS_SIZE {
      AlignedRest(s);
      GridIsKept(h, s[TS_SIZE..], i - TS_SIZE);
    }
  }

  // What remains to be done is Regenerate of the rest.
  ghost predicate Half(g0: Generator, data: seq<byte>, g: Generator, done: seq<byte>, rest: seq<byte>)
    requires Ready(g0) && Ready(g)
  {
    var (k, s) := Regenerate(g0, data);
    k == Regenerate(g, rest).0 && s == done + Regenerate(g, rest).1
  }

  lemma StepPacket(g0: Generator, data: seq<byte>, g: Generator, done: seq<byte>, rest: seq<byte>, h: Generator,
                   p: seq<byte>)
    requires Ready(g0) && Ready(g) && Half(g0, data, g, done, rest)
    requires |rest| >= TS_SIZE && rest[0] == TS_SYNC && (h, p) == Replace(g, rest[..TS_SIZE])
    ensures Half(g0, data, h, done + p, rest[TS_SIZE..])
  {
    var more := Regenerate(h, rest[TS_SIZE..]).1;
    assert done + (p + more) == (done + p) + more;
  }

  lemma StepByte(g0: Generator, data: seq<byte>, g: Generator, done: seq<byte>, rest: seq<byte>)
    requires Ready(g0) && Ready(g) && Half(g0, data, g, done, rest)
    requires |rest| >= TS_SIZE && rest[0] != TS_SYNC
    ensures Half(g0, data, g, done + [rest[0]], rest[1..])
  {
    var more := Regenerate(g, rest[1..]).1;
    assert done + ([rest[0]] + more) == (done + [rest[0]]) + more;
  }

  // The scan of d has come to off, with the generator g.
  ghost predicate Scanned(g0: Generator, data: seq<byte>, g: Generator, d: seq<byte>, off: nat)
    requires Ready(g0)
  {
    Ready(g) && off <= |d| == |data| && Half(g0, data, g, d[..off], d[off..])
  }

  lemma ScanBegins(g0: Generator, data: seq<byte>)
    requires Ready(g0)
    ensures Scanned(g0, data, g0, data, 0)
  {
    assert data[0..] == data && data[..0] == [] && [] + Regenerate(g0, data).1 == Regenerate(g0, data).1;
  }

  lemma PacketDone(g0: Generator, data: seq<byte>, g: Generator, d: seq<byte>, off: nat, h: Generator, p: seq<byte>)
    requires Ready(g0) && off + TS_SIZE <= |d| && Scanned(g0, data, g, d, off)
    requires d[off] == TS_SYNC && (h, p) == Replace(g, d[off..off + TS_SIZE])
    ensures Scanned(g0, data, h, Overwrite(d, off, p), off + TS_SIZE)
  {
    var done, rest, e := d[..off], d[off..], Overwrite(d, off, p);
    assert rest[..TS_SIZE] == d[off..off + TS_SIZE];
    StepPacket(g0, data, g, done, rest, h, p);
    assert e[..off + TS_SIZE] == done + p && e[off + TS_SIZE..] == rest[TS_SIZE..];
  }

  lemma ByteDone(g0: Generator, data: seq<byte>, g: Generator, d: seq<byte>, off: nat)
    requires Ready(g0) && off + TS_SIZE <= |d| && Scanned(g0, data, g, d, off)
    requires d[off] != TS_SYNC
    ensures Scanned(g0, data, g, d, off + 1)
  {
    var done, rest := d[..off], d[off..];
    StepByte(g0, data, g, done, rest);
    assert d[..off + 1] == done + [rest[0]] && d[off + 1..] == rest[1..];
  }

  lemma Finished(g0: Generator, data: seq<byte>, g: Generator, d: seq<byte>, off: nat)
    requires Ready(g0) && |d| < off + TS_SIZE && Scanned(g0, data, g, d, off)
    ensures (g, d) == Regenerate(g0, data)
  {
    assert d == d[..off] + d[off..];
  }

  // The scanning loop itself.
  method ReplacePat(g0: Generator, data: seq<byte>) returns (g: Generator, d: seq<byte>)
    requires Ready(g0)
    ensures (g, d) == Regenerate(g0, data)
  {
    g, d := g0, data;
    var off := 0;
    ScanBegins(g0, data);
    while off + TS_SIZE <= |d|
      invariant 0 <= off <= |d| == |data| && Ready(g)
      invariant Scanned(g0, data, g, d, off)
    {
      if d[off] == TS_SYNC {
        var h, p := ReplacePacket(g, d[off..off + TS_SIZE]);
        PacketDone(g0, data, g, d, off, h, p);
        g, d := h, Overwrite(d, off, p);
        off := off + TS_SIZE;
      } else {
        ByteDone(g0, data, g, d, off);
        off := off + 1;
      }
    }
    Finished(g0, data, g, d, off);
  }

  // memcpy(&data[off], p, 188)
  function Overwrite(d: seq<byte>, off: nat, p: seq<byte>): (r: seq<byte>)
    requires off + |p| <= |d|
    ensures |r| == |d| && r[..off] == d[..off] && r[off..off + |p|] == p && r[off + |p|..] == d[off + |p|..]
  {
    d[..off] + p + d[off + |p|..]
  }

  // The body of the loop for one packet.
  method ReplacePacket(g0: Generator, pkt: seq<byte>) returns (g: Generator, p: seq<byte>)
    requires Ready(g0) && |pkt| == TS_SIZE
    ensures (g, p) == Replace(g0, pkt)
  {
    g, p := g0, pkt;
    var pid := Pid(pkt, 0);
    if pid == PAT_PID {
      if g.patCounter == 16 { g := g.(patCounter := 0); }
      g := g.(pat := g.pat[3 := LowHalf(g.pat[3], g.patCounter)]);
      g := g.(patCounter := g.patCounter + 1);
      p := g.pat;
    } else if pid == SDT_PID {
      if g.sdts == [] {
        p := pkt[0 := 0x47][1 := 0x1f][2 := 0xff][3 := 0];
        assert p == [0x47, 0x1f, 0xff, 0] + pkt[4..];
        return;
      }
      var k := g.cur;
      g := g.(cur := g.cur + 1);
      if g.cur >= |g.sdts| { g := g.(cur := 0); }
      if g.sdtCounter == 16 { g := g.(sdtCounter := 0); }
      p := g.sdts[k][3 := LowHalf(g.sdts[k][3], g.sdtCounter)];
      g := g.(sdts := g.sdts[k := p], sdtCounter := g.sdtCounter + 1);
    }
  }
}
