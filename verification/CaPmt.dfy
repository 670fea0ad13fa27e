// The conditional access PMT (en50221_app_ca.c): which descriptors it takes from a
// program map, where it puts them, and what its bytes mean to a receiver that reads
// them as section 8.4.3.4 of EN 50221 defines.
module CaPmt {
  import opened Bytes

  const CA_TAG: byte := 0x09
  const LOOP_LIMIT := 4096

  // A descriptor: a tag, a length, and that many bytes.
  predicate IsDescriptor(d: seq<byte>) { |d| >= 2 && |d| - 2 == d[1] }

  type Descriptors = seq<seq<byte>>

  predicate Proper(ds: Descriptors) { forall d <- ds :: IsDescriptor(d) }

  datatype Stream = Stream(streamType: byte, pid: nat, descriptors: Descriptors)

  datatype Pmt = Pmt(program: u16, version: nat, currentNext: nat, descriptors: Descriptors, streams: seq<Stream>)

  // The field widths of a program map section.
  predicate Sound(p: Pmt) {
    p.version < 32 && p.currentNext < 2 && Proper(p.descriptors)
    && forall s <- p.streams :: s.pid < 0x2000 && Proper(s.descriptors)
  }

  // ---- extraction ----

  function CaOnly(ds: Descriptors): (r: Descriptors)
    requires Proper(ds)
    ensures Proper(r)
  {
    if ds == [] then []
    else
      var d := ds[|ds| - 1];
      assert IsDescriptor(d);
      CaOnly(ds[..|ds| - 1]) + if d[0] == CA_TAG then [d] else []
  }

  function CaStreams(ss: seq<Stream>): (r: seq<Stream>)
    requires forall s <- ss :: Proper(s.descriptors)
    ensures |r| == |ss|
    ensures forall i :: 0 <= i < |ss| ==> r[i] == ss[i].(descriptors := CaOnly(ss[i].descriptors))
  {
    seq(|ss|, i requires 0 <= i < |ss| => ss[i].(descriptors := CaOnly(ss[i].descriptors)))
  }

  // en50221_ca_extract_pmt_descriptors
  method ExtractDescriptors(ds: Descriptors) returns (r: Descriptors)
    requires Proper(ds)
    ensures r == CaOnly(ds)
  {
    r := [];
    for i := 0 to |ds|
      invariant r == CaOnly(ds[..i])
    {
      assert ds[..i + 1][..i] == ds[..i] && IsDescriptor(ds[i]);
      if ds[i][0] == CA_TAG { r := r + [ds[i]]; }
    }
    assert ds[..|ds|] == ds;
  }

  // en50221_ca_extract_streams
  method ExtractStreams(ss: seq<Stream>) returns (r: seq<Stream>)
    requires forall s <- ss :: Proper(s.descriptors)
    ensures r == CaStreams(ss)
  {
    r := [];
    for i := 0 to |ss|
      invariant |r| == i && forall k :: 0 <= k < i ==> r[k] == ss[k].(descriptors := CaOnly(ss[k].descriptors))
    {
      var ds := ExtractDescriptors(ss[i].descriptors);
      r := r + [ss[i].(descriptors := ds)];
    }
  }

  // The CA descriptors among the first n.
  function CaAmong(ds: Descriptors, n: nat): nat
    requires Proper(ds) && n <= |ds|
  {
    if n == 0 then 0 else CaAmong(ds, n - 1) + (assert IsDescriptor(ds[n - 1]); if ds[n - 1][0] == 0x09 then 1 else 0)
  }

  lemma {:induction false} CaAmongPrefix(ds: Descriptors, k: nat, n: nat)
    requires Proper(ds) && n <= k <= |ds|
    ensures CaAmong(ds[..k], n) == CaAmong(ds, n) <= n
    decreases n
  {
    if n > 0 { CaAmongPrefix(ds, k, n - 1); }
  }

  // The CA descriptors are taken, each once and in order, and no others.
  lemma {:induction false} CaOnlyKeepsCa(ds: Descriptors, i: nat)
    requires Proper(ds) && i <= |ds|
    ensures |CaOnly(ds)| == CaAmong(ds, |ds|)
    ensures i < |ds| && IsDescriptor(ds[i]) && ds[i][0] == 0x09 ==>
      CaAmong(ds, i) < |CaOnly(ds)| && CaOnly(ds)[CaAmong(ds, i)] == ds[i]
  {
    if ds != [] {
      var k := |ds| - 1;
      CaOnlyKeepsCa(ds[..k], if i < k then i else k);
      CaAmongPrefix(ds, k, k);
      if i < k { CaAmongPrefix(ds, k, i); }
    }
  }

  // ---- moving the streams' descriptors to the program ----

  predicate Movable(ss: seq<Stream>) {
    ss != [] && forall s <- ss :: s.descriptors == ss[0].descriptors
  }

  function Stripped(ss: seq<Stream>): (r: seq<Stream>)
    ensures |r| == |ss| && forall i :: 0 <= i < |ss| ==> r[i] == ss[i].(descriptors := [])
  {
    seq(|ss|, i requires 0 <= i < |ss| => ss[i].(descriptors := []))
  }

  // en50221_ca_try_move_pmt_descriptors, called with no program descriptors
  method TryMove(ss: seq<Stream>) returns (ds: Descriptors, r: seq<Stream>)
    ensures (ds, r) == if Movable(ss) then (ss[0].descriptors, Stripped(ss)) else ([], ss)
  {
    ds, r := [], ss;
    if ss == [] { return; }
    var i := 1;
    while i < |ss|
      invariant 1 <= i <= |ss| && forall k :: 0 <= k < i ==> ss[k].descriptors == ss[0].descriptors
    {
      assert ss[i] in ss;
      if |ss[i].descriptors| != |ss[0].descriptors| { return; }
      var k := 0;
      while k < |ss[i].descriptors|
        invariant 0 <= k <= |ss[i].descriptors| && ss[i].descriptors[..k] == ss[0].descriptors[..k]
      {
        if |ss[i].descriptors[k]| != |ss[0].descriptors[k]| { return; }
        if ss[i].descriptors[k] != ss[0].descriptors[k] { return; }
        k := k + 1;
      }
      assert ss[i].descriptors[..k] == ss[i].descriptors && ss[0].descriptors[..k] == ss[0].descriptors;
      i := i + 1;
    }
    ds := ss[0].descriptors;
    i := 0;
    while i < |ss|
      invariant 0 <= i <= |ss| == |r|
      invariant forall k :: 0 <= k < |ss| ==> r[k] == if k < i then ss[k].(descriptors := []) else ss[k]
    {
      r := r[i := r[i].(descriptors := [])];
      i := i + 1;
    }
    assert r == Stripped(ss) && Movable(ss);
  }

  // What the CA PMT is made from.
  function Prepared(p: Pmt, move: bool): (Descriptors, seq<Stream>)
    requires Sound(p)
  {
    var ds, ss := CaOnly(p.descriptors), CaStreams(p.streams);
    if ds == [] && move && Movable(ss) then (ss[0].descriptors, Stripped(ss)) else (ds, ss)
  }

  // Moved or not, every stream keeps its type, its pid and the list of CA
  // descriptors that apply to it.
  lemma EffectiveListsAreKept(p: Pmt, move: bool, i: nat)
    requires Sound(p) && i < |p.streams|
    ensures var (ds, ss) := Prepared(p, move);
      && |ss| == |p.streams| && ss[i].pid == p.streams[i].pid && ss[i].streamType == p.streams[i].streamType
      && ds + ss[i].descriptors == CaOnly(p.descriptors) + CaOnly(p.streams[i].descriptors)
  {
    var ds, ss := CaOnly(p.descriptors), CaStreams(p.streams);
    if ds == [] && move && Movable(ss) {
      assert ss[i] in ss && ss[i].descriptors == ss[0].descriptors;
      assert ss[0].descriptors + [] == ss[0].descriptors && [] + ss[0].descriptors == ss[0].descriptors;
    }
  }

  // The descriptors are moved exactly when that is asked for, the program has none of
  // its own, and all streams have the same.
  lemma MovesIff(p: Pmt, move: bool)
    requires Sound(p)
    ensures var (ds, ss) := Prepared(p, move);
      var all := CaOnly(p.descriptors);
      var same := p.streams != [] && forall i :: 0 <= i < |p.streams| ==>
        CaOnly(p.streams[i].descriptors) == CaOnly(p.streams[0].descriptors);
      && |ss| == |p.streams|
      && if move && all == [] && same then
           ds == CaOnly(p.streams[0].descriptors) && forall i :: 0 <= i < |ss| ==> ss[i].descriptors == []
         else
           ds == all && forall i :: 0 <= i < |ss| ==> ss[i].descriptors == CaOnly(p.streams[i].descriptors)
  {
    var ss := CaStreams(p.streams);
    forall i | 0 <= i < |ss| ensures ss[i] in ss {}
  }

  // ---- lengths ----

  function LoopLength(ds: Descriptors): nat {
    if ds == [] then 0 else 1 + |Flatten(ds)|
  }

  function StreamsLength(ss: seq<Stream>): nat {
    if ss == [] then 0 else StreamsLength(ss[..|ss| - 1]) + 5 + LoopLength(ss[|ss| - 1].descriptors)
  }

  lemma FlattenSize(ds: Descriptors)
    requires Proper(ds)
    ensures ds != [] ==> |Flatten(ds)| >= 2
  {
    if ds != [] { assert IsDescriptor(ds[0]); }
  }

  // The accumulating loop over one list of descriptors.
  method DescriptorsLength(ds: Descriptors) returns (n: nat)
    requires Proper(ds)
    ensures n == LoopLength(ds)
  {
    n := 0;
    for i := 0 to |ds|
      invariant n == |Flatten(ds[..i])|
    {
      assert ds[..i + 1] == ds[..i] + [ds[i]];
      FlattenOne(ds[..i], ds[i]);
      n := n + |ds[i]|;
    }
    assert ds[..|ds|] == ds;
    FlattenSize(ds);
    if n != 0 { n := n + 1; }
  }

  // en50221_ca_calculate_length
  method CalculateLength(ds: Descriptors, ss: seq<Stream>) returns (total: nat, loop: nat)
    requires Proper(ds) && forall s <- ss :: Proper(s.descriptors)
    ensures total == 6 + LoopLength(ds) + StreamsLength(ss) && loop == LoopLength(ds)
  {
    loop := DescriptorsLength(ds);
    total := 6 + loop;
    for i := 0 to |ss|
      invariant total == 6 + LoopLength(ds) + StreamsLength(ss[..i])
    {
      assert ss[..i + 1][..i] == ss[..i];
      var n := DescriptorsLength(ss[i].descriptors);
      total := total + 5 + n;
    }
    assert ss[..|ss|] == ss;
  }

  lemma {:induction false} StrippedIsShorter(ss: seq<Stream>)
    requires Movable(ss)
    ensures LoopLength(ss[0].descriptors) + StreamsLength(Stripped(ss)) <= StreamsLength(ss)
  {
    var init := ss[..|ss| - 1];
    assert Stripped(ss)[..|ss| - 1] == Stripped(init);
    assert ss[|ss| - 1] in ss;
    if init != [] {
      assert init[0] == ss[0] && forall s <- init :: s in ss;
      StrippedIsShorter(init);
    }
  }

  // Moving never makes the message longer.
  lemma MovingIsNeverLonger(p: Pmt)
    requires Sound(p)
    ensures var (ds, ss) := Prepared(p, true);
      LoopLength(ds) + StreamsLength(ss) <= LoopLength(CaOnly(p.descriptors)) + StreamsLength(CaStreams(p.streams))
  {
    var ds, ss := CaOnly(p.descriptors), CaStreams(p.streams);
    if ds == [] && Movable(ss) { StrippedIsShorter(ss); }
  }

  // ---- the bytes ----

  function LoopBytes(ds: Descriptors, cmd: byte): (b: seq<byte>)
    ensures |b| == LoopLength(ds)
  {
    if ds == [] then [] else [cmd] + Flatten(ds)
  }

  // A 12-bit length field, as two bytes.
  function Field(n: nat): seq<byte> { [n / 256 % 16, n % 256] }

  function StreamBytes(s: Stream, cmd: byte): (b: seq<byte>)
    ensures |b| == 5 + LoopLength(s.descriptors)
  {
    [s.streamType, s.pid / 256 % 32, s.pid % 256] + Field(LoopLength(s.descriptors)) + LoopBytes(s.descriptors, cmd)
  }

  function StreamsBytes(ss: seq<Stream>, cmd: byte): (b: seq<byte>)
    ensures |b| == StreamsLength(ss)
  {
    if ss == [] then [] else StreamsBytes(ss[..|ss| - 1], cmd) + StreamBytes(ss[|ss| - 1], cmd)
  }

  function Header(p: Pmt, list: byte, loop: nat): (b: seq<byte>)
    ensures |b| == 6
  {
    [list, Hi(p.program), Lo(p.program), (p.version * 2 + p.currentNext) % 256] + Field(loop)
  }

  function Message(p: Pmt, ds: Descriptors, ss: seq<Stream>, list: byte, cmd: byte): (b: seq<byte>)
    ensures |b| == 6 + LoopLength(ds) + StreamsLength(ss)
  {
    Header(p, list, LoopLength(ds)) + LoopBytes(ds, cmd) + StreamsBytes(ss, cmd)
  }

  // ---- what a receiver reads ----

  datatype Loop = Loop(cmd: Option<byte>, descriptors: Descriptors)

  datatype CaStream = CaStream(streamType: byte, pid: nat, loop: Loop)

  datatype CaPmt = CaPmt(list: byte, program: nat, version: nat, currentNext: nat, loop: Loop, streams: seq<CaStream>)

  function ParseDescriptors(s: seq<byte>): (r: Option<Descriptors>)
    ensures r.Some? ==> Flatten(r.value) == s
  {
    if s == [] then Some([])
    else if |s| < 2 || |s| - 2 < s[1] then None
    else
      var n: nat := s[1];
      match ParseDescriptors(s[n + 2..])
      case None => None
      case Some(more) => Some([s[..n + 2]] + more)
  }

  // The loop that begins with its length field; the rest follows it.
  function ParseLoop(s: seq<byte>): (r: Option<(Loop, seq<byte>)>)
    ensures r.Some? ==> |r.value.1| + 2 <= |s| && LoopLength(r.value.0.descriptors) < LOOP_LIMIT
  {
    if |s| < 2 then None
    else
      var hi: nat, lo: nat := s[0], s[1];
      var n := hi % 16 * 256 + lo;
      if n == 0 then Some((Loop(None, []), s[2..]))
      else if |s| - 2 < n then None
      else
        match ParseDescriptors(s[3..n + 2])
        case None => None
        case Some(ds) => Some((Loop(Some(s[2]), ds), s[n + 2..]))
  }

  function ParseStreams(s: seq<byte>): (r: Option<seq<CaStream>>)
    ensures r.Some? ==> forall t <- r.value :: LoopLength(t.loop.descriptors) < LOOP_LIMIT
    decreases |s|
  {
    if s == [] then Some([])
    else if |s| < 5 then None
    else
      match ParseLoop(s[3..])
      case None => None
      case Some((loop, rest)) =>
        match ParseStreams(rest)
        case None => None
        case Some(more) =>
          var hi: nat, lo: nat := s[1], s[2];
          Some([CaStream(s[0], hi % 32 * 256 + lo, loop)] + more)
  }

  function Parse(s: seq<byte>): (r: Option<CaPmt>)
    ensures r.Some? ==> LoopLength(r.value.loop.descriptors) < LOOP_LIMIT
    ensures r.Some? ==> forall t <- r.value.streams :: LoopLength(t.loop.descriptors) < LOOP_LIMIT
  {
    if |s| < 6 then None
    else
      match ParseLoop(s[4..])
      case None => None
      case Some((loop, rest)) =>
        match ParseStreams(rest)
        case None => None
        case Some(streams) =>
          var hi: nat, lo: nat, v: nat := s[1], s[2], s[3];
          Some(CaPmt(s[0], hi * 256 + lo, v / 2 % 32, v % 2, loop, streams))
  }

  // ---- the message means what it was made from ----

  function MeantLoop(ds: Descriptors, cmd: byte): Loop {
    if ds == [] then Loop(None, []) else Loop(Some(cmd), ds)
  }

  function MeantStreams(ss: seq<Stream>, cmd: byte): (r: seq<CaStream>) {
    seq(|ss|, i requires 0 <= i < |ss| => CaStream(ss[i].streamType, ss[i].pid, MeantLoop(ss[i].descriptors, cmd)))
  }

  function Meant(p: Pmt, ds: Descriptors, ss: seq<Stream>, list: byte, cmd: byte): CaPmt {
    CaPmt(list, p.program, p.version, p.currentNext, MeantLoop(ds, cmd), MeantStreams(ss, cmd))
  }

  predicate SoundParts(ds: Descriptors, ss: seq<Stream>) {
    Proper(ds) && forall s <- ss :: s.pid < 0x2000 && Proper(s.descriptors)
  }

  predicate Fits(ds: Descriptors, ss: seq<Stream>) {
    LoopLength(ds) < LOOP_LIMIT && forall s <- ss :: LoopLength(s.descriptors) < LOOP_LIMIT
  }

  lemma OneDescriptor(d: seq<byte>, rest: seq<byte>, ds: Descriptors)
    requires IsDescriptor(d) && ParseDescriptors(rest) == Some(ds)
    ensures ParseDescriptors(d + rest) == Some([d] + ds)
  {
    var s := d + rest;
    assert s[1] == d[1] && s[..|d|] == d && s[|d|..] == rest;
  }

  lemma {:induction false} DescriptorsComeBack(ds: Descriptors)
    requires Proper(ds)
    ensures ParseDescriptors(Flatten(ds)) == Some(ds)
  {
    if ds != [] {
      DescriptorsComeBack(ds[1..]);
      OneDescriptor(ds[0], Flatten(ds[1..]), ds[1..]);
      assert [ds[0]] + ds[1..] == ds;
    }
  }

  lemma TwelveBits(n: nat)
    requires n < LOOP_LIMIT
    ensures n / 256 % 16 % 16 * 256 + n % 256 == n
  {
  }

  lemma Slices(s: seq<byte>, a: byte, b: byte, c: byte, body: seq<byte>, rest: seq<byte>)
    requires s == [a, b] + ([c] + body) + rest
    ensures |s| == |body| + 3 + |rest| && s[0] == a && s[1] == b && s[2] == c
    ensures s[3..|body| + 3] == body && s[|body| + 3..] == rest
  {
  }

  lemma LoopOf(s: seq<byte>, n: nat, cmd: byte, body: seq<byte>, rest: seq<byte>, ds: Descriptors)
    requires 0 < n < LOOP_LIMIT && |body| == n - 1 && ParseDescriptors(body) == Some(ds)
    requires s == Field(n) + ([cmd] + body) + rest
    ensures ParseLoop(s) == Some((Loop(Some(cmd), ds), rest))
  {
    TwelveBits(n);
    Slices(s, n / 256 % 16, n % 256, cmd, body, rest);
  }

  lemma LoopComesBack(s: seq<byte>, ds: Descriptors, cmd: byte, rest: seq<byte>)
    requires Proper(ds) && LoopLength(ds) < LOOP_LIMIT
    requires s == Field(LoopLength(ds)) + LoopBytes(ds, cmd) + rest
    ensures ParseLoop(s) == Some((MeantLoop(ds, cmd), rest))
  {
    if ds == [] {
      assert s[2..] == rest;
    } else {
      DescriptorsComeBack(ds);
      LoopOf(s, LoopLength(ds), cmd, Flatten(ds), rest, ds);
    }
  }

  // The streams, from the front.
  lemma {:induction false} StreamsFromFront(ss: seq<Stream>, cmd: byte)
    requires ss != []
    ensures StreamsBytes(ss, cmd) == StreamBytes(ss[0], cmd) + StreamsBytes(ss[1..], cmd)
  {
    var init, last := ss[..|ss| - 1], ss[|ss| - 1];
    if init == [] {
      assert ss[1..] == [];
    } else {
      StreamsFromFront(init, cmd);
      assert ss[1..][..|ss| - 2] == init[1..];
      Associates(StreamBytes(ss[0], cmd), StreamsBytes(init[1..], cmd), StreamBytes(last, cmd));
    }
  }

  lemma MeantFromFront(ss: seq<Stream>, cmd: byte)
    requires ss != []
    ensures MeantStreams(ss, cmd) ==
      [CaStream(ss[0].streamType, ss[0].pid, MeantLoop(ss[0].descriptors, cmd))] + MeantStreams(ss[1..], cmd)
  {
  }

  lemma {:induction false} StreamsComeBack(ss: seq<Stream>, cmd: byte)
    requires forall s <- ss :: s.pid < 0x2000 && Proper(s.descriptors) && LoopLength(s.descriptors) < LOOP_LIMIT
    ensures ParseStreams(StreamsBytes(ss, cmd)) == Some(MeantStreams(ss, cmd))
  {
    if ss == [] {
      assert MeantStreams(ss, cmd) == [];
    } else {
      assert ss[0] in ss;
      StreamsFromFront(ss, cmd);
      StreamsComeBack(ss[1..], cmd);
      StreamComesBack(ss[0], cmd, StreamsBytes(ss[1..], cmd), MeantStreams(ss[1..], cmd));
      MeantFromFront(ss, cmd);
    }
  }

  lemma ThirteenBits(pid: nat, hi: byte, lo: byte)
    requires pid < 0x2000 && hi == pid / 256 % 32 && lo == pid % 256
    ensures var h: nat, l: nat := hi, lo; h % 32 * 256 + l == pid
  {
  }

  lemma StreamComesBack(s: Stream, cmd: byte, rest: seq<byte>, more: seq<CaStream>)
    requires s.pid < 0x2000 && Proper(s.descriptors) && LoopLength(s.descriptors) < LOOP_LIMIT
    requires ParseStreams(rest) == Some(more)
    ensures ParseStreams(StreamBytes(s, cmd) + rest) ==
      Some([CaStream(s.streamType, s.pid, MeantLoop(s.descriptors, cmd))] + more)
  {
    var after := Field(LoopLength(s.descriptors)) + LoopBytes(s.descriptors, cmd) + rest;
    StreamShape(s, cmd, rest);
    LoopComesBack(after, s.descriptors, cmd, rest);
    StreamIs(StreamBytes(s, cmd) + rest, s, after, MeantLoop(s.descriptors, cmd), rest, more);
  }

  lemma StreamIs(b: seq<byte>, s: Stream, after: seq<byte>, loop: Loop, rest: seq<byte>, more: seq<CaStream>)
    requires b == [s.streamType, s.pid / 256 % 32, s.pid % 256] + after && |after| >= 2 && s.pid < 0x2000
    requires ParseLoop(after) == Some((loop, rest)) && ParseStreams(rest) == Some(more)
    ensures ParseStreams(b) == Some([CaStream(s.streamType, s.pid, loop)] + more)
  {
    var hi: byte, lo: byte := s.pid / 256 % 32, s.pid % 256;
    ThirteenBits(s.pid, hi, lo);
    StreamOf(b, s.streamType, hi, lo, s.pid, after, loop, rest, more);
  }

  lemma StreamShape(s: Stream, cmd: byte, rest: seq<byte>)
    ensures StreamBytes(s, cmd) + rest ==
      [s.streamType, s.pid / 256 % 32, s.pid % 256]
      + (Field(LoopLength(s.descriptors)) + LoopBytes(s.descriptors, cmd) + rest)
  {
  }

  lemma StreamOf(b: seq<byte>, t: byte, hi: byte, lo: byte, pid: nat, after: seq<byte>,
                 loop: Loop, rest: seq<byte>, more: seq<CaStream>)
    requires b == [t, hi, lo] + after && |after| >= 2
    requires var h: nat, l: nat := hi, lo; pid == h % 32 * 256 + l
    requires ParseLoop(after) == Some((loop, rest)) && ParseStreams(rest) == Some(more)
    ensures ParseStreams(b) == Some([CaStream(t, pid, loop)] + more)
  {
    FirstThree(b, t, hi, lo, after);
    StreamAt(b, loop, rest, more);
  }

  lemma StreamAt(b: seq<byte>, loop: Loop, rest: seq<byte>, more: seq<CaStream>)
    requires |b| >= 5 && ParseLoop(b[3..]) == Some((loop, rest)) && ParseStreams(rest) == Some(more)
    ensures var h: nat, l: nat := b[1], b[2]; ParseStreams(b) == Some([CaStream(b[0], h % 32 * 256 + l, loop)] + more)
  {
  }

  lemma FirstThree(s: seq<byte>, a: byte, b: byte, c: byte, after: seq<byte>)
    requires s == [a, b, c] + after
    ensures |s| == 3 + |after| && s[0] == a && s[1] == b && s[2] == c && s[3..] == after
  {
  }

  lemma VersionBits(v: nat, c: nat)
    requires v < 32 && c < 2
    ensures (v * 2 + c) % 256 / 2 % 32 == v && (v * 2 + c) % 256 % 2 == c
  {
  }

  lemma HeaderOf(b: seq<byte>, list: byte, hi: byte, lo: byte, w: byte, after: seq<byte>,
                 loop: Loop, rest: seq<byte>, streams: seq<CaStream>)
    requires |after| >= 2 && b == [list, hi, lo, w] + after
    requires ParseLoop(after) == Some((loop, rest)) && ParseStreams(rest) == Some(streams)
    ensures var h: nat, l: nat, v: nat := hi, lo, w;
      Parse(b) == Some(CaPmt(list, h * 256 + l, v / 2 % 32, v % 2, loop, streams))
  {
    FirstFour(b, list, hi, lo, w, after);
  }

  lemma FirstFour(s: seq<byte>, a: byte, b: byte, c: byte, d: byte, after: seq<byte>)
    requires s == [a, b, c, d] + after
    ensures |s| == 4 + |after| && s[0] == a && s[1] == b && s[2] == c && s[3] == d && s[4..] == after
  {
  }

  lemma MessageShape(p: Pmt, ds: Descriptors, ss: seq<Stream>, list: byte, cmd: byte)
    ensures Message(p, ds, ss, list, cmd) ==
      [list, Hi(p.program), Lo(p.program), (p.version * 2 + p.currentNext) % 256]
      + (Field(LoopLength(ds)) + LoopBytes(ds, cmd) + StreamsBytes(ss, cmd))
  {
  }

  lemma HeaderBytes(p: Pmt, hi: byte, lo: byte, w: byte)
    requires Sound(p) && hi == Hi(p.program) && lo == Lo(p.program) && w == (p.version * 2 + p.currentNext) % 256
    ensures var h: nat, l: nat, v: nat := hi, lo, w;
      h * 256 + l == p.program && v / 2 % 32 == p.version && v % 2 == p.currentNext
  {
    VersionBits(p.version, p.currentNext);
  }

  lemma PartsComeBack(ds: Descriptors, ss: seq<Stream>, cmd: byte, after: seq<byte>, rest: seq<byte>)
    requires SoundParts(ds, ss) && Fits(ds, ss)
    requires rest == StreamsBytes(ss, cmd) && after == Field(LoopLength(ds)) + LoopBytes(ds, cmd) + rest
    ensures |after| >= 2 && ParseLoop(after) == Some((MeantLoop(ds, cmd), rest))
    ensures ParseStreams(rest) == Some(MeantStreams(ss, cmd))
  {
    LoopComesBack(after, ds, cmd, rest);
    StreamsComeBack(ss, cmd);
  }

  lemma MessageComesBack(p: Pmt, ds: Descriptors, ss: seq<Stream>, list: byte, cmd: byte)
    requires Sound(p) && SoundParts(ds, ss) && Fits(ds, ss)
    ensures Parse(Message(p, ds, ss, list, cmd)) == Some(Meant(p, ds, ss, list, cmd))
  {
    var rest := StreamsBytes(ss, cmd);
    var after := Field(LoopLength(ds)) + LoopBytes(ds, cmd) + rest;
    PartsComeBack(ds, ss, cmd, after, rest);
    MessageShape(p, ds, ss, list, cmd);
    MessageOf(p, Message(p, ds, ss, list, cmd), list, after, MeantLoop(ds, cmd), rest, MeantStreams(ss, cmd));
  }

  lemma MessageOf(p: Pmt, b: seq<byte>, list: byte, after: seq<byte>, loop: Loop, rest: seq<byte>,
                  streams: seq<CaStream>)
    requires Sound(p) && |after| >= 2 && ParseLoop(after) == Some((loop, rest)) && ParseStreams(rest) == Some(streams)
    requires b == [list, Hi(p.program), Lo(p.program), (p.version * 2 + p.currentNext) % 256] + after
    ensures Parse(b) == Some(CaPmt(list, p.program, p.version, p.currentNext, loop, streams))
  {
    var hi, lo, w := Hi(p.program), Lo(p.program), (p.version * 2 + p.currentNext) % 256;
    HeaderBytes(p, hi, lo, w);
    HeaderOf(b, list, hi, lo, w, after, loop, rest, streams);
  }

  // The message comes back exactly when every descriptor loop fits its 12-bit
  // length field.
  lemma MessageComesBackIff(p: Pmt, ds: Descriptors, ss: seq<Stream>, list: byte, cmd: byte)
    requires Sound(p) && SoundParts(ds, ss)
    ensures Parse(Message(p, ds, ss, list, cmd)) == Some(Meant(p, ds, ss, list, cmd)) <==> Fits(ds, ss)
  {
    if Fits(ds, ss) {
      MessageComesBack(p, ds, ss, list, cmd);
    } else if LoopLength(ds) < LOOP_LIMIT {
      var s :| s in ss && LoopLength(s.descriptors) >= LOOP_LIMIT;
      var i :| 0 <= i < |ss| && ss[i] == s;
      assert MeantStreams(ss, cmd)[i].loop.descriptors == s.descriptors;
    }
  }

  // ---- en50221_ca_format_pmt ----

  // Nothing is written from position n on.
  ghost predicate Untouched(before: seq<byte>, after: seq<byte>, n: nat) {
    |before| == |after| && forall k :: n <= k < |before| ==> after[k] == before[k]
  }

  // data[pos++] = x, for each of the bytes in turn; also the memcpy of a descriptor
  method Put(data: array<byte>, pos: nat, bytes: seq<byte>) returns (next: nat)
    requires pos + |bytes| <= data.Length
    modifies data
    ensures next == pos + |bytes|
    ensures data[..next] == old(data[..pos]) + bytes
    ensures Untouched(old(data[..]), data[..], next)
  {
    var i := 0;
    while i < |bytes|
      invariant 0 <= i <= |bytes|
      invariant data[..pos + i] == old(data[..pos]) + bytes[..i]
      invariant Untouched(old(data[..]), data[..], pos + |bytes|)
    {
      data[pos + i] := bytes[i];
      i := i + 1;
    }
    next := pos + |bytes|;
  }

  // A loop with its command identifier, if it has any descriptors.
  method PutLoop(data: array<byte>, pos: nat, ds: Descriptors, loop: nat, cmd: byte) returns (next: nat)
    requires loop == LoopLength(ds) && pos + loop <= data.Length
    modifies data
    ensures next == pos + loop
    ensures data[..next] == old(data[..pos]) + LoopBytes(ds, cmd)
    ensures Untouched(old(data[..]), data[..], next)
  {
    next := pos;
    if loop == 0 { return; }
    next := Put(data, next, [cmd]);
    for i := 0 to |ds|
      invariant next == pos + 1 + |Flatten(ds[..i])| <= pos + loop
      invariant data[..next] == old(data[..pos]) + ([cmd] + Flatten(ds[..i]))
      invariant Untouched(old(data[..]), data[..], next)
    {
      FlattenOne(ds[..i], ds[i]);
      FlattenPrefix(ds, i + 1);
      assert ds[..i + 1] == ds[..i] + [ds[i]];
      Associates([cmd], Flatten(ds[..i]), ds[i]);
      Associates(old(data[..pos]), [cmd] + Flatten(ds[..i]), ds[i]);
      next := Put(data, next, ds[i]);
    }
    assert ds[..|ds|] == ds;
  }

  lemma FlattenPrefix(ds: Descriptors, i: nat)
    requires i <= |ds|
    ensures |Flatten(ds[..i])| <= |Flatten(ds)|
  {
    assert ds == ds[..i] + ds[i..];
    FlattenAppend(ds[..i], ds[i..]);
  }

  method PutStream(data: array<byte>, pos: nat, s: Stream, cmd: byte) returns (next: nat)
    requires Proper(s.descriptors) && pos + 5 + LoopLength(s.descriptors) <= data.Length
    modifies data
    ensures next == pos + 5 + LoopLength(s.descriptors)
    ensures data[..next] == old(data[..pos]) + StreamBytes(s, cmd)
    ensures Untouched(old(data[..]), data[..], next)
  {
    var loop := DescriptorsLength(s.descriptors);
    var front := [s.streamType, s.pid / 256 % 32, s.pid % 256] + Field(loop);
    next := Put(data, pos, front);
    next := PutLoop(data, next, s.descriptors, loop, cmd);
    Associates(old(data[..pos]), front, LoopBytes(s.descriptors, cmd));
  }

  lemma {:induction false} StreamsPrefix(ss: seq<Stream>, i: nat)
    requires i <= |ss|
    ensures StreamsLength(ss[..i]) <= StreamsLength(ss)
  {
    if i < |ss| {
      StreamsPrefix(ss[..|ss| - 1], i);
      assert ss[..|ss| - 1][..i] == ss[..i];
    } else {
      assert ss[..i] == ss;
    }
  }

  lemma OneMoreStream(ss: seq<Stream>, i: nat, cmd: byte)
    requires i < |ss|
    ensures StreamsBytes(ss[..i + 1], cmd) == StreamsBytes(ss[..i], cmd) + StreamBytes(ss[i], cmd)
    ensures StreamsLength(ss[..i + 1]) == StreamsLength(ss[..i]) + 5 + LoopLength(ss[i].descriptors)
  {
    assert ss[..i + 1][..i] == ss[..i];
  }

  method PutStreams(data: array<byte>, pos: nat, ss: seq<Stream>, cmd: byte) returns (next: nat)
    requires (forall s <- ss :: Proper(s.descriptors)) && pos + StreamsLength(ss) <= data.Length
    modifies data
    ensures next == pos + StreamsLength(ss)
    ensures data[..next] == old(data[..pos]) + StreamsBytes(ss, cmd)
    ensures Untouched(old(data[..]), data[..], next)
  {
    next := pos;
    for i := 0 to |ss|
      invariant next == pos + StreamsLength(ss[..i]) <= data.Length
      invariant data[..next] == old(data[..pos]) + StreamsBytes(ss[..i], cmd)
      invariant Untouched(old(data[..]), data[..], next)
    {
      OneMoreStream(ss, i, cmd);
      StreamsPrefix(ss, i + 1);
      Associates(old(data[..pos]), StreamsBytes(ss[..i], cmd), StreamBytes(ss[i], cmd));
      next := PutStream(data, next, ss[i], cmd);
    }
    assert ss[..|ss|] == ss;
  }

  // en50221_ca_format_pmt: -1 and nothing written when the message does not fit, or
  // else exactly the message, of the predicted length.
  method FormatPmt(p: Pmt, data: array<byte>, move: bool, list: byte, cmd: byte) returns (r: int)
    requires Sound(p)
    modifies data
    ensures var (ds, ss) := Prepared(p, move);
      var n := 6 + LoopLength(ds) + StreamsLength(ss);
      if n > data.Length then r == -1 && data[..] == old(data[..])
      else r == n && data[..n] == Message(p, ds, ss, list, cmd) && Untouched(old(data[..]), data[..], n)
  {
    var ds, ss := Prepare(p, move);
    var total, loop := CalculateLength(ds, ss);
    if total > data.Length { return -1; }
    r := WriteMessage(p, data, ds, ss, loop, list, cmd);
  }

  // The extraction and the move that come before the formatting.
  method Prepare(p: Pmt, move: bool) returns (ds: Descriptors, ss: seq<Stream>)
    requires Sound(p)
    ensures (ds, ss) == Prepared(p, move) && SoundParts(ds, ss)
  {
    ds := ExtractDescriptors(p.descriptors);
    ss := ExtractStreams(p.streams);
    if ds == [] && move {
      ds, ss := TryMove(ss);
    }
    PreparedIsSound(p, move);
  }

  method WriteMessage(p: Pmt, data: array<byte>, ds: Descriptors, ss: seq<Stream>, loop: nat, list: byte, cmd: byte)
    returns (n: nat)
    requires SoundParts(ds, ss) && loop == LoopLength(ds) && 6 + loop + StreamsLength(ss) <= data.Length
    modifies data
    ensures n == 6 + loop + StreamsLength(ss)
    ensures data[..n] == Message(p, ds, ss, list, cmd) && Untouched(old(data[..]), data[..], n)
  {
    var head := Header(p, list, loop);
    n := Put(data, 0, head);
    assert data[..n] == head;
    n := PutLoop(data, n, ds, loop, cmd);
    assert data[..n] == head + LoopBytes(ds, cmd);
    n := PutStreams(data, n, ss, cmd);
  }

  lemma PreparedIsSound(p: Pmt, move: bool)
    requires Sound(p)
    ensures SoundParts(Prepared(p, move).0, Prepared(p, move).1)
  {
  }

  // What a receiver makes of a formatted program map.
  lemma ReceiverSees(p: Pmt, move: bool, list: byte, cmd: byte)
    requires Sound(p)
    ensures var (ds, ss) := Prepared(p, move);
      Parse(Message(p, ds, ss, list, cmd)) == Some(Meant(p, ds, ss, list, cmd)) <==> Fits(ds, ss)
  {
    PreparedIsSound(p, move);
    var (ds, ss) := Prepared(p, move);
    MessageComesBackIff(p, ds, ss, list, cmd);
  }
}
