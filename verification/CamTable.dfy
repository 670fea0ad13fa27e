// The program table of joker_en50221.c as it changes in place.
module CamTable {
  import opened Bytes
  import opened CaPmt
  import opened CamSync

  const EINVAL := 22
  const EIO := 5

  class Cam {
    var programs: seq<Program>
    var connected: bool
    ghost var log: seq<Entry>
    ghost var through: Option<bool>

    ghost function View(): Table
      reads this
    {
      Table(programs, connected, log, through)
    }

    constructor ()
      ensures View() == Run([])
    {
      programs, connected, log, through := [], false, [], None;
    }

    // joker_en50221_program_add_or_find
    method AddOrFindProgram(number: int) returns (k: nat)
      modifies `programs
      ensures programs == AddOrFind(old(programs), number) && k == Find(old(programs), number)
    {
      k := 0;
      assert programs[0..] == programs;
      while k < |programs|
        invariant 0 <= k <= |programs| && Find(programs, number) == k + Find(programs[k..], number)
      {
        if programs[k].number == number { return; }
        assert programs[k..][1..] == programs[k + 1..];
        k := k + 1;
      }
      programs := programs + [Program(number, NotWanted, None, 0, 0)];
    }

    // Formatting a CA PMT and handing it to the CAM's session; `reaches` is the
    // outcome of the latter.
    method Send(pmt: Pmt, list: byte, cmd: byte, reaches: bool) returns (sent: bool)
      requires Sound(pmt)
      ensures sent <==> Formats(pmt) && reaches
    {
      var capmt := new byte[CAPMT_SIZE](_ => 0);
      var size := FormatPmt(pmt, capmt, false, list, cmd);
      if size < 0 { return false; }
      sent := reaches;
    }

    // joker_en50221_sync_cam
    method SyncCam(link: Link) returns (ret: int)
      requires Usable(programs)
      modifies this
      ensures View() == Sync(old(View()), link)
      ensures ret == if connected && !link.tsTaken then -EIO else 0
    {
      if !connected { return 0; }
      var count := CountSelected();
      var n := |programs|;
      ghost var before, ps := log, programs;
      if count > 0 { SendRound(count, link.send); } else { NothingChosen(ps, n, link.send); }
      ghost var between, marked := log, programs;
      assert marked == Marked(ps, n, link.send);
      CountIsKept(ps, n, link.send);
      if count > 0 && link.wantQueries {
        SendQueries(link.query);
      } else if link.wantQueries {
        NothingQueried(marked, n, link.query);
      }
      assert between + [] == between;
      if !link.tsTaken { return -EIO; }
      through := Some(link.tsEnable);
      return 0;
    }

    method CountSelected() returns (count: nat)
      ensures count == Count(programs)
    {
      count := 0;
      for i := 0 to |programs|
        invariant count == Count(programs[..i])
      {
        assert programs[..i + 1][..i] == programs[..i];
        if Selected(programs[i]) { count := count + 1; }
      }
      assert programs[..|programs|] == programs;
    }

    method SendRound(count: nat, ok: nat -> bool)
      requires Usable(programs) && count == Count(programs)
      modifies `programs, `log
      ensures programs == Marked(old(programs), |old(programs)|, ok)
      ensures log == old(log) + Round(old(programs), |old(programs)|, ok)
    {
      ghost var ps := programs;
      var i := 0;
      var k := 0;
      assert Marked(ps, 0, ok) == ps && log + [] == log;
      while k < |programs|
        invariant 0 <= k <= |programs| == |ps| && programs == Marked(ps, k, ok)
        invariant i == |Round(ps, k, ok)| && log == old(log) + Round(ps, k, ok)
      {
        assert programs[k] == ps[k] && ps[k] in ps;
        RoundStep(ps, k, ok, old(log));
        MarkedStep(ps, k, ok);
        var sent := false;
        if Selected(programs[k]) {
          sent := Send(programs[k].pmt.value, ListFor(count, i), OK_DESCRAMBLING, ok(k));
        }
        if sent {
          log := log + [Sent(ps[k].number, ps[k].pmt.value, ListFor(count, i), OK_DESCRAMBLING)];
          programs := programs[k := programs[k].(status := CamSent)];
          i := i + 1;
        }
        k := k + 1;
      }
    }

    method SendQueries(ok: nat -> bool)
      requires Usable(programs)
      modifies `log
      ensures log == old(log) + Queries(programs, |programs|, ok)
    {
      var k := 0;
      assert log + [] == log;
      while k < |programs|
        invariant 0 <= k <= |programs| && log == old(log) + Queries(programs, k, ok)
      {
        assert programs[k] in programs;
        var sent := false;
        if Selected(programs[k]) {
          sent := Send(programs[k].pmt.value, LIST_ONLY, QUERY, ok(k));
        }
        ghost var more := if sent then [Sent(programs[k].number, programs[k].pmt.value, LIST_ONLY, QUERY)] else [];
        assert old(log) + (Queries(programs, k, ok) + more) == log + more;
        log := log + more;
        k := k + 1;
      }
    }

    // joker_en50221_descramble_add
    method DescrambleAdd(number: int) returns (ret: int)
      modifies `programs
      ensures ret == 0 && View() == OnAdd(old(View()), number)
    {
      var k := AddOrFindProgram(number);
      programs := programs[k := programs[k].(status := Waiting)];
      ret := 0;
    }

    // joker_en50221_descramble_clear
    method DescrambleClear() returns (ret: int)
      modifies `programs
      ensures ret == 0 && View() == OnClear(old(View()))
    {
      var k := 0;
      while k < |programs|
        invariant 0 <= k <= |programs| == |old(programs)|
        invariant forall i :: 0 <= i < |programs| ==>
          programs[i] == if i < k then old(programs)[i].(status := NotWanted) else old(programs)[i]
      {
        programs := programs[k := programs[k].(status := NotWanted)];
        k := k + 1;
      }
      ret := 0;
    }

    // joker_en50221_pmt_update; None is a section that does not parse.
    method PmtUpdate(number: int, section: Option<Pmt>, sent: bool, link: Link) returns (ret: int)
      requires Usable(programs) && (section.Some? ==> Sound(section.value))
      modifies this
      ensures View() == Apply(old(View()), Update(number, section, sent, link))
      ensures ret == if section.None? then -EINVAL else if old(Fails(number, section.value, sent)) then -EIO else 0
    {
      if section.None? { return -EINVAL; }
      var pmt := section.value;
      var k := AddOrFindProgram(number);
      if programs[k].version != pmt.version || programs[k].currentNext != pmt.currentNext {
        programs := programs[k := programs[k].(pmt := Some(pmt), version := pmt.version, currentNext := pmt.currentNext)];
        if programs[k].status == CamSent {
          var gone := Send(pmt, LIST_UPDATE, OK_DESCRAMBLING, sent);
          log := log + [if gone then Sent(number, pmt, LIST_UPDATE, OK_DESCRAMBLING) else Refused(number)];
          if !gone { return -EIO; }
        }
        if programs[k].status == Waiting { var ignored := SyncCam(link); }
      }
      ret := 0;
    }

    ghost predicate Fails(number: int, pmt: Pmt, sent: bool)
      requires Sound(pmt)
      reads this
    {
      var k := Find(programs, number);
      k < |programs| && programs[k].status == CamSent && Changed(programs[k], pmt) && !(Formats(pmt) && sent)
    }

    // The part of test_ca_info_callback that concerns the table.
    method CaInfoReceived(link: Link)
      requires Usable(programs)
      modifies this
      ensures View() == Apply(old(View()), CaInfo(link))
    {
      connected := true;
      var ignored := SyncCam(link);
    }
  }

  lemma RoundStep(ps: seq<Program>, k: nat, ok: nat -> bool, log: seq<Entry>)
    requires k < |ps| && Usable(ps)
    ensures var r := Round(ps, k, ok);
      log + Round(ps, k + 1, ok) ==
      if Goes(ps, k, ok) then (log + r) + [Sent(ps[k].number, ps[k].pmt.value, ListFor(Count(ps), |r|), OK_DESCRAMBLING)]
      else log + r
    ensures |Round(ps, k + 1, ok)| == |Round(ps, k, ok)| + if Goes(ps, k, ok) then 1 else 0
  {
  }

  lemma MarkedStep(ps: seq<Program>, k: nat, ok: nat -> bool)
    requires k < |ps| && Usable(ps)
    ensures Marked(ps, k + 1, ok) ==
      if Goes(ps, k, ok) then Marked(ps, k, ok)[k := ps[k].(status := CamSent)] else Marked(ps, k, ok)
  {
  }

  lemma {:induction false} NothingChosen(ps: seq<Program>, n: nat, ok: nat -> bool)
    requires n <= |ps| && Usable(ps) && Count(ps) == 0
    ensures Round(ps, n, ok) == [] && Marked(ps, n, ok) == ps
    decreases n
  {
    if n > 0 {
      NothingChosen(ps, n - 1, ok);
      NoneSelected(ps, n - 1);
    }
    forall k | 0 <= k < |ps| ensures !Selected(ps[k]) { NoneSelected(ps, k); }
  }

  lemma {:induction false} NothingQueried(ps: seq<Program>, n: nat, ok: nat -> bool)
    requires n <= |ps| && Usable(ps) && Count(ps) == 0
    ensures Queries(ps, n, ok) == []
    decreases n
  {
    if n > 0 {
      NothingQueried(ps, n - 1, ok);
      NoneSelected(ps, n - 1);
    }
  }

  lemma {:induction false} NoneSelected(ps: seq<Program>, k: nat)
    requires k < |ps| && Count(ps) == 0
    ensures !Selected(ps[k])
    decreases |ps|
  {
    if k < |ps| - 1 { NoneSelected(ps[..|ps| - 1], k); }
  }

  // Marking a program as sent leaves it selected.
  lemma CountIsKept(ps: seq<Program>, n: nat, ok: nat -> bool)
    requires n <= |ps| && Usable(ps)
    ensures Count(Marked(ps, n, ok)) == Count(ps)
  {
    var qs := Marked(ps, n, ok);
    forall k | 0 <= k < |ps| ensures Selected(qs[k]) <==> Selected(ps[k]) {}
    SameCount(ps, qs);
  }

  lemma {:induction false} SameCount(ps: seq<Program>, qs: seq<Program>)
    requires |ps| == |qs| && forall k :: 0 <= k < |ps| ==> (Selected(qs[k]) <==> Selected(ps[k]))
    ensures Count(ps) == Count(qs)
  {
    if ps != [] { SameCount(ps[..|ps| - 1], qs[..|qs| - 1]); }
  }
}
