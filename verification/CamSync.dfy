// The table of programs to descramble (joker_en50221.c), and what the CAM has been
// told of it.
module CamSync {
  import opened Bytes
  import opened CaPmt

  const LIST_MORE: byte := 0
  const LIST_FIRST: byte := 1
  const LIST_LAST: byte := 2
  const LIST_ONLY: byte := 3
  const LIST_UPDATE: byte := 5

  const OK_DESCRAMBLING: byte := 1
  const QUERY: byte := 3

  const CAPMT_SIZE := 4096

  datatype Status = NotWanted | Waiting | CamSent

  datatype Program = Program(number: int, status: Status, pmt: Option<Pmt>, version: nat, currentNext: nat)

  // What happened on the way to the CAM: a CA PMT object that was sent, or an update
  // that could not be formatted or sent.
  datatype Entry =
    | Sent(number: int, pmt: Pmt, list: byte, cmd: byte)
    | Refused(number: int)

  // `log` and `through` are history; the code keeps neither. `through` is the last
  // command that the card took to switch the stream through the CAM or past it.
  datatype Table = Table(programs: seq<Program>, connected: bool, log: seq<Entry>, through: Option<bool>)

  // The bytes of an entry (no descriptors are moved).
  function Object(e: Entry): seq<byte>
    requires e.Sent? && Sound(e.pmt)
  {
    var (ds, ss) := Prepared(e.pmt, false);
    Message(e.pmt, ds, ss, e.list, e.cmd)
  }

  // en50221_ca_format_pmt into a buffer of 4096 bytes succeeds.
  predicate Formats(p: Pmt)
    requires Sound(p)
  {
    var (ds, ss) := Prepared(p, false);
    6 + LoopLength(ds) + StreamsLength(ss) <= CAPMT_SIZE
  }

  predicate Usable(ps: seq<Program>) { forall p <- ps :: p.pmt.Some? ==> Sound(p.pmt.value) }

  // ---- joker_en50221_program_add_or_find ----

  function Find(ps: seq<Program>, number: int): (k: nat)
    ensures k <= |ps| && (k < |ps| ==> ps[k].number == number)
    ensures forall i :: 0 <= i < k ==> ps[i].number != number
  {
    if ps == [] || ps[0].number == number then 0 else 1 + Find(ps[1..], number)
  }

  function AddOrFind(ps: seq<Program>, number: int): (r: seq<Program>)
    ensures Find(ps, number) < |r| && r[Find(ps, number)].number == number && ps <= r
    ensures Usable(ps) ==> Usable(r)
  {
    if Find(ps, number) < |ps| then ps else ps + [Program(number, NotWanted, None, 0, 0)]
  }

  // ---- joker_en50221_sync_cam ----

  predicate Selected(p: Program) { p.status != NotWanted && p.pmt.Some? }

  function Count(ps: seq<Program>): nat {
    if ps == [] then 0 else Count(ps[..|ps| - 1]) + if Selected(ps[|ps| - 1]) then 1 else 0
  }

  function ListFor(count: nat, i: nat): byte {
    if count == 1 then LIST_ONLY else if i == 0 then LIST_FIRST else if i + 1 == count then LIST_LAST else LIST_MORE
  }

  // `ok(k)` says whether an object for the k-th program in the list reaches the CAM.
  predicate Goes(ps: seq<Program>, k: nat, ok: nat -> bool)
    requires k < |ps| && Usable(ps)
  {
    Selected(ps[k]) && (assert ps[k] in ps; Formats(ps[k].pmt.value)) && ok(k)
  }

  // The objects sent for the first n programs; i of the code is their number.
  function Round(ps: seq<Program>, n: nat, ok: nat -> bool): (r: seq<Entry>)
    requires n <= |ps| && Usable(ps)
    decreases n
  {
    if n == 0 then []
    else
      var r := Round(ps, n - 1, ok);
      if Goes(ps, n - 1, ok) then
        r + [Sent(ps[n - 1].number, ps[n - 1].pmt.value, ListFor(Count(ps), |r|), OK_DESCRAMBLING)]
      else r
  }

  function Marked(ps: seq<Program>, n: nat, ok: nat -> bool): (r: seq<Program>)
    requires n <= |ps| && Usable(ps)
    ensures |r| == |ps| && Usable(r)
    ensures forall k :: 0 <= k < |ps| ==> r[k] == if k < n && Goes(ps, k, ok) then ps[k].(status := CamSent) else ps[k]
  {
    seq(|ps|, k requires 0 <= k < |ps| => if k < n && Goes(ps, k, ok) then ps[k].(status := CamSent) else ps[k])
  }

  // The queries that may follow, for information only.
  function Queries(ps: seq<Program>, n: nat, ok: nat -> bool): (r: seq<Entry>)
    requires n <= |ps| && Usable(ps)
    ensures forall e <- r :: e.Sent? && e.cmd == QUERY
    decreases n
  {
    if n == 0 then []
    else
      Queries(ps, n - 1, ok)
      + if Goes(ps, n - 1, ok) then [Sent(ps[n - 1].number, ps[n - 1].pmt.value, LIST_ONLY, QUERY)] else []
  }

  // Which objects reach the CAM, and whether the stream is to go through it, and the
  // command that says so is taken.
  datatype Link = Link(send: nat -> bool, query: nat -> bool, wantQueries: bool, tsEnable: bool, tsTaken: bool)

  function Sync(t: Table, link: Link): (r: Table)
    requires Usable(t.programs)
    ensures Usable(r.programs)
  {
    if !t.connected then t
    else
      var n := |t.programs|;
      var ps := Marked(t.programs, n, link.send);
      Table(ps, true,
            t.log + Round(t.programs, n, link.send) + (if link.wantQueries then Queries(ps, n, link.query) else []),
            if link.tsTaken then Some(link.tsEnable) else t.through)
  }

  // ---- the operations ----

  datatype Event =
    | Add(number: int)
    | Clear
    | Update(number: int, pmt: Option<Pmt>, sent: bool, link: Link)
    | CaInfo(link: Link)

  predicate Acceptable(e: Event) { e.Update? && e.pmt.Some? ==> Sound(e.pmt.value) }

  // joker_en50221_descramble_add
  function OnAdd(t: Table, number: int): (r: Table)
    ensures Usable(t.programs) ==> Usable(r.programs)
  {
    var ps, k := AddOrFind(t.programs, number), Find(t.programs, number);
    t.(programs := ps[k := ps[k].(status := Waiting)])
  }

  // joker_en50221_descramble_clear
  function OnClear(t: Table): (r: Table)
    ensures Usable(t.programs) ==> Usable(r.programs)
  {
    t.(programs := seq(|t.programs|, k requires 0 <= k < |t.programs| => t.programs[k].(status := NotWanted)))
  }

  predicate Changed(p: Program, pmt: Pmt) { p.version != pmt.version || p.currentNext != pmt.currentNext }

  function Stored(p: Program, pmt: Pmt): Program {
    p.(pmt := Some(pmt), version := pmt.version, currentNext := pmt.currentNext)
  }

  // joker_en50221_pmt_update of a section that parses; `sent` says whether the
  // update reaches the CAM.
  function OnUpdate(t: Table, number: int, pmt: Pmt, sent: bool, link: Link): (r: Table)
    requires Usable(t.programs) && Sound(pmt)
    ensures Usable(r.programs)
  {
    var ps, k := AddOrFind(t.programs, number), Find(t.programs, number);
    if !Changed(ps[k], pmt) then t.(programs := ps)
    else
      var p := Stored(ps[k], pmt);
      var u := t.(programs := ps[k := p]);
      if p.status == CamSent then
        u.(log := u.log + [if Formats(pmt) && sent then Sent(number, pmt, LIST_UPDATE, OK_DESCRAMBLING) else Refused(number)])
      else if p.status == Waiting then Sync(u, link)
      else u
  }

  function Apply(t: Table, e: Event): (r: Table)
    requires Usable(t.programs) && Acceptable(e)
    ensures Usable(r.programs)
  {
    match e
    case Add(number) => OnAdd(t, number)
    case Clear => OnClear(t)
    case Update(number, pmt, sent, link) => if pmt.None? then t else OnUpdate(t, number, pmt.value, sent, link)
    case CaInfo(link) => Sync(t.(connected := true), link)
  }

  function Run(es: seq<Event>): (r: Table)
    requires forall e <- es :: Acceptable(e)
    ensures Usable(r.programs)
  {
    if es == [] then Table([], false, [], None) else Apply(Run(es[..|es| - 1]), es[|es| - 1])
  }

  // ---- what every run keeps ----

  // The last thing that happened to a program's descrambling object: it was sent, or
  // an update of it was refused.
  function Last(log: seq<Entry>, number: int): Option<Entry> {
    if log == [] then None
    else
      var e := log[|log| - 1];
      if e.number == number && (e.Refused? || e.cmd == OK_DESCRAMBLING) then Some(e) else Last(log[..|log| - 1], number)
  }

  // The CAM's last word on the program is its stored PMT, unless an update has been
  // refused since.
  predicate Agrees(p: Program, log: seq<Entry>) {
    p.status == CamSent ==>
      p.pmt.Some? && Last(log, p.number).Some?
      && var e := Last(log, p.number).value; e.Sent? ==> e.pmt == p.pmt.value
  }

  // The version fields describe the stored PMT, and are zero while there is none.
  predicate Labelled(p: Program) {
    if p.pmt.Some? then p.version == p.pmt.value.version && p.currentNext == p.pmt.value.currentNext
    else p.version == 0 && p.currentNext == 0
  }

  predicate Distinct(ps: seq<Program>) { forall i, j :: 0 <= i < j < |ps| ==> ps[i].number != ps[j].number }

  ghost predicate Inv(t: Table) {
    && Usable(t.programs) && Distinct(t.programs)
    && (forall p <- t.programs :: Agrees(p, t.log))
    && (forall p <- t.programs :: Labelled(p))
  }

  lemma {:induction false} LastAppend(log: seq<Entry>, more: seq<Entry>, number: int)
    requires forall e <- more :: e.Sent? && e.cmd == QUERY
    ensures Last(log + more, number) == Last(log, number)
  {
    if more == [] {
      assert log + more == log;
    } else {
      LastAppend(log, more[..|more| - 1], number);
      assert (log + more)[|log + more| - 1] == more[|more| - 1] && more[|more| - 1] in more;
      assert (log + more)[..|log + more| - 1] == log + more[..|more| - 1];
    }
  }

  lemma LastOne(log: seq<Entry>, e: Entry, number: int)
    requires e.Refused? || e.cmd == OK_DESCRAMBLING
    ensures Last(log + [e], number) == if e.number == number then Some(e) else Last(log, number)
  {
    assert (log + [e])[..|log|] == log;
  }

  // The entry that program k has in a round over the first n, if it goes.
  predicate OwnEntry(ps: seq<Program>, n: nat, ok: nat -> bool, k: nat, before: Option<Entry>, after: Option<Entry>)
    requires n <= |ps| && Usable(ps) && k < |ps|
  {
    if k < n && Goes(ps, k, ok) then after.Some? && after.value.Sent? && after.value.pmt == ps[k].pmt.value
    else after == before
  }

  // What the last program of a round adds.
  lemma RoundAdds(ps: seq<Program>, n: nat, ok: nat -> bool, log: seq<Entry>, number: int)
    requires 0 < n <= |ps| && Usable(ps)
    ensures var before, after := Last(log + Round(ps, n - 1, ok), number), Last(log + Round(ps, n, ok), number);
      if Goes(ps, n - 1, ok) && ps[n - 1].number == number then
        after.Some? && after.value.Sent? && after.value.pmt == ps[n - 1].pmt.value
      else after == before
  {
    if Goes(ps, n - 1, ok) {
      var r := Round(ps, n - 1, ok);
      var e := Sent(ps[n - 1].number, ps[n - 1].pmt.value, ListFor(Count(ps), |r|), OK_DESCRAMBLING);
      Associates(log, r, [e]);
      LastOne(log + r, e, number);
    }
  }

  // In a round, each program that goes has its own PMT sent last; the others keep
  // what they had.
  lemma {:induction false} RoundLast(ps: seq<Program>, n: nat, ok: nat -> bool, log: seq<Entry>, k: nat)
    requires n <= |ps| && Usable(ps) && Distinct(ps) && k < |ps|
    ensures OwnEntry(ps, n, ok, k, Last(log, ps[k].number), Last(log + Round(ps, n, ok), ps[k].number))
    decreases n
  {
    if n == 0 {
      assert log + [] == log;
    } else {
      RoundLast(ps, n - 1, ok, log, k);
      RoundAdds(ps, n, ok, log, ps[k].number);
      assert k != n - 1 ==> ps[n - 1].number != ps[k].number;
    }
  }

  lemma SyncKeeps(t: Table, link: Link)
    requires Inv(t)
    ensures Inv(Sync(t, link))
  {
    if t.connected {
      var u, n := Sync(t, link), |t.programs|;
      var r := Round(t.programs, n, link.send);
      var q := if link.wantQueries then Queries(u.programs, n, link.query) else [];
      forall k | 0 <= k < n ensures Agrees(u.programs[k], u.log) && Labelled(u.programs[k]) {
        RoundLast(t.programs, n, link.send, t.log, k);
        LastAppend(t.log + r, q, t.programs[k].number);
        assert t.programs[k] in t.programs;
      }
    }
  }

  lemma AddOrFindKeeps(t: Table, number: int)
    requires Inv(t)
    ensures Inv(t.(programs := AddOrFind(t.programs, number)))
  {
  }

  lemma SetKeeps(t: Table, k: nat, p: Program)
    requires Inv(t) && k < |t.programs| && p.number == t.programs[k].number && (p.pmt.Some? ==> Sound(p.pmt.value))
    requires Agrees(p, t.log) && Labelled(p)
    ensures Inv(t.(programs := t.programs[k := p]))
  {
  }

  // An entry about program k leaves every other program's last word alone.
  lemma LogKeeps(t: Table, k: nat, p: Program, e: Entry)
    requires Inv(t) && k < |t.programs| && p.number == t.programs[k].number == e.number && p.pmt.Some? && Sound(p.pmt.value)
    requires Labelled(p) && (e.Refused? || e.cmd == OK_DESCRAMBLING) && (e.Sent? ==> e.pmt == p.pmt.value)
    ensures Inv(t.(programs := t.programs[k := p], log := t.log + [e]))
  {
    var ps := t.programs[k := p];
    forall i | 0 <= i < |ps| ensures Agrees(ps[i], t.log + [e]) {
      LastOne(t.log, e, ps[i].number);
      assert t.programs[i] in t.programs;
    }
  }

  lemma StoreKeeps(t: Table, k: nat, pmt: Pmt)
    requires Inv(t) && k < |t.programs| && t.programs[k].status != CamSent && Sound(pmt)
    ensures Inv(t.(programs := t.programs[k := Stored(t.programs[k], pmt)]))
  {
    var p := Stored(t.programs[k], pmt);
    assert Agrees(p, t.log) && Labelled(p);
    SetKeeps(t, k, p);
  }

  lemma UpdateKeeps(t: Table, number: int, pmt: Pmt, sent: bool, link: Link)
    requires Inv(t) && Sound(pmt)
    ensures Inv(OnUpdate(t, number, pmt, sent, link))
  {
    AddOrFindKeeps(t, number);
    var ps, k := AddOrFind(t.programs, number), Find(t.programs, number);
    var u := t.(programs := ps);
    if Changed(ps[k], pmt) {
      if ps[k].status == CamSent {
        var e := if Formats(pmt) && sent then Sent(number, pmt, LIST_UPDATE, OK_DESCRAMBLING) else Refused(number);
        LogKeeps(u, k, Stored(ps[k], pmt), e);
      } else {
        StoreKeeps(u, k, pmt);
        if ps[k].status == Waiting { SyncKeeps(u.(programs := u.programs[k := Stored(u.programs[k], pmt)]), link); }
      }
    }
  }

  lemma AddKeeps(t: Table, number: int)
    requires Inv(t)
    ensures Inv(OnAdd(t, number))
  {
    AddOrFindKeeps(t, number);
    var u, k := t.(programs := AddOrFind(t.programs, number)), Find(t.programs, number);
    var p := u.programs[k];
    assert p in u.programs && Labelled(p);
    SetKeeps(u, k, p.(status := Waiting));
  }

  lemma ClearKeeps(t: Table)
    requires Inv(t)
    ensures Inv(OnClear(t))
  {
    forall k | 0 <= k < |t.programs| ensures Labelled(t.programs[k].(status := NotWanted)) {
      assert t.programs[k] in t.programs;
    }
  }

  lemma ApplyKeeps(t: Table, e: Event)
    requires Inv(t) && Acceptable(e)
    ensures Inv(Apply(t, e))
  {
    match e {
      case Add(number) => AddKeeps(t, number);
      case Clear => ClearKeeps(t);
      case Update(number, pmt, sent, link) =>
        if pmt.Some? { UpdateKeeps(t, number, pmt.value, sent, link); }
      case CaInfo(link) => SyncKeeps(t.(connected := true), link);
    }
  }

  // Program numbers stay unique, and each program that the CAM was sent agrees with
  // it unless an update was refused since.
  lemma {:induction false} EveryRunAgrees(es: seq<Event>)
    requires forall e <- es :: Acceptable(e)
    ensures Inv(Run(es))
  {
    if es != [] {
      EveryRunAgrees(es[..|es| - 1]);
      ApplyKeeps(Run(es[..|es| - 1]), es[|es| - 1]);
    }
  }

  // ---- agreement, exactly ----

  // The CAM's last word on the program is its stored PMT.
  predicate Told(p: Program, log: seq<Entry>) {
    p.status == CamSent ==>
      p.pmt.Some? && Last(log, p.number).Some?
      && Last(log, p.number).value.Sent? && Last(log, p.number).value.pmt == p.pmt.value
  }

  ghost predicate InAgreement(t: Table) {
    forall p <- t.programs :: Told(p, t.log)
  }

  lemma {:induction false} NothingRefused(log: seq<Entry>, number: int)
    requires forall e <- log :: e.Sent?
    ensures Last(log, number).Some? ==> Last(log, number).value.Sent?
  {
    if log != [] { NothingRefused(log[..|log| - 1], number); }
  }

  // In every run where no update is refused, the CAM has the stored PMT of each
  // program that it was sent.
  lemma EveryRunWithoutRefusalIsInAgreement(es: seq<Event>)
    requires forall e <- es :: Acceptable(e)
    requires forall e <- Run(es).log :: e.Sent?
    ensures InAgreement(Run(es)) && Distinct(Run(es).programs)
  {
    EveryRunAgrees(es);
    var t := Run(es);
    forall p | p in t.programs ensures Told(p, t.log) {
      assert Agrees(p, t.log);
      NothingRefused(t.log, p.number);
    }
  }

  // An update leaves agreement exactly when it is new, meant for a program the CAM
  // has, and cannot be formatted or sent.
  lemma UpdateStaysInAgreementIff(t: Table, number: int, pmt: Pmt, sent: bool, link: Link)
    requires Inv(t) && InAgreement(t) && Sound(pmt)
    ensures var ps, k := AddOrFind(t.programs, number), Find(t.programs, number);
      InAgreement(OnUpdate(t, number, pmt, sent, link))
      <==> !(Changed(ps[k], pmt) && ps[k].status == CamSent && !(Formats(pmt) && sent))
  {
    var ps, k := AddOrFind(t.programs, number), Find(t.programs, number);
    var u := OnUpdate(t, number, pmt, sent, link);
    if Changed(ps[k], pmt) && ps[k].status == CamSent {
      UpdateOfSent(t, ps, k, pmt,
                   if Formats(pmt) && sent then Sent(number, pmt, LIST_UPDATE, OK_DESCRAMBLING) else Refused(number));
    } else if Changed(ps[k], pmt) && ps[k].status == Waiting {
      AddOrFindKeeps(t, number);
      StoreKeeps(t.(programs := ps), k, pmt);
      WaitingAgrees(t, ps, k, Stored(ps[k], pmt));
      SyncAgrees(t.(programs := ps[k := Stored(ps[k], pmt)]), link);
    }
  }

  lemma UpdateOfSent(t: Table, ps: seq<Program>, k: nat, pmt: Pmt, e: Entry)
    requires Inv(t) && InAgreement(t) && ps == AddOrFind(t.programs, e.number) && k == Find(t.programs, e.number)
    requires ps[k].status == CamSent && (e.Refused? || (e.cmd == OK_DESCRAMBLING && e.pmt == pmt))
    ensures var p := Stored(ps[k], pmt);
      InAgreement(t.(programs := ps[k := p], log := t.log + [e])) <==> e.Sent?
  {
    var p := Stored(ps[k], pmt);
    var u := t.(programs := ps[k := p], log := t.log + [e]);
    assert ps == t.programs;
    LastOne(t.log, e, p.number);
    assert u.programs[k] == p && p in u.programs;
    forall i | 0 <= i < |ps| && i != k && ps[i].status == CamSent
      ensures Last(u.log, ps[i].number) == Last(t.log, ps[i].number) && ps[i] in t.programs && u.programs[i] == ps[i]
    {
      LastOne(t.log, e, ps[i].number);
    }
  }

  lemma WaitingAgrees(t: Table, ps: seq<Program>, k: nat, p: Program)
    requires InAgreement(t) && k < |ps| && p.status != CamSent
    requires forall q <- ps :: q in t.programs || q.status != CamSent
    ensures InAgreement(t.(programs := ps[k := p]))
  {
  }

  lemma SyncAgrees(t: Table, link: Link)
    requires Inv(t) && InAgreement(t)
    ensures InAgreement(Sync(t, link))
  {
    if t.connected {
      var u, n := Sync(t, link), |t.programs|;
      var r := Round(t.programs, n, link.send);
      var q := if link.wantQueries then Queries(u.programs, n, link.query) else [];
      forall k | 0 <= k < n ensures Told(u.programs[k], u.log) {
        RoundLast(t.programs, n, link.send, t.log, k);
        LastAppend(t.log + r, q, t.programs[k].number);
        assert t.programs[k] in t.programs;
      }
    }
  }

  // A program whose update was refused is made good by a synchronisation if and only
  // if its object goes out in it...
  lemma SyncRepairsIff(t: Table, link: Link, k: nat)
    requires Inv(t) && t.connected && k < |t.programs| && t.programs[k].status == CamSent
    requires Last(t.log, t.programs[k].number) == Some(Refused(t.programs[k].number))
    ensures Told(Sync(t, link).programs[k], Sync(t, link).log) <==> Goes(t.programs, k, link.send)
  {
    var u, n := Sync(t, link), |t.programs|;
    var r := Round(t.programs, n, link.send);
    var q := if link.wantQueries then Queries(u.programs, n, link.query) else [];
    RoundLast(t.programs, n, link.send, t.log, k);
    LastAppend(t.log + r, q, t.programs[k].number);
  }

  // ...and by a new PMT if and only if that can be formatted and sent.
  lemma UpdateRepairsIff(t: Table, number: int, pmt: Pmt, sent: bool, link: Link)
    requires Inv(t) && Sound(pmt)
    requires var k := Find(t.programs, number);
      k < |t.programs| && t.programs[k].status == CamSent && Changed(t.programs[k], pmt)
    ensures var u := OnUpdate(t, number, pmt, sent, link);
      Told(u.programs[Find(t.programs, number)], u.log) <==> Formats(pmt) && sent
  {
    LastOne(t.log, Sent(number, pmt, LIST_UPDATE, OK_DESCRAMBLING), number);
    LastOne(t.log, Refused(number), number);
  }

  // A first PMT of version 0 that is not yet applicable is taken for no news.
  lemma FirstPmtIsStoredIff(t: Table, number: int, pmt: Pmt, sent: bool, link: Link)
    requires Inv(t) && Sound(pmt)
    requires var ps := AddOrFind(t.programs, number); ps[Find(t.programs, number)].pmt.None?
    ensures OnUpdate(t, number, pmt, sent, link).programs[Find(t.programs, number)].pmt == Some(pmt)
      <==> pmt.version != 0 || pmt.currentNext != 0
  {
    var ps, k := AddOrFind(t.programs, number), Find(t.programs, number);
    AddOrFindKeeps(t, number);
    assert Labelled(ps[k]) by { assert ps[k] in ps; }
  }

  // ---- what a round tells the CAM ----

  function Chosen(ps: seq<Program>): seq<Program> {
    if ps == [] then [] else Chosen(ps[..|ps| - 1]) + if Selected(ps[|ps| - 1]) then [ps[|ps| - 1]] else []
  }

  lemma {:induction false} CountIsChosen(ps: seq<Program>)
    ensures |Chosen(ps)| == Count(ps)
  {
    if ps != [] { CountIsChosen(ps[..|ps| - 1]); }
  }

  // One object for each chosen program, in the order of the table.
  ghost predicate OneEach(r: seq<Entry>, chosen: seq<Program>) {
    |r| == |chosen| && forall j :: 0 <= j < |r| ==>
      r[j].Sent? && r[j].number == chosen[j].number && chosen[j].pmt == Some(r[j].pmt) && r[j].cmd == OK_DESCRAMBLING
  }

  // A complete list, as the CAM understands it: ONLY, or FIRST MORE* LAST.
  ghost predicate CompleteList(r: seq<Entry>) {
    && r != [] && (forall e <- r :: e.Sent?)
    && if |r| == 1 then r[0].list == LIST_ONLY
       else forall j :: 0 <= j < |r| ==>
         r[j].list == if j == 0 then LIST_FIRST else if j == |r| - 1 then LIST_LAST else LIST_MORE
  }

  ghost predicate NoFailure(ps: seq<Program>, n: nat, ok: nat -> bool)
    requires n <= |ps| && Usable(ps)
  {
    forall k :: 0 <= k < n && Selected(ps[k]) ==> Goes(ps, k, ok)
  }

  lemma {:induction false} RoundLists(ps: seq<Program>, n: nat, ok: nat -> bool)
    requires n <= |ps| && Usable(ps)
    ensures var r := Round(ps, n, ok);
      && |r| <= Count(ps[..n])
      && (|r| == Count(ps[..n]) <==> NoFailure(ps, n, ok))
      && forall j :: 0 <= j < |r| ==> r[j].Sent? && r[j].list == ListFor(Count(ps), j)
    decreases n
  {
    if n > 0 {
      RoundLists(ps, n - 1, ok);
      assert ps[..n][..n - 1] == ps[..n - 1];
    }
  }

  lemma {:induction false} RoundIsOneEach(ps: seq<Program>, n: nat, ok: nat -> bool)
    requires n <= |ps| && Usable(ps) && NoFailure(ps, n, ok)
    ensures OneEach(Round(ps, n, ok), Chosen(ps[..n]))
    decreases n
  {
    if n > 0 {
      RoundIsOneEach(ps, n - 1, ok);
      assert ps[..n][..n - 1] == ps[..n - 1];
    }
  }

  // A round sends a complete list exactly when no send of it fails; and then one
  // object for each chosen program.
  lemma RoundIsCompleteIff(ps: seq<Program>, ok: nat -> bool)
    requires Usable(ps) && Count(ps) > 0
    ensures CompleteList(Round(ps, |ps|, ok)) <==> NoFailure(ps, |ps|, ok)
    ensures NoFailure(ps, |ps|, ok) ==> OneEach(Round(ps, |ps|, ok), Chosen(ps))
  {
    RoundLists(ps, |ps|, ok);
    assert ps[..|ps|] == ps;
    if NoFailure(ps, |ps|, ok) {
      RoundIsOneEach(ps, |ps|, ok);
    } else if |Round(ps, |ps|, ok)| > 0 {
      assert Round(ps, |ps|, ok)[|Round(ps, |ps|, ok)| - 1].list != LIST_LAST;
    }
  }

  // The CAM decodes each object to the program map it was made from, when the loops
  // fit their length fields.
  lemma CamDecodes(e: Entry)
    requires e.Sent? && Sound(e.pmt)
    ensures var (ds, ss) := Prepared(e.pmt, false);
      Parse(Object(e)) == Some(Meant(e.pmt, ds, ss, e.list, e.cmd)) <==> Fits(ds, ss)
  {
    ReceiverSees(e.pmt, false, e.list, e.cmd);
  }

  // Whatever fits the 4096-byte buffer fits them.
  lemma FormattedObjectsDecode(e: Entry)
    requires e.Sent? && Sound(e.pmt) && Formats(e.pmt)
    ensures var (ds, ss) := Prepared(e.pmt, false);
      Parse(Object(e)) == Some(Meant(e.pmt, ds, ss, e.list, e.cmd))
  {
    CamDecodes(e);
    var (ds, ss) := Prepared(e.pmt, false);
    forall s | s in ss ensures LoopLength(s.descriptors) < LOOP_LIMIT {
      var i :| 0 <= i < |ss| && ss[i] == s;
      OneStreamFits(ss, i);
    }
  }

  lemma {:induction false} OneStreamFits(ss: seq<Stream>, i: nat)
    requires i < |ss|
    ensures 5 + LoopLength(ss[i].descriptors) <= StreamsLength(ss)
    decreases |ss|
  {
    if i < |ss| - 1 { OneStreamFits(ss[..|ss| - 1], i); }
  }
}
