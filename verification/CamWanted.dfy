// Which programs the CAM is sent: those that the user asked for, and no other, with the
// PMT that was last news.
module CamWanted {
  import opened Bytes
  import opened CaPmt
  import opened CamSync

  // The last descramble_add of the number or descramble_clear was an add.
  predicate Wanted(es: seq<Event>, number: int) {
    if es == [] then false
    else
      var e := es[|es| - 1];
      if e.Clear? then false
      else if e.Add? && e.number == number then true
      else Wanted(es[..|es| - 1], number)
  }

  // The PMT updates of a number that were news, as far as the version and the
  // current_next indicator tell; both count as 0 before the first.
  function News(es: seq<Event>, number: int): Option<Pmt> {
    if es == [] then None
    else
      var e, before := es[|es| - 1], News(es[..|es| - 1], number);
      if e.Update? && e.number == number && e.pmt.Some? && Differs(before, e.pmt.value) then e.pmt else before
  }

  predicate Differs(before: Option<Pmt>, pmt: Pmt) {
    match before
    case None => pmt.version != 0 || pmt.currentNext != 0
    case Some(p) => pmt.version != p.version || pmt.currentNext != p.currentNext
  }

  // ---- what the table knows of it ----

  // p is what the table holds of a number.
  predicate Records(es: seq<Event>, p: Program) {
    && (p.status != NotWanted <==> Wanted(es, p.number))
    && p.pmt == News(es, p.number)
    && Labelled(p)
  }

  ghost predicate Known(es: seq<Event>, ps: seq<Program>) {
    && Distinct(ps)
    && (forall k :: 0 <= k < |ps| ==> Records(es, ps[k]))
    && (forall number :: Find(ps, number) == |ps| ==> !Wanted(es, number) && News(es, number).None?)
  }

  // Where a number is found, it is the only entry for it.
  lemma FindIs(ps: seq<Program>, k: nat)
    requires Distinct(ps) && k < |ps|
    ensures Find(ps, ps[k].number) == k
  {
    var j := Find(ps, ps[k].number);
    assert j <= k;
  }

  lemma FoundAppended(ps: seq<Program>, p: Program, number: int)
    requires Find(ps, p.number) == |ps|
    ensures Find(ps + [p], number) ==
      if number == p.number then |ps| else if Find(ps, number) < |ps| then Find(ps, number) else |ps| + 1
  {
    var qs := ps + [p];
    var j := Find(qs, number);
    assert qs[|ps|] == p && forall i :: 0 <= i < |ps| ==> qs[i] == ps[i];
  }

  // A new entry knows of nothing, as there was nothing.
  lemma AppendKnows(es: seq<Event>, ps: seq<Program>, p: Program)
    requires Known(es, ps) && Find(ps, p.number) == |ps| && Records(es, p)
    ensures Known(es, ps + [p])
  {
    forall other | Find(ps + [p], other) == |ps + [p]| ensures !Wanted(es, other) && News(es, other).None? {
      FoundAppended(ps, p, other);
    }
  }

  lemma AddOrFindKnows(es: seq<Event>, ps: seq<Program>, number: int)
    requires Known(es, ps)
    ensures Known(es, AddOrFind(ps, number)) && Find(AddOrFind(ps, number), number) == Find(ps, number)
  {
    if Find(ps, number) == |ps| {
      var p := Program(number, NotWanted, None, 0, 0);
      FoundAppended(ps, p, number);
      AppendKnows(es, ps, p);
    }
  }

  // What is to be known of a number is the same after more events.
  predicate Same(es: seq<Event>, fs: seq<Event>, number: int) {
    Wanted(fs, number) == Wanted(es, number) && News(fs, number) == News(es, number)
  }

  // One entry changes, and with it what is to be known of its number alone.
  lemma SetKnows(es: seq<Event>, fs: seq<Event>, ps: seq<Program>, k: nat, p: Program)
    requires Known(es, ps) && k < |ps| && p.number == ps[k].number && Records(fs, p)
    requires forall number :: number != p.number ==> Same(es, fs, number)
    ensures Known(fs, ps[k := p])
  {
    var qs := ps[k := p];
    forall j | 0 <= j < |qs| ensures Records(fs, qs[j]) {
      if j != k { OtherRecord(es, fs, ps, k, j); }
    }
    forall number | Find(qs, number) == |qs| ensures !Wanted(fs, number) && News(fs, number).None? {
      SameFind(ps, qs, number);
      assert number != p.number ==> Same(es, fs, number);
      assert qs[k].number == p.number;
    }
  }

  lemma OtherRecord(es: seq<Event>, fs: seq<Event>, ps: seq<Program>, k: nat, j: nat)
    requires Known(es, ps) && k < |ps| && j < |ps| && j != k
    requires ps[j].number != ps[k].number ==> Same(es, fs, ps[j].number)
    ensures Records(fs, ps[j])
  {
    assert Records(es, ps[j]) && ps[j].number != ps[k].number;
  }

  lemma LastEvent(es: seq<Event>, e: Event, number: int)
    ensures Wanted(es + [e], number) <==> !e.Clear? && ((e.Add? && e.number == number) || Wanted(es, number))
    ensures News(es + [e], number) ==
      if e.Update? && e.number == number && e.pmt.Some? && Differs(News(es, number), e.pmt.value) then e.pmt
      else News(es, number)
  {
    assert (es + [e])[..|es|] == es;
  }

  lemma {:induction false} SameFind(ps: seq<Program>, qs: seq<Program>, number: int)
    requires |ps| == |qs| && forall k :: 0 <= k < |ps| ==> ps[k].number == qs[k].number
    ensures Find(ps, number) == Find(qs, number)
  {
    if ps != [] { SameFind(ps[1..], qs[1..], number); }
  }

  lemma SyncKnows(es: seq<Event>, t: Table, link: Link)
    requires Usable(t.programs) && Known(es, t.programs)
    ensures Known(es, Sync(t, link).programs)
  {
    var ps, qs := t.programs, Sync(t, link).programs;
    forall k | 0 <= k < |ps| ensures Records(es, qs[k]) && qs[k].number == ps[k].number {
      assert Records(es, ps[k]);
    }
    forall number | Find(qs, number) == |qs| ensures Find(ps, number) == |ps| {
      SameFind(ps, qs, number);
    }
  }

  // An event that is neither an add, a clear nor news of any number.
  lemma Unaffected(es: seq<Event>, e: Event, ps: seq<Program>)
    requires Known(es, ps)
    requires forall number :: Same(es, es + [e], number)
    ensures Known(es + [e], ps)
  {
    forall k | 0 <= k < |ps| ensures Records(es + [e], ps[k]) {
      assert Records(es, ps[k]) && Same(es, es + [e], ps[k].number);
    }
    forall number | Find(ps, number) == |ps| ensures !Wanted(es + [e], number) && News(es + [e], number).None? {
      assert Same(es, es + [e], number);
    }
  }

  lemma AddKnows(es: seq<Event>, t: Table, number: int)
    requires Known(es, t.programs)
    ensures Known(es + [Add(number)], OnAdd(t, number).programs)
  {
    var e := Add(number);
    AddOrFindKnows(es, t.programs, number);
    var ps, k := AddOrFind(t.programs, number), Find(t.programs, number);
    assert Records(es, ps[k]);
    forall other | other != number ensures Same(es, es + [e], other) { LastEvent(es, e, other); }
    LastEvent(es, e, number);
    SetKnows(es, es + [e], ps, k, ps[k].(status := Waiting));
  }

  lemma ClearKnows(es: seq<Event>, t: Table)
    requires Known(es, t.programs)
    ensures Known(es + [Clear], OnClear(t).programs)
  {
    var ps, qs := t.programs, OnClear(t).programs;
    forall k | 0 <= k < |ps| ensures Records(es + [Clear], qs[k]) && qs[k].number == ps[k].number {
      assert Records(es, ps[k]);
      LastEvent(es, Clear, ps[k].number);
    }
    forall number | Find(qs, number) == |qs| ensures !Wanted(es + [Clear], number) && News(es + [Clear], number).None? {
      SameFind(ps, qs, number);
      LastEvent(es, Clear, number);
    }
  }

  // The table after the PMT is stored, before anything is sent.
  function Taken(ps: seq<Program>, number: int, pmt: Pmt): seq<Program> {
    var qs, k := AddOrFind(ps, number), Find(ps, number);
    if Changed(qs[k], pmt) then qs[k := Stored(qs[k], pmt)] else qs
  }

  lemma TakenKnows(es: seq<Event>, ps: seq<Program>, e: Event)
    requires Known(es, ps) && e.Update? && e.pmt.Some?
    ensures Known(es + [e], Taken(ps, e.number, e.pmt.value))
  {
    AddOrFindKnows(es, ps, e.number);
    var qs, k := AddOrFind(ps, e.number), Find(ps, e.number);
    assert Records(es, qs[k]);
    forall other | other != e.number ensures Same(es, es + [e], other) { LastEvent(es, e, other); }
    LastEvent(es, e, e.number);
    if Changed(qs[k], e.pmt.value) {
      SetKnows(es, es + [e], qs, k, Stored(qs[k], e.pmt.value));
    } else {
      Unaffected(es, e, qs);
    }
  }

  lemma UpdateIs(t: Table, e: Event)
    requires Usable(t.programs) && e.Update? && e.pmt.Some? && Sound(e.pmt.value)
    ensures var qs := Taken(t.programs, e.number, e.pmt.value);
      var u := OnUpdate(t, e.number, e.pmt.value, e.sent, e.link);
      Usable(qs) && (u.programs == qs || u.programs == Sync(t.(programs := qs), e.link).programs)
  {
  }

  lemma UpdateKnows(es: seq<Event>, t: Table, e: Event)
    requires Usable(t.programs) && Known(es, t.programs) && e.Update? && e.pmt.Some? && Sound(e.pmt.value)
    ensures Known(es + [e], OnUpdate(t, e.number, e.pmt.value, e.sent, e.link).programs)
  {
    UpdateIs(t, e);
    TakenKnows(es, t.programs, e);
    SyncKnows(es + [e], t.(programs := Taken(t.programs, e.number, e.pmt.value)), e.link);
  }

  lemma ApplyKnows(es: seq<Event>, t: Table, e: Event)
    requires Usable(t.programs) && Known(es, t.programs) && Acceptable(e)
    ensures Known(es + [e], Apply(t, e).programs)
  {
    if e.Add? {
      AddKnows(es, t, e.number);
    } else if e.Clear? {
      ClearKnows(es, t);
    } else if e.Update? && e.pmt.Some? {
      UpdateKnows(es, t, e);
    } else {
      forall other ensures Same(es, es + [e], other) { LastEvent(es, e, other); }
      Unaffected(es, e, t.programs);
      if e.CaInfo? { SyncKnows(es + [e], t.(connected := true), e.link); }
    }
  }

  // In every run a program is meant for the CAM exactly when it is wanted, and its PMT
  // is the one that was last news.
  lemma {:induction false} EveryRunKnows(es: seq<Event>)
    requires forall e <- es :: Acceptable(e)
    ensures Known(es, Run(es).programs)
  {
    if es != [] {
      var init := es[..|es| - 1];
      EveryRunKnows(init);
      ApplyKnows(init, Run(init), es[|es| - 1]);
      assert init + [es[|es| - 1]] == es;
    }
  }

  // ---- what is sent ----

  // x is an object for a program of ps that is meant for the CAM.
  ghost predicate Meant(ps: seq<Program>, x: Entry) {
    x.Sent? && exists k :: 0 <= k < |ps| && ps[k].number == x.number
                           && ps[k].status != NotWanted && ps[k].pmt == Some(x.pmt)
  }

  lemma {:induction false} RoundIsMeant(ps: seq<Program>, n: nat, ok: nat -> bool, j: nat)
    requires n <= |ps| && Usable(ps) && j < |Round(ps, n, ok)|
    ensures Meant(ps, Round(ps, n, ok)[j])
    decreases n
  {
    if n > 0 && j < |Round(ps, n - 1, ok)| {
      RoundIsMeant(ps, n - 1, ok, j);
    } else if n > 0 {
      assert Goes(ps, n - 1, ok) && ps[n - 1].pmt.Some?;
    }
  }

  lemma {:induction false} QueriesAreMeant(ps: seq<Program>, n: nat, ok: nat -> bool, j: nat)
    requires n <= |ps| && Usable(ps) && j < |Queries(ps, n, ok)|
    ensures Meant(ps, Queries(ps, n, ok)[j])
    decreases n
  {
    if n > 0 && j < |Queries(ps, n - 1, ok)| {
      QueriesAreMeant(ps, n - 1, ok, j);
    } else if n > 0 {
      assert Goes(ps, n - 1, ok) && ps[n - 1].pmt.Some?;
    }
  }

  // The parts of what a synchronisation adds to the history.
  lemma SyncParts(t: Table, link: Link) returns (ps: seq<Program>, r: seq<Entry>, q: seq<Entry>)
    requires Usable(t.programs) && t.connected
    ensures ps == Marked(t.programs, |t.programs|, link.send) && Usable(ps)
    ensures r == Round(t.programs, |t.programs|, link.send)
    ensures q == if link.wantQueries then Queries(ps, |ps|, link.query) else []
    ensures Sync(t, link).log == t.log + r + q && Sync(t, link).log[|t.log + r|..] == q
  {
    ps := Marked(t.programs, |t.programs|, link.send);
    r := Round(t.programs, |t.programs|, link.send);
    q := if link.wantQueries then Queries(ps, |ps|, link.query) else [];
    assert (t.log + r + q)[|t.log + r|..] == q;
  }

  lemma EntryAt(log: seq<Entry>, r: seq<Entry>, q: seq<Entry>, j: nat)
    requires |log| <= j < |log + r + q|
    ensures (log + r + q)[j] == if j < |log| + |r| then r[j - |log|] else q[j - |log| - |r|]
  {
  }

  ghost predicate AllMeant(ps: seq<Program>, r: seq<Entry>) { forall i :: 0 <= i < |r| ==> Meant(ps, r[i]) }

  lemma RoundMeant(ps: seq<Program>, ok: nat -> bool, r: seq<Entry>)
    requires Usable(ps) && r == Round(ps, |ps|, ok)
    ensures AllMeant(ps, r)
  {
    forall i | 0 <= i < |r| ensures Meant(ps, r[i]) { RoundIsMeant(ps, |ps|, ok, i); }
  }

  lemma QueriesMeant(t: Table, link: Link, ps: seq<Program>, q: seq<Entry>)
    requires Usable(t.programs) && ps == Marked(t.programs, |t.programs|, link.send) && Usable(ps)
    requires q == if link.wantQueries then Queries(ps, |ps|, link.query) else []
    ensures AllMeant(t.programs, q)
  {
    forall i | 0 <= i < |q| ensures Meant(t.programs, q[i]) {
      QueriesAreMeant(ps, |ps|, link.query, i);
      MarkedIsMeant(t.programs, link.send, q[i]);
    }
  }

  lemma PartsMeant(ps: seq<Program>, before: seq<Entry>, r: seq<Entry>, q: seq<Entry>, log: seq<Entry>, j: nat)
    requires AllMeant(ps, r) && AllMeant(ps, q) && log == before + r + q && |before| <= j < |log|
    ensures Meant(ps, log[j])
  {
    EntryAt(before, r, q, j);
  }

  lemma SyncIsMeant(t: Table, link: Link, j: nat)
    requires Usable(t.programs) && |t.log| <= j < |Sync(t, link).log|
    ensures Meant(t.programs, Sync(t, link).log[j])
  {
    var ps, r, q := SyncParts(t, link);
    RoundMeant(t.programs, link.send, r);
    QueriesMeant(t, link, ps, q);
    PartsMeant(t.programs, t.log, r, q, Sync(t, link).log, j);
  }

  lemma MarkedIsMeant(ps: seq<Program>, ok: nat -> bool, x: Entry)
    requires Usable(ps) && Meant(Marked(ps, |ps|, ok), x)
    ensures Meant(ps, x)
  {
    var qs := Marked(ps, |ps|, ok);
    var k :| 0 <= k < |qs| && qs[k].number == x.number && qs[k].status != NotWanted && qs[k].pmt == Some(x.pmt);
    assert ps[k].number == x.number && ps[k].pmt == Some(x.pmt);
  }

  lemma MeantIsWanted(es: seq<Event>, ps: seq<Program>, x: Entry)
    requires Known(es, ps) && Meant(ps, x)
    ensures Wanted(es, x.number) && News(es, x.number) == Some(x.pmt)
  {
    var k :| 0 <= k < |ps| && ps[k].number == x.number && ps[k].status != NotWanted && ps[k].pmt == Some(x.pmt);
    assert Records(es, ps[k]);
  }

  lemma UpdateSendsMeant(t: Table, e: Event, j: nat)
    requires Usable(t.programs) && e.Update? && e.pmt.Some? && Sound(e.pmt.value)
    requires |t.log| <= j < |OnUpdate(t, e.number, e.pmt.value, e.sent, e.link).log|
    requires OnUpdate(t, e.number, e.pmt.value, e.sent, e.link).log[j].Sent?
    ensures Meant(Taken(t.programs, e.number, e.pmt.value), OnUpdate(t, e.number, e.pmt.value, e.sent, e.link).log[j])
  {
    var ps, k := AddOrFind(t.programs, e.number), Find(t.programs, e.number);
    var qs := Taken(t.programs, e.number, e.pmt.value);
    if ps[k].status == CamSent {
      assert qs[k].number == e.number && qs[k].status == CamSent;
    } else {
      assert Usable(qs);
      SyncIsMeant(t.(programs := qs), e.link, j);
    }
  }

  // In every run, whatever an event sends is for a program that is wanted then, with
  // the PMT that was last news.
  lemma EverySendIsWanted(es: seq<Event>, e: Event, j: nat)
    requires (forall x <- es :: Acceptable(x)) && Acceptable(e)
    requires |Run(es).log| <= j < |Apply(Run(es), e).log| && Apply(Run(es), e).log[j].Sent?
    ensures var x := Apply(Run(es), e).log[j]; Wanted(es, x.number) && News(es + [e], x.number) == Some(x.pmt)
  {
    var t := Run(es);
    var x := Apply(t, e).log[j];
    EveryRunKnows(es);
    LastEvent(es, e, x.number);
    if e.Update? {
      UpdateSendsMeant(t, e, j);
      TakenKnows(es, t.programs, e);
      MeantIsWanted(es + [e], Taken(t.programs, e.number, e.pmt.value), x);
    } else {
      SyncIsMeant(t.(connected := true), e.link, j);
      MeantIsWanted(es, t.programs, x);
    }
  }

  // The objects of a round for one number.
  ghost predicate SentFor(r: seq<Entry>, j: nat, number: int, pmt: Pmt) {
    j < |r| && r[j].Sent? && r[j].number == number && r[j].pmt == pmt && r[j].cmd == OK_DESCRAMBLING
  }

  lemma {:induction false} RoundSends(ps: seq<Program>, n: nat, ok: nat -> bool, k: nat) returns (j: nat)
    requires k < n <= |ps| && Usable(ps) && Goes(ps, k, ok)
    ensures SentFor(Round(ps, n, ok), j, ps[k].number, ps[k].pmt.value)
    decreases n
  {
    if k == n - 1 {
      j := |Round(ps, n - 1, ok)|;
    } else {
      j := RoundSends(ps, n - 1, ok, k);
    }
  }

  // Each number goes out at most once in a round.
  lemma {:induction false} RoundSendsOnce(ps: seq<Program>, n: nat, ok: nat -> bool, i: nat, j: nat)
    requires n <= |ps| && Usable(ps) && Distinct(ps) && i < j < |Round(ps, n, ok)|
    ensures Round(ps, n, ok)[i].number != Round(ps, n, ok)[j].number
    decreases n
  {
    if n > 0 {
      var r := Round(ps, n - 1, ok);
      if j < |r| {
        RoundSendsOnce(ps, n - 1, ok, i, j);
      } else {
        EarlierNumber(ps, n - 1, ok, i);
      }
    }
  }

  lemma {:induction false} EarlierNumber(ps: seq<Program>, n: nat, ok: nat -> bool, i: nat)
    requires n <= |ps| && Usable(ps) && i < |Round(ps, n, ok)|
    ensures exists k :: 0 <= k < n && ps[k].number == Round(ps, n, ok)[i].number
    decreases n
  {
    if n > 0 {
      if i < |Round(ps, n - 1, ok)| {
        EarlierNumber(ps, n - 1, ok, i);
      } else {
        assert ps[n - 1].number == Round(ps, n, ok)[i].number;
      }
    }
  }

  lemma WantedIsSent(es: seq<Event>, ps: seq<Program>, ok: nat -> bool, number: int) returns (j: nat)
    requires Usable(ps) && Known(es, ps) && NoFailure(ps, |ps|, ok) && Wanted(es, number) && News(es, number).Some?
    ensures SentFor(Round(ps, |ps|, ok), j, number, News(es, number).value)
  {
    var k := Find(ps, number);
    assert Records(es, ps[k]) && Selected(ps[k]);
    j := RoundSends(ps, |ps|, ok, k);
  }

  lemma OthersAreNotSent(es: seq<Event>, ps: seq<Program>, ok: nat -> bool, number: int)
    requires Usable(ps) && Known(es, ps) && !(Wanted(es, number) && News(es, number).Some?)
    ensures forall j :: 0 <= j < |Round(ps, |ps|, ok)| ==> Round(ps, |ps|, ok)[j].number != number
  {
    forall j | 0 <= j < |Round(ps, |ps|, ok)| ensures Round(ps, |ps|, ok)[j].number != number {
      RoundIsMeant(ps, |ps|, ok, j);
      MeantIsWanted(es, ps, Round(ps, |ps|, ok)[j]);
    }
  }

  // The objects r are one for each number that is wanted and whose PMT is known, with
  // that PMT, and none for any other.
  ghost predicate SendsTheWanted(es: seq<Event>, r: seq<Entry>, number: int) {
    && (Wanted(es, number) && News(es, number).Some? ==> exists j :: SentFor(r, j, number, News(es, number).value))
    && (!(Wanted(es, number) && News(es, number).Some?) ==> forall j :: 0 <= j < |r| ==> r[j].number != number)
    && (forall i, j :: 0 <= i < j < |r| ==> r[i].number != r[j].number)
  }

  // So is every round in which no send fails.
  lemma RoundSendsTheWanted(es: seq<Event>, ok: nat -> bool, number: int)
    requires (forall x <- es :: Acceptable(x)) && NoFailure(Run(es).programs, |Run(es).programs|, ok)
    ensures SendsTheWanted(es, Round(Run(es).programs, |Run(es).programs|, ok), number)
  {
    EveryRunKnows(es);
    RoundOfKnown(es, Run(es).programs, ok, number, Round(Run(es).programs, |Run(es).programs|, ok));
  }

  lemma RoundOfKnown(es: seq<Event>, ps: seq<Program>, ok: nat -> bool, number: int, r: seq<Entry>)
    requires Usable(ps) && Known(es, ps) && NoFailure(ps, |ps|, ok) && r == Round(ps, |ps|, ok)
    ensures SendsTheWanted(es, r, number)
  {
    if Wanted(es, number) && News(es, number).Some? {
      var j := WantedIsSent(es, ps, ok, number);
      assert SentFor(r, j, number, News(es, number).value);
    } else {
      OthersAreNotSent(es, ps, ok, number);
    }
    forall i, j | 0 <= i < j < |r| ensures r[i].number != r[j].number {
      RoundSendsOnce(ps, |ps|, ok, i, j);
    }
  }

  // And that is what goes to a CAM that has connected: first the round, which leaves the
  // programs of it marked as sent.
  lemma ConnectedSyncSendsRound(t: Table, link: Link, k: nat)
    requires Usable(t.programs) && t.connected && k < |t.programs|
    ensures var u, r := Sync(t, link), Round(t.programs, |t.programs|, link.send);
      && t.log + r <= u.log && |u.programs| == |t.programs|
      && (forall e <- u.log[|t.log + r|..] :: e.Sent? && e.cmd == QUERY)
      && u.programs[k] == (if Goes(t.programs, k, link.send) then t.programs[k].(status := CamSent) else t.programs[k])
      && u.through == (if link.tsTaken then Some(link.tsEnable) else t.through)
  {
    var ps, r, q := SyncParts(t, link);
    assert (t.log + r + q)[..|t.log + r|] == t.log + r;
  }

  lemma UnconnectedSyncWaits(t: Table, link: Link)
    requires Usable(t.programs) && !t.connected
    ensures Sync(t, link) == t
  {
  }

  // News of a wanted program reaches a CAM that has connected, if and only if it can be
  // formatted and sent: at once for one the CAM has, in a round for one it has not.
  lemma NewsReachesTheCamIff(t: Table, number: int, pmt: Pmt, sent: bool, link: Link)
    requires Inv(t) && t.connected && Sound(pmt)
    requires var k := Find(t.programs, number);
      k < |t.programs| && t.programs[k].status != NotWanted && Changed(t.programs[k], pmt)
    ensures var k, u := Find(t.programs, number), OnUpdate(t, number, pmt, sent, link);
      u.programs[k].status == CamSent && Told(u.programs[k], u.log) <==>
      Formats(pmt) && if t.programs[k].status == CamSent then sent else link.send(k)
  {
    var k := Find(t.programs, number);
    if t.programs[k].status == CamSent {
      UpdateRepairsIff(t, number, pmt, sent, link);
    } else {
      StoreKeeps(t, k, pmt);
      NewRound(t.(programs := t.programs[k := Stored(t.programs[k], pmt)]), link, k);
    }
  }

  lemma NewRound(t: Table, link: Link, k: nat)
    requires Inv(t) && t.connected && k < |t.programs| && t.programs[k].status == Waiting && t.programs[k].pmt.Some?
    ensures var u := Sync(t, link);
      u.programs[k].status == CamSent && Told(u.programs[k], u.log) <==> Goes(t.programs, k, link.send)
  {
    var u, n := Sync(t, link), |t.programs|;
    var r := Round(t.programs, n, link.send);
    var q := if link.wantQueries then Queries(u.programs, n, link.query) else [];
    RoundLast(t.programs, n, link.send, t.log, k);
    LastAppend(t.log + r, q, t.programs[k].number);
  }

  lemma OneConnected(t: Table, e: Event)
    requires Usable(t.programs) && Acceptable(e)
    ensures Apply(t, e).connected <==> t.connected || e.CaInfo?
  {
  }

  // A CAM that has once sent its CA information counts as connected, and no other.
  lemma {:induction false} ConnectedIff(es: seq<Event>)
    requires forall x <- es :: Acceptable(x)
    ensures Run(es).connected <==> exists k :: 0 <= k < |es| && es[k].CaInfo?
  {
    if es != [] {
      var init, e := es[..|es| - 1], es[|es| - 1];
      ConnectedIff(init);
      OneConnected(Run(init), e);
      OneMoreInfo(es, init);
    }
  }

  lemma OneMoreInfo(es: seq<Event>, init: seq<Event>)
    requires es != [] && init == es[..|es| - 1]
    ensures (exists k :: 0 <= k < |es| && es[k].CaInfo?) <==>
      (exists k :: 0 <= k < |init| && init[k].CaInfo?) || es[|es| - 1].CaInfo?
  {
    if k :| 0 <= k < |init| && init[k].CaInfo? { assert es[k].CaInfo?; }
    if k :| 0 <= k < |es| && es[k].CaInfo? { assert k < |init| ==> init[k].CaInfo?; }
  }

  // A program that is added waits, whatever it did before: its next news go out in a
  // round. Nothing else changes.
  lemma AddedWaits(t: Table, number: int, k: nat)
    requires k < |OnAdd(t, number).programs|
    ensures var u := OnAdd(t, number); var j := Find(t.programs, number);
      && u.programs[k].status == (if k == j then Waiting else t.programs[k].status)
      && u == t.(programs := u.programs) && |t.programs| <= |u.programs| <= |t.programs| + 1
      && (k < |t.programs| ==> u.programs[k] == t.programs[k].(status := u.programs[k].status))
      && (k >= |t.programs| ==> u.programs[k] == Program(number, Waiting, None, 0, 0))
  {
  }

  // Every program of the table that is meant for the CAM is asked about, if that is
  // wanted and the query can be formatted and sent.
  lemma {:induction false} QueriesAsk(ps: seq<Program>, n: nat, ok: nat -> bool, k: nat) returns (j: nat)
    requires k < n <= |ps| && Usable(ps) && Goes(ps, k, ok)
    ensures var q := Queries(ps, n, ok);
      j < |q| && q[j] == Sent(ps[k].number, ps[k].pmt.value, LIST_ONLY, QUERY)
    decreases n
  {
    if k == n - 1 {
      j := |Queries(ps, n - 1, ok)|;
    } else {
      j := QueriesAsk(ps, n - 1, ok, k);
    }
  }
}
