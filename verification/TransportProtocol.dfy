// The protocol that every connection follows, as an observer of its history can check
// it. The observer knows the bytes on the wire and the outcomes of the writes, and
// works out from them alone in which state the connection is and what must come next.
module TransportProtocol {
  import opened Bytes
  import opened Transport

  // What must follow: these events; one write, and then what depends on its outcome;
  // or the answer to a T_REQUEST_T_C.
  datatype Owed =
    | Events(es: seq<Event>)
    | Write(msg: Msg, ifOk: seq<Event>, ifNot: seq<Event>)
    | Answer

  datatype Now = Now(state: ConnState, waiting: bool, queue: seq<Msg>, chain: seq<byte>)

  // legal: everything so far was owed, or allowed when nothing was owed.
  datatype Watch = Watch(now: Now, owed: Owed, legal: bool)

  const START := Watch(Now(Idle, false, [], []), Events([]), true)

  // ---- what a TPDU demands, tag by tag (Annex A.4.1 of EN 50221) ----

  function OnStatusByte(i: byte, b: byte): Owed {
    if b >= 0x80 then Write([0x81, 1, i], [], [Reported(CaWrite)]) else Events([Cleared])
  }

  function OnArrival(i: byte, m: Now, tag: byte, body: seq<byte>): Owed {
    if tag == 0x80 && m.state == Active && |body| == 1 then OnStatusByte(i, body[0])
    else if tag == 0x83 && m.state == InCreation then Events([Cleared, Opened])
    else if tag == 0x84 && (m.state == Active || m.state == InDeletion) then
      Write([0x85, 1, i], [Closed], [Reported(CaWrite)])
    else if tag == 0x85 && m.state == InDeletion then Events([])
    else if tag == 0x86 then Answer
    else if tag == 0xA0 && m.state == Active then
      Events([Cleared, Fragment(true, body)] + if body == [] then [] else [Delivered(m.chain + body)])
    else if tag == 0xA1 && m.state == Active then Events([Cleared, Fragment(false, body)])
    else Events([Reported(BadCamData)])
  }

  // ---- what a poll of the layer demands ----

  function Late(state: ConnState): seq<Event> {
    if state == Active || state == ActiveDeleteQueued then [TimedOut, Reported(Timeout)] else [TimedOut]
  }

  // The head of the queue goes out when nothing is outstanding; else an empty poll
  // when it is due; and a response that is overdue is noticed, also one just asked for.
  function OnLook(i: byte, m: Now, v: Visit): seq<Event> {
    if (m.state == InCreation || m.state == Active || m.state == ActiveDeleteQueued) && m.queue != [] && !m.waiting then
      if !v.writeOk then [Lost(m.queue[0]), Reported(CaWrite)]
      else [Sent(m.queue[0])] + if v.timedOut then Late(if Deletes(m.queue[0]) then InDeletion else m.state) else []
    else if m.state == Active && !m.waiting && v.pollDue then
      if !v.writeOk then [Wrote([0xA0, 1, i], false), Reported(CaWrite)]
      else [Polled([0xA0, 1, i])] + if v.timedOut then Late(Active) else []
    else if m.waiting && v.timedOut then Late(m.state)
    else []
  }

  predicate Deletes(x: Msg) { x != [] && x[0] == 0x84 }

  // ---- the observer ----

  predicate MayQueue(i: byte, state: ConnState, x: Msg) {
    || (state == InCreation && x == [0x82, 1, i])
    || (state == Active && x != [] && x[0] == 0xA0)
    || ((state == Active || state == InDeletion) && x == [0x84, 1, i])
  }

  function Drops(queue: seq<Msg>): (es: seq<Event>)
    ensures |es| == |queue|
    ensures forall k :: 0 <= k < |queue| ==> es[k] == Dropped(queue[k])
  {
    seq(|queue|, k requires 0 <= k < |queue| => Dropped(queue[k]))
  }

  // What event e demands when nothing is owed; None if it may not come.
  function Demand(i: byte, m: Now, e: Event): Option<Owed> {
    match e
    case Got(tag, body) => Some(OnArrival(i, m, tag, body))
    case Looked(v) => if m.state == Idle then None else Some(Events(OnLook(i, m, v)))
    case Created => if m.state == Idle then Some(Events([])) else None
    case Accepted(x) => if MayQueue(i, m.state, x) then Some(Events([])) else None
    case Wrote(x, ok) =>
      if m.state != InCreation || x != [0x82, 1, i] then None
      else Some(Events(if ok then [CamOpened] else [Withdrawn, Reported(CaWrite)]))
    case Withdrawn => if m.state == InCreation then Some(Events([])) else None
    case SlotClosed => Some(Events([Cleared] + Drops(m.queue)))
    case _ => None
  }

  predicate Answers(i: byte, x: Msg) {
    x == [0x77, 2, i, 1] || (|x| == 4 && x[0] == 0x87 && x[1] == 2 && x[2] == i)
  }

  // What is owed after e when o is owed before; None if e may not come.
  function Pay(i: byte, m: Now, o: Owed, e: Event): Option<Owed> {
    match o
    case Events(es) =>
      if es == [] then Demand(i, m, e) else if es[0] == e then Some(Events(es[1..])) else None
    case Write(x, ifOk, ifNot) =>
      if e.Wrote? && e.msg == x then Some(Events(if e.ok then ifOk else ifNot)) else None
    case Answer =>
      if e.Created? && m.state == Idle then Some(Answer)
      else if e.Wrote? && Answers(i, e.msg) then Some(Events(if e.ok then [Cleared] else [Reported(CaWrite)]))
      else None
  }

  function Tail<T>(s: seq<T>): seq<T> { if s == [] then [] else s[1..] }

  // What e says of the connection itself.
  function Effect(m: Now, e: Event): Now {
    match e
    case Created => m.(state := InCreation, chain := [])
    case Accepted(x) => m.(queue := m.queue + [x], state := if Deletes(x) then ActiveDeleteQueued else m.state)
    case Sent(x) =>
      var n := m.(queue := Tail(m.queue), waiting := true);
      if Deletes(x) then n.(state := InDeletion, chain := []) else n
    case Lost(_) => m.(queue := Tail(m.queue))
    case Dropped(_) => m.(queue := Tail(m.queue))
    case Polled(_) => m.(waiting := true)
    case Wrote(x, ok) =>
      if x != [] && x[0] == 0x85 then m.(state := Idle, chain := [])
      else if x != [] && (x[0] == 0xA0 || (x[0] == 0x81 && ok)) then m.(waiting := true)
      else m
    case Cleared => m.(waiting := false)
    case Fragment(last, data) => m.(chain := if last then [] else m.chain + data)
    case Opened => m.(state := Active)
    case CamOpened => m.(waiting := true)
    case Got(tag, _) => if tag == 0x85 && m.state == InDeletion then m.(state := Idle) else m
    case TimedOut => if m.state == InCreation || m.state == InDeletion then m.(state := Idle) else m
    case Withdrawn => m.(state := Idle)
    case SlotClosed => m.(state := Idle, chain := [])
    case _ => m
  }

  function See(i: byte, w: Watch, e: Event): Watch {
    match Pay(i, w.now, w.owed, e)
    case None => Watch(Effect(w.now, e), Events([]), false)
    case Some(o) => Watch(Effect(w.now, e), o, w.legal)
  }

  function Watched(i: byte, log: seq<Event>): Watch {
    if log == [] then START else See(i, Watched(i, log[..|log| - 1]), log[|log| - 1])
  }

  // ---- the invariant: what the observer concludes is what the connection is ----

  function View(c: Conn): Now { Now(c.state, c.waiting, c.queue, c.ChainBytes()) }

  ghost predicate Follows(i: byte, c: Conn) { Watched(i, c.log) == Watch(View(c), Events([]), true) }

  ghost predicate AllFollow(slots: seq<Slot>) {
    forall s :: 0 <= s < |slots| ==> SlotFollows(slots[s].conns)
  }

  ghost predicate SlotFollows(conns: seq<Conn>) {
    |conns| <= 256 && forall i :: 0 <= i < |conns| ==> Follows(i, conns[i])
  }

  lemma SeeSnoc(i: byte, log: seq<Event>, e: Event)
    ensures Watched(i, log + [e]) == See(i, Watched(i, log), e)
  {
    assert (log + [e])[..|log|] == log;
  }

  function EffectAll(m: Now, es: seq<Event>): Now
    decreases |es|
  {
    if es == [] then m else EffectAll(Effect(m, es[0]), es[1..])
  }

  lemma Effect1(m: Now, e: Event)
    ensures EffectAll(m, [e]) == Effect(m, e)
  {
    assert [e][1..] == [];
  }

  lemma Effect2(m: Now, e: Event, f: Event)
    ensures EffectAll(m, [e, f]) == Effect(Effect(m, e), f)
  {
    assert [e, f][1..] == [f];
    Effect1(Effect(m, e), f);
  }

  lemma Effect3(m: Now, e: Event, f: Event, g: Event)
    ensures EffectAll(m, [e, f] + [g]) == Effect(Effect(Effect(m, e), f), g)
  {
    assert ([e, f] + [g])[1..] == [f, g];
    Effect2(Effect(m, e), f, g);
  }

  // What is owed, when it comes, has only its effects.
  lemma {:induction false} PayRest(i: byte, log: seq<Event>, m: Now, es: seq<Event>)
    requires Watched(i, log) == Watch(m, Events(es), true)
    ensures Watched(i, log + es) == Watch(EffectAll(m, es), Events([]), true)
    decreases |es|
  {
    if es == [] {
      assert log + es == log;
    } else {
      SeeSnoc(i, log, es[0]);
      PayRest(i, log + [es[0]], Effect(m, es[0]), es[1..]);
      HeadFirst(log, es);
    }
  }

  lemma HeadFirst(log: seq<Event>, es: seq<Event>)
    requires es != []
    ensures log + [es[0]] + es[1..] == log + es
  {
  }

  lemma Meet(i: byte, log: seq<Event>, m: Now, e: Event, o: Owed)
    requires Watched(i, log) == Watch(m, Events([]), true) && Demand(i, m, e) == Some(o)
    ensures Watched(i, log + [e]) == Watch(Effect(m, e), o, true)
  {
    SeeSnoc(i, log, e);
  }

  // A turn: e comes when nothing is owed, and then what it demands.
  lemma Turn(i: byte, c: Conn, d: Conn, e: Event, es: seq<Event>)
    requires Follows(i, c) && Demand(i, View(c), e) == Some(Events(es)) && d.log == c.log + [e] + es
    requires EffectAll(Effect(View(c), e), es) == View(d)
    ensures Follows(i, d)
  {
    Meet(i, c.log, View(c), e, Events(es));
    PayRest(i, c.log + [e], Effect(View(c), e), es);
  }

  lemma MeetWrite(i: byte, log: seq<Event>, m: Now, x: Msg, ok: bool, ifOk: seq<Event>, ifNot: seq<Event>)
    requires Watched(i, log) == Watch(m, Write(x, ifOk, ifNot), true)
    ensures Watched(i, log + [Wrote(x, ok)]) == Watch(Effect(m, Wrote(x, ok)), Events(if ok then ifOk else ifNot), true)
  {
    SeeSnoc(i, log, Wrote(x, ok));
  }

  // A turn that demands a write.
  lemma WriteTurn(i: byte, c: Conn, d: Conn, e: Event, x: Msg, ok: bool, ifOk: seq<Event>, ifNot: seq<Event>)
    requires Follows(i, c) && Demand(i, View(c), e) == Some(Write(x, ifOk, ifNot))
    requires d.log == c.log + [e] + [Wrote(x, ok)] + if ok then ifOk else ifNot
    requires EffectAll(Effect(Effect(View(c), e), Wrote(x, ok)), if ok then ifOk else ifNot) == View(d)
    ensures Follows(i, d)
  {
    Meet(i, c.log, View(c), e, Write(x, ifOk, ifNot));
    MeetWrite(i, c.log + [e], Effect(View(c), e), x, ok, ifOk, ifNot);
    PayRest(i, c.log + [e] + [Wrote(x, ok)], Effect(Effect(View(c), e), Wrote(x, ok)), if ok then ifOk else ifNot);
  }

  // ---- every TPDU but T_REQUEST_T_C ----

  lemma RefusalFollows(i: byte, c: Conn, e: Event)
    requires Follows(i, c) && Demand(i, View(c), e) == Some(Events([Reported(BadCamData)])) && e.Got?
    requires !(e.tag == 0x85 && c.state == InDeletion)
    ensures Follows(i, Refuse(Say(c, e)).conn)
  {
    Effect1(Effect(View(c), e), Reported(BadCamData));
    Turn(i, c, Refuse(Say(c, e)).conn, e, [Reported(BadCamData)]);
  }

  lemma CreateReplyFollows(i: byte, c: Conn, body: seq<byte>)
    requires Follows(i, c)
    ensures Follows(i, OnCreateReply(Say(c, Got(0x83, body))).conn)
  {
    var e := Got(0x83, body);
    if c.state == InCreation {
      Effect2(Effect(View(c), e), Cleared, Opened);
      Turn(i, c, OnCreateReply(Say(c, e)).conn, e, [Cleared, Opened]);
    } else {
      RefusalFollows(i, c, e);
    }
  }

  lemma DeleteFollows(i: byte, c: Conn, body: seq<byte>, ok: bool)
    requires Follows(i, c)
    ensures Follows(i, OnDelete(Say(c, Got(0x84, body)), i, ok).conn)
  {
    var e := Got(0x84, body);
    if c.state == Active || c.state == InDeletion {
      AnsweredFollows(i, c, OnDelete(Say(c, e), i, ok).conn, e, [0x85, 1, i], ok, [Closed], [Reported(CaWrite)]);
    } else {
      RefusalFollows(i, c, e);
    }
  }

  // A demanded write, and at most one event that has no effect.
  lemma AnsweredFollows(i: byte, c: Conn, d: Conn, e: Event, x: Msg, ok: bool, ifOk: seq<Event>, ifNot: seq<Event>)
    requires Follows(i, c) && Demand(i, View(c), e) == Some(Write(x, ifOk, ifNot))
    requires ifNot == [Reported(CaWrite)] && (ifOk == [] || ifOk == [Closed])
    requires d.log == c.log + [e] + [Wrote(x, ok)] + if ok then ifOk else ifNot
    requires Effect(Effect(View(c), e), Wrote(x, ok)) == View(d)
    ensures Follows(i, d)
  {
    Effect1(View(d), Closed);
    Effect1(View(d), Reported(CaWrite));
    WriteTurn(i, c, d, e, x, ok, ifOk, ifNot);
  }

  lemma DeleteReplyFollows(i: byte, c: Conn, body: seq<byte>)
    requires Follows(i, c)
    ensures Follows(i, OnDeleteReply(Say(c, Got(0x85, body))).conn)
  {
    var e := Got(0x85, body);
    if c.state == InDeletion {
      assert c.log + [e] + [] == c.log + [e];
      Turn(i, c, OnDeleteReply(Say(c, e)).conn, e, []);
    } else {
      RefusalFollows(i, c, e);
    }
  }

  lemma MoreFollows(i: byte, c: Conn, body: seq<byte>)
    requires Follows(i, c)
    ensures Follows(i, OnMore(Say(c, Got(0xA1, body)), body).conn)
  {
    var e := Got(0xA1, body);
    if c.state == Active {
      Effect2(Effect(View(c), e), Cleared, Fragment(false, body));
      Turn(i, c, OnMore(Say(c, e), body).conn, e, [Cleared, Fragment(false, body)]);
    } else {
      RefusalFollows(i, c, e);
    }
  }

  lemma LastFollows(i: byte, c: Conn, body: seq<byte>)
    requires Follows(i, c)
    ensures Follows(i, OnLast(Say(c, Got(0xA0, body)), body).conn)
  {
    var e, block := Got(0xA0, body), c.ChainBytes() + body;
    var d := OnLast(Say(c, e), body).conn;
    if c.state != Active {
      RefusalFollows(i, c, e);
    } else if body == [] {
      Effect2(Effect(View(c), e), Cleared, Fragment(true, body));
      assert [Cleared, Fragment(true, body)] + [] == [Cleared, Fragment(true, body)];
      Associates(c.log + [e], [Cleared, Fragment(true, body)], []);
      Turn(i, c, d, e, [Cleared, Fragment(true, body)]);
    } else {
      Effect3(Effect(View(c), e), Cleared, Fragment(true, body), Delivered(block));
      Associates(c.log + [e], [Cleared, Fragment(true, body)], [Delivered(block)]);
      Turn(i, c, d, e, [Cleared, Fragment(true, body)] + [Delivered(block)]);
    }
  }

  lemma StatusFollows(i: byte, c: Conn, body: seq<byte>, ok: bool)
    requires Follows(i, c)
    ensures Follows(i, OnStatus(Say(c, Got(0x80, body)), i, body, ok).conn)
  {
    var e := Got(0x80, body);
    var d := OnStatus(Say(c, e), i, body, ok).conn;
    if c.state != Active || |body| != 1 {
      RefusalFollows(i, c, e);
    } else if body[0] >= 0x80 {
      assert d.log == c.log + [e] + [Wrote([0x81, 1, i], ok)] + if ok then [] else [Reported(CaWrite)];
      AnsweredFollows(i, c, d, e, [0x81, 1, i], ok, [], [Reported(CaWrite)]);
    } else {
      Effect1(Effect(View(c), e), Cleared);
      Turn(i, c, d, e, [Cleared]);
    }
  }

  lemma ConnTpduFollows(i: byte, c: Conn, tag: byte, body: seq<byte>, w: Writes)
    requires Follows(i, c) && tag != T_REQUEST_T_C
    ensures Follows(i, OnConnTpdu(Say(c, Got(tag, body)), i, tag, body, w).conn)
  {
    if tag == 0x83 {
      CreateReplyFollows(i, c, body);
    } else if tag == 0x84 {
      DeleteFollows(i, c, body, w.first);
    } else if tag == 0x85 {
      DeleteReplyFollows(i, c, body);
    } else if tag == 0xA1 {
      MoreFollows(i, c, body);
    } else if tag == 0xA0 {
      LastFollows(i, c, body);
    } else if tag == 0x80 {
      StatusFollows(i, c, body, w.first);
    } else {
      RefusalFollows(i, c, Got(tag, body));
    }
  }

  // ---- a poll visit ----

  // An overdue response is noticed after es.
  lemma LateFollows(i: byte, c: Conn, e: Event, es: seq<Event>, d: Conn, v: Visit, f: Conn)
    requires Follows(i, c) && v.timedOut && d.waiting && d.state != Idle && f == CheckTimeout(d, v).conn
    requires d.log == c.log + [e] + es && EffectAll(Effect(View(c), e), es) == View(d)
    requires Demand(i, View(c), e) == Some(Events(es + Late(d.state)))
    ensures Follows(i, f)
  {
    var late := Late(d.state);
    LateEffect(d, v, late);
    EffectConcat(Effect(View(c), e), es, late);
    Associates(c.log + [e], es, late);
    Turn(i, c, f, e, es + late);
  }

  lemma LateEffect(d: Conn, v: Visit, late: seq<Event>)
    requires v.timedOut && d.waiting && d.state != Idle && late == Late(d.state)
    ensures var f := CheckTimeout(d, v).conn; f.log == d.log + late && View(f) == EffectAll(View(d), late)
  {
    Effect1(View(d), TimedOut);
    Effect2(View(d), TimedOut, Reported(Timeout));
  }

  lemma {:induction false} EffectConcat(m: Now, a: seq<Event>, b: seq<Event>)
    ensures EffectAll(m, a + b) == EffectAll(EffectAll(m, a), b)
    decreases |a|
  {
    if a == [] {
      assert a + b == b;
    } else {
      assert (a + b)[1..] == a[1..] + b;
      EffectConcat(Effect(m, a[0]), a[1..], b);
    }
  }

  lemma SendFollows(i: byte, c: Conn, v: Visit)
    requires Follows(i, c) && MaySend(c)
    ensures Follows(i, OnVisit(c, i, v).conn)
  {
    var e, x := Looked(v), c.queue[0];
    var s := SendHead(Say(c, e), v.writeOk);
    if !v.writeOk {
      Effect2(Effect(View(c), e), Lost(x), Reported(CaWrite));
      Turn(i, c, s.conn, e, [Lost(x), Reported(CaWrite)]);
    } else {
      Effect1(Effect(View(c), e), Sent(x));
      assert PollIfDue(s.conn, i, v) == ConnStep(s.conn, Done(0));
      if v.timedOut {
        LateFollows(i, c, e, [Sent(x)], s.conn, v, CheckTimeout(s.conn, v).conn);
      } else {
        assert [Sent(x)] + [] == [Sent(x)];
        Turn(i, c, s.conn, e, [Sent(x)]);
      }
    }
  }

  lemma PollFollows(i: byte, c: Conn, v: Visit)
    requires Follows(i, c) && !MaySend(c) && c.state == Active && !c.waiting && v.pollDue
    ensures Follows(i, OnVisit(c, i, v).conn)
  {
    var e, x := Looked(v), [0xA0, 1, i];
    var p := PollIfDue(Say(c, e), i, v);
    if !v.writeOk {
      Effect2(Effect(View(c), e), Wrote(x, false), Reported(CaWrite));
      Turn(i, c, p.conn, e, [Wrote(x, false), Reported(CaWrite)]);
    } else {
      Effect1(Effect(View(c), e), Polled(x));
      if v.timedOut {
        LateFollows(i, c, e, [Polled(x)], p.conn, v, CheckTimeout(p.conn, v).conn);
      } else {
        assert [Polled(x)] + [] == [Polled(x)];
        Turn(i, c, p.conn, e, [Polled(x)]);
      }
    }
  }

  lemma QuietVisitFollows(i: byte, c: Conn, v: Visit)
    requires Follows(i, c) && c.state != Idle && !MaySend(c) && !(c.state == Active && !c.waiting && v.pollDue)
    ensures Follows(i, OnVisit(c, i, v).conn)
  {
    var e := Looked(v);
    var d := Say(c, e);
    assert PollIfDue(d, i, v) == ConnStep(d, Done(0));
    if c.waiting && v.timedOut {
      assert d.log + [] == d.log && [] + Late(c.state) == Late(c.state);
      LateFollows(i, c, e, [], d, v, CheckTimeout(d, v).conn);
    } else {
      assert d.log + [] == d.log;
      Turn(i, c, d, e, []);
    }
  }

  lemma VisitFollows(i: byte, c: Conn, v: Visit)
    requires Follows(i, c)
    ensures Follows(i, OnVisit(c, i, v).conn)
  {
    if c.state == Idle {
    } else if MaySend(c) {
      SendFollows(i, c, v);
    } else if c.state == Active && !c.waiting && v.pollDue {
      PollFollows(i, c, v);
    } else {
      QuietVisitFollows(i, c, v);
    }
  }

  // ---- T_REQUEST_T_C ----

  // The answer to a request is still owed.
  ghost predicate Asked(i: byte, c: Conn) { Watched(i, c.log) == Watch(View(c), Answer, true) }

  lemma RequestIsHeard(i: byte, c: Conn, body: seq<byte>)
    requires Follows(i, c)
    ensures Asked(i, Say(c, Got(0x86, body)))
  {
    Meet(i, c.log, View(c), Got(0x86, body), Answer);
  }

  lemma AllocateFollows(i: byte, c: Conn)
    requires c.state == Idle
    ensures Follows(i, c) ==> Follows(i, Allocate(c))
    ensures Asked(i, c) ==> Asked(i, Allocate(c))
  {
    SeeSnoc(i, c.log, Created);
  }

  lemma MeetAnswer(i: byte, log: seq<Event>, m: Now, x: Msg, ok: bool)
    requires Watched(i, log) == Watch(m, Answer, true) && Answers(i, x)
    ensures Watched(i, log + [Wrote(x, ok)]) == Watch(m, Events([if ok then Cleared else Reported(CaWrite)]), true)
  {
    assert x[0] == 0x77 || x[0] == 0x87;
    SeeSnoc(i, log, Wrote(x, ok));
  }

  lemma PayLast(i: byte, log: seq<Event>, m: Now, e: Event)
    requires Watched(i, log) == Watch(m, Events([e]), true)
    ensures Watched(i, log + [e]) == Watch(Effect(m, e), Events([]), true)
  {
    PayRest(i, log, m, [e]);
    Effect1(m, e);
  }

  lemma AnswerFollows(i: byte, c: Conn, x: Msg, ok: bool)
    requires Asked(i, c) && Answers(i, x)
    ensures Follows(i, Replied(c, x, ok))
  {
    var e := if ok then Cleared else Reported(CaWrite);
    MeetAnswer(i, c.log, View(c), x, ok);
    PayLast(i, c.log + [Wrote(x, ok)], View(c), e);
    Concluded(i, Replied(c, x, ok), c.log + [Wrote(x, ok)] + [e], Effect(View(c), e));
  }

  lemma Concluded(i: byte, d: Conn, log: seq<Event>, m: Now)
    requires Watched(i, log) == Watch(m, Events([]), true) && d.log == log && View(d) == m
    ensures Follows(i, d)
  {
  }

  lemma WithdrawFollows(i: byte, c: Conn)
    requires Follows(i, c) && c.state == InCreation
    ensures Follows(i, Withdraw(c))
  {
    Meet(i, c.log, View(c), Withdrawn, Events([]));
  }

  lemma AskFollows(i: byte, c: Conn, ok: bool)
    requires Follows(i, c) && c.state == InCreation
    ensures Follows(i, AskToOpen(c, i, ok))
  {
    var e, m := Wrote([0x82, 1, i], ok), View(c);
    var es := if ok then [CamOpened] else [Withdrawn, Reported(CaWrite)];
    Meet(i, c.log, m, e, Events(es));
    PayRest(i, c.log + [e], m, es);
    OpenedOrNot(c, i, ok, es);
    Concluded(i, AskToOpen(c, i, ok), c.log + [e] + es, EffectAll(m, es));
  }

  lemma OpenedOrNot(c: Conn, i: byte, ok: bool, es: seq<Event>)
    requires es == if ok then [CamOpened] else [Withdrawn, Reported(CaWrite)]
    ensures var d := AskToOpen(c, i, ok);
      View(d) == EffectAll(View(c), es) && d.log == c.log + [Wrote([0x82, 1, i], ok)] + es
  {
    Effect1(View(c), CamOpened);
    Effect2(View(c), Withdrawn, Reported(CaWrite));
  }

  ghost predicate OthersFollow(conns: seq<Conn>, i: byte) {
    |conns| <= 256 && forall j :: 0 <= j < |conns| && j != i ==> Follows(j, conns[j])
  }

  lemma ReplyFollows(conns: seq<Conn>, i: byte, x: Msg, ok: bool)
    requires i < |conns| && OthersFollow(conns, i) && Asked(i, conns[i]) && Answers(i, x)
    ensures SlotFollows(conns[i := Replied(conns[i], x, ok)])
  {
    AnswerFollows(i, conns[i], x, ok);
  }

  lemma TakeFollows(conns: seq<Conn>, i: byte, n: byte)
    requires i < |conns| && n < |conns| && OthersFollow(conns, i) && Asked(i, conns[i]) && conns[n].state == Idle
    ensures var taken := conns[n := Allocate(conns[n])]; OthersFollow(taken, i) && Asked(i, taken[i])
  {
    AllocateFollows(n, conns[n]);
  }

  lemma RequestFollows(conns: seq<Conn>, i: byte, w: Writes, after: seq<Conn>)
    requires i < |conns| && OthersFollow(conns, i) && Asked(i, conns[i]) && after == OnRequest(conns, i, w).conns
    ensures SlotFollows(after)
  {
    var n := FirstIdle(conns, 1);
    if n.None? {
      ReplyFollows(conns, i, [0x77, 2, i, 1], w.first);
    } else {
      GrantFollows(conns, i, n.value, w, after);
    }
  }

  lemma GrantFollows(conns: seq<Conn>, i: byte, n: byte, w: Writes, after: seq<Conn>)
    requires i < |conns| && n < |conns| && OthersFollow(conns, i) && Asked(i, conns[i]) && conns[n].state == Idle
    requires after == Grant(conns, i, n, w).conns
    ensures SlotFollows(after)
  {
    var taken := conns[n := Allocate(conns[n])];
    TakeFollows(conns, i, n);
    AnsweredGrantFollows(taken, i, n, w, after, taken[i := Replied(taken[i], [0x87, 2, i, n], w.first)]);
  }

  lemma AnsweredGrantFollows(taken: seq<Conn>, i: byte, n: byte, w: Writes, after: seq<Conn>, replied: seq<Conn>)
    requires i < |taken| && n < |taken| && OthersFollow(taken, i) && Asked(i, taken[i]) && taken[n].state == InCreation
    requires replied == taken[i := Replied(taken[i], [0x87, 2, i, n], w.first)]
    requires after == replied[n := if w.first then AskToOpen(replied[n], n, w.second) else Withdraw(replied[n])]
    ensures SlotFollows(after)
  {
    ReplyFollows(taken, i, [0x87, 2, i, n], w.first);
    SettledFollows(replied, n, w);
  }

  lemma SettledFollows(conns: seq<Conn>, n: byte, w: Writes)
    requires n < |conns| && SlotFollows(conns) && conns[n].state == InCreation
    ensures SlotFollows(conns[n := if w.first then AskToOpen(conns[n], n, w.second) else Withdraw(conns[n])])
  {
    AskFollows(n, conns[n], w.second);
    WithdrawFollows(n, conns[n]);
  }

  // ---- the calls ----

  lemma EnqueueFollows(i: byte, c: Conn, x: Msg, d: Conn)
    requires Follows(i, c) && MayQueue(i, c.state, x)
    requires d == Enqueue(c, x).(state := if Deletes(x) then ActiveDeleteQueued else c.state)
    ensures Follows(i, d)
  {
    Meet(i, c.log, View(c), Accepted(x), Events([]));
  }

  lemma {:induction false} DropEffects(m: Now)
    ensures EffectAll(m, Drops(m.queue)) == m.(queue := [])
    decreases |m.queue|
  {
    if m.queue != [] {
      var n := m.(queue := m.queue[1..]);
      assert Drops(m.queue)[0] == Dropped(m.queue[0]) && Drops(m.queue)[1..] == Drops(n.queue);
      assert Effect(m, Dropped(m.queue[0])) == n;
      DropEffects(n);
    }
  }

  lemma DiscardFollows(i: byte, c: Conn)
    requires Follows(i, c)
    ensures Follows(i, Discard(c))
  {
    var m := View(c).(state := Idle, chain := []);
    var drops := Drops(c.queue);
    Effect1(m, Cleared);
    EffectConcat(m, [Cleared], drops);
    DropEffects(m.(waiting := false));
    assert DroppedAll(c.queue) == drops;
    assert c.log + [SlotClosed, Cleared] + drops == c.log + [SlotClosed] + ([Cleared] + drops);
    Turn(i, c, Discard(c), SlotClosed, [Cleared] + drops);
  }

  // ---- every run ----

  lemma PutFollows(slots: seq<Slot>, s: nat, i: byte, c: Conn)
    requires s < |slots| && i < |slots[s].conns| && AllFollow(slots) && Follows(i, c)
    ensures AllFollow(Put(slots, s, i, c))
  {
    assert SlotFollows(slots[s].conns);
  }

  lemma SlotPutFollows(slots: seq<Slot>, s: nat, conns: seq<Conn>)
    requires s < |slots| && AllFollow(slots) && SlotFollows(conns)
    ensures AllFollow(slots[s := slots[s].(conns := conns)])
  {
  }

  lemma TpduFollows(slots: seq<Slot>, s: nat, t: Tpdu, w: Writes)
    requires s < |slots| && AllFollow(slots)
    ensures AllFollow(OnTpdu(slots, s, t, w).slots)
  {
    if t.conn < |slots[s].conns| {
      assert SlotFollows(slots[s].conns);
      var c := slots[s].conns[t.conn];
      var heard := slots[s].conns[t.conn := Say(c, Got(t.tag, t.body))];
      TpduInSteps(slots, s, t, w);
      if t.tag == T_REQUEST_T_C {
        RequestIsHeard(t.conn, c, t.body);
        RequestFollows(heard, t.conn, w, OnRequest(heard, t.conn, w).conns);
        SlotPutFollows(slots, s, OnRequest(heard, t.conn, w).conns);
      } else {
        ConnTpduFollows(t.conn, c, t.tag, t.body, w);
        PutFollows(slots, s, t.conn, OnConnTpdu(heard[t.conn], t.conn, t.tag, t.body, w).conn);
      }
    }
  }

  lemma TpduInSteps(slots: seq<Slot>, s: nat, t: Tpdu, w: Writes)
    requires s < |slots| && t.conn < |slots[s].conns|
    ensures var heard := slots[s].conns[t.conn := Say(slots[s].conns[t.conn], Got(t.tag, t.body))];
      OnTpdu(slots, s, t, w).slots ==
        if t.tag == T_REQUEST_T_C then slots[s := slots[s].(conns := OnRequest(heard, t.conn, w).conns)]
        else Put(slots, s, t.conn, OnConnTpdu(heard[t.conn], t.conn, t.tag, t.body, w).conn)
  {
    var heard := slots[s].conns[t.conn := Say(slots[s].conns[t.conn], Got(t.tag, t.body))];
    var told := Put(slots, s, t.conn, Say(slots[s].conns[t.conn], Got(t.tag, t.body)));
    assert told[s].conns == heard;
    if t.tag != T_REQUEST_T_C {
      PutTwice(slots, s, t.conn, heard[t.conn], OnConnTpdu(heard[t.conn], t.conn, t.tag, t.body, w).conn);
    }
  }

  lemma CallFollows(slots: seq<Slot>, input: Input)
    requires AllFollow(slots) && !input.Received? && !input.Visited?
    ensures AllFollow(Apply(slots, input).slots)
  {
    match input
    case RegisterSlotCall =>
      assert forall s :: 0 <= s < |slots| ==> SlotFollows(slots[s].conns);
    case DestroySlotCall(s) =>
      if s < |slots| {
        assert SlotFollows(slots[s].conns);
        forall i | 0 <= i < |slots[s].conns| ensures Follows(i, Discard(slots[s].conns[i])) {
          DiscardFollows(i, slots[s].conns[i]);
        }
      }
    case SendDataCall(s, i, data) =>
      if SendData(slots, s, i, data).result.Done? {
        assert SlotFollows(slots[s].conns);
        EnqueueFollows(i, slots[s].conns[i], DataMessage(i, data), Enqueue(slots[s].conns[i], DataMessage(i, data)));
        PutFollows(slots, s, i, Enqueue(slots[s].conns[i], DataMessage(i, data)));
      }
    case NewTcCall(s) => NewTcFollows(slots, s);
    case DelTcCall(s, i) =>
      if DelTc(slots, s, i).result.Done? {
        assert SlotFollows(slots[s].conns);
        var d := Enqueue(slots[s].conns[i], [T_DELETE_T_C, 1, i]).(state := ActiveDeleteQueued);
        EnqueueFollows(i, slots[s].conns[i], [T_DELETE_T_C, 1, i], d);
        PutFollows(slots, s, i, d);
      }
  }

  lemma NewTcFollows(slots: seq<Slot>, s: byte)
    requires AllFollow(slots)
    ensures AllFollow(NewTc(slots, s).slots)
  {
    var r := NewTc(slots, s).result;
    if r.Done? {
      assert SlotFollows(slots[s].conns);
      CreationFollows(slots, s, r.id);
    }
  }

  lemma CreationFollows(slots: seq<Slot>, s: nat, i: byte)
    requires s < |slots| && AllFollow(slots) && i < |slots[s].conns| && slots[s].conns[i].state == Idle
    ensures AllFollow(Put(slots, s, i, Enqueue(Allocate(slots[s].conns[i]), [T_CREATE_T_C, 1, i])))
  {
    assert SlotFollows(slots[s].conns);
    var c := Allocate(slots[s].conns[i]);
    AllocateFollows(i, slots[s].conns[i]);
    EnqueueFollows(i, c, [T_CREATE_T_C, 1, i], Enqueue(c, [T_CREATE_T_C, 1, i]));
    PutFollows(slots, s, i, Enqueue(c, [T_CREATE_T_C, 1, i]));
  }

  lemma ApplyFollows(slots: seq<Slot>, input: Input)
    requires AllFollow(slots)
    ensures AllFollow(Apply(slots, input).slots)
  {
    match input
    case Received(s, t, w) =>
      if s < |slots| && slots[s].open { TpduFollows(slots, s, t, w); }
    case Visited(s, i, v) =>
      if s < |slots| && slots[s].open && i < |slots[s].conns| {
        assert SlotFollows(slots[s].conns);
        VisitFollows(i, slots[s].conns[i], v);
        PutFollows(slots, s, i, OnVisit(slots[s].conns[i], i, v).conn);
      }
    case _ => CallFollows(slots, input);
  }

  lemma {:induction false} RunFollows(slots: seq<Slot>, inputs: seq<Input>)
    requires AllFollow(slots)
    ensures AllFollow(Run(slots, inputs))
    decreases |inputs|
  {
    if inputs != [] {
      ApplyFollows(slots, inputs[0]);
      RunFollows(Apply(slots, inputs[0]).slots, inputs[1..]);
    }
  }

  // In every run, on every connection: the history is one that the observer allows at
  // every event, nothing is owed at the end, and the connection's state, tx_time, queue
  // and chain are what the observer works out.
  lemma EveryRunFollowsTheProtocol(maxSlots: byte, maxConns: byte, inputs: seq<Input>, s: nat, i: byte)
    requires s < |Run(Initial(maxSlots, maxConns), inputs)|
    requires i < |Run(Initial(maxSlots, maxConns), inputs)[s].conns|
    ensures var c := Run(Initial(maxSlots, maxConns), inputs)[s].conns[i];
      Watched(i, c.log) == Watch(Now(c.state, c.waiting, c.queue, c.ChainBytes()), Events([]), true)
  {
    RunFollows(Initial(maxSlots, maxConns), inputs);
    assert SlotFollows(Run(Initial(maxSlots, maxConns), inputs)[s].conns);
  }

  // ---- what that means for T_SB and T_RCV ----

  lemma {:induction false} LegalPrefix(i: byte, log: seq<Event>, n: nat)
    requires n <= |log| && Watched(i, log).legal
    ensures Watched(i, log[..n]).legal
    decreases |log|
  {
    if n < |log| {
      var m := |log| - 1;
      assert log[..m][..n] == log[..n];
      LegalPrefix(i, log[..m], n);
    } else {
      assert log[..n] == log;
    }
  }

  lemma SeePrefix(i: byte, log: seq<Event>, j: nat)
    requires j < |log|
    ensures Watched(i, log[..j + 1]) == See(i, Watched(i, log[..j]), log[j])
  {
    assert log[..j + 1] == log[..j] + [log[j]];
    SeeSnoc(i, log[..j], log[j]);
  }

  ghost predicate StatusArrives(i: byte, log: seq<Event>, j: nat, b: byte)
    requires j < |log|
  {
    log[j] == Got(0x80, [b]) && Watched(i, log[..j]).now.state == Active && Watched(i, log[..j]).owed == Events([])
  }

  // The event after a T_SB on an active connection: the write of T_RCV when the top bit
  // is set, and tx_time is cleared, with nothing written, when it is not.
  lemma StatusIsAnswered(i: byte, log: seq<Event>, j: nat, b: byte)
    requires Watched(i, log).legal && Watched(i, log).owed == Events([])
    requires j < |log| && StatusArrives(i, log, j, b)
    ensures j + 1 < |log|
    ensures if b >= 0x80 then log[j + 1].Wrote? && log[j + 1].msg == [0x81, 1, i] else log[j + 1] == Cleared
    ensures b >= 0x80 ==>
      (Watched(i, log[..j + 2]).now.waiting <==> log[j + 1].ok || Watched(i, log[..j]).now.waiting)
  {
    StatusOwes(i, log, j, b);
    LegalPrefix(i, log, j + 2);
    SeePrefix(i, log, j + 1);
  }

  lemma StatusOwes(i: byte, log: seq<Event>, j: nat, b: byte)
    requires Watched(i, log).legal && Watched(i, log).owed == Events([])
    requires j < |log| && StatusArrives(i, log, j, b)
    ensures j + 1 < |log| && Watched(i, log[..j + 1]).owed == OnStatusByte(i, b)
    ensures Watched(i, log[..j + 1]).now == Watched(i, log[..j]).now
  {
    SeePrefix(i, log, j);
    LegalPrefix(i, log, j + 1);
    assert log[..|log|] == log;
  }

  // A transmission of a T_RCV.
  predicate Fetches(e: Event) {
    (e.Wrote? || e.Sent? || e.Polled?) && e.msg != [] && e.msg[0] == 0x81
  }

  ghost predicate Plain(es: seq<Event>) { forall k :: 0 <= k < |es| ==> !Fetches(es[k]) && !es[k].Accepted? }

  ghost predicate NoneQueued(queue: seq<Msg>) { forall k :: 0 <= k < |queue| ==> queue[k] != [] && queue[k][0] != 0x81 }

  // No T_RCV is queued or owed but as the answer to a T_SB.
  ghost predicate Tame(w: Watch) {
    && NoneQueued(w.now.queue)
    && match w.owed
       case Events(es) => Plain(es)
       case Write(x, ifOk, ifNot) => Plain(ifOk) && Plain(ifNot)
       case Answer => true
  }

  lemma LookIsTame(i: byte, m: Now, v: Visit)
    requires NoneQueued(m.queue)
    ensures Plain(OnLook(i, m, v))
  {
  }

  lemma DropsAreTame(queue: seq<Msg>)
    ensures Plain([Cleared] + Drops(queue))
  {
  }

  lemma DemandIsTame(i: byte, m: Now, e: Event, o: Owed)
    requires NoneQueued(m.queue) && Demand(i, m, e) == Some(o)
    ensures Tame(Watch(m, o, true)) && NoneQueued(Effect(m, e).queue)
  {
    match e {
      case Looked(v) => LookIsTame(i, m, v);
      case SlotClosed => DropsAreTame(m.queue);
      case _ =>
    }
  }

  lemma OwedIsTame(m: Now, es: seq<Event>)
    requires NoneQueued(m.queue) && Plain(es) && es != []
    ensures Plain(es[1..]) && NoneQueued(Effect(m, es[0]).queue)
  {
  }

  lemma SeeIsTame(i: byte, w: Watch, e: Event)
    requires Tame(w) && See(i, w, e).legal
    ensures Tame(See(i, w, e))
  {
    match w.owed
    case Events(es) =>
      if es == [] { DemandIsTame(i, w.now, e, Demand(i, w.now, e).value); } else { OwedIsTame(w.now, es); }
    case _ =>
  }

  lemma {:induction false} LegalIsTame(i: byte, log: seq<Event>)
    requires Watched(i, log).legal
    ensures Tame(Watched(i, log))
  {
    if log != [] {
      LegalPrefix(i, log, |log| - 1);
      LegalIsTame(i, log[..|log| - 1]);
      SeeIsTame(i, Watched(i, log[..|log| - 1]), log[|log| - 1]);
    }
  }

  // A T_RCV may only come where a T_SB with its top bit set demands it.
  lemma FetchIsOwed(i: byte, w: Watch, e: Event)
    requires Tame(w) && See(i, w, e).legal && Fetches(e)
    ensures w.owed.Write? && e.Wrote? && w.owed.msg == e.msg
  {
  }

  lemma WriteIsDemanded(i: byte, w: Watch, e: Event)
    requires w.legal && See(i, w, e).legal && See(i, w, e).owed.Write? && See(i, w, e).owed.msg[..1] == [0x81]
    ensures w.owed == Events([]) && w.now.state == Active && e.Got? && e.tag == 0x80
    ensures |e.body| == 1 && e.body[0] >= 0x80 && See(i, w, e).owed.msg == [0x81, 1, i]
  {
    assert See(i, w, e).owed.msg[0] == 0x81;
  }

  // Whatever transmits the tag of T_RCV is the write that answers a T_SB with its top
  // bit set, right after it.
  lemma OnlyStatusFetches(i: byte, log: seq<Event>, j: nat) returns (b: byte)
    requires Watched(i, log).legal && j < |log| && Fetches(log[j])
    ensures j > 0 && b >= 0x80 && StatusArrives(i, log, j - 1, b)
    ensures log[j].Wrote? && log[j].msg == [0x81, 1, i]
  {
    var w := LegalTurn(i, log, j);
    FetchIsOwed(i, w, log[j]);
    var u := LegalTurn(i, log, j - 1);
    b := FetchTurn(i, u, w, log[j - 1], log[j]);
  }

  // The observer before event j, which is legal.
  lemma LegalTurn(i: byte, log: seq<Event>, j: int) returns (w: Watch)
    requires Watched(i, log).legal && -1 <= j < |log|
    ensures j >= 0 ==> w == Watched(i, log[..j]) && w.legal && Tame(w)
    ensures j >= 0 ==> See(i, w, log[j]) == Watched(i, log[..j + 1]) && See(i, w, log[j]).legal
    ensures j == 0 ==> w == START
  {
    w := START;
    if j >= 0 {
      w := Watched(i, log[..j]);
      LegalPrefix(i, log, j);
      LegalPrefix(i, log, j + 1);
      SeePrefix(i, log, j);
      LegalIsTame(i, log[..j]);
    }
  }

  lemma FetchTurn(i: byte, u: Watch, w: Watch, e: Event, f: Event) returns (b: byte)
    requires u.legal && w == See(i, u, e) && w.legal && Tame(w) && See(i, w, f).legal && Fetches(f)
    ensures b >= 0x80 && e == Got(0x80, [b]) && u.now.state == Active && u.owed == Events([])
    ensures f.Wrote? && f.msg == [0x81, 1, i]
  {
    FetchIsOwed(i, w, f);
    assert f.msg[..1] == [0x81];
    WriteIsDemanded(i, u, e);
    b := e.body[0];
    assert e.body == [b];
  }

  // ---- the results ----

  // The error that the last event of a history reports, if it reports one.
  function Verdict(log: seq<Event>): Result {
    if log != [] && log[|log| - 1].Reported? then Fail(log[|log| - 1].error) else Done(0)
  }

  // The parser goes on past a TPDU exactly when no error was reported on its account.
  lemma TpduErrorsAreReported(slots: seq<Slot>, s: nat, t: Tpdu, w: Writes)
    requires s < |slots| && slots[s].open && t.conn < |slots[s].conns| && t.tag != 0x86
    ensures var r := Apply(slots, Received(s, t, w));
      s < |r.slots| && t.conn < |r.slots[s].conns| && r.result == Verdict(r.slots[s].conns[t.conn].log)
  {
    TpduInSteps(slots, s, t, w);
    ConnErrors(Say(slots[s].conns[t.conn], Got(t.tag, t.body)), t.conn, t.tag, t.body, w);
  }

  // A connection that is not there is refused, and nothing changes.
  lemma UnknownConnectionIsRefused(slots: seq<Slot>, s: nat, t: Tpdu, w: Writes)
    requires s < |slots| && slots[s].open && t.conn >= |slots[s].conns|
    ensures Apply(slots, Received(s, t, w)) == Step(slots, Fail(BadConnectionId))
  {
  }

  lemma ConnErrors(c: Conn, i: nat, tag: byte, body: seq<byte>, w: Writes)
    requires Verdict(c.log) == Done(0)
    ensures OnConnTpdu(c, i, tag, body, w).result == Verdict(OnConnTpdu(c, i, tag, body, w).conn.log)
  {
  }

  lemma VisitErrorsAreReported(slots: seq<Slot>, s: nat, i: nat, v: Visit)
    requires s < |slots| && slots[s].open && i < |slots[s].conns| && slots[s].conns[i].state != Idle
    ensures var r := Apply(slots, Visited(s, i, v));
      s < |r.slots| && i < |r.slots[s].conns| && r.result == Verdict(r.slots[s].conns[i].log)
  {
    ServeErrors(Say(slots[s].conns[i], Looked(v)), i, v);
  }

  lemma ServeErrors(c: Conn, i: nat, v: Visit)
    requires Verdict(c.log) == Done(0)
    ensures Serve(c, i, v).result == Verdict(Serve(c, i, v).conn.log)
  {
  }

  // The connection that a T_REQUEST_T_C came on, with x written in answer.
  function Answered(c: Conn, body: seq<byte>, x: Msg, ok: bool): Conn {
    c.(waiting := c.waiting && !ok,
       log := c.log + [Got(0x86, body), Wrote(x, ok), if ok then Cleared else Reported(CaWrite)])
  }

  // The connection n that was free for it.
  function Newcomer(d: Conn, n: byte, w: Writes): Conn {
    var open := w.first && w.second;
    d.(state := if open then InCreation else Idle, waiting := d.waiting || open, chain := None,
       log := d.log + [Created] + NewcomerWrites(n, w))
  }

  function NewcomerWrites(n: byte, w: Writes): seq<Event> {
    if !w.first then [Withdrawn]
    else if w.second then [Wrote([0x82, 1, n], true), CamOpened]
    else [Wrote([0x82, 1, n], false), Withdrawn, Reported(CaWrite)]
  }

  lemma AnsweredLog(c: Conn, body: seq<byte>, x: Msg, ok: bool)
    ensures Replied(Say(c, Got(0x86, body)), x, ok) == Answered(c, body, x, ok)
  {
    var e := if ok then Cleared else Reported(CaWrite);
    assert c.log + [Got(0x86, body)] + [Wrote(x, ok)] + [e] == c.log + [Got(0x86, body), Wrote(x, ok), e];
  }

  lemma NewcomerLog(d: Conn, n: byte, w: Writes)
    requires d.state == Idle
    ensures Newcomer(d, n, w) == if w.first then AskToOpen(Allocate(d), n, w.second) else Withdraw(Allocate(d))
  {
    if w.first {
      var a, e := d.log + [Created], Wrote([0x82, 1, n], w.second);
      if w.second {
        assert a + [e] + [CamOpened] == a + [e, CamOpened];
      } else {
        assert a + [e] + [Withdrawn] + [Reported(CaWrite)] == a + [e, Withdrawn, Reported(CaWrite)];
      }
    }
  }

  // A T_REQUEST_T_C when every connection from 1 on is in use: [0x77, 2, i, 1] goes out
  // on the connection it came on, and no other connection changes.
  lemma RequestIsRefused(slots: seq<Slot>, s: nat, i: byte, body: seq<byte>, w: Writes)
    requires s < |slots| && slots[s].open && i < |slots[s].conns|
    requires forall k :: 1 <= k < |slots[s].conns| ==> slots[s].conns[k].state != Idle
    ensures var r := Apply(slots, Received(s, Tpdu(0x86, i, body), w));
      && r.result == (if w.first then Done(0) else Fail(CaWrite))
      && r.slots == Put(slots, s, i, Answered(slots[s].conns[i], body, [0x77, 2, i, 1], w.first))
  {
    var c := slots[s].conns[i];
    var heard := slots[s].conns[i := Say(c, Got(0x86, body))];
    TpduInSteps(slots, s, Tpdu(0x86, i, body), w);
    assert forall k :: 1 <= k < |heard| ==> heard[k].state != Idle;
    AnsweredLog(c, body, [0x77, 2, i, 1], w.first);
    assert heard[i := Replied(heard[i], [0x77, 2, i, 1], w.first)]
        == slots[s].conns[i := Answered(c, body, [0x77, 2, i, 1], w.first)];
  }

  // And when n is the lowest that is free: [0x87, 2, i, n] goes out on the connection
  // it came on, then [0x82, 1, n] on connection n, which is in creation afterwards if
  // and only if both writes work. No other connection changes.
  lemma RequestIsGranted(slots: seq<Slot>, s: nat, i: byte, n: byte, body: seq<byte>, w: Writes)
    requires s < |slots| && slots[s].open && i < |slots[s].conns| <= 256 && i != n
    requires 1 <= n < |slots[s].conns| && slots[s].conns[n].state == Idle
    requires forall k :: 1 <= k < n ==> slots[s].conns[k].state != Idle
    ensures var r := Apply(slots, Received(s, Tpdu(0x86, i, body), w));
      && r.result == (if w.first && w.second then Done(0) else Fail(CaWrite))
      && r.slots == Put(Put(slots, s, i, Answered(slots[s].conns[i], body, [0x87, 2, i, n], w.first)),
                        s, n, Newcomer(slots[s].conns[n], n, w))
  {
    var conns := slots[s].conns;
    var heard := conns[i := Say(conns[i], Got(0x86, body))];
    TpduInSteps(slots, s, Tpdu(0x86, i, body), w);
    LowestIs(heard, n);
    GrantParts(conns, heard, i, n, body, w);
  }

  lemma LowestIs(conns: seq<Conn>, n: nat)
    requires 1 <= n < |conns| && conns[n].state == Idle && forall k :: 1 <= k < n ==> conns[k].state != Idle
    ensures FirstIdle(conns, 1) == Some(n)
  {
    var r := FirstIdle(conns, 1);
    assert r.Some? && !(r.value < n);
  }

  lemma GrantParts(conns: seq<Conn>, heard: seq<Conn>, i: byte, n: byte, body: seq<byte>, w: Writes)
    requires i < |conns| && n < |conns| && i != n && conns[n].state == Idle
    requires heard == conns[i := Say(conns[i], Got(0x86, body))]
    ensures Grant(heard, i, n, w).conns ==
      conns[i := Answered(conns[i], body, [0x87, 2, i, n], w.first)][n := Newcomer(conns[n], n, w)]
  {
    AnsweredLog(conns[i], body, [0x87, 2, i, n], w.first);
    NewcomerLog(conns[n], n, w);
  }

  // ---- the calls ----

  ghost predicate Usable(slots: seq<Slot>, s: nat, i: nat) {
    s < |slots| && slots[s].open && i < |slots[s].conns|
  }

  // Which calls succeed, and what is queued then; one that fails changes nothing.
  lemma SendSucceedsIff(slots: seq<Slot>, s: byte, i: byte, data: seq<byte>)
    ensures var r := Apply(slots, SendDataCall(s, i, data));
      && (r.result == Done(0) <==> Usable(slots, s, i) && slots[s].conns[i].state == Active)
      && (r.result.Fail? ==> r.slots == slots)
      && (r.result == Fail(BadSlotId) <==> !(s < |slots| && slots[s].open))
      && (r.result.Done? ==>
            Usable(r.slots, s, i) && r.slots[s].conns[i].queue == slots[s].conns[i].queue + [DataMessage(i, data)])
  {
  }

  lemma DeleteSucceedsIff(slots: seq<Slot>, s: byte, i: byte)
    ensures var r := Apply(slots, DelTcCall(s, i));
      && (r.result == Done(0) <==> Usable(slots, s, i) && slots[s].conns[i].state in {Active, InDeletion})
      && (r.result.Fail? ==> r.slots == slots)
      && (r.result.Done? ==> Usable(r.slots, s, i) && r.slots[s].conns[i].state == ActiveDeleteQueued)
      && (r.result.Done? ==> r.slots[s].conns[i].queue == slots[s].conns[i].queue + [[0x84, 1, i]])
  {
  }

  lemma CreateSucceedsIff(slots: seq<Slot>, s: byte)
    ensures var r := Apply(slots, NewTcCall(s));
      && (r.result.Done? <==>
            s < |slots| && slots[s].open && exists n :: 1 <= n < |slots[s].conns| && slots[s].conns[n].state == Idle)
      && (r.result.Fail? ==> r.slots == slots)
      && (r.result.Done? ==> var n := r.result.id;
            && 1 <= n && Usable(slots, s, n) && slots[s].conns[n].state == Idle && Usable(r.slots, s, n)
            && (forall k :: 1 <= k < n ==> slots[s].conns[k].state != Idle)
            && r.slots[s].conns[n].state == InCreation
            && r.slots[s].conns[n].queue == slots[s].conns[n].queue + [[0x82, 1, n % 256]])
  {
  }
}
