// The MMI resource (en50221_app_mmi.c) as it changes in place, and a menu from the
// fragments that bring it to the application's callback.
module MmiResource {
  import opened Bytes
  import Asn1
  import opened MmiFragments
  import opened MmiMenu

  // What comes of a MENU or LIST object: an error, more to wait for, or a callback.
  datatype Outcome = Refused | Waiting | Callback(menu: MenuResult)

  datatype Payload = Short | Payload(bytes: seq<byte>)

  // The object behind its length field.
  function Unwrap(data: seq<byte>): Payload {
    match Asn1.Decode(data)
    case Bad => Short
    case Length(used, n) => if n > |data| - used then Short else Payload(data[used..used + n])
  }

  function Outcomes(status: int, whole: seq<byte>): Outcome {
    if status <= 0 then Waiting else if ParseMenu(whole).BadMenu? then Refused else Callback(ParseMenu(whole))
  }

  // en50221_app_mmi_parse_list_menu
  function OnListMenu(rs: seq<Record>, number: nat, k: Kind, last: bool, data: seq<byte>): (seq<Record>, Outcome) {
    match Unwrap(data)
    case Short => (rs, Refused)
    case Payload(bytes) =>
      var d := Defragment(rs, number, k, last, bytes);
      (d.0, Outcomes(d.1, d.2))
  }

  // ---- every run of the handler ----

  // One call of the handler: what a MENU or LIST object of a session brings.
  datatype Object = Object(number: nat, kind: Kind, last: bool, data: seq<byte>)

  // The records after a run of the handler.
  function Handled(os: seq<Object>): seq<Record> {
    if os == [] then []
    else
      var o := os[|os| - 1];
      OnListMenu(Handled(os[..|os| - 1]), o.number, o.kind, o.last, o.data).0
  }

  // The fragments in the objects, without those that are cut short.
  function Fragments(os: seq<Object>): seq<Fragment> {
    if os == [] then []
    else
      var o := os[|os| - 1];
      match Unwrap(o.data)
      case Short => Fragments(os[..|os| - 1])
      case Payload(bytes) => Fragments(os[..|os| - 1]) + [Fragment(o.number, o.kind, o.last, bytes)]
  }

  lemma {:induction false} HandledIsRun(os: seq<Object>)
    ensures Handled(os) == Run(Fragments(os))
  {
    if os != [] {
      var init, o := os[..|os| - 1], os[|os| - 1];
      HandledIsRun(init);
      match Unwrap(o.data) {
        case Short =>
        case Payload(bytes) =>
          var fs := Fragments(os);
          assert fs[..|fs| - 1] == Fragments(init);
      }
    }
  }

  // In every run, the handler holds for each session and kind exactly the fragments
  // since its last object.
  lemma EveryFragmentIsHeld(os: seq<Object>, number: nat, k: Kind)
    ensures Held(Handled(os), number, k) == Flatten(Since(Fragments(os), number, k))
  {
    HandledIsRun(os);
    EveryRunHolds(Fragments(os), number, k);
  }

  // What it makes of the next object: one cut short is refused and changes nothing, a
  // MORE waits, and a LAST shows or refuses all that came since the last object.
  lemma EveryObjectIsAnswered(os: seq<Object>, o: Object)
    ensures var (rs, r) := OnListMenu(Handled(os), o.number, o.kind, o.last, o.data);
      match Unwrap(o.data)
      case Short => r == Refused && rs == Handled(os)
      case Payload(bytes) =>
        var whole := Flatten(Since(Fragments(os), o.number, o.kind) + [bytes]);
        r == if !o.last then Waiting else if ParseMenu(whole).BadMenu? then Refused else Callback(ParseMenu(whole))
  {
    match Unwrap(o.data) {
      case Short =>
      case Payload(bytes) =>
        HandledIsRun(os);
        DefragmentRefinesMap(Handled(os), o.number, o.kind, o.last, bytes, o.number, o.kind);
        if o.last { LastYieldsItsFragments(Fragments(os), Fragment(o.number, o.kind, true, bytes)); }
    }
  }

  // A menu of up to 252 choices, cut into objects anywhere and sent among those of other
  // sessions and kinds, is shown with exactly its texts.
  lemma MenuIsShown(os: seq<Object>, number: nat, k: Kind, choices: byte, chains: seq<seq<seq<byte>>>,
                    tail: seq<byte>, rest: seq<byte>)
    requires AllSendable(chains) && choices <= 252 && |chains| - 3 == choices && |tail| < 0x1_0000
    requires Flatten(Since(Fragments(os), number, k) + [tail]) == [choices] + (ChainsBytes(chains) + [])
    ensures OnListMenu(Handled(os), number, k, true, Asn1.Field(|tail|) + tail + rest).1 ==
      Callback(Shown(Flatten(chains[0]), Flatten(chains[1]), Flatten(chains[2]), Joined(chains)[3..], [], []))
  {
    MenuComesBack(choices, chains, []);
    Unwrapped(tail, rest);
    EveryObjectIsAnswered(os, Object(number, k, true, Asn1.Field(|tail|) + tail + rest));
  }

  // The bytes behind a length field, whatever follows them.
  lemma Unwrapped(bytes: seq<byte>, rest: seq<byte>)
    requires |bytes| < 0x1_0000
    ensures Unwrap(Asn1.Field(|bytes|) + bytes + rest) == Payload(bytes)
  {
    var field := Asn1.Field(|bytes|);
    var data := field + bytes + rest;
    Associates(field, bytes, rest);
    Asn1.FieldRoundTrip(|bytes|, bytes + rest);
    assert data[|field|..|field| + |bytes|] == bytes;
  }

  // With fewer bytes than the field announces there is no object.
  lemma CutShort(n: u16, bytes: seq<byte>)
    requires |bytes| < n
    ensures Unwrap(Asn1.Field(n) + bytes) == Short
  {
    Asn1.FieldRoundTrip(n, bytes);
  }

  class Resource {
    var sessions: seq<Record>

    constructor ()
      ensures sessions == []
    {
      sessions := [];
    }

    method Reassemble(number: nat, k: Kind, last: bool, data: seq<byte>) returns (status: int, out: seq<byte>)
      modifies this
      ensures (sessions, status, out) == Defragment(old(sessions), number, k, last, data)
    {
      out := [];
      var i := 0;
      assert sessions[0..] == sessions;
      while i < |sessions| && sessions[i].number != number
        invariant 0 <= i <= |sessions| && sessions == old(sessions)
        invariant Find(sessions, number) == i + Find(sessions[i..], number)
      {
        assert sessions[i..][1..] == sessions[i + 1..];
        i := i + 1;
      }
      if !last {
        if i == |sessions| {
          sessions := [Empty(number)] + sessions;
          i := 0;
        }
        var chain := Chain(sessions[i], k) + data;
        sessions := sessions[i := WithChain(sessions[i], k, chain)];
        return 0, [];
      }
      if i < |sessions| {
        out := Chain(sessions[i], k) + data;
        sessions := sessions[i := WithChain(sessions[i], k, [])];
        return 2, out;
      }
      return 1, data;
    }

    // en50221_app_mmi_parse_list_menu
    method ParseListMenu(number: nat, k: Kind, last: bool, data: seq<byte>) returns (r: Outcome)
      modifies this
      ensures (sessions, r) == OnListMenu(old(sessions), number, k, last, data)
    {
      var length := Asn1.Decode(data);
      if length.Bad? { return Refused; }
      if length.value > |data| - length.used { return Refused; }
      var status, whole := Reassemble(number, k, last, data[length.used..length.used + length.value]);
      if status <= 0 { return Waiting; }
      var menu := ReadMenu(whole);
      r := if menu.BadMenu? then Refused else Callback(menu);
    }
  }

  // en50221_app_mmi_defragment_text
  method ReadText(s: seq<byte>) returns (r: TextResult)
    ensures r == ParseText(s)
  {
    var rest, any, text := s, false, [];
    var consumed: nat := 0;
    while true
      invariant TextFrom(rest, any, text, consumed) == ParseText(s)
      decreases |rest|
    {
      var p := ReadPiece(rest);
      if p.BadPiece? { return BadText; }
      if p.LongPiece? { return PastEnd; }
      if p.last { return Text(if any then 2 else 1, text + p.body, consumed + p.size); }
      text, any := text + p.body, true;
      rest, consumed := rest[p.size..], consumed + p.size;
    }
  }

  // The checks on the object at the front.
  method ReadPiece(rest: seq<byte>) returns (p: Piece)
    ensures p == FirstPiece(rest)
  {
    if |rest| < 3 { return BadPiece; }
    var tag := Tag(rest);
    var length := Asn1.Decode(rest[3..]);
    if length.Bad? { return BadPiece; }
    var size := 3 + length.used + length.value;
    if tag == TEXT_LAST {
      if size > |rest| { return LongPiece; }
      return Piece(true, rest[3 + length.used..size], size);
    } else if tag == TEXT_MORE {
      if size > |rest| { return LongPiece; }
      return Piece(false, rest[3 + length.used..size], size);
    } else {
      return BadPiece;
    }
  }

  // The loop that extracts the texts.
  method ReadTexts(s: seq<byte>, count: nat) returns (r: TextsResult)
    ensures r == ParseTexts(s, count)
  {
    var rest, texts := s, [];
    var i := 0;
    assert Extends(ParseTexts(s, count), texts, ParseTexts(rest, count)) by {
      if ParseTexts(s, count).Texts? { assert [] + ParseTexts(s, count).texts == ParseTexts(s, count).texts; }
    }
    while i < count
      invariant 0 <= i <= count && |texts| == i
      invariant Extends(ParseTexts(s, count), texts, ParseTexts(rest, count - i))
    {
      var t := ReadText(rest);
      if t.BadText? { return BadTexts; }
      if t.PastEnd? { return TextsPastEnd; }
      ExtendOne(ParseTexts(s, count), texts, rest, count - i, t);
      texts, rest := texts + [t.text], rest[t.consumed..];
      i := i + 1;
    }
    assert texts + [] == texts;
    r := Texts(texts, rest);
  }

  // What is made of the texts.
  method ReadMenu(whole: seq<byte>) returns (r: MenuResult)
    ensures r == ParseMenu(whole)
  {
    if |whole| < 1 { return BadMenu; }
    var t := ReadTexts(whole[1..], TextCount(whole[0]));
    if t.BadTexts? { return BadMenu; }
    if t.TextsPastEnd? || |t.texts| < 3 { return Open; }
    r := Shown(t.texts[0], t.texts[1], t.texts[2], t.texts[3..], if whole[0] == 0xff then t.rest else [], t.rest);
  }

  // The texts already read, followed by what the rest gives.
  predicate Extends(all: TextsResult, texts: seq<seq<byte>>, more: TextsResult) {
    match more
    case Texts(tail, rest) => all == Texts(texts + tail, rest)
    case bad => all == bad
  }

  lemma ExtendOne(all: TextsResult, texts: seq<seq<byte>>, rest: seq<byte>, n: nat, t: TextResult)
    requires n > 0 && Extends(all, texts, ParseTexts(rest, n)) && t == ParseText(rest) && t.Text?
    ensures Extends(all, texts + [t.text], ParseTexts(rest[t.consumed..], n - 1))
  {
    var more := ParseTexts(rest[t.consumed..], n - 1);
    if more.Texts? { assert texts + ([t.text] + more.texts) == (texts + [t.text]) + more.texts; }
  }
}
