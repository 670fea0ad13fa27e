// The texts of an MMI menu or list (en50221_app_mmi.c): chains of TEXT objects, and
// the menu made of them. The chain parser does not compare a text's length with
// the bytes that are there; what it then reads is left open here (PastEnd).
module MmiMenu {
  import opened Bytes
  import Asn1
  import opened MmiFragments

  const TEXT_LAST: nat := 0x9f8803
  const TEXT_MORE: nat := 0x9f8804

  datatype TextResult = Text(status: nat, text: seq<byte>, consumed: nat) | BadText | PastEnd

  function Tag(s: seq<byte>): nat
    requires |s| >= 3
  {
    var a: nat, b: nat, c: nat := s[0], s[1], s[2];
    a * 65536 + b * 256 + c
  }

  // One TEXT object at the start of s.
  datatype Piece = Piece(last: bool, body: seq<byte>, size: nat) | BadPiece | LongPiece

  function FirstPiece(s: seq<byte>): (p: Piece)
    ensures p.Piece? ==> 3 < p.size <= |s|
  {
    if |s| < 3 then BadPiece
    else
      match Asn1.Decode(s[3..])
      case Bad => BadPiece
      case Length(used, n) =>
        if Tag(s) != TEXT_LAST && Tag(s) != TEXT_MORE then BadPiece
        else if 3 + used + n > |s| then LongPiece
        else Piece(Tag(s) == TEXT_LAST, s[3 + used..3 + used + n], 3 + used + n)
  }

  // en50221_app_mmi_defragment_text, where `text` is what MORE objects brought and
  // `consumed` the bytes so far.
  function TextFrom(s: seq<byte>, any: bool, text: seq<byte>, consumed: nat): (r: TextResult)
    ensures r.Text? ==> consumed < r.consumed <= consumed + |s|
    decreases |s|
  {
    match FirstPiece(s)
    case BadPiece => BadText
    case LongPiece => PastEnd
    case Piece(last, body, size) =>
      if last then Text(if any then 2 else 1, text + body, consumed + size)
      else TextFrom(s[size..], true, text + body, consumed + size)
  }

  function ParseText(s: seq<byte>): (r: TextResult)
    ensures r.Text? ==> 0 < r.consumed <= |s|
  {
    TextFrom(s, false, [], 0)
  }

  // ---- texts as they are sent ----

  function TagBytes(last: bool): seq<byte> { [0x9f, 0x88, if last then 3 else 4] }

  function PieceBytes(last: bool, body: seq<byte>): seq<byte>
    requires |body| < 0x1_0000
  {
    TagBytes(last) + Asn1.Field(|body|) + body
  }

  predicate Sendable(parts: seq<seq<byte>>) { parts != [] && forall p <- parts :: |p| < 0x1_0000 }

  // TEXT_MORE for all but the last part.
  function TextBytes(parts: seq<seq<byte>>): seq<byte>
    requires Sendable(parts)
  {
    if |parts| == 1 then PieceBytes(true, parts[0]) else PieceBytes(false, parts[0]) + TextBytes(parts[1..])
  }

  lemma PieceComesBack(last: bool, body: seq<byte>, rest: seq<byte>)
    requires |body| < 0x1_0000
    ensures FirstPiece(PieceBytes(last, body) + rest) == Piece(last, body, |PieceBytes(last, body)|)
    ensures (PieceBytes(last, body) + rest)[|PieceBytes(last, body)|..] == rest
  {
    var s := PieceBytes(last, body) + rest;
    var field := Asn1.Field(|body|);
    PieceParts(s, TagBytes(last), field, body, rest);
    Asn1.FieldRoundTrip(|body|, body + rest);
  }

  lemma PieceParts(s: seq<byte>, tag: seq<byte>, field: seq<byte>, body: seq<byte>, rest: seq<byte>)
    requires |tag| == 3 && s == tag + field + body + rest
    ensures |s| == 3 + |field| + |body| + |rest| && s[0] == tag[0] && s[1] == tag[1] && s[2] == tag[2]
    ensures s[3..] == field + (body + rest)
    ensures s[3 + |field|..3 + |field| + |body|] == body && s[3 + |field| + |body|..] == rest
  {
  }

  lemma MoreStep(s: seq<byte>, any: bool, text: seq<byte>, consumed: nat, body: seq<byte>, size: nat, rest: seq<byte>)
    requires FirstPiece(s) == Piece(false, body, size) && s[size..] == rest
    ensures TextFrom(s, any, text, consumed) == TextFrom(rest, true, text + body, consumed + size)
  {
  }

  lemma LastStep(s: seq<byte>, any: bool, text: seq<byte>, consumed: nat, body: seq<byte>, size: nat)
    requires FirstPiece(s) == Piece(true, body, size)
    ensures TextFrom(s, any, text, consumed) == Text(if any then 2 else 1, text + body, consumed + size)
  {
  }

  lemma {:induction false} TextComesBackFrom(parts: seq<seq<byte>>, rest: seq<byte>, any: bool, text: seq<byte>,
                                             consumed: nat)
    requires Sendable(parts)
    ensures TextFrom(TextBytes(parts) + rest, any, text, consumed) ==
      Text(if any || |parts| > 1 then 2 else 1, text + Flatten(parts), consumed + |TextBytes(parts)|)
    decreases |parts|
  {
    var first := PieceBytes(|parts| == 1, parts[0]);
    if |parts| == 1 {
      PieceComesBack(true, parts[0], rest);
      LastStep(first + rest, any, text, consumed, parts[0], |first|);
      assert Flatten(parts) == parts[0] + [] == parts[0];
    } else {
      var more := TextBytes(parts[1..]);
      Associates(first, more, rest);
      PieceComesBack(false, parts[0], more + rest);
      MoreStep(first + (more + rest), any, text, consumed, parts[0], |first|, more + rest);
      TextComesBackFrom(parts[1..], rest, true, text + parts[0], consumed + |first|);
      Associates(text, parts[0], Flatten(parts[1..]));
    }
  }

  // A chain of parts gives their concatenation, and exactly its bytes are consumed.
  lemma TextComesBack(parts: seq<seq<byte>>, rest: seq<byte>)
    requires Sendable(parts)
    ensures ParseText(TextBytes(parts) + rest) == Text(if |parts| > 1 then 2 else 1, Flatten(parts), |TextBytes(parts)|)
  {
    TextComesBackFrom(parts, rest, false, [], 0);
    assert [] + Flatten(parts) == Flatten(parts);
  }

  // ---- the menu ----

  datatype TextsResult = Texts(texts: seq<seq<byte>>, rest: seq<byte>) | BadTexts | TextsPastEnd

  function ParseTexts(s: seq<byte>, count: nat): (r: TextsResult)
    ensures r.Texts? ==> |r.texts| == count
    decreases count
  {
    if count == 0 then Texts([], s)
    else
      match ParseText(s)
      case BadText => BadTexts
      case PastEnd => TextsPastEnd
      case Text(_, text, consumed) =>
        match ParseTexts(s[consumed..], count - 1)
        case Texts(more, rest) => Texts([text] + more, rest)
        case bad => bad
  }

  // What the application's callback gets; `unread` is what the texts did not use.
  // Open stands for the outcomes the code does not define: a text past the end, or
  // fewer texts than the three that every menu hands over.
  datatype MenuResult =
    | Shown(title: seq<byte>, subTitle: seq<byte>, bottom: seq<byte>, items: seq<seq<byte>>, raw: seq<byte>, unread: seq<byte>)
    | BadMenu
    | Open

  // The count is kept in one byte.
  function TextCount(choices: byte): nat {
    var c: nat := choices;
    if c == 0xff then 3 else (c + 3) % 256
  }

  function ParseMenu(s: seq<byte>): MenuResult {
    if |s| < 1 then BadMenu
    else
      match ParseTexts(s[1..], TextCount(s[0]))
      case BadTexts => BadMenu
      case TextsPastEnd => Open
      case Texts(texts, rest) =>
        if |texts| < 3 then Open
        else Shown(texts[0], texts[1], texts[2], texts[3..], if s[0] == 0xff then rest else [], rest)
  }

  predicate AllSendable(chains: seq<seq<seq<byte>>>) { forall c <- chains :: Sendable(c) }

  function ChainsBytes(chains: seq<seq<seq<byte>>>): seq<byte>
    requires AllSendable(chains)
  {
    if chains == [] then [] else TextBytes(chains[0]) + ChainsBytes(chains[1..])
  }

  function Joined(chains: seq<seq<seq<byte>>>): (r: seq<seq<byte>>)
    ensures |r| == |chains|
  {
    seq(|chains|, i requires 0 <= i < |chains| => Flatten(chains[i]))
  }

  lemma OneText(s: seq<byte>, count: nat, status: nat, text: seq<byte>, size: nat, rest: seq<byte>)
    requires count > 0 && ParseText(s) == Text(status, text, size) && s[size..] == rest
    ensures ParseTexts(s, count) ==
      match ParseTexts(rest, count - 1)
      case Texts(more, unread) => Texts([text] + more, unread)
      case bad => bad
  {
  }

  // The first text of a run of chains, and what follows it.
  lemma FirstText(chains: seq<seq<seq<byte>>>, rest: seq<byte>, s: seq<byte>, after: seq<byte>, count: nat)
    requires AllSendable(chains) && chains != [] && count > 0
    requires s == ChainsBytes(chains) + rest && after == ChainsBytes(chains[1..]) + rest
    ensures ParseTexts(s, count) ==
      match ParseTexts(after, count - 1)
      case Texts(more, unread) => Texts([Flatten(chains[0])] + more, unread)
      case bad => bad
  {
    var first := TextBytes(chains[0]);
    Associates(first, ChainsBytes(chains[1..]), rest);
    TextComesBack(chains[0], after);
    assert (first + after)[|first|..] == after;
    OneText(s, count, if |chains[0]| > 1 then 2 else 1, Flatten(chains[0]), |first|, after);
  }

  lemma JoinedFirst(chains: seq<seq<seq<byte>>>)
    requires chains != []
    ensures [Flatten(chains[0])] + Joined(chains[1..]) == Joined(chains)
  {
  }

  lemma {:induction false} TextsComeBack(chains: seq<seq<seq<byte>>>, rest: seq<byte>, s: seq<byte>, n: nat)
    requires AllSendable(chains) && s == ChainsBytes(chains) + rest && n == |chains|
    ensures ParseTexts(s, n) == Texts(Joined(chains), rest)
    decreases n
  {
    if n == 0 {
      assert s == rest && Joined(chains) == [];
    } else {
      var after := ChainsBytes(chains[1..]) + rest;
      FirstText(chains, rest, s, after, n);
      TextsComeBack(chains[1..], rest, after, n - 1);
      JoinedFirst(chains);
    }
  }

  lemma {:induction false} FewTexts(chains: seq<seq<seq<byte>>>, rest: seq<byte>, s: seq<byte>, n: nat)
    requires AllSendable(chains) && s == ChainsBytes(chains) + rest && n <= |chains|
    ensures ParseTexts(s, n).Texts?
    decreases n
  {
    if n > 0 {
      var after := ChainsBytes(chains[1..]) + rest;
      FirstText(chains, rest, s, after, n);
      FewTexts(chains[1..], rest, after, n - 1);
    }
  }

  lemma MenuOf(s: seq<byte>, choices: byte, body: seq<byte>, count: nat, texts: seq<seq<byte>>, rest: seq<byte>)
    requires s == [choices] + body && count == TextCount(choices) && ParseTexts(body, count) == Texts(texts, rest)
    ensures ParseMenu(s) ==
      if count < 3 then Open
      else Shown(texts[0], texts[1], texts[2], texts[3..], if choices == 0xff then rest else [], rest)
  {
    assert s[1..] == body;
  }

  lemma SmallCount(choices: byte, n: nat)
    requires choices <= 252 && n - 3 == choices
    ensures TextCount(choices) == n
  {
  }

  lemma MenuShown(s: seq<byte>, choices: byte, body: seq<byte>, n: nat, texts: seq<seq<byte>>, rest: seq<byte>)
    requires s == [choices] + body && choices <= 252 && n - 3 == choices && ParseTexts(body, n) == Texts(texts, rest)
    ensures ParseMenu(s) == Shown(texts[0], texts[1], texts[2], texts[3..], [], rest)
  {
    SmallCount(choices, n);
    MenuOf(s, choices, body, n, texts, rest);
  }

  // A menu of up to 252 choices comes back: exactly its texts, exactly its bytes.
  lemma MenuComesBack(choices: byte, chains: seq<seq<seq<byte>>>, rest: seq<byte>)
    requires AllSendable(chains) && choices <= 252 && |chains| - 3 == choices
    ensures ParseMenu([choices] + (ChainsBytes(chains) + rest)) ==
      Shown(Flatten(chains[0]), Flatten(chains[1]), Flatten(chains[2]), Joined(chains)[3..], [], rest)
  {
    var body := ChainsBytes(chains) + rest;
    TextsComeBack(chains, rest, body, |chains|);
    MenuShown([choices] + body, choices, body, |chains|, Joined(chains), rest);
  }

  // 0xff announces raw items after three texts.
  lemma RawMenuComesBack(chains: seq<seq<seq<byte>>>, raw: seq<byte>)
    requires AllSendable(chains) && |chains| == 3
    ensures ParseMenu([0xff] + (ChainsBytes(chains) + raw)) ==
      Shown(Flatten(chains[0]), Flatten(chains[1]), Flatten(chains[2]), [], raw, raw)
  {
    var body := ChainsBytes(chains) + raw;
    TextsComeBack(chains, raw, body, |chains|);
    MenuOf([0xff] + body, 0xff, body, |chains|, Joined(chains), raw);
  }

  // With 253 or 254 choices the count wraps to 0 or 1, and the menu is never shown:
  // so a well-formed menu comes back exactly when it has at most 252 choices.
  lemma MenuComesBackIff(choices: byte, chains: seq<seq<seq<byte>>>, rest: seq<byte>)
    requires AllSendable(chains) && choices < 255 && |chains| - 3 == choices
    ensures ParseMenu([choices] + (ChainsBytes(chains) + rest)) ==
      Shown(Flatten(chains[0]), Flatten(chains[1]), Flatten(chains[2]), Joined(chains)[3..], [], rest)
      <==> choices <= 252
    ensures choices > 252 ==> ParseMenu([choices] + (ChainsBytes(chains) + rest)) == Open
  {
    if choices <= 252 {
      MenuComesBack(choices, chains, rest);
    } else {
      MenuNotShown(choices, chains, rest, ChainsBytes(chains) + rest);
    }
  }

  lemma MenuNotShown(choices: byte, chains: seq<seq<seq<byte>>>, rest: seq<byte>, body: seq<byte>)
    requires AllSendable(chains) && 252 < choices < 255 && |chains| - 3 == choices && body == ChainsBytes(chains) + rest
    ensures ParseMenu([choices] + body) == Open
  {
    var n := WrappedCount(choices);
    FewTexts(chains, rest, body, n);
    Unshown([choices] + body, choices, body, n, ParseTexts(body, n));
  }

  function WrappedCount(choices: byte): (n: nat)
    requires 252 < choices < 255
    ensures n == TextCount(choices) && n < 3
  {
    choices - 253
  }

  lemma Unshown(s: seq<byte>, choices: byte, body: seq<byte>, n: nat, t: TextsResult)
    requires s == [choices] + body && n == TextCount(choices) && n < 3 && t == ParseTexts(body, n) && t.Texts?
    ensures ParseMenu(s) == Open
  {
    MenuOf(s, choices, body, n, t.texts, t.rest);
  }
}
