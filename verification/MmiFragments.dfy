// Reassembly of MMI objects from their MORE and LAST fragments (en50221_app_mmi.c),
// per session and per kind of object.
module MmiFragments {
  import opened Bytes

  datatype Kind = Menu | List | Segment | Download

  // struct en50221_app_mmi_session
  datatype Record = Record(number: nat, menu: seq<byte>, list: seq<byte>, segment: seq<byte>, download: seq<byte>)

  function Chain(r: Record, k: Kind): seq<byte> {
    match k
    case Menu => r.menu
    case List => r.list
    case Segment => r.segment
    case Download => r.download
  }

  function WithChain(r: Record, k: Kind, b: seq<byte>): Record {
    match k
    case Menu => r.(menu := b)
    case List => r.(list := b)
    case Segment => r.(segment := b)
    case Download => r.(download := b)
  }

  function Find(rs: seq<Record>, number: nat): (i: nat)
    ensures i <= |rs| && (i < |rs| ==> rs[i].number == number)
    ensures forall j :: 0 <= j < i ==> rs[j].number != number
  {
    if rs == [] || rs[0].number == number then 0 else 1 + Find(rs[1..], number)
  }

  // The map from session and kind to the bytes held back for it.
  function Held(rs: seq<Record>, number: nat, k: Kind): seq<byte> {
    var i := Find(rs, number);
    if i < |rs| then Chain(rs[i], k) else []
  }

  function Empty(number: nat): Record { Record(number, [], [], [], []) }

  // en50221_app_mmi_defragment: the records, the status, and for a positive status
  // the reassembled object.
  function Defragment(rs: seq<Record>, number: nat, k: Kind, last: bool, data: seq<byte>): (seq<Record>, int,
                      seq<byte>) {
    var i := Find(rs, number);
    if !last then
      var qs := if i < |rs| then rs else [Empty(number)] + rs;
      var j := if i < |rs| then i else 0;
      (qs[j := WithChain(qs[j], k, Chain(qs[j], k) + data)], 0, [])
    else if i < |rs| then (rs[i := WithChain(rs[i], k, [])], 2, Chain(rs[i], k) + data)
    else (rs, 1, data)
  }

  lemma FindUpdated(rs: seq<Record>, i: nat, r: Record, number: nat)
    requires i < |rs| && r.number == rs[i].number
    ensures Find(rs[i := r], number) == Find(rs, number)
  {
    FindUnique(rs[i := r], number, Find(rs, number));
  }

  lemma {:induction false} FindUnique(rs: seq<Record>, number: nat, i: nat)
    requires i <= |rs| && (i < |rs| ==> rs[i].number == number) && forall j :: 0 <= j < i ==> rs[j].number != number
    ensures Find(rs, number) == i
  {
    if i > 0 { FindUnique(rs[1..], number, i - 1); }
  }

  lemma ChainUpdated(r: Record, k: Kind, b: seq<byte>, l: Kind)
    ensures Chain(WithChain(r, k, b), l) == if l == k then b else Chain(r, l)
    ensures WithChain(r, k, b).number == r.number
  {
  }

  lemma HeldUpdated(rs: seq<Record>, i: nat, k: Kind, b: seq<byte>, n: nat, l: Kind)
    requires i < |rs| && i == Find(rs, rs[i].number)
    ensures Held(rs[i := WithChain(rs[i], k, b)], n, l) == if n == rs[i].number && l == k then b else Held(rs, n, l)
  {
    ChainUpdated(rs[i], k, b, l);
    FindUpdated(rs, i, WithChain(rs[i], k, b), n);
  }

  lemma FindPushed(rs: seq<Record>, r: Record, n: nat)
    ensures Find([r] + rs, n) == if r.number == n then 0 else 1 + Find(rs, n)
  {
    assert ([r] + rs)[1..] == rs;
  }

  lemma HeldPushed(rs: seq<Record>, r: Record, n: nat, l: Kind)
    ensures Held([r] + rs, n, l) == if r.number == n then Chain(r, l) else Held(rs, n, l)
  {
    var qs, i := [r] + rs, Find(rs, n);
    FindPushed(rs, r, n);
    if i < |rs| { assert qs[1 + i] == rs[i]; }
  }

  lemma HeldByNew(rs: seq<Record>, number: nat, n: nat, l: Kind)
    requires Find(rs, number) == |rs|
    ensures Held([Empty(number)] + rs, n, l) == Held(rs, n, l) && Find([Empty(number)] + rs, number) == 0
  {
    HeldPushed(rs, Empty(number), n, l);
    FindPushed(rs, Empty(number), number);
  }

  // Defragmentation refines the map: only the fragment's own entry changes.
  lemma DefragmentRefinesMap(rs: seq<Record>, number: nat, k: Kind, last: bool, data: seq<byte>, n: nat, l: Kind)
    ensures var (qs, status, out) := Defragment(rs, number, k, last, data);
      && Held(qs, n, l) == (if (n, l) != (number, k) then Held(rs, n, l) else if last then [] else Held(rs, n, l) + data)
      && (last ==> status > 0 && out == Held(rs, number, k) + data)
      && (!last ==> status == 0)
  {
    var i := Find(rs, number);
    if i < |rs| {
      HeldUpdated(rs, i, k, if last then [] else Chain(rs[i], k) + data, n, l);
    } else if !last {
      HeldByNew(rs, number, n, l);
      HeldUpdated([Empty(number)] + rs, 0, k, [] + data, n, l);
    } else {
      assert [] + data == data;
    }
  }

  // ---- runs ----

  datatype Fragment = Fragment(number: nat, kind: Kind, last: bool, data: seq<byte>)

  // The fragments of one session and kind since its last completed object.
  function Since(fs: seq<Fragment>, number: nat, k: Kind): seq<seq<byte>> {
    if fs == [] then []
    else
      var f := fs[|fs| - 1];
      if f.number != number || f.kind != k then Since(fs[..|fs| - 1], number, k)
      else if f.last then []
      else Since(fs[..|fs| - 1], number, k) + [f.data]
  }

  function Run(fs: seq<Fragment>): seq<Record> {
    if fs == [] then []
    else
      var f := fs[|fs| - 1];
      Defragment(Run(fs[..|fs| - 1]), f.number, f.kind, f.last, f.data).0
  }

  lemma {:induction false} EveryRunHolds(fs: seq<Fragment>, number: nat, k: Kind)
    ensures Held(Run(fs), number, k) == Flatten(Since(fs, number, k))
  {
    if fs != [] {
      var init, f := fs[..|fs| - 1], fs[|fs| - 1];
      EveryRunHolds(init, number, k);
      DefragmentRefinesMap(Run(init), f.number, f.kind, f.last, f.data, number, k);
      FlattenOne(Since(init, number, k), f.data);
    }
  }

  // Under any interleaving, a LAST fragment yields exactly its own session's and
  // kind's fragments since the previous one, joined.
  lemma LastYieldsItsFragments(fs: seq<Fragment>, f: Fragment)
    requires f.last
    ensures var (qs, status, out) := Defragment(Run(fs), f.number, f.kind, true, f.data);
      status > 0 && out == Flatten(Since(fs, f.number, f.kind) + [f.data])
  {
    EveryRunHolds(fs, f.number, f.kind);
    DefragmentRefinesMap(Run(fs), f.number, f.kind, true, f.data, f.number, f.kind);
    FlattenOne(Since(fs, f.number, f.kind), f.data);
  }
}
