// A CA PMT object on its way to the module: formatted, wrapped as an APDU
// (en50221_app_ca_pmt), sent on a session, queued on a transport connection, and
// read back at the other end of the same layers.
module CamDelivery {
  import opened Bytes
  import opened CaPmt
  import opened CamSync
  import Asn1
  import S = SessionMachine
  import T = Transport
  import LayerRoundTrip
  import Loopback

  const TAG_CA_PMT: seq<byte> := [0x9f, 0x80, 0x32]

  function Apdu(body: seq<byte>): seq<byte>
    requires |body| < 0x1_0000
  {
    TAG_CA_PMT + Asn1.Field(|body|) + body
  }

  // What a receiver takes out of an APDU: the bytes behind its length field.
  function Body(apdu: seq<byte>): Option<seq<byte>> {
    if |apdu| < 3 then None
    else
      match Asn1.Decode(apdu[3..])
      case Bad => None
      case Length(used, n) => if 3 + used + n > |apdu| then None else Some(apdu[3 + used..3 + used + n])
  }

  lemma ApduIsWellFormed(body: seq<byte>)
    requires |body| < 0x1_0000
    ensures LayerRoundTrip.WellFormedApdu(Apdu(body)) && Body(Apdu(body)) == Some(body)
  {
    var a, field := Apdu(body), Asn1.Field(|body|);
    assert a[3..] == field + body;
    Asn1.FieldRoundTrip(|body|, body);
    assert a[3 + |field|..3 + |field| + |body|] == body;
  }

  lemma ObjectSize(e: Entry)
    requires e.Sent? && Sound(e.pmt) && Formats(e.pmt)
    ensures |Object(e)| <= CAPMT_SIZE
  {
  }

  // Every CA PMT object that is formatted for a ready session goes down through both
  // layers and comes back up as one APDU of that session, whose body a receiver reads
  // as the program map it was made from.
  lemma ObjectIsDelivered(k: Loopback.Stack, n: u16, e: Entry, w: nat -> T.Writes, env: S.Env)
    requires e.Sent? && Sound(e.pmt) && Formats(e.pmt) && Loopback.Ready(k, n)
    ensures |Object(e)| < 0x1_0000
    ensures var b := k.layer.sessions[n].binding;
      var apdu := Apdu(Object(e));
      Loopback.Receive(Loopback.Send(k, n, apdu), b.slot, b.conn, w, env).layer ==
      k.layer.(log := k.layer.log + [S.SpduSent(b.slot, b.conn, S.DataSpdu(n, apdu), true)]
                      + S.ApduEvents(n, b, b.slot, b.conn, [apdu]))
    ensures var (ds, ss) := Prepared(e.pmt, false);
      Body(Apdu(Object(e))) == Some(Object(e)) && Parse(Object(e)) == Some(Meant(e.pmt, ds, ss, e.list, e.cmd))
  {
    ObjectSize(e);
    var apdu := Apdu(Object(e));
    ApduIsWellFormed(Object(e));
    FlattenOne([], apdu);
    assert [] + [apdu] == [apdu] && [] + apdu == apdu;
    Loopback.SentApdusComeBack(k, n, [apdu], w, env);
    FormattedObjectsDecode(e);
  }
}
