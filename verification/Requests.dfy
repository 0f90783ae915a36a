/** The requests a daemon sends to the resolve server, as bytes and as the server reads them. */
module Requests {
  import opened Bytes
  import opened Framing
  import opened Protocol
  import Registry

  /** A payload read through a ResolveRequest pointer; after is what follows the frame in memory, since an init request
      ends before the last field. */
  function ReadRequest(d: seq<byte>, after: seq<byte>): Registry.Request
    requires |d| + |after| >= 16
  {
    var all := d + after;
    Registry.Request(Signed16(all[0..2]), Word32(all[4..8]), Signed(Word32(all[8..12])), Word32(all[12..16]))
  }

  /** The setters of ReqeustNodeNetAddress and of OnConnectedToResolveServer. */
  function LookupFields(self: u32, peer: u32): seq<Field> {
    [SelfAddress(self), RequestKind(Registry.KLOOKUP_NODE), PeerAddress(peer)]
  }

  function InitFields(port: int): seq<Field> { [RequestKind(Registry.KINITIALIZE_SELF), Port(port)] }

  lemma RequestsDistinct(self: u32, peer: u32, port: int)
    ensures Distinct(LookupFields(self, peer)) && Distinct(InitFields(port))
  {
  }

  function FrameOf(fs: seq<Field>): seq<byte>
    requires Distinct(fs)
  {
    BuiltLength(KRESOLVE_REQUEST, fs);
    Wire(Build(KRESOLVE_REQUEST, fs))
  }

  lemma RequestLength(fs: seq<Field>, n: nat)
    requires Distinct(fs) && fs != []
    requires forall k :: 0 <= k < |fs| ==> EndOf(fs[k]) <= n
    requires exists k :: 0 <= k < |fs| && EndOf(fs[k]) == n
    ensures |FrameOf(fs)| == PROTOCOL_HEADER_SIZE + n
  {
    hide Image, Build, EndOf;
    BuildCanonical(KRESOLVE_REQUEST, fs);
    var k :| 0 <= k < |fs| && EndOf(fs[k]) == n;
    assert n <= Build(KRESOLVE_REQUEST, fs).len;
  }

  /** Both frames are accepted by the codec, and this is what their payload holds. */
  lemma LookupPayload(self: u32, peer: u32)
    ensures Distinct(LookupFields(self, peer)) && IsFrame(ProtocolFormat, FrameOf(LookupFields(self, peer)))
    ensures var d := Payload(FrameOf(LookupFields(self, peer)));
            |d| == 16 && d[0..2] == LE16(2) && d[4..8] == LE32(self) && d[8..12] == [0, 0, 0, 0]
                && d[12..16] == LE32(peer)
  {
    hide LE16, LE32, Build, Wire, Word32, Word16;
    var fs := LookupFields(self, peer);
    RequestsDistinct(self, peer, 0);
    assert EndOf(fs[0]) == 8 && EndOf(fs[1]) == 2 && EndOf(fs[2]) == 16;
    RequestLength(fs, 16);
    BuiltFrameReadsBack(KRESOLVE_REQUEST, fs);
    var d := Payload(FrameOf(fs));
    assert d[Offset(fs[0])..Offset(fs[0]) + |Image(fs[0])|] == LE32(self);
    assert d[Offset(fs[1])..Offset(fs[1]) + |Image(fs[1])|] == LE16(2);
    assert d[Offset(fs[2])..Offset(fs[2]) + |Image(fs[2])|] == LE32(peer);
    forall i | 8 <= i < 12 ensures d[i] == 0 {
      assert Uncovered(fs, i);
      ZeroInside(fs, i);
    }
  }

  lemma InitPayload(port: int)
    ensures Distinct(InitFields(port)) && IsFrame(ProtocolFormat, FrameOf(InitFields(port)))
    ensures var d := Payload(FrameOf(InitFields(port)));
            |d| == 12 && d[0..2] == LE16(1) && d[4..8] == [0, 0, 0, 0] && d[8..12] == LE32(Unsigned(port))
  {
    hide LE16, LE32, Build, Wire, Word32, Word16;
    var fs := InitFields(port);
    RequestsDistinct(0, 0, port);
    assert EndOf(fs[0]) == 2 && EndOf(fs[1]) == 12;
    RequestLength(fs, 12);
    BuiltFrameReadsBack(KRESOLVE_REQUEST, fs);
    var d := Payload(FrameOf(fs));
    assert d[Offset(fs[0])..Offset(fs[0]) + |Image(fs[0])|] == LE16(1);
    assert d[Offset(fs[1])..Offset(fs[1]) + |Image(fs[1])|] == LE32(Unsigned(port));
    forall i | 4 <= i < 8 ensures d[i] == 0 {
      assert Uncovered(fs, i);
      ZeroInside(fs, i);
    }
  }

  lemma ZeroInside(fs: seq<Field>, i: nat)
    requires Distinct(fs) && Uncovered(fs, i) && PROTOCOL_HEADER_SIZE + i < |FrameOf(fs)|
    ensures Payload(FrameOf(fs))[i] == 0
  {
    hide Build, Uncovered;
    BuiltLength(KRESOLVE_REQUEST, fs);
    UncoveredIsZero(KRESOLVE_REQUEST, fs, i);
    var p := Build(KRESOLVE_REQUEST, fs);
    assert Payload(FrameOf(fs)) == p.data[..p.len];
  }

  /** The server reads a lookup as it was sent. */
  lemma LookupArrives(self: u32, peer: u32, after: seq<byte>)
    ensures Distinct(LookupFields(self, peer)) && IsFrame(ProtocolFormat, FrameOf(LookupFields(self, peer)))
    ensures |Payload(FrameOf(LookupFields(self, peer)))| == 16
    ensures ReadRequest(Payload(FrameOf(LookupFields(self, peer))), after)
            == Registry.Request(Registry.KLOOKUP_NODE, self, 0, peer)
  {
    hide LE32, Word32, FrameOf;
    LookupPayload(self, peer);
    var d := Payload(FrameOf(LookupFields(self, peer)));
    var all := d + after;
    assert all[0..2] == d[0..2] && all[4..8] == d[4..8] && all[8..12] == d[8..12] && all[12..16] == d[12..16];
    Word16OfLE16(2);
    Word32OfLE32(self);
    Word32OfLE32(peer);
    ZeroWord();
  }

  lemma ZeroWord()
    ensures Word32([0, 0, 0, 0]) == 0
  {
  }

  /** And an init request with its port; the peer address, which lies behind its end, is not read for one. */
  lemma InitArrives(port: int, after: seq<byte>)
    requires -0x8000_0000 <= port < 0x8000_0000 && |after| >= 4
    ensures Distinct(InitFields(port)) && IsFrame(ProtocolFormat, FrameOf(InitFields(port)))
    ensures |Payload(FrameOf(InitFields(port)))| == 12
    ensures var r := ReadRequest(Payload(FrameOf(InitFields(port))), after);
            r == Registry.Request(Registry.KINITIALIZE_SELF, 0, port, r.peer)
  {
    hide LE32, Word32, FrameOf;
    InitPayload(port);
    var d := Payload(FrameOf(InitFields(port)));
    var all := d + after;
    assert all[0..2] == d[0..2] && all[4..8] == d[4..8] && all[8..12] == d[8..12];
    Word16OfLE16(1);
    Word32OfLE32(Unsigned(port));
    ZeroWord();
  }

  /** The server handles an init request the same whatever lies behind it. */
  lemma PeerUnread(s: Registry.Server, c: Registry.Conn, port: int, p: u32, q: u32)
    requires c in s.ips
    ensures Registry.Receive(s, c, Registry.Request(Registry.KINITIALIZE_SELF, 0, port, p))
            == Registry.Receive(s, c, Registry.Request(Registry.KINITIALIZE_SELF, 0, port, q))
  {
  }
}
