/** How a daemon learns its own address: configuration, reply builder, codec and Address::Create together. */
module SelfAddress {
  import opened Bytes
  import opened Addressing
  import opened Framing
  import opened Nodes
  import opened Conf
  import opened Daemon
  import opened Protocol
  import Registry

  /** The setters the resolve server uses for a full reply. */
  function FieldsOf(r: Response): seq<Field> {
    [Code(r.code), Kind(r.kind), NodeAddress(r.addr), NodePort(r.net.port), NodeIp(r.net.ip), NodePath(r.path)]
  }

  predicate Sendable(r: Response) {
    && -0x8000 <= r.code < 0x8000 && -0x8000 <= r.kind < 0x8000 && -0x8000_0000 <= r.net.port < 0x8000_0000
    && |r.net.ip| < 16 && |r.path| < 128 && 0 !in r.net.ip && 0 !in r.path
  }

  /** A payload read through a ResolveResponse pointer. The path is read as a C string, which does not stop at the
      message's length: after is what follows the frame in memory. */
  function ReadResponse(d: seq<byte>, after: seq<byte>): Response
    requires |d| >= 28
  {
    Response(Signed16(d[0..2]), Signed16(d[2..4]), Word32(d[4..8]),
             NetAddress(CString(d[12..28]), Signed(Word32(d[8..12]))), CString(d[28..] + after))
  }

  function FrameOf(r: Response): seq<byte>
    requires Sendable(r)
  {
    FieldsDistinct(r);
    BuiltLength(KRESOLVE_RESPONSE, FieldsOf(r));
    Wire(Build(KRESOLVE_RESPONSE, FieldsOf(r)))
  }

  lemma FieldsDistinct(r: Response)
    requires Sendable(r)
    ensures Distinct(FieldsOf(r))
  {
  }

  lemma {:induction false} CStringPads(s: seq<byte>, t: seq<byte>)
    requires 0 !in s && (t == [] || t[0] == 0)
    ensures CString(s + t) == s
  {
    if s != [] {
      assert (s + t)[1..] == s[1..] + t;
      CStringPads(s[1..], t);
    }
  }

  /** A C-string read of a path runs on into what follows. */
  lemma {:induction false} CStringRunsOn(path: seq<byte>, after: seq<byte>)
    requires 0 !in path
    ensures CString(path + after) == path + CString(after)
  {
    if path == [] {
      assert path + after == after;
    } else {
      assert (path + after)[1..] == path[1..] + after;
      CStringRunsOn(path[1..], after);
      assert path == [path[0]] + path[1..];
    }
  }

  /** It gives the path exactly when a NUL follows. */
  lemma CStringReadsPathExactly(path: seq<byte>, after: seq<byte>)
    requires 0 !in path
    ensures CString(path + after) == path <==> after == [] || after[0] == 0
  {
    CStringRunsOn(path, after);
    assert |CString(path + after)| == |path| + |CString(after)|;
  }

  /** The node part of a path reaches up to its last '/'. */
  lemma CreateAt(s: seq<byte>, p: nat)
    requires p < |s| && s[p] == SLASH && forall i :: p < i < |s| ==> s[i] != SLASH
    ensures Create(s).node == HashOf(s[..p + 1])
  {
    hide HashOf;
    LastSlash(s, p);
    if p == |s| - 1 { assert s[..p + 1] == s; }
  }

  /** The node part of a path that was read too far: unchanged unless a '/' was read. */
  lemma CreateRunsOn(path: seq<byte>, junk: seq<byte>)
    ensures Create(path + junk).node ==
            if SLASH !in junk then Create(path).node else HashOf(path + junk[..RFind(junk) + 1])
  {
    hide HashOf;
    if SLASH in junk {
      hide Create;
      var p := |path| + RFind(junk);
      CreateAt(path + junk, p);
      assert (path + junk)[..p + 1] == path + junk[..RFind(junk) + 1];
    } else if SLASH in path {
      hide Create;
      var p := RFind(path);
      CreateAt(path, p);
      CreateAt(path + junk, p);
      assert (path + junk)[..p + 1] == path[..p + 1];
    } else {
      assert SLASH !in path + junk;
    }
  }

  lemma LastSlash(s: seq<byte>, p: nat)
    requires p < |s| && s[p] == SLASH && forall i :: p < i < |s| ==> s[i] != SLASH
    ensures RFind(s) == p
  {
  }

  lemma LenOfFull(r: Response)
    requires Sendable(r)
    ensures Distinct(FieldsOf(r)) && Build(KRESOLVE_RESPONSE, FieldsOf(r)).len == 28 + |r.path|
  {
    hide Image, Build;
    var fs := FieldsOf(r);
    FieldsDistinct(r);
    BuildCanonical(KRESOLVE_RESPONSE, fs);
    var p := Build(KRESOLVE_RESPONSE, fs);
    assert EndOf(fs[0]) == 2 && EndOf(fs[1]) == 4 && EndOf(fs[2]) == 8 && EndOf(fs[3]) == 12 && EndOf(fs[4]) == 28;
    assert EndOf(fs[5]) <= p.len;
    var k :| 0 <= k < |fs| && p.len == EndOf(fs[k]);
  }

  /** Where the fields of a full reply lie in its payload. */
  ghost predicate HoldsFields(d: seq<byte>, r: Response) {
    && |d| == 28 + |r.path| && |r.net.ip| < 16
    && d[0..2] == LE16(r.code) && d[2..4] == LE16(r.kind) && d[4..8] == LE32(r.addr)
    && d[8..12] == LE32(Unsigned(r.net.port)) && d[12..12 + |r.net.ip|] == r.net.ip && d[28..] == r.path
  }

  lemma PayloadHoldsFields(r: Response)
    requires Sendable(r)
    ensures IsFrame(ProtocolFormat, FrameOf(r)) && HoldsFields(Payload(FrameOf(r)), r)
  {
    hide Word32, LE32, LE16, Word16, Build, Wire, CString, StrNCpy;
    var fs := FieldsOf(r);
    LenOfFull(r);
    BuiltFrameReadsBack(KRESOLVE_RESPONSE, fs);
    var d := Payload(FrameOf(r));
    assert d[Offset(fs[0])..Offset(fs[0]) + |Image(fs[0])|] == LE16(r.code);
    assert d[Offset(fs[1])..Offset(fs[1]) + |Image(fs[1])|] == LE16(r.kind);
    assert d[Offset(fs[2])..Offset(fs[2]) + |Image(fs[2])|] == LE32(r.addr);
    assert d[Offset(fs[3])..Offset(fs[3]) + |Image(fs[3])|] == LE32(Unsigned(r.net.port));
    assert d[Offset(fs[4])..Offset(fs[4]) + |Image(fs[4])|] == r.net.ip;
    assert d[Offset(fs[5])..Offset(fs[5]) + |Image(fs[5])|] == r.path;
    assert d[28..] == r.path;
  }

  lemma ReadsFields(d: seq<byte>, r: Response, after: seq<byte>)
    requires Sendable(r) && HoldsFields(d, r) && d[12 + |r.net.ip|] == 0
    ensures ReadResponse(d, after) == r.(path := r.path + CString(after))
  {
    hide Word32, LE32, LE16, Word16, CString;
    Word16OfLE16(r.code); Word16OfLE16(r.kind); Word32OfLE32(r.addr); Word32OfLE32(Unsigned(r.net.port));
    assert d[12..28] == r.net.ip + d[12 + |r.net.ip|..28];
    CStringPads(r.net.ip, d[12 + |r.net.ip|..28]);
    CStringRunsOn(r.path, after);
  }

  /** A full reply survives the builder and the wire, except that its path runs on into what follows the frame. */
  lemma ResponseRoundTrip(r: Response, after: seq<byte>)
    requires Sendable(r)
    ensures IsFrame(ProtocolFormat, FrameOf(r)) && |Payload(FrameOf(r))| == 28 + |r.path|
    ensures ReadResponse(Payload(FrameOf(r)), after) == r.(path := r.path + CString(after))
  {
    hide FrameOf, ReadResponse, IsFrame;
    PayloadSize(r);
    PayloadHoldsFields(r);
    IpPadding(r);
    ReadsFields(Payload(FrameOf(r)), r, after);
  }

  /** The bytes after the ip string are still zero. */
  lemma IpPadding(r: Response)
    requires Sendable(r)
    ensures |Payload(FrameOf(r))| == 28 + |r.path|
    ensures Payload(FrameOf(r))[12 + |r.net.ip|] == 0
  {
    hide Build, Image, CString;
    var i := 12 + |r.net.ip|;
    LenOfFull(r);
    IpTailUncovered(r);
    UncoveredIsZero(KRESOLVE_RESPONSE, FieldsOf(r), i);
    var p := Build(KRESOLVE_RESPONSE, FieldsOf(r));
    assert Payload(FrameOf(r)) == p.data[..p.len];
  }

  lemma IpTailUncovered(r: Response)
    requires Sendable(r)
    ensures Distinct(FieldsOf(r)) && Uncovered(FieldsOf(r), 12 + |r.net.ip|)
  {
    hide LE16, LE32, StrNCpy;
    FieldsDistinct(r);
  }

  /** The hash check passes exactly when no '/' is read behind the path, or the longer prefix hashes alike. */
  ghost predicate ReadsOwnAddress(node: ConfNode, after: seq<byte>) {
    var junk := CString(after);
    SLASH !in junk || HashOf(node.path + junk[..RFind(junk) + 1]) == node.addr
  }

  /** The reply of the init exchange. */
  lemma InitReplies(es: seq<Entry>, s: Registry.Server, conn: Registry.Conn, port: int, node: ConfNode)
    requires Indexes(es, s.conf) && Registry.Coherent(s) && conn in s.ips
    requires FindNet(es, NetAddress(s.ips[conn], port)) == Some(node)
    requires !Registry.InitConflicts(s, conn, Registry.Request(Registry.KINITIALIZE_SELF, 0, port, 0))
    ensures var x := Registry.Receive(s, conn, Registry.Request(Registry.KINITIALIZE_SELF, 0, port, 0));
            && x.ok && x.reply == Some(Response(KOK, KUPDATE_SELF, node.addr, NetAddress(s.ips[conn], port), node.path))
            && node.addr == Create(node.path).node
  {
    hide Create, Registry.Coherent;
    Registry.InitCoherent(s, conn, Registry.Request(Registry.KINITIALIZE_SELF, 0, port, 0));
    FoundMatches(es, 0, NetAddress(s.ips[conn], port));
    assert ByNetAddress(s.conf, NetAddress(s.ips[conn], port)) == Some(node);
  }

  /** The hash check on a path that was read too far. */
  lemma ChecksPath(d: State, r: Response, node: ConfNode, after: seq<byte>)
    requires r.kind == KUPDATE_SELF && r.addr == node.addr == Create(node.path).node
    requires r.path == node.path + CString(after)
    ensures HandleResponse(d, r).state == if ReadsOwnAddress(node, after) then d.(self := node.addr) else d
  {
    hide Create, HashOf, CString;
    CreateRunsOn(node.path, CString(after));
  }

  /** For every loaded configuration and every daemon whose address and port it contains: the init exchange answers
      with the configured node, and the reply reaches the daemon whole, first, and however it is cut and whatever
      follows it. Read with the bytes that follow it in memory, it passes the hash check and makes self_address_ the
      configured node's address exactly when ReadsOwnAddress says so; otherwise nothing changes. */
  lemma SelfAddressAgrees(es: seq<Entry>, s: Registry.Server, conn: Registry.Conn, port: int, node: ConfNode,
                          d: State, chunks: seq<seq<byte>>, more: seq<byte>, after: seq<byte>)
    requires Indexes(es, s.conf) && Registry.Coherent(s) && conn in s.ips
    requires FindNet(es, NetAddress(s.ips[conn], port)) == Some(node)
    requires |node.path| < 128 && 0 !in node.path && |s.ips[conn]| < 16 && 0 !in s.ips[conn]
    requires -0x8000_0000 <= port < 0x8000_0000
    requires !Registry.InitConflicts(s, conn, Registry.Request(Registry.KINITIALIZE_SELF, 0, port, 0))
    ensures var x := Registry.Receive(s, conn, Registry.Request(Registry.KINITIALIZE_SELF, 0, port, 0));
            && x.ok && x.reply.Some? && Sendable(x.reply.value)
            && var frame := FrameOf(x.reply.value);
            && (Flat(chunks) == frame + more ==>
                  var got := Feed(ProtocolFormat, (f: seq<byte>) => false, FRESH, chunks);
                  |got.delivered| > 0 && got.delivered[0] == frame)
            && |frame| >= PROTOCOL_HEADER_SIZE + 28
            && HandleResponse(d, ReadResponse(Payload(frame), after)).state
               == (if ReadsOwnAddress(node, after) then d.(self := node.addr) else d)
            && node.addr == Create(node.path).node
  {
    hide Registry.Receive, Registry.Coherent, Indexes, ReadsOwnAddress, HandleResponse, ReadResponse, Feed, Flat,
         FrameOf, Create;
    InitReplies(es, s, conn, port, node);
    var r := Response(KOK, KUPDATE_SELF, node.addr, NetAddress(s.ips[conn], port), node.path);
    ResponseRoundTrip(r, after);
    if Flat(chunks) == FrameOf(r) + more { FirstFrame(FrameOf(r), more, chunks); }
    PayloadSize(r);
    ChecksPath(d, r.(path := r.path + CString(after)), node, after);
  }

  /** Another response behind the reply, the only thing a resolve server sends, does no harm. */
  lemma ResponseBehind(node: ConfNode, p: Packet, rest: seq<byte>)
    requires p.kind == KRESOLVE_RESPONSE && p.len <= |p.data|
    ensures CString(Wire(p) + rest) == [3] && ReadsOwnAddress(node, Wire(p) + rest)
  {
    hide LE32;
    var w := Wire(p) + rest;
    assert w[0] == 3 && w[1] == 0;
    assert CString(w[1..]) == [];
    assert CString(w) == [w[0]] + CString(w[1..]);
  }

  /** But for every node there are bytes with which the check fails. */
  lemma SomethingBehindFails(node: ConfNode)
    requires |node.path| < 128
    ensures exists after :: !ReadsOwnAddress(node, after)
  {
    hide HashOf;
    var a, b: seq<byte> := [1, SLASH], [2, SLASH];
    var s, t := node.path + a, node.path + b;
    assert s[|node.path|] != t[|node.path|];
    assert forall i :: 0 <= i < |s| && i != |node.path| ==> s[i] == t[i];
    HashNeverCollidesInOneBlock(s, t, |node.path| / 4);
    ReadsAll(a);
    ReadsAll(b);
    if HashOf(s) != node.addr { assert !ReadsOwnAddress(node, a); } else { assert !ReadsOwnAddress(node, b); }
  }

  lemma ReadsAll(s: seq<byte>)
    requires |s| == 2 && s[0] != 0 && s[1] == SLASH
    ensures CString(s) == s && RFind(s) == 1 && s[..2] == s
  {
    assert s[1..] == [SLASH] && [SLASH][1..] == [];
    assert CString([SLASH]) == [SLASH] + CString([]);
  }

  lemma PayloadSize(r: Response)
    requires Sendable(r)
    ensures |FrameOf(r)| >= PROTOCOL_HEADER_SIZE + 28
  {
    LenOfFull(r);
  }

  lemma FirstFrame(frame: seq<byte>, more: seq<byte>, chunks: seq<seq<byte>>)
    requires IsFrame(ProtocolFormat, frame) && Flat(chunks) == frame + more
    ensures var got := Feed(ProtocolFormat, (f: seq<byte>) => false, FRESH, chunks);
            |got.delivered| > 0 && got.delivered[0] == frame
  {
    hide Feed, Inspect, Scan;
    FragmentationIndependence(ProtocolFormat, chunks);
    assert Flat([frame]) == frame by { assert [frame][1..] == []; }
    assert frame + [] == frame && [] + (frame + more) == frame + more;
    SplitUnique(ProtocolFormat, frame, Scanned([frame], [], Waiting));
    ScanContinues(ProtocolFormat, frame, more);
  }

  /** The setters used for a lookup that finds nothing. */
  function NotFoundFields(a: u32): seq<Field> {
    [Kind(KUPDATE_CACHE), Code(Registry.KNODE_NOT_FOUND), NodeAddress(a)]
  }

  lemma NotFoundLength(a: u32)
    ensures Distinct(NotFoundFields(a)) && Build(KRESOLVE_RESPONSE, NotFoundFields(a)).len == 8
  {
    hide Image, Build;
    var fs := NotFoundFields(a);
    assert EndOf(fs[0]) == 4 && EndOf(fs[1]) == 2 && EndOf(fs[2]) == 8;
    BuildCanonical(KRESOLVE_RESPONSE, fs);
    var p := Build(KRESOLVE_RESPONSE, fs);
    var k :| 0 <= k < |fs| && p.len == EndOf(fs[k]);
  }

  lemma SmallWords()
    ensures LE16(2) == [2, 0] && LE16(-201) == [0x37, 0xff]
  {
  }

  /** Its frame ends after the node address; code, type and address read back, and nothing else is read. */
  lemma NotFoundArrives(a: u32)
    ensures Distinct(NotFoundFields(a)) && Build(KRESOLVE_RESPONSE, NotFoundFields(a)).len == 8
    ensures var w := Wire(Build(KRESOLVE_RESPONSE, NotFoundFields(a)));
            && IsFrame(ProtocolFormat, w) && |Payload(w)| == 8
            && Payload(w)[0..2] == [0x37, 0xff] && Payload(w)[2..4] == [2, 0] && Word32(Payload(w)[4..8]) == a
  {
    hide Word32, LE32, LE16, Build, Wire, Word16, IsFrame;
    var fs := NotFoundFields(a);
    NotFoundLength(a);
    BuiltFrameReadsBack(KRESOLVE_RESPONSE, fs);
    var d := Payload(Wire(Build(KRESOLVE_RESPONSE, fs)));
    assert d[Offset(fs[0])..Offset(fs[0]) + |Image(fs[0])|] == LE16(2);
    assert d[Offset(fs[1])..Offset(fs[1]) + |Image(fs[1])|] == LE16(-201);
    assert d[Offset(fs[2])..Offset(fs[2]) + |Image(fs[2])|] == LE32(a);
    SmallWords();
    Word32OfLE32(a);
  }

  /** The first bytes of a full reply: response type, padding, magic number, length, then code and type. */
  lemma ReplyHead(r: Response)
    requires Sendable(r) && r.code == KOK && r.kind == KUPDATE_SELF
    ensures |FrameOf(r)| >= 14
    ensures FrameOf(r)[..14] == [3, 0, 0, 0, 0x78, 0x56, 0x34, 0x12, (28 + |r.path|) as byte, 0, 0, 0, 1, 0]
  {
    hide Word32, Word16, Build, Image, CString;
    PayloadSize(r);
    LenOfFull(r);
    PayloadHoldsFields(r);
    var p := Build(KRESOLVE_RESPONSE, FieldsOf(r));
    var w := FrameOf(r);
    assert w == LE16(3) + [0, 0] + LE32(PROTOCOL_MAGIC) + LE16(p.len) + p.data[..p.len];
    assert LE32(PROTOCOL_MAGIC) == [0x78, 0x56, 0x34, 0x12] && LE16(3) == [3, 0];
    assert w[10..12] == Payload(w)[0..2] && w[12..14] == Payload(w)[2..4];
  }
}
