/** Protocol messages: the fixed-size record, its builders, its wire form, and reading it back. */
module Protocol {
  import opened Bytes
  import opened Framing

  const KRESOLVE_REQUEST := 2
  const KRESOLVE_RESPONSE := 3

  /** A builder call. The first six set fields of a ResolveResponse, the others of a ResolveRequest. */
  datatype Field =
    | Code(code: int) | Kind(kind: int) | NodeAddress(addr: u32) | NodePort(port: int)
    | NodeIp(ip: seq<byte>) | NodePath(path: seq<byte>)
    | RequestKind(rkind: int) | SelfAddress(self: u32) | Port(cpmdPort: int) | PeerAddress(peer: u32)

  predicate OfResponse(f: Field) { f.Code? || f.Kind? || f.NodeAddress? || f.NodePort? || f.NodeIp? || f.NodePath? }

  function Offset(f: Field): nat {
    match f
    case Code(_) => 0 case Kind(_) => 2 case NodeAddress(_) => 4 case NodePort(_) => 8 case NodeIp(_) => 12
    case NodePath(_) => 28
    case RequestKind(_) => 0 case SelfAddress(_) => 4 case Port(_) => 8 case PeerAddress(_) => 12
  }

  /** sizeof the struct member. */
  function Width(f: Field): nat {
    match f
    case Code(_) => 2 case Kind(_) => 2 case NodeAddress(_) => 4 case NodePort(_) => 4 case NodeIp(_) => 16
    case NodePath(_) => 128
    case RequestKind(_) => 2 case SelfAddress(_) => 4 case Port(_) => 4 case PeerAddress(_) => 4
  }

  /** The setters' assertion on strings. */
  predicate Fits(f: Field) {
    match f
    case NodeIp(s) => |s| < 16
    case NodePath(s) => |s| < 128
    case _ => true
  }

  function Zeros(n: nat): seq<byte> { seq(n, i => 0) }

  /** strncpy(dst, s, |s|): up to the first NUL, then NULs. */
  function StrNCpy(s: seq<byte>): (r: seq<byte>)
    ensures |r| == |s|
    ensures 0 !in s ==> r == s
  {
    CString(s) + Zeros(|s| - |CString(s)|)
  }

  /** The bytes a setter writes at the field's offset. */
  function Image(f: Field): (r: seq<byte>)
    requires Fits(f)
    ensures |r| <= Width(f)
  {
    match f
    case Code(n) => LE16(n) case Kind(n) => LE16(n) case RequestKind(n) => LE16(n)
    case NodeAddress(x) => LE32(x) case SelfAddress(x) => LE32(x) case PeerAddress(x) => LE32(x)
    case NodePort(n) => LE32(Unsigned(n)) case Port(n) => LE32(Unsigned(n))
    case NodeIp(s) => StrNCpy(s) case NodePath(s) => StrNCpy(s)
  }

  /** Where the field ends for the purpose of len: the last field counts only what was copied. */
  function EndOf(f: Field): nat { if f.NodePath? then 28 + |f.path| else Offset(f) + Width(f) }

  datatype Packet = Packet(kind: int, len: nat, data: seq<byte>)

  function Blank(kind: int): Packet { Packet(kind, 0, Zeros(MAX_PROTOCOL_DATA_SIZE)) }

  function Overwrite(s: seq<byte>, at: nat, t: seq<byte>): (r: seq<byte>)
    requires at + |t| <= |s|
    ensures |r| == |s|
  {
    s[..at] + t + s[at + |t|..]
  }

  /** One setter call: the field's bytes, and len raised to its end, except that the last field assigns len. */
  function Set(p: Packet, f: Field): (r: Packet)
    requires |p.data| == MAX_PROTOCOL_DATA_SIZE && Fits(f)
    ensures |r.data| == MAX_PROTOCOL_DATA_SIZE
  {
    p.(data := Overwrite(p.data, Offset(f), Image(f)),
       len := if f.NodePath? then 28 + |f.path|
              else if p.len < Offset(f) + Width(f) then Offset(f) + Width(f) else p.len)
  }

  function Build(kind: int, fs: seq<Field>): (p: Packet)
    requires forall i :: 0 <= i < |fs| ==> Fits(fs[i])
    ensures |p.data| == MAX_PROTOCOL_DATA_SIZE && p.kind == kind
  {
    if fs == [] then Blank(kind) else Set(Build(kind, fs[..|fs| - 1]), fs[|fs| - 1])
  }

  // ---------------------------------------------------------------- order does not matter

  /** Setters of one struct, each used at most once: their fields do not overlap. */
  ghost predicate Distinct(fs: seq<Field>) {
    && (forall i :: 0 <= i < |fs| ==> Fits(fs[i]))
    && (forall i, j :: 0 <= i < |fs| && 0 <= j < |fs| ==> OfResponse(fs[i]) == OfResponse(fs[j]))
    && (forall i, j :: 0 <= i < j < |fs| ==> Offset(fs[i]) != Offset(fs[j]))
  }

  predicate Covers(f: Field, i: int)
    requires Fits(f)
  {
    Offset(f) <= i < Offset(f) + |Image(f)|
  }

  /** What the packet must be, whatever the order: every field reads as set, all else is zero, and len is the
      furthest end. */
  ghost predicate Canonical(p: Packet, fs: seq<Field>)
    requires Distinct(fs)
  {
    |p.data| == MAX_PROTOCOL_DATA_SIZE && CanonicalData(p.data, fs) && CanonicalLen(p.len, fs)
  }

  ghost predicate CanonicalData(data: seq<byte>, fs: seq<Field>)
    requires Distinct(fs) && |data| == MAX_PROTOCOL_DATA_SIZE
  {
    && (forall k :: 0 <= k < |fs| ==> Holds(data, fs[k]))
    && (forall i :: 0 <= i < MAX_PROTOCOL_DATA_SIZE && Uncovered(fs, i) ==> data[i] == 0)
  }

  ghost predicate Holds(data: seq<byte>, f: Field)
    requires Fits(f)
  {
    Offset(f) + |Image(f)| <= |data| && data[Offset(f)..Offset(f) + |Image(f)|] == Image(f)
  }

  ghost predicate Uncovered(fs: seq<Field>, i: int)
    requires Distinct(fs)
  {
    forall k :: 0 <= k < |fs| ==> !Covers(fs[k], i)
  }

  ghost predicate CanonicalLen(len: nat, fs: seq<Field>) {
    && (forall k :: 0 <= k < |fs| ==> EndOf(fs[k]) <= len)
    && (if fs == [] then len == 0 else exists k :: 0 <= k < |fs| && len == EndOf(fs[k]))
  }

  /** Fields of one struct at different offsets do not overlap, and none of them ends beyond the last field's start. */
  lemma Disjoint(f: Field, g: Field, i: int)
    requires Fits(f) && Fits(g) && OfResponse(f) == OfResponse(g) && Offset(f) != Offset(g)
    ensures !(Covers(f, i) && Covers(g, i))
    ensures g.NodePath? ==> EndOf(f) <= 28
  {
    hide LE16, LE32, StrNCpy;
  }

  lemma {:induction false} BuildCanonical(kind: int, fs: seq<Field>)
    requires Distinct(fs)
    ensures Canonical(Build(kind, fs), fs)
  {
    hide Image, Fits, Offset, CanonicalData, CanonicalLen, Set;
    if fs == [] {
      BlankCanonical(kind);
    } else {
      var n := |fs| - 1;
      var front, f := fs[..n], fs[n];
      assert fs == front + [f];
      BuildCanonical(kind, front);
      SetData(Build(kind, front), front, f, fs);
      SetLen(Build(kind, front), front, f, fs);
    }
  }

  lemma BlankCanonical(kind: int)
    ensures CanonicalData(Blank(kind).data, []) && CanonicalLen(0, [])
  {
  }

  lemma SetData(p: Packet, front: seq<Field>, f: Field, fs: seq<Field>)
    requires fs == front + [f] && Distinct(fs) && Distinct(front) && Fits(f)
    requires |p.data| == MAX_PROTOCOL_DATA_SIZE && CanonicalData(p.data, front)
    ensures CanonicalData(Set(p, f).data, fs)
  {
    hide Image, Fits, EndOf, CString;
    var q, n := Set(p, f).data, |front|;
    assert fs[n] == f && forall k :: 0 <= k < n ==> fs[k] == front[k];
    forall k | 0 <= k < |fs| ensures Holds(q, fs[k]) {
      if k < n { SetKeeps(p, front[k], f); } else { SetHolds(p, f); }
    }
    forall i | 0 <= i < MAX_PROTOCOL_DATA_SIZE && Uncovered(fs, i) ensures q[i] == 0 {
      assert !Covers(fs[n], i);
      forall k | 0 <= k < n ensures !Covers(front[k], i) { assert !Covers(fs[k], i); }
      assert Uncovered(front, i);
    }
  }

  lemma SetHolds(p: Packet, f: Field)
    requires Fits(f) && |p.data| == MAX_PROTOCOL_DATA_SIZE
    ensures Holds(Set(p, f).data, f)
  {
    hide Image, Fits, CString;
  }

  lemma SetKeeps(p: Packet, g: Field, f: Field)
    requires Fits(f) && Fits(g) && OfResponse(f) == OfResponse(g) && Offset(f) != Offset(g)
    requires |p.data| == MAX_PROTOCOL_DATA_SIZE && Holds(p.data, g)
    ensures Holds(Set(p, f).data, g)
  {
    hide Image, Fits, CString, Overwrite, Offset, Width;
    var q, m, at := Set(p, f).data, Image(g), Offset(g);
    InRange(f);
    forall i | 0 <= i < |m| ensures q[at + i] == m[i] {
      Disjoint(g, f, at + i);
      assert Covers(g, at + i);
      OverwriteOutside(p.data, Offset(f), Image(f), at + i);
      assert p.data[at..at + |m|][i] == m[i];
    }
    assert q[at..at + |m|] == m;
  }

  lemma InRange(f: Field)
    ensures Offset(f) + Width(f) <= MAX_PROTOCOL_DATA_SIZE
  {
  }

  lemma OverwriteOutside(s: seq<byte>, at: nat, t: seq<byte>, i: nat)
    requires at + |t| <= |s| && i < |s| && !(at <= i < at + |t|)
    ensures Overwrite(s, at, t)[i] == s[i]
  {
  }

  lemma SetLen(p: Packet, front: seq<Field>, f: Field, fs: seq<Field>)
    requires fs == front + [f] && Distinct(fs) && Distinct(front) && Fits(f)
    requires |p.data| == MAX_PROTOCOL_DATA_SIZE && CanonicalLen(p.len, front)
    ensures CanonicalLen(Set(p, f).len, fs)
  {
    hide Image, Fits, Overwrite;
    var q, n := Set(p, f).len, |front|;
    assert fs[n] == f && forall k :: 0 <= k < n ==> fs[k] == front[k];
    forall k | 0 <= k < n ensures EndOf(front[k]) <= q { Disjoint(front[k], f, 0); }
    if front != [] && q != EndOf(f) {
      var k :| 0 <= k < |front| && p.len == EndOf(front[k]);
      assert q == EndOf(fs[k]);
    } else {
      assert q == EndOf(fs[n]);
    }
  }

  lemma UncoveredIsZero(kind: int, fs: seq<Field>, i: nat)
    requires Distinct(fs) && Uncovered(fs, i) && i < MAX_PROTOCOL_DATA_SIZE
    ensures Build(kind, fs).data[i] == 0
  {
    hide Build, Holds, Uncovered, Covers;
    BuildCanonical(kind, fs);
  }

  /** Any set of distinct setters gives the same bytes and length in every order. */
  lemma OrderDoesNotMatter(kind: int, fs: seq<Field>, gs: seq<Field>)
    requires Distinct(fs) && Distinct(gs)
    requires forall f :: f in fs <==> f in gs
    ensures Build(kind, fs) == Build(kind, gs)
  {
    hide Image, Fits, Build;
    BuildCanonical(kind, fs);
    BuildCanonical(kind, gs);
    SameData(Build(kind, fs), Build(kind, gs), fs, gs);
    LenBelow(Build(kind, fs), Build(kind, gs), fs, gs);
    LenBelow(Build(kind, gs), Build(kind, fs), gs, fs);
  }

  lemma SameData(p: Packet, q: Packet, fs: seq<Field>, gs: seq<Field>)
    requires Distinct(fs) && Distinct(gs) && Canonical(p, fs) && Canonical(q, gs)
    requires forall f :: f in fs <==> f in gs
    ensures p.data == q.data
  {
    hide Image, Fits, Offset;
    forall i | 0 <= i < MAX_PROTOCOL_DATA_SIZE ensures p.data[i] == q.data[i] {
      if k :| 0 <= k < |fs| && Covers(fs[k], i) {
        assert fs[k] in gs;
        var j :| 0 <= j < |gs| && gs[j] == fs[k];
        assert Holds(p.data, fs[k]) && Holds(q.data, gs[j]);
        assert p.data[i] == Image(fs[k])[i - Offset(fs[k])];
      } else {
        assert Uncovered(fs, i);
        forall j | 0 <= j < |gs| ensures !Covers(gs[j], i) {
          assert gs[j] in fs;
          var k :| 0 <= k < |fs| && fs[k] == gs[j];
          assert !Covers(fs[k], i);
        }
        assert Uncovered(gs, i);
      }
    }
  }

  lemma LenBelow(p: Packet, q: Packet, fs: seq<Field>, gs: seq<Field>)
    requires Distinct(fs) && Distinct(gs) && Canonical(p, fs) && Canonical(q, gs)
    requires forall f :: f in fs <==> f in gs
    ensures p.len <= q.len
  {
    hide Image, Fits, Offset, EndOf;
    if fs != [] {
      var k :| 0 <= k < |fs| && p.len == EndOf(fs[k]);
      assert fs[k] in gs;
      var j :| 0 <= j < |gs| && gs[j] == fs[k];
    }
  }

  // ---------------------------------------------------------------- the wire

  /** ProtocolMessage::Serialize of a zero-initialised record: type, padding, magic, len, then len bytes of data. */
  function Wire(p: Packet): (w: seq<byte>)
    requires p.len <= |p.data|
    ensures |w| == PROTOCOL_HEADER_SIZE + p.len
  {
    LE16(p.kind) + [0, 0] + LE32(PROTOCOL_MAGIC) + LE16(p.len) + p.data[..p.len]
  }

  function Payload(frame: seq<byte>): seq<byte>
    requires |frame| >= PROTOCOL_HEADER_SIZE
  {
    frame[PROTOCOL_HEADER_SIZE..]
  }

  lemma BuiltLength(kind: int, fs: seq<Field>)
    requires Distinct(fs)
    ensures Build(kind, fs).len <= 156
  {
    hide Image, Build;
    BuildCanonical(kind, fs);
    if fs != [] {
      var k :| 0 <= k < |fs| && Build(kind, fs).len == EndOf(fs[k]);
      EndBound(fs[k]);
    }
  }

  lemma EndBound(f: Field)
    requires Fits(f)
    ensures EndOf(f) <= 156
  {
  }

  /** Every built frame is accepted by the codec, whole, and every field set lies inside it and reads back. */
  lemma BuiltFrameReadsBack(kind: int, fs: seq<Field>)
    requires Distinct(fs)
    ensures Build(kind, fs).len <= 156
    ensures IsFrame(ProtocolFormat, Wire(Build(kind, fs)))
    ensures var d := Payload(Wire(Build(kind, fs)));
            forall k :: 0 <= k < |fs| ==>
              Offset(fs[k]) + |Image(fs[k])| <= |d| && d[Offset(fs[k])..Offset(fs[k]) + |Image(fs[k])|] == Image(fs[k])
  {
    BuiltLength(kind, fs);
    WireIsFrame(Build(kind, fs));
    BuildCanonical(kind, fs);
    hide Build, Wire, Image;
    FieldsReadBack(Build(kind, fs), fs);
  }

  lemma WireIsFrame(p: Packet)
    requires p.len <= |p.data| && p.len < MAX_PROTOCOL_DATA_SIZE
    ensures IsFrame(ProtocolFormat, Wire(p))
  {
    hide LE32, Word32;
    var w := Wire(p);
    assert w[4..8] == LE32(PROTOCOL_MAGIC) && w[8..10] == LE16(p.len);
    Word32OfLE32(PROTOCOL_MAGIC);
    Word16OfLE16(p.len);
  }

  lemma ImageInside(f: Field)
    requires Fits(f)
    ensures Offset(f) + |Image(f)| <= EndOf(f)
  {
    hide LE16, LE32, StrNCpy;
  }

  lemma FieldsReadBack(p: Packet, fs: seq<Field>)
    requires Distinct(fs) && Canonical(p, fs) && p.len <= |p.data|
    ensures var d := Payload(Wire(p));
            forall k :: 0 <= k < |fs| ==>
              Offset(fs[k]) + |Image(fs[k])| <= |d| && d[Offset(fs[k])..Offset(fs[k]) + |Image(fs[k])|] == Image(fs[k])
  {
    hide Image, Offset, EndOf;
    var d := Payload(Wire(p));
    assert d == p.data[..p.len];
    forall k | 0 <= k < |fs|
      ensures Offset(fs[k]) + |Image(fs[k])| <= |d| && d[Offset(fs[k])..Offset(fs[k]) + |Image(fs[k])|] == Image(fs[k])
    {
      ImageInside(fs[k]);
      assert Holds(p.data, fs[k]);
      assert d[Offset(fs[k])..Offset(fs[k]) + |Image(fs[k])|] == p.data[Offset(fs[k])..Offset(fs[k]) + |Image(fs[k])|];
    }
  }

  // ---------------------------------------------------------------- the record and its builders

  class ProtocolMessage {
    var kind: int
    var len: nat
    const data: array<byte>

    ghost predicate Valid()
      reads this, data
    {
      data.Length == MAX_PROTOCOL_DATA_SIZE && len <= MAX_PROTOCOL_DATA_SIZE
    }

    ghost function View(): Packet
      reads this, data
    {
      Packet(kind, len, data[..])
    }

    /** The builders' constructor: clear the record and set magic, type and a zero length. */
    constructor (kind: int)
      ensures Valid() && fresh(data) && View() == Blank(kind)
    {
      this.kind := kind;
      len := 0;
      data := new byte[MAX_PROTOCOL_DATA_SIZE](i => 0);
      new;
      assert data[..] == Zeros(MAX_PROTOCOL_DATA_SIZE);
    }

    method Put(at: nat, bytes: seq<byte>)
      requires Valid() && at + |bytes| <= MAX_PROTOCOL_DATA_SIZE
      modifies data
      ensures data[..] == Overwrite(old(data[..]), at, bytes)
    {
      forall i | 0 <= i < |bytes| {
        data[at + i] := bytes[i];
      }
      assert data[..] == Overwrite(old(data[..]), at, bytes);
    }

    method EnsureLength(size: nat)
      requires Valid() && size <= MAX_PROTOCOL_DATA_SIZE
      modifies this`len
      ensures Valid() && len == if old(len) < size then size else old(len)
    {
      if len < size {
        len := size;
      }
    }

    /** The setters of fixed-size fields and of the ip string. */
    method SetField(f: Field)
      requires Valid() && Fits(f) && !f.NodePath?
      modifies this`len, data
      ensures Valid() && View() == Set(old(View()), f)
    {
      hide Image;
      Put(Offset(f), Image(f));
      EnsureLength(Offset(f) + Width(f));
    }

    /** The setter of the last field. */
    method SetNodePath(path: seq<byte>)
      requires Valid() && |path| < 128
      modifies this`len, data
      ensures Valid() && View() == Set(old(View()), NodePath(path))
    {
      Put(28, StrNCpy(path));
      len := 28 + |path|;
    }

    method Serialize() returns (bytes: seq<byte>)
      requires Valid()
      ensures bytes == Wire(View())
    {
      bytes := LE16(kind) + [0, 0] + LE32(PROTOCOL_MAGIC) + LE16(len) + data[..len];
    }
  }
}
