/** The two stream codecs as they run on a connection, and what they make of serialised messages. */
module Codecs {
  import opened Bytes
  import opened Messages
  import opened Framing

  /** The parts of a TCP connection the codecs touch: whether it was closed, and the frames handed to the callback. */
  class TcpConnection {
    var closed: bool
    var handed: seq<seq<byte>>

    constructor ()
      ensures !closed && handed == []
    {
      closed, handed := false, [];
    }

    method Close()
      modifies this`closed
      ensures closed
    {
      closed := true;
    }
  }

  class TcpConnectionBuffer {
    var data: seq<byte>

    constructor (bytes: seq<byte>)
      ensures data == bytes
    {
      data := bytes;
    }

    method ConsumeBytes(n: nat)
      requires n <= |data|
      modifies this
      ensures data == old(data)[n..]
    {
      data := data[n..];
    }
  }

  /** The state of a connection and its buffer as a stream. */
  ghost predicate Shows(conn: TcpConnection, buf: TcpConnectionBuffer, defined: bool, s: Stream)
    reads conn, buf
  {
    && s.buffer == buf.data && s.delivered == conn.handed
    && (defined <==> !s.status.Undefinedness?)
    && (defined ==> (conn.closed <==> s.status.Closed?))
  }

  /** Where a scan stands after the frames already taken off the front. */
  ghost predicate Scanning(f: Format, data: seq<byte>, ptr: nat, taken: seq<seq<byte>>) {
    && ptr <= |data|
    && Scan(f, data) == Scan(f, data[ptr..]).(frames := taken + Scan(f, data[ptr..]).frames)
  }

  lemma ScanStart(f: Format, data: seq<byte>)
    ensures Scanning(f, data, 0, [])
  {
    assert data[0..] == data && [] + Scan(f, data).frames == Scan(f, data).frames;
  }

  lemma TakeFrame(f: Format, data: seq<byte>, ptr: nat, taken: seq<seq<byte>>, size: nat)
    requires Scanning(f, data, ptr, taken)
    requires |data| - ptr >= HeaderSize(f) && Inspect(f, data[ptr..]) == Frame(size) && ptr + size <= |data|
    ensures Scanning(f, data, ptr + size, taken + [data[ptr..][..size]])
  {
    hide Inspect;
    var r := Scan(f, data[ptr + size..]);
    assert data[ptr..][size..] == data[ptr + size..];
    assert taken + ([data[ptr..][..size]] + r.frames) == taken + [data[ptr..][..size]] + r.frames;
  }

  /** The loop leaves at a point where the scan stops too. */
  lemma StopHere(f: Format, data: seq<byte>, ptr: nat, taken: seq<seq<byte>>, end: End)
    requires Scanning(f, data, ptr, taken) && StopsAt(f, data[ptr..], end)
    ensures Scan(f, data) == Scanned(taken, data[ptr..], end)
  {
    hide Inspect;
    assert taken + [] == taken;
  }

  lemma CloseOne(closes: seq<byte> -> bool, frames: seq<seq<byte>>, frame: seq<byte>)
    ensures AnyCloses(closes, frames + [frame]) <==> AnyCloses(closes, frames) || closes(frame)
  {
    var t := frames + [frame];
    if AnyCloses(closes, frames) {
      var i :| 0 <= i < |frames| && closes(frames[i]);
      assert closes(t[i]);
    } else if closes(frame) {
      assert closes(t[|frames|]);
    }
  }

  class MessageCodec {
    /** MessageCodec::OnRead; defined is false when a header is reached whose signed length is negative or overflows
        the size computation. closes tells on which frames the message callback closes the connection. */
    static method OnRead(closes: seq<byte> -> bool, conn: TcpConnection,
                         buf: TcpConnectionBuffer) returns (defined: bool)
      requires !conn.closed
      modifies conn, buf
      ensures Shows(conn, buf, defined,
                    Framing.OnRead(MessageFormat, closes, Stream(old(buf.data), Open, old(conn.handed)), []))
    {
      hide Decode, Scan, Scanning, Word32;
      ScanStart(MessageFormat, buf.data);
      var data := buf.data;
      assert data + [] == data;
      var nbytes := |data|;
      var ptr := 0;
      ghost var taken: seq<seq<byte>> := [];
      while nbytes >= MIN_SIZE
        invariant 0 <= ptr && ptr + nbytes == |data| && nbytes >= 0
        invariant buf.data == data
        invariant conn.handed == old(conn.handed) + taken
        invariant conn.closed <==> AnyCloses(closes, taken)
        invariant Scanning(MessageFormat, data, ptr, taken)
      {
        var m := data[ptr..];
        if MagicOf(m) != MAGIC {
          conn.Close();
          StopHere(MessageFormat, data, ptr, taken, Rejected);
          return true;
        }
        var len := LengthOf(m);
        if len < 0 || MIN_SIZE + len >= 0x8000_0000 {
          StopHere(MessageFormat, data, ptr, taken, Stuck);
          return false;
        }
        var size := MIN_SIZE + len;
        if size >= MAX_SIZE {
          conn.Close();
          StopHere(MessageFormat, data, ptr, taken, Rejected);
          return true;
        }
        if size > nbytes {
          break;
        }
        conn.handed := conn.handed + [m[..size]];
        CloseOne(closes, taken, m[..size]);
        if closes(m[..size]) {
          conn.Close();
        }
        TakeFrame(MessageFormat, data, ptr, taken, size);
        taken := taken + [m[..size]];
        nbytes := nbytes - size;
        ptr := ptr + size;
      }
      StopHere(MessageFormat, data, ptr, taken, Waiting);
      buf.ConsumeBytes(|data| - nbytes);
      defined := true;
    }
  }

  class ProtocolMessageCodec {
    /** ProtocolMessageCodec::OnRead: the length is unsigned, so the loop is always defined. */
    static method OnRead(closes: seq<byte> -> bool, conn: TcpConnection, buf: TcpConnectionBuffer)
      requires !conn.closed
      modifies conn, buf
      ensures Shows(conn, buf, true,
                    Framing.OnRead(ProtocolFormat, closes, Stream(old(buf.data), Open, old(conn.handed)), []))
    {
      hide Scan, Scanning, Word32, Word16;
      ScanStart(ProtocolFormat, buf.data);
      var data := buf.data;
      assert data + [] == data;
      var nbytes := |data|;
      var ptr := 0;
      ghost var taken: seq<seq<byte>> := [];
      while nbytes >= PROTOCOL_HEADER_SIZE
        invariant 0 <= ptr && ptr + nbytes == |data| && nbytes >= 0
        invariant buf.data == data
        invariant conn.handed == old(conn.handed) + taken
        invariant conn.closed <==> AnyCloses(closes, taken)
        invariant Scanning(ProtocolFormat, data, ptr, taken)
      {
        var m := data[ptr..];
        if Word32(m[4..8]) != PROTOCOL_MAGIC {
          conn.Close();
          StopHere(ProtocolFormat, data, ptr, taken, Rejected);
          return;
        }
        var len := Word16(m[8..10]);
        if len >= MAX_PROTOCOL_DATA_SIZE {
          conn.Close();
          StopHere(ProtocolFormat, data, ptr, taken, Rejected);
          return;
        }
        var size := PROTOCOL_HEADER_SIZE + len;
        if size > nbytes {
          break;
        }
        conn.handed := conn.handed + [m[..size]];
        CloseOne(closes, taken, m[..size]);
        if closes(m[..size]) {
          conn.Close();
        }
        TakeFrame(ProtocolFormat, data, ptr, taken, size);
        taken := taken + [m[..size]];
        nbytes := nbytes - size;
        ptr := ptr + size;
      }
      StopHere(ProtocolFormat, data, ptr, taken, Waiting);
      buf.ConsumeBytes(|data| - nbytes);
    }
  }

  // ---------------------------------------------------------------- headers, byte by byte

  /** What makes a header bad: the wrong magic number, or a length at or above the limit. */
  predicate BadHeader(f: Format, head: seq<byte>) {
    match f
    case MessageFormat =>
      |head| >= 24 && (head[16..20] != [0x21, 0x43, 0x65, 0x87] || 65436 <= Signed(Word32(head[20..24])) < 0x7fff_ffe8)
    case ProtocolFormat =>
      |head| >= 10 && (head[4..8] != [0x78, 0x56, 0x34, 0x12] || 1024 <= head[8] as int + 256 * (head[9] as int))
  }

  /** And a good one, with the size it announces. */
  predicate GoodHeader(f: Format, head: seq<byte>, size: nat) {
    match f
    case MessageFormat =>
      |head| >= 24 && head[16..20] == [0x21, 0x43, 0x65, 0x87] && 24 <= size < 24 + 65436
      && Signed(Word32(head[20..24])) == size - 24
    case ProtocolFormat =>
      |head| >= 10 && head[4..8] == [0x78, 0x56, 0x34, 0x12] && 10 <= size < 10 + 1024
      && head[8] as int + 256 * (head[9] as int) == size - 10
  }

  lemma MagicWords(s: seq<byte>)
    requires |s| == 4
    ensures Word32(s) == MAGIC <==> s == [0x21, 0x43, 0x65, 0x87]
    ensures Word32(s) == PROTOCOL_MAGIC <==> s == [0x78, 0x56, 0x34, 0x12]
  {
    var a, b: seq<byte> := [0x21, 0x43, 0x65, 0x87], [0x78, 0x56, 0x34, 0x12];
    assert Word32(a) == MAGIC && Word32(b) == PROTOCOL_MAGIC;
    hide Word32;
    if Word32(s) == MAGIC { Word32Injective(s, a); }
    if Word32(s) == PROTOCOL_MAGIC { Word32Injective(s, b); }
  }

  /** The codecs reject exactly bad headers, and take exactly good ones, at their size. */
  lemma HeadersExactly(f: Format, head: seq<byte>)
    requires |head| >= HeaderSize(f)
    ensures Inspect(f, head).Reject? <==> BadHeader(f, head)
    ensures forall size: nat :: Inspect(f, head) == Frame(size) <==> GoodHeader(f, head, size)
  {
    hide Word32;
    if f.MessageFormat? { MagicWords(head[16..20]); } else { MagicWords(head[4..8]); }
  }

  /** Frames followed by a bad header, cut anywhere: exactly the frames before it are delivered, and the connection is
      closed. */
  lemma BadHeaderCloses(f: Format, frames: seq<seq<byte>>, bad: seq<byte>, chunks: seq<seq<byte>>)
    requires forall i :: 0 <= i < |frames| ==> GoodHeader(f, frames[i], |frames[i]|)
    requires BadHeader(f, bad) && Flat(chunks) == Flat(frames) + bad
    ensures var s := Feed(f, (frame: seq<byte>) => false, FRESH, chunks);
            s.delivered == frames && s.status == Closed
  {
    hide Inspect, Scan, Feed, Flat, BadHeader, GoodHeader;
    var bytes := Flat(chunks);
    forall i | 0 <= i < |frames| ensures IsFrame(f, frames[i]) {
      GoodIsLong(f, frames[i]);
      HeadersExactly(f, frames[i]);
    }
    BadIsLong(f, bad);
    HeadersExactly(f, bad);
    SplitUnique(f, bytes, Scanned(frames, bad, Rejected));
    FragmentationIndependence(f, chunks);
    assert [] + bytes == bytes;
  }

  lemma GoodIsLong(f: Format, head: seq<byte>)
    requires GoodHeader(f, head, |head|)
    ensures |head| >= HeaderSize(f)
  {
  }

  lemma BadIsLong(f: Format, head: seq<byte>)
    requires BadHeader(f, head)
    ensures |head| >= HeaderSize(f)
  {
  }

  // ---------------------------------------------------------------- serialised messages

  function EncodeAll(ms: seq<Message>): (frames: seq<seq<byte>>)
    ensures |frames| == |ms|
    ensures forall i :: 0 <= i < |ms| ==> frames[i] == Encode(ms[i])
  {
    seq(|ms|, i requires 0 <= i < |ms| => Encode(ms[i]))
  }

  /** A well-built message is accepted exactly when it is shorter than SetData allows. */
  lemma EncodedIsFrame(m: Message)
    requires WellBuilt(m)
    ensures IsFrame(MessageFormat, Encode(m)) <==> Framable(m)
    ensures !Framable(m) ==> Inspect(MessageFormat, Encode(m)) == Reject
  {
    hide Word32;
    DecodeEncode(m);
  }

  function FirstTooLong(ms: seq<Message>): (k: nat)
    ensures k <= |ms|
    ensures k < |ms| ==> !Framable(ms[k])
    ensures forall i :: 0 <= i < k ==> Framable(ms[i])
  {
    if ms == [] || !Framable(ms[0]) then 0 else 1 + FirstTooLong(ms[1..])
  }

  /** A stream of complete frames, then bytes at which reading stops. */
  lemma ScanFrames(frames: seq<seq<byte>>, rest: seq<byte>, end: End)
    requires forall i :: 0 <= i < |frames| ==> IsFrame(MessageFormat, frames[i])
    requires StopsAt(MessageFormat, rest, end)
    ensures Scan(MessageFormat, Flat(frames) + rest) == Scanned(frames, rest, end)
  {
    hide Inspect, Scan;
    SplitUnique(MessageFormat, Flat(frames) + rest, Scanned(frames, rest, end));
  }

  lemma EncodeAllSplit(ms: seq<Message>, k: nat)
    requires k <= |ms|
    ensures Flat(EncodeAll(ms)) == Flat(EncodeAll(ms[..k])) + Flat(EncodeAll(ms[k..]))
  {
    hide *;
    assert EncodeAll(ms) == EncodeAll(ms[..k]) + EncodeAll(ms[k..]);
    FlatAppend(EncodeAll(ms[..k]), EncodeAll(ms[k..]));
  }

  lemma FramesOf(ms: seq<Message>)
    requires forall i :: 0 <= i < |ms| ==> WellBuilt(ms[i]) && Framable(ms[i])
    ensures forall i :: 0 <= i < |ms| ==> IsFrame(MessageFormat, EncodeAll(ms)[i])
  {
    hide *;
    forall i | 0 <= i < |ms| ensures IsFrame(MessageFormat, EncodeAll(ms)[i]) { EncodedIsFrame(ms[i]); }
  }

  lemma ScanEncoded(ms: seq<Message>)
    requires forall i :: 0 <= i < |ms| ==> WellBuilt(ms[i])
    ensures var k := FirstTooLong(ms); var r := Scan(MessageFormat, Flat(EncodeAll(ms)));
            r.frames == EncodeAll(ms[..k]) && (if k == |ms| then r.rest == [] && r.end.Waiting? else r.end.Rejected?)
  {
    hide *;
    var k := FirstTooLong(ms);
    EncodeAllSplit(ms, k);
    FramesOf(ms[..k]);
    BackStops(ms[k..]);
    ScanFrames(EncodeAll(ms[..k]), Flat(EncodeAll(ms[k..])), if k == |ms| then Waiting else Rejected);
  }

  lemma BackStops(ms: seq<Message>)
    requires ms != [] ==> WellBuilt(ms[0]) && !Framable(ms[0])
    ensures StopsAt(MessageFormat, Flat(EncodeAll(ms)), if ms == [] then Waiting else Rejected)
    ensures ms == [] ==> Flat(EncodeAll(ms)) == []
  {
    hide Inspect, Encode, WellBuilt, Framable;
    if ms != [] {
      var frames := EncodeAll(ms);
      EncodedIsFrame(ms[0]);
      InspectPrefix(MessageFormat, frames[0], Flat(frames[1..]));
    }
  }

  /** Messages serialised back to back and cut anywhere: exactly those before the first over-long one arrive,
      in order and unchanged, and the connection stays open exactly when there is none. */
  lemma RoundTrip(ms: seq<Message>, chunks: seq<seq<byte>>)
    requires forall i :: 0 <= i < |ms| ==> WellBuilt(ms[i])
    requires Flat(chunks) == Flat(EncodeAll(ms))
    ensures var k := FirstTooLong(ms);
            var s := Feed(MessageFormat, (frame: seq<byte>) => false, FRESH, chunks);
            && |s.delivered| == k
            && (forall i :: 0 <= i < k ==> |s.delivered[i]| >= MIN_SIZE && Decode(s.delivered[i]) == ms[i])
            && (s.status == if k == |ms| then Open else Closed)
            && (k == |ms| ==> s.buffer == [])
  {
    hide Scan, Feed, Flat, Encode;
    var k := FirstTooLong(ms);
    FragmentationIndependence(MessageFormat, chunks);
    ScanEncoded(ms);
    assert [] + Flat(chunks) == Flat(chunks);
    forall i | 0 <= i < k ensures Decode(Encode(ms[i])) == ms[i] { DecodeEncode(ms[i]); }
    assert EncodeAll(ms[..k]) == EncodeAll(ms)[..k];
  }

  /** So concatenated serialisations are uniquely decodable. */
  lemma UniquelyDecodable(ms: seq<Message>, ns: seq<Message>)
    requires forall i :: 0 <= i < |ms| ==> Framable(ms[i])
    requires forall i :: 0 <= i < |ns| ==> Framable(ns[i])
    requires Flat(EncodeAll(ms)) == Flat(EncodeAll(ns))
    ensures ms == ns
  {
    hide Feed, Encode;
    var whole := Flat(EncodeAll(ms));
    assert Flat([whole]) == whole by { assert Flat([whole]) == whole + Flat([]) && [whole][1..] == []; }
    assert FirstTooLong(ms) == |ms| && FirstTooLong(ns) == |ns|;
    RoundTrip(ms, [whole]);
    RoundTrip(ns, [whole]);
  }
}
