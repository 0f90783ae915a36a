/** Splitting a byte stream into frames: the common theory of MessageCodec and ProtocolMessageCodec. */
module Framing {
  import opened Bytes
  import opened Messages

  datatype Format = MessageFormat | ProtocolFormat

  const PROTOCOL_HEADER_SIZE := 10
  const PROTOCOL_MAGIC: u32 := 0x12345678
  const MAX_PROTOCOL_DATA_SIZE := 1024

  function HeaderSize(f: Format): nat { if f.MessageFormat? then MIN_SIZE else PROTOCOL_HEADER_SIZE }

  /** What the header at the front of the unread bytes says. Undefined covers the signed lengths that
      SetData never sets: negative ones, with which the source's loop steps by less than a header, by nothing or
      backwards, and ones that overflow an int. */
  datatype Verdict = Reject | Undefined | Frame(size: nat)

  function Inspect(f: Format, bytes: seq<byte>): (v: Verdict)
    requires |bytes| >= HeaderSize(f)
    ensures v.Frame? ==> v.size >= HeaderSize(f)
  {
    match f
    case MessageFormat =>
      var len := LengthOf(bytes);
      if MagicOf(bytes) != MAGIC then Reject
      else if len < 0 || MIN_SIZE + len >= 0x8000_0000 then Undefined
      else if MIN_SIZE + len >= MAX_SIZE then Reject
      else Frame(MIN_SIZE + len)
    case ProtocolFormat =>
      var len := Word16(bytes[8..10]);
      if Word32(bytes[4..8]) != PROTOCOL_MAGIC || len >= MAX_PROTOCOL_DATA_SIZE then Reject
      else Frame(PROTOCOL_HEADER_SIZE + len)
  }

  /** Only the header decides. */
  lemma InspectPrefix(f: Format, a: seq<byte>, b: seq<byte>)
    requires |a| >= HeaderSize(f)
    ensures Inspect(f, a + b) == Inspect(f, a)
  {
    var s := a + b;
    assert f.MessageFormat? ==> s[16..20] == a[16..20] && s[20..24] == a[20..24];
    assert s[8..10] == a[8..10] && s[4..8] == a[4..8];
  }

  datatype End = Waiting | Rejected | Stuck

  datatype Scanned = Scanned(frames: seq<seq<byte>>, rest: seq<byte>, end: End)

  /** One call of OnRead on the bytes buffered so far. */
  function Scan(f: Format, bytes: seq<byte>): Scanned
    decreases |bytes|
  {
    if |bytes| < HeaderSize(f) then Scanned([], bytes, Waiting)
    else
      match Inspect(f, bytes)
      case Reject => Scanned([], bytes, Rejected)
      case Undefined => Scanned([], bytes, Stuck)
      case Frame(size) =>
        if size > |bytes| then Scanned([], bytes, Waiting)
        else
          var r := Scan(f, bytes[size..]);
          r.(frames := [bytes[..size]] + r.frames)
  }

  // ---------------------------------------------------------------- what a correct split is

  predicate IsFrame(f: Format, frame: seq<byte>) {
    |frame| >= HeaderSize(f) && Inspect(f, frame) == Frame(|frame|)
  }

  /** Why reading stops in front of these bytes. */
  predicate StopsAt(f: Format, rest: seq<byte>, end: End) {
    match end
    case Waiting =>
      |rest| >= HeaderSize(f) ==> Inspect(f, rest).Frame? && Inspect(f, rest).size > |rest|
    case Rejected => |rest| >= HeaderSize(f) && Inspect(f, rest).Reject?
    case Stuck => |rest| >= HeaderSize(f) && Inspect(f, rest).Undefined?
  }

  /** r cuts bytes into complete frames, in order and with nothing lost, and stops only where it has to. */
  ghost predicate Splits(f: Format, bytes: seq<byte>, r: Scanned) {
    && bytes == Flat(r.frames) + r.rest
    && (forall i :: 0 <= i < |r.frames| ==> IsFrame(f, r.frames[i]))
    && StopsAt(f, r.rest, r.end)
  }

  lemma {:induction false} ScanSplits(f: Format, bytes: seq<byte>)
    ensures Splits(f, bytes, Scan(f, bytes))
    decreases |bytes|
  {
    if |bytes| >= HeaderSize(f) && Inspect(f, bytes).Frame? && Inspect(f, bytes).size <= |bytes| {
      var n := Inspect(f, bytes).size;
      var r := Scan(f, bytes[n..]);
      ScanSplits(f, bytes[n..]);
      assert bytes == bytes[..n] + bytes[n..];
      InspectPrefix(f, bytes[..n], bytes[n..]);
      assert Flat([bytes[..n]] + r.frames) == bytes[..n] + Flat(r.frames);
    }
  }

  /** There is only one way to split a stream. */
  lemma {:induction false} SplitUnique(f: Format, bytes: seq<byte>, r: Scanned)
    requires Splits(f, bytes, r)
    ensures r == Scan(f, bytes)
    decreases |r.frames|
  {
    hide Inspect;
    if r.frames == [] {
      assert bytes == r.rest;
    } else {
      var h, t := r.frames[0], r.frames[1..];
      var tail := Flat(t) + r.rest;
      assert bytes == h + tail;
      InspectPrefix(f, h, tail);
      assert bytes[..|h|] == h && bytes[|h|..] == tail;
      SplitUnique(f, tail, r.(frames := t));
      assert r.frames == [h] + t;
    }
  }

  /** Scanning a longer stream continues from the residue of the shorter one. */
  lemma ScanContinues(f: Format, a: seq<byte>, b: seq<byte>)
    ensures var r := Scan(f, a);
            Scan(f, a + b) == if r.end.Waiting? then
                                var t := Scan(f, r.rest + b); t.(frames := r.frames + t.frames)
                              else r.(rest := r.rest + b)
  {
    hide Inspect, Scan;
    var r := Scan(f, a);
    ScanSplits(f, a);
    if r.end.Waiting? {
      var t := Scan(f, r.rest + b);
      ScanSplits(f, r.rest + b);
      FlatAppend(r.frames, t.frames);
      assert a + b == Flat(r.frames) + (r.rest + b);
      SplitUnique(f, a + b, t.(frames := r.frames + t.frames));
    } else {
      assert a + b == Flat(r.frames) + (r.rest + b);
      InspectPrefix(f, r.rest, b);
      SplitUnique(f, a + b, r.(rest := r.rest + b));
    }
  }

  // ---------------------------------------------------------------- a connection fed in pieces

  datatype Status = Open | Closed | Undefinedness

  /** Receiving side of a connection: unread bytes, status, and the frames handed to the callback. */
  datatype Stream = Stream(buffer: seq<byte>, status: Status, delivered: seq<seq<byte>>)

  const FRESH := Stream([], Open, [])

  predicate AnyCloses(closes: seq<byte> -> bool, frames: seq<seq<byte>>) {
    exists i :: 0 <= i < |frames| && closes(frames[i])
  }

  /** A read event: append the chunk, run the loop, and apply what the callback and the loop decide.
      The loop itself goes on after a callback has closed the connection; later reads do not happen. */
  function OnRead(f: Format, closes: seq<byte> -> bool, s: Stream, chunk: seq<byte>): Stream {
    if !s.status.Open? then s
    else
      var r := Scan(f, s.buffer + chunk);
      Stream(if r.end.Waiting? then r.rest else s.buffer + chunk,
             if r.end.Stuck? then Undefinedness
             else if r.end.Rejected? || AnyCloses(closes, r.frames) then Closed else Open,
             s.delivered + r.frames)
  }

  function Feed(f: Format, closes: seq<byte> -> bool, s: Stream, chunks: seq<seq<byte>>): Stream
    decreases |chunks|
  {
    if chunks == [] then s else Feed(f, closes, OnRead(f, closes, s, chunks[0]), chunks[1..])
  }

  /** Index of the first frame on which the callback closes the connection, or their number. */
  function FirstCloser(closes: seq<byte> -> bool, frames: seq<seq<byte>>): (k: nat)
    ensures k <= |frames|
    ensures k < |frames| ==> closes(frames[k])
    ensures forall i :: 0 <= i < k ==> !closes(frames[i])
  {
    if frames == [] || closes(frames[0]) then 0 else 1 + FirstCloser(closes, frames[1..])
  }

  /** The state after some reads, against one scan of all bytes fed so far. */
  ghost predicate Tracks(f: Format, closes: seq<byte> -> bool, s: Stream, fed: seq<byte>) {
    var w := Scan(f, fed);
    && s.delivered <= w.frames
    && (s.status.Open? ==>
          s.delivered == w.frames && w.end.Waiting? && s.buffer == w.rest && !AnyCloses(closes, w.frames))
    && (s.status.Closed? ==> AnyCloses(closes, s.delivered) || (s.delivered == w.frames && w.end.Rejected?))
    && (s.status.Undefinedness? ==> s.delivered == w.frames && w.end.Stuck?)
  }

  lemma OnReadTracks(f: Format, closes: seq<byte> -> bool, s: Stream, fed: seq<byte>, chunk: seq<byte>)
    requires Tracks(f, closes, s, fed)
    ensures Tracks(f, closes, OnRead(f, closes, s, chunk), fed + chunk)
  {
    hide Scan;
    ScanContinues(f, fed, chunk);
    var w, t := Scan(f, fed), OnRead(f, closes, s, chunk);
    if s.status.Open? {
      var r := Scan(f, s.buffer + chunk);
      assert t.delivered == w.frames + r.frames;
      if AnyCloses(closes, r.frames) {
        var i :| 0 <= i < |r.frames| && closes(r.frames[i]);
        assert closes(t.delivered[|w.frames| + i]);
      }
      if t.status.Open? {
        forall i | 0 <= i < |t.delivered| ensures !closes(t.delivered[i]) {
          assert t.delivered[i] == if i < |w.frames| then w.frames[i] else r.frames[i - |w.frames|];
        }
      }
    }
  }

  lemma {:induction false} FeedTracks(f: Format, closes: seq<byte> -> bool, s: Stream, fed: seq<byte>,
                                      chunks: seq<seq<byte>>)
    requires Tracks(f, closes, s, fed)
    ensures Tracks(f, closes, Feed(f, closes, s, chunks), fed + Flat(chunks))
    decreases |chunks|
  {
    hide Tracks, OnRead;
    if chunks == [] {
      assert fed + Flat(chunks) == fed;
    } else {
      OnReadTracks(f, closes, s, fed, chunks[0]);
      FeedTracks(f, closes, OnRead(f, closes, s, chunks[0]), fed + chunks[0], chunks[1..]);
      assert fed + Flat(chunks) == fed + chunks[0] + Flat(chunks[1..]);
    }
  }

  lemma FeedFromFresh(f: Format, closes: seq<byte> -> bool, chunks: seq<seq<byte>>)
    ensures Tracks(f, closes, Feed(f, closes, FRESH, chunks), Flat(chunks))
  {
    assert [] + Flat(chunks) == Flat(chunks);
    FeedTracks(f, closes, FRESH, [], chunks);
  }

  /** However a stream is cut: delivery is a prefix of what one read of the whole would deliver and reaches at
      least the first frame whose callback closes, and the connection stays open in the same cases. */
  lemma AnyCut(f: Format, closes: seq<byte> -> bool, chunks: seq<seq<byte>>)
    ensures var whole := OnRead(f, closes, FRESH, Flat(chunks));
            var s := Feed(f, closes, FRESH, chunks);
            && s.delivered <= whole.delivered
            && (s.delivered == whole.delivered || FirstCloser(closes, whole.delivered) < |s.delivered|)
            && (s.status.Open? <==> whole.status.Open?)
  {
    hide Scan, Feed, Flat;
    var bytes := Flat(chunks);
    FeedFromFresh(f, closes, chunks);
    assert [] + bytes == bytes;
    var s, w := Feed(f, closes, FRESH, chunks), Scan(f, bytes);
    if AnyCloses(closes, s.delivered) {
      var i :| 0 <= i < |s.delivered| && closes(s.delivered[i]);
      assert s.delivered[i] == w.frames[i];
      assert FirstCloser(closes, w.frames) <= i;
    }
  }

  /** With a callback that never closes, every cut gives exactly the result of one read. */
  lemma FragmentationIndependence(f: Format, chunks: seq<seq<byte>>)
    ensures var never := (frame: seq<byte>) => false;
            var s, whole := Feed(f, never, FRESH, chunks), OnRead(f, never, FRESH, Flat(chunks));
            && s.delivered == whole.delivered && s.status == whole.status
            && (s.status.Open? ==> s.buffer == whole.buffer)
  {
    hide Scan, Feed, Flat;
    var never := (frame: seq<byte>) => false;
    FeedFromFresh(f, never, chunks);
    assert [] + Flat(chunks) == Flat(chunks);
  }

  /** With a callback that may close, delivery is the same for every cut exactly when it closes on no frame
      that another frame follows. */
  lemma CutIndependentExactly(f: Format, closes: seq<byte> -> bool, bytes: seq<byte>)
    ensures var whole := OnRead(f, closes, FRESH, bytes).delivered;
            (forall chunks: seq<seq<byte>> :: Flat(chunks) == bytes ==>
             Feed(f, closes, FRESH, chunks).delivered == whole)
            <==> FirstCloser(closes, whole) + 1 >= |whole|
  {
    var whole := OnRead(f, closes, FRESH, bytes).delivered;
    var k := FirstCloser(closes, whole);
    forall chunks: seq<seq<byte>> | Flat(chunks) == bytes && k + 1 >= |whole|
      ensures Feed(f, closes, FRESH, chunks).delivered == whole
    {
      AnyCut(f, closes, chunks);
    }
    if k + 1 < |whole| {
      var chunks := CutAfterCloser(f, closes, bytes, k);
      assert Flat(chunks) == bytes && |Feed(f, closes, FRESH, chunks).delivered| == k + 1;
    }
  }

  lemma FeedTwo(f: Format, closes: seq<byte> -> bool, s: Stream, a: seq<byte>, b: seq<byte>)
    ensures Flat([a, b]) == a + b
    ensures Feed(f, closes, s, [a, b]) == OnRead(f, closes, OnRead(f, closes, s, a), b)
  {
    hide OnRead;
    var t := OnRead(f, closes, s, a);
    assert [a, b][1..] == [b] && [b][1..] == [];
    assert Feed(f, closes, t, [b]) == Feed(f, closes, OnRead(f, closes, t, b), []);
    assert Flat([b]) == b + Flat([]);
  }

  lemma ScanFront(f: Format, bytes: seq<byte>, n: nat)
    requires n <= |Scan(f, bytes).frames|
    ensures var w := Scan(f, bytes);
            Scan(f, Flat(w.frames[..n])) == Scanned(w.frames[..n], [], Waiting)
            && bytes == Flat(w.frames[..n]) + (Flat(w.frames[n..]) + w.rest)
  {
    hide Inspect, Scan;
    var w := Scan(f, bytes);
    ScanSplits(f, bytes);
    FlatAppend(w.frames[..n], w.frames[n..]);
    assert w.frames == w.frames[..n] + w.frames[n..];
    var a := Flat(w.frames[..n]);
    assert a == a + [];
    SplitUnique(f, a, Scanned(w.frames[..n], [], Waiting));
  }

  lemma CutAfterCloser(f: Format, closes: seq<byte> -> bool, bytes: seq<byte>, k: nat) returns (chunks: seq<seq<byte>>)
    requires var whole := OnRead(f, closes, FRESH, bytes).delivered; k < |whole| && closes(whole[k])
    ensures Flat(chunks) == bytes && |Feed(f, closes, FRESH, chunks).delivered| == k + 1
  {
    hide Scan;
    assert [] + bytes == bytes;
    var w := Scan(f, bytes);
    ScanFront(f, bytes, k + 1);
    var front := w.frames[..k + 1];
    var a, b := Flat(front), Flat(w.frames[k + 1..]) + w.rest;
    assert [] + a == a;
    FeedTwo(f, closes, FRESH, a, b);
    assert closes(front[k]);
    chunks := [a, b];
  }
}
