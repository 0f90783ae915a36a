/** Messages: the fixed-layout record, its serialised form, and the wire reading of a frame. */
module Messages {
  import opened Bytes
  import opened Addressing

  const MAX_DATA_SIZE := 0x1_0000 - 100
  const MIN_SIZE := 24
  const MAX_SIZE := MIN_SIZE + MAX_DATA_SIZE
  const MAGIC: u32 := 0x87654321

  /** The value of a message: its header fields and the bytes that follow the header. */
  datatype Message = Message(from: Address, to: Address, magic: u32, len: int, data: seq<byte>)

  const DEFAULT := Message(Address(0, 0), Address(0, 0), MAGIC, 0, [])

  /** What Default and SetData produce. */
  predicate WellBuilt(m: Message) {
    m.magic == MAGIC && m.len == |m.data| <= MAX_DATA_SIZE
  }

  /** Well built, and short enough for the receiving codec. */
  predicate Framable(m: Message) {
    WellBuilt(m) && m.len < MAX_DATA_SIZE
  }

  function Size(m: Message): int { MIN_SIZE + m.len }

  function Header(m: Message): (h: seq<byte>)
    ensures |h| == MIN_SIZE
  {
    LE32(m.from.node) + LE32(m.from.client) + LE32(m.to.node) + LE32(m.to.client) + LE32(m.magic)
        + LE32(Unsigned(m.len))
  }

  function Encode(m: Message): (bytes: seq<byte>)
    ensures |bytes| == MIN_SIZE + |m.data|
  {
    Header(m) + m.data
  }

  function MagicOf(frame: seq<byte>): u32
    requires |frame| >= MIN_SIZE
  {
    Word32(frame[16..20])
  }

  function LengthOf(frame: seq<byte>): int
    requires |frame| >= MIN_SIZE
  {
    Signed(Word32(frame[20..24]))
  }

  /** A frame read through a Message pointer. */
  function Decode(frame: seq<byte>): Message
    requires |frame| >= MIN_SIZE
  {
    Message(Address(Word32(frame[0..4]), Word32(frame[4..8])), Address(Word32(frame[8..12]), Word32(frame[12..16])),
            MagicOf(frame), LengthOf(frame), frame[24..])
  }

  lemma DecodeEncode(m: Message)
    requires -0x8000_0000 <= m.len < 0x8000_0000
    ensures Decode(Encode(m)) == m
  {
    hide Word32, LE32;
    var b := Encode(m);
    assert b[0..4] == LE32(m.from.node) && b[4..8] == LE32(m.from.client);
    assert b[8..12] == LE32(m.to.node) && b[12..16] == LE32(m.to.client);
    assert b[16..20] == LE32(m.magic) && b[20..24] == LE32(Unsigned(m.len)) && b[24..] == m.data;
    Word32OfLE32(m.from.node); Word32OfLE32(m.from.client); Word32OfLE32(m.to.node); Word32OfLE32(m.to.client);
    Word32OfLE32(m.magic); Word32OfLE32(Unsigned(m.len));
  }

  /** One message, byte by byte: source, destination, magic number and length, each little-endian, then the data. */
  lemma KnownBytes()
    ensures Encode(Message(Address(1, 2), Address(3, 0x04050607), MAGIC, 2, [0x68, 0x69]))
            == [1, 0, 0, 0, 2, 0, 0, 0, 3, 0, 0, 0, 7, 6, 5, 4, 0x21, 0x43, 0x65, 0x87, 2, 0, 0, 0, 0x68, 0x69]
    ensures WellBuilt(Message(Address(1, 2), Address(3, 0x04050607), MAGIC, 2, [0x68, 0x69]))
  {
    assert LE32(1) == [1, 0, 0, 0] && LE32(2) == [2, 0, 0, 0] && LE32(3) == [3, 0, 0, 0]
           && LE32(0x04050607) == [7, 6, 5, 4];
    assert LE32(MAGIC) == [0x21, 0x43, 0x65, 0x87] && LE32(Unsigned(2)) == [2, 0, 0, 0];
  }

  /** The message object of the client library and the daemon, a plain record updated in place. */
  class MessageRecord {
    var from: Address
    var to: Address
    var magic: u32
    var len: int
    const data: array<byte>

    ghost predicate Valid()
      reads this, data
    {
      data.Length == MAX_DATA_SIZE && 0 <= len <= MAX_DATA_SIZE
    }

    ghost function Value(): Message
      reads this, data
      requires Valid()
    {
      Message(from, to, magic, len, data[..len])
    }

    constructor Default()
      ensures Valid() && fresh(data) && Value() == DEFAULT
    {
      from := Address(0, 0);
      to := Address(0, 0);
      magic := MAGIC;
      len := 0;
      data := new byte[MAX_DATA_SIZE];
    }

    method SetData(bytes: seq<byte>) returns (ok: bool)
      requires Valid()
      modifies this`len, data
      ensures Valid()
      ensures ok <==> |bytes| <= MAX_DATA_SIZE
      ensures Value() == if ok then old(Value()).(len := |bytes|, data := bytes) else old(Value())
    {
      if |bytes| > MAX_DATA_SIZE {
        return false;
      }
      len := |bytes|;
      forall i | 0 <= i < |bytes| {
        data[i] := bytes[i];
      }
      assert data[..len] == bytes;
      ok := true;
    }

    method SetSourceAddress(a: Address)
      requires Valid()
      modifies this`from
      ensures Valid() && Value() == old(Value()).(from := a)
    {
      from := a;
    }

    method SetRemoteAddress(a: Address)
      requires Valid()
      modifies this`to
      ensures Valid() && Value() == old(Value()).(to := a)
    {
      to := a;
    }

    method Clear()
      requires Valid()
      modifies this`from, this`to, this`len
      ensures Valid() && Value() == DEFAULT.(magic := old(magic))
    {
      from, to, len := Address(0, 0), Address(0, 0), 0;
    }

    method Serialize() returns (bytes: seq<byte>)
      requires Valid()
      ensures bytes == Encode(Value()) && |bytes| == Size(Value())
    {
      bytes := LE32(from.node) + LE32(from.client) + LE32(to.node) + LE32(to.client) + LE32(magic) + LE32(Unsigned(len))
             + data[..len];
    }
  }

  /** A message taken through Default, SetData and the address setters is well built whatever the order. */
  method BuildMessage(from: Address, to: Address, bytes: seq<byte>) returns (r: MessageRecord, ok: bool)
    ensures fresh(r) && fresh(r.data) && r.Valid() && WellBuilt(r.Value())
    ensures r.Value().from == from && r.Value().to == to
    ensures r.Value().data == if ok then bytes else []
    ensures ok <==> |bytes| <= MAX_DATA_SIZE
  {
    r := new MessageRecord.Default();
    r.SetRemoteAddress(to);
    ok := r.SetData(bytes);
    r.SetSourceAddress(from);
  }
}
