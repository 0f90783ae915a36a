/** Bytes, little-endian words and byte-string helpers shared by the wire formats. */
module Bytes {

  newtype byte = x: int | 0 <= x < 256

  const TWO_TO_THE_32 := 0x1_0000_0000

  /** uint32_t */
  type u32 = x: int | 0 <= x < TWO_TO_THE_32

  datatype Option<+T> = None | Some(value: T)

  /** The four bytes of a 32-bit word, least significant first. */
  function LE32(x: u32): (s: seq<byte>)
    ensures |s| == 4
  {
    [(x % 256) as byte, (x / 256 % 256) as byte, (x / 65536 % 256) as byte, (x / 16777216) as byte]
  }

  function Word32(s: seq<byte>): u32
    requires |s| == 4
  {
    s[0] as int + 256 * (s[1] as int) + 65536 * (s[2] as int) + 16777216 * (s[3] as int)
  }

  lemma Word32OfLE32(x: u32)
    ensures Word32(LE32(x)) == x
  {
    assert x == x % 256 + 256 * (x / 256 % 256) + 65536 * (x / 65536 % 256) + 16777216 * (x / 16777216);
  }

  lemma Word32Injective(s: seq<byte>, t: seq<byte>)
    requires |s| == |t| == 4
    requires Word32(s) == Word32(t)
    ensures s == t
  {
    Word32Digits(s);
    Word32Digits(t);
  }

  lemma Word32Digits(s: seq<byte>)
    requires |s| == 4
    ensures LE32(Word32(s)) == s
  {
    var w := Word32(s);
    assert w == s[0] as int + 256 * (s[1] as int + 256 * (s[2] as int + 256 * (s[3] as int)));
    assert w % 256 == s[0] as int && w / 256 == s[1] as int + 256 * (s[2] as int + 256 * (s[3] as int));
    assert w / 256 % 256 == s[1] as int;
    assert w / 65536 == s[2] as int + 256 * (s[3] as int);
  }

  /** An int32_t as its two's complement word, and back. */
  function Unsigned(n: int): u32 { n % TWO_TO_THE_32 }

  function Signed(x: u32): int { if x < 0x8000_0000 then x else x - TWO_TO_THE_32 }

  /** The two bytes of a 16-bit field, and its unsigned and two's complement readings. */
  function LE16(n: int): (s: seq<byte>)
    ensures |s| == 2
  {
    [(n % 256) as byte, (n / 256 % 256) as byte]
  }

  function Word16(s: seq<byte>): (n: int)
    requires |s| == 2
    ensures 0 <= n < 65536
  {
    s[0] as int + 256 * (s[1] as int)
  }

  function Signed16(s: seq<byte>): int
    requires |s| == 2
  {
    if Word16(s) < 0x8000 then Word16(s) else Word16(s) - 0x1_0000
  }

  lemma Word16OfLE16(n: int)
    ensures 0 <= n < 65536 ==> Word16(LE16(n)) == n
    ensures -0x8000 <= n < 0x8000 ==> Signed16(LE16(n)) == n
  {
  }

  /** Back-to-back concatenation. */
  function Flat(parts: seq<seq<byte>>): seq<byte> {
    if parts == [] then [] else parts[0] + Flat(parts[1..])
  }

  lemma {:induction false} FlatAppend(a: seq<seq<byte>>, b: seq<seq<byte>>)
    ensures Flat(a + b) == Flat(a) + Flat(b)
  {
    if a == [] {
      assert a + b == b;
    } else {
      assert (a + b)[1..] == a[1..] + b;
      FlatAppend(a[1..], b);
    }
  }

  /** What a C string function sees: the bytes before the first NUL. */
  function CString(s: seq<byte>): (r: seq<byte>)
    ensures |r| <= |s| && r == s[..|r|]
    ensures 0 !in r
    ensures |r| == |s| || s[|r|] == 0
  {
    if s == [] || s[0] == 0 then [] else [s[0]] + CString(s[1..])
  }
}
