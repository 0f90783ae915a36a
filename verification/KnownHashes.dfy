/** Published values of MurmurHash3 x86 32-bit, which fix its constants, its steps and their order. */
module KnownHashes {
  import opened Bytes
  import opened Bits
  import opened Addressing

  // ---------------------------------------------------------------- words by hexadecimal digits

  datatype Hex = Hex(b3: bool, b2: bool, b1: bool, b0: bool)

  const H0 := Hex(false, false, false, false)
  const H1 := Hex(false, false, false, true)
  const H2 := Hex(false, false, true, false)
  const H3 := Hex(false, false, true, true)
  const H4 := Hex(false, true, false, false)
  const H5 := Hex(false, true, false, true)
  const H6 := Hex(false, true, true, false)
  const H7 := Hex(false, true, true, true)
  const H8 := Hex(true, false, false, false)
  const H9 := Hex(true, false, false, true)
  const HA := Hex(true, false, true, false)
  const HB := Hex(true, false, true, true)
  const HC := Hex(true, true, false, false)
  const HD := Hex(true, true, false, true)
  const HE := Hex(true, true, true, false)
  const HF := Hex(true, true, true, true)

  datatype Word = Word(h7: Hex, h6: Hex, h5: Hex, h4: Hex, h3: Hex, h2: Hex, h1: Hex, h0: Hex)

  function HexValue(h: Hex): nat {
    (if h.b0 then 1 else 0) + (if h.b1 then 2 else 0) + (if h.b2 then 4 else 0) + if h.b3 then 8 else 0
  }

  function Value(w: Word): nat {
    HexValue(w.h0) + 0x10 * HexValue(w.h1) + 0x100 * HexValue(w.h2) + 0x1000 * HexValue(w.h3)
    + 0x1_0000 * HexValue(w.h4) + 0x10_0000 * HexValue(w.h5) + 0x100_0000 * HexValue(w.h6)
        + 0x1000_0000 * HexValue(w.h7)
  }

  function HexXor(a: Hex, b: Hex): Hex { Hex(a.b3 != b.b3, a.b2 != b.b2, a.b1 != b.b1, a.b0 != b.b0) }

  function WordXor(a: Word, b: Word): Word {
    Word(HexXor(a.h7, b.h7), HexXor(a.h6, b.h6), HexXor(a.h5, b.h5), HexXor(a.h4, b.h4),
         HexXor(a.h3, b.h3), HexXor(a.h2, b.h2), HexXor(a.h1, b.h1), HexXor(a.h0, b.h0))
  }

  lemma XorBit(x: nat, y: nat, p: bool, q: bool)
    ensures Xor(2 * x + Digit(p), 2 * y + Digit(q)) == 2 * Xor(x, y) + Digit(p != q)
  {
  }

  lemma XorTwoBits(x: nat, y: nat, p: bool, q: bool, r: bool, t: bool)
    ensures Xor(4 * x + 2 * Digit(p) + Digit(r), 4 * y + 2 * Digit(q) + Digit(t))
            == 4 * Xor(x, y) + 2 * Digit(p != q) + Digit(r != t)
  {
    hide Xor;
    XorBit(x, y, p, q);
    var x', y' := 2 * x + Digit(p), 2 * y + Digit(q);
    XorBit(x', y', r, t);
    assert 2 * x' == 4 * x + 2 * Digit(p) && 2 * y' == 4 * y + 2 * Digit(q);
  }

  lemma XorHex(x: nat, y: nat, a: Hex, b: Hex)
    ensures Xor(HexValue(a) + 0x10 * x, HexValue(b) + 0x10 * y) == HexValue(HexXor(a, b)) + 0x10 * Xor(x, y)
  {
    HexBits(a);
    HexBits(b);
    XorBits(a, b);
    hide Xor, Digit, HexValue, HexXor;
    XorTwoBits(x, y, a.b3, b.b3, a.b2, b.b2);
    var x', y' := 4 * x + 2 * Digit(a.b3) + Digit(a.b2), 4 * y + 2 * Digit(b.b3) + Digit(b.b2);
    XorTwoBits(x', y', a.b1, b.b1, a.b0, b.b0);
    assert 4 * x' + 2 * Digit(a.b1) + Digit(a.b0) == HexValue(a) + 0x10 * x;
    assert 4 * y' + 2 * Digit(b.b1) + Digit(b.b0) == HexValue(b) + 0x10 * y;
  }

  lemma HexBits(h: Hex)
    ensures HexValue(h) == 8 * Digit(h.b3) + 4 * Digit(h.b2) + 2 * Digit(h.b1) + Digit(h.b0)
  {
  }

  lemma XorBits(a: Hex, b: Hex)
    ensures HexValue(HexXor(a, b))
            == 8 * Digit(a.b3 != b.b3) + 4 * Digit(a.b2 != b.b2) + 2 * Digit(a.b1 != b.b1) + Digit(a.b0 != b.b0)
  {
  }

  /** The digits from number i up, as a number. */
  function Upper(w: Word, i: nat): nat
    decreases 8 - i
  {
    if i >= 8 then 0 else HexValue(HexAt(w, i)) + 0x10 * Upper(w, i + 1)
  }

  function HexAt(w: Word, i: nat): Hex {
    if i == 0 then w.h0 else if i == 1 then w.h1 else if i == 2 then w.h2 else if i == 3 then w.h3
    else if i == 4 then w.h4 else if i == 5 then w.h5 else if i == 6 then w.h6 else w.h7
  }

  lemma {:induction false} XorUpper(a: Word, b: Word, i: nat)
    ensures Xor(Upper(a, i), Upper(b, i)) == Upper(WordXor(a, b), i)
    decreases 8 - i
  {
    hide Xor, HexValue, HexXor;
    if i >= 8 {
      XorZero(0);
    } else {
      XorUpper(a, b, i + 1);
      XorHex(Upper(a, i + 1), Upper(b, i + 1), HexAt(a, i), HexAt(b, i));
    }
  }

  lemma UpperValue(w: Word)
    ensures Upper(w, 0) == Value(w)
  {
    hide HexValue;
    assert Upper(w, 8) == 0;
    assert Upper(w, 6) == HexValue(w.h6) + 0x10 * HexValue(w.h7);
    assert Upper(w, 4) == HexValue(w.h4) + 0x10 * HexValue(w.h5) + 0x100 * Upper(w, 6);
    assert Upper(w, 2) == HexValue(w.h2) + 0x10 * HexValue(w.h3) + 0x100 * Upper(w, 4);
  }

  lemma XorWord(a: Word, b: Word)
    ensures Xor(Value(a), Value(b)) == Value(WordXor(a, b))
  {
    hide *;
    XorUpper(a, b, 0);
    UpperValue(a);
    UpperValue(b);
    UpperValue(WordXor(a, b));
  }

  lemma XorAt(x: u32, y: u32, z: u32, a: Word, b: Word)
    requires Value(a) == x && Value(b) == y && Value(WordXor(a, b)) == z
    ensures Xor32(x, y) == z
  {
    hide Xor, Value;
    XorWord(a, b);
  }

  lemma {:induction false} ShrDivides(x: nat, n: nat)
    ensures Shr(x, n + 1) == Shr(x, n) / 2
    decreases n
  {
    if n > 0 { ShrDivides(x / 2, n - 1); }
  }

  lemma ShrBy4(x: nat)
    ensures Shr(x, 1) == x / 2 && Shr(x, 4) == x / 16
  {
    ShrDivides(x, 0); ShrDivides(x, 1); ShrDivides(x, 2); ShrDivides(x, 3);
  }

  lemma ShrBy13And16(x: u32)
    ensures Shr(x, 13) == x / 0x2000 && Shr(x, 16) == x / 0x1_0000
  {
    hide Shr;
    ShrBy4(x); ShrBy4(x / 0x10); ShrBy4(x / 0x100); ShrBy4(x / 0x1000);
    ShrShr(x, 4, 4); ShrShr(x, 8, 4); ShrShr(x, 12, 4); ShrShr(x, 12, 1);
    assert x / 0x10 / 16 == x / 0x100 && x / 0x100 / 16 == x / 0x1000;
    assert x / 0x1000 / 16 == x / 0x1_0000 && x / 0x1000 / 2 == x / 0x2000;
  }

  // ---------------------------------------------------------------- steps of the hash on given words

  lemma WordOf(s: seq<byte>, w: u32)
    requires |s| == 4
    requires w == s[0] as int + 0x100 * (s[1] as int) + 0x1_0000 * (s[2] as int) + 0x100_0000 * (s[3] as int)
    ensures Word32(s) == w
  {
  }

  function Nuls(n: nat): seq<byte> { seq(n, i => 0) }

  lemma PadThree(b0: byte, b1: byte, b2: byte, w: u32)
    requires w == b0 as int + 0x100 * (b1 as int) + 0x1_0000 * (b2 as int)
    ensures Word32([b0, b1, b2] + Nuls(1)) == w
  {
    hide Word32;
    WordOf([b0, b1, b2, 0], w);
    assert [b0, b1, b2] + Nuls(1) == [b0, b1, b2, 0];
  }

  lemma ScrambleAt(word: u32, a: u32, b: u32, c: u32)
    requires word * 0xcc9e2d51 % TWO_TO_THE_32 == a && a % 0x2_0000 * 0x8000 + a / 0x2_0000 == b
    requires b * 0x1b873593 % TWO_TO_THE_32 == c
    ensures Scramble(word) == c
  {
  }

  lemma BlockAt(state: u32, word: u32, a: u32, b: u32, c: u32, x: u32, r: u32, after: u32)
    requires word * 0xcc9e2d51 % TWO_TO_THE_32 == a && a % 0x2_0000 * 0x8000 + a / 0x2_0000 == b
    requires b * 0x1b873593 % TWO_TO_THE_32 == c && Xor32(state, c) == x
    requires x % 0x8_0000 * 0x2000 + x / 0x8_0000 == r && (r * 5 + 0xe6546b64) % TWO_TO_THE_32 == after
    ensures Block(state, word) == after
  {
    hide Xor, Scramble;
    ScrambleAt(word, a, b, c);
    AddAfter(r);
  }

  lemma AddAfter(r: u32)
    ensures Add32(Mul32(r, 5), N) == (r * 5 + N) % TWO_TO_THE_32
  {
  }

  lemma TailAt(state: u32, tail: seq<byte>, word: u32, a: u32, b: u32, c: u32, after: u32)
    requires 0 < |tail| < 4 && Word32(tail + Nuls(4 - |tail|)) == word
    requires word * 0xcc9e2d51 % TWO_TO_THE_32 == a && a % 0x2_0000 * 0x8000 + a / 0x2_0000 == b
    requires b * 0x1b873593 % TWO_TO_THE_32 == c && Xor32(state, c) == after
    ensures MixTail(state, tail) == after
  {
    hide Xor, Scramble, Word32;
    ScrambleAt(word, a, b, c);
    assert tail + Nuls(4 - |tail|) == tail + seq(4 - |tail|, i => 0);
  }

  lemma NoTail(state: u32)
    ensures MixTail(state, []) == state
  {
  }

  lemma FinishAt(state: u32, len: u32, x: u32, a: u32, b: u32, c: u32, d: u32, hash: u32)
    requires Xor32(state, len) == x && Xor32(x, x / 0x1_0000) == a && a * 0x85ebca6b % TWO_TO_THE_32 == b
    requires Xor32(b, b / 0x2000) == c && c * 0xc2b2ae35 % TWO_TO_THE_32 == d && Xor32(d, d / 0x1_0000) == hash
    ensures Finalise(Xor32(state, len)) == hash
  {
    hide Xor, Shr;
    ShrBy13And16(x);
    ShrBy13And16(b);
    ShrBy13And16(d);
  }

  // ---------------------------------------------------------------- the values

  lemma EmptySeedOneEnd()
    ensures Finalise(Xor32(0x00000001, 0)) == 0x514e28b7
  {
    hide Xor, Finalise;
    XorAt(0x00000001, 0x00000000, 0x00000001, Word(H0, H0, H0, H0, H0, H0, H0, H1),
          Word(H0, H0, H0, H0, H0, H0, H0, H0));
    XorAt(0x00000001, 0x00000000, 0x00000001, Word(H0, H0, H0, H0, H0, H0, H0, H1),
          Word(H0, H0, H0, H0, H0, H0, H0, H0));
    XorAt(0x85ebca6b, 0x00042f5e, 0x85efe535, Word(H8, H5, HE, HB, HC, HA, H6, HB),
          Word(H0, H0, H0, H4, H2, HF, H5, HE));
    XorAt(0x514e79f9, 0x0000514e, 0x514e28b7, Word(H5, H1, H4, HE, H7, H9, HF, H9),
          Word(H0, H0, H0, H0, H5, H1, H4, HE));
    FinishAt(0x00000001, 0, 0x00000001, 0x00000001, 0x85ebca6b, 0x85efe535, 0x514e79f9, 0x514e28b7);
  }

  /** Published value: no bytes, seed 1. */
  lemma EmptySeedOne()
    ensures Murmur3([], 0x00000001) == 0x514e28b7
  {
    hide Xor, Finalise, Block, MixTail;
    var key: seq<byte> := [];
    assert Tail(key) == [];
    NoTail(0x00000001);
    EmptySeedOneEnd();
  }

  lemma OneBlockBlocks()
    ensures AfterBlocks([0x21, 0x43, 0x65, 0x87], 1, 0x00000000) == 0xbb095db4
  {
    hide Xor, Block, Word32;
    var key: seq<byte> := [0x21, 0x43, 0x65, 0x87];
    assert AfterBlocks(key, 0, 0x00000000) == 0x00000000;
    assert key[0..4] == [0x21, 0x43, 0x65, 0x87];
    WordOf([0x21, 0x43, 0x65, 0x87], 0x87654321);
    XorZero(0x5082edee);
    BlockAt(0x00000000, 0x87654321, 0x5e350a71, 0x8538af1a, 0x5082edee, 0x5082edee, 0x5dbdca10, 0xbb095db4);
  }

  lemma OneBlockEnd()
    ensures Finalise(Xor32(0xbb095db4, 4)) == 0xf55b516b
  {
    hide Xor, Finalise;
    XorAt(0xbb095db4, 0x00000004, 0xbb095db0, Word(HB, HB, H0, H9, H5, HD, HB, H4),
          Word(H0, H0, H0, H0, H0, H0, H0, H4));
    XorAt(0xbb095db0, 0x0000bb09, 0xbb09e6b9, Word(HB, HB, H0, H9, H5, HD, HB, H0),
          Word(H0, H0, H0, H0, HB, HB, H0, H9));
    XorAt(0xe6046953, 0x00073023, 0xe6035970, Word(HE, H6, H0, H4, H6, H9, H5, H3),
          Word(H0, H0, H0, H7, H3, H0, H2, H3));
    XorAt(0xf55ba430, 0x0000f55b, 0xf55b516b, Word(HF, H5, H5, HB, HA, H4, H3, H0),
          Word(H0, H0, H0, H0, HF, H5, H5, HB));
    FinishAt(0xbb095db4, 4, 0xbb095db0, 0xbb09e6b9, 0xe6046953, 0xe6035970, 0xf55ba430, 0xf55b516b);
  }

  /** Published value: one block, no tail. */
  lemma OneBlock()
    ensures Murmur3([0x21, 0x43, 0x65, 0x87], 0x00000000) == 0xf55b516b
  {
    hide Xor, Finalise, Block, MixTail, AfterBlocks;
    var key: seq<byte> := [0x21, 0x43, 0x65, 0x87];
    OneBlockBlocks();
    assert Tail(key) == [];
    NoTail(0xbb095db4);
    OneBlockEnd();
  }

  lemma TailOfThreeTail()
    ensures MixTail(0x00000000, [0x21, 0x43, 0x65]) == 0x17a6636e
  {
    hide Xor, MixTail, Word32;
    PadThree(0x21, 0x43, 0x65, 0x00654321);
    XorZero(0x17a6636e);
    TailAt(0x00000000, [0x21, 0x43, 0x65], 0x00654321, 0xa7350a71, 0x8538d39a, 0x17a6636e, 0x17a6636e);
  }

  lemma TailOfThreeEnd()
    ensures Finalise(Xor32(0x17a6636e, 3)) == 0x7e4a8634
  {
    hide Xor, Finalise;
    XorAt(0x17a6636e, 0x00000003, 0x17a6636d, Word(H1, H7, HA, H6, H6, H3, H6, HE),
          Word(H0, H0, H0, H0, H0, H0, H0, H3));
    XorAt(0x17a6636d, 0x000017a6, 0x17a674cb, Word(H1, H7, HA, H6, H6, H3, H6, HD),
          Word(H0, H0, H0, H0, H1, H7, HA, H6));
    XorAt(0xe813fed9, 0x0007409f, 0xe814be46, Word(HE, H8, H1, H3, HF, HE, HD, H9),
          Word(H0, H0, H0, H7, H4, H0, H9, HF));
    XorAt(0x7e4af87e, 0x00007e4a, 0x7e4a8634, Word(H7, HE, H4, HA, HF, H8, H7, HE),
          Word(H0, H0, H0, H0, H7, HE, H4, HA));
    FinishAt(0x17a6636e, 3, 0x17a6636d, 0x17a674cb, 0xe813fed9, 0xe814be46, 0x7e4af87e, 0x7e4a8634);
  }

  /** Published value: a tail of three bytes. */
  lemma TailOfThree()
    ensures Murmur3([0x21, 0x43, 0x65], 0x00000000) == 0x7e4a8634
  {
    hide Xor, Finalise, Block, MixTail;
    var key: seq<byte> := [0x21, 0x43, 0x65];
    assert Tail(key) == [0x21, 0x43, 0x65];
    TailOfThreeTail();
    TailOfThreeEnd();
  }

  lemma TailOfTwoTail()
    ensures MixTail(0x00000000, [0x21, 0x43]) == 0xec900b60
  {
    hide Xor, MixTail, Word32;
    WordOf([0x21, 0x43, 0x00, 0x00], 0x00004321);
    assert [0x21, 0x43] + Nuls(2) == [0x21, 0x43, 0x00, 0x00];
    XorZero(0xec900b60);
    TailAt(0x00000000, [0x21, 0x43], 0x00004321, 0xc6400a71, 0x0538e320, 0xec900b60, 0xec900b60);
  }

  lemma TailOfTwoEnd()
    ensures Finalise(Xor32(0xec900b60, 2)) == 0xa0f7b07a
  {
    hide Xor, Finalise;
    XorAt(0xec900b60, 0x00000002, 0xec900b62, Word(HE, HC, H9, H0, H0, HB, H6, H0),
          Word(H0, H0, H0, H0, H0, H0, H0, H2));
    XorAt(0xec900b62, 0x0000ec90, 0xec90e7f2, Word(HE, HC, H9, H0, H0, HB, H6, H2),
          Word(H0, H0, H0, H0, HE, HC, H9, H0));
    XorAt(0xdcbbe626, 0x0006e5df, 0xdcbd03f9, Word(HD, HC, HB, HB, HE, H6, H2, H6),
          Word(H0, H0, H0, H6, HE, H5, HD, HF));
    XorAt(0xa0f7108d, 0x0000a0f7, 0xa0f7b07a, Word(HA, H0, HF, H7, H1, H0, H8, HD),
          Word(H0, H0, H0, H0, HA, H0, HF, H7));
    FinishAt(0xec900b60, 2, 0xec900b62, 0xec90e7f2, 0xdcbbe626, 0xdcbd03f9, 0xa0f7108d, 0xa0f7b07a);
  }

  /** Published value: a tail of two. */
  lemma TailOfTwo()
    ensures Murmur3([0x21, 0x43], 0x00000000) == 0xa0f7b07a
  {
    hide Xor, Finalise, Block, MixTail;
    var key: seq<byte> := [0x21, 0x43];
    assert Tail(key) == [0x21, 0x43];
    TailOfTwoTail();
    TailOfTwoEnd();
  }

  lemma TailOfOneTail()
    ensures MixTail(0x00000000, [0x21]) == 0xac5e5123
  {
    hide Xor, MixTail, Word32;
    WordOf([0x21, 0x00, 0x00, 0x00], 0x00000021);
    assert [0x21] + Nuls(3) == [0x21, 0x00, 0x00, 0x00];
    XorZero(0xac5e5123);
    TailAt(0x00000000, [0x21], 0x00000021, 0x6063d771, 0xebb8b031, 0xac5e5123, 0xac5e5123);
  }

  lemma TailOfOneEnd()
    ensures Finalise(Xor32(0xac5e5123, 1)) == 0x72661cf4
  {
    hide Xor, Finalise;
    XorAt(0xac5e5123, 0x00000001, 0xac5e5122, Word(HA, HC, H5, HE, H5, H1, H2, H3),
          Word(H0, H0, H0, H0, H0, H0, H0, H1));
    XorAt(0xac5e5122, 0x0000ac5e, 0xac5efd7c, Word(HA, HC, H5, HE, H5, H1, H2, H2),
          Word(H0, H0, H0, H0, HA, HC, H5, HE));
    XorAt(0x1c8bcad4, 0x0000e45e, 0x1c8b2e8a, Word(H1, HC, H8, HB, HC, HA, HD, H4),
          Word(H0, H0, H0, H0, HE, H4, H5, HE));
    XorAt(0x72666e92, 0x00007266, 0x72661cf4, Word(H7, H2, H6, H6, H6, HE, H9, H2),
          Word(H0, H0, H0, H0, H7, H2, H6, H6));
    FinishAt(0xac5e5123, 1, 0xac5e5122, 0xac5efd7c, 0x1c8bcad4, 0x1c8b2e8a, 0x72666e92, 0x72661cf4);
  }

  /** Published value: a tail of one. */
  lemma TailOfOne()
    ensures Murmur3([0x21], 0x00000000) == 0x72661cf4
  {
    hide Xor, Finalise, Block, MixTail;
    var key: seq<byte> := [0x21];
    assert Tail(key) == [0x21];
    TailOfOneTail();
    TailOfOneEnd();
  }

  lemma ThreeBlocksBlocks()
    ensures AfterBlocks([0x48, 0x65, 0x6c, 0x6c, 0x6f, 0x2c, 0x20, 0x77, 0x6f, 0x72, 0x6c, 0x64, 0x21], 3, 0x9747b28c)
            == 0x3bd692af
  {
    hide Xor, Block, Word32;
    var key: seq<byte> := [0x48, 0x65, 0x6c, 0x6c, 0x6f, 0x2c, 0x20, 0x77, 0x6f, 0x72, 0x6c, 0x64, 0x21];
    assert AfterBlocks(key, 0, 0x9747b28c) == 0x9747b28c;
    assert key[0..4] == [0x48, 0x65, 0x6c, 0x6c];
    WordOf([0x48, 0x65, 0x6c, 0x6c], 0x6c6c6548);
    XorAt(0x9747b28c, 0x0153080c, 0x9614ba80, Word(H9, H7, H4, H7, HB, H2, H8, HC),
          Word(H0, H1, H5, H3, H0, H8, H0, HC));
    BlockAt(0x9747b28c, 0x6c6c6548, 0x3e89b3c8, 0xd9e41f44, 0x0153080c, 0x9614ba80, 0x975012c2, 0xdae4c92e);
    assert key[4..8] == [0x6f, 0x2c, 0x20, 0x77];
    WordOf([0x6f, 0x2c, 0x20, 0x77], 0x77202c6f);
    XorAt(0xdae4c92e, 0x7d238cad, 0xa7c74583, Word(HD, HA, HE, H4, HC, H9, H2, HE),
          Word(H7, HD, H2, H3, H8, HC, HA, HD));
    BlockAt(0xdae4c92e, 0x77202c6f, 0x397f921f, 0xc90f9cbf, 0x7d238cad, 0xa7c74583, 0xe8b074f8, 0x71c6b43c);
    assert key[8..12] == [0x6f, 0x72, 0x6c, 0x64];
    WordOf([0x6f, 0x72, 0x6c, 0x64], 0x646c726f);
    XorAt(0x71c6b43c, 0xa9bc9655, 0xd87a2269, Word(H7, H1, HC, H6, HB, H4, H3, HC),
          Word(HA, H9, HB, HC, H9, H6, H5, H5));
    BlockAt(0x71c6b43c, 0x646c726f, 0xeaefb81f, 0xdc0ff577, 0xa9bc9655, 0xd87a2269, 0x444d3b0f, 0x3bd692af);
  }

  lemma ThreeBlocksTail()
    ensures MixTail(0x3bd692af, [0x21]) == 0x9788c38c
  {
    hide Xor, MixTail, Word32;
    WordOf([0x21, 0x00, 0x00, 0x00], 0x00000021);
    assert [0x21] + Nuls(3) == [0x21, 0x00, 0x00, 0x00];
    XorAt(0x3bd692af, 0xac5e5123, 0x9788c38c, Word(H3, HB, HD, H6, H9, H2, HA, HF),
          Word(HA, HC, H5, HE, H5, H1, H2, H3));
    TailAt(0x3bd692af, [0x21], 0x00000021, 0x6063d771, 0xebb8b031, 0xac5e5123, 0x9788c38c);
  }

  lemma ThreeBlocksEnd()
    ensures Finalise(Xor32(0x9788c38c, 13)) == 0x24884cba
  {
    hide Xor, Finalise;
    XorAt(0x9788c38c, 0x0000000d, 0x9788c381, Word(H9, H7, H8, H8, HC, H3, H8, HC),
          Word(H0, H0, H0, H0, H0, H0, H0, HD));
    XorAt(0x9788c381, 0x00009788, 0x97885409, Word(H9, H7, H8, H8, HC, H3, H8, H1),
          Word(H0, H0, H0, H0, H9, H7, H8, H8));
    XorAt(0xb98d39c3, 0x0005cc69, 0xb988f5aa, Word(HB, H9, H8, HD, H3, H9, HC, H3),
          Word(H0, H0, H0, H5, HC, HC, H6, H9));
    XorAt(0x24886832, 0x00002488, 0x24884cba, Word(H2, H4, H8, H8, H6, H8, H3, H2),
          Word(H0, H0, H0, H0, H2, H4, H8, H8));
    FinishAt(0x9788c38c, 13, 0x9788c381, 0x97885409, 0xb98d39c3, 0xb988f5aa, 0x24886832, 0x24884cba);
  }

  /** Published value: "Hello, world!": three blocks and a tail. */
  lemma ThreeBlocks()
    ensures Murmur3([0x48, 0x65, 0x6c, 0x6c, 0x6f, 0x2c, 0x20, 0x77, 0x6f, 0x72, 0x6c, 0x64, 0x21], 0x9747b28c)
            == 0x24884cba
  {
    hide Xor, Finalise, Block, MixTail, AfterBlocks;
    var key: seq<byte> := [0x48, 0x65, 0x6c, 0x6c, 0x6f, 0x2c, 0x20, 0x77, 0x6f, 0x72, 0x6c, 0x64, 0x21];
    ThreeBlocksBlocks();
    assert Tail(key) == [0x21];
    ThreeBlocksTail();
    ThreeBlocksEnd();
  }

  lemma ClientNamedATail()
    ensures MixTail(0xee6b27eb, [0x61]) == 0xbe208e3e
  {
    hide Xor, MixTail, Word32;
    WordOf([0x61, 0x00, 0x00, 0x00], 0x00000061);
    assert [0x61] + Nuls(3) == [0x61, 0x00, 0x00, 0x00];
    XorAt(0xee6b27eb, 0x504ba9d5, 0xbe208e3e, Word(HE, HE, H6, HB, H2, H7, HE, HB),
          Word(H5, H0, H4, HB, HA, H9, HD, H5));
    TailAt(0xee6b27eb, [0x61], 0x00000061, 0x87ef2bb1, 0x95d8c3f7, 0x504ba9d5, 0xbe208e3e);
  }

  lemma ClientNamedAEnd()
    ensures Finalise(Xor32(0xbe208e3e, 1)) == 0x97567ddb
  {
    hide Xor, Finalise;
    XorAt(0xbe208e3e, 0x00000001, 0xbe208e3f, Word(HB, HE, H2, H0, H8, HE, H3, HE),
          Word(H0, H0, H0, H0, H0, H0, H0, H1));
    XorAt(0xbe208e3f, 0x0000be20, 0xbe20301f, Word(HB, HE, H2, H0, H8, HE, H3, HF),
          Word(H0, H0, H0, H0, HB, HE, H2, H0));
    XorAt(0x24e192f5, 0x0001270c, 0x24e0b5f9, Word(H2, H4, HE, H1, H9, H2, HF, H5),
          Word(H0, H0, H0, H1, H2, H7, H0, HC));
    XorAt(0x9756ea8d, 0x00009756, 0x97567ddb, Word(H9, H7, H5, H6, HE, HA, H8, HD),
          Word(H0, H0, H0, H0, H9, H7, H5, H6));
    FinishAt(0xbe208e3e, 1, 0xbe208e3f, 0xbe20301f, 0x24e192f5, 0x24e0b5f9, 0x9756ea8d, 0x97567ddb);
  }

  /** The client name "a", with the seed of the source. */
  lemma ClientNamedA()
    ensures HashOf([0x61]) == 0x97567ddb
  {
    hide Xor, Finalise, Block, MixTail;
    var key: seq<byte> := [0x61];
    assert Tail(key) == [0x61];
    ClientNamedATail();
    ClientNamedAEnd();
  }
}
