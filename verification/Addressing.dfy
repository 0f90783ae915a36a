/** Logical addresses and the 32-bit MurmurHash3 that derives them from paths. */
module Addressing {
  import opened Bytes
  import opened Bits

  datatype Address = Address(node: u32, client: u32)

  const SLASH: byte := 0x2F
  const C1: u32 := 0xcc9e2d51
  const C2: u32 := 0x1b873593
  const N: u32 := 0xe6546b64
  const F1: u32 := 0x85ebca6b
  const F2: u32 := 0xc2b2ae35
  const SEED: u32 := 0xEE6B27EB

  // ---------------------------------------------------------------- 32-bit steps and their inverses

  /** uint32_t multiplication, which wraps around. */
  function Mul32(x: u32, c: u32): u32 { x * c % TWO_TO_THE_32 }

  function Add32(x: u32, n: u32): u32 { (x + n) % TWO_TO_THE_32 }

  function Sub32(x: u32, n: u32): u32 { (x - n) % TWO_TO_THE_32 }

  // (x << r) | (x >> (32 - r)): the two halves share no digit, so joining them is adding them.
  function Rotl15(x: u32): u32 { x % 0x2_0000 * 0x8000 + x / 0x2_0000 }

  function Rotl13(x: u32): u32 { x % 0x8_0000 * 0x2000 + x / 0x8_0000 }

  function Rotr15(x: u32): u32 { x % 0x8000 * 0x2_0000 + x / 0x8000 }

  function Rotr13(x: u32): u32 { x % 0x2000 * 0x8_0000 + x / 0x2000 }

  function XorShr(x: u32, n: nat): u32 { Xor32(x, Shr(x, n)) }

  function UnXorShr(y: u32, n: nat): u32 { Xor32(XorShr(y, n), Shr(y, 2 * n)) }

  /** Multiplying by an odd constant is undone by multiplying by its inverse modulo 2^32. */
  lemma MulInverse(x: u32, c: u32, d: u32, t: int)
    requires c * d == 1 + t * TWO_TO_THE_32
    ensures Mul32(Mul32(x, c), d) == x
  {
    var q := x * c / TWO_TO_THE_32;
    calc {
      (x * c - q * TWO_TO_THE_32) * d;
      x * c * d - q * TWO_TO_THE_32 * d;
      x * (c * d) - q * d * TWO_TO_THE_32;
      x * (1 + t * TWO_TO_THE_32) - q * d * TWO_TO_THE_32;
      x + x * t * TWO_TO_THE_32 - q * d * TWO_TO_THE_32;
      x + (x * t - q * d) * TWO_TO_THE_32;
    }
    ModOfMultiple(x, x * t - q * d);
  }

  lemma ModOfMultiple(x: u32, k: int)
    ensures (x + k * TWO_TO_THE_32) % TWO_TO_THE_32 == x
  {
  }

  lemma DivMod(q: nat, r: nat)
    ensures r < 0x2000 ==> (q * 0x2000 + r) / 0x2000 == q && (q * 0x2000 + r) % 0x2000 == r
    ensures r < 0x8000 ==> (q * 0x8000 + r) / 0x8000 == q && (q * 0x8000 + r) % 0x8000 == r
    ensures r < 0x2_0000 ==> (q * 0x2_0000 + r) / 0x2_0000 == q && (q * 0x2_0000 + r) % 0x2_0000 == r
    ensures r < 0x8_0000 ==> (q * 0x8_0000 + r) / 0x8_0000 == q && (q * 0x8_0000 + r) % 0x8_0000 == r
  {
  }

  lemma Rot15Inverse(x: u32)
    ensures Rotr15(Rotl15(x)) == x && Rotl15(Rotr15(x)) == x
  {
    DivMod(x % 0x2_0000, x / 0x2_0000);
    DivMod(x % 0x8000, x / 0x8000);
  }

  lemma Rot13Inverse(x: u32)
    ensures Rotr13(Rotl13(x)) == x && Rotl13(Rotr13(x)) == x
  {
    DivMod(x % 0x8_0000, x / 0x8_0000);
    DivMod(x % 0x2000, x / 0x2000);
  }

  lemma AddInverse(x: u32, n: u32)
    ensures Sub32(Add32(x, n), n) == x && Add32(Sub32(x, n), n) == x
  {
  }

  /** x ^= x >> n is undone by x ^ (x >> n) ^ (x >> 2n) once 3n reaches the word width. */
  lemma XorShrInverse(x: u32, n: nat)
    requires 3 * n >= 32
    ensures UnXorShr(XorShr(x, n), n) == x
    ensures XorShr(UnXorShr(x, n), n) == x
  {
    hide Xor, Shr;
    var a, b := Shr(x, n), Shr(x, 2 * n);
    ShrShr(x, n, n); ShrShr(x, n, 2 * n); Shr32(x, 3 * n);
    XorZero(b);
    UndoXorShr(x, n, a, b);
    RedoXorShr(x, n, a, b);
  }

  lemma UndoXorShr(x: u32, n: nat, a: nat, b: nat)
    requires a == Shr(x, n) && b == Shr(x, 2 * n) == Shr(a, n) && Shr(a, 2 * n) == 0
    ensures UnXorShr(XorShr(x, n), n) == x
  {
    hide Xor, Shr;
    ShrXor(x, a, n); ShrXor(x, a, 2 * n);
    XorZero(b); XorZero(a); XorZero(x);
    // the three shifted copies are x ^ a, a ^ b and b
    XorAssociative(x, a, Xor(a, b)); XorAssociative(a, a, b); XorCancels(0, a);
    XorCancels(x, b);
  }

  lemma RedoXorShr(x: u32, n: nat, a: nat, b: nat)
    requires a == Shr(x, n) && b == Shr(x, 2 * n) == Shr(a, n) && Shr(a, 2 * n) == 0
    ensures XorShr(UnXorShr(x, n), n) == x
  {
    hide Xor, Shr;
    ShrXor(Xor(x, a), b, n); ShrXor(x, a, n); ShrShr(a, n, n);
    XorZero(Xor(a, b));
    XorAssociative(x, a, b);
    XorCancels(x, Xor(a, b));
  }

  function Scramble(k: u32): u32 { Mul32(Rotl15(Mul32(k, C1)), C2) }

  function Unscramble(k: u32): u32 { Mul32(Rotr15(Mul32(k, 0x56ed309b)), 0xdee13bb1) }

  lemma ScrambleBijective(k: u32)
    ensures Unscramble(Scramble(k)) == k
    ensures Scramble(Unscramble(k)) == k
  {
    MulInverse(k, C1, 0xdee13bb1, 0xcc9e2d51 * 0xdee13bb1 / TWO_TO_THE_32);
    MulInverse(Rotl15(Mul32(k, C1)), C2, 0x56ed309b, 0x1b873593 * 0x56ed309b / TWO_TO_THE_32);
    Rot15Inverse(Mul32(k, C1));
    var a := Mul32(k, 0x56ed309b);
    MulInverse(k, 0x56ed309b, C2, 0x1b873593 * 0x56ed309b / TWO_TO_THE_32);
    MulInverse(Rotr15(a), 0xdee13bb1, C1, 0xcc9e2d51 * 0xdee13bb1 / TWO_TO_THE_32);
    Rot15Inverse(a);
  }

  /** One round of the block loop. */
  function Block(state: u32, word: u32): u32 { Add32(Mul32(Rotl13(Xor32(state, Scramble(word))), 5), N) }

  function Unblock(state: u32, word: u32): u32 {
    Xor32(Rotr13(Mul32(Sub32(state, N), 0xcccccccd)), Scramble(word))
  }

  lemma BlockBijectiveInState(state: u32, word: u32)
    ensures Unblock(Block(state, word), word) == state
    ensures Block(Unblock(state, word), word) == state
  {
    var s := Scramble(word);
    var x := Xor32(state, s);
    XorCancels(state, s); Rot13Inverse(x);
    MulInverse(Rotl13(x), 5, 0xcccccccd, 4); AddInverse(Mul32(Rotl13(x), 5), N);
    var y := Sub32(state, N);
    AddInverse(state, N); MulInverse(y, 0xcccccccd, 5, 4);
    Rot13Inverse(Mul32(y, 0xcccccccd)); XorCancels(Rotr13(Mul32(y, 0xcccccccd)), s);
  }

  lemma BlockInjectiveInWord(state: u32, v: u32, w: u32)
    requires Block(state, v) == Block(state, w)
    ensures v == w
  {
    BlockBijectiveInState(state, v);
    BlockBijectiveInState(state, w);
    var p := Rotr13(Mul32(Sub32(Block(state, v), N), 0xcccccccd));
    XorSymmetric(p, Scramble(v)); XorSymmetric(p, Scramble(w));
    XorCancels(Scramble(v), p); XorCancels(Scramble(w), p);
    ScrambleBijective(v); ScrambleBijective(w);
  }

  function Finalise(h: u32): u32 {
    XorShr(Mul32(XorShr(Mul32(XorShr(h, 16), F1), 13), F2), 16)
  }

  function Unfinalise(h: u32): u32 {
    UnXorShr(Mul32(UnXorShr(Mul32(UnXorShr(h, 16), 0x7ed1b41d), 13), 0xa5cb9243), 16)
  }

  lemma FinaliseBijective(h: u32)
    ensures Unfinalise(Finalise(h)) == h
    ensures Finalise(Unfinalise(h)) == h
  {
    hide XorShr, UnXorShr, Mul32;
    var a := XorShr(h, 16); var b := Mul32(a, F1); var c := XorShr(b, 13); var d := Mul32(c, F2);
    XorShrInverse(h, 16); XorShrInverse(b, 13); XorShrInverse(d, 16);
    MulInverse(a, F1, 0xa5cb9243, 0x85ebca6b * 0xa5cb9243 / TWO_TO_THE_32);
    MulInverse(c, F2, 0x7ed1b41d, 0xc2b2ae35 * 0x7ed1b41d / TWO_TO_THE_32);
    var p := UnXorShr(h, 16); var q := Mul32(p, 0x7ed1b41d); var r := UnXorShr(q, 13); var s := Mul32(r, 0xa5cb9243);
    XorShrInverse(q, 13); XorShrInverse(s, 16);
    MulInverse(p, 0x7ed1b41d, F2, 0xc2b2ae35 * 0x7ed1b41d / TWO_TO_THE_32);
    MulInverse(r, 0xa5cb9243, F1, 0x85ebca6b * 0xa5cb9243 / TWO_TO_THE_32);
  }

  // ---------------------------------------------------------------- the hash

  /** The length is held in a uint32_t, so this many leading bytes of a key take part. */
  function Hashed(key: seq<byte>): (used: seq<byte>)
    ensures |used| < TWO_TO_THE_32 && used <= key
    ensures |key| < TWO_TO_THE_32 ==> used == key
  {
    key[..|key| % TWO_TO_THE_32]
  }

  function WordAt(key: seq<byte>, i: nat): u32
    requires 4 * i + 4 <= |key|
  {
    Word32(key[4 * i..4 * i + 4])
  }

  /** The running state after the first n blocks of key. */
  function AfterBlocks(key: seq<byte>, n: nat, seed: u32): u32
    requires 4 * n <= |key|
  {
    if n == 0 then seed else Block(AfterBlocks(key, n - 1, seed), WordAt(key, n - 1))
  }

  function Tail(key: seq<byte>): (t: seq<byte>)
    ensures |t| == |key| % 4
  {
    key[|key| / 4 * 4..]
  }

  /** The bytes of the tail as one little-endian number. */
  function TailWord(tail: seq<byte>): u32
    requires |tail| < 4
  {
    Word32(tail + seq(4 - |tail|, i => 0))
  }

  lemma TailWordSum(tail: seq<byte>)
    requires 0 < |tail| < 4
    ensures TailWord(tail) == tail[0] as int + (if |tail| > 1 then 256 * (tail[1] as int) else 0)
                              + (if |tail| > 2 then 65536 * (tail[2] as int) else 0)
  {
  }

  function MixTail(state: u32, tail: seq<byte>): u32
    requires |tail| < 4
  {
    if tail == [] then state else Xor32(state, Scramble(TailWord(tail)))
  }

  /** The state that enters the finaliser. */
  function FinalState(key: seq<byte>, seed: u32): u32 { MixTail(AfterBlocks(key, |key| / 4, seed), Tail(key)) }

  /** MurmurHash3 x86 32-bit; the source fixes the seed. */
  function Murmur3(key: seq<byte>, seed: u32): u32 {
    var k := Hashed(key);
    Finalise(Xor32(FinalState(k, seed), |k|))
  }

  function HashOf(key: seq<byte>): u32 { Murmur3(key, SEED) }

  lemma TailWordByXor(b0: byte, b1: byte, b2: byte)
    ensures Xor(0, 65536 * (b2 as int)) == 65536 * (b2 as int)
    ensures Xor(0, 256 * (b1 as int)) == 256 * (b1 as int)
    ensures Xor(0, b0 as int) == b0 as int
    ensures Xor(65536 * (b2 as int), 256 * (b1 as int)) == 65536 * (b2 as int) + 256 * (b1 as int)
    ensures Xor(256 * (b1 as int), b0 as int) == 256 * (b1 as int) + b0 as int
    ensures Xor(65536 * (b2 as int) + 256 * (b1 as int), b0 as int) == 65536 * (b2 as int) + 256 * (b1 as int)
            + b0 as int
  {
    hide Xor, Pow2;
    WordWidth();
    XorZero(65536 * (b2 as int)); XorZero(256 * (b1 as int)); XorZero(b0 as int);
    XorDisjoint(b2 as int, 256 * (b1 as int), 16);
    XorDisjoint(b1 as int, b0 as int, 8);
    XorDisjoint(256 * (b2 as int) + b1 as int, b0 as int, 8);
  }

  /** Address::Hash: the block loop, the tail switch and the finaliser, on mutable 32-bit locals. From 2^31 bytes on
      the source's int product nblocks * 4 overflows; here it does not. */
  method Hash(key: seq<byte>) returns (hash: u32)
    ensures hash == HashOf(key)
  {
    hide Xor, Shr, Mul32, Rotl15, Rotl13, Add32, Word32;
    var len := |key| % TWO_TO_THE_32;
    hash := SEED;
    var nblocks := len / 4;
    ghost var used := Hashed(key);
    var i := 0;
    while i < nblocks
      invariant 0 <= i <= nblocks
      invariant hash == AfterBlocks(used, i, SEED)
    {
      assert used[4 * i..4 * i + 4] == key[4 * i..4 * i + 4];
      var k := Word32(key[4 * i..4 * i + 4]);
      k := Mul32(k, C1);
      k := Rotl15(k);
      k := Mul32(k, C2);
      hash := Xor32(hash, k);
      hash := Add32(Mul32(Rotl13(hash), 5), N);
      i := i + 1;
    }
    var tail := key[nblocks * 4..len];
    assert tail == Tail(used);
    if |tail| > 0 {
      var k1: u32 := 0;
      TailWordByXor(tail[0], if |tail| > 1 then tail[1] else 0, if |tail| > 2 then tail[2] else 0);
      if |tail| == 3 { k1 := Xor32(k1, 65536 * (tail[2] as int)); }
      if |tail| >= 2 { k1 := Xor32(k1, 256 * (tail[1] as int)); }
      k1 := Xor32(k1, tail[0] as int);
      TailWordSum(tail);
      k1 := Mul32(k1, C1);
      k1 := Rotl15(k1);
      k1 := Mul32(k1, C2);
      hash := Xor32(hash, k1);
    }
    hash := Xor32(hash, len);
    hash := XorShr(hash, 16);
    hash := Mul32(hash, F1);
    hash := XorShr(hash, 13);
    hash := Mul32(hash, F2);
    hash := XorShr(hash, 16);
  }

  // ---------------------------------------------------------------- no collisions inside one block

  /** Equal lengths, and equal bytes outside the 4-byte block (or tail) number w. */
  ghost predicate AgreeOutside(s: seq<byte>, t: seq<byte>, w: nat) {
    |s| == |t| && forall i :: 0 <= i < |s| && i / 4 != w ==> s[i] == t[i]
  }

  lemma WordsOutside(s: seq<byte>, t: seq<byte>, w: nat, i: nat)
    requires AgreeOutside(s, t, w) && 4 * i + 4 <= |s| && i != w
    ensures WordAt(s, i) == WordAt(t, i)
  {
    assert s[4 * i..4 * i + 4] == t[4 * i..4 * i + 4];
  }

  lemma {:induction false} BlocksAgree(s: seq<byte>, t: seq<byte>, w: nat, n: nat)
    requires AgreeOutside(s, t, w) && 4 * n <= |s| && n <= w
    ensures AfterBlocks(s, n, SEED) == AfterBlocks(t, n, SEED)
  {
    hide Block, Word32;
    if n > 0 {
      BlocksAgree(s, t, w, n - 1);
      WordsOutside(s, t, w, n - 1);
    }
  }

  /** Equal states after n blocks force the differing block to be equal. */
  lemma {:induction false} BlocksSeparate(s: seq<byte>, t: seq<byte>, w: nat, n: nat)
    requires AgreeOutside(s, t, w) && w < n && 4 * n <= |s|
    requires AfterBlocks(s, n, SEED) == AfterBlocks(t, n, SEED)
    ensures s == t
  {
    hide Block, Unblock, Word32;
    if n - 1 == w {
      BlocksAgree(s, t, w, w);
      BlockInjectiveInWord(AfterBlocks(s, w, SEED), WordAt(s, w), WordAt(t, w));
      Word32Injective(s[4 * w..4 * w + 4], t[4 * w..4 * w + 4]);
      forall i | 0 <= i < |s| ensures s[i] == t[i] {
        if i / 4 == w {
          assert s[i] == s[4 * w..4 * w + 4][i - 4 * w] && t[i] == t[4 * w..4 * w + 4][i - 4 * w];
        }
      }
    } else {
      WordsOutside(s, t, w, n - 1);
      BlockBijectiveInState(AfterBlocks(s, n - 1, SEED), WordAt(s, n - 1));
      BlockBijectiveInState(AfterBlocks(t, n - 1, SEED), WordAt(t, n - 1));
      BlocksSeparate(s, t, w, n - 1);
    }
  }

  lemma TailWordInjective(s: seq<byte>, t: seq<byte>)
    requires |s| == |t| < 4 && TailWord(s) == TailWord(t)
    ensures s == t
  {
    hide Word32;
    var zeros: seq<byte> := seq(4 - |s|, i => 0);
    Word32Injective(s + zeros, t + zeros);
    assert s == (s + zeros)[..|s|] && t == (t + zeros)[..|s|];
  }

  lemma MixTailSeparates(x: u32, y: u32, s: seq<byte>, t: seq<byte>)
    requires |s| == |t| < 4 && MixTail(x, s) == MixTail(y, t)
    ensures s == t ==> x == y
    ensures x == y ==> s == t
  {
    if s != [] {
      var a, b := Scramble(TailWord(s)), Scramble(TailWord(t));
      XorCancels(x, a); XorCancels(y, b);
      if x == y {
        XorSymmetric(x, a); XorSymmetric(x, b);
        XorCancels(a, x); XorCancels(b, x);
        ScrambleBijective(TailWord(s)); ScrambleBijective(TailWord(t));
        TailWordInjective(s, t);
      }
    }
  }

  lemma FinaliserSeparates(a: u32, b: u32, len: u32)
    requires Finalise(Xor32(a, len)) == Finalise(Xor32(b, len))
    ensures a == b
  {
    hide Xor, Shr, Finalise, Unfinalise;
    FinaliseBijective(Xor32(a, len)); FinaliseBijective(Xor32(b, len));
    XorCancels(a, len); XorCancels(b, len);
  }

  /** Below 2^32 bytes, two equally long keys that differ inside one block never collide. */
  lemma HashNeverCollidesInOneBlock(s: seq<byte>, t: seq<byte>, w: nat)
    requires AgreeOutside(s, t, w) && |s| < TWO_TO_THE_32
    ensures HashOf(s) == HashOf(t) <==> s == t
  {
    hide AfterBlocks, MixTail, Finalise, Xor, WordAt;
    if HashOf(s) == HashOf(t) {
      FinaliserSeparates(FinalState(s, SEED), FinalState(t, SEED), |s|);
      var n := |s| / 4;
      MixTailSeparates(AfterBlocks(s, n, SEED), AfterBlocks(t, n, SEED), Tail(s), Tail(t));
      if w < n {
        assert Tail(s) == Tail(t);
        BlocksSeparate(s, t, w, n);
      } else {
        BlocksAgree(s, t, w, n);
        assert s == s[..4 * n] + Tail(s) && t == t[..4 * n] + Tail(t);
        assert s[..4 * n] == t[..4 * n];
      }
    }
  }

  /** At any length of the model's: they collide exactly when they agree on every byte that takes part in the hash. */
  lemma HashCollidesExactly(s: seq<byte>, t: seq<byte>, w: nat)
    requires AgreeOutside(s, t, w)
    ensures HashOf(s) == HashOf(t) <==> Hashed(s) == Hashed(t)
  {
    var p, q := Hashed(s), Hashed(t);
    assert Hashed(p) == p && Hashed(q) == q;
    HashNeverCollidesInOneBlock(p, q, w);
  }

  lemma TailWithNul(s: seq<byte>)
    requires |s| % 4 < 3
    ensures FinalState(s + [0], SEED) == FinalState(s, SEED)
  {
    hide Xor, Block, Word32;
    var t := s + [0];
    assert |t| / 4 == |s| / 4;
    assert Tail(t) == Tail(s) + [0];
    SamePrefix(s, t, |s| / 4);
    NulScrambles(AfterBlocks(s, |s| / 4, SEED), Tail(s));
  }

  lemma {:induction false} SamePrefix(s: seq<byte>, t: seq<byte>, n: nat)
    requires 4 * n <= |s| && s <= t
    ensures AfterBlocks(s, n, SEED) == AfterBlocks(t, n, SEED)
  {
    hide Block, Word32;
    if n > 0 {
      SamePrefix(s, t, n - 1);
      assert s[4 * (n - 1)..4 * (n - 1) + 4] == t[4 * (n - 1)..4 * (n - 1) + 4];
    }
  }

  lemma NulScrambles(x: u32, tail: seq<byte>)
    requires |tail| < 3
    ensures MixTail(x, tail + [0]) == MixTail(x, tail)
  {
    hide Xor;
    if tail == [] {
      assert TailWord(tail + [0]) == 0 && Scramble(0) == 0;
      XorZero(x);
    }
  }

  /** The length takes part: a NUL more in the tail mixes the same words, and still never gives the same hash. */
  lemma TrailingNulCounts(s: seq<byte>)
    requires |s| < TWO_TO_THE_32 - 1 && |s| % 4 < 3
    ensures HashOf(s) != HashOf(s + [0])
  {
    hide Finalise, Unfinalise, Xor, FinalState;
    TailWithNul(s);
    var x := FinalState(s, SEED);
    FinaliseBijective(Xor32(x, |s|));
    FinaliseBijective(Xor32(x, |s| + 1));
    XorSymmetric(x, |s|);
    XorSymmetric(x, |s| + 1);
    XorCancels(|s|, x);
    XorCancels(|s| + 1, x);
  }

  lemma HashInjectiveOnShortKeys(s: seq<byte>, t: seq<byte>)
    requires |s| == |t| <= 4
    ensures HashOf(s) == HashOf(t) <==> s == t
  {
    HashNeverCollidesInOneBlock(s, t, 0);
  }

  // ---------------------------------------------------------------- Address::Create

  /** std::string::rfind('/'), -1 for npos. */
  function RFind(s: seq<byte>): (p: int)
    ensures -1 <= p < |s|
    ensures p >= 0 ==> s[p] == SLASH
    ensures forall i :: p < i < |s| ==> s[i] != SLASH
  {
    if s == [] then -1
    else if s[|s| - 1] == SLASH then |s| - 1
    else RFind(s[..|s| - 1])
  }

  function Create(path: seq<byte>): Address {
    if SLASH !in path then Address(0, HashOf(path))
    else if path[|path| - 1] == SLASH then Address(HashOf(path), 0)
    else
      var p := RFind(path);
      Address(HashOf(path[..p + 1]), HashOf(path[p + 1..]))
  }

  /** A path is a node part that ends in '/' or is missing, and a client part without '/' that may be missing: each part
      gives its own hash, a missing one 0, and a name on its own belongs to the local node 0. */
  lemma CreateByParts(node: seq<byte>, client: seq<byte>)
    requires node == [] || node[|node| - 1] == SLASH
    requires SLASH !in client
    ensures Create(node + client) == Address(if node == [] then 0 else HashOf(node),
                                             if node != [] && client == [] then 0 else HashOf(client))
  {
    hide HashOf;
    var path := node + client;
    if node == [] {
      assert path == client;
    } else if client == [] {
      assert path == node;
    } else {
      assert path[|node| - 1] == SLASH;
      var p := RFind(path);
      assert forall i :: |node| <= i < |path| ==> path[i] == client[i - |node|];
      assert p == |node| - 1;
      assert path[..p + 1] == node && path[p + 1..] == client;
    }
  }

  /** A client named under a node path gets that node's address and the client's own address. */
  lemma ClientAddressComposes(node: seq<byte>, client: seq<byte>)
    requires node != [] && node[|node| - 1] == SLASH
    requires client != [] && SLASH !in client
    ensures Create(node + client) == Address(Create(node).node, Create(client).client)
  {
    var path := node + client;
    assert path[|node| - 1] == SLASH;
    var p := RFind(path);
    assert forall i :: |node| <= i < |path| ==> path[i] == client[i - |node|];
    assert p == |node| - 1;
    assert path[..p + 1] == node && path[p + 1..] == client;
  }
}
