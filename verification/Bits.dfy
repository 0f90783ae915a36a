/** 32-bit exclusive or and shifts on numbers, by binary digits. */
module Bits {
  import opened Bytes

  function Pow2(n: nat): (p: nat)
    ensures p > 0
  {
    if n == 0 then 1 else 2 * Pow2(n - 1)
  }

  lemma {:induction false} Pow2Add(m: nat, n: nat)
    ensures Pow2(m + n) == Pow2(m) * Pow2(n)
  {
    if m > 0 { Pow2Add(m - 1, n); }
  }

  lemma WordWidth()
    ensures Pow2(8) == 256 && Pow2(16) == 65536 && Pow2(32) == TWO_TO_THE_32
  {
    assert Pow2(4) == 16;
    Pow2Add(4, 4); Pow2Add(8, 8); Pow2Add(16, 16);
  }

  function Digit(b: bool): nat { if b then 1 else 0 }

  function Xor(x: nat, y: nat): nat {
    if x == 0 && y == 0 then 0 else Digit(x % 2 != y % 2) + 2 * Xor(x / 2, y / 2)
  }

  /** x >> n */
  function Shr(x: nat, n: nat): (r: nat)
    ensures r <= x
    decreases n
  {
    if n == 0 then x else Shr(x / 2, n - 1)
  }

  lemma {:induction false} XorBound(x: nat, y: nat, n: nat)
    requires x < Pow2(n) && y < Pow2(n)
    ensures Xor(x, y) < Pow2(n)
  {
    if n > 0 && !(x == 0 && y == 0) {
      XorBound(x / 2, y / 2, n - 1);
    }
  }

  function Xor32(x: u32, y: u32): u32 {
    WordWidth();
    XorBound(x, y, 32);
    Xor(x, y)
  }

  lemma {:induction false} XorZero(x: nat)
    ensures Xor(x, 0) == x && Xor(0, x) == x
  {
    if x > 0 { XorZero(x / 2); }
  }

  lemma {:induction false} XorSymmetric(x: nat, y: nat)
    ensures Xor(x, y) == Xor(y, x)
  {
    if x > 0 || y > 0 { XorSymmetric(x / 2, y / 2); }
  }

  lemma XorHalf(x: nat, y: nat)
    ensures Xor(x, y) / 2 == Xor(x / 2, y / 2)
    ensures Xor(x, y) % 2 == Digit(x % 2 != y % 2)
  {
  }

  /** Doing it twice undoes it. */
  lemma {:induction false} XorCancels(x: nat, y: nat)
    ensures Xor(Xor(x, y), y) == x
  {
    if x > 0 || y > 0 {
      XorCancels(x / 2, y / 2);
      XorHalf(x, y);
      XorHalf(Xor(x, y), y);
    }
  }

  lemma {:induction false} XorAssociative(x: nat, y: nat, z: nat)
    ensures Xor(Xor(x, y), z) == Xor(x, Xor(y, z))
  {
    if x > 0 || y > 0 || z > 0 {
      XorAssociative(x / 2, y / 2, z / 2);
      XorHalf(x, y); XorHalf(y, z);
      XorHalf(Xor(x, y), z); XorHalf(x, Xor(y, z));
    }
  }

  /** Shifting right distributes over exclusive or. */
  lemma {:induction false} ShrXor(x: nat, y: nat, n: nat)
    ensures Shr(Xor(x, y), n) == Xor(Shr(x, n), Shr(y, n))
    decreases n
  {
    if n > 0 {
      XorHalf(x, y);
      ShrXor(x / 2, y / 2, n - 1);
    }
  }

  lemma {:induction false} ShrShr(x: nat, m: nat, n: nat)
    ensures Shr(Shr(x, m), n) == Shr(x, m + n)
    decreases m
  {
    if m > 0 { ShrShr(x / 2, m - 1, n); }
  }

  lemma {:induction false} ShrAway(x: nat, n: nat)
    requires x < Pow2(n)
    ensures Shr(x, n) == 0
  {
    if n > 0 { ShrAway(x / 2, n - 1); }
  }

  lemma Shr32(x: u32, n: nat)
    requires n >= 32
    ensures Shr(x, n) == 0
  {
    WordWidth();
    ShrAway(x, 32);
    ShrShr(x, 32, n - 32);
    ShrOfZero(n - 32);
  }

  lemma {:induction false} ShrOfZero(n: nat)
    ensures Shr(0, n) == 0
  {
    if n > 0 { ShrOfZero(n - 1); }
  }

  /** Parts that occupy different digits simply add up. */
  lemma {:induction false} XorDisjoint(high: nat, low: nat, n: nat)
    requires low < Pow2(n)
    ensures Xor(high * Pow2(n), low) == high * Pow2(n) + low
  {
    var x := high * Pow2(n);
    if n == 0 {
      XorZero(x);
    } else {
      assert x == 2 * (high * Pow2(n - 1));
      XorDisjoint(high, low / 2, n - 1);
      XorHalf(x, low);
    }
  }
}
