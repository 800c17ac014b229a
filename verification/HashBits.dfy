/** The words of the hash as numbers and as 32-bit words: Xor and Rot are the operators of the macros.
    And what mix, final and the hash compute. */
module HashBits {
  import opened Basics
  import opened JenkinsHash
  import opened WordOps

  /** The number that the lowest n bits of a word are. */
  function Low(x: bv32, n: nat): (v: nat)
    ensures v < Pow2(n)
  {
    if n == 0 then 0 else 2 * Low(Half(x), n - 1) + Bit(x)
  }

  function Num(x: bv32): Word {
    Pow32();
    Low(x, 32)
  }

  // ---- exclusive or -------------------------------------------------------------------------------------

  lemma {:induction false} XorLow(x: bv32, y: bv32, n: nat)
    ensures XorBits(Low(x, n), Low(y, n), n) == Low(Exclusive(x, y), n)
    decreases n
  {
    hide Half, Bit, Exclusive, XorBits, Low;
    if n > 0 {
      SmallBit(x);
      SmallBit(y);
      ExclusiveDown(x, y);
      LowIs(x, n);
      LowIs(y, n);
      LowIs(Exclusive(x, y), n);
      XorLow(Half(x), Half(y), n - 1);
      XorStep(Low(Half(x), n - 1), Bit(x), Low(Half(y), n - 1), Bit(y), n);
    } else {
      NoXor(x, y);
    }
  }

  lemma XorStep(a: nat, p: nat, b: nat, q: nat, n: nat)
    requires n > 0 && p <= 1 && q <= 1
    ensures XorBits(2 * a + p, 2 * b + q, n) == 2 * XorBits(a, b, n - 1) + if p != q then 1 else 0
  {
    Halved(a, p);
    Halved(b, q);
  }

  lemma NoXor(x: bv32, y: bv32)
    ensures XorBits(Low(x, 0), Low(y, 0), 0) == Low(Exclusive(x, y), 0)
  {
  }

  lemma NumExclusive(x: bv32, y: bv32)
    ensures Xor(Num(x), Num(y)) == Num(Exclusive(x, y))
  {
    hide XorBits, Low, Exclusive;
    XorLow(x, y, 32);
  }

  /** Xor is the exclusive or of the words. */
  lemma NumXor(x: bv32, y: bv32)
    ensures Xor(Num(x), Num(y)) == Num(x ^ y)
  {
    hide Num, Xor;
    NumExclusive(x, y);
  }

  // ---- sums -----------------------------------------------------------------------------------------------

  lemma {:induction false} SumLow(x: bv32, y: bv32, c: bv32, m: bv32, n: nat)
    requires n > 0 ==> Carries(x, y, c, m) && Exactly(m, n - 1)
    ensures Pow2(n) > 0 && Low(Sum(x, y, c), n) == (Low(x, n) + Low(y, n) + Bit(c)) % Pow2(n)
    decreases n
  {
    hide *;
    if n > 0 {
      SmallBit(x);
      SmallBit(y);
      SmallBit(c);
      SumDown(x, y, c);
      CarriesDown(x, y, c, m);
      MaskDownOne(m, n);
      PowOne(n);
      SumLow(Half(x), Half(y), Half(c), Half(m), n - 1);
      LowIs(x, n);
      LowIs(y, n);
      LowIs(Sum(x, y, c), n);
      PowStep(n);
      AddDigits(Low(Half(x), n - 1), Low(Half(y), n - 1), Bit(Half(c)), Bit(x), Bit(y), Bit(c), Pow2(n - 1),
                Low(x, n), Low(y, n), Pow2(n));
    } else {
      NoSum(x, y, c);
    }
  }

  lemma NoSum(x: bv32, y: bv32, c: bv32)
    ensures Pow2(0) > 0 && Low(Sum(x, y, c), 0) == (Low(x, 0) + Low(y, 0) + Bit(c)) % Pow2(0)
  {
  }

  lemma PowStep(n: nat)
    requires n > 0
    ensures Pow2(n) == 2 * Pow2(n - 1)
  {
  }

  lemma PowOne(n: nat)
    requires n > 0
    ensures Pow2(n - 1) > 1 ==> n > 1
  {
  }

  lemma MaskDownOne(m: bv32, n: nat)
    requires n > 0 && Exactly(m, n - 1)
    ensures n > 1 ==> Bit(m) == 1 && Exactly(Half(m), n - 2)
  {
  }

  /** One more digit of a sum modulo a power of two. */
  lemma AddDigits(p: nat, q: nat, k: nat, a: nat, b: nat, c: nat, w: nat, x: nat, y: nat, v: nat)
    requires a <= 1 && b <= 1 && c <= 1 && w > 0 && (w > 1 ==> k == (a + b + c) / 2)
    requires x == 2 * p + a && y == 2 * q + b && v == 2 * w
    ensures 2 * ((p + q + k) % w) + (a + b + c) % 2 == (x + y + c) % v
  {
    if w > 1 {
      DoubledModulo(p + q + k, (a + b + c) % 2, w);
      assert 2 * (p + q + k) + (a + b + c) % 2 == x + y + c;
    }
  }

  /** Add is the addition of the words. */
  lemma NumAdd(x: bv32, y: bv32, s: bv32)
    requires Adds(x, y, s)
    ensures Add(Num(x), Num(y)) == Num(s)
  {
    hide *;
    CarriesAt(x, y, s, Sum(x, y, s));
    SumBack(x, y, s);
    Mask31();
    SumLow(x, y, Sum(x, y, s), 0x7fffffff, 32);
    NumIs(x);
    NumIs(y);
    NumIs(s);
    AddIs(Num(x), Num(y));
  }

  lemma AddIs(x: Word, y: Word)
    ensures Add(x, y) == (x + y + 0) % WORD && WORD == Pow2(32)
  {
    Pow32();
  }

  /** So Sub is the subtraction. */
  lemma NumSub(x: bv32, y: bv32, d: bv32)
    requires Adds(d, y, x)
    ensures Sub(Num(x), Num(y)) == Num(d)
  {
    hide *;
    NumAdd(d, y, x);
    AddSub(Num(d), Num(y));
  }

  // ---- shifts and rotations ---------------------------------------------------------------------------------

  function ShlN(x: bv32, k: nat): bv32 { if k == 0 then x else Twice(ShlN(x, k - 1)) }

  function ShrN(x: bv32, k: nat): bv32 { if k == 0 then x else Half(ShrN(x, k - 1)) }

  /** The lowest bits do not depend on the others. */
  lemma {:induction false} LowMasked(x: bv32, m: bv32, n: nat)
    requires Exactly(m, n)
    ensures Low(Both(x, m), n) == Low(x, n)
    decreases n
  {
    hide Half, Bit, Both, Exactly;
    if n > 0 {
      MaskDown(x, m, n);
      LowMasked(Half(x), Half(m), n - 1);
    }
  }

  lemma {:induction false} LowTop(x: bv32, m: bv32, n: nat)
    requires Exactly(m, n)
    ensures Low(Both(x, m), n + 1) == Low(Both(x, m), n)
    decreases n
  {
    hide Half, Bit, Both, Exactly;
    if n > 0 {
      MaskDown(x, m, n);
      LowTop(Half(x), Half(m), n - 1);
    } else {
      NoMask(x, m);
      SmallBit(x);
      assert Low(0, 1) == 2 * Low(Half(0), 0) + Bit(0);
    }
  }

  lemma {:induction false} LowModulo(x: bv32, n: nat)
    ensures Pow2(n) > 0 && Low(x, n) == Low(x, n + 1) % Pow2(n)
    decreases n
  {
    hide Half, Bit;
    SmallBit(x);
    if n > 0 {
      LowModulo(Half(x), n - 1);
      DoubledModulo(Low(Half(x), n), Bit(x), Pow2(n - 1));
    }
  }

  lemma DoubledModulo(p: nat, b: nat, w: nat)
    requires b <= 1 && w > 0
    ensures (2 * p + b) % (2 * w) == 2 * (p % w) + b
  {
    var q, r := p / w, p % w;
    assert 2 * p + b == q * (2 * w) + (2 * r + b);
    ModIs(2 * p + b, 2 * w, q, 2 * r + b);
  }

  lemma NumTwice(x: bv32)
    ensures Num(Twice(x)) == (2 * Num(x)) % WORD
  {
    hide *;
    Mask31();
    TwiceDown(x);
    LowMasked(x, 0x7fffffff, 31);
    LowModulo(x, 31);
    LowIs(Twice(x), 32);
    NumIs(x);
    NumIs(Twice(x));
    DoubledModulo(Low(x, 32), 0, Pow2(31));
  }

  lemma LowIs(x: bv32, n: nat)
    requires n > 0
    ensures Low(x, n) == 2 * Low(Half(x), n - 1) + Bit(x)
  {
  }

  lemma NumIs(x: bv32)
    ensures Num(x) == Low(x, 32) && Pow2(31) * 2 == WORD && Num(x) < WORD
  {
    Pow32();
  }

  lemma NumHalf(x: bv32)
    ensures Num(Half(x)) == Num(x) / 2
  {
    hide *;
    Mask31();
    TwiceDown(x);
    LowTop(Half(x), 0x7fffffff, 31);
    LowIs(x, 32);
    NumIs(x);
    NumIs(Half(x));
    SmallBit(x);
  }

  lemma {:induction false} NumShlN(x: bv32, k: nat)
    ensures Num(ShlN(x, k)) == ShiftLeft(Num(x), k)
  {
    hide Num, Twice, ShiftLeft;
    if k > 0 {
      NumShlN(x, k - 1);
      NumTwice(ShlN(x, k - 1));
      ShiftStep(Num(x), k);
    } else {
      NoShift(Num(x));
    }
  }

  lemma ShiftStep(x: Word, k: nat)
    requires k > 0
    ensures ShiftLeft(x, k) == (2 * ShiftLeft(x, k - 1)) % WORD
  {
    var y := x * Pow2(k - 1);
    TwiceMore(y);
    TwiceProduct(x, Pow2(k - 1));
  }

  lemma NoShift(x: Word)
    ensures ShiftLeft(x, 0) == x
  {
  }

  lemma TwiceProduct(x: nat, w: nat)
    ensures x * (2 * w) == 2 * (x * w)
  {
  }

  lemma TwiceMore(y: nat)
    ensures (2 * (y % WORD)) % WORD == (2 * y) % WORD
  {
  }

  lemma {:induction false} NumShrN(x: bv32, k: nat)
    ensures Num(ShrN(x, k)) == ShiftRight(Num(x), k)
  {
    hide Num, Half;
    if k > 0 {
      NumShrN(x, k - 1);
      NumHalf(ShrN(x, k - 1));
      HalfLater(Num(x), k - 1);
    }
  }

  lemma {:induction false} HalfLater(x: Word, k: nat)
    ensures ShiftRight(x, k + 1) == ShiftRight(x, k) / 2
  {
    if k > 0 { HalfLater(x / 2, k - 1); }
  }

  lemma ShlIs(x: bv32)
    ensures ShlN(x, 4) == LeftBy(x, 4)
    ensures ShlN(x, 6) == LeftBy(x, 6)
    ensures ShlN(x, 8) == LeftBy(x, 8)
    ensures ShlN(x, 11) == LeftBy(x, 11)
    ensures ShlN(x, 14) == LeftBy(x, 14)
    ensures ShlN(x, 16) == LeftBy(x, 16)
    ensures ShlN(x, 19) == LeftBy(x, 19)
    ensures ShlN(x, 24) == LeftBy(x, 24)
    ensures ShlN(x, 25) == LeftBy(x, 25)
  {
    hide Twice;
    ShiftsLeft(x);
    assert ShlN(x, 0) == x << 0;
    assert ShlN(x, 1) == x << 1;
    assert ShlN(x, 2) == x << 2;
    assert ShlN(x, 3) == x << 3;
    assert ShlN(x, 4) == x << 4;
    assert ShlN(x, 5) == x << 5;
    assert ShlN(x, 6) == x << 6;
    assert ShlN(x, 7) == x << 7;
    assert ShlN(x, 8) == x << 8;
    assert ShlN(x, 9) == x << 9;
    assert ShlN(x, 10) == x << 10;
    assert ShlN(x, 11) == x << 11;
    assert ShlN(x, 12) == x << 12;
    assert ShlN(x, 13) == x << 13;
    assert ShlN(x, 14) == x << 14;
    assert ShlN(x, 15) == x << 15;
    assert ShlN(x, 16) == x << 16;
    assert ShlN(x, 17) == x << 17;
    assert ShlN(x, 18) == x << 18;
    assert ShlN(x, 19) == x << 19;
    assert ShlN(x, 20) == x << 20;
    assert ShlN(x, 21) == x << 21;
    assert ShlN(x, 22) == x << 22;
    assert ShlN(x, 23) == x << 23;
    assert ShlN(x, 24) == x << 24;
    assert ShlN(x, 25) == x << 25;
  }

  lemma ShrIs(x: bv32)
    ensures ShrN(x, 28) == RightBy(x, 4)
    ensures ShrN(x, 26) == RightBy(x, 6)
    ensures ShrN(x, 24) == RightBy(x, 8)
    ensures ShrN(x, 21) == RightBy(x, 11)
    ensures ShrN(x, 18) == RightBy(x, 14)
    ensures ShrN(x, 16) == RightBy(x, 16)
    ensures ShrN(x, 13) == RightBy(x, 19)
    ensures ShrN(x, 8) == RightBy(x, 24)
    ensures ShrN(x, 7) == RightBy(x, 25)
  {
    hide Half;
    ShiftsRight(x);
    assert ShrN(x, 0) == x >> 0;
    assert ShrN(x, 1) == x >> 1;
    assert ShrN(x, 2) == x >> 2;
    assert ShrN(x, 3) == x >> 3;
    assert ShrN(x, 4) == x >> 4;
    assert ShrN(x, 5) == x >> 5;
    assert ShrN(x, 6) == x >> 6;
    assert ShrN(x, 7) == x >> 7;
    assert ShrN(x, 8) == x >> 8;
    assert ShrN(x, 9) == x >> 9;
    assert ShrN(x, 10) == x >> 10;
    assert ShrN(x, 11) == x >> 11;
    assert ShrN(x, 12) == x >> 12;
    assert ShrN(x, 13) == x >> 13;
    assert ShrN(x, 14) == x >> 14;
    assert ShrN(x, 15) == x >> 15;
    assert ShrN(x, 16) == x >> 16;
    assert ShrN(x, 17) == x >> 17;
    assert ShrN(x, 18) == x >> 18;
    assert ShrN(x, 19) == x >> 19;
    assert ShrN(x, 20) == x >> 20;
    assert ShrN(x, 21) == x >> 21;
    assert ShrN(x, 22) == x >> 22;
    assert ShrN(x, 23) == x >> 23;
    assert ShrN(x, 24) == x >> 24;
    assert ShrN(x, 25) == x >> 25;
    assert ShrN(x, 26) == x >> 26;
    assert ShrN(x, 27) == x >> 27;
    assert ShrN(x, 28) == x >> 28;
    assert ShrN(x, 29) == x >> 29;
    assert ShrN(x, 30) == x >> 30;
    assert ShrN(x, 31) == x >> 31;
  }

  lemma RotatedIsXor(x: bv32, k: nat)
    requires Places(k)
    ensures Rotated(x, k) == Exclusive(ShlN(x, k), ShrN(x, 32 - k))
  {
    hide ShlN, ShrN, Exclusive, Rotated, LeftBy, RightBy;
    ShlIs(x);
    ShrIs(x);
    RotatedIs(x, k);
  }

  /** Rot is the rotation of the words. */
  lemma NumRot(x: bv32, k: nat)
    requires Places(k)
    ensures Num(Rotated(x, k)) == Rot(Num(x), k)
  {
    hide Num, Rotated, Exclusive, ShlN, ShrN, ShiftLeft, ShiftRight, Xor;
    RotatedIsXor(x, k);
    NumShlN(x, k);
    NumShrN(x, 32 - k);
    NumExclusive(ShlN(x, k), ShrN(x, 32 - k));
  }

  // ---- the macros ---------------------------------------------------------------------------------------

  /** mix(a, b, c), statement by statement. */
  method MixMacro(a0: Word, b0: Word, c0: Word) returns (a: Word, b: Word, c: Word)
    ensures Mix(Abc(a0, b0, c0)) == Abc(a, b, c)
  {
    hide Add, Sub, Xor, Rot;
    a, b, c := a0, b0, c0;
    a := Sub(a, c);
    a := Xor(a, Rot(c, 4));
    c := Add(c, b);
    b := Sub(b, a);
    b := Xor(b, Rot(a, 6));
    a := Add(a, c);
    c := Sub(c, b);
    c := Xor(c, Rot(b, 8));
    b := Add(b, a);
    a := Sub(a, c);
    a := Xor(a, Rot(c, 16));
    c := Add(c, b);
    b := Sub(b, a);
    b := Xor(b, Rot(a, 19));
    a := Add(a, c);
    c := Sub(c, b);
    c := Xor(c, Rot(b, 4));
    b := Add(b, a);
  }

  /** final(a, b, c), statement by statement. */
  method FinalMacro(a0: Word, b0: Word, c0: Word) returns (a: Word, b: Word, c: Word)
    ensures Final(Abc(a0, b0, c0)) == Abc(a, b, c)
  {
    hide Add, Sub, Xor, Rot;
    a, b, c := a0, b0, c0;
    c := Xor(c, b);
    c := Sub(c, Rot(b, 14));
    a := Xor(a, c);
    a := Sub(a, Rot(c, 11));
    b := Xor(b, a);
    b := Sub(b, Rot(a, 25));
    c := Xor(c, b);
    c := Sub(c, Rot(b, 16));
    a := Xor(a, c);
    a := Sub(a, Rot(c, 4));
    b := Xor(b, a);
    b := Sub(b, Rot(a, 14));
    c := Xor(c, b);
    c := Sub(c, Rot(b, 24));
  }

  // ---- mix and final on words -----------------------------------------------------------------------------

  /** x -= z; x ^= rot(z, k); z += y. */
  lemma TurnWords(x: bv32, y: bv32, z: bv32, k: nat, d: bv32, x': bv32, z': bv32)
    requires Places(k) && Adds(d, z, x) && x' == d ^ Rotated(z, k) && Adds(z, y, z')
    ensures Turn(Num(x), Num(y), Num(z), k) == (Num(x'), Num(z'))
  {
    hide Num, Add, Sub, Xor, Rot, Rotated, Adds;
    NumSub(x, z, d);
    NumRot(z, k);
    NumXor(d, Rotated(z, k));
    NumAdd(z, y, z');
  }

  /** x ^= y; x -= rot(y, k). */
  lemma FoldWords(x: bv32, y: bv32, k: nat, z: bv32)
    requires Places(k) && Adds(z, Rotated(y, k), x ^ y)
    ensures Fold(Num(x), Num(y), k) == Num(z)
  {
    hide Num, Add, Sub, Xor, Rot, Rotated, Adds;
    NumXor(x, y);
    NumRot(y, k);
    NumSub(x ^ y, Rotated(y, k), z);
  }
}
