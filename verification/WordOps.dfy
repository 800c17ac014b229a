/** The exclusive or and the shifts of 32-bit words, and how they work on the lowest bit and the others. */
module WordOps {
  function Exclusive(x: bv32, y: bv32): bv32 { x ^ y }

  function Both(x: bv32, y: bv32): bv32 { x & y }

  function Half(x: bv32): bv32 { x >> 1 }

  function Twice(x: bv32): bv32 { x << 1 }

  function Bit(x: bv32): nat { if x & 1 == 1 then 1 else 0 }

  lemma ExclusiveDown(x: bv32, y: bv32)
    ensures Half(Exclusive(x, y)) == Exclusive(Half(x), Half(y))
    ensures Bit(Exclusive(x, y)) == if Bit(x) != Bit(y) then 1 else 0
  {
  }

  lemma BothDown(x: bv32, y: bv32)
    ensures Half(Both(x, y)) == Both(Half(x), Half(y))
    ensures Bit(Both(x, y)) == if Bit(x) == Bit(y) == 1 then 1 else 0
  {
  }

  lemma TwiceDown(x: bv32)
    ensures Half(Twice(x)) == Both(x, 0x7fffffff) && Bit(Twice(x)) == 0 && Both(Half(x), 0x7fffffff) == Half(x)
  {
  }

  lemma SmallBit(x: bv32)
    ensures Bit(x) <= 1 && Bit(0) == 0
  {
  }

  /** The mask m has its n lowest bits set and no others. */
  predicate Exactly(m: bv32, n: nat) { if n == 0 then m == 0 else m & 1 == 1 && Exactly(m >> 1, n - 1) }

  lemma Mask31()
    ensures Exactly(0x7fffffff, 31)
  {
    assert Exactly(0x0, 0);
    assert Exactly(0x1, 1);
    assert Exactly(0x3, 2);
    assert Exactly(0x7, 3);
    assert Exactly(0xf, 4);
    assert Exactly(0x1f, 5);
    assert Exactly(0x3f, 6);
    assert Exactly(0x7f, 7);
    assert Exactly(0xff, 8);
    assert Exactly(0x1ff, 9);
    assert Exactly(0x3ff, 10);
    assert Exactly(0x7ff, 11);
    assert Exactly(0xfff, 12);
    assert Exactly(0x1fff, 13);
    assert Exactly(0x3fff, 14);
    assert Exactly(0x7fff, 15);
    assert Exactly(0xffff, 16);
    assert Exactly(0x1ffff, 17);
    assert Exactly(0x3ffff, 18);
    assert Exactly(0x7ffff, 19);
    assert Exactly(0xfffff, 20);
    assert Exactly(0x1fffff, 21);
    assert Exactly(0x3fffff, 22);
    assert Exactly(0x7fffff, 23);
    assert Exactly(0xffffff, 24);
    assert Exactly(0x1ffffff, 25);
    assert Exactly(0x3ffffff, 26);
    assert Exactly(0x7ffffff, 27);
    assert Exactly(0xfffffff, 28);
    assert Exactly(0x1fffffff, 29);
    assert Exactly(0x3fffffff, 30);
    assert Exactly(0x7fffffff, 31);
  }

  lemma MaskBit(m: bv32, n: nat)
    requires n > 0 && Exactly(m, n)
    ensures Bit(m) == 1 && Exactly(Half(m), n - 1)
  {
  }

  lemma NoMask(x: bv32, m: bv32)
    requires Exactly(m, 0)
    ensures Both(x, m) == 0
  {
  }

  lemma MaskDown(x: bv32, m: bv32, n: nat)
    requires n > 0 && Exactly(m, n)
    ensures Exactly(Half(m), n - 1) && Half(Both(x, m)) == Both(Half(x), Half(m)) && Bit(Both(x, m)) == Bit(x)
  {
    hide Exactly, Both, Half, Bit;
    MaskBit(m, n);
    BothDown(x, m);
    SmallBit(x);
  }

  lemma ShiftsLeft(x: bv32)
    ensures x << 0 == x
    ensures Twice(x << 0) == x << 1
    ensures Twice(x << 1) == x << 2
    ensures Twice(x << 2) == x << 3
    ensures Twice(x << 3) == x << 4
    ensures Twice(x << 4) == x << 5
    ensures Twice(x << 5) == x << 6
    ensures Twice(x << 6) == x << 7
    ensures Twice(x << 7) == x << 8
    ensures Twice(x << 8) == x << 9
    ensures Twice(x << 9) == x << 10
    ensures Twice(x << 10) == x << 11
    ensures Twice(x << 11) == x << 12
    ensures Twice(x << 12) == x << 13
    ensures Twice(x << 13) == x << 14
    ensures Twice(x << 14) == x << 15
    ensures Twice(x << 15) == x << 16
    ensures Twice(x << 16) == x << 17
    ensures Twice(x << 17) == x << 18
    ensures Twice(x << 18) == x << 19
    ensures Twice(x << 19) == x << 20
    ensures Twice(x << 20) == x << 21
    ensures Twice(x << 21) == x << 22
    ensures Twice(x << 22) == x << 23
    ensures Twice(x << 23) == x << 24
    ensures Twice(x << 24) == x << 25
  {
  }

  lemma ShiftsRight(x: bv32)
    ensures x >> 0 == x
    ensures Half(x >> 0) == x >> 1
    ensures Half(x >> 1) == x >> 2
    ensures Half(x >> 2) == x >> 3
    ensures Half(x >> 3) == x >> 4
    ensures Half(x >> 4) == x >> 5
    ensures Half(x >> 5) == x >> 6
    ensures Half(x >> 6) == x >> 7
    ensures Half(x >> 7) == x >> 8
    ensures Half(x >> 8) == x >> 9
    ensures Half(x >> 9) == x >> 10
    ensures Half(x >> 10) == x >> 11
    ensures Half(x >> 11) == x >> 12
    ensures Half(x >> 12) == x >> 13
    ensures Half(x >> 13) == x >> 14
    ensures Half(x >> 14) == x >> 15
    ensures Half(x >> 15) == x >> 16
    ensures Half(x >> 16) == x >> 17
    ensures Half(x >> 17) == x >> 18
    ensures Half(x >> 18) == x >> 19
    ensures Half(x >> 19) == x >> 20
    ensures Half(x >> 20) == x >> 21
    ensures Half(x >> 21) == x >> 22
    ensures Half(x >> 22) == x >> 23
    ensures Half(x >> 23) == x >> 24
    ensures Half(x >> 24) == x >> 25
    ensures Half(x >> 25) == x >> 26
    ensures Half(x >> 26) == x >> 27
    ensures Half(x >> 27) == x >> 28
    ensures Half(x >> 28) == x >> 29
    ensures Half(x >> 29) == x >> 30
    ensures Half(x >> 30) == x >> 31
  {
  }

  // ---- addition -----------------------------------------------------------------------------------------------

  /** s is x + y as a full adder computes it: c holds the carries. */
  predicate Adds(x: bv32, y: bv32, s: bv32) {
    var c := x ^ y ^ s;
    c == ((x & y) | (x & c) | (y & c)) << 1
  }

  /** The carries at the bits that m selects. */
  predicate Carries(x: bv32, y: bv32, c: bv32, m: bv32) { ((c >> 1) ^ ((x & y) | (x & c) | (y & c))) & m == 0 }

  function Sum(x: bv32, y: bv32, c: bv32): bv32 { x ^ y ^ c }

  lemma CarriesRaw(x: bv32, y: bv32, c: bv32)
    ensures c == ((x & y) | (x & c) | (y & c)) << 1 ==>
            c & 1 == 0 && ((c >> 1) ^ ((x & y) | (x & c) | (y & c))) & 0x7fffffff == 0
  {
  }

  lemma CarriesAt(x: bv32, y: bv32, s: bv32, c: bv32)
    requires Adds(x, y, s) && c == Sum(x, y, s)
    ensures Carries(x, y, c, 0x7fffffff) && Bit(c) == 0
  {
    CarriesRaw(x, y, c);
  }

  lemma SumBack(x: bv32, y: bv32, s: bv32)
    ensures s == Sum(x, y, Sum(x, y, s))
  {
  }

  lemma CarriesDown(x: bv32, y: bv32, c: bv32, m: bv32)
    requires Carries(x, y, c, m)
    ensures Carries(Half(x), Half(y), Half(c), Half(m))
    ensures Bit(m) == 1 ==> Bit(Half(c)) == (Bit(x) + Bit(y) + Bit(c)) / 2
  {
  }

  lemma SumDown(x: bv32, y: bv32, c: bv32)
    ensures Half(Sum(x, y, c)) == Sum(Half(x), Half(y), Half(c))
    ensures Bit(Sum(x, y, c)) == (Bit(x) + Bit(y) + Bit(c)) % 2
  {
  }

  // ---- rotations --------------------------------------------------------------------------------------------

  /** The places that the macros turn by. */
  predicate Places(k: nat) {
    k == 4 || k == 6 || k == 8 || k == 11 || k == 14 || k == 16 || k == 19 || k == 24 || k == 25
  }

  function LeftBy(x: bv32, k: nat): bv32
    requires Places(k)
  {
    if k == 4 then x << 4
    else if k == 6 then x << 6
    else if k == 8 then x << 8
    else if k == 11 then x << 11
    else if k == 14 then x << 14
    else if k == 16 then x << 16
    else if k == 19 then x << 19
    else if k == 24 then x << 24
    else x << 25
  }

  /** The bits that fall out on the left. */
  function RightBy(x: bv32, k: nat): bv32
    requires Places(k)
  {
    if k == 4 then x >> 28
    else if k == 6 then x >> 26
    else if k == 8 then x >> 24
    else if k == 11 then x >> 21
    else if k == 14 then x >> 18
    else if k == 16 then x >> 16
    else if k == 19 then x >> 13
    else if k == 24 then x >> 8
    else x >> 7
  }

  /** rot(x, k) on words. */
  function Rotated(x: bv32, k: nat): bv32
    requires Places(k)
  {
    LeftBy(x, k) | RightBy(x, k)
  }

  // or and exclusive or come to the same in a rotation
  lemma Rotated4(x: bv32)
    ensures Rotated(x, 4) == Exclusive(LeftBy(x, 4), RightBy(x, 4))
  {
  }

  lemma Rotated6(x: bv32)
    ensures Rotated(x, 6) == Exclusive(LeftBy(x, 6), RightBy(x, 6))
  {
  }

  lemma Rotated8(x: bv32)
    ensures Rotated(x, 8) == Exclusive(LeftBy(x, 8), RightBy(x, 8))
  {
  }

  lemma Rotated11(x: bv32)
    ensures Rotated(x, 11) == Exclusive(LeftBy(x, 11), RightBy(x, 11))
  {
  }

  lemma Rotated14(x: bv32)
    ensures Rotated(x, 14) == Exclusive(LeftBy(x, 14), RightBy(x, 14))
  {
  }

  lemma Rotated16(x: bv32)
    ensures Rotated(x, 16) == Exclusive(LeftBy(x, 16), RightBy(x, 16))
  {
  }

  lemma Rotated19(x: bv32)
    ensures Rotated(x, 19) == Exclusive(LeftBy(x, 19), RightBy(x, 19))
  {
  }

  lemma Rotated24(x: bv32)
    ensures Rotated(x, 24) == Exclusive(LeftBy(x, 24), RightBy(x, 24))
  {
  }

  lemma Rotated25(x: bv32)
    ensures Rotated(x, 25) == Exclusive(LeftBy(x, 25), RightBy(x, 25))
  {
  }

  lemma RotatedIs(x: bv32, k: nat)
    requires Places(k)
    ensures Rotated(x, k) == Exclusive(LeftBy(x, k), RightBy(x, k))
  {
    hide LeftBy, RightBy, Rotated, Exclusive;
    match k
    case 4 => Rotated4(x);
    case 6 => Rotated6(x);
    case 8 => Rotated8(x);
    case 11 => Rotated11(x);
    case 14 => Rotated14(x);
    case 16 => Rotated16(x);
    case 19 => Rotated19(x);
    case 24 => Rotated24(x);
    case 25 => Rotated25(x);
    case _ =>
  }
}
