/** The hash of some keys, computed on words: mix and final of HashBits, step by step. */
module HashValues {
  import opened JenkinsHash
  import opened WordOps
  import opened HashBits

  /** The value of a hexadecimal digit. */
  function Digit(x: bv32): nat { 8 * Bit(x >> 3) + 4 * Bit(x >> 2) + 2 * Bit(x >> 1) + Bit(x) }

  lemma LowDigit(x: bv32, y: bv32, n: nat)
    requires n >= 4 && y == x >> 4
    ensures Low(x, n) == 16 * Low(y, n - 4) + Digit(x)
  {
    FourDown(x);
    LowIs(x, n);
    LowIs(Half(x), n - 1);
    LowIs(Half(Half(x)), n - 2);
    LowIs(Half(Half(Half(x))), n - 3);
    hide Low;
  }

  lemma FourDown(x: bv32)
    ensures Half(x) == x >> 1 && Half(Half(x)) == x >> 2 && Half(Half(Half(x))) == x >> 3
    ensures Half(Half(Half(Half(x)))) == x >> 4
  {
  }

  lemma NoLow(x: bv32)
    ensures Low(x, 0) == 0
  {
  }

  /** The number of a word, digit by digit. */
  lemma NumIs16(x: bv32, x1: bv32, x2: bv32, x3: bv32, x4: bv32, x5: bv32, x6: bv32, x7: bv32)
    requires x1 == x >> 4 && x2 == x1 >> 4 && x3 == x2 >> 4 && x4 == x3 >> 4 && x5 == x4 >> 4 && x6 == x5 >> 4 &&
      x7 == x6 >> 4
    ensures Num(x) == Digit(x) + 0x10 * Digit(x1) + 0x100 * Digit(x2) + 0x1000 * Digit(x3) + 0x10000 * Digit(x4)
                      + 0x100000 * Digit(x5) + 0x1000000 * Digit(x6) + 0x10000000 * Digit(x7)
  {
    hide *;
    NumIs(x);
    LowDigit(x, x1, 32);
    LowDigit(x1, x2, 28);
    LowDigit(x2, x3, 24);
    LowDigit(x3, x4, 20);
    LowDigit(x4, x5, 16);
    LowDigit(x5, x6, 12);
    LowDigit(x6, x7, 8);
    LowDigit(x7, x7 >> 4, 4);
    NoLow(x7 >> 4);
  }

  // ---- the hashes -----------------------------------------------------------------------------------------

  /** The hash of the empty key. */
  lemma EmptyKey(initval: Word)
    ensures HashOf([], initval) == (0xdeadbeef + initval) % WORD
  {
  }

  const ABC: seq<Byte> := [0x61, 0x62, 0x63]

  lemma NumbersOfAbc()
    ensures Num(0xdf112153) == 0xdf112153 && Num(0xdeadbef2) == 0xdeadbef2 && Num(0x0e397631) == 0x0e397631
  {
    hide Num;
    NumIs16(0xdf112153, 0xdf11215, 0xdf1121, 0xdf112, 0xdf11, 0xdf1, 0xdf, 0xd);
    NumIs16(0xdeadbef2, 0xdeadbef, 0xdeadbe, 0xdeadb, 0xdead, 0xdea, 0xde, 0xd);
    NumIs16(0xe397631, 0xe39763, 0xe3976, 0xe397, 0xe39, 0xe3, 0xe, 0x0);
  }

  lemma FinalOfAbc()
    ensures Final(Abc(Num(0xdf112153), Num(0xdeadbef2), Num(0xdeadbef2))) ==
      Abc(Num(0x9e0d04dc), Num(0x3c03be9e), Num(0x0e397631))
  {
    hide Num, Fold;
    FoldWords(0xdeadbef2, 0xdeadbef2, 14, 0x90434855);
    FoldWords(0xdf112153, 0x90434855, 11, 0x350fbc84);
    FoldWords(0xdeadbef2, 0x350fbc84, 25, 0xe337e2fd);
    FoldWords(0x90434855, 0xe337e2fd, 16, 0x9076c771);
    FoldWords(0x350fbc84, 0x9076c771, 4, 0x9e0d04dc);
    FoldWords(0xe337e2fd, 0x9e0d04dc, 14, 0x3c03be9e);
    FoldWords(0x9076c771, 0x3c03be9e, 24, 0x0e397631);
  }

  lemma AbsorbAbc()
    ensures Full(3) == 0 && Absorb(Begin(3, 0), Padded(ABC)) == Abc(0xdf112153, 0xdeadbef2, 0xdeadbef2)
  {
    ZerosIs(9);
    assert Padded(ABC) == [0x61, 0x62, 0x63, 0, 0, 0, 0, 0, 0, 0, 0, 0];
  }

  lemma ZerosIs(n: nat)
    requires n == 9 || n == 6
    ensures Zeros(n) == if n == 9 then [0, 0, 0, 0, 0, 0, 0, 0, 0] else [0, 0, 0, 0, 0, 0]
  {
  }

  /** hash("abc", 3, 0). */
  lemma HashOfAbc()
    ensures HashOf(ABC, 0) == 0x0e397631
  {
    hide Absorb, Begin, Padded, Final, Num, Full;
    AbsorbAbc();
    NumbersOfAbc();
    FinalOfAbc();
    assert ABC[0..] == ABC;
  }

  const FOUR_SCORE: seq<Byte> := [
    0x46, 0x6f, 0x75, 0x72, 0x20, 0x73, 0x63, 0x6f, 0x72, 0x65, 0x20, 0x61, 0x6e, 0x64, 0x20,
    0x73, 0x65, 0x76, 0x65, 0x6e, 0x20, 0x79, 0x65, 0x61, 0x72, 0x73, 0x20, 0x61, 0x67, 0x6f]

  const BLOCK1: seq<Byte> := [0x46, 0x6f, 0x75, 0x72, 0x20, 0x73, 0x63, 0x6f, 0x72, 0x65, 0x20, 0x61]

  const BLOCK2: seq<Byte> := [0x6e, 0x64, 0x20, 0x73, 0x65, 0x76, 0x65, 0x6e, 0x20, 0x79, 0x65, 0x61]

  const BLOCK3: seq<Byte> := [0x72, 0x73, 0x20, 0x61, 0x67, 0x6f, 0x00, 0x00, 0x00, 0x00, 0x00, 0x00]

  lemma BlocksOfFourScore()
    ensures |FOUR_SCORE| == 30 && Full(30) == 2 && |BLOCK1| == |BLOCK2| == |BLOCK3| == 12
    ensures FOUR_SCORE[0..12] == BLOCK1 && FOUR_SCORE[12..24] == BLOCK2 && Padded(FOUR_SCORE[24..]) == BLOCK3
  {
    ZerosIs(6);
  }

  lemma ReadBlock1()
    ensures |BLOCK1| == 12 && Le32(BLOCK1, 0) == 0x72756f46 && Le32(BLOCK1, 4) == 0x6f637320 && Le32(BLOCK1, 8) == 0x61206572
  {
  }

  lemma WordsOfBlock1()
    ensures |BLOCK1| == 12 && Le32(BLOCK1, 0) == Num(0x72756f46) && Le32(BLOCK1, 4) == Num(0x6f637320) &&
      Le32(BLOCK1, 8) == Num(0x61206572)
  {
    hide Num, Le32, BLOCK1;
    ReadBlock1();
    NumIs16(0x72756f46, 0x72756f4, 0x72756f, 0x72756, 0x7275, 0x727, 0x72, 0x7);
    NumIs16(0x6f637320, 0x6f63732, 0x6f6373, 0x6f637, 0x6f63, 0x6f6, 0x6f, 0x6);
    NumIs16(0x61206572, 0x6120657, 0x612065, 0x61206, 0x6120, 0x612, 0x61, 0x6);
  }

  lemma ReadBlock2()
    ensures |BLOCK2| == 12 && Le32(BLOCK2, 0) == 0x7320646e && Le32(BLOCK2, 4) == 0x6e657665 && Le32(BLOCK2, 8) == 0x61657920
  {
  }

  lemma WordsOfBlock2()
    ensures |BLOCK2| == 12 && Le32(BLOCK2, 0) == Num(0x7320646e) && Le32(BLOCK2, 4) == Num(0x6e657665) &&
      Le32(BLOCK2, 8) == Num(0x61657920)
  {
    hide Num, Le32, BLOCK2;
    ReadBlock2();
    NumIs16(0x7320646e, 0x7320646, 0x732064, 0x73206, 0x7320, 0x732, 0x73, 0x7);
    NumIs16(0x6e657665, 0x6e65766, 0x6e6576, 0x6e657, 0x6e65, 0x6e6, 0x6e, 0x6);
    NumIs16(0x61657920, 0x6165792, 0x616579, 0x61657, 0x6165, 0x616, 0x61, 0x6);
  }

  lemma ReadBlock3()
    ensures |BLOCK3| == 12 && Le32(BLOCK3, 0) == 0x61207372 && Le32(BLOCK3, 4) == 0x00006f67 && Le32(BLOCK3, 8) == 0x00000000
  {
  }

  lemma WordsOfBlock3()
    ensures |BLOCK3| == 12 && Le32(BLOCK3, 0) == Num(0x61207372) && Le32(BLOCK3, 4) == Num(0x00006f67) &&
      Le32(BLOCK3, 8) == Num(0x00000000)
  {
    hide Num, Le32, BLOCK3;
    ReadBlock3();
    NumIs16(0x61207372, 0x6120737, 0x612073, 0x61207, 0x6120, 0x612, 0x61, 0x6);
    NumIs16(0x6f67, 0x6f6, 0x6f, 0x6, 0x0, 0x0, 0x0, 0x0);
    NumIs16(0x0, 0x0, 0x0, 0x0, 0x0, 0x0, 0x0, 0x0);
  }

  lemma NumbersOfFourScore0()
    ensures Num(0xdeadbf0d) == 0xdeadbf0d && Num(0x17770551) == 0x17770551
  {
    hide Num;
    NumIs16(0xdeadbf0d, 0xdeadbf0, 0xdeadbf, 0xdeadb, 0xdead, 0xdea, 0xde, 0xd);
    NumIs16(0x17770551, 0x1777055, 0x177705, 0x17770, 0x1777, 0x177, 0x17, 0x1);
  }

  lemma Absorb1OfFourScore0()
    ensures |BLOCK1| == 12 && Absorb(Abc(Num(0xdeadbf0d), Num(0xdeadbf0d), Num(0xdeadbf0d)), BLOCK1) ==
      Abc(Num(0x51232e53), Num(0x4e11322d), Num(0x3fce247f))
  {
    hide Num, Le32, Add, BLOCK1;
    WordsOfBlock1();
    NumAdd(0xdeadbf0d, 0x72756f46, 0x51232e53);
    NumAdd(0xdeadbf0d, 0x6f637320, 0x4e11322d);
    NumAdd(0xdeadbf0d, 0x61206572, 0x3fce247f);
  }

  lemma Mix1OfFourScore0()
    ensures Mix(Abc(Num(0x51232e53), Num(0x4e11322d), Num(0x3fce247f))) ==
      Abc(Num(0xf859ad7a), Num(0x04bc57ae), Num(0x40dddd7e))
  {
    hide Num, Turn;
    TurnWords(0x51232e53, 0x4e11322d, 0x3fce247f, 4, 0x115509d4, 0xedb74e27, 0x8ddf56ac);
    TurnWords(0x4e11322d, 0x8ddf56ac, 0xedb74e27, 6, 0x6059e406, 0x0d8a6dfd, 0x7b96a4d3);
    TurnWords(0x8ddf56ac, 0x7b96a4d3, 0x0d8a6dfd, 8, 0x8054e8af, 0x0a3915a2, 0x892112d0);
    TurnWords(0x7b96a4d3, 0x892112d0, 0x0a3915a2, 16, 0x715d8f31, 0x64ff8508, 0x935a2872);
    TurnWords(0x892112d0, 0x935a2872, 0x64ff8508, 19, 0x24218dc8, 0x0c62aa34, 0xf859ad7a);
    TurnWords(0x935a2872, 0xf859ad7a, 0x0c62aa34, 4, 0x86f77e3e, 0x40dddd7e, 0x04bc57ae);
  }

  lemma Absorb2OfFourScore0()
    ensures |BLOCK2| == 12 && Absorb(Abc(Num(0xf859ad7a), Num(0x04bc57ae), Num(0x40dddd7e)), BLOCK2) ==
      Abc(Num(0x6b7a11e8), Num(0x7321ce13), Num(0xa243569e))
  {
    hide Num, Le32, Add, BLOCK2;
    WordsOfBlock2();
    NumAdd(0xf859ad7a, 0x7320646e, 0x6b7a11e8);
    NumAdd(0x04bc57ae, 0x6e657665, 0x7321ce13);
    NumAdd(0x40dddd7e, 0x61657920, 0xa243569e);
  }

  lemma Mix2OfFourScore0()
    ensures Mix(Abc(Num(0x6b7a11e8), Num(0x7321ce13), Num(0xa243569e))) ==
      Abc(Num(0x336aded2), Num(0x059f2642), Num(0xbd02ebd5))
  {
    hide Num, Turn;
    TurnWords(0x6b7a11e8, 0x7321ce13, 0xa243569e, 4, 0xc936bb4a, 0xed03d2a0, 0x156524b1);
    TurnWords(0x7321ce13, 0x156524b1, 0xed03d2a0, 6, 0x861dfb73, 0xc6e95348, 0x0268f751);
    TurnWords(0x156524b1, 0x0268f751, 0xc6e95348, 8, 0x4e7bd169, 0xa72899af, 0xc9524a99);
    TurnWords(0x0268f751, 0xc9524a99, 0xa72899af, 16, 0x5b405da2, 0xc2effa8a, 0x707ae448);
    TurnWords(0xc9524a99, 0x707ae448, 0xc2effa8a, 19, 0x0662500f, 0xd2344770, 0x336aded2);
    TurnWords(0x707ae448, 0x336aded2, 0xd2344770, 4, 0x9e469cd8, 0xbd02ebd5, 0x059f2642);
  }

  lemma Absorb3OfFourScore0()
    ensures |BLOCK3| == 12 && Absorb(Abc(Num(0x336aded2), Num(0x059f2642), Num(0xbd02ebd5)), BLOCK3) ==
      Abc(Num(0x948b5244), Num(0x059f95a9), Num(0xbd02ebd5))
  {
    hide Num, Le32, Add, BLOCK3;
    WordsOfBlock3();
    NumAdd(0x336aded2, 0x61207372, 0x948b5244);
    NumAdd(0x059f2642, 0x00006f67, 0x059f95a9);
    NumAdd(0xbd02ebd5, 0x00000000, 0xbd02ebd5);
  }

  lemma FinalOfFourScore0()
    ensures Final(Abc(Num(0x948b5244), Num(0x059f95a9), Num(0xbd02ebd5))) ==
      Abc(Num(0x9a837816), Num(0xce7226e6), Num(0x17770551))
  {
    hide Num, Fold;
    FoldWords(0xbd02ebd5, 0x059f95a9, 14, 0xd3333d15);
    FoldWords(0x948b5244, 0xd3333d15, 11, 0xadcfc0b8);
    FoldWords(0x059f95a9, 0xadcfc0b8, 25, 0x36f4b590);
    FoldWords(0xd3333d15, 0x36f4b590, 16, 0x30375191);
    FoldWords(0xadcfc0b8, 0x30375191, 4, 0x9a837816);
    FoldWords(0x36f4b590, 0x9a837816, 14, 0xce7226e6);
    FoldWords(0x30375191, 0xce7226e6, 24, 0x17770551);
  }

  /** hash("Four score and seven years ago", 30, 0). */
  lemma HashOfFourScore0()
    ensures HashOf(FOUR_SCORE, 0) == 0x17770551
  {
    hide Absorb, Padded, Mix, Final, Num, Full, FOUR_SCORE, BLOCK1, BLOCK2, BLOCK3;
    BlocksOfFourScore();
    NumbersOfFourScore0();
    Absorb1OfFourScore0();
    Mix1OfFourScore0();
    Absorb2OfFourScore0();
    Mix2OfFourScore0();
    Absorb3OfFourScore0();
    FinalOfFourScore0();
    var s := Begin(30, 0);
    assert s == Abc(Num(0xdeadbf0d), Num(0xdeadbf0d), Num(0xdeadbf0d));
    assert Blocks(s, FOUR_SCORE, 0) == s;
    assert Blocks(s, FOUR_SCORE, 1) == Mix(Absorb(s, FOUR_SCORE[0..12]));
    assert Blocks(s, FOUR_SCORE, 2) == Mix(Absorb(Blocks(s, FOUR_SCORE, 1), FOUR_SCORE[12..24]));
  }

  lemma NumbersOfFourScore1()
    ensures Num(0xdeadbf0e) == 0xdeadbf0e && Num(0xcd628161) == 0xcd628161
  {
    hide Num;
    NumIs16(0xdeadbf0e, 0xdeadbf0, 0xdeadbf, 0xdeadb, 0xdead, 0xdea, 0xde, 0xd);
    NumIs16(0xcd628161, 0xcd62816, 0xcd6281, 0xcd628, 0xcd62, 0xcd6, 0xcd, 0xc);
  }

  lemma Absorb1OfFourScore1()
    ensures |BLOCK1| == 12 && Absorb(Abc(Num(0xdeadbf0e), Num(0xdeadbf0e), Num(0xdeadbf0e)), BLOCK1) ==
      Abc(Num(0x51232e54), Num(0x4e11322e), Num(0x3fce2480))
  {
    hide Num, Le32, Add, BLOCK1;
    WordsOfBlock1();
    NumAdd(0xdeadbf0e, 0x72756f46, 0x51232e54);
    NumAdd(0xdeadbf0e, 0x6f637320, 0x4e11322e);
    NumAdd(0xdeadbf0e, 0x61206572, 0x3fce2480);
  }

  lemma Mix1OfFourScore1()
    ensures Mix(Abc(Num(0x51232e54), Num(0x4e11322e), Num(0x3fce2480))) ==
      Abc(Num(0x9fb9ade6), Num(0x89211ba9), Num(0x3ffff143))
  {
    hide Num, Turn;
    TurnWords(0x51232e54, 0x4e11322e, 0x3fce2480, 4, 0x115509d4, 0xedb741d7, 0x8ddf56ae);
    TurnWords(0x4e11322e, 0x8ddf56ae, 0xedb741d7, 6, 0x6059f057, 0x0d8985ac, 0x7b969885);
    TurnWords(0x8ddf56ae, 0x7b969885, 0x0d8985ac, 8, 0x8055d102, 0x09d07d0f, 0x89201e31);
    TurnWords(0x7b969885, 0x89201e31, 0x09d07d0f, 16, 0x71c61b76, 0x0cc912a6, 0x92f09b40);
    TurnWords(0x89201e31, 0x92f09b40, 0x0cc912a6, 19, 0x7c570b8b, 0xe9676dc3, 0x9fb9ade6);
    TurnWords(0x92f09b40, 0x9fb9ade6, 0xe9676dc3, 4, 0xa9892d7d, 0x3ffff143, 0x89211ba9);
  }

  lemma Absorb2OfFourScore1()
    ensures |BLOCK2| == 12 && Absorb(Abc(Num(0x9fb9ade6), Num(0x89211ba9), Num(0x3ffff143)), BLOCK2) ==
      Abc(Num(0x12da1254), Num(0xf786920e), Num(0xa1656a63))
  {
    hide Num, Le32, Add, BLOCK2;
    WordsOfBlock2();
    NumAdd(0x9fb9ade6, 0x7320646e, 0x12da1254);
    NumAdd(0x89211ba9, 0x6e657665, 0xf786920e);
    NumAdd(0x3ffff143, 0x61657920, 0xa1656a63);
  }

  lemma Mix2OfFourScore1()
    ensures Mix(Abc(Num(0x12da1254), Num(0xf786920e), Num(0xa1656a63))) ==
      Abc(Num(0xd68042ad), Num(0x488e0a5d), Num(0xab16e7b2))
  {
    hide Num, Turn;
    TurnWords(0x12da1254, 0xf786920e, 0xa1656a63, 4, 0x7174a7f1, 0x672201cb, 0x98ebfc71);
    TurnWords(0xf786920e, 0x98ebfc71, 0x672201cb, 6, 0x90649043, 0x58e4e29a, 0x000dfe3c);
    TurnWords(0x98ebfc71, 0x000dfe3c, 0x58e4e29a, 8, 0x400719d7, 0xa4e5838f, 0x58f2e0d6);
    TurnWords(0x000dfe3c, 0x58f2e0d6, 0xa4e5838f, 16, 0x5b287aad, 0xd8a7de48, 0xfdd86465);
    TurnWords(0x58f2e0d6, 0xfdd86465, 0xd8a7de48, 19, 0x804b028e, 0x720dc7b0, 0xd68042ad);
    TurnWords(0xfdd86465, 0xd68042ad, 0x720dc7b0, 4, 0x8bca9cb5, 0xab16e7b2, 0x488e0a5d);
  }

  lemma Absorb3OfFourScore1()
    ensures |BLOCK3| == 12 && Absorb(Abc(Num(0xd68042ad), Num(0x488e0a5d), Num(0xab16e7b2)), BLOCK3) ==
      Abc(Num(0x37a0b61f), Num(0x488e79c4), Num(0xab16e7b2))
  {
    hide Num, Le32, Add, BLOCK3;
    WordsOfBlock3();
    NumAdd(0xd68042ad, 0x61207372, 0x37a0b61f);
    NumAdd(0x488e0a5d, 0x00006f67, 0x488e79c4);
    NumAdd(0xab16e7b2, 0x00000000, 0xab16e7b2);
  }

  lemma FinalOfFourScore1()
    ensures Final(Abc(Num(0x37a0b61f), Num(0x488e79c4), Num(0xab16e7b2))) ==
      Abc(Num(0x1336f927), Num(0x6cbea4b3), Num(0xcd628161))
  {
    hide Num, Fold;
    FoldWords(0xab16e7b2, 0x488e79c4, 14, 0x45278c53);
    FoldWords(0x37a0b61f, 0x45278c53, 11, 0x3624a023);
    FoldWords(0x488e79c4, 0x3624a023, 25, 0x383e90a7);
    FoldWords(0x45278c53, 0x383e90a7, 16, 0xec71e4b6);
    FoldWords(0x3624a023, 0xec71e4b6, 4, 0x1336f927);
    FoldWords(0x383e90a7, 0x1336f927, 14, 0x6cbea4b3);
    FoldWords(0xec71e4b6, 0x6cbea4b3, 24, 0xcd628161);
  }

  /** hash("Four score and seven years ago", 30, 1). */
  lemma HashOfFourScore1()
    ensures HashOf(FOUR_SCORE, 1) == 0xcd628161
  {
    hide Absorb, Padded, Mix, Final, Num, Full, FOUR_SCORE, BLOCK1, BLOCK2, BLOCK3;
    BlocksOfFourScore();
    NumbersOfFourScore1();
    Absorb1OfFourScore1();
    Mix1OfFourScore1();
    Absorb2OfFourScore1();
    Mix2OfFourScore1();
    Absorb3OfFourScore1();
    FinalOfFourScore1();
    var s := Begin(30, 1);
    assert s == Abc(Num(0xdeadbf0e), Num(0xdeadbf0e), Num(0xdeadbf0e));
    assert Blocks(s, FOUR_SCORE, 0) == s;
    assert Blocks(s, FOUR_SCORE, 1) == Mix(Absorb(s, FOUR_SCORE[0..12]));
    assert Blocks(s, FOUR_SCORE, 2) == Mix(Absorb(Blocks(s, FOUR_SCORE, 1), FOUR_SCORE[12..24]));
  }
}
