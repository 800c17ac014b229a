/** The hash of hashtable/hash.c (little-endian): its three reading paths compute one function of
    the key's bytes, and mix and final lose no information. */
module JenkinsHash {
  const WORD: nat := 0x1_0000_0000

  /** uint32_t. */
  type Word = x: nat | x < WORD

  type Byte = b: nat | b < 256

  datatype Abc = Abc(a: Word, b: Word, c: Word)

  // ---- words ------------------------------------------------------------------------------------------

  function Add(x: Word, y: Word): Word { (x + y) % WORD }

  function Sub(x: Word, y: Word): Word { (x + WORD - y) % WORD }

  function Pow2(n: nat): nat { if n == 0 then 1 else 2 * Pow2(n - 1) }

  /** Exclusive or of the lowest n bits. */
  function XorBits(x: nat, y: nat, n: nat): (z: nat)
    ensures z < Pow2(n)
  {
    if n == 0 then 0 else 2 * XorBits(x / 2, y / 2, n - 1) + if x % 2 != y % 2 then 1 else 0
  }

  lemma Pow32()
    ensures Pow2(32) == WORD
  {
    assert Pow2(8) == 256 && Pow2(16) == 65536 && Pow2(24) == 16777216;
  }

  function Xor(x: Word, y: Word): Word {
    Pow32();
    XorBits(x, y, 32)
  }

  function ShiftLeft(x: Word, k: nat): Word { (x * Pow2(k)) % WORD }

  function ShiftRight(x: Word, k: nat): Word { if k == 0 then x else ShiftRight(x / 2, k - 1) }

  /** rot(x, k). */
  function Rot(x: Word, k: nat): Word
    requires 0 < k < 32
  {
    Xor(ShiftLeft(x, k), ShiftRight(x, 32 - k))
  }

  lemma AddSub(x: Word, y: Word)
    ensures Sub(Add(x, y), y) == x && Add(Sub(x, y), y) == x
  {
  }

  lemma {:induction false} XorBitsTwice(x: nat, y: nat, n: nat)
    requires x < Pow2(n)
    ensures XorBits(XorBits(x, y, n), y, n) == x
  {
    if n > 0 {
      var bit := if x % 2 != y % 2 then 1 else 0;
      Halved(XorBits(x / 2, y / 2, n - 1), bit);
      XorBitsTwice(x / 2, y / 2, n - 1);
    }
  }

  lemma Halved(x: nat, bit: nat)
    requires bit < 2
    ensures (2 * x + bit) / 2 == x && (2 * x + bit) % 2 == bit
  {
  }

  lemma XorXor(x: Word, y: Word)
    ensures Xor(Xor(x, y), y) == x
  {
    Pow32();
    XorBitsTwice(x, y, 32);
  }

  // ---- mix ------------------------------------------------------------------------------------------

  /** x -= z; x ^= rot(z, k); z += y. */
  function Turn(x: Word, y: Word, z: Word, k: nat): (Word, Word)
    requires 0 < k < 32
  {
    (Xor(Sub(x, z), Rot(z, k)), Add(z, y))
  }

  /** Back: z -= y; x ^= rot(z, k); x += z. */
  function Unturn(x: Word, y: Word, z: Word, k: nat): (Word, Word)
    requires 0 < k < 32
  {
    var w := Sub(z, y);
    (Add(Xor(x, Rot(w, k)), w), w)
  }

  lemma TurnBack(x: Word, y: Word, z: Word, k: nat)
    requires 0 < k < 32
    ensures var (p, q) := Turn(x, y, z, k); Unturn(p, y, q, k) == (x, z)
  {
    hide Rot, Add, Sub, Xor;
    AddSub(z, y);
    XorXor(Sub(x, z), Rot(z, k));
    AddSub(x, z);
  }

  lemma UnturnBack(x: Word, y: Word, z: Word, k: nat)
    requires 0 < k < 32
    ensures var (p, q) := Unturn(x, y, z, k); Turn(p, y, q, k) == (x, z)
  {
    hide Rot, Add, Sub, Xor;
    var w := Sub(z, y);
    AddSub(z, y);
    AddSub(Xor(x, Rot(w, k)), w);
    XorXor(x, Rot(w, k));
  }

  function Mix(s: Abc): Abc {
    var (a1, c1) := Turn(s.a, s.b, s.c, 4);
    var (b1, a2) := Turn(s.b, c1, a1, 6);
    var (c2, b2) := Turn(c1, a2, b1, 8);
    var (a3, c3) := Turn(a2, b2, c2, 16);
    var (b3, a4) := Turn(b2, c3, a3, 19);
    var (c4, b4) := Turn(c3, a4, b3, 4);
    Abc(a4, b4, c4)
  }

  function Unmix(s: Abc): Abc {
    var (c3, b3) := Unturn(s.c, s.a, s.b, 4);
    var (b2, a3) := Unturn(b3, c3, s.a, 19);
    var (a2, c2) := Unturn(a3, b2, c3, 16);
    var (c1, b1) := Unturn(c2, a2, b2, 8);
    var (b0, a1) := Unturn(b1, c1, a2, 6);
    var (a0, c0) := Unturn(a1, b0, c1, 4);
    Abc(a0, b0, c0)
  }

  /** mix is reversible, as its comment says: Unmix undoes it on every triple, and it undoes Unmix. */
  lemma MixBijective(s: Abc)
    ensures Unmix(Mix(s)) == s && Mix(Unmix(s)) == s
  {
    hide Turn, Unturn;
    var (a1, c1) := Turn(s.a, s.b, s.c, 4);
    var (b1, a2) := Turn(s.b, c1, a1, 6);
    var (c2, b2) := Turn(c1, a2, b1, 8);
    var (a3, c3) := Turn(a2, b2, c2, 16);
    var (b3, a4) := Turn(b2, c3, a3, 19);
    TurnBack(s.a, s.b, s.c, 4);
    TurnBack(s.b, c1, a1, 6);
    TurnBack(c1, a2, b1, 8);
    TurnBack(a2, b2, c2, 16);
    TurnBack(b2, c3, a3, 19);
    TurnBack(c3, a4, b3, 4);
    UnmixFirst(s);
  }

  lemma UnmixFirst(s: Abc)
    ensures Mix(Unmix(s)) == s
  {
    hide Turn, Unturn;
    var (c3, b3) := Unturn(s.c, s.a, s.b, 4);
    var (b2, a3) := Unturn(b3, c3, s.a, 19);
    var (a2, c2) := Unturn(a3, b2, c3, 16);
    var (c1, b1) := Unturn(c2, a2, b2, 8);
    var (b0, a1) := Unturn(b1, c1, a2, 6);
    UnturnBack(s.c, s.a, s.b, 4);
    UnturnBack(b3, c3, s.a, 19);
    UnturnBack(a3, b2, c3, 16);
    UnturnBack(c2, a2, b2, 8);
    UnturnBack(b1, c1, a2, 6);
    UnturnBack(a1, b0, c1, 4);
  }

  // ---- final ----------------------------------------------------------------------------------------

  /** x ^= y; x -= rot(y, k). */
  function Fold(x: Word, y: Word, k: nat): Word
    requires 0 < k < 32
  {
    Sub(Xor(x, y), Rot(y, k))
  }

  function Unfold(x: Word, y: Word, k: nat): Word
    requires 0 < k < 32
  {
    Xor(Add(x, Rot(y, k)), y)
  }

  lemma FoldBack(x: Word, y: Word, k: nat)
    requires 0 < k < 32
    ensures Unfold(Fold(x, y, k), y, k) == x && Fold(Unfold(x, y, k), y, k) == x
  {
    hide Rot, Add, Sub, Xor;
    var r := Rot(y, k);
    AddSub(Xor(x, y), r);
    XorXor(x, y);
    AddSub(x, r);
    XorXor(Add(x, r), y);
  }

  function Final(s: Abc): Abc {
    var c1 := Fold(s.c, s.b, 14);
    var a1 := Fold(s.a, c1, 11);
    var b1 := Fold(s.b, a1, 25);
    var c2 := Fold(c1, b1, 16);
    var a2 := Fold(a1, c2, 4);
    var b2 := Fold(b1, a2, 14);
    Abc(a2, b2, Fold(c2, b2, 24))
  }

  function Unfinal(s: Abc): Abc {
    var c2 := Unfold(s.c, s.b, 24);
    var b1 := Unfold(s.b, s.a, 14);
    var a1 := Unfold(s.a, c2, 4);
    var c1 := Unfold(c2, b1, 16);
    var b0 := Unfold(b1, a1, 25);
    var a0 := Unfold(a1, c1, 11);
    Abc(a0, b0, Unfold(c1, b0, 14))
  }

  lemma FinalBijective(s: Abc)
    ensures Unfinal(Final(s)) == s && Final(Unfinal(s)) == s
  {
    hide Fold, Unfold;
    var c1 := Fold(s.c, s.b, 14);
    var a1 := Fold(s.a, c1, 11);
    var b1 := Fold(s.b, a1, 25);
    var c2 := Fold(c1, b1, 16);
    var a2 := Fold(a1, c2, 4);
    FoldBack(s.c, s.b, 14);
    FoldBack(s.a, c1, 11);
    FoldBack(s.b, a1, 25);
    FoldBack(c1, b1, 16);
    FoldBack(a1, c2, 4);
    FoldBack(b1, a2, 14);
    FoldBack(c2, Fold(b1, a2, 14), 24);
    UnfinalFirst(s);
  }

  lemma UnfinalFirst(s: Abc)
    ensures Final(Unfinal(s)) == s
  {
    hide Fold, Unfold;
    var c2 := Unfold(s.c, s.b, 24);
    var b1 := Unfold(s.b, s.a, 14);
    var a1 := Unfold(s.a, c2, 4);
    var c1 := Unfold(c2, b1, 16);
    var b0 := Unfold(b1, a1, 25);
    FoldBack(s.c, s.b, 24);
    FoldBack(s.b, s.a, 14);
    FoldBack(s.a, c2, 4);
    FoldBack(c2, b1, 16);
    FoldBack(b1, a1, 25);
    FoldBack(a1, c1, 11);
    FoldBack(c1, b0, 14);
  }

  // ---- the function of the bytes ------------------------------------------------------------------------

  /** The little-endian word at position i. */
  function Le32(s: seq<Byte>, i: nat): Word
    requires i + 4 <= |s|
  {
    s[i] as nat + 0x100 * (s[i + 1] as nat) + 0x10000 * (s[i + 2] as nat) + 0x1000000 * (s[i + 3] as nat)
  }

  function Le16(s: seq<Byte>, i: nat): (w: nat)
    requires i + 2 <= |s|
    ensures w < 0x10000
  {
    s[i] as nat + 0x100 * (s[i + 1] as nat)
  }

  /** A block of twelve bytes is added to the three words. */
  function Absorb(s: Abc, block: seq<Byte>): Abc
    requires |block| == 12
  {
    Abc(Add(s.a, Le32(block, 0)), Add(s.b, Le32(block, 4)), Add(s.c, Le32(block, 8)))
  }

  function Zeros(n: nat): (s: seq<Byte>)
    ensures |s| == n && forall i :: 0 <= i < n ==> s[i] == 0
  {
    if n == 0 then [] else [0] + Zeros(n - 1)
  }

  /** A last block is as good as one filled up with zeros. */
  function Padded(s: seq<Byte>): (t: seq<Byte>)
    requires |s| <= 12
    ensures |t| == 12
  {
    s + Zeros(12 - |s|)
  }

  function Begin(length: nat, initval: Word): Abc {
    var x := (0xdeadbeef + length + initval) % WORD;
    Abc(x, x, x)
  }

  /** The words after n full blocks. */
  function Blocks(s: Abc, key: seq<Byte>, n: nat): Abc
    requires 12 * n <= |key|
  {
    if n == 0 then s else Mix(Absorb(Blocks(s, key, n - 1), key[12 * (n - 1)..12 * n]))
  }

  /** The number of blocks before the last one, which is never empty unless the key is. */
  function Full(length: nat): (n: nat)
    ensures 12 * n <= length && (length > 0 ==> 0 < length - 12 * n <= 12)
  {
    if length == 0 then 0 else (length - 1) / 12
  }

  /** The hash of a key: its full blocks mixed in, the last one padded and finished. */
  function HashOf(key: seq<Byte>, initval: Word): Word {
    if key == [] then Begin(0, initval).c
    else
      var n := Full(|key|);
      Final(Absorb(Blocks(Begin(|key|, initval), key, n), Padded(key[12 * n..]))).c
  }

  // ---- no collision inside a common frame -------------------------------------------------------------------

  lemma MixInjective(s: Abc, t: Abc)
    requires Mix(s) == Mix(t)
    ensures s == t
  {
    hide Mix, Unmix;
    MixBijective(s);
    MixBijective(t);
  }

  lemma AddInjective(x: Word, y: Word, z: Word)
    ensures Add(x, z) == Add(y, z) ==> x == y
    ensures Add(z, x) == Add(z, y) ==> x == y
  {
  }

  lemma LeInjective(s: seq<Byte>, t: seq<Byte>, i: nat)
    requires i + 4 <= |s| && i + 4 <= |t| && Le32(s, i) == Le32(t, i)
    ensures s[i] == t[i] && s[i + 1] == t[i + 1] && s[i + 2] == t[i + 2] && s[i + 3] == t[i + 3]
  {
    var x2, y2 := s[i + 2] as nat + 256 * (s[i + 3] as nat), t[i + 2] as nat + 256 * (t[i + 3] as nat);
    LowByte(s[i] as nat, s[i + 1] as nat + 256 * x2, t[i] as nat, t[i + 1] as nat + 256 * y2);
    LowByte(s[i + 1] as nat, x2, t[i + 1] as nat, y2);
    LowByte(s[i + 2] as nat, s[i + 3] as nat, t[i + 2] as nat, t[i + 3] as nat);
  }

  lemma LowByte(a: nat, x: nat, b: nat, y: nat)
    requires a < 256 && b < 256 && a + 256 * x == b + 256 * y
    ensures a == b && x == y
  {
  }

  lemma AbsorbInjective(s: Abc, x: seq<Byte>, y: seq<Byte>)
    requires |x| == |y| == 12 && Absorb(s, x) == Absorb(s, y)
    ensures x == y
  {
    hide Add, Le32;
    AddInjective(Le32(x, 0), Le32(y, 0), s.a);
    AddInjective(Le32(x, 4), Le32(y, 4), s.b);
    AddInjective(Le32(x, 8), Le32(y, 8), s.c);
    LeInjective(x, y, 0);
    LeInjective(x, y, 4);
    LeInjective(x, y, 8);
  }

  lemma AbsorbKeepsApart(s: Abc, t: Abc, x: seq<Byte>)
    requires |x| == 12 && s != t
    ensures Absorb(s, x) != Absorb(t, x)
  {
    hide Add, Le32;
    AddInjective(s.a, t.a, Le32(x, 0));
    AddInjective(s.b, t.b, Le32(x, 4));
    AddInjective(s.c, t.c, Le32(x, 8));
  }

  /** Keys of one length that differ in a single full block reach different words, and stay apart
      over any number of common blocks behind it. */
  lemma {:induction false} DifferentBlock(s: Abc, x: seq<Byte>, y: seq<Byte>, i: nat, n: nat)
    requires |x| == |y| && i < n && 12 * n <= |x|
    requires x[12 * i..12 * i + 12] != y[12 * i..12 * i + 12]
    requires forall j :: 0 <= j < |x| && !(12 * i <= j < 12 * i + 12) ==> x[j] == y[j]
    ensures Blocks(s, x, n) != Blocks(s, y, n)
    decreases n
  {
    hide Mix, Absorb;
    var p, q := Blocks(s, x, n - 1), Blocks(s, y, n - 1);
    var b, d := x[12 * (n - 1)..12 * n], y[12 * (n - 1)..12 * n];
    if n == i + 1 {
      SamePrefix(s, x, y, i);
      if Absorb(p, b) == Absorb(q, d) { AbsorbInjective(p, b, d); }
    } else {
      DifferentBlock(s, x, y, i, n - 1);
      assert b == d;
      AbsorbKeepsApart(p, q, b);
    }
    if Mix(Absorb(p, b)) == Mix(Absorb(q, d)) { MixInjective(Absorb(p, b), Absorb(q, d)); }
  }

  lemma {:induction false} SamePrefix(s: Abc, x: seq<Byte>, y: seq<Byte>, n: nat)
    requires |x| == |y| && 12 * n <= |x| && forall j :: 0 <= j < 12 * n ==> x[j] == y[j]
    ensures Blocks(s, x, n) == Blocks(s, y, n)
  {
    hide Mix, Absorb;
    if n > 0 {
      SamePrefix(s, x, y, n - 1);
      assert x[12 * (n - 1)..12 * n] == y[12 * (n - 1)..12 * n];
    }
  }

  // ---- the three paths ------------------------------------------------------------------------------------------

  lemma AddTwice(x: Word, y: Word, z: Word)
    requires y + z < WORD
    ensures Add(Add(x, y), z) == Add(x, y + z)
  {
  }

  /** The words of a block that is read where it stands. */
  lemma BlockWords(mem: seq<Byte>, k: nat)
    requires k + 12 <= |mem|
    ensures var b := mem[k..k + 12]; Le32(b, 0) == Le32(mem, k) && Le32(b, 4) == Le32(mem, k + 4) && Le32(b, 8) == Le32(mem, k + 8)
  {
  }

  /** One turn of the main loop. */
  lemma NextBlock(s: Abc, key: seq<Byte>, mem: seq<Byte>, n: nat)
    requires key <= mem && 12 * (n + 1) <= |key|
    ensures Blocks(s, key, n + 1) == Mix(Absorb(Blocks(s, key, n), mem[12 * n..12 * n + 12]))
  {
    hide Mix, Absorb;
    assert key[12 * n..12 * (n + 1)] == mem[12 * n..12 * n + 12];
  }

  lemma LoopEnds(length: nat, n: nat)
    requires 12 * n <= length && length - 12 * n <= 12 && (n > 0 ==> length - 12 * n > 0)
    ensures n == Full(length)
  {
  }

  /** The tail of the key at k, `left` bytes long, read in whole 32-bit words whose foreign bytes are
      masked off: up to three bytes behind the key are read, and none of them matters. */
  method TailByWords(mem: seq<Byte>, k: nat, left: nat, s: Abc) returns (t: Abc)
    requires 0 < left <= 12 && k + left <= |mem| && k + (left + 3) / 4 * 4 <= |mem|
    ensures t == Absorb(s, Padded(mem[k..k + left]))
  {
    hide Le32, Add, Masked, Padded;
    TailWord(mem, k, left, 0, s.a);
    TailWord(mem, k, left, 4, s.b);
    TailWord(mem, k, left, 8, s.c);
    var a, b, c := s.a, s.b, s.c;
    if left == 12 {
      c := Add(c, Le32(mem, k + 8));
      b := Add(b, Le32(mem, k + 4));
      a := Add(a, Le32(mem, k));
    } else if left > 8 {
      c := Add(c, Masked(Le32(mem, k + 8), left - 8));
      b := Add(b, Le32(mem, k + 4));
      a := Add(a, Le32(mem, k));
    } else if left == 8 {
      b := Add(b, Le32(mem, k + 4));
      a := Add(a, Le32(mem, k));
    } else if left > 4 {
      b := Add(b, Masked(Le32(mem, k + 4), left - 4));
      a := Add(a, Le32(mem, k));
    } else if left == 4 {
      a := Add(a, Le32(mem, k));
    } else {
      a := Add(a, Masked(Le32(mem, k), left));
    }
    t := Abc(a, b, c);
  }

  /** The word at i of the padded tail: read whole, masked, or not at all. */
  lemma TailWord(mem: seq<Byte>, k: nat, left: nat, i: nat, x: Word)
    requires left <= 12 && i <= 8 && k + left <= |mem| && (i < left ==> k + i + 4 <= |mem|)
    ensures var p := Padded(mem[k..k + left]);
      && i + 4 <= |p|
      && (left <= i ==> Add(x, Le32(p, i)) == x)
      && (i < left < i + 4 ==> Masked(Le32(mem, k + i), left - i) == Le32(p, i))
      && (left >= i + 4 ==> Le32(p, i) == Le32(mem, k + i))
  {
    if left <= i {
      PaddedZero(mem, k, left, i, x);
    } else if left < i + 4 {
      MaskedWord(mem, k, left, i, Padded(mem[k..k + left]));
    } else {
      PaddedWhole(mem, k, left, i);
    }
  }

  lemma PaddedWhole(mem: seq<Byte>, k: nat, left: nat, i: nat)
    requires i + 4 <= left <= 12 && k + left <= |mem|
    ensures Le32(Padded(mem[k..k + left]), i) == Le32(mem, k + i)
  {
    var p := Padded(mem[k..k + left]);
    assert p[i] == mem[k + i] && p[i + 1] == mem[k + i + 1] && p[i + 2] == mem[k + i + 2] && p[i + 3] == mem[k + i + 3];
  }

  /** w & 0xff, w & 0xffff, w & 0xffffff. */
  function Masked(w: Word, bytes: nat): Word
    requires 1 <= bytes <= 3
  {
    if bytes == 1 then w % 0x100 else if bytes == 2 then w % 0x10000 else w % 0x1000000
  }

  lemma MaskedWord(mem: seq<Byte>, k: nat, left: nat, i: nat, p: seq<Byte>)
    requires left <= 12 && i < left < i + 4 && i + 4 <= 12 && k + i + 4 <= |mem| && k + left <= |mem|
    requires p == Padded(mem[k..k + left])
    ensures Masked(Le32(mem, k + i), left - i) == Le32(p, i)
  {
    var j := k + i;
    assert forall x :: i <= x < left ==> p[x] == mem[k + x];
    assert forall x :: left <= x < i + 4 ==> p[x] == 0;
    Masking(mem[j], mem[j + 1], mem[j + 2], mem[j + 3]);
  }

  lemma Masking(a: Byte, b: Byte, c: Byte, d: Byte)
    ensures Masked(Le32([a, b, c, d], 0), 1) == a
    ensures Masked(Le32([a, b, c, d], 0), 2) == a as nat + 0x100 * (b as nat)
    ensures Masked(Le32([a, b, c, d], 0), 3) == a as nat + 0x100 * (b as nat) + 0x10000 * (c as nat)
  {
  }

  /** One word of the tail in 16-bit and 8-bit reads: `left` bytes of the key from k on, at most four. */
  method TailWord16(mem: seq<Byte>, k: nat, left: nat, x: Word) returns (y: Word)
    requires 0 < left <= 4 && k + left <= |mem|
    ensures y == Add(x, Le32(mem[k..k + left] + Zeros(4 - left), 0))
  {
    ghost var p := mem[k..k + left] + Zeros(4 - left);
    if left == 4 {
      y := Add(x, Le16(mem, k) + 0x10000 * Le16(mem, k + 2));
    } else if left == 3 {
      y := Add(x, 0x10000 * (mem[k + 2] as nat));
      y := Add(y, Le16(mem, k));
      AddTwice(x, 0x10000 * (mem[k + 2] as nat), Le16(mem, k));
    } else if left == 2 {
      y := Add(x, Le16(mem, k));
    } else {
      y := Add(x, mem[k] as nat);
    }
  }

  /** The same in 8-bit reads, highest byte first. */
  method TailWord8(mem: seq<Byte>, k: nat, left: nat, x: Word) returns (y: Word)
    requires 0 < left <= 4 && k + left <= |mem|
    ensures y == Add(x, Le32(mem[k..k + left] + Zeros(4 - left), 0))
  {
    ghost var p := mem[k..k + left] + Zeros(4 - left);
    y := x;
    ghost var sum := 0;
    if left == 4 {
      y := Add(y, 0x1000000 * (mem[k + 3] as nat));
      sum := 0x1000000 * (mem[k + 3] as nat);
    }
    if left >= 3 {
      AddTwice(x, sum, 0x10000 * (mem[k + 2] as nat));
      y := Add(y, 0x10000 * (mem[k + 2] as nat));
      sum := sum + 0x10000 * (mem[k + 2] as nat);
    }
    if left >= 2 {
      AddTwice(x, sum, 0x100 * (mem[k + 1] as nat));
      y := Add(y, 0x100 * (mem[k + 1] as nat));
      sum := sum + 0x100 * (mem[k + 1] as nat);
    }
    AddTwice(x, sum, mem[k] as nat);
    y := Add(y, mem[k] as nat);
  }

  /** The words of a padded tail are its padded words. */
  lemma PaddedWord(mem: seq<Byte>, k: nat, left: nat, i: nat)
    requires left <= 12 && k + left <= |mem| && i + 4 <= 12 && i <= left
    ensures var n := if left - i < 4 then left - i else 4;
      Le32(Padded(mem[k..k + left]), i) == Le32(mem[k + i..k + i + n] + Zeros(4 - n), 0)
  {
    var n := if left - i < 4 then left - i else 4;
    var p, q := Padded(mem[k..k + left]), mem[k + i..k + i + n] + Zeros(4 - n);
    assert p[i] == q[0] && p[i + 1] == q[1] && p[i + 2] == q[2] && p[i + 3] == q[3];
  }

  lemma PaddedZero(mem: seq<Byte>, k: nat, left: nat, i: nat, x: Word)
    requires left <= i <= 8 && k + left <= |mem|
    ensures Add(x, Le32(Padded(mem[k..k + left]), i)) == x
  {
    var p := Padded(mem[k..k + left]);
    assert p[i] == 0 && p[i + 1] == 0 && p[i + 2] == 0 && p[i + 3] == 0;
  }

  method TailBy16(mem: seq<Byte>, k: nat, left: nat, s: Abc) returns (t: Abc)
    requires 0 < left <= 12 && k + left <= |mem|
    ensures t == Absorb(s, Padded(mem[k..k + left]))
  {
    var a, b, c := s.a, s.b, s.c;
    if left > 8 { PaddedWord(mem, k, left, 8); } else { PaddedZero(mem, k, left, 8, c); }
    if left > 4 { PaddedWord(mem, k, left, 4); } else { PaddedZero(mem, k, left, 4, b); }
    PaddedWord(mem, k, left, 0);
    hide Le32, Add;
    if left > 8 { c := TailWord16(mem, k + 8, left - 8, c); }
    if left > 4 { b := TailWord16(mem, k + 4, if left < 8 then left - 4 else 4, b); }
    a := TailWord16(mem, k, if left < 4 then left else 4, a);
    t := Abc(a, b, c);
  }

  method TailBy8(mem: seq<Byte>, k: nat, left: nat, s: Abc) returns (t: Abc)
    requires 0 < left <= 12 && k + left <= |mem|
    ensures t == Absorb(s, Padded(mem[k..k + left]))
  {
    var a, b, c := s.a, s.b, s.c;
    if left > 8 { PaddedWord(mem, k, left, 8); } else { PaddedZero(mem, k, left, 8, c); }
    if left > 4 { PaddedWord(mem, k, left, 4); } else { PaddedZero(mem, k, left, 4, b); }
    PaddedWord(mem, k, left, 0);
    hide Le32, Add;
    if left > 8 { c := TailWord8(mem, k + 8, left - 8, c); }
    if left > 4 { b := TailWord8(mem, k + 4, if left < 8 then left - 4 else 4, b); }
    a := TailWord8(mem, k, if left < 4 then left else 4, a);
    t := Abc(a, b, c);
  }

  /** A word of a full block in two 16-bit reads. */
  method Word16(mem: seq<Byte>, k: nat, x: Word) returns (y: Word)
    requires k + 4 <= |mem|
    ensures y == Add(x, Le32(mem, k))
  {
    y := Add(x, Le16(mem, k) + 0x10000 * Le16(mem, k + 2));
  }

  /** A word of a full block in 8-bit reads, lowest byte first. */
  method Word8(mem: seq<Byte>, k: nat, x: Word) returns (y: Word)
    requires k + 4 <= |mem|
    ensures y == Add(x, Le32(mem, k))
  {
    var b0, b1, b2, b3 := mem[k] as nat, 0x100 * (mem[k + 1] as nat), 0x10000 * (mem[k + 2] as nat), 0x1000000 * (mem[k + 3] as nat);
    y := Add(x, b0);
    y := Add(y, b1);
    y := Add(y, b2);
    y := Add(y, b3);
    AddTwice(x, b0, b1);
    AddTwice(x, b0 + b1, b2);
    AddTwice(x, b0 + b1 + b2, b3);
  }

  lemma AbsorbRead(mem: seq<Byte>, k: nat, s: Abc)
    requires k + 12 <= |mem|
    ensures Absorb(s, mem[k..k + 12]) == Abc(Add(s.a, Le32(mem, k)), Add(s.b, Le32(mem, k + 4)), Add(s.c, Le32(mem, k + 8)))
  {
    hide Add;
    BlockWords(mem, k);
  }

  lemma HashEnds(key: seq<Byte>, initval: Word, n: nat, s: Abc)
    requires n == Full(|key|) && s == Blocks(Begin(|key|, initval), key, n)
    ensures key == [] ==> HashOf(key, initval) == s.c
    ensures key != [] ==> HashOf(key, initval) == Final(Absorb(s, Padded(key[12 * n..]))).c
  {
    hide Final, Absorb, Padded;
  }

  /** The key starts where mem does, and n of its blocks are mixed in. */
  ghost predicate Reading(mem: seq<Byte>, key: seq<Byte>, initval: Word, n: nat, k: nat, left: nat, s: Abc) {
    && key <= mem && k == 12 * n && left + k == |key| && (n > 0 ==> left > 0)
    && s == Blocks(Begin(|key|, initval), key, n)
  }

  lemma ReadsOn(mem: seq<Byte>, key: seq<Byte>, initval: Word, n: nat, k: nat, left: nat, s: Abc)
    requires Reading(mem, key, initval, n, k, left, s) && left > 12
    ensures k + 12 <= |mem|
    ensures Reading(mem, key, initval, n + 1, k + 12, left - 12, Mix(Absorb(s, mem[k..k + 12])))
  {
    hide Mix, Absorb;
    NextBlock(Begin(|key|, initval), key, mem, n);
  }

  lemma ReadsEnd(mem: seq<Byte>, key: seq<Byte>, initval: Word, n: nat, k: nat, left: nat, s: Abc)
    requires Reading(mem, key, initval, n, k, left, s) && left <= 12
    ensures k + left <= |mem|
    ensures left == 0 ==> HashOf(key, initval) == s.c
    ensures left > 0 ==> HashOf(key, initval) == Final(Absorb(s, Padded(mem[k..k + left]))).c
  {
    hide Final, Absorb, Padded;
    LoopEnds(|key|, n);
    HashEnds(key, initval, n, s);
    assert key[12 * n..] == mem[k..k + left];
  }

  lemma RoomLeft(mem: seq<Byte>, key: seq<Byte>, initval: Word, n: nat, k: nat, left: nat, s: Abc)
    requires Reading(mem, key, initval, n, k, left, s) && (|key| + 3) / 4 * 4 <= |mem|
    ensures k + (left + 3) / 4 * 4 <= |mem|
  {
    hide Blocks;
    Quarters(3 * n, left + 3);
  }

  lemma Quarters(n: nat, x: nat)
    ensures (4 * n + x) / 4 == n + x / 4
  {
  }

  lemma ReadsFrom(mem: seq<Byte>, length: nat, initval: Word)
    requires length <= |mem|
    ensures Reading(mem, mem[..length], initval, 0, 0, length, Begin(length, initval))
  {
  }

  /** The path for keys at a multiple of four: the last word may reach up to three bytes behind the key. */
  method HashByWords(mem: seq<Byte>, length: nat, initval: Word) returns (h: Word)
    requires length <= |mem| && (length + 3) / 4 * 4 <= |mem|
    ensures h == HashOf(mem[..length], initval)
  {
    hide *;
    ghost var key, n := mem[..length], 0;
    var s := Begin(length, initval);
    var a, b, c := s.a, s.b, s.c;
    var left, k := length, 0;
    ReadsFrom(mem, length, initval);
    while left > 12
      invariant Reading(mem, key, initval, n, k, left, Abc(a, b, c))
    {
      ReadsOn(mem, key, initval, n, k, left, Abc(a, b, c));
      AbsorbRead(mem, k, Abc(a, b, c));
      a := Add(a, Le32(mem, k));
      b := Add(b, Le32(mem, k + 4));
      c := Add(c, Le32(mem, k + 8));
      var t := Mix(Abc(a, b, c));
      a, b, c := t.a, t.b, t.c;
      left, k, n := left - 12, k + 12, n + 1;
    }
    ReadsEnd(mem, key, initval, n, k, left, Abc(a, b, c));
    if left == 0 { return c; }
    RoomLeft(mem, key, initval, n, k, left, Abc(a, b, c));
    var t := TailByWords(mem, k, left, Abc(a, b, c));
    h := Final(t).c;
  }

  /** The path for other even addresses. */
  method HashByHalves(mem: seq<Byte>, length: nat, initval: Word) returns (h: Word)
    requires length <= |mem|
    ensures h == HashOf(mem[..length], initval)
  {
    hide *;
    ghost var key, n := mem[..length], 0;
    var s := Begin(length, initval);
    var a, b, c := s.a, s.b, s.c;
    var left, k := length, 0;
    ReadsFrom(mem, length, initval);
    while left > 12
      invariant Reading(mem, key, initval, n, k, left, Abc(a, b, c))
    {
      ReadsOn(mem, key, initval, n, k, left, Abc(a, b, c));
      AbsorbRead(mem, k, Abc(a, b, c));
      a := Word16(mem, k, a);
      b := Word16(mem, k + 4, b);
      c := Word16(mem, k + 8, c);
      var t := Mix(Abc(a, b, c));
      a, b, c := t.a, t.b, t.c;
      left, k, n := left - 12, k + 12, n + 1;
    }
    ReadsEnd(mem, key, initval, n, k, left, Abc(a, b, c));
    if left == 0 { return c; }
    var t := TailBy16(mem, k, left, Abc(a, b, c));
    h := Final(t).c;
  }

  /** The path for odd addresses. */
  method HashByBytes(mem: seq<Byte>, length: nat, initval: Word) returns (h: Word)
    requires length <= |mem|
    ensures h == HashOf(mem[..length], initval)
  {
    hide *;
    ghost var key, n := mem[..length], 0;
    var s := Begin(length, initval);
    var a, b, c := s.a, s.b, s.c;
    var left, k := length, 0;
    ReadsFrom(mem, length, initval);
    while left > 12
      invariant Reading(mem, key, initval, n, k, left, Abc(a, b, c))
    {
      ReadsOn(mem, key, initval, n, k, left, Abc(a, b, c));
      AbsorbRead(mem, k, Abc(a, b, c));
      a := Word8(mem, k, a);
      b := Word8(mem, k + 4, b);
      c := Word8(mem, k + 8, c);
      var t := Mix(Abc(a, b, c));
      a, b, c := t.a, t.b, t.c;
      left, k, n := left - 12, k + 12, n + 1;
    }
    ReadsEnd(mem, key, initval, n, k, left, Abc(a, b, c));
    if left == 0 { return c; }
    var t := TailBy8(mem, k, left, Abc(a, b, c));
    h := Final(t).c;
  }

  /** hash(key, length, initval) for a key at any address: the result is a function of the bytes of
      the key alone, neither of its address nor of what lies behind it. */
  method Hash(mem: seq<Byte>, address: nat, length: nat, initval: Word) returns (h: Word)
    requires length <= |mem| && (address % 4 == 0 ==> (length + 3) / 4 * 4 <= |mem|)
    ensures h == HashOf(mem[..length], initval)
  {
    if address % 4 == 0 {
      h := HashByWords(mem, length, initval);
    } else if address % 2 == 0 {
      h := HashByHalves(mem, length, initval);
    } else {
      h := HashByBytes(mem, length, initval);
    }
  }
}
