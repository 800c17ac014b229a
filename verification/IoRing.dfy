/** The circular list of blocks of httpserver/iobuf.cc, and the bytes it stands for. */
module IoRing {
  import opened Basics
  import opened IoBlocks

  ghost predicate Ring(s: seq<Block>)
    reads s`next, s`prev
  {
    forall i :: 0 <= i < |s| ==> s[i].next == s[Succ(i, |s|)] && s[i].prev == s[Pred(i, |s|)]
  }

  ghost function Buffers(s: seq<Block>): set<Buffer> { set b | b in s :: b.buffer }

  ghost function Owners(s: seq<Block>): set<Block>
    reads Buffers(s)`owners
  {
    set b, x | b in s && x in b.buffer.owners :: x
  }

  ghost function PiecesOf(s: seq<Block>): (r: seq<string>)
    reads s`off, s`length, Buffers(s)`data
    ensures |r| == |s| && forall i :: 0 <= i < |s| ==> r[i] == s[i].Bytes()
  {
    if s == [] then [] else [s[0].Bytes()] + PiecesOf(s[1..])
  }

  function Flat(p: seq<string>): string { if p == [] then "" else p[0] + Flat(p[1..]) }

  lemma {:induction false} FlatJoin(p: seq<string>, q: seq<string>)
    ensures Flat(p + q) == Flat(p) + Flat(q)
  {
    if p == [] {
      assert p + q == q;
    } else {
      FlatJoin(p[1..], q);
      assert (p + q)[1..] == p[1..] + q && (p + q)[0] == p[0];
      assert (p[0] + Flat(p[1..])) + Flat(q) == p[0] + (Flat(p[1..]) + Flat(q));
    }
  }

  lemma FlatLast(p: seq<string>)
    requires p != []
    ensures Flat(p) == Flat(p[..|p| - 1]) + p[|p| - 1]
  {
    FlatJoin(p[..|p| - 1], p[|p| - 1..]);
    assert p == p[..|p| - 1] + p[|p| - 1..];
    assert Flat(p[|p| - 1..]) == p[|p| - 1];
  }

  lemma FlatSnoc(p: seq<string>, x: string)
    ensures Flat(p + [x]) == Flat(p) + x
  {
    assert (p + [x])[..|p|] == p;
    FlatLast(p + [x]);
  }

  lemma FlatFront(p: seq<string>, n: nat)
    requires p != [] && n <= |p[0]|
    ensures n <= |Flat(p)| && Flat(p[0 := p[0][n..]]) == Flat(p)[n..]
    ensures Flat(p)[..n] == p[0][..n]
  {
    assert p[0 := p[0][n..]][1..] == p[1..];
  }

  lemma FlatBack(p: seq<string>, n: nat)
    requires p != [] && n <= |p[|p| - 1]|
    ensures n <= |Flat(p)|
    ensures var l := |p| - 1; Flat(p[l := p[l][..|p[l]| - n]]) == Flat(p)[..|Flat(p)| - n]
  {
    var l := |p| - 1;
    var q := p[l := p[l][..|p[l]| - n]];
    FlatLast(p);
    FlatLast(q);
    assert q[..l] == p[..l];
  }

  lemma FlatGrow(p: seq<string>, x: string)
    requires p != []
    ensures var l := |p| - 1; Flat(p[l := p[l] + x]) == Flat(p) + x
  {
    var l := |p| - 1;
    var q := p[l := p[l] + x];
    FlatLast(p);
    FlatLast(q);
    assert q[..l] == p[..l];
  }

  // ---- the pointers --------------------------------------------------------------------------------------

  /** The unlinking in IOBuf::Pop, of a list of two or more. */
  method DropFirst(head: Block, ghost s: seq<Block>) returns (newHead: Block)
    requires Ring(s) && NoTwice(s) && |s| > 1 && head == s[0]
    modifies s`next, s`prev
    ensures newHead == s[1] && Ring(s[1..]) && head.next == head && head.prev == head
    ensures forall x: Block :: old(allocated(x)) ==> x.Good() == old(x.Good()) && x.Top() == old(x.Top()) && x.Bytes() == old(x.Bytes())
  {
    var rear := head.prev;
    newHead := head.next;
    assert rear == s[|s| - 1] && newHead == s[1];
    CloseRing(head, rear, newHead, s);
  }

  method CloseRing(head: Block, rear: Block, newHead: Block, ghost s: seq<Block>)
    requires Ring(s) && NoTwice(s) && |s| > 1 && head == s[0] && rear == s[|s| - 1] && newHead == s[1]
    modifies s`next, s`prev
    ensures Ring(s[1..]) && head.next == head && head.prev == head
  {
    rear.next := newHead;
    newHead.prev := rear;
    head.next := head;
    head.prev := head;
    ghost var t := s[1..];
    forall i | 0 <= i < |t| ensures t[i].next == t[Succ(i, |t|)] && t[i].prev == t[Pred(i, |t|)] {
      assert t[i] == s[i + 1] && s[i + 1] != s[0];
    }
  }

  /** The linking in IOBuf::Append, to a list that is not empty. */
  method LinkLast(head: Block, b: Block, ghost s: seq<Block>)
    requires Ring(s) && NoTwice(s) && s != [] && head == s[0] && b !in s
    modifies s`next, s`prev, b`next, b`prev
    ensures Ring(s + [b])
    ensures forall x: Block :: old(allocated(x)) ==> x.Good() == old(x.Good()) && x.Top() == old(x.Top()) && x.Bytes() == old(x.Bytes())
  {
    var rear := head.prev;
    assert rear == s[|s| - 1] && rear.next == s[0];
    rear.next.prev := b;
    b.next := rear.next;
    b.prev := rear;
    rear.next := b;
    ghost var t := s + [b];
    forall i | 0 <= i < |t| ensures t[i].next == t[Succ(i, |t|)] && t[i].prev == t[Pred(i, |t|)] {
      if i < |s| { assert t[i] == s[i] && s[i] != b; }
    }
  }

  /** The unlinking of the rear in IOBuf::TrimEnd, of a list of two or more. */
  method DropLast(rear: Block, ghost s: seq<Block>)
    requires Ring(s) && NoTwice(s) && |s| > 1 && rear == s[|s| - 1]
    modifies s`next, s`prev
    ensures Ring(s[..|s| - 1])
    ensures forall x: Block :: old(allocated(x)) ==> x.Good() == old(x.Good()) && x.Top() == old(x.Top()) && x.Bytes() == old(x.Bytes())
  {
    assert rear.prev == s[|s| - 2] && rear.next == s[0];
    rear.prev.next := rear.next;
    rear.next.prev := rear.prev;
    ghost var t := s[..|s| - 1];
    forall i | 0 <= i < |t| ensures t[i].next == t[Succ(i, |t|)] && t[i].prev == t[Pred(i, |t|)] {
      assert t[i] == s[i];
    }
  }
}
