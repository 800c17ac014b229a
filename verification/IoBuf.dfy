/** IOBuf of httpserver/iobuf.cc: a circular list of blocks that is to be one sequence of bytes. */
module IoBuffer {
  import opened Basics
  import opened IoBlocks
  import opened IoRing
  import opened IoAppend

  class IoBuf {
    var length: int
    var head: Block?
    // the blocks from the head on
    ghost var blocks: seq<Block>

    ghost predicate Linked()
      reads this`head, this`blocks, blocks`next, blocks`prev, blocks`home
    {
      && head == (if blocks == [] then null else blocks[0])
      && Ring(blocks) && NoTwice(blocks) && forall i :: 0 <= i < |blocks| ==> blocks[i].home == this
    }

    ghost predicate Sound()
      reads this`blocks, Buffers(blocks)`refs, Buffers(blocks)`freed, Buffers(blocks)`owners, Buffers(blocks)`data
      reads Owners(blocks)`off, Owners(blocks)`length
    {
      forall i :: 0 <= i < |blocks| ==> blocks[i].Good()
    }

    ghost function Contents(): string
      reads this`blocks, blocks`off, blocks`length, Buffers(blocks)`data
    {
      Flat(PiecesOf(blocks))
    }

    ghost predicate Valid()
      reads this, blocks`next, blocks`prev, blocks`home, blocks`off, blocks`length
      reads Buffers(blocks)`refs, Buffers(blocks)`freed, Buffers(blocks)`owners, Buffers(blocks)`data
      reads Owners(blocks)`off, Owners(blocks)`length
    {
      Linked() && Sound() && length == |Contents()|
    }

    /** Nothing else reaches into the space behind these blocks. */
    ghost predicate Writable()
      reads this`blocks, blocks`off, Buffers(blocks)`owners, Owners(blocks)`off, Owners(blocks)`length
    {
      forall i :: 0 <= i < |blocks| ==> blocks[i].Top()
    }

    constructor ()
      ensures Valid() && Writable() && Contents() == "" && blocks == []
    {
      length, head, blocks := 0, null, [];
    }

    // ---- the list as a whole --------------------------------------------------------------------------

    /** The list is now s, with the bytes p. */
    ghost method SetBlocks(s: seq<Block>, p: seq<string>)
      requires head == (if s == [] then null else s[0]) && length == |Flat(p)| && Ring(s) && NoTwice(s) && |p| == |s|
      requires forall i :: 0 <= i < |s| ==> s[i].Good() && s[i].Bytes() == p[i] && s[i].home == this
      modifies this`blocks
      ensures Valid() && blocks == s && PiecesOf(s) == p && Contents() == Flat(p)
      ensures Writable() <==> forall i :: 0 <= i < |s| ==> s[i].Top()
    {
      hide Ring, NoTwice, Block.Good, Block.Bytes, Block.Top, Flat, Succ, Pred, PiecesOf;
      blocks := s;
      assert PiecesOf(s) == p;
    }

    lemma Parts()
      requires Valid()
      ensures head == (if blocks == [] then null else blocks[0]) && length == |Contents()| && Ring(blocks) && NoTwice(blocks)
      ensures Contents() == Flat(PiecesOf(blocks))
      ensures forall i :: 0 <= i < |blocks| ==>
        && blocks[i].Good() && blocks[i].home == this
        && blocks[i].Bytes() == PiecesOf(blocks)[i] && |PiecesOf(blocks)[i]| == blocks[i].length
      ensures Writable() ==> forall i :: 0 <= i < |blocks| ==> blocks[i].Top()
      ensures blocks == [] ==> Contents() == ""
    {
    }

    /** IOBuf::Pop. */
    method Pop() returns (b: Block?)
      requires Valid()
      modifies this, blocks`next, blocks`prev, blocks`home
      ensures Valid() && (b == null <==> old(blocks) == [])
      ensures b == null ==> blocks == [] && Contents() == "" == old(Contents())
      ensures b != null ==> b == old(blocks[0]) && blocks == old(blocks[1..]) && b.home == null && b.next == b && b.prev == b
      ensures b != null ==> b.Good() && old(Contents()) == b.Bytes() + Contents() && b.length == |b.Bytes()|
      ensures old(Writable()) ==> Writable() && (b != null ==> b.Top())
      ensures forall o: IoBuf :: old(allocated(o)) && o != this && old(o.Valid()) ==>
        o.Valid() && o.Contents() == old(o.Contents()) && (old(o.Writable()) ==> o.Writable())
    {
      hide *;
      Parts();
      if head == null {
        b := null;
        return;
      }
      b := PopFirst();
      OthersStay(this);
    }

    method PopFirst() returns (b: Block)
      requires Valid() && head != null && blocks != []
      modifies this, blocks`next, blocks`prev, blocks`home
      ensures Valid() && b == old(blocks[0]) && blocks == old(blocks[1..])
      ensures b.home == null && b.next == b && b.prev == b
      ensures b.Good() && old(Contents()) == b.Bytes() + Contents() && b.length == |b.Bytes()|
      ensures old(Writable()) ==> Writable() && b.Top()
      ensures forall x: Block :: old(allocated(x)) ==>
        x.Good() == old(x.Good()) && x.Top() == old(x.Top()) && x.Bytes() == old(x.Bytes()) && (x != b ==> x.home == old(x.home))
    {
      hide *;
      Parts();
      ghost var s, t, p, q := blocks, blocks[1..], PiecesOf(blocks), PiecesOf(blocks)[1..];
      length := length - head.length;
      b := DetachFirst(s, p);
      SetBlocks(t, q);
    }

    /** The first block leaves the ring, and the others keep their bytes. */
    method DetachFirst(ghost s: seq<Block>, ghost p: seq<string>) returns (b: Block)
      requires s != [] && head == s[0] && Ring(s) && NoTwice(s) && |p| == |s|
      requires forall i :: 0 <= i < |s| ==> s[i].Good() && s[i].Bytes() == p[i] && s[i].home == this
      modifies this`head, s`next, s`prev, s`home
      ensures b == s[0] && b.home == null && b.next == b && b.prev == b && b.Good() && b.Bytes() == p[0]
      ensures head == (if |s| == 1 then null else s[1]) && Ring(s[1..]) && NoTwice(s[1..]) && Flat(p) == p[0] + Flat(p[1..])
      ensures forall i :: 0 <= i < |s[1..]| ==> s[1..][i].Good() && s[1..][i].Bytes() == p[1..][i] && s[1..][i].home == this
      ensures forall x: Block :: old(allocated(x)) ==>
        x.Good() == old(x.Good()) && x.Top() == old(x.Top()) && x.Bytes() == old(x.Bytes()) && (x != b ==> x.home == old(x.home))
    {
      hide *;
      FirstPiece(s, p);
      b := Detach(s);
    }

    /** The first block leaves the ring. */
    method Detach(ghost s: seq<Block>) returns (b: Block)
      requires s != [] && head == s[0] && Ring(s) && NoTwice(s)
      modifies this`head, s`next, s`prev, s`home
      ensures b == s[0] && b.home == null && b.next == b && b.prev == b
      ensures head == (if |s| == 1 then null else s[1]) && Ring(s[1..])
      ensures forall x: Block :: old(allocated(x)) ==>
        x.Good() == old(x.Good()) && x.Top() == old(x.Top()) && x.Bytes() == old(x.Bytes()) && (x != b ==> x.home == old(x.home))
    {
      hide *;
      b := head;
      if head.prev == head {
        Alone(s);
        AllOrNone(s);
        head := null;
      } else {
        NotAlone(s);
        head := DropFirst(head, s);
      }
      b.home := null;
    }

    /** IOBuf::Append(block). */
    method AppendBlock(b: Block)
      requires Valid() && b.Good() && b.home == null && b.next == b && b.prev == b
      modifies this, blocks`next, blocks`prev, b`next, b`prev, b`home
      ensures Valid() && blocks == old(blocks) + [b] && Contents() == old(Contents()) + old(b.Bytes())
      ensures b.Bytes() == old(b.Bytes()) && (old(Writable()) && old(b.Top()) ==> Writable()) && (!old(b.Top()) ==> !Writable())
      ensures forall o: IoBuf :: old(allocated(o)) && o != this && old(o.Valid()) ==>
        o.Valid() && o.Contents() == old(o.Contents()) && (old(o.Writable()) ==> o.Writable())
    {
      hide *;
      Parts();
      AppendLast(b);
      OthersStay(this);
    }

    method AppendLast(b: Block)
      requires Valid() && b.Good() && b.home == null && b.next == b && b.prev == b
      modifies this, blocks`next, blocks`prev, b`next, b`prev, b`home
      ensures Valid() && blocks == old(blocks) + [b] && Contents() == old(Contents()) + old(b.Bytes())
      ensures (old(Writable()) && old(b.Top()) ==> Writable()) && (!old(b.Top()) ==> !Writable())
      ensures forall x: Block :: old(allocated(x)) ==>
        x.Good() == old(x.Good()) && x.Top() == old(x.Top()) && x.Bytes() == old(x.Bytes()) && (x != b ==> x.home == old(x.home))
    {
      hide *;
      Parts();
      ghost var s, t, p, q := blocks, blocks + [b], PiecesOf(blocks), PiecesOf(blocks) + [b.Bytes()];
      LastPiece(s, p, b);
      length := length + b.length;
      Attach(b, s);
      SetBlocks(t, q);
      assert t[|s|] == b;
    }

    /** A block joins the end of the ring. */
    method Attach(b: Block, ghost s: seq<Block>)
      requires head == (if s == [] then null else s[0]) && Ring(s) && NoTwice(s) && b !in s && b.next == b && b.prev == b
      modifies this`head, s`next, s`prev, b`next, b`prev, b`home
      ensures head == (if s == [] then b else s[0]) && Ring(s + [b]) && b.home == this
      ensures forall x: Block :: old(allocated(x)) ==>
        x.Good() == old(x.Good()) && x.Top() == old(x.Top()) && x.Bytes() == old(x.Bytes()) && (x != b ==> x.home == old(x.home))
    {
      hide *;
      b.home := this;
      if head == null {
        RingOfOne(b);
        head := b;
        return;
      }
      LinkLast(head, b, s);
    }

    /** The step of TrimStart and of Split within the first block. */
    method TrimHead(n: nat)
      requires Valid() && blocks != [] && n < blocks[0].length
      modifies this`length, this`blocks, blocks`off, blocks`length
      ensures Valid() && blocks == old(blocks) && n <= old(|Contents()|) && Contents() == old(Contents())[n..]
      ensures old(Writable()) ==> Writable()
      ensures forall o: IoBuf :: old(allocated(o)) && o != this && old(o.Valid()) ==>
        o.Valid() && o.Contents() == old(o.Contents()) && (old(o.Writable()) ==> o.Writable())
    {
      hide *;
      Parts();
      ghost var p := PiecesOf(blocks);
      FlatFront(p, n);
      FirstOne(blocks);
      TrimFront(head, n);
      length := length - n;
      SetBlocks(blocks, p[0 := p[0][n..]]);
      OthersStay(this);
    }

    /** The step of TrimEnd within the last block. */
    method TrimRear(n: nat)
      requires Valid() && blocks != [] && n < blocks[|blocks| - 1].length
      modifies this`length, this`blocks, blocks`length
      ensures Valid() && blocks == old(blocks) && n <= old(|Contents()|) && Contents() == old(Contents())[..old(|Contents()|) - n]
      ensures old(Writable()) ==> Writable()
      ensures forall o: IoBuf :: old(allocated(o)) && o != this && old(o.Valid()) ==>
        o.Valid() && o.Contents() == old(o.Contents()) && (old(o.Writable()) ==> o.Writable())
    {
      hide *;
      Parts();
      ghost var p, l := PiecesOf(blocks), |blocks| - 1;
      FlatBack(p, n);
      LastOne(blocks);
      TrimBack(head.prev, n);
      length := length - n;
      SetBlocks(blocks, p[l := p[l][..|p[l]| - n]]);
      OthersStay(this);
    }

    /** The step of Split within the first block. */
    method SplitHead(n: nat) returns (b: Block)
      requires Valid() && blocks != [] && 0 < n < blocks[0].length
      modifies this`length, this`blocks, blocks`off, blocks`length, blocks[0].buffer`refs, blocks[0].buffer`owners
      ensures Valid() && blocks == old(blocks) && n <= old(|Contents()|) && Contents() == old(Contents())[n..]
      ensures old(Writable()) ==> Writable()
      ensures fresh(b) && b.Good() && !b.Top() && b.home == null && b.next == b && b.prev == b && b.Bytes() == old(Contents())[..n]
      ensures forall o: IoBuf :: old(allocated(o)) && o != this && old(o.Valid()) ==>
        o.Valid() && o.Contents() == old(o.Contents()) && (old(o.Writable()) ==> o.Writable())
    {
      hide *;
      Parts();
      ghost var p := PiecesOf(blocks);
      FlatFront(p, n);
      FirstOne(blocks);
      InBuffers(blocks);
      b := SplitBlock(head, n);
      length := length - n;
      SetBlocks(blocks, p[0 := p[0][n..]]);
      OthersStay(this);
    }

    lemma InBuffers(s: seq<Block>)
      ensures forall i :: 0 <= i < |s| ==> s[i].buffer in Buffers(s)
    {
    }

    lemma FromBuffers(s: seq<Block>)
      ensures forall y :: y in Buffers(s) ==> exists x :: x in s && x.buffer == y
      ensures forall x :: x in s ==> x.buffer in Buffers(s)
    {
    }

    /** The unlinking of the rear in TrimEnd. */
    method PopRear() returns (b: Block)
      requires Valid() && blocks != []
      modifies this, blocks`next, blocks`prev, blocks`home
      ensures Valid() && b == old(blocks[|blocks| - 1]) && blocks == old(blocks[..|blocks| - 1])
      ensures b.home == null && b.Good() && old(Contents()) == Contents() + b.Bytes() && |b.Bytes()| == b.length
      ensures old(Writable()) ==> Writable()
      ensures forall o: IoBuf :: old(allocated(o)) && o != this && old(o.Valid()) ==>
        o.Valid() && o.Contents() == old(o.Contents()) && (old(o.Writable()) ==> o.Writable())
    {
      hide *;
      Parts();
      b := TakeRear();
      OthersStay(this);
    }

    method TakeRear() returns (b: Block)
      requires Valid() && blocks != []
      modifies this, blocks`next, blocks`prev, blocks`home
      ensures Valid() && b == old(blocks[|blocks| - 1]) && blocks == old(blocks[..|blocks| - 1])
      ensures b.home == null && b.Good() && old(Contents()) == Contents() + b.Bytes() && |b.Bytes()| == b.length
      ensures old(Writable()) ==> Writable()
      ensures forall x: Block :: old(allocated(x)) ==>
        x.Good() == old(x.Good()) && x.Top() == old(x.Top()) && x.Bytes() == old(x.Bytes()) && (x != b ==> x.home == old(x.home))
    {
      hide *;
      Parts();
      ghost var l, s, p := |blocks| - 1, blocks, PiecesOf(blocks);
      LastOne(s);
      RearPiece(s, p);
      length := length - head.prev.length;
      b := DetachRear(s);
      SetBlocks(s[..l], p[..l]);
    }

    method DetachRear(ghost s: seq<Block>) returns (b: Block)
      requires s != [] && head == s[0] && Ring(s) && NoTwice(s)
      modifies this`head, s`next, s`prev, s`home
      ensures b == s[|s| - 1] && b.home == null
      ensures head == (if |s| == 1 then null else s[0]) && Ring(s[..|s| - 1])
      ensures forall x: Block :: old(allocated(x)) ==>
        x.Good() == old(x.Good()) && x.Top() == old(x.Top()) && x.Bytes() == old(x.Bytes()) && (x != b ==> x.home == old(x.home))
    {
      hide *;
      LastOne(s);
      b := head.prev;
      if b == head {
        Alone(s);
        AllOrNone(s);
        head := null;
      } else {
        NotAlone(s);
        DropLast(b, s);
      }
      b.home := null;
    }

    /** The first block is popped and its reference given back. */
    method DropHead() returns (ghost bytes: string)
      requires Valid() && blocks != []
      modifies this, blocks`next, blocks`prev, blocks`home
      modifies blocks[0].buffer`refs, blocks[0].buffer`freed, blocks[0].buffer`owners
      ensures Valid() && blocks == old(blocks[1..]) && old(blocks[0]) !in old(blocks[0]).buffer.owners
      ensures old(blocks[0]).buffer.owners <= old(blocks[0].buffer.owners)
      ensures old(Contents()) == bytes + Contents() && |bytes| == old(blocks[0].length)
      ensures old(Writable()) ==> Writable()
      ensures forall o: IoBuf :: old(allocated(o)) && o != this && old(o.Valid()) ==>
        o.Valid() && o.Contents() == old(o.Contents()) && (old(o.Writable()) ==> o.Writable())
    {
      hide *;
      Parts();
      var b := Pop();
      bytes := b.Bytes();
      Release(b);
    }

    /** IOBuf::TrimStart: the blocks in front of the bytes that stay are given back. */
    method TrimStart(amount: nat) returns (ghost k: nat)
      requires Valid()
      modifies this, blocks`next, blocks`prev, blocks`home, blocks`off, blocks`length
      modifies Buffers(blocks)`refs, Buffers(blocks)`freed, Buffers(blocks)`owners
      ensures Valid() && Contents() == if amount <= old(|Contents()|) then old(Contents())[amount..] else ""
      ensures k <= |old(blocks)| && blocks == old(blocks)[k..]
      ensures forall i :: 0 <= i < k ==> old(blocks)[i] !in old(blocks)[i].buffer.owners
      ensures old(Writable()) ==> Writable()
      ensures forall o: IoBuf :: old(allocated(o)) && o != this && old(o.Valid()) ==>
        o.Valid() && o.Contents() == old(o.Contents()) && (old(o.Writable()) ==> o.Writable())
    {
      hide *;
      var left: nat := amount;
      ghost var all, gone, s := Contents(), "", blocks;
      k := 0;
      InBuffers(blocks);
      while left > 0
        invariant k <= |s| && blocks == s[k..]
        invariant forall i :: 0 <= i < k ==> s[i] !in s[i].buffer.owners
        invariant Valid() && all == gone + Contents() && |gone| == amount - left
        invariant old(Writable()) ==> Writable()
        invariant forall o: IoBuf :: old(allocated(o)) && o != this && old(o.Valid()) ==>
          o.Valid() && o.Contents() == old(o.Contents()) && (old(o.Writable()) ==> o.Writable())
        decreases |s| - k
      {
        Parts();
        if head == null { break; }
        NextBlock(s, k);
        ghost var c := Contents();
        if head.length > left {
          TrimHead(left);
          CutFront(gone, c, left);
          gone := gone + c[..left];
          left := 0;
          break;
        }
        left := left - head.length;
        ghost var bytes := DropHead();
        Regroup(gone, bytes, Contents());
        gone, k := gone + bytes, k + 1;
      }
      Halves(all, gone, Contents());
    }

    /** The last block is unlinked and deleted. */
    method DropRear() returns (ghost bytes: string)
      requires Valid() && blocks != []
      modifies this, blocks`next, blocks`prev, blocks`home
      modifies blocks[|blocks| - 1].buffer`refs, blocks[|blocks| - 1].buffer`freed, blocks[|blocks| - 1].buffer`owners
      ensures Valid() && blocks == old(blocks[..|blocks| - 1])
      ensures old(blocks[|blocks| - 1]) !in old(blocks[|blocks| - 1]).buffer.owners
      ensures old(blocks[|blocks| - 1]).buffer.owners <= old(blocks[|blocks| - 1].buffer.owners)
      ensures old(Contents()) == Contents() + bytes && |bytes| == old(blocks[|blocks| - 1].length)
      ensures old(Writable()) ==> Writable()
      ensures forall o: IoBuf :: old(allocated(o)) && o != this && old(o.Valid()) ==>
        o.Valid() && o.Contents() == old(o.Contents()) && (old(o.Writable()) ==> o.Writable())
    {
      hide *;
      Parts();
      var b := PopRear();
      bytes := b.Bytes();
      Release(b);
    }

    /** IOBuf::TrimEnd. */
    method TrimEnd(amount: nat) returns (ghost k: nat)
      requires Valid()
      modifies this, blocks`next, blocks`prev, blocks`home, blocks`length
      modifies Buffers(blocks)`refs, Buffers(blocks)`freed, Buffers(blocks)`owners
      ensures Valid() && Contents() ==
        if amount <= old(|Contents()|) then old(Contents())[..old(|Contents()|) - amount] else ""
      ensures k <= |old(blocks)| && blocks == old(blocks)[..k]
      ensures forall i :: k <= i < |old(blocks)| ==> old(blocks)[i] !in old(blocks)[i].buffer.owners
      ensures old(Writable()) ==> Writable()
      ensures forall o: IoBuf :: old(allocated(o)) && o != this && old(o.Valid()) ==>
        o.Valid() && o.Contents() == old(o.Contents()) && (old(o.Writable()) ==> o.Writable())
    {
      hide *;
      var left: nat := amount;
      ghost var all, gone, s := Contents(), "", blocks;
      k := |blocks|;
      InBuffers(blocks);
      while left > 0
        invariant k <= |s| && blocks == s[..k]
        invariant forall i :: k <= i < |s| ==> s[i] !in s[i].buffer.owners
        invariant Valid() && all == Contents() + gone && |gone| == amount - left
        invariant old(Writable()) ==> Writable()
        invariant forall o: IoBuf :: old(allocated(o)) && o != this && old(o.Valid()) ==>
          o.Valid() && o.Contents() == old(o.Contents()) && (old(o.Writable()) ==> o.Writable())
        decreases k
      {
        Parts();
        if head == null { break; }
        LastOne(blocks);
        LastBlock(s, k);
        ghost var c := Contents();
        if head.prev.length > left {
          TrimRear(left);
          CutEnd(c, left, gone);
          gone := c[|c| - left..] + gone;
          left := 0;
          break;
        }
        left := left - head.prev.length;
        ghost var bytes := DropRear();
        Regroup(Contents(), bytes, gone);
        gone, k := bytes + gone, k - 1;
      }
      Halves(all, Contents(), gone);
    }

    /** The first block moves to the end of another list. */
    method MoveHead(buf: IoBuf)
      requires Valid() && buf.Valid() && buf != this && blocks != []
      modifies this, blocks`next, blocks`prev, blocks`home, buf, buf.blocks`next, buf.blocks`prev
      ensures Valid() && buf.Valid() && blocks == old(blocks[1..]) && buf.blocks == old(buf.blocks) + [old(blocks[0])]
      ensures buf.Contents() + Contents() == old(buf.Contents()) + old(Contents())
      ensures |buf.Contents()| == old(|buf.Contents()|) + old(blocks[0].length)
      ensures old(Writable()) ==> Writable() && (old(buf.Writable()) ==> buf.Writable())
      ensures forall o: IoBuf :: old(allocated(o)) && o != this && o != buf && old(o.Valid()) ==>
        o.Valid() && o.Contents() == old(o.Contents()) && (old(o.Writable()) ==> o.Writable())
    {
      hide *;
      Parts();
      buf.Parts();
      var b := Pop();
      buf.AppendBlock(b);
    }

    /** The first n bytes of the first block move to the end of another list. */
    method MovePart(n: nat, buf: IoBuf)
      requires Valid() && buf.Valid() && buf != this && blocks != [] && 0 < n < blocks[0].length
      modifies this, blocks`off, blocks`length, blocks[0].buffer`refs, blocks[0].buffer`owners
      modifies buf, buf.blocks`next, buf.blocks`prev
      ensures Valid() && buf.Valid() && blocks == old(blocks)
      ensures buf.Contents() + Contents() == old(buf.Contents()) + old(Contents())
      ensures |buf.Contents()| == old(|buf.Contents()|) + n
      ensures (old(Writable()) ==> Writable()) && !buf.Writable()
      ensures forall o: IoBuf :: old(allocated(o)) && o != this && o != buf && old(o.Valid()) ==>
        o.Valid() && o.Contents() == old(o.Contents()) && (old(o.Writable()) ==> o.Writable())
    {
      hide *;
      Parts();
      buf.Parts();
      var b := SplitHead(n);
      buf.AppendBlock(b);
    }

    /** IOBuf::Split: the first n bytes, or all if there are fewer, go to a new list. It may write behind
        them exactly if the cut is between two blocks. */
    method Split(n: nat) returns (buf: IoBuf)
      requires Valid()
      modifies this, blocks`next, blocks`prev, blocks`home, blocks`off, blocks`length
      modifies Buffers(blocks)`refs, Buffers(blocks)`owners
      ensures fresh(buf) && Valid() && buf.Valid()
      ensures n <= old(|Contents()|) ==> buf.Contents() == old(Contents())[..n] && Contents() == old(Contents())[n..]
      ensures n > old(|Contents()|) ==> buf.Contents() == old(Contents()) && Contents() == ""
      ensures old(Writable()) ==> Writable() && (buf.Writable() <==> Boundary(old(PiecesOf(blocks)), n))
      ensures forall o: IoBuf :: old(allocated(o)) && o != this && old(o.Valid()) ==>
        o.Valid() && o.Contents() == old(o.Contents()) && (old(o.Writable()) ==> o.Writable())
    {
      hide *;
      Parts();
      ghost var p, all := PiecesOf(blocks), Contents();
      buf := new IoBuf();
      OthersStay(null);
      ghost var inside := SplitInto(n, buf, p);
      Halves(all, buf.Contents(), Contents());
    }

    /** The loop of IOBuf::Split; it ends `inside` a block or between two. */
    method SplitInto(n: nat, buf: IoBuf, ghost p: seq<string>) returns (ghost inside: bool)
      requires Valid() && buf.Valid() && buf != this && buf.blocks == [] && buf.Contents() == ""
      requires |p| == |blocks| && forall i :: 0 <= i < |p| ==> blocks[i].length == |p[i]|
      modifies this, blocks`next, blocks`prev, blocks`home, blocks`off, blocks`length
      modifies Buffers(blocks)`refs, Buffers(blocks)`owners, buf
      ensures Valid() && buf.Valid() && buf.Contents() + Contents() == old(Contents())
      ensures |buf.Contents()| == n || (|buf.Contents()| < n && Contents() == "")
      ensures inside == !Boundary(p, n)
      ensures old(Writable() && buf.Writable()) ==> Writable() && (buf.Writable() <==> !inside)
      ensures forall o: IoBuf :: old(allocated(o)) && o != this && o != buf && old(o.Valid()) ==>
        o.Valid() && o.Contents() == old(o.Contents()) && (old(o.Writable()) ==> o.Writable())
    {
      hide *;
      ghost var k, s := 0, blocks;
      NoPieces(p);
      InBuffers(s);
      var left: nat := n;
      while left > 0
        invariant Valid() && buf.Valid() && Reached(p, k, n, left)
        invariant k <= |s| && blocks == s[k..] && buf.blocks == s[..k]
        invariant forall i :: k <= i < |s| ==> s[i].length == |p[i]|
        invariant |buf.Contents()| == n - left && buf.Contents() + Contents() == old(Contents())
        invariant old(Writable() && buf.Writable()) ==> Writable() && buf.Writable()
        invariant forall o: IoBuf :: old(allocated(o)) && o != this && o != buf && old(o.Valid()) ==>
          o.Valid() && o.Contents() == old(o.Contents()) && (old(o.Writable()) ==> o.Writable())
        decreases |s| - k
      {
        Parts();
        if head == null { break; }
        NextBlock(s, k);
        if head.length <= left {
          NextPiece(p, k, n, left);
          left := left - head.length;
          MoveHead(buf);
          k := k + 1;
        } else {
          Inside(p, k, n, left);
          MovePart(left, buf);
          return true;
        }
      }
      AtCut(p, k, n, left);
      inside := false;
    }

    // ---- writing ---------------------------------------------------------------------------------------

    /** The number of bytes that the next PreAllocate offers. */
    ghost function Room(): nat
      reads this`blocks, blocks`off, blocks`length
    {
      if blocks == [] then CAPACITY
      else
        var b := blocks[|blocks| - 1];
        if b.off + b.length < CAPACITY then CAPACITY - (b.off + b.length) else CAPACITY
    }

    lemma RoomIs()
      ensures CAPACITY > 0 && (blocks == [] ==> Room() == CAPACITY)
      ensures blocks != [] ==>
        var b := blocks[|blocks| - 1]; var end := b.off + b.length; Room() == if end < CAPACITY then CAPACITY - end else CAPACITY
    {
    }

    ghost predicate AtRear(b: Block, at: nat, space: nat)
      reads this`blocks, blocks`off, blocks`length
    {
      blocks != [] && b == blocks[|blocks| - 1] && at == b.off + b.length && at + space == CAPACITY
    }

    /** IOBuf::PreAllocate: where the caller may write, in the rear block's buffer, and how much. */
    method PreAllocate() returns (b: Block, at: nat, space: nat)
      requires Valid()
      modifies this, blocks`next, blocks`prev
      ensures Valid() && AtRear(b, at, space) && space == old(Room()) > 0 && Contents() == old(Contents())
      ensures blocks == old(blocks) || (fresh(b) && fresh(b.buffer) && b.Top() && blocks == old(blocks) + [b])
      ensures old(Writable()) ==> Writable()
      ensures forall o: IoBuf :: old(allocated(o)) && o != this && old(o.Valid()) ==>
        o.Valid() && o.Contents() == old(o.Contents()) && (old(o.Writable()) ==> o.Writable())
    {
      hide *;
      Parts();
      RoomIs();
      if head != null {
        LastOne(blocks);
        b := head.prev;
        RearSpace(b);
        if CAPACITY - (b.off + b.length) > 0 {
          at, space := b.off + b.length, CAPACITY - (b.off + b.length);
          OthersStay(this);
          RearIs(b, at, space);
          return;
        }
      }
      b := Grow();
      at, space := 0, CAPACITY;
      RearIs(b, at, space);
    }

    /** A new block at the rear. */
    method Grow() returns (b: Block)
      requires Valid()
      modifies this, blocks`next, blocks`prev
      ensures Valid() && fresh(b) && fresh(b.buffer) && b.Top() && b.off == 0 && b.length == 0 && blocks == old(blocks) + [b]
      ensures Contents() == old(Contents()) && (old(Writable()) ==> Writable())
      ensures forall o: IoBuf :: old(allocated(o)) && o != this && old(o.Valid()) ==>
        o.Valid() && o.Contents() == old(o.Contents()) && (old(o.Writable()) ==> o.Writable())
    {
      hide *;
      b := new Block.Empty();
      OthersStay(null);
      EmptyBytes(b);
      AppendBlock(b);
    }

    lemma RearSpace(b: Block)
      requires b.Good()
      ensures b.off + b.length <= CAPACITY
    {
    }

    lemma EmptyBytes(b: Block)
      requires b.length == 0
      ensures b.Bytes() == ""
    {
    }

    lemma RearIs(b: Block, at: nat, space: nat)
      requires blocks != [] && b == blocks[|blocks| - 1] && at == b.off + b.length && at + space == CAPACITY
      ensures AtRear(b, at, space)
    {
    }

    lemma AtRearIs(b: Block, at: nat, space: nat)
      requires AtRear(b, at, space)
      ensures blocks != [] && b == blocks[|blocks| - 1] && at == b.off + b.length && at + space == CAPACITY
    {
    }

    /** IOBuf::PostAllocate: what the caller has written becomes part of the list. */
    method PostAllocate(size: nat)
      requires Valid() && blocks != [] && blocks[|blocks| - 1].Top()
      requires blocks[|blocks| - 1].off + blocks[|blocks| - 1].length + size <= CAPACITY
      modifies this`length, this`blocks, blocks`length
      ensures Valid() && blocks == old(blocks) && (old(Writable()) ==> Writable())
      ensures var b := blocks[|blocks| - 1]; var at := old(b.off + b.length);
        b.off + b.length == at + size && |b.buffer.data| == CAPACITY && Contents() == old(Contents()) + b.buffer.data[at..at + size]
      ensures forall o: IoBuf :: old(allocated(o)) && o != this && old(o.Valid()) ==>
        o.Valid() && o.Contents() == old(o.Contents()) && (old(o.Writable()) ==> o.Writable())
    {
      hide *;
      Parts();
      LastOne(blocks);
      ghost var p, l, b := PiecesOf(blocks), |blocks| - 1, head.prev;
      ghost var at := b.off + b.length;
      Extend(head.prev, size);
      length := length + size;
      FlatGrow(p, b.buffer.data[at..at + size]);
      SetBlocks(blocks, p[l := p[l] + b.buffer.data[at..at + size]]);
      OthersStay(this);
    }

    /** memcpy and PostAllocate: as much of the data as there is room for. */
    method Put(b: Block, at: nat, space: nat, data: string) returns (copySize: nat)
      requires Valid() && Writable() && AtRear(b, at, space)
      modifies this`length, this`blocks, blocks`length, b.buffer`data
      ensures Valid() && Writable() && blocks == old(blocks) && copySize == Portion(space, data) <= space
      ensures Contents() == old(Contents()) + data[..copySize] && AtRear(b, at + copySize, space - copySize)
      ensures forall o: IoBuf :: old(allocated(o)) && o != this && old(o.Valid()) ==>
        o.Valid() && o.Contents() == old(o.Contents()) && (old(o.Writable()) ==> o.Writable())
    {
      hide *;
      copySize := if space < |data| then space else |data|;
      PortionIs(space, data);
      AtRearIs(b, at, space);
      Parts();
      WriteBehind(b, data[..copySize]);
      PostAllocate(copySize);
      RearIs(b, at + copySize, space - copySize);
    }

    /** One turn of the loop of Append. */
    method AppendTurn(data: string) returns (copySize: nat)
      requires Valid() && Writable()
      modifies this, blocks`next, blocks`prev, blocks`length, Buffers(blocks)`data
      ensures Valid() && Writable() && copySize == Portion(old(Room()), data)
      ensures Contents() == old(Contents()) + data[..copySize]
      ensures Room() == if copySize < old(Room()) then old(Room()) - copySize else CAPACITY
      ensures forall i :: 0 <= i < |blocks| ==> blocks[i] in old(blocks) || (fresh(blocks[i]) && fresh(blocks[i].buffer))
      ensures forall o: IoBuf :: old(allocated(o)) && o != this && old(o.Valid()) ==>
        o.Valid() && o.Contents() == old(o.Contents()) && (old(o.Writable()) ==> o.Writable())
    {
      hide *;
      InBuffers(blocks);
      var b, at, space := PreAllocate();
      AtRearIs(b, at, space);
      copySize := Put(b, at, space, data);
      AtRearIs(b, at + copySize, space - copySize);
      RoomIs();
    }

    /** The loop of IOBuf::Append(data, size), watched for as many as `turns` turns: for some data it goes on
        for longer than there is memory. */
    method Append(data: string, turns: nat) returns (remain: nat)
      requires Valid() && Writable() && |data| < SIZE_T
      modifies this, blocks`next, blocks`prev, blocks`length, Buffers(blocks)`data
      ensures Valid() && Writable()
      ensures var s := Turns(old(Room()), data, turns); remain == s.remain && Contents() == old(Contents()) + s.out
      ensures forall o: IoBuf :: old(allocated(o)) && o != this && old(o.Valid()) ==>
        o.Valid() && o.Contents() == old(o.Contents()) && (old(o.Writable()) ==> o.Writable())
    {
      hide *;
      remain := |data|;
      var n := 0;
      ghost var room, was := Room(), blocks;
      NoTurns(room, data);
      FromBuffers(was);
      while remain != 0 && n < turns
        invariant Valid() && Writable() && n <= turns
        invariant var s := Turns(room, data, n); remain == s.remain && Room() == s.space && Contents() == old(Contents()) + s.out
        invariant forall i :: 0 <= i < |blocks| ==> blocks[i] in was || (fresh(blocks[i]) && fresh(blocks[i].buffer))
        invariant forall o: IoBuf :: old(allocated(o)) && o != this && old(o.Valid()) ==>
          o.Valid() && o.Contents() == old(o.Contents()) && (old(o.Writable()) ==> o.Writable())
        decreases turns - n
      {
        FromBuffers(blocks);
        var copySize := AppendTurn(data);
        NextTurn(room, data, n, copySize);
        remain := (remain - copySize) % SIZE_T;
        n := n + 1;
      }
      if remain == 0 { Over(room, data, n, turns); }
    }

    // ---- reading -----------------------------------------------------------------------------------------

    /** IOBuf::ByteAt. */
    method ByteAt(pos: nat) returns (c: char)
      requires Valid()
      ensures c == if pos < |Contents()| then Contents()[pos] else '\U{ff}'
    {
      hide *;
      Parts();
      ghost var p := PiecesOf(blocks);
      ghost var k: nat := 0;
      var b := head;
      var left: nat := pos;
      c := '\U{ff}';
      NoPieces(p);
      while b != null
        invariant if b == null then blocks == [] else k < |blocks| && b == blocks[k]
        invariant Contents() == Flat(p) && k <= |p| && Reached(p, k, pos, left) && c == '\U{ff}'
        decreases |blocks| - k
      {
        InBounds(b);
        NextPiece(p, k, pos, left);
        if left < b.length {
          ByteOfPiece(p, k, pos, left);
          c := b.buffer.data[b.off + left];
          return;
        }
        left := left - b.length;
        NextInRing(blocks, k);
        b := b.next;
        k := k + 1;
        if b == head { break; }
      }
      PastEnd(p, k, pos, left);
    }

    /** IOBuf::ToString. */
    method ToString() returns (buf: string)
      requires Valid()
      ensures buf == Contents()
    {
      hide *;
      Parts();
      ghost var p := PiecesOf(blocks);
      ghost var k: nat := 0;
      buf := "";
      StartOf(p);
      var b := head;
      while b != null
        invariant if b == null then blocks == [] else k < |blocks| && b == blocks[k]
        invariant Contents() == Flat(p) && k <= |p| && buf == Flat(p[..k])
        decreases |blocks| - k
      {
        InBounds(b);
        OneMorePiece(p, k);
        buf := buf + b.buffer.data[b.off..b.off + b.length];
        NextInRing(blocks, k);
        k := k + 1;
        if b.next == head { break; }
        b := b.next;
      }
    }
  }

  /** A list stays what it is while nothing happens to its own blocks but in the buffers they share. */
  twostate lemma OthersStay(me: IoBuf?)
    requires forall x: Block :: old(allocated(x)) && old(x.Good()) && old(x.home) != null && old(x.home) != me ==>
      && x.Good() && (old(x.Top()) ==> x.Top()) && x.Bytes() == old(x.Bytes())
      && x.home == old(x.home) && x.next == old(x.next) && x.prev == old(x.prev)
    requires forall o: IoBuf :: old(allocated(o)) && o != me ==>
      o.head == old(o.head) && o.blocks == old(o.blocks) && o.length == old(o.length)
    ensures forall o: IoBuf :: old(allocated(o)) && o != me && old(o.Valid()) ==>
      o.Valid() && o.Contents() == old(o.Contents()) && (old(o.Writable()) ==> o.Writable())
  {
    hide Block.Good, Block.Top, Block.Bytes, Flat, NoTwice;
    forall o: IoBuf | old(allocated(o)) && o != me && old(o.Valid())
      ensures o.Valid() && o.Contents() == old(o.Contents()) && (old(o.Writable()) ==> o.Writable())
    {
      assert PiecesOf(o.blocks) == old(PiecesOf(o.blocks));
    }
  }

  /** memcpy into the space behind a block: no list changes. */
  method WriteBehind(b: Block, bytes: string)
    requires b.Good() && b.Top() && b.off + b.length + |bytes| <= CAPACITY
    modifies b.buffer`data
    ensures |b.buffer.data| == CAPACITY && b.buffer.data[b.off + b.length..b.off + b.length + |bytes|] == bytes
    ensures b.Good() && b.Top()
    ensures forall o: IoBuf :: old(allocated(o)) && old(o.Valid()) ==>
      o.Valid() && o.Contents() == old(o.Contents()) && (old(o.Writable()) ==> o.Writable())
  {
    hide *;
    Fill(b, bytes);
    OthersStay(null);
  }

  /** A block that is in no list goes. */
  method Release(b: Block)
    requires b.Good() && b.home == null
    modifies b.buffer`refs, b.buffer`freed, b.buffer`owners
    ensures b.buffer.owners == old(b.buffer.owners) - {b}
    ensures forall o: IoBuf :: old(allocated(o)) && old(o.Valid()) ==>
      o.Valid() && o.Contents() == old(o.Contents()) && (old(o.Writable()) ==> o.Writable())
  {
    hide *;
    b.Unref();
    OthersStay(null);
  }

  /** n bytes end between two of these pieces, or reach the end. */
  ghost predicate Boundary(p: seq<string>, n: nat) {
    n >= |Flat(p)| || exists k :: 0 <= k <= |p| && |Flat(p[..k])| == n
  }

  lemma FlatMono(p: seq<string>, i: nat, j: nat)
    requires i <= j <= |p|
    ensures |Flat(p[..i])| <= |Flat(p[..j])|
  {
    assert p[..j] == p[..i] + p[i..j];
    FlatJoin(p[..i], p[i..j]);
  }

  /** The first k pieces are n - left bytes. */
  ghost predicate Reached(p: seq<string>, k: nat, n: nat, left: nat) {
    k <= |p| && left <= n && |Flat(p[..k])| == n - left
  }

  lemma NextPiece(p: seq<string>, k: nat, n: nat, left: nat)
    requires k < |p| && Reached(p, k, n, left)
    ensures |p[k]| <= left ==> Reached(p, k + 1, n, left - |p[k]|)
    ensures |Flat(p[..k + 1])| == n - left + |p[k]| <= |Flat(p)|
  {
    FlatLast(p[..k + 1]);
    assert p[..k + 1][..k] == p[..k];
    FlatMono(p, k + 1, |p|);
    assert p[..|p|] == p;
  }

  lemma Inside(p: seq<string>, k: nat, n: nat, left: nat)
    requires k < |p| && Reached(p, k, n, left) && 0 < left < |p[k]|
    ensures !Boundary(p, n)
  {
    NextPiece(p, k, n, left);
    forall i | 0 <= i <= |p| ensures |Flat(p[..i])| != n {
      if i <= k { FlatMono(p, i, k); } else { FlatMono(p, k + 1, i); }
    }
  }

  lemma AtCut(p: seq<string>, k: nat, n: nat, left: nat)
    requires Reached(p, k, n, left) && (left == 0 || k == |p|)
    ensures Boundary(p, n)
  {
    assert p[..|p|] == p;
  }

  lemma LastBlock<T>(s: seq<T>, k: nat)
    requires 0 < k <= |s|
    ensures s[..k][..k - 1] == s[..k - 1] && s[..k][k - 1] == s[k - 1]
  {
  }

  lemma StartOf(p: seq<string>)
    ensures Flat(p[..0]) == "" && p[..|p|] == p
  {
  }

  lemma OneMorePiece(p: seq<string>, k: nat)
    requires k < |p|
    ensures Flat(p[..k + 1]) == Flat(p[..k]) + p[k]
  {
    FlatLast(p[..k + 1]);
    assert p[..k + 1][..k] == p[..k];
  }

  /** A byte is found in the piece that the bytes before it lead to. */
  lemma ByteOfPiece(p: seq<string>, k: nat, pos: nat, left: nat)
    requires k < |p| && Reached(p, k, pos, left) && left < |p[k]|
    ensures pos < |Flat(p)| && Flat(p)[pos] == p[k][left]
  {
    OneMorePiece(p, k);
    FlatJoin(p[..k + 1], p[k + 1..]);
    assert p == p[..k + 1] + p[k + 1..];
  }

  lemma PastEnd(p: seq<string>, k: nat, pos: nat, left: nat)
    ensures k == |p| && Reached(p, k, pos, left) ==> pos >= |Flat(p)|
  {
    assert p[..|p|] == p;
  }

  /** The next block of a ring is the next of the list, or the first one after the last. */
  lemma NextInRing(s: seq<Block>, k: nat)
    requires k < |s| && Ring(s) && NoTwice(s)
    ensures k + 1 < |s| ==> s[k].next == s[k + 1] && s[k + 1] != s[0]
    ensures k + 1 == |s| ==> s[k].next == s[0]
  {
  }

  lemma NextBlock<T>(s: seq<T>, k: nat)
    requires k < |s|
    ensures s[k..][1..] == s[k + 1..] && s[..k] + [s[k]] == s[..k + 1] && s[k..][0] == s[k]
  {
  }

  lemma NoPieces(p: seq<string>)
    ensures forall n: nat :: Reached(p, 0, n, n)
  {
  }

  lemma Halves(all: string, c: string, d: string)
    requires all == c + d
    ensures c == all[..|c|] && d == all[|c|..] && (d == "" ==> c == all)
  {
  }

  lemma Regroup(c: string, d: string, e: string)
    ensures c + (d + e) == (c + d) + e
  {
  }

  lemma CutFront(gone: string, c: string, n: nat)
    ensures n <= |c| ==> gone + c == (gone + c[..n]) + c[n..]
  {
  }

  lemma CutEnd(c: string, n: nat, gone: string)
    ensures n <= |c| ==> c + gone == c[..|c| - n] + (c[|c| - n..] + gone)
  {
  }

  lemma FirstPiece(s: seq<Block>, p: seq<string>)
    requires NoTwice(s) && s != [] && |p| == |s|
    ensures var t, q := s[1..], p[1..];
      && Flat(p) == p[0] + Flat(q) && NoTwice(t) && |q| == |t|
      && forall i :: 0 <= i < |t| ==> t[i] == s[i + 1] && q[i] == p[i + 1] && t[i] != s[0]
  {
  }

  lemma LastPiece(s: seq<Block>, p: seq<string>, b: Block)
    requires NoTwice(s) && |p| == |s| && forall i :: 0 <= i < |s| ==> s[i] != b
    ensures var t, q := s + [b], p + [b.Bytes()];
      && Flat(q) == Flat(p) + b.Bytes() && NoTwice(t) && |q| == |t| && (b.Good() ==> |b.Bytes()| == b.length)
      && forall i :: 0 <= i < |t| ==> if i == |s| then t[i] == b && q[i] == b.Bytes() else t[i] == s[i] && q[i] == p[i] && t[i] != b
  {
    FlatSnoc(p, b.Bytes());
  }

  lemma RingOfOne(b: Block)
    requires b.next == b && b.prev == b
    ensures Ring([] + [b])
  {
    assert [] + [b] == [b];
  }

  lemma RearPiece(s: seq<Block>, p: seq<string>)
    requires NoTwice(s) && s != [] && |p| == |s|
    ensures var l := |s| - 1; var t, q := s[..l], p[..l];
      && Flat(p) == Flat(q) + p[l] && NoTwice(t) && |q| == |t|
      && forall i :: 0 <= i < |t| ==> t[i] == s[i] && q[i] == p[i] && t[i] != s[l]
  {
    FlatLast(p);
  }

  lemma LastOne(s: seq<Block>)
    requires Ring(s) && NoTwice(s) && s != []
    ensures s[0].prev == s[|s| - 1] && forall i :: 0 <= i < |s| - 1 ==> s[i] != s[|s| - 1]
  {
  }

  lemma FirstOne(s: seq<Block>)
    requires NoTwice(s)
    ensures forall i :: 0 < i < |s| ==> s[i] != s[0]
  {
  }

  lemma Alone(s: seq<Block>)
    requires Ring(s) && NoTwice(s) && s != [] && s[0].prev == s[0]
    ensures |s| == 1 && s[0].next == s[0] && Ring([])
  {
  }

  lemma AllOrNone(s: seq<Block>)
    requires |s| == 1
    ensures s[1..] == [] && s[..0] == []
  {
  }

  lemma NotAlone(s: seq<Block>)
    requires Ring(s) && s != [] && s[0].prev != s[0]
    ensures |s| > 1
  {
  }
}
