/** Block of httpserver/iobuf.h and iobuf.cc: a window into a buffer that several blocks may share, with
    the count of them kept at the buffer's end. */
module IoBlocks {
  // kDefaultBufferSize less the counter
  const CAPACITY: nat := 512 * 1024 - 4

  class Buffer {
    // the memory, always CAPACITY bytes
    var data: string
    var refs: int
    var freed: bool
    // the blocks that are alive and share this buffer
    ghost var owners: set<Block>

    /** A buffer from malloc with a count of one. */
    constructor ()
      ensures |data| == CAPACITY && refs == 1 && !freed && owners == {}
    {
      data, refs, freed, owners := seq(CAPACITY, _ => '\0'), 1, false, {};
    }

    /** The count is the number of blocks that share the buffer, it is free exactly when there are none,
        and their windows lie apart inside it. */
    ghost predicate Sound()
      reads this`refs, this`freed, this`owners, this`data, owners`off, owners`length
    {
      && refs == |owners| && (freed <==> owners == {}) && |data| == CAPACITY
      && (forall x :: x in owners ==> x.buffer == this && x.off + x.length <= CAPACITY)
      && forall x, y :: x in owners && y in owners && x != y ==> x.length > 0 && Apart(x, y)
    }
  }

  ghost predicate Apart(x: Block, y: Block)
    reads x`off, x`length, y`off, y`length
  {
    x.off + x.length <= y.off || y.off + y.length <= x.off
  }

  class Block {
    const buffer: Buffer
    var off: nat
    var length: nat
    var next: Block
    var prev: Block
    // the buffer list that this block is in
    ghost var home: object?

    /** Block::Block(). */
    constructor Empty()
      ensures fresh(buffer) && off == 0 && length == 0 && next == this && prev == this && home == null
      ensures Good() && Top()
    {
      var b := new Buffer();
      buffer, off, length, next, prev, home := b, 0, 0, this, this, null;
      new;
      buffer.owners := {this};
    }

    /** The private constructor. */
    constructor Window(buffer: Buffer, off: nat, length: nat)
      ensures this.buffer == buffer && this.off == off && this.length == length
      ensures next == this && prev == this && home == null
    {
      this.buffer, this.off, this.length, next, prev, home := buffer, off, length, this, this, null;
    }

    ghost predicate Good()
      reads buffer`refs, buffer`freed, buffer`owners, buffer`data, buffer.owners`off, buffer.owners`length
    {
      this in buffer.owners && buffer.Sound()
    }

    /** No other block reaches into this one's window or beyond it, so what lies behind may be written. */
    ghost predicate Top()
      reads this`off, buffer`owners, buffer.owners`off, buffer.owners`length
    {
      forall y :: y in buffer.owners && y != this ==> y.off + y.length <= off
    }

    ghost function Bytes(): string
      reads this`off, this`length, buffer`data
    {
      if off + length <= |buffer.data| then buffer.data[off..off + length] else ""
    }

    /** The destructor: Block::Unref(). */
    method Unref()
      requires Good()
      modifies buffer`refs, buffer`freed, buffer`owners
      ensures buffer.owners == old(buffer.owners) - {this} && buffer.Sound()
      ensures forall x: Block :: x != this && old(allocated(x)) && old(x.Good()) ==> x.Good() && (old(x.Top()) ==> x.Top())
    {
      var ref := buffer.refs;
      buffer.refs := buffer.refs - 1;
      buffer.owners := buffer.owners - {this};
      if ref > 1 { return; }
      buffer.freed := true;
    }

    method TrimStart(amount: nat)
      requires amount <= length
      modifies this`off, this`length
      ensures off == old(off) + amount && length == old(length) - amount
    {
      off := off + amount;
      length := length - amount;
    }

    method TrimEnd(amount: nat)
      requires amount <= length
      modifies this`length
      ensures length == old(length) - amount
    {
      length := length - amount;
    }

    method Ref()
      modifies buffer`refs
      ensures buffer.refs == old(buffer.refs) + 1
    {
      buffer.refs := buffer.refs + 1;
    }

    method Clone() returns (b: Block)
      modifies buffer`refs
      ensures fresh(b) && b.buffer == buffer && b.off == off && b.length == length && b.next == b && b.prev == b && b.home == null
      ensures buffer.refs == old(buffer.refs) + 1
    {
      b := new Block.Window(buffer, off, length);
      b.Ref();
    }
  }

  // ---- steps on one block, and every other block in the program -------------------------------------------

  /** Part of a block's front goes. */
  method TrimFront(b: Block, n: nat)
    requires b.Good() && n < b.length
    modifies b`off, b`length
    ensures b.off == old(b.off) + n && b.length == old(b.length) - n && b.Bytes() == old(b.Bytes())[n..]
    ensures forall x: Block :: old(allocated(x)) && old(x.Good()) ==> x.Good() && (old(x.Top()) ==> x.Top())
  {
    b.TrimStart(n);
  }

  /** Part of a block's end goes. */
  method TrimBack(b: Block, n: nat)
    requires b.Good() && n < b.length
    modifies b`length
    ensures b.length == old(b.length) - n && b.Bytes() == old(b.Bytes())[..b.length]
    ensures forall x: Block :: old(allocated(x)) && old(x.Good()) ==> x.Good() && (old(x.Top()) ==> x.Top())
  {
    b.TrimEnd(n);
  }

  /** The partial step of IOBuf::Split: the first n bytes of h go to a clone. */
  method SplitBlock(h: Block, n: nat) returns (b: Block)
    requires h.Good() && 0 < n < h.length
    modifies h`off, h`length, h.buffer`refs, h.buffer`owners
    ensures fresh(b) && b.buffer == h.buffer && b.next == b && b.prev == b && b.home == null
    ensures b.Bytes() == old(h.Bytes())[..n] && h.Bytes() == old(h.Bytes())[n..] && h.off == old(h.off) + n
    ensures b.Good() && !b.Top()
    ensures forall x: Block :: old(allocated(x)) && old(x.Good()) ==> x.Good() && (old(x.Top()) ==> x.Top())
  {
    hide *;
    InBounds(h);
    b := CarveOff(h, n);
    Windows(h, b);
  }

  lemma InBounds(b: Block)
    requires b.Good()
    ensures b.off + b.length <= |b.buffer.data| && b.Bytes() == b.buffer.data[b.off..b.off + b.length]
  {
  }

  /** Two windows that meet. */
  lemma Windows(h: Block, b: Block)
    requires h in b.buffer.owners && h.buffer == b.buffer && h != b && h.length > 0 && b.off + b.length == h.off
    requires h.off + h.length <= |h.buffer.data|
    ensures !b.Top()
    ensures var m := h.buffer.data[b.off..h.off + h.length]; b.Bytes() == m[..b.length] && h.Bytes() == m[b.length..]
  {
  }

  method CarveOff(h: Block, n: nat) returns (b: Block)
    requires h.Good() && 0 < n < h.length
    modifies h`off, h`length, h.buffer`refs, h.buffer`owners
    ensures fresh(b) && b.buffer == h.buffer && b.next == b && b.prev == b && b.home == null
    ensures b.length == n && b.off == old(h.off) && h.off == old(h.off) + n && h.length == old(h.length) - n
    ensures b.Good() && h in b.buffer.owners
    ensures forall x: Block :: old(allocated(x)) && old(x.Good()) ==> x.Good() && (old(x.Top()) ==> x.Top())
  {
    b := Carve(h, n);
    forall x: Block | old(allocated(x)) && old(x.Good()) ensures x.Good() && (old(x.Top()) ==> x.Top()) {
      if x.buffer != h.buffer { assert h !in x.buffer.owners; }
    }
  }

  method Carve(h: Block, n: nat) returns (b: Block)
    requires h.Good() && 0 < n < h.length
    modifies h`off, h`length, h.buffer`refs, h.buffer`owners
    ensures fresh(b) && b.buffer == h.buffer && b.next == b && b.prev == b && b.home == null
    ensures b.length == n && b.off == old(h.off) && h.off == old(h.off) + n && h.length == old(h.length) - n
    ensures b.Good() && h.Good() && h.buffer.owners == old(h.buffer.owners) + {b}
  {
    hide *;
    b := Part(h, n);
    Adopt(b, h);
  }

  method Part(h: Block, n: nat) returns (b: Block)
    requires h.Good() && 0 < n < h.length
    modifies h`off, h`length, h.buffer`refs
    ensures fresh(b) && b.buffer == h.buffer && b.next == b && b.prev == b && b.home == null
    ensures b.length == n && b.off == old(h.off) && h.off == old(h.off) + n && h.length == old(h.length) - n
    ensures h in h.buffer.owners && b !in h.buffer.owners && Almost(h, b.off)
  {
    b := h.Clone();
    b.TrimEnd(b.length - n);
    h.TrimStart(n);
  }

  /** The clone b joins the owners of its buffer, just before the rest of h. */
  method Adopt(b: Block, ghost h: Block)
    requires b.buffer == h.buffer && h in h.buffer.owners && b !in h.buffer.owners && b.length > 0 && h.length > 0
    requires b.off + b.length == h.off && Almost(h, b.off)
    modifies h.buffer`owners
    ensures b.Good() && h.Good()
    ensures h.buffer.owners == old(h.buffer.owners) + {b}
  {
    h.buffer.owners := h.buffer.owners + {b};
  }

  /** The buffer of h is sound but for one reference too many, and its other blocks lie apart from what
      h was when it began at `off`. */
  ghost predicate Almost(h: Block, off: nat)
    reads h, h.buffer, h.buffer.owners
  {
    var o := h.buffer.owners;
    && off <= h.off && h.buffer.refs == |o| + 1 && !h.buffer.freed && |h.buffer.data| == CAPACITY
    && (forall x :: x in o ==> x.buffer == h.buffer && x.off + x.length <= CAPACITY && x.length > 0)
    && (forall x, y :: x in o && y in o && x != y ==> Apart(x, y))
    && forall x :: x in o && x != h ==> x.off + x.length <= off || h.off + h.length <= x.off
  }

  /** What the owner of a block may do with the space behind it: no block changes. */
  method Fill(b: Block, bytes: string)
    requires b.Good() && b.Top() && b.off + b.length + |bytes| <= CAPACITY
    modifies b.buffer`data
    ensures |b.buffer.data| == CAPACITY && b.buffer.data[b.off + b.length..b.off + b.length + |bytes|] == bytes
    ensures forall x: Block :: old(allocated(x)) && old(x.Good()) ==> x.Good() && x.Bytes() == old(x.Bytes()) && (old(x.Top()) ==> x.Top())
  {
    var at, m := b.off + b.length, b.buffer.data;
    b.buffer.data := m[..at] + bytes + m[at + |bytes|..];
    forall x: Block | old(allocated(x)) && old(x.Good()) ensures x.Bytes() == old(x.Bytes()) {
      if x.buffer == b.buffer { assert x.off + x.length <= at; }
    }
  }

  /** Block::Append(size). */
  method Extend(b: Block, size: nat)
    requires b.Good() && b.Top() && b.off + b.length + size <= CAPACITY
    modifies b`length
    ensures b.length == old(b.length) + size
    ensures |b.buffer.data| == CAPACITY && b.Bytes() == old(b.Bytes()) + b.buffer.data[b.off + old(b.length)..b.off + b.length]
    ensures forall x: Block :: old(allocated(x)) && old(x.Good()) ==> x.Good() && (old(x.Top()) ==> x.Top())
  {
    b.length := b.length + size;
  }
}
