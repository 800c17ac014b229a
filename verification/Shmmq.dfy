/** The queue of shmmq/shmmq.c in shared memory: many processes, one semaphore, a ring of slots and
    two 32-bit counters that wrap. Every access to shared memory, down to each byte of a memcpy, is
    a step of its own, and a schedule interleaves the steps of the processes in any way. */
module Shmmq {
  import opened Basics

  type Byte = b: int | 0 <= b < 256
  type Item = seq<Byte>

  const WRAP: nat := 4294967296

  /** mqsize slots of itemsize bytes; the product fits an int, as shmget is given it. */
  datatype Config = Config(mqsize: nat, itemsize: nat)

  predicate Usable(c: Config) {
    1 <= c.mqsize < WRAP / 2 && 1 <= c.itemsize && c.mqsize * c.itemsize < WRAP / 2
  }

  datatype Request = Enqueue(item: Item) | Dequeue(size: nat)

  /** Where a process is. The semaphore is held from Check to Leave. */
  datatype Process =
    | Idle
    | EnqP(item: Item) | EnqCheck(item: Item) | EnqCopy(item: Item, pos: nat, done: nat) | EnqBump(item: Item)
    | DeqP(size: nat) | DeqCheck(size: nat) | DeqCopy(size: nat, pos: nat, read: Item) | DeqBump(read: Item)
    | Leave

  /** Shared memory, the processes, and as history what has been put in and taken out. `begun`
      counts the enqueues that found room. */
  datatype World = World(sem: nat, enq: nat, deq: nat, mem: seq<Byte>, procs: seq<Process>,
                         begun: nat, sent: seq<Item>, got: seq<Item>)

  /** A world right after shmmq_open(1, ...): both counters are (unsigned) -1. */
  predicate Opened(c: Config, w: World) {
    && w.sem == 1 && w.enq == w.deq == WRAP - 1 && |w.mem| == c.mqsize * c.itemsize
    && (forall i :: 0 <= i < |w.procs| ==> w.procs[i].Idle?)
    && w.begun == 0 && w.sent == [] && w.got == []
  }

  // ---- steps --------------------------------------------------------------------------------------

  predicate Legal(c: Config, size: nat) { 0 < size <= c.itemsize }

  function Slot(c: Config, k: nat): nat
    requires c.mqsize > 0
  {
    (k % WRAP) % c.mqsize
  }

  function Place(s: seq<Byte>, at: nat, b: Byte): seq<Byte> { if at < |s| then s[at := b] else s }

  function At(s: seq<Byte>, at: nat): Byte { if at < |s| then s[at] else 0 }

  /** The next step of process i; `r` is what an idle process is asked to do. A process that waits
      for the semaphore stays where it is. */
  function Step(c: Config, w: World, i: nat, r: Request): World
    requires Usable(c)
  {
    if i >= |w.procs| then w else
    match w.procs[i]
    case Idle => (
      match r
      case Enqueue(item) => if Legal(c, |item|) then Move(w, i, EnqP(item)) else w
      case Dequeue(size) => if Legal(c, size) then Move(w, i, DeqP(size)) else w)
    case EnqP(item) => if w.sem == 0 then w else Move(w.(sem := w.sem - 1), i, EnqCheck(item))
    case EnqCheck(item) =>
      if (w.deq + c.mqsize - 1) % WRAP == w.enq then Move(w, i, Leave)
      else Move(w.(begun := w.begun + 1), i, EnqCopy(item, Slot(c, w.enq + 1), 0))
    case EnqCopy(item, pos, done) =>
      if done < |item| then Move(w.(mem := Place(w.mem, pos * c.itemsize + done, item[done])), i, EnqCopy(item, pos, done + 1))
      else Move(w, i, EnqBump(item))
    case EnqBump(item) => Move(w.(enq := (w.enq + 1) % WRAP, sent := w.sent + [item]), i, Leave)
    case DeqP(size) => if w.sem == 0 then w else Move(w.(sem := w.sem - 1), i, DeqCheck(size))
    case DeqCheck(size) =>
      if w.enq == w.deq then Move(w, i, Leave) else Move(w, i, DeqCopy(size, Slot(c, w.deq + 1), []))
    case DeqCopy(size, pos, read) =>
      if |read| < size then Move(w, i, DeqCopy(size, pos, read + [At(w.mem, pos * c.itemsize + |read|)]))
      else Move(w, i, DeqBump(read))
    case DeqBump(read) => Move(w.(deq := (w.deq + 1) % WRAP, got := w.got + [read]), i, Leave)
    case Leave => Move(w.(sem := w.sem + 1), i, Idle)
  }

  function Move(w: World, i: nat, p: Process): World
    requires i < |w.procs|
  {
    w.(procs := w.procs[i := p])
  }

  /** A schedule: whose turn it is, and what an idle process is asked to do. */
  function Run(c: Config, w: World, schedule: seq<(nat, Request)>): World
    requires Usable(c)
  {
    if schedule == [] then w
    else
      var (i, r) := schedule[|schedule| - 1];
      Step(c, Run(c, w, schedule[..|schedule| - 1]), i, r)
  }

  // ---- when slots are distinct ----------------------------------------------------------------------

  /** Consecutive items that can be in the ring together have different slots across the wrap. */
  predicate WrapsWell(c: Config)
    requires c.mqsize > 0
  {
    WRAP % c.mqsize == 0 || WRAP % c.mqsize == c.mqsize - 1
  }

  /** A step of d around a circle of w places. */
  lemma Around(i: nat, d: nat, w: nat)
    requires 0 < d < w
    ensures (i + d) % w == if i % w + d < w then i % w + d else i % w + d - w
  {
    var q, a := i / w, i % w;
    assert i == q * w + a;
    if a + d < w {
      ModIs(i + d, w, q, a + d);
    } else {
      assert (q + 1) * w == q * w + w;
      ModIs(i + d, w, q + 1, a + d - w);
    }
  }

  lemma AcrossWrap(a: nat, b: nat, d: nat, q: nat, r: nat, m: nat, w: nat)
    requires m > 0 && a + d == b + w && w == q * m + r && 0 < d <= m - 2 && (r == 0 || r == m - 1)
    ensures a % m != b % m
  {
    if r == 0 {
      ModAdd(b, q, m);
      ModStep(a, d, m);
    } else {
      assert (q + 1) * m == q * m + m;
      ModAdd(b, q + 1, m);
      ModStep(a, d + 1, m);
    }
  }

  /** Items at most mqsize - 2 apart have different slots, before the counters wrap and, if the
      ring wraps well, ever after. */
  lemma SlotsDiffer(c: Config, i: nat, j: nat)
    requires Usable(c) && i < j <= i + c.mqsize - 2 && (WrapsWell(c) || j < WRAP)
    ensures Slot(c, i) != Slot(c, j)
  {
    var m, d := c.mqsize, j - i;
    Around(i, d, WRAP);
    if i % WRAP + d < WRAP {
      ModStep(i % WRAP, d, m);
    } else {
      BelowWrap(i, j);
      AcrossWrap(i % WRAP, j % WRAP, d, WRAP / m, WRAP % m, m, WRAP);
    }
  }

  lemma BelowWrap(i: nat, j: nat)
    requires i < j && i % WRAP + (j - i) >= WRAP
    ensures j >= WRAP
  {
    if j < WRAP { ModIs(i, WRAP, 0, i); }
  }

  ghost predicate SlotsDistinct(c: Config)
    requires c.mqsize > 0
  {
    forall i: nat, j: nat :: i < j <= i + c.mqsize - 2 ==> Slot(c, i) != Slot(c, j)
  }

  /** The exact condition on mqsize: 2^32 leaves the remainder 0 or mqsize - 1. */
  lemma WrapsWellExactly(c: Config)
    requires Usable(c)
    ensures SlotsDistinct(c) <==> WrapsWell(c)
  {
    if WrapsWell(c) {
      forall i: nat, j: nat | i < j <= i + c.mqsize - 2 ensures Slot(c, i) != Slot(c, j) { SlotsDiffer(c, i, j); }
    } else {
      var r := WRAP % c.mqsize;
      ModIs(WRAP - r, c.mqsize, WRAP / c.mqsize, 0);
      ModIs(WRAP - r, WRAP, 0, WRAP - r);
      ModIs(WRAP, WRAP, 1, 0);
      assert Slot(c, WRAP - r) == Slot(c, WRAP);
    }
  }

  // ---- the invariant -----------------------------------------------------------------------------------

  predicate Inside(p: Process) { !p.Idle? && !p.EnqP? && !p.DeqP? }

  predicate Alone(w: World, h: nat) {
    h < |w.procs| && Inside(w.procs[h]) && forall j :: 0 <= j < |w.procs| && j != h ==> !Inside(w.procs[j])
  }

  /** Mutual exclusion: the semaphore is free and nobody is inside, or one process is. */
  ghost predicate Exclusive(w: World) {
    || (w.sem == 1 && forall j :: 0 <= j < |w.procs| ==> !Inside(w.procs[j]))
    || (w.sem == 0 && exists h :: Alone(w, h))
  }

  /** The counters are what has been sent and got, modulo 2^32, and the ring is never over-full. */
  predicate Counted(c: Config, w: World) {
    && w.enq == (|w.sent| + WRAP - 1) % WRAP && w.deq == (|w.got| + WRAP - 1) % WRAP
    && |w.got| <= |w.sent| <= |w.got| + c.mqsize - 1
    && |w.mem| == c.mqsize * c.itemsize
    && forall k :: 0 <= k < |w.sent| ==> Legal(c, |w.sent[k]|)
  }

  /** Slot number `slot` starts with the bytes of item. */
  predicate Holds(c: Config, mem: seq<Byte>, slot: nat, item: Item) {
    forall b :: 0 <= b < |item| ==> At(mem, slot * c.itemsize + b) == item[b]
  }

  predicate Copying(p: Process) { p.EnqCopy? || p.EnqBump? }

  /** What a process knows. */
  predicate Local(c: Config, w: World, p: Process)
    requires Usable(c)
  {
    && (Inside(p) ==> w.begun == |w.sent| + if Copying(p) then 1 else 0)
    && (Copying(p) ==> |w.sent| < |w.got| + c.mqsize - 1)
    && match p
       case EnqP(item) => Legal(c, |item|)
       case EnqCheck(item) => Legal(c, |item|)
       case EnqCopy(item, pos, done) =>
         Legal(c, |item|) && pos == Slot(c, |w.sent|) && done <= |item| && Holds(c, w.mem, pos, item[..done])
       case EnqBump(item) => Legal(c, |item|) && Holds(c, w.mem, Slot(c, |w.sent|), item)
       case DeqP(size) => Legal(c, size)
       case DeqCheck(size) => Legal(c, size)
       case DeqCopy(size, pos, read) =>
         Legal(c, size) && |w.got| < |w.sent| && pos == Slot(c, |w.got|) && |read| <= size && Holds(c, w.mem, pos, read)
       case DeqBump(read) => Legal(c, |read|) && |w.got| < |w.sent| && Holds(c, w.mem, Slot(c, |w.got|), read)
       case _ => true
  }

  /** The shorter of two items starts the longer: what was taken out is what was put in, as far as
      both sizes go. */
  predicate Agree(a: Item, b: Item) { forall x :: 0 <= x < |a| && x < |b| ==> a[x] == b[x] }

  /** First in, first out: what was got is what was sent, and what was sent and not got is still in
      its slot. */
  predicate Fifo(c: Config, w: World)
    requires Usable(c)
  {
    && |w.got| <= |w.sent|
    && (forall k :: 0 <= k < |w.got| ==> Agree(w.got[k], w.sent[k]))
    && (forall k :: |w.got| <= k < |w.sent| ==> Holds(c, w.mem, Slot(c, k), w.sent[k]))
  }

  /** Until 2^32 enqueues have found room every ring is safe. */
  predicate Safe(c: Config, w: World)
    requires Usable(c)
  {
    WrapsWell(c) || w.begun <= WRAP
  }

  ghost predicate Inv(c: Config, w: World)
    requires Usable(c)
  {
    && Exclusive(w) && Counted(c, w)
    && (forall i :: 0 <= i < |w.procs| ==> Local(c, w, w.procs[i]))
    && (w.sem == 1 ==> w.begun == |w.sent|)
    && (Safe(c, w) ==> Fifo(c, w))
  }

  lemma OpenedInv(c: Config, w: World)
    requires Usable(c) && Opened(c, w)
    ensures Inv(c, w)
  {
  }

  // ---- the ring --------------------------------------------------------------------------------------------

  /** e is x + d on a circle of w places, x + n is another point on it: the same one if n == d. */
  lemma SamePoint(x: nat, d: nat, n: nat, w: nat)
    requires w > 0 && d < w && n < w
    ensures (x % w + n) % w == (x + d) % w <==> n == d
  {
    if d > 0 { Around(x, d, w); }
    ModIs(x % w, w, 0, x % w);
    if n > 0 { Around(x % w, n, w); }
  }

  lemma NextPoint(x: nat, w: nat)
    requires w > 1
    ensures (x % w + 1) % w == (x + 1) % w
  {
    SamePoint(x, 1, 1, w);
  }

  lemma NextCounter(k: nat)
    ensures ((k + WRAP - 1) % WRAP + 1) % WRAP == (k + 1 + WRAP - 1) % WRAP == k % WRAP
  {
    NextPoint(k + WRAP - 1, WRAP);
    ModAdd(k, 1, WRAP);
  }

  /** The test for a full ring in wrapping arithmetic is exact, and so is the one for an empty ring. */
  lemma FullAndEmpty(c: Config, w: World)
    requires Usable(c) && Counted(c, w)
    ensures (w.deq + c.mqsize - 1) % WRAP == w.enq <==> |w.sent| == |w.got| + c.mqsize - 1
    ensures w.enq == w.deq <==> |w.sent| == |w.got|
    ensures Slot(c, w.enq + 1) == Slot(c, |w.sent|) && Slot(c, w.deq + 1) == Slot(c, |w.got|)
    ensures (w.enq + 1) % WRAP == (|w.sent| + 1 + WRAP - 1) % WRAP && (w.deq + 1) % WRAP == (|w.got| + 1 + WRAP - 1) % WRAP
  {
    var g, d := |w.got|, |w.sent| - |w.got|;
    SamePoint(g + WRAP - 1, d, c.mqsize - 1, WRAP);
    SamePoint(g + WRAP - 1, d, 0, WRAP);
    NextCounter(g);
    NextCounter(|w.sent|);
    assert g + WRAP - 1 + d == |w.sent| + WRAP - 1;
    ModIs(w.deq, WRAP, 0, w.deq);
  }

  // ---- every step keeps the invariant ------------------------------------------------------------------------

  lemma OnlyOwner(w: World, i: nat)
    requires Exclusive(w) && i < |w.procs| && Inside(w.procs[i])
    ensures w.sem == 0 && Alone(w, i)
  {
  }

  lemma OutsideLocal(c: Config, w: World, w': World, p: Process)
    requires Usable(c) && Local(c, w, p) && !Inside(p)
    ensures Local(c, w', p)
  {
  }

  lemma SameLocal(c: Config, w: World, w': World, p: Process)
    requires Usable(c) && Local(c, w, p) && w'.mem == w.mem && w'.sent == w.sent && w'.got == w.got && w'.begun == w.begun
    ensures Local(c, w', p)
  {
  }

  /** A step of the process that holds the semaphore. */
  lemma OwnerMoves(c: Config, w: World, w': World, i: nat, p: Process)
    requires Usable(c) && Inv(c, w) && i < |w.procs| && Inside(w.procs[i]) && w'.procs == w.procs[i := p]
    requires w'.sem == (if Inside(p) then w.sem else w.sem + 1) && Local(c, w', p) && Counted(c, w')
    requires (!Inside(p) ==> w'.begun == |w'.sent|) && (Safe(c, w') ==> Fifo(c, w'))
    ensures Inv(c, w')
  {
    OnlyOwner(w, i);
    forall j | 0 <= j < |w'.procs| ensures Local(c, w', w'.procs[j]) {
      if j != i { OutsideLocal(c, w, w', w.procs[j]); }
    }
    hide Local, Counted, Fifo, Safe;
    if Inside(p) { assert Alone(w', i); }
  }

  /** A step of a process outside: it may take the free semaphore. */
  lemma OutsiderMoves(c: Config, w: World, w': World, i: nat, p: Process)
    requires Usable(c) && Inv(c, w) && i < |w.procs| && !Inside(w.procs[i])
    requires w' == w.(procs := w.procs[i := p], sem := if Inside(p) then 0 else w.sem) && (Inside(p) ==> w.sem == 1)
    requires Local(c, w', p)
    ensures Inv(c, w')
  {
    forall j | 0 <= j < |w'.procs| ensures Local(c, w', w'.procs[j]) {
      if j != i { SameLocal(c, w, w', w.procs[j]); }
    }
    hide Local;
    if w'.sem == 1 {
    } else if Inside(p) {
      assert Alone(w', i);
    } else if w.sem == 0 {
      var h :| Alone(w, h);
      assert Alone(w', h);
    }
  }

  lemma OutsiderStep(c: Config, w: World, i: nat, r: Request)
    requires Usable(c) && Inv(c, w) && i < |w.procs| && !Inside(w.procs[i])
    ensures Inv(c, Step(c, w, i, r))
  {
    var w' := Step(c, w, i, r);
    if w' != w {
      var p := w'.procs[i];
      assert Local(c, w, w.procs[i]);
      hide Inv, Counted, Fifo;
      SemIsBit(c, w);
      OutsiderMoves(c, w, w', i, p);
    }
  }

  lemma SemIsBit(c: Config, w: World)
    requires Usable(c) && Inv(c, w)
    ensures w.sem <= 1 && (w.sem == 1 ==> w.begun == |w.sent|)
  {
  }

  /** What the owner may rely on. */
  lemma OwnerKnows(c: Config, w: World, i: nat)
    requires Usable(c) && Inv(c, w) && i < |w.procs| && Inside(w.procs[i])
    ensures Counted(c, w) && Local(c, w, w.procs[i]) && (Safe(c, w) ==> Fifo(c, w))
  {
  }

  lemma CheckStep(c: Config, w: World, i: nat, r: Request)
    requires Usable(c) && Inv(c, w) && i < |w.procs| && (w.procs[i].EnqCheck? || w.procs[i].DeqCheck?)
    ensures Inv(c, Step(c, w, i, r))
  {
    OwnerKnows(c, w, i);
    FullAndEmpty(c, w);
    var w' := Step(c, w, i, r);
    hide Inv, Slot;
    OwnerMoves(c, w, w', i, w'.procs[i]);
  }

  /** Bytes of different slots are different bytes. */
  lemma Apart(c: Config, p: nat, q: nat, b: nat, d: nat)
    requires Usable(c) && p != q && b < c.itemsize && d < c.itemsize
    ensures p * c.itemsize + b != q * c.itemsize + d
  {
    if p < q { MulMono(p, q, c.itemsize); } else { MulMono(q, p, c.itemsize); }
  }

  lemma InRing(c: Config, k: nat, b: nat)
    requires Usable(c) && b < c.itemsize
    ensures Slot(c, k) < c.mqsize && Slot(c, k) * c.itemsize + b < c.mqsize * c.itemsize
  {
    MulMono(Slot(c, k), c.mqsize, c.itemsize);
  }

  /** Writing into one slot leaves another as it was. */
  lemma HoldsStill(c: Config, mem: seq<Byte>, p: nat, b: nat, v: Byte, q: nat, item: Item)
    requires Usable(c) && p != q && b < c.itemsize && Legal(c, |item|) && Holds(c, mem, q, item)
    ensures Holds(c, Place(mem, p * c.itemsize + b, v), q, item)
  {
    forall d | 0 <= d < |item| ensures At(Place(mem, p * c.itemsize + b, v), q * c.itemsize + d) == item[d] {
      Apart(c, p, q, b, d);
    }
  }

  lemma HoldsMore(c: Config, mem: seq<Byte>, p: nat, item: Item, done: nat)
    requires Usable(c) && done < |item| && p * c.itemsize + done < |mem| && Holds(c, mem, p, item[..done])
    ensures Holds(c, Place(mem, p * c.itemsize + done, item[done]), p, item[..done + 1])
  {
  }

  /** The slot that is being written is none of the live ones. */
  lemma LiveStays(c: Config, w: World, b: nat, v: Byte)
    requires Usable(c) && Counted(c, w) && Fifo(c, w) && |w.sent| < |w.got| + c.mqsize - 1 && b < c.itemsize
    requires WrapsWell(c) || |w.sent| < WRAP
    ensures Fifo(c, w.(mem := Place(w.mem, Slot(c, |w.sent|) * c.itemsize + b, v)))
  {
    hide Holds, Agree, WrapsWell, Slot, Place;
    var p := Slot(c, |w.sent|);
    forall k | |w.got| <= k < |w.sent| ensures Holds(c, Place(w.mem, p * c.itemsize + b, v), Slot(c, k), w.sent[k]) {
      SlotsDiffer(c, k, |w.sent|);
      HoldsStill(c, w.mem, p, b, v, Slot(c, k), w.sent[k]);
    }
  }

  lemma CopyStep(c: Config, w: World, i: nat, r: Request)
    requires Usable(c) && Inv(c, w) && i < |w.procs| && w.procs[i].EnqCopy?
    ensures Inv(c, Step(c, w, i, r))
  {
    OwnerKnows(c, w, i);
    var w' := Step(c, w, i, r);
    var EnqCopy(item, pos, done) := w.procs[i];
    if done < |item| {
      InRing(c, |w.sent|, done);
      HoldsMore(c, w.mem, pos, item, done);
      if Safe(c, w) { LiveStays(c, w, done, item[done]); }
    } else {
      assert item[..done] == item;
    }
    hide Inv, Slot, Holds, Agree;
    OwnerMoves(c, w, w', i, w'.procs[i]);
  }

  lemma BumpStep(c: Config, w: World, i: nat, r: Request)
    requires Usable(c) && Inv(c, w) && i < |w.procs| && w.procs[i].EnqBump?
    ensures Inv(c, Step(c, w, i, r))
  {
    OwnerKnows(c, w, i);
    FullAndEmpty(c, w);
    var w' := Step(c, w, i, r);
    hide Inv, Slot, Holds, Agree;
    OwnerMoves(c, w, w', i, w'.procs[i]);
  }

  lemma ReadStep(c: Config, w: World, i: nat, r: Request)
    requires Usable(c) && Inv(c, w) && i < |w.procs| && w.procs[i].DeqCopy?
    ensures Inv(c, Step(c, w, i, r))
  {
    OwnerKnows(c, w, i);
    var w' := Step(c, w, i, r);
    hide Inv, Slot, Agree;
    OwnerMoves(c, w, w', i, w'.procs[i]);
  }

  lemma HeldAgree(c: Config, mem: seq<Byte>, slot: nat, a: Item, b: Item)
    requires Holds(c, mem, slot, a) && Holds(c, mem, slot, b)
    ensures Agree(a, b)
  {
  }

  lemma TakeStep(c: Config, w: World, i: nat, r: Request)
    requires Usable(c) && Inv(c, w) && i < |w.procs| && w.procs[i].DeqBump?
    ensures Inv(c, Step(c, w, i, r))
  {
    OwnerKnows(c, w, i);
    FullAndEmpty(c, w);
    var w' := Step(c, w, i, r);
    var DeqBump(read) := w.procs[i];
    if Safe(c, w) { HeldAgree(c, w.mem, Slot(c, |w.got|), read, w.sent[|w.got|]); }
    hide Inv, Slot, Holds, Agree;
    OwnerMoves(c, w, w', i, w'.procs[i]);
  }

  lemma LeaveStep(c: Config, w: World, i: nat, r: Request)
    requires Usable(c) && Inv(c, w) && i < |w.procs| && w.procs[i].Leave?
    ensures Inv(c, Step(c, w, i, r))
  {
    OwnerKnows(c, w, i);
    var w' := Step(c, w, i, r);
    hide Inv, Fifo;
    OwnerMoves(c, w, w', i, Idle);
  }

  lemma StepKeeps(c: Config, w: World, i: nat, r: Request)
    requires Usable(c) && Inv(c, w)
    ensures Inv(c, Step(c, w, i, r))
  {
    if i < |w.procs| {
      hide Inv, Move;
      match w.procs[i]
      case EnqCheck(_) => CheckStep(c, w, i, r);
      case DeqCheck(_) => CheckStep(c, w, i, r);
      case EnqCopy(_, _, _) => CopyStep(c, w, i, r);
      case EnqBump(_) => BumpStep(c, w, i, r);
      case DeqCopy(_, _, _) => ReadStep(c, w, i, r);
      case DeqBump(_) => TakeStep(c, w, i, r);
      case Leave => LeaveStep(c, w, i, r);
      case _ => OutsiderStep(c, w, i, r);
    }
  }

  /** The invariant holds after every schedule of any number of processes. */
  lemma {:induction false} RunKeeps(c: Config, w: World, schedule: seq<(nat, Request)>)
    requires Usable(c) && Opened(c, w)
    ensures Inv(c, Run(c, w, schedule))
  {
    if schedule == [] {
      OpenedInv(c, w);
    } else {
      hide Inv, Step, Opened;
      RunKeeps(c, w, schedule[..|schedule| - 1]);
      var (i, r) := schedule[|schedule| - 1];
      StepKeeps(c, Run(c, w, schedule[..|schedule| - 1]), i, r);
    }
  }

  // ---- what that means for a user -----------------------------------------------------------------------------

  /** Two processes are never between P and V at the same time. */
  lemma MutualExclusion(c: Config, w: World, schedule: seq<(nat, Request)>, i: nat, j: nat)
    requires Usable(c) && Opened(c, w)
    requires var x := Run(c, w, schedule); i < |x.procs| && j < |x.procs| && Inside(x.procs[i]) && Inside(x.procs[j])
    ensures i == j && Run(c, w, schedule).sem == 0
  {
    RunKeeps(c, w, schedule);
  }

  /** The counters give the occupancy, which never exceeds mqsize - 1. */
  lemma Occupancy(c: Config, w: World, schedule: seq<(nat, Request)>)
    requires Usable(c) && Opened(c, w)
    ensures var x := Run(c, w, schedule);
      |x.got| <= |x.sent| && |x.sent| - |x.got| == (x.enq + WRAP - x.deq) % WRAP <= c.mqsize - 1
  {
    RunKeeps(c, w, schedule);
    var x := Run(c, w, schedule);
    hide Run, Exclusive, Local, Fifo, Safe;
    assert Counted(c, x);
    Difference(|x.got| + WRAP - 1, |x.sent| - |x.got|, WRAP);
    assert |x.got| + WRAP - 1 + (|x.sent| - |x.got|) == |x.sent| + WRAP - 1;
  }

  lemma Difference(x: nat, d: nat, w: nat)
    requires d < w
    ensures ((x + d) % w + w - x % w) % w == d
  {
    var a := x % w;
    if d > 0 { Around(x, d, w); }
    if a + d < w || d == 0 {
      ModIs(d + w, w, 1, d);
    } else {
      ModIs(d, w, 0, d);
    }
  }

  function BytesAt(mem: seq<Byte>, at: nat, n: nat): (s: Item)
    ensures |s| == n && forall b :: 0 <= b < n ==> s[b] == At(mem, at + b)
  {
    if n == 0 then [] else BytesAt(mem, at, n - 1) + [At(mem, at + n - 1)]
  }

  /** The slot of item number k, read as far as the item was written. */
  function InSlot(c: Config, w: World, k: nat): Item
    requires Usable(c) && k < |w.sent|
  {
    BytesAt(w.mem, Slot(c, k) * c.itemsize, |w.sent[k]|)
  }

  /** What the slots from item k on hold, oldest first. */
  function InSlots(c: Config, w: World, k: nat): (s: seq<Item>)
    requires Usable(c) && k <= |w.sent|
    ensures |s| == |w.sent| - k && forall j :: 0 <= j < |s| ==> s[j] == InSlot(c, w, k + j)
    decreases |w.sent| - k
  {
    if k == |w.sent| then [] else [InSlot(c, w, k)] + InSlots(c, w, k + 1)
  }

  /** Nothing is lost, duplicated or reordered: if every item is taken out with the size it was put
      in with, the items taken out followed by those in the slots are the items put in. It holds on
      every ring for the first 2^32 enqueues, and for ever if the ring wraps well. */
  lemma Conservation(c: Config, w: World, schedule: seq<(nat, Request)>)
    requires Usable(c) && Opened(c, w)
    requires var x := Run(c, w, schedule);
      Safe(c, x) && forall k :: 0 <= k < |x.got| && k < |x.sent| ==> |x.got[k]| == |x.sent[k]|
    ensures var x := Run(c, w, schedule); |x.got| <= |x.sent| && x.got + InSlots(c, x, |x.got|) == x.sent
  {
    hide Run, Exclusive, Local, Counted, Slot, WrapsWell, InSlots, InSlot, Holds, Agree, Inv, Safe, Opened, Usable, Fifo;
    RunKeeps(c, w, schedule);
    var x := Run(c, w, schedule);
    FifoHolds(c, x);
    var s := x.got + InSlots(c, x, |x.got|);
    forall k | 0 <= k < |x.sent| ensures s[k] == x.sent[k] {
      if k < |x.got| {
        SameItem(x.got[k], x.sent[k]);
      } else {
        assert s[k] == InSlot(c, x, |x.got| + (k - |x.got|));
        HeldIsItem(c, x, k);
      }
    }
  }

  lemma FifoHolds(c: Config, x: World)
    requires Usable(c) && Inv(c, x) && Safe(c, x)
    ensures |x.got| <= |x.sent| && forall k :: 0 <= k < |x.got| ==> Agree(x.got[k], x.sent[k])
    ensures forall k :: |x.got| <= k < |x.sent| ==> Holds(c, x.mem, Slot(c, k), x.sent[k])
  {
  }

  lemma SameItem(a: Item, b: Item)
    requires Agree(a, b) && |a| == |b|
    ensures a == b
  {
  }

  lemma HeldIsItem(c: Config, w: World, k: nat)
    requires Usable(c) && k < |w.sent| && Holds(c, w.mem, Slot(c, k), w.sent[k])
    ensures InSlot(c, w, k) == w.sent[k]
  {
    hide Slot;
  }

  // ---- a ring that does not wrap well ----------------------------------------------------------------------------

  /** One process, seven turns: a whole call. */
  function Turns(r: Request): seq<(nat, Request)> { [(0, r), (0, r), (0, r), (0, r), (0, r), (0, r), (0, r)] }

  lemma {:induction false} RunConcat(c: Config, w: World, s: seq<(nat, Request)>, t: seq<(nat, Request)>)
    requires Usable(c)
    ensures Run(c, w, s + t) == Run(c, Run(c, w, s), t)
  {
    hide Step;
    if t == [] {
      assert s + t == s;
    } else {
      assert (s + t)[..|s + t| - 1] == s + t[..|t| - 1];
      RunConcat(c, w, s, t[..|t| - 1]);
    }
  }

  lemma RunOne(c: Config, w: World, i: nat, r: Request)
    requires Usable(c)
    ensures Run(c, w, [(i, r)]) == Step(c, w, i, r)
  {
    assert [(i, r)][..0] == [];
  }

  lemma RunTurns(c: Config, w: World, r: Request)
    requires Usable(c)
    ensures var x := Step(c, Step(c, Step(c, w, 0, r), 0, r), 0, r);
      Run(c, w, Turns(r)) == Step(c, Step(c, Step(c, Step(c, x, 0, r), 0, r), 0, r), 0, r)
  {
    hide Step, Run;
    var one := [(0 as nat, r)];
    var x1 := Step(c, w, 0, r);
    var x2 := Step(c, x1, 0, r);
    var x3 := Step(c, x2, 0, r);
    var x4 := Step(c, x3, 0, r);
    var x5 := Step(c, x4, 0, r);
    var x6 := Step(c, x5, 0, r);
    RunOne(c, w, 0, r);
    RunOne(c, x1, 0, r);
    RunOne(c, x2, 0, r);
    RunOne(c, x3, 0, r);
    RunOne(c, x4, 0, r);
    RunOne(c, x5, 0, r);
    RunOne(c, x6, 0, r);
    RunConcat(c, w, one, one);
    RunConcat(c, w, one + one, one);
    RunConcat(c, w, one + one + one, one);
    RunConcat(c, w, one + one + one + one, one);
    RunConcat(c, w, one + one + one + one + one, one);
    RunConcat(c, w, one + one + one + one + one + one, one);
    assert Turns(r) == one + one + one + one + one + one + one;
  }

  /** Process 0 is alone and between two calls. */
  predicate Quiet(c: Config, w: World) { w.procs == [Idle] && w.sem == 1 && Counted(c, w) }

  lemma PutBegins(c: Config, w: World, b: Byte)
    requires Usable(c) && Quiet(c, w) && |w.sent| < |w.got| + c.mqsize - 1
    ensures var r := Enqueue([b]);
      Step(c, Step(c, Step(c, w, 0, r), 0, r), 0, r) ==
      w.(sem := 0, begun := w.begun + 1, procs := [EnqCopy([b], Slot(c, |w.sent|), 0)])
  {
    FullAndEmpty(c, w);
    hide Counted, Slot;
  }

  lemma PutEnds(c: Config, w: World, x: World, b: Byte, pos: nat)
    requires Usable(c) && x == w.(sem := 0, begun := w.begun + 1, procs := [EnqCopy([b], pos, 0)])
    ensures var r := Enqueue([b]);
      Step(c, Step(c, Step(c, Step(c, x, 0, r), 0, r), 0, r), 0, r) ==
      w.(sem := 1, begun := w.begun + 1, procs := [Idle], mem := Place(w.mem, pos * c.itemsize, b),
         enq := (w.enq + 1) % WRAP, sent := w.sent + [[b]])
  {
    hide Usable, Place;
  }

  lemma PutOne(c: Config, w: World, b: Byte)
    requires Usable(c) && Quiet(c, w) && |w.sent| < |w.got| + c.mqsize - 1
    ensures var x := Run(c, w, Turns(Enqueue([b])));
      && Quiet(c, x) && x.sent == w.sent + [[b]] && x.got == w.got
      && x.mem == Place(w.mem, Slot(c, |w.sent|) * c.itemsize, b)
  {
    hide Run, Slot, Step, Turns;
    RunTurns(c, w, Enqueue([b]));
    FullAndEmpty(c, w);
    PutBegins(c, w, b);
    PutEnds(c, w, w.(sem := 0, begun := w.begun + 1, procs := [EnqCopy([b], Slot(c, |w.sent|), 0)]), b, Slot(c, |w.sent|));
  }

  lemma TakeBegins(c: Config, w: World)
    requires Usable(c) && Quiet(c, w) && |w.got| < |w.sent|
    ensures var r := Dequeue(1);
      Step(c, Step(c, Step(c, w, 0, r), 0, r), 0, r) == w.(sem := 0, procs := [DeqCopy(1, Slot(c, |w.got|), [])])
  {
    FullAndEmpty(c, w);
    hide Counted, Slot;
  }

  lemma TakeEnds(c: Config, w: World, x: World, pos: nat)
    requires Usable(c) && x == w.(sem := 0, procs := [DeqCopy(1, pos, [])])
    ensures var r := Dequeue(1);
      Step(c, Step(c, Step(c, Step(c, x, 0, r), 0, r), 0, r), 0, r) ==
      w.(sem := 1, procs := [Idle], deq := (w.deq + 1) % WRAP, got := w.got + [[At(w.mem, pos * c.itemsize)]])
  {
    hide Usable, At;
    var read: Item := [];
    assert read + [At(w.mem, pos * c.itemsize)] == [At(w.mem, pos * c.itemsize)];
  }

  lemma TakeOne(c: Config, w: World)
    requires Usable(c) && Quiet(c, w) && |w.got| < |w.sent|
    ensures var x := Run(c, w, Turns(Dequeue(1)));
      Quiet(c, x) && x.sent == w.sent && |x.got| == |w.got| + 1 && x.got[..|w.got|] == w.got && |x.got[|w.got|]| == 1
  {
    hide Run, Slot, Step, Turns;
    RunTurns(c, w, Dequeue(1));
    FullAndEmpty(c, w);
    TakeBegins(c, w);
    TakeEnds(c, w, w.(sem := 0, procs := [DeqCopy(1, Slot(c, |w.got|), [])]), Slot(c, |w.got|));
    var b := At(w.mem, Slot(c, |w.got|) * c.itemsize);
    assert (w.got + [[b]])[..|w.got|] == w.got;
  }

  /** All items are single bytes, and those put in are 0. */
  predicate Zeros(w: World) {
    && (forall k :: 0 <= k < |w.sent| ==> w.sent[k] == [0])
    && forall k :: 0 <= k < |w.got| ==> |w.got[k]| == 1
  }

  /** n times an item in and out. */
  function Rounds(n: nat): seq<(nat, Request)> {
    if n == 0 then [] else Rounds(n - 1) + Turns(Enqueue([0])) + Turns(Dequeue(1))
  }

  lemma {:induction false} RoundsDone(c: Config, w: World, n: nat)
    requires Usable(c) && c.mqsize > 1 && Quiet(c, w) && w.sent == w.got == []
    ensures var x := Run(c, w, Rounds(n)); Quiet(c, x) && |x.sent| == |x.got| == n && Zeros(x)
  {
    hide Quiet, Turns, Run, Zeros, Usable;
    if n == 0 {
      RunNothing(c, w);
    } else {
      RoundsDone(c, w, n - 1);
      var x := Run(c, w, Rounds(n - 1));
      var y := Run(c, x, Turns(Enqueue([0])));
      RunConcat(c, w, Rounds(n - 1), Turns(Enqueue([0])));
      RunConcat(c, w, Rounds(n - 1) + Turns(Enqueue([0])), Turns(Dequeue(1)));
      PutOne(c, x, 0);
      OnePut(x, y);
      TakeOne(c, y);
      OneTaken(y, Run(c, y, Turns(Dequeue(1))));
    }
  }

  lemma RunNothing(c: Config, w: World)
    requires Usable(c)
    ensures Run(c, w, []) == w && (w.sent == w.got == [] ==> Zeros(w))
  {
  }

  lemma OnePut(x: World, y: World)
    requires Zeros(x) && y.sent == x.sent + [[0]] && y.got == x.got
    ensures Zeros(y)
  {
  }

  lemma OneTaken(y: World, z: World)
    requires Zeros(y) && z.sent == y.sent && |z.got| == |y.got| + 1 && z.got[..|y.got|] == y.got && |z.got[|y.got|]| == 1
    ensures Zeros(z)
  {
    forall k | 0 <= k < |z.got| ensures |z.got[k]| == 1 { if k < |y.got| { assert z.got[..|y.got|][k] == z.got[k]; } }
  }

  function Puts(n: nat): seq<(nat, Request)> { if n == 0 then [] else Puts(n - 1) + Turns(Enqueue([0])) }

  lemma {:induction false} PutsDone(c: Config, w: World, n: nat)
    requires Usable(c) && n <= c.mqsize - 1 && Quiet(c, w) && |w.sent| == |w.got| && Zeros(w)
    ensures var x := Run(c, w, Puts(n)); Quiet(c, x) && x.got == w.got && |x.sent| == |w.sent| + n && Zeros(x)
  {
    hide Quiet, Turns, Run, Zeros, Usable;
    if n == 0 {
      RunNothing(c, w);
    } else {
      PutsDone(c, w, n - 1);
      var x := Run(c, w, Puts(n - 1));
      RunConcat(c, w, Puts(n - 1), Turns(Enqueue([0])));
      PutOne(c, x, 0);
      OnePut(x, Run(c, x, Turns(Enqueue([0]))));
    }
  }

  /** On a ring that does not wrap well the queue does lose an item: after 2^32 - r items that are put
      in and taken out, where r is the remainder of 2^32, r + 1 more fit in, and the last of them is
      written over the first. */
  lemma LosesAnItem(c: Config) returns (w: World, schedule: seq<(nat, Request)>)
    requires Usable(c) && !WrapsWell(c)
    ensures Opened(c, w)
    ensures var x := Run(c, w, schedule);
      && |x.got| < |x.sent| && (forall k :: 0 <= k < |x.got| ==> |x.got[k]| == |x.sent[k]|)
      && x.got + InSlots(c, x, |x.got|) != x.sent
  {
    hide *;
    var r := Remainder(c);
    w := Fresh(c);
    schedule := Rounds(WRAP - r) + Puts(r) + Turns(Enqueue([1]));
    RoundsDone(c, w, WRAP - r);
    RunConcat(c, w, Rounds(WRAP - r), Puts(r));
    RunConcat(c, w, Rounds(WRAP - r) + Puts(r), Turns(Enqueue([1])));
    var y := Run(c, w, Rounds(WRAP - r));
    PutsDone(c, y, r);
    var z := Run(c, y, Puts(r));
    PutOne(c, z, 1);
    Overwritten(c, z, Run(c, z, Turns(Enqueue([1]))), WRAP - r);
  }

  lemma Remainder(c: Config) returns (r: nat)
    requires Usable(c) && !WrapsWell(c)
    ensures r == WRAP % c.mqsize && 0 < r < c.mqsize - 1 && r < WRAP
    ensures Slot(c, WRAP - r) == 0 == Slot(c, WRAP)
  {
    r := WRAP % c.mqsize;
    FirstSlot(c);
  }

  lemma Fresh(c: Config) returns (w: World)
    requires Usable(c)
    ensures Opened(c, w) && Quiet(c, w) && w.sent == w.got == []
  {
    w := World(1, WRAP - 1, WRAP - 1, seq(c.mqsize * c.itemsize, _ => 0), [Idle], 0, [], []);
    ModIs(WRAP - 1, WRAP, 0, WRAP - 1);
  }

  lemma FirstSlot(c: Config)
    requires Usable(c)
    ensures Slot(c, WRAP - WRAP % c.mqsize) == 0 == Slot(c, WRAP)
  {
    var r := WRAP % c.mqsize;
    ModIs(WRAP - r, c.mqsize, WRAP / c.mqsize, 0);
    if r == 0 { ModIs(WRAP, WRAP, 1, 0); } else { ModIs(WRAP - r, WRAP, 0, WRAP - r); }
    ModIs(WRAP, WRAP, 1, 0);
  }

  lemma Overwritten(c: Config, z: World, x: World, n: nat)
    requires Usable(c) && Quiet(c, z) && Zeros(z) && |z.got| == n < WRAP == |z.sent| && Slot(c, n) == 0 == Slot(c, WRAP)
    requires x.sent == z.sent + [[1]] && x.got == z.got && x.mem == Place(z.mem, Slot(c, WRAP) * c.itemsize, 1)
    ensures |x.got| < |x.sent| && (forall k :: 0 <= k < |x.got| ==> |x.got[k]| == |x.sent[k]|)
    ensures x.got + InSlots(c, x, |x.got|) != x.sent
  {
    hide Slot, InSlots;
    var s := x.got + InSlots(c, x, n);
    MulMono(0, c.mqsize, c.itemsize);
    assert x.mem[0] == 1;
    assert s[n] == InSlot(c, x, n + 0);
    assert InSlot(c, x, n)[0] == At(x.mem, 0) == 1;
    assert x.sent[n] == [0];
  }
}
