/** What a call of shmmq_enqueue or shmmq_dequeue does if no other process gets in between. */
module ShmmqCalls {
  import opened Shmmq

  /** n turns of process i. */
  function Solo(i: nat, r: Request, n: nat): seq<(nat, Request)> { if n == 0 then [] else Solo(i, r, n - 1) + [(i, r)] }

  function ByItself(c: Config, w: World, i: nat, r: Request, n: nat): World
    requires Usable(c)
  {
    Run(c, w, Solo(i, r, n))
  }

  lemma NoTurn(c: Config, w: World, i: nat, r: Request)
    requires Usable(c)
    ensures ByItself(c, w, i, r, 0) == w
  {
  }

  lemma OneTurn(c: Config, w: World, i: nat, r: Request, n: nat)
    requires Usable(c)
    ensures ByItself(c, w, i, r, n + 1) == Step(c, ByItself(c, w, i, r, n), i, r)
  {
    hide Step;
    assert Solo(i, r, n + 1)[..|Solo(i, r, n + 1)| - 1] == Solo(i, r, n);
  }

  lemma {:induction false} AloneKeeps(c: Config, w: World, i: nat, r: Request, n: nat)
    requires Usable(c) && Inv(c, w)
    ensures Inv(c, ByItself(c, w, i, r, n))
  {
    hide Step, Inv, ByItself;
    if n == 0 {
      NoTurn(c, w, i, r);
    } else {
      AloneKeeps(c, w, i, r, n - 1);
      OneTurn(c, w, i, r, n - 1);
      StepKeeps(c, ByItself(c, w, i, r, n - 1), i, r);
    }
  }

  /** An idle process is refused exactly for an item or buffer of no byte, and for one that is larger than a slot. */
  lemma RefusedExactly(c: Config, w: World, i: nat, item: Item, size: nat)
    requires Usable(c) && i < |w.procs| && w.procs[i] == Idle
    ensures Step(c, w, i, Enqueue(item)) == w <==> |item| == 0 || |item| > c.itemsize
    ensures Step(c, w, i, Dequeue(size)) == w <==> size == 0 || size > c.itemsize
  {
    assert w.procs[i := EnqP(item)][i] != Idle && w.procs[i := DeqP(size)][i] != Idle;
  }

  /** Process i has moved to p and holds the semaphore, and nothing else has changed. */
  predicate Holding(w: World, x: World, i: nat, p: Process) {
    i < |w.procs| && x == w.(sem := 0, procs := w.procs[i := p])
  }

  lemma Unmoved(w: World, i: nat, p: Process)
    requires i < |w.procs|
    ensures |w.procs[i := p]| == |w.procs| && w.procs[i := p][i] == p
  {
  }

  lemma Back(w: World, i: nat)
    requires i < |w.procs| && w.procs[i] == Idle
    ensures w.procs[i := Idle] == w.procs
  {
  }

  // ---- enqueue --------------------------------------------------------------------------------------------

  lemma EnqueueStarts(c: Config, w: World, i: nat, item: Item)
    requires Usable(c) && w.sem == 1 && i < |w.procs| && w.procs[i] == Idle && 1 <= |item| <= c.itemsize
    ensures Holding(w, ByItself(c, w, i, Enqueue(item), 2), i, EnqCheck(item))
  {
    hide ByItself, Usable;
    NoTurn(c, w, i, Enqueue(item));
    OneTurn(c, w, i, Enqueue(item), 0);
    OneTurn(c, w, i, Enqueue(item), 1);
    Unmoved(w, i, EnqP(item));
  }

  lemma EnqueueFindsNoRoom(c: Config, w: World, x: World, i: nat, item: Item)
    requires Usable(c) && Holding(w, x, i, EnqCheck(item)) && Counted(c, w) && w.sem == 1 && w.procs[i] == Idle
    requires |w.sent| - |w.got| >= c.mqsize - 1
    ensures var r := Enqueue(item); Step(c, Step(c, x, i, r), i, r) == w
  {
    FullAndEmpty(c, w);
    hide Usable, Counted, Slot;
    Unmoved(w, i, EnqCheck(item));
    Unmoved(w, i, Leave);
    Back(w, i);
  }

  /** k bytes of the item are in the slot. */
  predicate Putting(c: Config, w: World, x: World, i: nat, item: Item, k: nat) {
    && i < |w.procs| && c.mqsize > 0 && k <= |item|
    && x == w.(sem := 0, begun := w.begun + 1, mem := x.mem, procs := w.procs[i := EnqCopy(item, Slot(c, |w.sent|), k)])
  }

  lemma EnqueueFindsRoom(c: Config, w: World, x: World, i: nat, item: Item)
    requires Usable(c) && Holding(w, x, i, EnqCheck(item)) && Counted(c, w)
    requires |w.sent| - |w.got| < c.mqsize - 1
    ensures Putting(c, w, Step(c, x, i, Enqueue(item)), i, item, 0)
  {
    FullAndEmpty(c, w);
    hide Usable, Counted, Slot;
    Unmoved(w, i, EnqCheck(item));
  }

  lemma PutStep(c: Config, w: World, x: World, i: nat, item: Item, k: nat)
    requires Usable(c) && Putting(c, w, x, i, item, k) && k < |item|
    ensures Putting(c, w, Step(c, x, i, Enqueue(item)), i, item, k + 1)
  {
    hide Usable, Slot, Place;
    Unmoved(w, i, x.procs[i]);
  }

  lemma {:induction false} PutAll(c: Config, w: World, i: nat, item: Item, k: nat)
    requires Usable(c) && k <= |item| && Putting(c, w, ByItself(c, w, i, Enqueue(item), 3), i, item, 0)
    ensures Putting(c, w, ByItself(c, w, i, Enqueue(item), 3 + k), i, item, k)
  {
    hide ByItself, Putting, Usable, Step;
    if k > 0 {
      PutAll(c, w, i, item, k - 1);
      OneTurn(c, w, i, Enqueue(item), 3 + (k - 1));
      PutStep(c, w, ByItself(c, w, i, Enqueue(item), 3 + (k - 1)), i, item, k - 1);
    }
  }

  lemma PutEnd(c: Config, w: World, x: World, i: nat, item: Item)
    requires Usable(c) && Putting(c, w, x, i, item, |item|) && w.sem == 1 && w.procs[i] == Idle
    ensures var r := Enqueue(item); var y := Step(c, Step(c, Step(c, x, i, r), i, r), i, r);
      y == w.(begun := w.begun + 1, mem := x.mem, enq := (w.enq + 1) % WRAP, sent := w.sent + [item])
  {
    hide Usable, Slot;
    Unmoved(w, i, x.procs[i]);
    Unmoved(w, i, EnqBump(item));
    Unmoved(w, i, Leave);
    Back(w, i);
  }

  /** The turns that an enqueue takes. */
  function EnqueueTurns(c: Config, w: World, item: Item): nat {
    if |w.sent| - |w.got| < c.mqsize - 1 then |item| + 6 else 4
  }

  /** An enqueue puts its item in if there is room, and changes nothing if not. */
  lemma EnqueueAlone(c: Config, w: World, i: nat, item: Item)
    requires Usable(c) && Inv(c, w) && w.sem == 1 && i < |w.procs| && w.procs[i] == Idle && 1 <= |item| <= c.itemsize
    ensures var x := ByItself(c, w, i, Enqueue(item), EnqueueTurns(c, w, item));
      if |w.sent| - |w.got| < c.mqsize - 1
      then x.sent == w.sent + [item] && x.got == w.got && x.procs == w.procs && x.sem == 1 && Inv(c, x)
      else x == w
  {
    hide ByItself, Step, Holding, Putting, Usable, Inv;
    var r := Enqueue(item);
    InvCounts(c, w);
    EnqueueStarts(c, w, i, item);
    OneTurn(c, w, i, r, 2);
    OneTurn(c, w, i, r, 3);
    if |w.sent| - |w.got| < c.mqsize - 1 {
      var n := |item|;
      EnqueueFindsRoom(c, w, ByItself(c, w, i, r, 2), i, item);
      PutAll(c, w, i, item, n);
      PutEnd(c, w, ByItself(c, w, i, r, 3 + n), i, item);
      OneTurn(c, w, i, r, 3 + n);
      OneTurn(c, w, i, r, 4 + n);
      OneTurn(c, w, i, r, 5 + n);
      AloneKeeps(c, w, i, r, n + 6);
    } else {
      EnqueueFindsNoRoom(c, w, ByItself(c, w, i, r, 2), i, item);
    }
  }

  lemma InvCounts(c: Config, w: World)
    requires Usable(c) && Inv(c, w)
    ensures Counted(c, w)
  {
  }

  // ---- dequeue --------------------------------------------------------------------------------------------

  lemma DequeueStarts(c: Config, w: World, i: nat, size: nat)
    requires Usable(c) && w.sem == 1 && i < |w.procs| && w.procs[i] == Idle && 1 <= size <= c.itemsize
    ensures Holding(w, ByItself(c, w, i, Dequeue(size), 2), i, DeqCheck(size))
  {
    hide ByItself, Usable;
    NoTurn(c, w, i, Dequeue(size));
    OneTurn(c, w, i, Dequeue(size), 0);
    OneTurn(c, w, i, Dequeue(size), 1);
    Unmoved(w, i, DeqP(size));
  }

  lemma DequeueFindsNothing(c: Config, w: World, x: World, i: nat, size: nat)
    requires Usable(c) && Holding(w, x, i, DeqCheck(size)) && Counted(c, w) && w.sem == 1 && w.procs[i] == Idle
    requires |w.sent| == |w.got|
    ensures var r := Dequeue(size); Step(c, Step(c, x, i, r), i, r) == w
  {
    FullAndEmpty(c, w);
    hide Usable, Counted, Slot;
    Unmoved(w, i, DeqCheck(size));
    Unmoved(w, i, Leave);
    Back(w, i);
  }

  /** The first k bytes of the oldest slot have been read. */
  function Front(c: Config, w: World, k: nat): Item
    requires c.mqsize > 0
  {
    BytesAt(w.mem, Slot(c, |w.got|) * c.itemsize, k)
  }

  predicate Taking(c: Config, w: World, x: World, i: nat, size: nat, k: nat) {
    && c.mqsize > 0 && k <= size && Holding(w, x, i, DeqCopy(size, Slot(c, |w.got|), Front(c, w, k)))
  }

  lemma DequeueFindsItem(c: Config, w: World, x: World, i: nat, size: nat)
    requires Usable(c) && Holding(w, x, i, DeqCheck(size)) && Counted(c, w) && |w.got| < |w.sent|
    ensures Taking(c, w, Step(c, x, i, Dequeue(size)), i, size, 0)
  {
    FullAndEmpty(c, w);
    hide Usable, Counted, Slot;
    Unmoved(w, i, DeqCheck(size));
  }

  lemma TakeStep(c: Config, w: World, x: World, i: nat, size: nat, k: nat)
    requires Usable(c) && Taking(c, w, x, i, size, k) && k < size
    ensures Taking(c, w, Step(c, x, i, Dequeue(size)), i, size, k + 1)
  {
    hide Usable, Slot, At;
    Unmoved(w, i, x.procs[i]);
  }

  lemma {:induction false} TakeAll(c: Config, w: World, i: nat, size: nat, k: nat)
    requires Usable(c) && k <= size && Taking(c, w, ByItself(c, w, i, Dequeue(size), 3), i, size, 0)
    ensures Taking(c, w, ByItself(c, w, i, Dequeue(size), 3 + k), i, size, k)
  {
    hide ByItself, Taking, Usable, Step;
    if k > 0 {
      TakeAll(c, w, i, size, k - 1);
      OneTurn(c, w, i, Dequeue(size), 3 + (k - 1));
      TakeStep(c, w, ByItself(c, w, i, Dequeue(size), 3 + (k - 1)), i, size, k - 1);
    }
  }

  lemma TakeEnd(c: Config, w: World, x: World, i: nat, size: nat)
    requires Usable(c) && Taking(c, w, x, i, size, size) && w.sem == 1 && w.procs[i] == Idle
    ensures var r := Dequeue(size); var y := Step(c, Step(c, Step(c, x, i, r), i, r), i, r);
      y == w.(deq := (w.deq + 1) % WRAP, got := w.got + [Front(c, w, size)])
  {
    hide Usable, Slot, BytesAt;
    FrontSize(c, w, size);
    Unmoved(w, i, x.procs[i]);
    Unmoved(w, i, DeqBump(Front(c, w, size)));
    Unmoved(w, i, Leave);
    Back(w, i);
  }

  lemma FrontSize(c: Config, w: World, k: nat)
    requires c.mqsize > 0
    ensures |Front(c, w, k)| == k
  {
  }

  function DequeueTurns(w: World, size: nat): nat { if |w.got| < |w.sent| then size + 6 else 4 }

  /** A dequeue takes the oldest item out, asked for with its size, and changes nothing if there is none. */
  lemma DequeueAlone(c: Config, w: World, i: nat, size: nat)
    requires Usable(c) && Inv(c, w) && Safe(c, w) && w.sem == 1 && i < |w.procs| && w.procs[i] == Idle
    requires 1 <= size <= c.itemsize && (|w.got| < |w.sent| ==> size == |w.sent[|w.got|]|)
    ensures var x := ByItself(c, w, i, Dequeue(size), DequeueTurns(w, size));
      if |w.got| < |w.sent|
      then x.got == w.got + [w.sent[|w.got|]] && x.sent == w.sent && x.procs == w.procs && x.sem == 1 && Inv(c, x)
      else x == w
  {
    hide ByItself, Step, Holding, Taking, Usable, Inv, Safe, Front, Slot;
    var r := Dequeue(size);
    InvCounts(c, w);
    DequeueStarts(c, w, i, size);
    OneTurn(c, w, i, r, 2);
    OneTurn(c, w, i, r, 3);
    if |w.got| < |w.sent| {
      DequeueFindsItem(c, w, ByItself(c, w, i, r, 2), i, size);
      TakeAll(c, w, i, size, size);
      TakeEnd(c, w, ByItself(c, w, i, r, 3 + size), i, size);
      OneTurn(c, w, i, r, 3 + size);
      OneTurn(c, w, i, r, 4 + size);
      OneTurn(c, w, i, r, 5 + size);
      AloneKeeps(c, w, i, r, size + 6);
      FrontIsOldest(c, w);
    } else {
      DequeueFindsNothing(c, w, ByItself(c, w, i, r, 2), i, size);
    }
  }

  lemma FrontIsOldest(c: Config, w: World)
    requires Usable(c) && Inv(c, w) && Safe(c, w) && |w.got| < |w.sent|
    ensures Front(c, w, |w.sent[|w.got|]|) == w.sent[|w.got|]
  {
    hide Safe, Slot, Exclusive, Counted;
    FifoHolds(c, w);
    assert Holds(c, w.mem, Slot(c, |w.got|), w.sent[|w.got|]);
  }
}
