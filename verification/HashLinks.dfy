/** The links of hashtable/hashtable.c: every item hangs in a bucket's chain and in one doubly
    linked list. */
module HashLinks {
  import opened Basics
  import opened JenkinsHash

  type Key = seq<Byte>

  class HashItem {
    const key: Key
    var next: HashItem?
    var prev: HashItem?
    var hNext: HashItem?

    constructor (key: Key)
      ensures this.key == key
    {
      this.key := key;
      next, prev, hNext := null, null, null;
    }
  }

  /** s[i], or a null pointer behind the end. */
  ghost function Nth(s: seq<HashItem>, i: int): HashItem? { if 0 <= i < |s| then s[i] else null }

  // ---- the doubly linked list -----------------------------------------------------------------------

  ghost predicate Listed(s: seq<HashItem>, head: HashItem?, tail: HashItem?)
    reads s`next, s`prev
  {
    && head == Nth(s, 0) && tail == Nth(s, |s| - 1)
    && forall i :: 0 <= i < |s| ==> s[i].next == Nth(s, i + 1) && s[i].prev == Nth(s, i - 1)
  }

  /** hashtable_insert's part for the list: hi becomes the tail. */
  method Append(hi: HashItem, head: HashItem?, tail: HashItem?, ghost s: seq<HashItem>) returns (h: HashItem?, t: HashItem?)
    requires Listed(s, head, tail) && NoTwice(s) && hi !in s
    modifies s`next, hi`next, hi`prev
    ensures Listed(s + [hi], h, t) && NoTwice(s + [hi])
  {
    hi.next := null;
    hi.prev := tail;
    if tail != null { tail.next := hi; }
    t := hi;
    h := if head == null then hi else head;
    ghost var u := s + [hi];
    forall i | 0 <= i < |u| ensures u[i].next == Nth(u, i + 1) && u[i].prev == Nth(u, i - 1) {
      if i < |s| { assert u[i] == s[i]; }
    }
  }

  /** hashtable_remove's part for the list. */
  method Remove(item: HashItem, head: HashItem?, tail: HashItem?, ghost s: seq<HashItem>, ghost i: nat)
    returns (h: HashItem?, t: HashItem?)
    requires Listed(s, head, tail) && NoTwice(s) && i < |s| && s[i] == item
    modifies s`next, s`prev
    ensures Listed(Cut(s, i), h, t) && NoTwice(Cut(s, i)) && item.next == null && item.prev == null
  {
    h, t := head, tail;
    if item == head { h := item.next; }
    if item == tail { t := item.prev; }
    if item.prev != null { item.prev.next := item.next; }
    if item.next != null { item.next.prev := item.prev; }
    item.prev, item.next := null, null;
    assert PointsAround(s, i);
    assert h == (if i == 0 then Nth(s, 1) else Nth(s, 0)) && t == (if i == |s| - 1 then Nth(s, i - 1) else Nth(s, |s| - 1));
    CutListed(s, i, h, t);
  }

  /** Without item number i every other item points around it. */
  ghost predicate PointsAround(s: seq<HashItem>, i: nat)
    requires i < |s|
    reads s`next, s`prev
  {
    forall m :: 0 <= m < |s| && m != i ==>
      && s[m].next == Nth(s, if m == i - 1 then i + 1 else m + 1)
      && s[m].prev == Nth(s, if m == i + 1 then i - 1 else m - 1)
  }

  lemma CutNth(s: seq<HashItem>, i: nat, k: int)
    requires i < |s|
    ensures Nth(Cut(s, i), k) == Nth(s, if k < i then k else k + 1)
  {
  }

  lemma CutListed(s: seq<HashItem>, i: nat, h: HashItem?, t: HashItem?)
    requires i < |s| && PointsAround(s, i) && NoTwice(s)
    requires h == (if i == 0 then Nth(s, 1) else Nth(s, 0))
    requires t == (if i == |s| - 1 then Nth(s, i - 1) else Nth(s, |s| - 1))
    ensures Listed(Cut(s, i), h, t) && NoTwice(Cut(s, i))
  {
    CutNoTwice(s, i);
    CutEnds(s, i);
    var c := Cut(s, i);
    hide Cut, NoTwice, PointsAround, Nth;
    forall k | 0 <= k < |c| ensures c[k].next == Nth(c, k + 1) && c[k].prev == Nth(c, k - 1) { PointsBack(s, i, k); }
  }

  lemma CutEnds(s: seq<HashItem>, i: nat)
    requires i < |s|
    ensures var c := Cut(s, i);
      Nth(c, 0) == (if i == 0 then Nth(s, 1) else Nth(s, 0))
      && Nth(c, |c| - 1) == (if i == |s| - 1 then Nth(s, i - 1) else Nth(s, |s| - 1))
  {
    CutLength(s, i);
    CutNth(s, i, 0);
    CutNth(s, i, |s| - 2);
  }

  lemma PointsBack(s: seq<HashItem>, i: nat, k: nat)
    requires i < |s| && PointsAround(s, i) && k < |Cut(s, i)|
    ensures var c := Cut(s, i); c[k].next == Nth(c, k + 1) && c[k].prev == Nth(c, k - 1)
  {
    hide Cut;
    CutNth(s, i, k);
    CutNth(s, i, k + 1);
    CutNth(s, i, k - 1);
    CutLength(s, i);
  }

  // ---- a bucket's chain -------------------------------------------------------------------------------

  ghost predicate Chain(c: seq<HashItem>, first: HashItem?)
    reads c`hNext
  {
    first == Nth(c, 0) && forall i :: 0 <= i < |c| ==> c[i].hNext == Nth(c, i + 1)
  }

  /** A new item in front of a chain. */
  method Push(hi: HashItem, first: HashItem?, ghost c: seq<HashItem>)
    requires Chain(c, first) && hi !in c
    modifies hi`hNext
    ensures Chain([hi] + c, hi)
  {
    hi.hNext := first;
  }

  /** _hashitem_before on one chain: the item with the key and the one before it, whose h_next is the
      place that points to it (the bucket itself if there is none). */
  method Before(key: Key, first: HashItem?, ghost c: seq<HashItem>) returns (before: HashItem?, pos: HashItem?, ghost j: nat)
    requires Chain(c, first)
    ensures j <= |c| && pos == Nth(c, j) && before == Nth(c, j - 1)
    ensures (pos != null ==> pos.key == key) && forall i :: 0 <= i < j ==> c[i].key != key
  {
    before, pos, j := null, first, 0;
    while pos != null && pos.key != key
      invariant j <= |c| && pos == Nth(c, j) && before == Nth(c, j - 1)
      invariant forall i :: 0 <= i < j ==> c[i].key != key
      decreases |c| - j
    {
      before, pos, j := pos, pos.hNext, j + 1;
    }
  }

  /** Takes item number j out of a chain; the result is the new first item. */
  method Unchain(before: HashItem?, item: HashItem, first: HashItem?, ghost c: seq<HashItem>, ghost j: nat) returns (f: HashItem?)
    requires Chain(c, first) && NoTwice(c) && j < |c| && item == c[j] && before == Nth(c, j - 1)
    modifies c`hNext
    ensures Chain(Cut(c, j), f) && item.hNext == null
  {
    var nxt := item.hNext;
    f := first;
    if before == null { f := nxt; } else { before.hNext := nxt; }
    item.hNext := null;
    ghost var d := Cut(c, j);
    assert forall i :: 0 <= i < |c| && i != j ==> c[i].hNext == Nth(c, if i == j - 1 then j + 1 else i + 1);
    CutNth(c, j, 0);
    forall i | 0 <= i < |d| ensures d[i].hNext == Nth(d, i + 1) {
      CutNth(c, j, i);
      CutNth(c, j, i + 1);
    }
  }

  /** The loop of hashtable_find and of hashtable_insert. */
  method Search(key: Key, first: HashItem?, ghost c: seq<HashItem>) returns (hi: HashItem?)
    requires Chain(c, first)
    ensures hi != null ==> hi in c && hi.key == key
    ensures hi == null ==> forall i :: 0 <= i < |c| ==> c[i].key != key
  {
    hi := first;
    ghost var j := 0;
    while hi != null && hi.key != key
      invariant j <= |c| && hi == Nth(c, j) && forall i :: 0 <= i < j ==> c[i].key != key
      decreases |c| - j
    {
      hi, j := hi.hNext, j + 1;
    }
  }

  /** The part of the list from item number j on, with nothing before it. */
  ghost predicate Rest(s: seq<HashItem>, j: nat)
    reads s`next, s`prev
  {
    && (forall i :: j <= i < |s| ==> s[i].next == Nth(s, i + 1))
    && (forall i :: j < i < |s| ==> s[i].prev == Nth(s, i - 1))
    && (j < |s| ==> s[j].prev == null)
  }

  ghost predicate Unlinked(s: seq<HashItem>, j: nat)
    reads s`next, s`prev
  {
    forall i :: 0 <= i < j && i < |s| ==> s[i].next == null && s[i].prev == null
  }

  /** One turn of the loop of hashtable_clear. */
  method FreeOne(hi: HashItem, ghost s: seq<HashItem>, ghost j: nat) returns (next: HashItem?)
    requires j < |s| && hi == s[j] && NoTwice(s) && Rest(s, j)
    modifies hi`next, hi`prev, (if j + 1 < |s| then {s[j + 1]} else {})`prev
    ensures next == Nth(s, j + 1) && Rest(s, j + 1) && (old(Unlinked(s, j)) ==> Unlinked(s, j + 1))
  {
    next := hi.next;
    // the item before hi is gone already
    if hi.prev != null { assert false; }
    if hi.next != null { hi.next.prev := hi.prev; }
    hi.prev, hi.next := null, null;
  }

  /** The loop of hashtable_clear: every item is unlinked from its neighbours and freed, and the
      count goes down with each. */
  method FreeAll(head: HashItem?, tail: HashItem?, count: nat, ghost s: seq<HashItem>) returns (left: nat)
    requires Listed(s, head, tail) && NoTwice(s) && count >= |s|
    modifies s`next, s`prev
    ensures left == count - |s| && Unlinked(s, |s|)
  {
    var hi := head;
    ghost var j := 0;
    left := count;
    assert Rest(s, 0) && Unlinked(s, 0);
    hide Rest, Listed, Unlinked, NoTwice;
    while hi != null
      invariant j <= |s| && hi == Nth(s, j) && left == count - j && Rest(s, j) && Unlinked(s, j)
      decreases |s| - j
    {
      hi := FreeOne(hi, s, j);
      left, j := left - 1, j + 1;
    }
  }

  // ---- hashtable_apply2 ---------------------------------------------------------------------------------

  function Turned<T>(s: seq<T>, v: nat): seq<T>
    requires v <= |s|
  {
    s[v..] + s[..v]
  }

  // index k of the turned list is this index of the list
  function Origin(k: int, v: int, n: int): int { if k + v < n then k + v else k + v - n }

  lemma TurnedNth(s: seq<HashItem>, v: nat, k: nat)
    requires v <= |s| && k < |s|
    ensures |Turned(s, v)| == |s| && Turned(s, v)[k] == s[Origin(k, v, |s|)]
  {
  }

  /** The list closed to a circle. */
  ghost predicate Circle(s: seq<HashItem>)
    reads s`next, s`prev
  {
    forall k :: 0 <= k < |s| ==>
      && s[k].next == (if k == |s| - 1 then s[0] else Nth(s, k + 1))
      && s[k].prev == (if k == 0 then s[|s| - 1] else Nth(s, k - 1))
  }

  /** The circle cut open before item number v. */
  ghost predicate CutOpen(s: seq<HashItem>, v: nat)
    reads s`next, s`prev
  {
    forall k :: 0 <= k < |s| ==>
      && s[k].next == (if k == v - 1 then null else if k == |s| - 1 then s[0] else Nth(s, k + 1))
      && s[k].prev == (if k == v then null else if k == 0 then s[|s| - 1] else Nth(s, k - 1))
  }

  method CloseCircle(head: HashItem, tail: HashItem, ghost s: seq<HashItem>)
    requires Listed(s, head, tail) && NoTwice(s) && s != []
    modifies head`prev, tail`next
    ensures Circle(s)
  {
    assert tail == s[|s| - 1] && head == s[0];
    hide Nth;
    tail.next := head;
    head.prev := tail;
  }

  method OpenCircle(hi: HashItem, ghost s: seq<HashItem>, ghost v: nat) returns (t: HashItem)
    requires Circle(s) && NoTwice(s) && 0 < v < |s| && hi == s[v]
    modifies s`next, s`prev
    ensures CutOpen(s, v) && t == s[v - 1]
  {
    assert hi.prev == s[v - 1];
    t := hi.prev;
    OnlyItem(s, v);
    OnlyItem(s, v - 1);
    hide Nth, NoTwice;
    hi.prev := null;
    t.next := null;
  }

  lemma OnlyItem(s: seq<HashItem>, i: nat)
    requires NoTwice(s) && i < |s|
    ensures forall k :: 0 <= k < |s| ==> (s[k] == s[i] <==> k == i)
  {
  }

  /** The list is closed to a circle and cut open again before hi, item number v. */
  method Rotate(head: HashItem, tail: HashItem, hi: HashItem, ghost s: seq<HashItem>, ghost v: nat)
    returns (h: HashItem, t: HashItem)
    requires Listed(s, head, tail) && NoTwice(s) && 0 < v < |s| && hi == s[v]
    modifies s`next, s`prev
    ensures Listed(Turned(s, v), h, t)
  {
    assert tail == s[|s| - 1] && head == s[0];
    hide Listed, Circle, CutOpen, NoTwice;
    CloseCircle(head, tail, s);
    t := OpenCircle(hi, s, v);
    h := hi;
    TurnedListed(s, v);
  }

  lemma TurnedListed(s: seq<HashItem>, v: nat)
    requires 0 < v < |s| && CutOpen(s, v)
    ensures Listed(Turned(s, v), s[v], s[v - 1])
  {
    var r, n := Turned(s, v), |s|;
    TurnedNth(s, v, 0);
    TurnedNth(s, v, n - 1);
    hide Turned, CutOpen;
    assert Nth(r, 0) == s[v] && Nth(r, n - 1) == s[v - 1];
    forall k | 0 <= k < n ensures r[k].next == Nth(r, k + 1) && r[k].prev == Nth(r, k - 1) { TurnedLink(s, v, k); }
  }

  lemma TurnedLink(s: seq<HashItem>, v: nat, k: nat)
    requires 0 < v < |s| && CutOpen(s, v) && k < |s|
    ensures var r := Turned(s, v); k < |r| && r[k].next == Nth(r, k + 1) && r[k].prev == Nth(r, k - 1)
  {
    TurnedNth(s, v, k);
    if k + 1 < |s| { TurnedNth(s, v, k + 1); }
    if k > 0 { TurnedNth(s, v, k - 1); }
    hide Turned;
  }

  /** How many items a call visits: it stops before the item behind the n-th one that was accepted. */
  function Visits(s: seq<HashItem>, n: nat, accept: HashItem -> bool): (v: nat)
    ensures v <= |s| && (n > 0 && s != [] ==> v > 0)
  {
    if s == [] || n == 0 then 0 else 1 + Visits(s[1..], if accept(s[0]) then n - 1 else n, accept)
  }

  /** The loop of hashtable_apply2; the log is the order of the calls of apply_func, and `accept` says
      for which items it returns nonzero. */
  method Visit(head: HashItem?, n: nat, accept: HashItem -> bool, ghost s: seq<HashItem>, tail: HashItem?)
    returns (hi: HashItem?, log: seq<HashItem>)
    requires Listed(s, head, tail)
    ensures log == s[..Visits(s, n, accept)] && hi == Nth(s, |log|)
  {
    hi, log := head, [];
    var i := 0;
    assert s[0..] == s;
    hide Listed;
    while hi != null
      invariant i <= n && |log| <= |s| && log == s[..|log|] && hi == Nth(s, |log|) && Listed(s, head, tail)
      invariant Visits(s, n, accept) == |log| + Visits(s[|log|..], n - i, accept)
      decreases |s| - |log|
    {
      if i >= n { break; }
      ghost var j := |log|;
      assert s[j..][0] == s[j] && s[j..][1..] == s[j + 1..];
      var next := hi.next;
      assert next == Nth(s, j + 1) by { NextOf(s, head, tail, j); }
      log := log + [hi];
      if accept(hi) { i := i + 1; }
      hi := next;
    }
  }

  lemma NextOf(s: seq<HashItem>, head: HashItem?, tail: HashItem?, j: nat)
    requires Listed(s, head, tail) && j < |s|
    ensures s[j].next == Nth(s, j + 1)
  {
  }
}
