/** ResourceCache of resource_cache/resource_cache.h: a map over a ring of items with a sentinel.
    A call is atomic (the mutex), and the clock is a parameter. */
module LruCache {
  import opened Basics
  import opened LruSpec

  class Item<T> {
    const key: string
    var res: Option<T>
    var lastModified: nat
    var prev: Item?<T>
    var next: Item?<T>

    constructor (key: string, res: Option<T>, now: nat)
      ensures this.key == key && this.res == res && lastModified == now
    {
      this.key, this.res, lastModified := key, res, now;
      prev, next := null, null;
    }
  }

  /** The items of a ring, in the order of the next pointers. */
  ghost predicate Linked<T>(r: seq<Item<T>>)
    reads r`next, r`prev
  {
    forall i :: 0 <= i < |r| ==> r[i].next == r[Succ(i, |r|)] && r[i].prev == r[Pred(i, |r|)]
  }

  function Second<T>(s: seq<T>, x: T): seq<T>
    requires |s| > 0
  {
    [s[0], x] + s[1..]
  }

  lemma AroundGap(n: nat, i: nat, k: nat)
    requires 0 < i < n && k + 1 < n
    ensures var m := Skip(k, i);
      && m != i && m < n
      && Skip(Succ(k, n - 1), i) == (if m == Pred(i, n) then Succ(i, n) else Succ(m, n))
      && Skip(Pred(k, n - 1), i) == (if m == Succ(i, n) then Pred(i, n) else Pred(m, n))
  {
  }

  /** Without item number i every other item points around it. */
  ghost predicate PointsAround<T>(r: seq<Item<T>>, i: nat)
    requires i < |r|
    reads r`next, r`prev
  {
    forall m :: 0 <= m < |r| && m != i ==>
      && r[m].next == r[if m == Pred(i, |r|) then Succ(i, |r|) else Succ(m, |r|)]
      && r[m].prev == r[if m == Succ(i, |r|) then Pred(i, |r|) else Pred(m, |r|)]
  }

  lemma CutLinked<T>(r: seq<Item<T>>, i: nat)
    requires 0 < i < |r| && PointsAround(r, i) && NoTwice(r)
    ensures Linked(Cut(r, i)) && NoTwice(Cut(r, i))
  {
    var c, n := Cut(r, i), |r|;
    forall k | 0 <= k < |c| ensures c[k].next == c[Succ(k, |c|)] && c[k].prev == c[Pred(k, |c|)] {
      hide Cut, Succ, Pred, Skip, NoTwice;
      assert |c| == n - 1 by { CutLength(r, i); }
      AroundGap(n, i, k);
      CutAt(r, i, k);
      SuccInside(k, n - 1);
      CutAt(r, i, Succ(k, n - 1));
      CutAt(r, i, Pred(k, n - 1));
    }
    AllLinked(c);
    CutNoTwice(r, i);
  }

  /** item->prev->next = item->next; item->next->prev = item->prev. */
  method Unlink<T>(item: Item<T>, ghost r: seq<Item<T>>, ghost i: nat)
    requires 0 < i < |r| && r[i] == item && Linked(r) && NoTwice(r)
    modifies r`next, r`prev
    ensures Linked(Cut(r, i)) && NoTwice(Cut(r, i))
    ensures item.next == old(item.next) && item.prev == old(item.prev)
  {
    assert item.next == r[Succ(i, |r|)] && item.prev == r[Pred(i, |r|)];
    item.prev.next := item.next;
    item.next.prev := item.prev;
    assert PointsAround(r, i);
    CutLinked(r, i);
  }

  lemma AllLinked<T>(r: seq<Item<T>>)
    requires forall i :: 0 <= i < |r| ==> r[i].next == r[Succ(i, |r|)] && r[i].prev == r[Pred(i, |r|)]
    ensures Linked(r)
  {
  }

  /** Puts item behind the sentinel. */
  method LinkFirst<T>(head: Item<T>, item: Item<T>, ghost r: seq<Item<T>>)
    requires |r| > 0 && r[0] == head && Linked(r) && NoTwice(r) && item !in r
    modifies r`next, r`prev, item`next, item`prev
    ensures Linked(Second(r, item)) && NoTwice(Second(r, item))
  {
    assert head.next == r[Succ(0, |r|)];
    item.next := head.next;
    item.prev := head;
    head.next.prev := item;
    head.next := item;
  }

  /** What an item stands for. */
  ghost function EntryOf<T>(item: Item<T>): Entry<T>
    reads item`res, item`lastModified
  {
    Entry(item.key, item.res, item.lastModified)
  }

  ghost function EntriesOf<T>(r: seq<Item<T>>): (s: seq<Entry<T>>)
    reads r`res, r`lastModified
    ensures |s| == |r| && forall i :: 0 <= i < |r| ==> s[i] == EntryOf(r[i])
  {
    if r == [] then [] else [EntryOf(r[0])] + EntriesOf(r[1..])
  }

  /** Every item is found under its key. */
  ghost predicate Finds<T>(m: map<string, Item<T>>, r: seq<Item<T>>) {
    forall i :: 0 <= i < |r| ==> r[i].key in m && m[r[i].key] == r[i]
  }

  /** Every key leads to an item with that key. */
  ghost predicate Leads<T>(m: map<string, Item<T>>, r: seq<Item<T>>) {
    forall k :: k in m ==> m[k] in r && m[k].key == k
  }

  /** The map indexes precisely the items. */
  ghost predicate Indexes<T>(m: map<string, Item<T>>, r: seq<Item<T>>) { Finds(m, r) && Leads(m, r) && |m| == |r| }

  class ResourceCache<T> {
    const capacity: int
    const expireSeconds: int
    const head: Item<T>
    var cacheMap: map<string, Item<T>>
    // the items from head to rear
    ghost var items: seq<Item<T>>

    ghost predicate Valid()
      reads this, head`next, head`prev, items`next, items`prev
    {
      && capacity > 0 && |items| <= capacity
      && Linked([head] + items) && NoTwice([head] + items) && Indexes(cacheMap, items)
    }

    ghost function Contents(): seq<Entry<T>>
      reads this, items`res, items`lastModified
    {
      EntriesOf(items)
    }

    constructor (capacity: int, expireSeconds: int, now: nat)
      requires capacity > 0
      ensures Valid() && Contents() == [] && this.capacity == capacity && this.expireSeconds == expireSeconds && fresh(head)
    {
      this.capacity, this.expireSeconds := capacity, expireSeconds;
      head := new Item("", None, now);
      cacheMap := map[];
      items := [];
      new;
      head.next := head;
      head.prev := head;
    }

    method Get(key: string, now: nat) returns (res: Option<T>)
      requires Valid()
      ensures res == Got(Contents(), key, expireSeconds, now)
    {
      res := None;
      if key in cacheMap {
        var item := cacheMap[key];
        ghost var i :| 0 <= i < |items| && items[i] == item;
        Sole(i);
        GotAt(Contents(), i, expireSeconds, now);
        var diff := Seconds(item.lastModified, now);
        if diff < expireSeconds { res := item.res; }
      } else {
        GotNothing(Contents(), key, expireSeconds, now);
      }
    }

    lemma Sole(i: nat)
      requires Valid() && i < |items|
      ensures forall j :: 0 <= j < |items| && j != i ==> items[j].key != items[i].key
    {
      forall j | 0 <= j < |items| && j != i ensures items[j].key != items[i].key {
        var r := [head] + items;
        assert r[j + 1] == items[j] && r[i + 1] == items[i];
      }
    }

    /** MoveToLRUHead. */
    method MoveToHead(item: Item<T>, ghost i: nat)
      requires i < |items| && items[i] == item && Linked([head] + items) && NoTwice([head] + items)
      modifies this`items, head`next, head`prev, items`next, items`prev
      ensures items == [item] + Cut(old(items), i)
      ensures Linked([head] + items) && NoTwice([head] + items)
    {
      ghost var r := [head] + items;
      CutBehind(head, items, i);
      CutNoTwice(r, i + 1);
      hide Linked, NoTwice, Cut;
      Unlink(item, r, i + 1);
      ghost var c := Cut(r, i + 1);
      LinkFirst(head, item, c);
      items := [item] + Cut(items, i);
      SecondIs(head, item, Cut(old(items), i));
    }

    /** RemoveFromLRU. */
    method RemoveFromLRU(item: Item<T>, ghost i: nat)
      requires i < |items| && items[i] == item && Linked([head] + items) && NoTwice([head] + items)
      modifies this`items, head`next, head`prev, items`next, items`prev
      ensures items == Cut(old(items), i) && Linked([head] + items) && NoTwice([head] + items)
    {
      ghost var r := [head] + items;
      CutBehind(head, items, i);
      hide Linked, NoTwice, Cut;
      Unlink(item, r, i + 1);
      items := Cut(items, i);
    }

    /** The rear item is taken off the map and off the ring. */
    method Evict()
      requires Valid() && items != []
      modifies this, head`next, head`prev, items`next, items`prev
      ensures items == old(items)[..|old(items)| - 1] && |items| < capacity
      ensures cacheMap.Keys <= old(cacheMap).Keys
      ensures Linked([head] + items) && NoTwice([head] + items) && Indexes(cacheMap, items)
    {
      ghost var r, n := [head] + items, |items| - 1;
      assert head == r[0] && r[Pred(0, |r|)] == items[n];
      var rear := head.prev;
      CutIsPrefix(items);
      Sole(n);
      IndexesLess(cacheMap, items);
      hide Linked, NoTwice, Cut, Indexes;
      cacheMap := cacheMap - {rear.key};
      RemoveFromLRU(rear, n);
    }

    /** InsertToLRU. */
    method InsertToLRU(item: Item<T>)
      requires Linked([head] + items) && NoTwice([head] + items) && item !in [head] + items
      modifies this`items, head`next, head`prev, items`next, items`prev, item`next, item`prev
      ensures items == [item] + old(items)
      ensures Linked([head] + items) && NoTwice([head] + items)
    {
      ghost var r := [head] + items;
      SecondIs(head, item, items);
      hide Linked, NoTwice, Second;
      LinkFirst(head, item, r);
      items := [item] + items;
    }

    /** A new item goes into the map and behind the sentinel. */
    method Insert(key: string, res: Option<T>, now: nat)
      requires Linked([head] + items) && NoTwice([head] + items) && Indexes(cacheMap, items) && key !in cacheMap
      modifies this, head`next, head`prev, items`next, items`prev
      ensures |items| == |old(items)| + 1 && items[1..] == old(items) && fresh(items[0])
      ensures EntryOf(items[0]) == Entry(key, res, now)
      ensures Linked([head] + items) && NoTwice([head] + items) && Indexes(cacheMap, items)
    {
      var item := new Item(key, res, now);
      assert item !in [head] + items;
      IndexesMore(cacheMap, items, item);
      hide Linked, NoTwice, Indexes;
      cacheMap := cacheMap[key := item];
      InsertToLRU(item);
    }

    /** The fields of a cached item are set anew. */
    method Renew(item: Item<T>, ghost i: nat, res: Option<T>, now: nat)
      requires i < |items| && items[i] == item && NoTwice([head] + items)
      modifies item`res, item`lastModified
      ensures EntryOf(item) == Entry(item.key, res, now)
      ensures EntriesOf(Cut(items, i)) == old(EntriesOf(Cut(items, i)))
    {
      CutBehind(head, items, i);
      CutNoTwice([head] + items, i + 1);
      assert item !in Cut(items, i);
      hide Cut, EntriesOf;
      item.res := res;
      item.lastModified := now;
    }

    /** The item of a cached key is renewed and goes to the head. */
    method Promote(item: Item<T>, ghost i: nat, res: Option<T>, now: nat)
      requires i < |items| && items[i] == item && Linked([head] + items) && NoTwice([head] + items)
      modifies this`items, head`next, head`prev, items
      ensures items == [item] + Cut(old(items), i) && Linked([head] + items) && NoTwice([head] + items)
      ensures Contents() == [Entry(item.key, res, now)] + Cut(old(Contents()), i)
    {
      ghost var rest := Cut(items, i);
      CutEntries(items, i);
      hide Linked, NoTwice, EntriesOf, Cut, EntryOf;
      Renew(item, i, res, now);
      ghost var e := EntriesOf(rest);
      MoveToHead(item, i);
      assert EntriesOf(rest) == e && EntryOf(item) == Entry(item.key, res, now);
      EntriesFirst(item, rest);
      assert items == [item] + rest;
    }

    /** Set on a key that is cached. */
    method Refresh(key: string, res: Option<T>, now: nat)
      requires Valid() && key in cacheMap
      modifies this, head, items
      ensures Valid() && forall k :: 0 <= k < |items| ==> items[k] in old(items)
      ensures Contents() == [Entry(key, res, now)] + Without(old(Contents()), key) && Has(old(Contents()), key)
    {
      hide *;
      ghost var i := Place(key);
      Promote(cacheMap[key], i, res, now);
      Whole();
    }

    /** Where the item of a cached key is, and what moving it to the head leaves. */
    lemma Place(key: string) returns (i: nat)
      requires Valid() && key in cacheMap
      ensures i < |items| && items[i] == cacheMap[key] && cacheMap[key].key == key
      ensures Linked([head] + items) && NoTwice([head] + items) && capacity > 0
      ensures i < |Contents()| && Without(Contents(), key) == Cut(Contents(), i) && Has(Contents(), key)
      ensures var s := [items[i]] + Cut(items, i);
        |s| <= capacity && Indexes(cacheMap, s) && forall k :: 0 <= k < |s| ==> s[k] in items
    {
      i :| 0 <= i < |items| && items[i] == cacheMap[key];
      hide Linked, NoTwice, Indexes, EntriesOf, EntryOf, Cut, Without, Has;
      Sole(i);
      KeyOf(cacheMap, items, key);
      WithoutAt(Contents(), i);
      IndexesMoved(cacheMap, items, i);
      CutLength(items, i);
    }

    lemma Whole()
      requires capacity > 0 && |items| <= capacity
      requires Linked([head] + items) && NoTwice([head] + items) && Indexes(cacheMap, items)
      ensures Valid()
    {
    }

    /** The rear makes room if the cache is full. */
    method MakeRoom()
      requires Valid()
      modifies this, head, items
      ensures Valid() && |items| < capacity && cacheMap.Keys <= old(cacheMap).Keys
      ensures forall k :: 0 <= k < |items| ==> items[k] in old(items)
      ensures Contents() == if |old(items)| == capacity then old(Contents())[..|old(items)| - 1] else old(Contents())
    {
      IndexSize();
      if |cacheMap| == capacity {
        EntriesPrefix(items);
        hide Linked, NoTwice, Indexes, EntriesOf;
        Evict();
        SameEntries(items);
      }
    }

    /** A new item for a key that is not cached. */
    method Add(key: string, res: Option<T>, now: nat)
      requires Valid() && |items| < capacity && key !in cacheMap
      modifies this, head, items
      ensures Valid() && forall k :: 0 <= k < |items| ==> items[k] in old(items) || fresh(items[k])
      ensures Contents() == [Entry(key, res, now)] + old(Contents())
    {
      hide Linked, NoTwice, Indexes, EntriesOf;
      Insert(key, res, now);
      SameEntries(old(items));
      EntriesFirst(items[0], old(items));
      assert items == [items[0]] + old(items);
    }

    /** Set on a key that is not cached. */
    method Store(key: string, res: Option<T>, now: nat)
      requires Valid() && key !in cacheMap
      modifies this, head, items
      ensures Valid() && forall k :: 0 <= k < |items| ==> items[k] in old(items) || fresh(items[k])
      ensures Contents() == AfterSet(old(Contents()), capacity, Entry(key, res, now))
    {
      hide *;
      NotCached(key);
      IndexSize();
      MakeRoom();
      Add(key, res, now);
      SetIs(old(Contents()), Entry(key, res, now));
    }

    lemma IndexSize()
      requires Valid()
      ensures |cacheMap| == |items| == |Contents()|
    {
    }

    lemma SetIs(s: seq<Entry<T>>, e: Entry<T>)
      requires capacity > 0 && !Has(s, e.key)
      ensures AfterSet(s, capacity, e) == [e] + if |s| == capacity then s[..|s| - 1] else s
    {
    }

    lemma NotCached(key: string)
      requires Valid() && key !in cacheMap
      ensures capacity > 0 && !Has(Contents(), key)
    {
    }

    /** Set. The allocation always succeeds. */
    method Set(key: string, res: Option<T>, now: nat) returns (ok: bool)
      requires Valid()
      modifies this, head, items
      ensures ok && Valid() && forall k :: 0 <= k < |items| ==> items[k] in old(items) || fresh(items[k])
      ensures Contents() == AfterSet(old(Contents()), capacity, Entry(key, res, now))
    {
      if key in cacheMap {
        Refresh(key, res, now);
      } else {
        Store(key, res, now);
      }
      ok := true;
    }

    /** A run of Sets from an empty cache. */
    method Replay(trace: seq<Entry<T>>)
      requires Valid() && Contents() == []
      modifies this, head, items
      ensures Valid() && Contents() == Cached(trace, capacity)
    {
      hide Valid, Contents, AfterSet;
      Sized();
      var k := 0;
      while k < |trace|
        invariant k <= |trace| && capacity > 0 && Valid() && Contents() == Cached(trace[..k], capacity)
        invariant forall j :: 0 <= j < |items| ==> items[j] in old(items) || fresh(items[j])
      {
        var _ := Set(trace[k].key, trace[k].res, trace[k].time);
        assert trace[..k + 1][..k] == trace[..k];
        k := k + 1;
      }
      assert trace[..k] == trace;
    }

    lemma Sized()
      requires Valid()
      ensures capacity > 0
    {
    }
  }

  /** No resource of these items has changed, and no time. */
  twostate predicate Kept<T>(r: seq<Item<T>>)
    reads r
  {
    forall i :: 0 <= i < |r| ==> r[i].res == old(r[i].res) && r[i].lastModified == old(r[i].lastModified)
  }

  twostate lemma SameEntries<T>(r: seq<Item<T>>)
    requires Kept(r)
    ensures EntriesOf(r) == old(EntriesOf(r))
  {
    if r != [] { SameEntries(r[1..]); }
  }

  lemma EntriesPrefix<T>(r: seq<Item<T>>)
    requires r != []
    ensures EntriesOf(r[..|r| - 1]) == EntriesOf(r)[..|r| - 1]
  {
  }

  lemma EntriesFirst<T>(item: Item<T>, r: seq<Item<T>>)
    ensures EntriesOf([item] + r) == [EntryOf(item)] + EntriesOf(r)
  {
    assert ([item] + r)[1..] == r;
  }

  lemma IndexesMoved<T>(m: map<string, Item<T>>, r: seq<Item<T>>, i: nat)
    requires i < |r| && Indexes(m, r)
    ensures Indexes(m, [r[i]] + Cut(r, i)) && forall x :: x in [r[i]] + Cut(r, i) <==> x in r
  {
    var s := [r[i]] + Cut(r, i);
    forall k | 0 <= k < |s| ensures s[k].key in m && m[s[k].key] == s[k] {
      if k > 0 { CutAt(r, i, k - 1); }
    }
    forall j | 0 <= j < |r| ensures r[j] in s {
      if j == i { assert s[0] == r[i]; } else if j < i { assert s[j + 1] == r[j]; } else { assert s[j] == r[j]; }
    }
    assert Leads(m, s);
  }

  lemma KeyOf<T>(m: map<string, Item<T>>, r: seq<Item<T>>, key: string)
    requires Indexes(m, r) && key in m
    ensures m[key].key == key
  {
  }

  lemma CutEntries<T>(r: seq<Item<T>>, i: nat)
    requires i < |r|
    ensures EntriesOf(Cut(r, i)) == Cut(EntriesOf(r), i)
  {
    hide EntriesOf, Cut;
    CutLength(r, i);
    CutLength(EntriesOf(r), i);
    forall k | 0 <= k < |r| - 1 ensures EntriesOf(Cut(r, i))[k] == Cut(EntriesOf(r), i)[k] {
      CutAt(r, i, k);
      CutAt(EntriesOf(r), i, k);
    }
  }

  lemma WithoutAt<T>(s: seq<Entry<T>>, i: nat)
    requires i < |s| && forall j :: 0 <= j < |s| && j != i ==> s[j].key != s[i].key
    ensures Without(s, s[i].key) == Cut(s, i) && Has(s, s[i].key)
  {
    hide Without, Has;
    var p, t, k := s[..i], s[i + 1..], s[i].key;
    Present(s, i);
    Absent(p, k);
    forall j | 0 <= j < |t| ensures t[j].key != k { assert t[j] == s[i + 1 + j]; }
    Absent(t, k);
    WithoutConcat(p, [s[i]] + t, k);
    WithoutHead(s[i], t, k);
    WithoutIdle(p, k);
    WithoutIdle(t, k);
    assert s == p + ([s[i]] + t);
  }

  lemma Present<T>(s: seq<Entry<T>>, i: nat)
    requires i < |s|
    ensures Has(s, s[i].key)
  {
  }

  lemma Absent<T>(s: seq<Entry<T>>, key: string)
    requires forall j :: 0 <= j < |s| ==> s[j].key != key
    ensures !Has(s, key)
  {
  }

  lemma CutBehind<T>(head: T, s: seq<T>, i: nat)
    requires i < |s|
    ensures Cut([head] + s, i + 1) == [head] + Cut(s, i)
  {
  }

  lemma CutIsPrefix<T>(s: seq<T>)
    requires s != []
    ensures Cut(s, |s| - 1) == s[..|s| - 1]
  {
  }

  lemma SecondIs<T>(head: T, x: T, s: seq<T>)
    ensures Second([head] + s, x) == [head] + ([x] + s)
  {
  }

  lemma IndexesLess<T>(m: map<string, Item<T>>, r: seq<Item<T>>)
    requires r != [] && Indexes(m, r) && forall j :: 0 <= j < |r| - 1 ==> r[j].key != r[|r| - 1].key
    ensures Indexes(m - {r[|r| - 1].key}, r[..|r| - 1])
  {
    var k, s := r[|r| - 1].key, r[..|r| - 1];
    var n := m - {k};
    assert m.Keys == n.Keys + {k};
    forall x | x in n ensures n[x] in s && n[x].key == x {
      var i :| 0 <= i < |r| && r[i] == m[x];
      assert i < |s| && s[i] == n[x];
    }
  }

  lemma FindsMore<T>(m: map<string, Item<T>>, r: seq<Item<T>>, item: Item<T>)
    requires Finds(m, r) && item.key !in m
    ensures Finds(m[item.key := item], [item] + r)
  {
    var n, s := m[item.key := item], [item] + r;
    forall i | 0 <= i < |s| ensures s[i].key in n && n[s[i].key] == s[i] {
      if i > 0 { assert s[i] == r[i - 1]; }
    }
  }

  lemma LeadsMore<T>(m: map<string, Item<T>>, r: seq<Item<T>>, item: Item<T>)
    requires Leads(m, r) && item.key !in m
    ensures Leads(m[item.key := item], [item] + r)
  {
    var n, s := m[item.key := item], [item] + r;
    forall k | k in n ensures n[k] in s && n[k].key == k {
      if k == item.key { assert s[0] == item; } else { assert m[k] in r; }
    }
  }

  lemma IndexesMore<T>(m: map<string, Item<T>>, r: seq<Item<T>>, item: Item<T>)
    requires Indexes(m, r) && item.key !in m
    ensures Indexes(m[item.key := item], [item] + r)
  {
    hide Finds, Leads;
    FindsMore(m, r, item);
    LeadsMore(m, r, item);
    assert m[item.key := item].Keys == m.Keys + {item.key};
  }
}
