/** The hash table of hashtable/hashtable.c: buckets of chained items, all threaded on one list. */
module Hashtable {
  import opened Basics
  import opened JenkinsHash
  import opened HashLinks

  const BUCKETS: nat := 65536

  /** hash(key, nkey, 0) & hashmask(16). */
  function Bucket(key: Key): (b: nat)
    ensures b < BUCKETS
  {
    HashOf(key, 0) % BUCKETS
  }

  datatype Code = HtOk | HtInvalidParam | HtExists | HtNotFound

  /** The items of the list by key. */
  ghost predicate Finds(m: map<Key, HashItem>, s: seq<HashItem>) {
    forall i :: 0 <= i < |s| ==> s[i].key in m && m[s[i].key] == s[i]
  }

  ghost predicate Leads(m: map<Key, HashItem>, s: seq<HashItem>) { forall k :: k in m ==> m[k] in s && m[k].key == k }

  /** The list, the map and the set hold the same items. */
  ghost predicate Indexes(m: map<Key, HashItem>, s: seq<HashItem>, repr: set<HashItem>) {
    && Finds(m, s) && Leads(m, s) && |m| == |s|
    && (forall x :: x in s ==> x in repr) && (forall x :: x in repr ==> x in s)
  }

  /** Chain number b holds the items of that bucket, and no item is missing. */
  ghost predicate InBucket(m: map<Key, HashItem>, c: seq<HashItem>, b: nat) {
    && NoTwice(c)
    && (forall i :: 0 <= i < |c| ==> Bucket(c[i].key) == b && c[i].key in m && m[c[i].key] == c[i])
    && (forall k :: k in m && Bucket(k) == b ==> m[k] in c && m[k].key == k)
  }

  ghost predicate AllBuckets(m: map<Key, HashItem>, chains: seq<seq<HashItem>>) {
    |chains| == BUCKETS && forall b :: 0 <= b < BUCKETS ==> InBucket(m, chains[b], b)
  }

  ghost predicate Inside(c: seq<HashItem>, repr: set<HashItem>) { forall i :: 0 <= i < |c| ==> c[i] in repr }

  ghost predicate Chained(p: seq<HashItem?>, chains: seq<seq<HashItem>>, repr: set<HashItem>)
    reads repr`hNext
  {
    && |p| == |chains|
    && forall b :: 0 <= b < |p| ==> Inside(chains[b], repr) && Chain(chains[b], p[b])
  }

  class HashTable {
    var hashItems: nat
    const primary: array<HashItem?>
    var head: HashItem?
    var tail: HashItem?
    // the list, the chains, the items by key, and all items
    ghost var items: seq<HashItem>
    ghost var chains: seq<seq<HashItem>>
    ghost var model: map<Key, HashItem>
    ghost var repr: set<HashItem>

    /** The chains: every item hangs in the bucket of its hash. */
    ghost predicate BucketsOk()
      reads this`chains, this`model, this`repr, primary, repr`hNext
    {
      primary.Length == BUCKETS && AllBuckets(model, chains) && Chained(primary[..], chains, repr)
    }

    /** The list. */
    ghost predicate ListOk()
      reads this`items, this`head, this`tail, items`next, items`prev
    {
      Listed(items, head, tail) && NoTwice(items)
    }

    ghost predicate Valid()
      reads this, primary, repr, items
    {
      BucketsOk() && ListOk() && Indexes(model, items, repr) && hashItems == |items|
    }

    constructor ()
      ensures Valid() && items == [] && model == map[] && fresh(primary) && repr == {}
    {
      hashItems := 0;
      head, tail := null, null;
      primary := new HashItem?[BUCKETS](_ => null);
      items, chains, model, repr := [], seq(BUCKETS, _ => []), map[], {};
    }

    /** A bucket's chain in detail. */
    lemma BucketChain(b: nat)
      requires Valid() && b < BUCKETS
      ensures |chains| == BUCKETS && Chain(chains[b], primary[b]) && InBucket(model, chains[b], b)
      ensures Inside(chains[b], repr)
    {
      assert primary[..][b] == primary[b];
    }

    /** The search of the right chain agrees with the map. */
    method Lookup(key: Key) returns (hi: HashItem?)
      requires Valid()
      ensures hi == if key in model then model[key] else null
      ensures BucketsOk() && ListOk()
    {
      var b := Bucket(key);
      BucketChain(b);
      hide Valid, Bucket, Chain, BucketsOk, ListOk;
      hi := Search(key, primary[b], chains[b]);
      FoundInBucket(model, chains[b], key, hi);
    }

    /** hashtable_find. */
    method Find(key: Key) returns (hi: HashItem?)
      requires Valid()
      ensures hi == if key != [] && key in model then model[key] else null
    {
      hide Valid;
      hi := null;
      if key != [] { hi := Lookup(key); }
    }

    /** A new item in front of its bucket's chain. */
    method PutInBucket(hi: HashItem)
      requires BucketsOk() && ListOk() && hi !in repr && hi.key !in model
      modifies this`chains, this`model, this`repr, primary, hi`hNext
      ensures BucketsOk() && model == old(model)[hi.key := hi] && repr == old(repr) + {hi}
      ensures ListOk()
    {
      hide *;
      var b := Bucket(hi.key);
      ghost var c, all, n := chains, repr + {hi}, model[hi.key := hi];
      BeforePut(hi);
      PushChain(hi, primary[b], c, primary[..], b);
      SetBucket(b, hi, [hi] + c[b], all);
      model, repr := n, all;
      BucketsWhole();
    }

    lemma BeforePut(hi: HashItem)
      requires BucketsOk() && hi !in repr && hi.key !in model
      ensures var b := Bucket(hi.key);
        && b < BUCKETS == |chains| == primary.Length && hi !in chains[b] && Inside([hi] + chains[b], repr + {hi})
        && AllBuckets(model[hi.key := hi], chains[b := [hi] + chains[b]])
      ensures forall i :: 0 <= i < BUCKETS ==>
        Chain(chains[i], primary[i]) && Inside(chains[i], repr + {hi}) && Apart(chains[i], [hi])
    {
      hide Bucket, AllBuckets, Chain;
      BucketsMore(model, chains, hi);
      BucketCount(model, chains);
      forall i | 0 <= i < BUCKETS
        ensures Chain(chains[i], primary[i]) && Inside(chains[i], repr + {hi}) && Apart(chains[i], [hi])
      {
        assert Inside(chains[i], repr) && Chain(chains[i], primary[..][i]);
      }
    }

    /** Chain number b changes to d, whose first item is f. */
    method SetBucket(b: nat, f: HashItem?, ghost d: seq<HashItem>, ghost all: set<HashItem>)
      requires primary.Length == BUCKETS == |chains| && b < BUCKETS
      requires Chain(d, f) && Inside(d, all)
      requires forall i :: 0 <= i < BUCKETS && i != b ==> Inside(chains[i], all) && Chain(chains[i], primary[i])
      modifies this`chains, primary
      ensures chains == old(chains)[b := d] && Chained(primary[..], chains, all)
    {
      primary[b] := f;
      chains := chains[b := d];
    }

    /** Item number j of chain number b leaves it. */
    method TakeOut(b: nat, before: HashItem?, item: HashItem, ghost j: nat)
      requires primary.Length == BUCKETS == |chains| && b < BUCKETS && Chained(primary[..], chains, repr)
      requires NoTwice(chains[b]) && j < |chains[b]| && item == chains[b][j] && before == Nth(chains[b], j - 1)
      requires forall i :: 0 <= i < BUCKETS && i != b ==> Apart(chains[i], chains[b])
      modifies this`chains, primary, repr`hNext
      ensures chains == old(chains)[b := Cut(old(chains)[b], j)] && Chained(primary[..], chains, repr) && item.hNext == null
    {
      ghost var p, c := primary[..], chains;
      assert p[b] == primary[b];
      assert forall i :: 0 <= i < |p| ==> Chain(c[i], p[i]);
      assert forall i :: 0 <= i < |p| ==> Inside(c[i], repr);
      CutInside(c[b], j, repr);
      assert forall x :: x in c[b] ==> x in repr;
      hide Chain, Inside, Chained, Cut, NoTwice, Apart, Nth;
      var f := UnchainFrom(before, item, primary[b], c, p, b, j);
      assert primary[..] == p;
      SetBucket(b, f, Cut(c[b], j), repr);
    }

    /** The item of a key leaves its bucket's chain. */
    method TakeFromBucket(key: Key) returns (item: HashItem?)
      requires BucketsOk()
      modifies this`chains, primary, repr`hNext
      ensures key !in model ==> item == null && BucketsOk()
      ensures key in model ==> item == model[key] && item.key == key && item.hNext == null
      ensures key in model ==> AllBuckets(model - {key}, chains) && Chained(primary[..], chains, repr)
    {
      var b := Bucket(key);
      ghost var p, c := primary[..], chains;
      assert |c| == BUCKETS && InBucket(model, c[b], b) && p[b] == primary[b];
      assert Chain(c[b], p[b]) && Inside(c[b], repr);
      hide Bucket, AllBuckets, Chain, Inside, Chained;
      var before, pos;
      ghost var j;
      before, pos, j := Before(key, primary[b], c[b]);
      FoundInChain(model, c[b], key, j);
      item := pos;
      if pos == null { return; }
      BucketsLess(model, c, key, j);
      ChainsApart(model, c, b);
      NoTwiceIn(model, c, b);
      hide InBucket, Cut, NoTwice, Apart, Nth;
      TakeOut(b, before, pos, j);
    }

    /** hashtable_insert's part for the list. */
    method AppendItem(hi: HashItem)
      requires BucketsOk() && ListOk() && hi !in items
      modifies this`head, this`tail, this`items, this`hashItems, items`next, hi`next, hi`prev
      ensures ListOk() && items == old(items) + [hi] && hashItems == old(hashItems) + 1
      ensures BucketsOk()
    {
      hide *;
      ListParts();
      ghost var s := items + [hi];
      var h, t := Append(hi, head, tail, items);
      SetList(h, t, s);
      hashItems := hashItems + 1;
    }

    /** hashtable_insert. */
    method Insert(hi: HashItem) returns (code: Code)
      requires Valid()
      modifies this, primary, repr, hi
      ensures Valid()
      ensures code == if hi.key in old(model) then HtExists else HtOk
      ensures code == HtExists ==> items == old(items) && model == old(model) && repr == old(repr)
      ensures code == HtOk ==> items == old(items) + [hi] && model == old(model)[hi.key := hi] && repr == old(repr) + {hi}
    {
      hide *;
      Parts();
      if hi.key !in model { IndexesMore(model, items, repr, hi); }
      var pos := Lookup(hi.key);
      code := HtExists;
      if pos == null {
        code := HtOk;
        PutInBucket(hi);
        AppendItem(hi);
        Whole();
      } else {
        Whole();
      }
    }

    lemma Parts()
      requires Valid()
      ensures BucketsOk() && ListOk() && Indexes(model, items, repr) && hashItems == |items|
    {
    }

    lemma Whole()
      requires BucketsOk() && ListOk() && Indexes(model, items, repr) && hashItems == |items|
      ensures Valid()
    {
    }

    /** The item of a key leaves the chains, the map and the set. */
    method DropFromBucket(key: Key) returns (item: HashItem?)
      requires Valid()
      modifies this`chains, this`model, this`repr, primary, repr`hNext
      ensures key !in old(model) ==> item == null && model == old(model) && repr == old(repr) && Valid()
      ensures key in old(model) ==>
        && item == old(model)[key] && item.hNext == null && model == old(model) - {key} && repr == old(repr) - {item}
        && BucketsOk() && ListOk()
    {
      hide Valid, BucketsOk, ListOk, Indexes;
      Parts();
      item := TakeFromBucket(key);
      if item != null {
        ChainsWithout(item);
        model, repr := model - {key}, repr - {item};
        BucketsWhole();
      } else {
        Whole();
      }
    }

    lemma ChainsWithout(item: HashItem)
      requires primary.Length == BUCKETS
      requires AllBuckets(model - {item.key}, chains) && Chained(primary[..], chains, repr)
      ensures AllBuckets(model - {item.key}, chains) && Chained(primary[..], chains, repr - {item})
    {
      hide Bucket;
      forall b | 0 <= b < BUCKETS ensures Inside(chains[b], repr - {item}) {
        assert InBucket(model - {item.key}, chains[b], b) && Inside(chains[b], repr);
      }
    }

    lemma BucketsWhole()
      requires primary.Length == BUCKETS && AllBuckets(model, chains) && Chained(primary[..], chains, repr)
      ensures BucketsOk()
    {
    }

    /** hashtable_remove's part for the list. */
    method UnlinkItem(item: HashItem, ghost i: nat)
      requires BucketsOk() && ListOk() && i < |items| && items[i] == item && hashItems > 0
      modifies this`head, this`tail, this`items, this`hashItems, items`next, items`prev
      ensures BucketsOk() && ListOk() && items == Cut(old(items), i) && hashItems == old(hashItems) - 1
      ensures item.next == null && item.prev == null
    {
      hide *;
      ListParts();
      ghost var s := Cut(items, i);
      var h, t := HashLinks.Remove(item, head, tail, items, i);
      SetList(h, t, s);
      hashItems := hashItems - 1;
    }

    /** The last half of hashtable_remove. */
    method FinishRemove(item: HashItem, ghost i: nat)
      requires BucketsOk() && ListOk() && i < |items| && items[i] == item && hashItems == |items|
      requires Indexes(model, Cut(items, i), repr)
      modifies this`head, this`tail, this`items, this`hashItems, items`next, items`prev
      ensures Valid() && items == Cut(old(items), i) && item.next == null && item.prev == null
    {
      CutLength(items, i);
      hide Valid, BucketsOk, ListOk, Indexes, Cut;
      UnlinkItem(item, i);
      Whole();
    }

    /** hashtable_remove. */
    method Remove(key: Key) returns (code: Code, item: HashItem?, ghost i: nat)
      requires Valid()
      modifies this, primary, repr, items
      ensures Valid()
      ensures code == if key == [] then HtInvalidParam else if key in old(model) then HtOk else HtNotFound
      ensures code != HtOk ==> item == null && items == old(items) && model == old(model) && repr == old(repr)
      ensures code == HtOk ==>
        && item == old(model)[key] && model == old(model) - {key} && repr == old(repr) - {item}
        && i < |old(items)| && old(items)[i] == item && items == Cut(old(items), i)
        && item.next == null && item.prev == null && item.hNext == null
    {
      hide Valid, BucketsOk, ListOk, Indexes, Cut;
      if key == [] { return HtInvalidParam, null, 0; }
      i := Position(key);
      item := DropFromBucket(key);
      code := HtNotFound;
      if item != null {
        code := HtOk;
        FinishRemove(item, i);
      }
    }

    lemma Position(key: Key) returns (i: nat)
      requires Valid()
      ensures hashItems == |items|
      ensures key in model ==> i < |items| && items[i] == model[key] && Indexes(model - {key}, Cut(items, i), repr - {model[key]})
    {
      i := 0;
      if key in model {
        i :| 0 <= i < |items| && items[i] == model[key];
        IndexesLess(model, items, repr, key, i);
      }
    }

    /** An empty table, wherever its items have gone. */
    method Reset()
      requires primary.Length == BUCKETS
      modifies this`head, this`tail, this`items, this`chains, this`model, this`repr, primary
      ensures BucketsOk() && ListOk() && items == [] && model == map[] && repr == {}
    {
      head, tail := null, null;
      forall i | 0 <= i < primary.Length { primary[i] := null; }
      items, chains, model, repr := [], seq(BUCKETS, _ => []), map[], {};
    }

    /** hashtable_clear on a table with items. */
    method ClearItems()
      requires BucketsOk() && ListOk() && hashItems == |items|
      modifies this, primary, items`next, items`prev
      ensures Valid() && items == [] && model == map[] && repr == {} && hashItems == 0
      ensures Unlinked(old(items), |old(items)|)
    {
      hide *;
      ListParts();
      Sized();
      hashItems := FreeAll(head, tail, hashItems, items);
      Reset();
      NothingIndexed();
      Whole();
    }

    /** hashtable_clear: -1 if there is nothing to clear. The buckets are emptied too. */
    method Clear() returns (code: int)
      requires Valid()
      modifies this, primary, repr, items
      ensures Valid()
      ensures code == if old(items) == [] then -1 else 0
      ensures items == [] && model == map[] && repr == {} && hashItems == 0
      ensures Unlinked(old(items), |old(items)|)
    {
      Ends();
      Parts();
      hide Valid, BucketsOk, ListOk, Indexes;
      if head == null || tail == null { return -1; }
      ClearItems();
      code := 0;
    }

    lemma Ends()
      requires Valid()
      ensures (head == null <==> items == []) && (tail == null <==> items == []) && primary.Length == BUCKETS
      ensures items == [] ==> model == map[] && repr == {} && hashItems == 0
    {
    }

    lemma ListParts()
      requires ListOk()
      ensures Listed(items, head, tail) && NoTwice(items) && (items != [] ==> head != null && tail != null)
    {
    }

    lemma Sized()
      requires BucketsOk()
      ensures primary.Length == BUCKETS
    {
    }

    lemma NothingIndexed()
      ensures Indexes(map[], [], {})
    {
    }

    /** hashtable_apply2's part that turns the list. */
    method TurnList(hi: HashItem, ghost v: nat)
      requires ListOk() && 0 < v < |items| && hi == items[v]
      modifies this`head, this`tail, this`items, items`next, items`prev
      ensures ListOk() && items == Turned(old(items), v)
    {
      hide ListOk, Listed, NoTwice, Turned;
      ListParts();
      TurnedNoTwice(items, v);
      var h, t := Rotate(head, tail, hi, items, v);
      SetList(h, t, Turned(items, v));
    }

    method SetList(h: HashItem?, t: HashItem?, ghost s: seq<HashItem>)
      requires Listed(s, h, t) && NoTwice(s)
      modifies this`head, this`tail, this`items
      ensures ListOk() && items == s
    {
      hide Listed, NoTwice;
      head, tail, items := h, t, s;
    }

    method TurnItems(hi: HashItem, ghost v: nat)
      requires BucketsOk() && ListOk() && 0 < v < |items| && hi == items[v]
      modifies this`head, this`tail, this`items, items`next, items`prev
      ensures BucketsOk() && ListOk() && items == Turned(old(items), v)
    {
      hide BucketsOk, ListOk, Turned;
      TurnList(hi, v);
    }

    /** The rest of hashtable_apply2 when items are left over. */
    method FinishApply(hi: HashItem, ghost v: nat)
      requires BucketsOk() && ListOk() && 0 < v < |items| && hi == items[v] && hashItems == |items|
      requires |Turned(items, v)| == |items| && Indexes(model, Turned(items, v), repr)
      modifies this`head, this`tail, this`items, items`next, items`prev
      ensures Valid() && items == Turned(old(items), v)
    {
      hide Valid, BucketsOk, ListOk, Indexes, Turned;
      TurnItems(hi, v);
      Whole();
    }

    lemma TurnedWhole(v: nat)
      requires Valid() && v <= |items|
      ensures |Turned(items, v)| == |items| && Indexes(model, Turned(items, v), repr)
      ensures BucketsOk() && ListOk() && hashItems == |items| && Listed(items, head, tail)
    {
      IndexesTurned(model, items, repr, v);
    }

    /** hashtable_apply2 with a callback that leaves the table alone: the log is the order of its calls.
        If items are left over, the list goes on with them next time. */
    method Apply2(n: int, accept: HashItem -> bool) returns (code: Code, log: seq<HashItem>)
      requires Valid()
      modifies this, items
      ensures Valid()
      ensures n <= 0 ==> code == HtInvalidParam && log == [] && items == old(items)
      ensures n > 0 ==>
        && code == HtOk && log == old(items)[..Visits(old(items), n, accept)]
        && items == if |log| < |old(items)| then Turned(old(items), |log|) else old(items)
    {
      hide Valid, BucketsOk, ListOk, Indexes, Listed, Turned;
      code, log := HtInvalidParam, [];
      if n > 0 {
        code := HtOk;
        TurnedWhole(Visits(items, n, accept));
        var hi;
        hi, log := Visit(head, n, accept, items, tail);
        if hi != null { FinishApply(hi, |log|); }
      }
    }

    /** A call of hashtable_apply2 with a callback that always returns nonzero. */
    method ApplyRound(n: nat, accept: HashItem -> bool) returns (log: seq<HashItem>)
      requires Valid() && n > 0 && forall i :: 0 <= i < |items| ==> accept(items[i])
      modifies this, items
      ensures Valid() && log == Front(old(items), n) && items == NextRound(old(items), n)
      ensures forall i :: 0 <= i < |items| ==> items[i] in old(items)
    {
      hide Valid, Visits;
      AllCount(items, n, accept);
      if n < |items| { TurnedSame(items, n); }
      var code;
      code, log := Apply2(n, accept);
    }

    /** k such calls: call number c visits the first n items of the list as the calls before it left it. */
    method ApplyRounds(n: nat, k: nat, accept: HashItem -> bool) returns (logs: seq<seq<HashItem>>)
      requires Valid() && n > 0 && forall i :: 0 <= i < |items| ==> accept(items[i])
      modifies this, items
      ensures Valid() && items == After(old(items), n, k) && |logs| == k
      ensures forall c :: 0 <= c < k ==> logs[c] == Front(After(old(items), n, c), n)
    {
      hide Valid, Front, NextRound;
      logs := [];
      var c := 0;
      while c < k
        invariant c <= k && Valid() && items == After(old(items), n, c) && |logs| == c
        invariant forall i :: 0 <= i < |items| ==> accept(items[i]) && items[i] in old(items)
        invariant forall d :: 0 <= d < c ==> logs[d] == Front(After(old(items), n, d), n)
      {
        var log := ApplyRound(n, accept);
        logs, c := logs + [log], c + 1;
      }
    }
  }

  lemma TurnedNoTwice(s: seq<HashItem>, v: nat)
    requires v <= |s| && NoTwice(s)
    ensures NoTwice(Turned(s, v))
  {
  }

  lemma TurnedSame(s: seq<HashItem>, v: nat)
    requires v <= |s|
    ensures forall x :: x in Turned(s, v) <==> x in s
  {
    var r := Turned(s, v);
    forall x | x in s ensures x in r {
      var i :| 0 <= i < |s| && s[i] == x;
      assert r[if i >= v then i - v else i + |s| - v] == x;
    }
  }

  lemma IndexesTurned(m: map<Key, HashItem>, s: seq<HashItem>, repr: set<HashItem>, v: nat)
    requires v <= |s| && Indexes(m, s, repr)
    ensures |Turned(s, v)| == |s| && Indexes(m, Turned(s, v), repr)
  {
    TurnedSame(s, v);
    var r := Turned(s, v);
    forall k | 0 <= k < |r| ensures r[k].key in m && m[r[k].key] == r[k] {
      if k < |s| { TurnedNth(s, v, k); }
    }
  }

  lemma IndexesLess(m: map<Key, HashItem>, s: seq<HashItem>, repr: set<HashItem>, key: Key, i: nat)
    requires Indexes(m, s, repr) && NoTwice(s) && key in m && i < |s| && s[i] == m[key]
    ensures Indexes(m - {key}, Cut(s, i), repr - {m[key]})
  {
    hide *;
    IndexesIs(m, s, repr);
    FindsLess(m, s, key, i);
    LeadsLess(m, s, key, i);
    SameLess(m, s, repr, key, i);
    SmallerMap(m, key);
    CutLength(s, i);
    Indexed(m - {key}, Cut(s, i), repr - {m[key]});
  }

  lemma IndexesIs(m: map<Key, HashItem>, s: seq<HashItem>, repr: set<HashItem>)
    requires Indexes(m, s, repr)
    ensures Finds(m, s) && Leads(m, s) && |m| == |s|
    ensures (forall x :: x in s ==> x in repr) && (forall x :: x in repr ==> x in s)
  {
    hide Finds, Leads;
  }

  lemma SmallerMap(m: map<Key, HashItem>, key: Key)
    requires key in m
    ensures |m - {key}| == |m| - 1
  {
    assert m.Keys == (m - {key}).Keys + {key};
  }

  lemma Indexed(m: map<Key, HashItem>, s: seq<HashItem>, repr: set<HashItem>)
    requires Finds(m, s) && Leads(m, s) && |m| == |s|
    requires (forall x :: x in s ==> x in repr) && (forall x :: x in repr ==> x in s)
    ensures Indexes(m, s, repr)
  {
    hide Finds, Leads;
  }

  lemma FindsLess(m: map<Key, HashItem>, s: seq<HashItem>, key: Key, i: nat)
    requires Finds(m, s) && Leads(m, s) && NoTwice(s) && key in m && i < |s| && s[i] == m[key]
    ensures Finds(m - {key}, Cut(s, i))
  {
    var c := Cut(s, i);
    assert m[key].key == key;
    CutLength(s, i);
    hide Cut, NoTwice, Leads;
    forall k | 0 <= k < |c| ensures c[k].key in m - {key} && (m - {key})[c[k].key] == c[k] { CutFrom(s, i, k); }
  }

  lemma LeadsLess(m: map<Key, HashItem>, s: seq<HashItem>, key: Key, i: nat)
    requires Leads(m, s) && key in m && i < |s| && s[i] == m[key]
    ensures Leads(m - {key}, Cut(s, i))
  {
    hide Cut;
    forall k | k in m - {key} ensures (m - {key})[k] in Cut(s, i) && (m - {key})[k].key == k {
      assert m[k] in s && m[k].key == k;
      CutHas(s, i, m[k]);
    }
  }

  lemma SameLess(m: map<Key, HashItem>, s: seq<HashItem>, repr: set<HashItem>, key: Key, i: nat)
    requires NoTwice(s) && key in m && i < |s| && s[i] == m[key]
    requires (forall x :: x in s ==> x in repr) && (forall x :: x in repr ==> x in s)
    ensures forall x :: x in Cut(s, i) ==> x in repr - {m[key]}
    ensures forall x :: x in repr - {m[key]} ==> x in Cut(s, i)
  {
    CutNoTwice(s, i);
    forall x | x in Cut(s, i) ensures x in s { }
    hide Cut, NoTwice;
    forall x | x in repr - {m[key]} ensures x in Cut(s, i) { CutHas(s, i, x); }
  }

  lemma IndexesMore(m: map<Key, HashItem>, s: seq<HashItem>, repr: set<HashItem>, hi: HashItem)
    requires Indexes(m, s, repr) && hi.key !in m
    ensures hi !in repr && hi !in s && Indexes(m[hi.key := hi], s + [hi], repr + {hi})
  {
    FindsMore(m, s, hi);
    LeadsMore(m, s, hi);
    assert m[hi.key := hi].Keys == m.Keys + {hi.key};
    var t := s + [hi];
    forall x | x in repr + {hi} ensures x in t { if x == hi { assert t[|s|] == hi; } }
  }

  lemma FindsMore(m: map<Key, HashItem>, s: seq<HashItem>, hi: HashItem)
    requires Finds(m, s) && hi.key !in m
    ensures Finds(m[hi.key := hi], s + [hi])
  {
  }

  lemma LeadsMore(m: map<Key, HashItem>, s: seq<HashItem>, hi: HashItem)
    requires Leads(m, s) && hi.key !in m
    ensures Leads(m[hi.key := hi], s + [hi])
  {
    var n, t := m[hi.key := hi], s + [hi];
    forall k | k in n ensures n[k] in t && n[k].key == k {
      if k == hi.key { assert t[|s|] == hi; } else { assert m[k] in s; }
    }
  }

  ghost predicate Apart(a: seq<HashItem>, b: seq<HashItem>) { forall k :: 0 <= k < |a| ==> a[k] !in b }

  /** Taking an item off chain number b leaves the other chains alone. */
  method UnchainFrom(before: HashItem?, item: HashItem, first: HashItem?, ghost c: seq<seq<HashItem>>, ghost p: seq<HashItem?>,
                     ghost b: nat, ghost j: nat) returns (f: HashItem?)
    requires |c| == |p| && b < |p| && p[b] == first && (forall i :: 0 <= i < |p| ==> Chain(c[i], p[i]))
    requires NoTwice(c[b]) && j < |c[b]| && item == c[b][j] && before == Nth(c[b], j - 1)
    requires forall i :: 0 <= i < |p| && i != b ==> Apart(c[i], c[b])
    modifies c[b]`hNext
    ensures Chain(Cut(c[b], j), f) && item.hNext == null
    ensures forall i :: 0 <= i < |p| && i != b ==> Chain(c[i], p[i])
  {
    hide Cut, NoTwice;
    f := Unchain(before, item, first, c[b], j);
  }

  lemma BucketCount(m: map<Key, HashItem>, chains: seq<seq<HashItem>>)
    requires AllBuckets(m, chains)
    ensures |chains| == BUCKETS
  {
  }

  /** A new item in front of chain number b leaves the other chains alone. */
  method PushChain(hi: HashItem, first: HashItem?, ghost c: seq<seq<HashItem>>, ghost p: seq<HashItem?>, ghost b: nat)
    requires |c| == |p| && b < |c| && p[b] == first && forall i :: 0 <= i < |c| ==> Chain(c[i], p[i]) && Apart(c[i], [hi])
    modifies hi`hNext
    ensures Chain([hi] + c[b], hi)
    ensures forall i :: 0 <= i < |c| ==> Chain(c[i], p[i])
  {
    Push(hi, first, c[b]);
  }

  lemma BucketsMore(m: map<Key, HashItem>, chains: seq<seq<HashItem>>, hi: HashItem)
    requires AllBuckets(m, chains) && hi.key !in m
    ensures var b := Bucket(hi.key); AllBuckets(m[hi.key := hi], chains[b := [hi] + chains[b]])
  {
    var b, n := Bucket(hi.key), m[hi.key := hi];
    var d := chains[b := [hi] + chains[b]];
    hide Bucket, InBucket;
    forall i | 0 <= i < BUCKETS ensures InBucket(n, d[i], i) {
      assert InBucket(m, chains[i], i);
      if i == b { BucketMore(m, chains[b], hi); } else { OtherBucket(m, chains[i], i, hi); }
    }
  }

  lemma BucketMore(m: map<Key, HashItem>, c: seq<HashItem>, hi: HashItem)
    requires InBucket(m, c, Bucket(hi.key)) && hi.key !in m
    ensures InBucket(m[hi.key := hi], [hi] + c, Bucket(hi.key))
  {
    hide Bucket;
    var d, n := [hi] + c, m[hi.key := hi];
    forall i | 0 <= i < |d| ensures Bucket(d[i].key) == Bucket(hi.key) && d[i].key in n && n[d[i].key] == d[i] {
      if i > 0 { assert d[i] == c[i - 1]; }
    }
    forall k | k in n && Bucket(k) == Bucket(hi.key) ensures n[k] in d && n[k].key == k {
      if k == hi.key { assert d[0] == hi; } else { assert m[k] in c; }
    }
  }

  lemma OtherBucket(m: map<Key, HashItem>, c: seq<HashItem>, b: nat, hi: HashItem)
    requires InBucket(m, c, b) && hi.key !in m && Bucket(hi.key) != b
    ensures InBucket(m[hi.key := hi], c, b)
  {
    hide Bucket;
  }

  lemma FoundInChain(m: map<Key, HashItem>, c: seq<HashItem>, key: Key, j: nat)
    requires InBucket(m, c, Bucket(key)) && j <= |c| && forall i :: 0 <= i < j ==> c[i].key != key
    requires j < |c| ==> c[j].key == key
    ensures if j < |c| then key in m && m[key] == c[j] else key !in m
  {
    hide Bucket;
  }

  lemma BucketsLess(m: map<Key, HashItem>, chains: seq<seq<HashItem>>, key: Key, j: nat)
    requires AllBuckets(m, chains) && key in m && j < |chains[Bucket(key)]| && chains[Bucket(key)][j] == m[key]
    requires m[key].key == key
    ensures var b := Bucket(key); AllBuckets(m - {key}, chains[b := Cut(chains[b], j)])
  {
    var b, n := Bucket(key), m - {key};
    var d := chains[b := Cut(chains[b], j)];
    hide Bucket, InBucket, Cut;
    forall i | 0 <= i < BUCKETS ensures InBucket(n, d[i], i) {
      assert InBucket(m, chains[i], i);
      if i == b { BucketLess(m, chains[b], key, j); } else { OtherBucketLess(m, chains[i], i, key); }
    }
  }

  lemma ChainsApart(m: map<Key, HashItem>, chains: seq<seq<HashItem>>, b: nat)
    requires AllBuckets(m, chains) && b < BUCKETS
    ensures forall i :: 0 <= i < BUCKETS && i != b ==> Apart(chains[i], chains[b])
  {
    hide Bucket;
    forall i | 0 <= i < BUCKETS && i != b ensures Apart(chains[i], chains[b]) {
      assert InBucket(m, chains[i], i) && InBucket(m, chains[b], b);
    }
  }

  lemma NoTwiceIn(m: map<Key, HashItem>, chains: seq<seq<HashItem>>, b: nat)
    requires AllBuckets(m, chains) && b < BUCKETS
    ensures NoTwice(chains[b])
  {
    assert InBucket(m, chains[b], b);
  }

  lemma CutHas(c: seq<HashItem>, j: nat, x: HashItem)
    requires j < |c| && x in c && x != c[j]
    ensures x in Cut(c, j)
  {
    var i :| 0 <= i < |c| && c[i] == x;
    assert Cut(c, j)[if i < j then i else i - 1] == x;
  }

  lemma CutInside(c: seq<HashItem>, j: nat, repr: set<HashItem>)
    requires j < |c| && Inside(c, repr)
    ensures Inside(Cut(c, j), repr)
  {
  }

  lemma CutFrom(c: seq<HashItem>, j: nat, i: nat)
    requires NoTwice(c) && j < |c| && i < |Cut(c, j)|
    ensures Cut(c, j)[i] in c && Cut(c, j)[i] != c[j]
  {
    CutAt(c, j, i);
  }

  lemma BucketLess(m: map<Key, HashItem>, c: seq<HashItem>, key: Key, j: nat)
    requires InBucket(m, c, Bucket(key)) && j < |c| && key in m && c[j] == m[key] && m[key].key == key
    ensures InBucket(m - {key}, Cut(c, j), Bucket(key))
  {
    var b := Bucket(key);
    hide Bucket, Cut;
    CutNoTwice(c, j);
    var d, n := Cut(c, j), m - {key};
    forall i | 0 <= i < |d| ensures Bucket(d[i].key) == b && d[i].key in n && n[d[i].key] == d[i] { CutFrom(c, j, i); }
    forall k | k in n && Bucket(k) == b ensures n[k] in d && n[k].key == k {
      CutHas(c, j, m[k]);
    }
  }

  lemma OtherBucketLess(m: map<Key, HashItem>, c: seq<HashItem>, b: nat, key: Key)
    requires InBucket(m, c, b) && Bucket(key) != b
    ensures InBucket(m - {key}, c, b)
  {
    hide Bucket;
  }

  /** What the search of the right chain means for the map. */
  lemma FoundInBucket(m: map<Key, HashItem>, c: seq<HashItem>, key: Key, hi: HashItem?)
    requires InBucket(m, c, Bucket(key))
    requires hi != null ==> hi in c && hi.key == key
    requires hi == null ==> forall i :: 0 <= i < |c| ==> c[i].key != key
    ensures if hi != null then key in m && m[key] == hi else key !in m
  {
    hide Bucket;
  }

  // ---- runs of hashtable_apply2 ---------------------------------------------------------------------------

  /** The list after a call that visits n items. */
  function NextRound(s: seq<HashItem>, n: nat): (r: seq<HashItem>)
    ensures |r| == |s|
  {
    if n < |s| then Turned(s, n) else s
  }

  /** The list after k calls with n, when every callback counts. */
  function After(s: seq<HashItem>, n: nat, k: nat): (r: seq<HashItem>)
    ensures |r| == |s|
  {
    if k == 0 then s else NextRound(After(s, n, k - 1), n)
  }

  function Front(s: seq<HashItem>, n: nat): seq<HashItem> { if n < |s| then s[..n] else s }

  lemma AllCount(s: seq<HashItem>, n: nat, accept: HashItem -> bool)
    requires forall i :: 0 <= i < |s| ==> accept(s[i])
    ensures Visits(s, n, accept) == if n < |s| then n else |s|
  {
    if s != [] && n > 0 {
      var r := s[1..];
      assert forall i :: 0 <= i < |r| ==> r[i] == s[i + 1];
      AllCount(r, n - 1, accept);
    }
  }

  /** After k calls the list starts k * n places further round. */
  lemma {:induction false} AfterTurns(s: seq<HashItem>, n: nat, k: nat, j: nat)
    requires 0 < n <= |s| && j < |s|
    ensures After(s, n, k)[j] == s[(k * n + j) % |s|]
  {
    var m := |s|;
    if k > 0 {
      var o := if n < m then Origin(j, n, m) else j;
      var t := After(s, n, k - 1);
      if n < m { TurnedNth(t, n, j); }
      AfterTurns(s, n, k - 1, o);
      TurnIndex(k, n, j, m);
    } else {
      assert (0 * n + j) % m == j;
    }
  }

  lemma TurnIndex(k: nat, n: nat, j: nat, m: nat)
    requires k > 0 && 0 < n <= m && j < m
    ensures var o := if n < m then Origin(j, n, m) else j; o >= 0 && ((k - 1) * n + o) % m == (k * n + j) % m
  {
    var o := if n < m then Origin(j, n, m) else j;
    var x := (k - 1) * n + o;
    assert k * n == (k - 1) * n + n;
    if o == j + n { assert k * n + j == x; } else {
      assert k * n + j == x + m;
      Wraps(x, m);
    }
  }

  lemma Wraps(x: nat, m: nat)
    requires m > 0
    ensures (x + m) % m == x % m
  {
    ModAdd(x, 1, m);
  }

  /** Successive calls visit the items in cyclic order: place j of call number k is item k * n + j,
      counted round the list. */
  lemma CyclicOrder(s: seq<HashItem>, n: nat, k: nat, j: nat)
    requires 0 < n <= |s| && j < n
    ensures var v := Front(After(s, n, k), n); |v| == n && v[j] == s[(k * n + j) % |s|]
  {
    AfterTurns(s, n, k, j);
  }

  /** Every item is visited within the first ceil(size / n) calls. */
  lemma Coverage(s: seq<HashItem>, n: nat, i: nat)
    requires 0 < n <= |s| && i < |s|
    ensures var k := i / n; k < (|s| + n - 1) / n && s[i] in Front(After(s, n, k), n)
  {
    var k, j := i / n, i % n;
    assert k * n + j == i;
    hide After, Front;
    CyclicOrder(s, n, k, j);
    ModIs(i, |s|, 0, i);
    InTime(i, n, |s|);
  }

  lemma InTime(i: nat, n: nat, m: nat)
    requires n > 0 && i < m
    ensures i / n < (m + n - 1) / n
  {
    var q, p := i / n, (m + n - 1) / n;
    assert i == q * n + i % n && m + n - 1 == p * n + (m + n - 1) % n;
    if p < q {
      MulMono(p, q, n);
    }
  }
}
