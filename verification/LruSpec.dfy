/** What the cache of resource_cache/resource_cache.h is meant to hold: the most recently set keys. */
module LruSpec {
  import opened Basics

  /** One Set: key, resource (a null pointer is None) and time, in clock ticks. */
  datatype Entry<T> = Entry(key: string, res: Option<T>, time: nat)

  const TICKS_PER_SECOND: nat := 1_000_000_000

  predicate Has<T>(s: seq<Entry<T>>, key: string) { exists i :: 0 <= i < |s| && s[i].key == key }

  /** s without the entries of a key. */
  function Without<T>(s: seq<Entry<T>>, key: string): (r: seq<Entry<T>>)
    ensures |r| <= |s| && !Has(r, key)
    ensures forall i :: 0 <= i < |r| ==> r[i] in s
  {
    if s == [] then [] else if s[0].key == key then Without(s[1..], key) else [s[0]] + Without(s[1..], key)
  }

  /** Keys from head to rear after a Set. */
  function AfterSet<T>(s: seq<Entry<T>>, capacity: nat, e: Entry<T>): seq<Entry<T>>
    requires capacity > 0
  {
    if Has(s, e.key) then [e] + Without(s, e.key)
    else if |s| == capacity then [e] + s[..|s| - 1]
    else [e] + s
  }

  /** The cache after a trace of Sets. */
  function Cached<T>(trace: seq<Entry<T>>, capacity: nat): seq<Entry<T>>
    requires capacity > 0
  {
    if trace == [] then [] else AfterSet(Cached(trace[..|trace| - 1], capacity), capacity, trace[|trace| - 1])
  }

  function Reverse<T>(s: seq<T>): (r: seq<T>)
    ensures |r| == |s| && forall i :: 0 <= i < |s| ==> r[i] == s[|s| - 1 - i]
  {
    if s == [] then [] else Reverse(s[1..]) + [s[0]]
  }

  /** The first entry of every key. */
  function Distinct<T>(s: seq<Entry<T>>): (r: seq<Entry<T>>)
    decreases |s|
  {
    if s == [] then [] else [s[0]] + Distinct(Without(s[1..], s[0].key))
  }

  function Take<T>(s: seq<T>, n: nat): seq<T> { if n < |s| then s[..n] else s }

  // ---- the stack property ---------------------------------------------------------------------------------

  lemma {:induction false} WithoutWithout<T>(s: seq<Entry<T>>, a: string, b: string)
    ensures Without(Without(s, a), b) == Without(Without(s, b), a)
  {
    if s != [] {
      WithoutWithout(s[1..], a, b);
      WithoutHead(s[0], s[1..], a);
      WithoutHead(s[0], s[1..], b);
      WithoutHead(s[0], Without(s[1..], a), b);
      WithoutHead(s[0], Without(s[1..], b), a);
      assert s == [s[0]] + s[1..];
    }
  }

  lemma WithoutHead<T>(e: Entry<T>, s: seq<Entry<T>>, key: string)
    ensures Without([e] + s, key) == if e.key == key then Without(s, key) else [e] + Without(s, key)
  {
    assert ([e] + s)[1..] == s;
  }

  lemma {:induction false} WithoutIdle<T>(s: seq<Entry<T>>, key: string)
    requires !Has(s, key)
    ensures Without(s, key) == s
  {
    if s != [] {
      assert s[0].key != key;
      var t := s[1..];
      assert !Has(t, key) by {
        forall i | 0 <= i < |t| ensures t[i].key != key { assert s[i + 1].key != key; }
      }
      hide Has;
      WithoutIdle(t, key);
      assert s == [s[0]] + t;
    }
  }

  lemma {:induction false} DistinctWithout<T>(s: seq<Entry<T>>, key: string)
    ensures Distinct(Without(s, key)) == Without(Distinct(s), key)
    decreases |s|
  {
    if s != [] {
      var e, t := s[0], s[1..];
      WithoutHead(e, Distinct(Without(t, e.key)), key);
      DistinctWithout(Without(t, e.key), key);
      WithoutWithout(t, e.key, key);
      if e.key == key {
        WithoutIdle(Without(t, key), key);
        DistinctWithout(t, key);
        assert Without(Without(t, key), key) == Without(t, key);
      } else {
        assert ([e] + Without(t, key))[1..] == Without(t, key);
      }
    }
  }

  predicate Unique<T>(s: seq<Entry<T>>) { forall i, j :: 0 <= i < j < |s| ==> s[i].key != s[j].key }

  lemma {:induction false} WithoutConcat<T>(a: seq<Entry<T>>, b: seq<Entry<T>>, key: string)
    ensures Without(a + b, key) == Without(a, key) + Without(b, key)
  {
    if a == [] {
      assert a + b == b;
    } else {
      assert (a + b)[1..] == a[1..] + b;
      WithoutConcat(a[1..], b, key);
    }
  }

  lemma {:induction false} WithoutOne<T>(s: seq<Entry<T>>, key: string)
    requires Unique(s) && Has(s, key)
    ensures |Without(s, key)| == |s| - 1
  {
    if s[0].key == key {
      forall i | 0 <= i < |s[1..]| ensures s[1..][i].key != key { assert s[i + 1].key != s[0].key; }
      WithoutIdle(s[1..], key);
    } else {
      var i :| 0 <= i < |s| && s[i].key == key;
      assert s[1..][i - 1].key == key;
      WithoutOne(s[1..], key);
    }
  }

  lemma {:induction false} DistinctUnique<T>(s: seq<Entry<T>>)
    ensures Unique(Distinct(s))
    decreases |s|
  {
    if s != [] {
      var t := Without(s[1..], s[0].key);
      DistinctUnique(t);
      DistinctWithout(s[1..], s[0].key);
      assert !Has(Distinct(t), s[0].key);
    }
  }

  lemma Missing<T>(a: seq<Entry<T>>, b: seq<Entry<T>>, key: string)
    requires Unique(a + b) && Has(a, key)
    ensures !Has(b, key)
  {
    var i :| 0 <= i < |a| && a[i].key == key;
    forall j | 0 <= j < |b| ensures b[j].key != key {
      assert (a + b)[i].key == key && (a + b)[|a| + j] == b[j];
    }
  }

  lemma TakeFound<T>(e: T, w: seq<T>, c: seq<T>, rest: seq<T>, capacity: nat)
    requires c == Take(c + rest, capacity) && |w| == |c| - 1
    ensures Take([e] + (w + rest), capacity) == [e] + w
  {
    if |c| < |c + rest| { assert ([e] + (w + rest))[..capacity] == [e] + w; } else { assert rest == [] && w + rest == w; }
  }

  lemma TakeNew<T>(e: T, c: seq<T>, rest: seq<T>, r: seq<T>, capacity: nat)
    requires c == Take(c + rest, capacity) && capacity > 0 && |r| <= |rest|
    ensures Take([e] + (c + r), capacity) == if |c| == capacity then [e] + c[..|c| - 1] else [e] + c
  {
    if |c| == capacity {
      assert ([e] + (c + r))[..capacity] == [e] + c[..capacity - 1];
    } else {
      assert rest == [] && c + r == c;
    }
  }

  /** One Set on the most recent `capacity` of the entries d. */
  lemma SetOnTake<T>(d: seq<Entry<T>>, capacity: nat, e: Entry<T>)
    requires capacity > 0 && Unique(d)
    ensures AfterSet(Take(d, capacity), capacity, e) == Take([e] + Without(d, e.key), capacity)
  {
    hide Without, Has, Take, Unique;
    var c := Take(d, capacity);
    TakeIs(d, capacity);
    var rest := d[|c|..];
    WithoutConcat(c, rest, e.key);
    if Has(c, e.key) {
      WithoutOne(c, e.key);
      Missing(c, rest, e.key);
      WithoutIdle(rest, e.key);
      TakeFound(e, Without(c, e.key), c, rest, capacity);
    } else {
      WithoutIdle(c, e.key);
      TakeNew(e, c, rest, Without(rest, e.key), capacity);
    }
  }

  lemma TakeIs<T>(d: seq<Entry<T>>, capacity: nat)
    ensures var c := Take(d, capacity); |c| <= |d| && d == c + d[|c|..] && (Unique(d) ==> Unique(c))
  {
  }

  /** The stack property: the cache holds exactly the first `capacity` distinct keys of the reversed
      trace, in that order, each with its last resource and time. */
  lemma {:induction false} StackProperty<T>(trace: seq<Entry<T>>, capacity: nat)
    requires capacity > 0
    ensures Cached(trace, capacity) == Take(Distinct(Reverse(trace)), capacity)
  {
    if trace != [] {
      var t, e := trace[..|trace| - 1], trace[|trace| - 1];
      StackProperty(t, capacity);
      var d := Distinct(Reverse(t));
      DistinctUnique(Reverse(t));
      SetOnTake(d, capacity, e);
      assert Reverse(trace) == [e] + Reverse(t);
      assert ([e] + Reverse(t))[1..] == Reverse(t);
      DistinctWithout(Reverse(t), e.key);
    }
  }

  /** A larger cache holds everything a smaller one does, in the same order. */
  lemma Inclusion<T>(trace: seq<Entry<T>>, small: nat, large: nat)
    requires 0 < small <= large
    ensures Cached(trace, small) <= Cached(trace, large)
  {
    StackProperty(trace, small);
    StackProperty(trace, large);
  }

  // ---- Get -------------------------------------------------------------------------------------------------------

  /** Whole seconds between two times, cut off towards zero. */
  function Seconds(from: nat, to: nat): int {
    if to >= from then (to - from) / TICKS_PER_SECOND else -((from - to) / TICKS_PER_SECOND)
  }

  /** What Get returns at time `now`. */
  function Got<T>(s: seq<Entry<T>>, key: string, expire: int, now: nat): Option<T> {
    if s == [] then None
    else if s[0].key == key then if Seconds(s[0].time, now) < expire then s[0].res else None
    else Got(s[1..], key, expire, now)
  }

  lemma {:induction false} GotAt<T>(s: seq<Entry<T>>, n: nat, expire: int, now: nat)
    requires n < |s| && forall m :: 0 <= m < n ==> s[m].key != s[n].key
    ensures Got(s, s[n].key, expire, now) == if Seconds(s[n].time, now) < expire then s[n].res else None
  {
    hide Seconds;
    if n > 0 {
      assert s[0].key != s[n].key && s[1..][n - 1] == s[n];
      forall m | 0 <= m < n - 1 ensures s[1..][m].key != s[n].key { assert s[m + 1].key != s[n].key; }
      GotAt(s[1..], n - 1, expire, now);
    }
  }

  lemma {:induction false} GotNothing<T>(s: seq<Entry<T>>, key: string, expire: int, now: nat)
    requires !Has(s, key)
    ensures Got(s, key, expire, now) == None
  {
    if s != [] {
      assert s[0].key != key;
      forall i | 0 <= i < |s[1..]| ensures s[1..][i].key != key { assert s[i + 1].key != key; }
      GotNothing(s[1..], key, expire, now);
    }
  }

  /** In a sequence where e's key is new, e stands behind the distinct entries before it. */
  lemma {:induction false} DistinctAt<T>(a: seq<Entry<T>>, e: Entry<T>, b: seq<Entry<T>>)
    requires !Has(a, e.key)
    ensures Distinct(a) + [e] <= Distinct(a + ([e] + b))
    decreases |a|
  {
    hide *;
    HeadOf(a, e, b);
    DistinctStep(a + ([e] + b));
    if a == [] {
      NothingDistinct<T>();
    } else {
      var x, t := a[0], a[1..];
      var t' := Without(t, x.key);
      NotInHead(a, e.key);
      WithoutConcat(t, [e] + b, x.key);
      WithoutHead(e, b, x.key);
      StillMissing(a, x.key, e.key);
      DistinctAt(t', e, Without(b, x.key));
      DistinctStep(a);
      PrefixGrows(x, Distinct(t'), e, Distinct(t' + ([e] + Without(b, x.key))));
    }
  }

  lemma HeadOf<T>(a: seq<T>, e: T, b: seq<T>)
    ensures var s := a + ([e] + b);
      s != [] && s[0] == (if a == [] then e else a[0]) && s[1..] == if a == [] then b else a[1..] + ([e] + b)
  {
  }

  lemma NothingDistinct<T>()
    ensures Distinct<T>([]) == []
  {
  }

  lemma PrefixGrows<T>(x: T, p: seq<T>, e: T, q: seq<T>)
    requires p + [e] <= q
    ensures ([x] + p) + [e] <= [x] + q
  {
    assert ([x] + p) + [e] == [x] + (p + [e]);
  }

  lemma NotInHead<T>(a: seq<Entry<T>>, key: string)
    requires a != [] && !Has(a, key)
    ensures a[0].key != key
  {
  }

  lemma DistinctStep<T>(s: seq<Entry<T>>)
    requires s != []
    ensures Distinct(s) == [s[0]] + Distinct(Without(s[1..], s[0].key))
  {
  }

  lemma StillMissing<T>(a: seq<Entry<T>>, x: string, key: string)
    requires a != [] && !Has(a, key)
    ensures !Has(Without(a[1..], x), key) && |Without(a[1..], x)| < |a|
  {
    var w := Without(a[1..], x);
    forall i | 0 <= i < |w| ensures w[i].key != key {
      assert w[i] in a[1..];
      var j :| 0 <= j < |a[1..]| && a[1..][j] == w[i];
      assert a[j + 1].key != key;
    }
  }

  lemma {:induction false} ReverseConcat<T>(a: seq<T>, b: seq<T>)
    ensures Reverse(a + b) == Reverse(b) + Reverse(a)
  {
  }

  /** Entry number i of the trace is the last one for its key. */
  predicate LastFor<T>(trace: seq<Entry<T>>, i: nat) {
    i < |trace| && forall j :: i < j < |trace| ==> trace[j].key != trace[i].key
  }

  /** How many keys have been set since entry i. */
  function Newer<T>(trace: seq<Entry<T>>, i: nat): nat
    requires i < |trace|
  {
    |Distinct(Reverse(trace[i + 1..]))|
  }

  lemma LastEntry<T>(trace: seq<Entry<T>>, i: nat)
    requires LastFor(trace, i)
    ensures var d := Distinct(Reverse(trace)); Newer(trace, i) < |d| && d[Newer(trace, i)] == trace[i]
  {
    var a, e, b := Reverse(trace[i + 1..]), trace[i], Reverse(trace[..i]);
    assert trace == (trace[..i] + [e]) + trace[i + 1..];
    ReverseConcat(trace[..i] + [e], trace[i + 1..]);
    ReverseConcat(trace[..i], [e]);
    assert Reverse([e]) == [e];
    DistinctAt(a, e, b);
  }

  /** Younger than `expire` seconds of 10^9 ticks; if the clock was put back, by how much decides. */
  predicate Young(time: nat, expire: int, now: nat) {
    if now >= time then now - time < expire * 1_000_000_000 else time - now >= (1 - expire) * 1_000_000_000
  }

  lemma QuotientBelow(d: nat, e: int)
    ensures d / 1_000_000_000 < e <==> d < e * 1_000_000_000
  {
  }

  lemma YoungExactly(time: nat, expire: int, now: nat)
    ensures Seconds(time, now) < expire <==> Young(time, expire, now)
  {
    if now >= time { QuotientBelow(now - time, expire); } else { QuotientBelow(time - now, 1 - expire); }
  }

  /** Get returns the last resource set for the key exactly if fewer than `capacity` other keys have
      been set since, and the resource is younger than `expire` seconds. */
  lemma GetExactly<T>(trace: seq<Entry<T>>, capacity: nat, i: nat, expire: int, now: nat)
    requires capacity > 0 && LastFor(trace, i)
    ensures Got(Cached(trace, capacity), trace[i].key, expire, now) ==
            if Newer(trace, i) < capacity && Young(trace[i].time, expire, now) then trace[i].res else None
  {
    YoungExactly(trace[i].time, expire, now);
    StackProperty(trace, capacity);
    LastEntry(trace, i);
    var d, n := Distinct(Reverse(trace)), Newer(trace, i);
    DistinctUnique(Reverse(trace));
    hide Distinct, Seconds, Young, Newer, LastFor;
    var c := Take(d, capacity);
    if n < capacity {
      forall m | 0 <= m < n ensures c[m].key != c[n].key { assert d[m].key != d[n].key; }
      GotAt(c, n, expire, now);
    } else {
      forall m | 0 <= m < |c| ensures c[m].key != trace[i].key { assert d[m].key != d[n].key; }
      GotNothing(c, trace[i].key, expire, now);
    }
  }

  /** A key that was never set is not found. */
  lemma GetUnset<T>(trace: seq<Entry<T>>, capacity: nat, key: string, expire: int, now: nat)
    requires capacity > 0 && !Has(trace, key)
    ensures Got(Cached(trace, capacity), key, expire, now) == None
  {
    StackProperty(trace, capacity);
    OnlyFromTrace(Reverse(trace));
    var c := Cached(trace, capacity);
    forall m | 0 <= m < |c| ensures c[m].key != key {
      assert c[m] in Reverse(trace);
      var j :| 0 <= j < |trace| && Reverse(trace)[j] == c[m];
      assert trace[|trace| - 1 - j].key != key;
    }
    GotNothing(c, key, expire, now);
  }

  lemma {:induction false} OnlyFromTrace<T>(s: seq<Entry<T>>)
    ensures forall i :: 0 <= i < |Distinct(s)| ==> Distinct(s)[i] in s
    decreases |s|
  {
    if s != [] {
      var t := Without(s[1..], s[0].key);
      OnlyFromTrace(t);
      forall i | 0 <= i < |Distinct(s)| ensures Distinct(s)[i] in s {
        if i > 0 {
          assert Distinct(s)[i] == Distinct(t)[i - 1];
          assert Distinct(s)[i] in s[1..];
        }
      }
    }
  }
}
