/** The timer list of ae/ae.c as it runs: new timers at the head, deletion in place, and a pass that
    restarts from the head after every callback. */
module Timers {
  import opened Basics
  import opened TimerSpec

  class TimeEvent {
    const id: int
    var when: Time
    var next: TimeEvent?

    constructor (id: int, when: Time, next: TimeEvent?)
      ensures this.id == id && this.when == when && this.next == next
    {
      this.id, this.when, this.next := id, when, next;
    }
  }

  ghost function Nth(s: seq<TimeEvent>, i: int): TimeEvent? { if 0 <= i < |s| then s[i] else null }

  ghost predicate Chain(s: seq<TimeEvent>, head: TimeEvent?)
    reads s`next
  {
    head == Nth(s, 0) && forall i :: 0 <= i < |s| ==> s[i].next == Nth(s, i + 1)
  }

  ghost function TimersOf(s: seq<TimeEvent>): (r: seq<Timer>)
    reads s`when
    ensures |r| == |s| && forall i :: 0 <= i < |s| ==> r[i] == Timer(s[i].id, s[i].when)
  {
    if s == [] then [] else [Timer(s[0].id, s[0].when)] + TimersOf(s[1..])
  }

  lemma ChainNext(s: seq<TimeEvent>, head: TimeEvent?, i: nat)
    requires Chain(s, head) && i < |s|
    ensures s[i].next == Nth(s, i + 1)
  {
  }

  // ---- deletion -----------------------------------------------------------------------------------------

  /** The search of aeDeleteTimeEvent. */
  method Search(head: TimeEvent?, id: int, ghost s: seq<TimeEvent>) returns (prev: TimeEvent?, te: TimeEvent?, ghost j: nat)
    requires Chain(s, head)
    ensures j <= |s| && te == Nth(s, j) && prev == Nth(s, j - 1)
    ensures (te != null ==> te.id == id) && forall i :: 0 <= i < j ==> s[i].id != id
  {
    prev, te, j := null, head, 0;
    hide Chain;
    while te != null && te.id != id
      invariant j <= |s| && te == Nth(s, j) && prev == Nth(s, j - 1)
      invariant forall i :: 0 <= i < j ==> s[i].id != id
      decreases |s| - j
    {
      ChainNext(s, head, j);
      prev, te, j := te, te.next, j + 1;
    }
  }

  /** Item number j is taken out of the chain. */
  method Unlink(prev: TimeEvent?, te: TimeEvent, head: TimeEvent?, ghost s: seq<TimeEvent>, ghost j: nat) returns (h: TimeEvent?)
    requires Chain(s, head) && NoTwice(s) && j < |s| && te == s[j] && prev == Nth(s, j - 1)
    modifies s`next
    ensures Chain(Cut(s, j), h) && TimersOf(Cut(s, j)) == old(TimersOf(Cut(s, j)))
  {
    hide TimersOf, PointsOver, Nth, Chain, NoTwice;
    h := PointPast(prev, te, head, s, j);
    CutChain(s, j, h);
  }

  method PointPast(prev: TimeEvent?, te: TimeEvent, head: TimeEvent?, ghost s: seq<TimeEvent>, ghost j: nat)
    returns (h: TimeEvent?)
    requires Chain(s, head) && NoTwice(s) && j < |s| && te == s[j] && prev == Nth(s, j - 1)
    modifies s`next
    ensures PointsOver(s, j) && h == Nth(s, if j == 0 then 1 else 0)
  {
    h := head;
    if prev == null { h := te.next; } else { prev.next := te.next; }
  }

  /** Every item but number j points past it. */
  ghost predicate PointsOver(s: seq<TimeEvent>, j: nat)
    reads s`next
  {
    forall i :: 0 <= i < |s| && i != j ==> s[i].next == Nth(s, if i == j - 1 then j + 1 else i + 1)
  }

  lemma CutChain(s: seq<TimeEvent>, j: nat, h: TimeEvent?)
    requires j < |s| && h == Nth(s, if j == 0 then 1 else 0) && PointsOver(s, j)
    ensures Chain(Cut(s, j), h)
  {
    hide Cut, PointsOver, Nth;
    var c := Cut(s, j);
    CutNth(s, j, 0);
    forall i | 0 <= i < |c| ensures c[i].next == Nth(c, i + 1) { CutNext(s, j, i); }
  }

  lemma CutNext(s: seq<TimeEvent>, j: nat, i: nat)
    requires j < |s| && PointsOver(s, j) && i < |Cut(s, j)|
    ensures Cut(s, j)[i].next == Nth(Cut(s, j), i + 1)
  {
    hide Cut;
    CutLength(s, j);
    CutNth(s, j, i);
    CutNth(s, j, i + 1);
  }

  method SetWhen(te: TimeEvent, w: Time, ghost s: seq<TimeEvent>, ghost i: nat)
    requires NoTwice(s) && i < |s| && te == s[i]
    modifies te`when
    ensures TimersOf(s) == old(TimersOf(s))[i := Timer(te.id, w)]
  {
    te.when := w;
    assert forall k :: 0 <= k < |s| && k != i ==> s[k] != te;
  }

  lemma CutNth(s: seq<TimeEvent>, i: nat, k: int)
    requires i < |s|
    ensures Nth(Cut(s, i), k) == Nth(s, if k < i then k else k + 1)
  {
  }

  lemma {:induction false} DropIsCut(r: seq<Timer>, id: int, j: nat)
    requires j <= |r| && (j < |r| ==> r[j].id == id) && forall i :: 0 <= i < j ==> r[i].id != id
    ensures Drop(r, id) == if j < |r| then Cut(r, j) else r
  {
    if r != [] {
      if j == 0 {
        assert Cut(r, 0) == r[1..];
      } else {
        assert r[0].id != id;
        var q := r[1..];
        forall i | 0 <= i < j - 1 ensures q[i].id != id { assert r[i + 1].id != id; }
        DropIsCut(q, id, j - 1);
        if j < |r| { assert Cut(r, j) == [r[0]] + Cut(q, j - 1); } else { assert r == [r[0]] + q; }
      }
    }
  }

  lemma TimersOfCut(s: seq<TimeEvent>, j: nat)
    requires j < |s|
    ensures TimersOf(Cut(s, j)) == Cut(TimersOf(s), j)
  {
    hide TimersOf, Cut;
    CutLength(s, j);
    CutLength(TimersOf(s), j);
    forall k | 0 <= k < |s| - 1 ensures TimersOf(Cut(s, j))[k] == Cut(TimersOf(s), j)[k] {
      CutAt(s, j, k);
      CutAt(TimersOf(s), j, k);
    }
  }

  // ---- the loop --------------------------------------------------------------------------------------------

  lemma NoneEarlier(s: seq<TimeEvent>, m: nat)
    requires Nearest(TimersOf(s), m)
    ensures forall t :: t in s ==> !Earlier(t.when, s[m].when)
  {
    hide Earlier;
    var ts := TimersOf(s);
    forall t | t in s ensures !Earlier(t.when, s[m].when) {
      var i :| 0 <= i < |s| && s[i] == t;
      assert ts[i].when == t.when && ts[m].when == s[m].when;
    }
  }

  class EventLoop {
    var head: TimeEvent?
    var nextId: int
    // the timers from the head on
    ghost var events: seq<TimeEvent>

    ghost predicate Valid()
      reads this, events`next, events`when
    {
      Chain(events, head) && NoTwice(events) && Sorted(TimersOf(events), nextId)
    }

    ghost function Now(): TimerSpec.Loop
      reads this, events`when
    {
      TimerSpec.Loop(TimersOf(events), nextId)
    }

    constructor ()
      ensures Valid() && Now() == TimerSpec.Loop([], 0)
    {
      head, nextId, events := null, 0, [];
    }

    method SetEvents(h: TimeEvent?, n: int, ghost s: seq<TimeEvent>)
      requires Chain(s, h) && NoTwice(s) && Sorted(TimersOf(s), n)
      modifies this
      ensures Valid() && events == s && head == h && nextId == n && TimersOf(s) == old(TimersOf(s))
    {
      hide Chain, NoTwice, Sorted, TimersOf;
      head, nextId, events := h, n, s;
    }

    lemma Parts()
      requires Valid()
      ensures Chain(events, head) && NoTwice(events) && Sorted(TimersOf(events), nextId)
    {
    }

    /** aeCreateTimeEvent at clock time `now`. */
    method Create(now: Time, milliseconds: int) returns (id: int)
      requires Valid()
      modifies this
      ensures Valid() && events != [] && fresh(events[0]) && events[1..] == old(events)
      ensures id == old(nextId) && Now() == Apply(old(Now()), TimerSpec.Create(milliseconds), now)
    {
      hide Valid, Chain, NoTwice, Sorted, TimersOf, AddMs;
      Parts();
      id := nextId;
      var te := new TimeEvent(id, AddMs(now, milliseconds), head);
      NewFirst(te, events, head, nextId);
      SetEvents(te, nextId + 1, [te] + events);
    }

    /** The rest of aeDeleteTimeEvent when item number j has the id. */
    method TakeOut(prev: TimeEvent?, te: TimeEvent, ghost j: nat)
      requires Chain(events, head) && NoTwice(events) && j < |events| && te == events[j] && prev == Nth(events, j - 1)
      requires NoTwice(Without(events, j)) && Sorted(TimersOf(Without(events, j)), nextId)
      modifies this, events`next
      ensures Valid() && events == Without(old(events), j) && nextId == old(nextId)
      ensures TimersOf(events) == old(TimersOf(Without(events, j)))
    {
      hide Valid, Chain, NoTwice, Sorted, TimersOf, Cut, Nth;
      ghost var c := Cut(events, j);
      var h := Unlink(prev, te, head, events, j);
      SetEvents(h, nextId, c);
    }

    /** The search and the unlinking of aeDeleteTimeEvent. */
    method Take(id: int) returns (ok: bool)
      requires Valid()
      modifies this, events`next
      ensures Valid() && nextId == old(nextId) && forall i :: 0 <= i < |events| ==> events[i] in old(events)
      ensures forall i :: 0 <= i < |old(events)| && old(events)[i].id != id ==> old(events)[i] in events
      ensures TimersOf(events) == Drop(old(TimersOf(events)), id)
      ensures ok <==> !Absent(old(TimersOf(events)), id)
    {
      hide Valid, Chain, NoTwice, Sorted, TimersOf, Drop, Absent, Cut;
      Parts();
      var prev, te;
      ghost var j;
      prev, te, j := Search(head, id, events);
      ok := te != null;
      Deletion(events, id, nextId, j);
      if ok {
        TakeOut(prev, te, j);
      }
    }

    /** aeDeleteTimeEvent, at clock time `now`: the finalizer, which does `last`, runs with the timer off the list. */
    method Delete(id: int, last: seq<Edit>, now: Time) returns (ok: bool)
      requires Valid()
      modifies this, events`next
      ensures Valid() && Now() == Removed(old(Now()), id, last, now)
      ensures ok <==> !Absent(old(TimersOf(events)), id)
      ensures forall i :: 0 <= i < |events| ==> events[i] in old(events) || fresh(events[i])
    {
      hide Valid, Chain, NoTwice, Sorted, TimersOf, Drop, Absent, ApplyAll;
      NothingDropped(TimersOf(events), id);
      ok := Take(id);
      if ok { RunEdits(last, now); }
    }

    /** One call of a callback or finalizer, at clock time `now`. */
    method RunEdit(e: Edit, now: Time)
      requires Valid()
      modifies this, events`next
      ensures Valid() && Now() == Apply(old(Now()), e, now)
      ensures forall i :: 0 <= i < |events| ==> events[i] in old(events) || fresh(events[i])
      ensures forall i :: 0 <= i < |old(events)| && e != TimerSpec.Delete(old(events)[i].id) ==> old(events)[i] in events
    {
      hide Valid, Chain, NoTwice, Sorted, TimersOf, Drop, Absent, AddMs;
      match e {
        case Create(ms) => var _ := Create(now, ms);
        case Delete(id) => var _ := Take(id);
      }
    }

    /** The calls that a callback or finalizer makes. */
    method RunEdits(es: seq<Edit>, now: Time)
      requires Valid()
      modifies this, events`next
      ensures Valid() && Now() == ApplyAll(old(Now()), es, now)
      ensures forall i :: 0 <= i < |events| ==> events[i] in old(events) || fresh(events[i])
      ensures forall i :: 0 <= i < |old(events)| && TimerSpec.Delete(old(events)[i].id) !in es ==> old(events)[i] in events
    {
      hide *;
      ApplyNone(Now(), es, now);
      var k := 0;
      while k < |es|
        invariant k <= |es| && Valid() && Now() == ApplyAll(old(Now()), es[..k], now)
        invariant forall i :: 0 <= i < |events| ==> events[i] in old(events) || fresh(events[i])
        invariant forall i :: 0 <= i < |old(events)| && TimerSpec.Delete(old(events)[i].id) !in es[..k] ==> old(events)[i] in events
      {
        ApplyOneMore(old(Now()), es, k, now);
        assert es[..k + 1] == es[..k] + [es[k]];
        RunEdit(es[k], now);
        k := k + 1;
      }
      assert es[..k] == es;
    }

    // ---- a pass -----------------------------------------------------------------------------------------

    /** A timer that has fired is put off. */
    method PutOff(te: TimeEvent, w: Time, ghost i: nat)
      requires Valid() && i < |events| && te == events[i]
      modifies this, te`when
      ensures Valid() && events == old(events) && nextId == old(nextId)
      ensures TimersOf(events) == Reschedule(old(TimersOf(events)), te.id, w)
    {
      hide *;
      Parts();
      RescheduleAt(TimersOf(events), i, w, nextId);
      RescheduleKeeps(TimersOf(events), te.id, w, nextId);
      SetWhen(te, w, events, i);
      SetEvents(head, nextId, events);
    }

    /** The call of a timer's callback and what follows it. */
    method Fire(te: TimeEvent, r: Reply, now: Time, ghost i: nat)
      requires Valid() && i < |events| && te == events[i] && Decent(r, te.id)
      modifies this, events
      ensures Valid() && Now() == Fired(old(Now()), te.id, r, now)
      ensures forall k :: 0 <= k < |events| ==> events[k] in old(events) || fresh(events[k])
    {
      hide Valid, Chain, NoTwice, Sorted, TimersOf, Drop, Reschedule, ApplyAll, AddMs;
      RunEdits(r.edits, now);
      if r.ret != NO_MORE {
        assert old(events)[i] in events;
        ghost var k :| 0 <= k < |events| && events[k] == te;
        PutOff(te, AddMs(now, r.ret), k);
      } else {
        var _ := Delete(te.id, r.last, now);
      }
    }

    /** processTimeEvents, with the clock standing at `now` and the callbacks answering as `replies` says:
        it runs the pass, and `log` lists the timers it fired. */
    method ProcessTimeEvents(now: Time, replies: (nat, int) -> Reply) returns (processed: nat, ghost log: seq<int>)
      requires Valid() && ClockTime(now) && AllDecent(replies)
      modifies this, events
      ensures Valid() && processed == |log|
      ensures Sorted(old(TimersOf(events)), old(nextId))
      ensures (Now(), log) == Pass(old(Now()), old(nextId) - 1, now, 0, replies)
    {
      hide *;
      Parts();
      Standing();
      var maxId := nextId - 1;
      ghost var l := Now();
      ghost var whole := Pass(l, maxId, now, 0, replies);
      var te := head;
      ghost var p := 0;
      processed, log := 0, [];
      AtHead();
      Begin(l, maxId, now, replies);
      while te != null
        invariant Valid() && te == Nth(events, p)
        invariant processed == |log| && OnTheWay(Now(), p, maxId, now, replies, log, whole)
        invariant forall k :: 0 <= k < |events| ==> events[k] in old(events) || fresh(events[k])
        decreases RipeIds(Now().timers, maxId, now), |Now().timers| - p
      {
        Here(te, p);
        if te.id > maxId || !Due(te.when, now) {
          PassOver(Now(), p, maxId, now, replies, log, whole);
          te := Advance(te, p);
          p := p + 1;
        } else {
          var id := te.id;
          FireNext(te, processed, now, maxId, replies, p, log, whole);
          processed, log, p := processed + 1, log + [id], 0;
          te := head;
          AtHead();
        }
      }
      AtEnd(p);
      NothingLeft(Now(), p, maxId, now, replies, log, whole);
    }

    method FireNext(te: TimeEvent, k: nat, now: Time, ghost maxId: int, replies: (nat, int) -> Reply, ghost p: nat,
                    ghost log: seq<int>, ghost whole: (TimerSpec.Loop, seq<int>))
      requires Valid() && p < |events| && te == events[p] && k == |log|
      requires |Now().timers| == |events| && Now().timers[p] == Timer(te.id, te.when)
      requires OnTheWay(Now(), p, maxId, now, replies, log, whole) && te.id <= maxId && Due(te.when, now)
      modifies this, events
      ensures Valid() && OnTheWay(Now(), 0, maxId, now, replies, log + [te.id], whole)
      ensures RipeIds(Now().timers, maxId, now) < RipeIds(old(Now()).timers, maxId, now)
      ensures forall k :: 0 <= k < |events| ==> events[k] in old(events) || fresh(events[k])
    {
      hide *;
      FiringStep(Now(), p, maxId, now, replies, log, whole);
      Fire(te, replies(k, te.id), now, p);
    }

    lemma Standing()
      requires Valid()
      ensures Now().timers == TimersOf(events) && Now().nextId == nextId
    {
    }

    lemma AtEnd(p: nat)
      requires Nth(events, p) == null
      ensures p >= |Now().timers|
    {
    }

    lemma Here(te: TimeEvent, p: nat)
      requires Valid() && te == Nth(events, p)
      ensures p < |events| && te == events[p]
      ensures |Now().timers| == |events| && Now().timers[p] == Timer(te.id, te.when)
    {
    }

    lemma AtHead()
      requires Valid()
      ensures head == Nth(events, 0)
    {
    }

    method Advance(te: TimeEvent, ghost p: nat) returns (next: TimeEvent?)
      requires Valid() && p < |events| && te == events[p]
      ensures next == Nth(events, p + 1)
      ensures Valid() && Now() == old(Now())
    {
      next := te.next;
    }

    // ---- the wait -----------------------------------------------------------------------------------------

    /** aeSearchNearestTimer: the earliest timer, of several the one nearest to the head. */
    method SearchNearestTimer() returns (nearest: TimeEvent?, ghost m: nat)
      requires Valid()
      ensures m <= |events| && nearest == Nth(events, m) && (m == |events| <==> events == [])
      ensures m < |events| ==> Nearest(TimersOf(events), m)
      ensures nearest == null <==> events == []
      ensures nearest != null ==> nearest in events && forall t :: t in events ==> !Earlier(t.when, nearest.when)
    {
      hide Valid, Chain, NoTwice, Sorted, TimersOf, Earlier;
      Parts();
      var te := head;
      ghost var j := 0;
      nearest, m := null, 0;
      AtHead();
      while te != null
        invariant j <= |events| && te == Nth(events, j)
        invariant if j == 0 then nearest == null && m == 0 else m < j && nearest == events[m] && NearestOf(TimersOf(events), m, j)
        decreases |events| - j
      {
        NearestGrows(TimersOf(events), m, j);
        if nearest == null || Earlier(te.when, nearest.when) { nearest, m := te, j; }
        ChainNext(events, head, j);
        te, j := te.next, j + 1;
      }
      if events != [] { NoneEarlier(events, m); }
    }

    /** The timeout of aeProcessEvents, none if it may block for ever. */
    method Timeout(timeEvents: bool, dontWait: bool, now: Time) returns (tv: Option<(int, int)>, ghost m: nat)
      requires Valid()
      ensures timeEvents && !dontWait && events != [] ==>
        m < |events| && Nearest(TimersOf(events), m) && tv == Some(Wait(TimersOf(events)[m].when, now))
      ensures !(timeEvents && !dontWait && events != []) ==> tv == if dontWait then Some((0, 0)) else None
    {
      hide Valid, Chain, NoTwice, Sorted, TimersOf, Nearest;
      var shortest := null;
      m := 0;
      if timeEvents && !dontWait { shortest, m := SearchNearestTimer(); }
      if shortest != null {
        var sec, usec := shortest.when.sec - now.sec, 0;
        if shortest.when.ms < now.ms {
          usec := (shortest.when.ms + 1000 - now.ms) * 1000;
          sec := sec - 1;
        } else {
          usec := (shortest.when.ms - now.ms) * 1000;
        }
        if sec < 0 { sec := 0; }
        if usec < 0 { usec := 0; }
        tv := Some((sec, usec));
      } else {
        tv := if dontWait then Some((0, 0)) else None;
      }
    }
  }

  lemma ApplyNone(l: TimerSpec.Loop, es: seq<Edit>, now: Time)
    ensures ApplyAll(l, es[..0], now) == l
  {
  }

  lemma ApplyOneMore(l: TimerSpec.Loop, es: seq<Edit>, k: nat, now: Time)
    requires k < |es|
    ensures ApplyAll(l, es[..k + 1], now) == Apply(ApplyAll(l, es[..k], now), es[k], now)
    ensures es[..k + 1] == es[..k] + [es[k]]
  {
    assert es[..k + 1][..k] == es[..k];
  }

  lemma NewFirst(te: TimeEvent, s: seq<TimeEvent>, head: TimeEvent?, n: int)
    requires Chain(s, head) && NoTwice(s) && Sorted(TimersOf(s), n) && te !in s && te.next == head && te.id == n
    ensures Chain([te] + s, te) && NoTwice([te] + s)
    ensures TimersOf([te] + s) == [Timer(te.id, te.when)] + TimersOf(s) && Sorted(TimersOf([te] + s), n + 1)
  {
    assert ([te] + s)[1..] == s;
    HeadKeeps(Timer(n, te.when), TimersOf(s), n + 1);
  }

  /** What is left without the first item of the id, which is number j, |s| if there is none. */
  ghost function Without(s: seq<TimeEvent>, j: nat): seq<TimeEvent> { if j < |s| then Cut(s, j) else s }

  lemma Deletion(s: seq<TimeEvent>, id: int, n: int, j: nat)
    requires Sorted(TimersOf(s), n) && NoTwice(s)
    requires j <= |s| && (j < |s| ==> s[j].id == id) && forall i :: 0 <= i < j ==> s[i].id != id
    ensures var c := Without(s, j);
      && NoTwice(c) && TimersOf(c) == Drop(TimersOf(s), id) && Sorted(TimersOf(c), n)
      && (forall i :: 0 <= i < |c| ==> c[i] in s)
      && forall i :: 0 <= i < |s| && s[i].id != id ==> s[i] in c
    ensures Absent(TimersOf(s), id) <==> j == |s|
  {
    hide TimersOf, Drop, Cut, Sorted;
    DropIsCut(TimersOf(s), id, j);
    DropKeeps(TimersOf(s), id, n);
    if j < |s| {
      CutFacts(s, j);
      TimersOfCut(s, j);
      assert TimersOf(s)[j].id == id;
    }
  }

  lemma {:induction false} RescheduleAt(s: seq<Timer>, i: nat, w: Time, n: int)
    requires Sorted(s, n) && i < |s|
    ensures Reschedule(s, s[i].id, w) == s[i := Timer(s[i].id, w)]
  {
    if i > 0 {
      SortedTail(s, n);
      RescheduleAt(s[1..], i - 1, w, s[0].id);
    }
  }

  ghost function Joined(log: seq<int>, r: (TimerSpec.Loop, seq<int>)): (TimerSpec.Loop, seq<int>) { (r.0, log + r.1) }

  /** The loop stands as after the firings of `log`, the first p timers are not to be fired, and the rest
      of the pass gives what all of it does. */
  ghost predicate OnTheWay(l: TimerSpec.Loop, p: nat, maxId: int, now: Time, replies: (nat, int) -> Reply, log: seq<int>,
                           whole: (TimerSpec.Loop, seq<int>)) {
    && Sorted(l.timers, l.nextId) && maxId < l.nextId && ClockTime(now) && AllDecent(replies)
    && p <= |l.timers| && (forall j :: 0 <= j < p ==> !Ripe(l.timers[j], maxId, now))
    && Joined(log, Pass(l, maxId, now, |log|, replies)) == whole
  }

  lemma Begin(l: TimerSpec.Loop, maxId: int, now: Time, replies: (nat, int) -> Reply)
    requires Sorted(l.timers, l.nextId) && maxId < l.nextId && ClockTime(now) && AllDecent(replies)
    ensures OnTheWay(l, 0, maxId, now, replies, [], Pass(l, maxId, now, 0, replies))
  {
    var r := Pass(l, maxId, now, 0, replies);
    assert [] + r.1 == r.1;
  }

  lemma PassOver(l: TimerSpec.Loop, p: nat, maxId: int, now: Time, replies: (nat, int) -> Reply, log: seq<int>,
                 whole: (TimerSpec.Loop, seq<int>))
    requires OnTheWay(l, p, maxId, now, replies, log, whole)
    requires p < |l.timers| && (l.timers[p].id > maxId || !Due(l.timers[p].when, now))
    ensures OnTheWay(l, p + 1, maxId, now, replies, log, whole)
  {
  }

  /** The next firing of a pass is that of the first timer that is ripe. */
  lemma PassStep(l: TimerSpec.Loop, p: nat, maxId: int, now: Time, k: nat, replies: (nat, int) -> Reply)
    requires Sorted(l.timers, l.nextId) && maxId < l.nextId && ClockTime(now) && AllDecent(replies)
    requires p < |l.timers| && Ripe(l.timers[p], maxId, now) && forall j :: 0 <= j < p ==> !Ripe(l.timers[j], maxId, now)
    ensures var id := l.timers[p].id; var m := Fired(l, id, replies(k, id), now);
      && Sorted(m.timers, m.nextId) && maxId < m.nextId
      && RipeIds(m.timers, maxId, now) < RipeIds(l.timers, maxId, now)
      && Pass(l, maxId, now, k, replies) == Joined([id], Pass(m, maxId, now, k + 1, replies))
  {
    var id := l.timers[p].id;
    assert FirstRipe(l.timers, maxId, now) == p;
    hide Fired, AllDecent, Decent, Sorted;
    assert Decent(replies(k, id), id) by { DecentAll(replies, k, id); }
    FiredKeeps(l, id, replies(k, id), now, maxId);
    assert id in RipeIds(l.timers, maxId, now);
  }

  lemma DecentAll(replies: (nat, int) -> Reply, k: nat, id: int)
    requires AllDecent(replies)
    ensures Decent(replies(k, id), id)
  {
  }

  lemma FiringStep(l: TimerSpec.Loop, p: nat, maxId: int, now: Time, replies: (nat, int) -> Reply, log: seq<int>,
                   whole: (TimerSpec.Loop, seq<int>))
    requires OnTheWay(l, p, maxId, now, replies, log, whole)
    requires p < |l.timers| && l.timers[p].id <= maxId && Due(l.timers[p].when, now)
    ensures var id := l.timers[p].id; var m := Fired(l, id, replies(|log|, id), now);
      && Decent(replies(|log|, id), id)
      && RipeIds(m.timers, maxId, now) < RipeIds(l.timers, maxId, now)
      && OnTheWay(m, 0, maxId, now, replies, log + [id], whole)
  {
    var id := l.timers[p].id;
    hide *;
    WayParts(l, p, maxId, now, replies, log, whole);
    PassStep(l, p, maxId, now, |log|, replies);
    DecentAll(replies, |log|, id);
    WayWhole(Fired(l, id, replies(|log|, id), now), maxId, now, replies, log, id, whole);
  }

  lemma WayParts(l: TimerSpec.Loop, p: nat, maxId: int, now: Time, replies: (nat, int) -> Reply, log: seq<int>,
                 whole: (TimerSpec.Loop, seq<int>))
    requires OnTheWay(l, p, maxId, now, replies, log, whole)
    requires p < |l.timers| && l.timers[p].id <= maxId && Due(l.timers[p].when, now)
    ensures Sorted(l.timers, l.nextId) && maxId < l.nextId && ClockTime(now) && AllDecent(replies)
    ensures Ripe(l.timers[p], maxId, now) && forall j :: 0 <= j < p ==> !Ripe(l.timers[j], maxId, now)
    ensures Joined(log, Pass(l, maxId, now, |log|, replies)) == whole
  {
    hide Sorted, Pass, AllDecent, Joined, Due;
  }

  lemma WayWhole(m: TimerSpec.Loop, maxId: int, now: Time, replies: (nat, int) -> Reply, log: seq<int>, id: int,
                 whole: (TimerSpec.Loop, seq<int>))
    requires Sorted(m.timers, m.nextId) && maxId < m.nextId && ClockTime(now) && AllDecent(replies)
    requires Joined(log, Joined([id], Pass(m, maxId, now, |log| + 1, replies))) == whole
    ensures OnTheWay(m, 0, maxId, now, replies, log + [id], whole)
  {
    hide Sorted, Pass, AllDecent;
    var r := Pass(m, maxId, now, |log| + 1, replies);
    assert log + ([id] + r.1) == (log + [id]) + r.1;
    assert |log + [id]| == |log| + 1;
  }

  lemma NothingLeft(l: TimerSpec.Loop, p: nat, maxId: int, now: Time, replies: (nat, int) -> Reply, log: seq<int>,
                    whole: (TimerSpec.Loop, seq<int>))
    requires OnTheWay(l, p, maxId, now, replies, log, whole) && p >= |l.timers|
    ensures whole == (l, log)
  {
    assert FirstRipe(l.timers, maxId, now) == |l.timers|;
    assert log + [] == log;
  }

  lemma CutFacts(s: seq<TimeEvent>, j: nat)
    requires j < |s| && NoTwice(s)
    ensures NoTwice(Cut(s, j)) && forall i :: 0 <= i < |Cut(s, j)| ==> Cut(s, j)[i] in s
    ensures forall i :: 0 <= i < |s| && i != j ==> s[i] in Cut(s, j)
  {
    CutNoTwice(s, j);
    forall i | 0 <= i < |s| && i != j ensures s[i] in Cut(s, j) {
      assert Cut(s, j)[if i < j then i else i - 1] == s[i];
    }
  }
}
