/** What a pass of processTimeEvents leaves on the list: where each timer that fired, that did not, and
    that is new stands, and for when. */
module TimerPass {
  import opened Basics
  import opened TimerSpec

  /** The calls that a callback and the finalizer of its timer make. The finalizer is called if the callback
      answers NO_MORE and has not deleted the timer itself. */
  function Acts(r: Reply, id: int): seq<Edit> {
    r.edits + if r.ret == NO_MORE && Delete(id) !in r.edits then r.last else []
  }

  /** All calls of a pass, given the timers that it fires. */
  function PassActs(ids: seq<int>, k: nat, replies: (nat, int) -> Reply): seq<Edit> {
    if ids == [] then [] else Acts(replies(k, ids[0]), ids[0]) + PassActs(ids[1..], k + 1, replies)
  }

  function Creates(es: seq<Edit>): nat {
    if es == [] then 0 else Creates(es[..|es| - 1]) + if es[|es| - 1].Create? then 1 else 0
  }

  lemma {:induction false} CreatesConcat(a: seq<Edit>, b: seq<Edit>)
    ensures Creates(a + b) == Creates(a) + Creates(b)
  {
    if b == [] {
      assert a + b == a;
    } else {
      assert (a + b)[..|a + b| - 1] == a + b[..|b| - 1];
      CreatesConcat(a, b[..|b| - 1]);
    }
  }

  /** The list has one timer with this id, and it is due at this time in milliseconds. */
  predicate StandsOnce(s: seq<Timer>, id: int, total: int) {
    exists i :: 0 <= i < |s| && OneAt(s, i, id, total)
  }

  predicate OneAt(s: seq<Timer>, i: nat, id: int, total: int)
    requires i < |s|
  {
    && s[i].id == id && Total(s[i].when) == total
    && forall j :: 0 <= j < |s| && j != i ==> s[j].id != id
  }

  lemma InSortedIsOnce(s: seq<Timer>, nextId: int, t: Timer)
    requires Sorted(s, nextId) && t in s
    ensures StandsOnce(s, t.id, Total(t.when))
  {
    var i :| 0 <= i < |s| && s[i] == t;
    assert OneAt(s, i, t.id, Total(t.when));
  }

  // ---- the calls one after the other -------------------------------------------------------------------------

  lemma {:induction false} NextIdCounts(l: Loop, es: seq<Edit>, now: Time)
    ensures ApplyAll(l, es, now).nextId == l.nextId + Creates(es)
  {
    if es != [] { NextIdCounts(l, es[..|es| - 1], now); }
  }

  lemma {:induction false} ApplyConcat(l: Loop, a: seq<Edit>, b: seq<Edit>, now: Time)
    ensures ApplyAll(l, a + b, now) == ApplyAll(ApplyAll(l, a, now), b, now)
  {
    if b == [] {
      assert a + b == a;
    } else {
      assert (a + b)[..|a + b| - 1] == a + b[..|b| - 1];
      ApplyConcat(l, a, b[..|b| - 1], now);
    }
  }

  lemma ApplyCreate(m: Loop, milliseconds: int, now: Time)
    ensures Timer(m.nextId, AddMs(now, milliseconds)) in Apply(m, Create(milliseconds), now).timers
  {
    hide AddMs;
    assert Apply(m, Create(milliseconds), now).timers[0] == Timer(m.nextId, AddMs(now, milliseconds));
  }

  lemma ApplyAround(l: Loop, a: seq<Edit>, one: Edit, b: seq<Edit>, now: Time)
    ensures ApplyAll(l, a + [one] + b, now) == ApplyAll(Apply(ApplyAll(l, a, now), one, now), b, now)
  {
    hide Apply;
    ApplyConcat(l, a + [one], b, now);
    assert (a + [one])[..|a|] == a;
  }

  /** A call that creates a timer leaves it on the list, unless a later one deletes it. */
  lemma CreatedStands(l: Loop, es: seq<Edit>, e: nat, now: Time)
    requires Sorted(l.timers, l.nextId) && e < |es| && es[e].Create?
    ensures var x := l.nextId + Creates(es[..e]);
      Delete(x) !in es[e + 1..] ==> Timer(x, AddMs(now, es[e].milliseconds)) in ApplyAll(l, es, now).timers
  {
    hide *;
    var a, one, b := es[..e], es[e], es[e + 1..];
    var m := ApplyAll(l, a, now);
    ApplyAllKeeps(l, a, now);
    NextIdCounts(l, a, now);
    ApplyKeeps(m, one, now);
    ApplyCreate(m, one.milliseconds, now);
    ApplyAllKeeps(Apply(m, one, now), b, now);
    assert es == a + [one] + b;
    ApplyAround(l, a, one, b, now);
  }

  // ---- one timer fires ------------------------------------------------------------------------------------------

  lemma ActsAre(r: Reply, id: int)
    ensures r.ret != NO_MORE || Delete(id) in r.edits ==> Acts(r, id) == r.edits
    ensures r.ret == NO_MORE && Delete(id) !in r.edits ==> Acts(r, id) == r.edits + r.last
  {
  }

  lemma FiredIs(l: Loop, id: int, r: Reply, now: Time)
    ensures var m := ApplyAll(l, r.edits, now);
      && (r.ret != NO_MORE ==> Fired(l, id, r, now) == Loop(Reschedule(m.timers, id, AddMs(now, r.ret)), m.nextId))
      && (r.ret == NO_MORE && Absent(m.timers, id) ==> Fired(l, id, r, now) == m)
      && (r.ret == NO_MORE && !Absent(m.timers, id) ==>
            Fired(l, id, r, now) == ApplyAll(Loop(Drop(m.timers, id), m.nextId), r.last, now))
  {
  }

  /** The calls of a firing: the timer itself is taken off before its finalizer runs. */
  lemma FiringCreates(l: Loop, id: int, r: Reply, now: Time, e: nat)
    requires Sorted(l.timers, l.nextId) && id < l.nextId && !Absent(l.timers, id)
    ensures Fired(l, id, r, now).nextId == l.nextId + Creates(Acts(r, id))
    ensures e < |Acts(r, id)| && Acts(r, id)[e].Create? ==>
      var x := l.nextId + Creates(Acts(r, id)[..e]);
      Delete(x) !in Acts(r, id)[e + 1..] ==> Timer(x, AddMs(now, Acts(r, id)[e].milliseconds)) in Fired(l, id, r, now).timers
  {
    hide *;
    ActsAre(r, id);
    FiredIs(l, id, r, now);
    NextIdCounts(l, r.edits, now);
    ApplyAllKeeps(l, r.edits, now);
    if r.ret != NO_MORE {
      var m := ApplyAll(l, r.edits, now);
      RescheduleKeeps(m.timers, id, AddMs(now, r.ret), m.nextId);
      if e < |r.edits| && r.edits[e].Create? {
        CreatedStands(l, r.edits, e, now);
        OthersIds(l, r.edits, e, id);
      }
    } else if Delete(id) in r.edits {
      DeletedIsAbsent(l, r.edits, now, id);
      if e < |r.edits| && r.edits[e].Create? { CreatedStands(l, r.edits, e, now); }
    } else {
      FinalizerCreates(l, id, r, now, e);
    }
  }

  lemma FinalizerCreates(l: Loop, id: int, r: Reply, now: Time, e: nat)
    requires Sorted(l.timers, l.nextId) && id < l.nextId && !Absent(l.timers, id) && r.ret == NO_MORE &&
      Delete(id) !in r.edits
    ensures Fired(l, id, r, now).nextId == l.nextId + Creates(r.edits + r.last)
    ensures var acts := r.edits + r.last; e < |acts| && acts[e].Create? ==>
      var x := l.nextId + Creates(acts[..e]);
      Delete(x) !in acts[e + 1..] ==> Timer(x, AddMs(now, acts[e].milliseconds)) in Fired(l, id, r, now).timers
  {
    hide *;
    var acts, m := r.edits + r.last, ApplyAll(l, r.edits, now);
    var n := Loop(Drop(m.timers, id), m.nextId);
    FiredIs(l, id, r, now);
    NextIdCounts(l, r.edits, now);
    ApplyAllKeeps(l, r.edits, now);
    OwnStays(l, r.edits, now, id);
    DropKeeps(m.timers, id, m.nextId);
    NextIdCounts(n, r.last, now);
    CreatesConcat(r.edits, r.last);
    ApplyAllKeeps(n, r.last, now);
    if e < |r.edits| && acts[e].Create? {
      assert acts[..e] == r.edits[..e] && acts[e + 1..] == r.edits[e + 1..] + r.last;
      CreatedStands(l, r.edits, e, now);
      OthersIds(l, r.edits, e, id);
    } else if e < |acts| && acts[e].Create? {
      var f := e - |r.edits|;
      assert acts[..e] == r.edits + r.last[..f] && acts[e + 1..] == r.last[f + 1..];
      CreatesConcat(r.edits, r.last[..f]);
      CreatedStands(n, r.last, f, now);
    }
  }

  lemma OthersIds(l: Loop, es: seq<Edit>, e: nat, id: int)
    requires e <= |es| && id < l.nextId
    ensures l.nextId + Creates(es[..e]) != id
  {
  }

  lemma OwnStays(l: Loop, es: seq<Edit>, now: Time, id: int)
    requires Sorted(l.timers, l.nextId) && !Absent(l.timers, id) && Delete(id) !in es
    ensures !Absent(ApplyAll(l, es, now).timers, id)
  {
    hide Sorted;
    ApplyAllKeeps(l, es, now);
    var i :| 0 <= i < |l.timers| && l.timers[i].id == id;
    assert l.timers[i] in ApplyAll(l, es, now).timers;
    AbsentIn(ApplyAll(l, es, now).timers, id);
  }

  /** Another timer stays as it is, unless a call deletes it. */
  lemma OtherStays(l: Loop, id: int, r: Reply, now: Time, t: Timer)
    requires Sorted(l.timers, l.nextId) && t in l.timers && t.id != id && Delete(t.id) !in Acts(r, id)
    requires !Absent(l.timers, id) && id < l.nextId
    ensures t in Fired(l, id, r, now).timers
  {
    hide Sorted, AddMs, Drop, Reschedule;
    var m := ApplyAll(l, r.edits, now);
    ApplyAllKeeps(l, r.edits, now);
    if r.ret != NO_MORE {
      RescheduleKeeps(m.timers, id, AddMs(now, r.ret), m.nextId);
    } else if Delete(id) in r.edits {
      DeletedIsAbsent(l, r.edits, now, id);
    } else {
      RemovedKeeps(m, id, r.last, now);
    }
  }

  /** The timer itself, if it is to fire again. */
  lemma OwnIsPutOff(l: Loop, id: int, r: Reply, now: Time)
    requires Sorted(l.timers, l.nextId) && !Absent(l.timers, id) && ClockTime(now) && Decent(r, id) && r.ret != NO_MORE
    ensures Timer(id, AddMs(now, r.ret)) in Fired(l, id, r, now).timers
  {
    var m := ApplyAll(l, r.edits, now);
    OwnStays(l, r.edits, now, id);
    RescheduledIsIn(m.timers, id, AddMs(now, r.ret));
  }

  lemma {:induction false} RescheduledIsIn(s: seq<Timer>, id: int, when: Time)
    requires !Absent(s, id)
    ensures Timer(id, when) in Reschedule(s, id, when)
  {
    if s[0].id != id {
      var i :| 0 <= i < |s| && s[i].id == id;
      assert s[1..][i - 1].id == id;
      RescheduledIsIn(s[1..], id, when);
    }
  }

  lemma OwnIsGone(l: Loop, id: int, r: Reply, now: Time)
    requires Sorted(l.timers, l.nextId) && id < l.nextId && r.ret == NO_MORE
    ensures Absent(Fired(l, id, r, now).timers, id)
  {
    hide Sorted;
    var m := ApplyAll(l, r.edits, now);
    ApplyAllKeeps(l, r.edits, now);
    RemovedKeeps(m, id, r.last, now);
    AbsentIn(Fired(l, id, r, now).timers, id);
  }

  // ---- the pass -----------------------------------------------------------------------------------------------------

  /** One round of a pass, and the rest of it. */
  lemma PassIs(l: Loop, maxId: int, now: Time, k: nat, replies: (nat, int) -> Reply)
    requires Sorted(l.timers, l.nextId) && maxId < l.nextId && ClockTime(now) && AllDecent(replies)
    ensures var (m, ids) := Pass(l, maxId, now, k, replies);
      if ids == [] then m == l
      else
        var id := ids[0]; var l' := Fired(l, id, replies(k, id), now);
        && id <= maxId && !Absent(l.timers, id) && Decent(replies(k, id), id)
        && Sorted(l'.timers, l'.nextId) && maxId < l'.nextId
        && RipeIds(l'.timers, maxId, now) < RipeIds(l.timers, maxId, now)
        && (m, ids[1..]) == Pass(l', maxId, now, k + 1, replies)
  {
    var i := FirstRipe(l.timers, maxId, now);
    if i < |l.timers| {
      var id := l.timers[i].id;
      FiredKeeps(l, id, replies(k, id), now, maxId);
      assert id in RipeIds(l.timers, maxId, now);
    }
  }

  /** A timer that does not fire and is not deleted keeps its time. */
  lemma {:induction false} UntouchedStays(l: Loop, maxId: int, now: Time, k: nat, replies: (nat, int) -> Reply, t: Timer)
    requires Sorted(l.timers, l.nextId) && maxId < l.nextId && ClockTime(now) && AllDecent(replies) && t in l.timers
    ensures var (m, ids) := Pass(l, maxId, now, k, replies);
      t.id !in ids && Delete(t.id) !in PassActs(ids, k, replies) ==> t in m.timers
    decreases RipeIds(l.timers, maxId, now)
  {
    hide Pass, Sorted, Fired, AllDecent, RipeIds, Acts;
    PassIs(l, maxId, now, k, replies);
    var (m, ids) := Pass(l, maxId, now, k, replies);
    if ids != [] && t.id !in ids && Delete(t.id) !in PassActs(ids, k, replies) {
      var id := ids[0];
      OtherStays(l, id, replies(k, id), now, t);
      UntouchedStays(Fired(l, id, replies(k, id), now), maxId, now, k + 1, replies, t);
    }
  }

  /** A timer that fires and is asked for again in `ret` milliseconds stands once on the list, due at that time
      from now, unless a later call of the pass deletes it. One that answers NO_MORE is not on the list. */
  lemma {:induction false} FiredStands(l: Loop, maxId: int, now: Time, k: nat, replies: (nat, int) -> Reply, j: nat)
    requires Sorted(l.timers, l.nextId) && maxId < l.nextId && ClockTime(now) && AllDecent(replies)
    ensures var (m, ids) := Pass(l, maxId, now, k, replies);
      j < |ids| ==>
        var r := replies(k + j, ids[j]);
        && (r.ret >= 1 && Delete(ids[j]) !in PassActs(ids[j + 1..], k + j + 1, replies) ==>
              StandsOnce(m.timers, ids[j], Total(now) + r.ret))
        && (r.ret == NO_MORE ==> Absent(m.timers, ids[j]))
    decreases RipeIds(l.timers, maxId, now)
  {
    hide Pass, Sorted, Fired, AllDecent, RipeIds, Acts, StandsOnce, PassActs, AddMs, NoTwice;
    PassIs(l, maxId, now, k, replies);
    PassIsSound(l, maxId, now, k, replies);
    var (m, ids) := Pass(l, maxId, now, k, replies);
    if j < |ids| {
      var id := ids[0];
      var r := replies(k, id);
      var l' := Fired(l, id, r, now);
      if j > 0 {
        FiredStands(l', maxId, now, k + 1, replies, j - 1);
        assert ids[1..][j - 1] == ids[j] && ids[1..][j..] == ids[j + 1..];
      } else if r.ret == NO_MORE {
        OwnIsGone(l, id, r, now);
        GoneStaysGone(l', maxId, now, k + 1, replies, id);
      } else {
        var t := Timer(id, AddMs(now, r.ret));
        OwnIsPutOff(l, id, r, now);
        UntouchedStays(l', maxId, now, k + 1, replies, t);
        AddMsExact(now, r.ret);
        FirstOnce(ids);
        if t in m.timers { InSortedIsOnce(m.timers, m.nextId, t); }
      }
    }
  }

  lemma FirstOnce(ids: seq<int>)
    requires NoTwice(ids) && ids != []
    ensures ids[0] !in ids[1..]
  {
  }

  /** Call number e of the pass, if it creates a timer, gives it the next free id, and the timer stands once on the
      list, due after its delay from now, unless a later call deletes it. */
  lemma {:induction false} CreatedStandsOnce(l: Loop, maxId: int, now: Time, k: nat, replies: (nat, int) -> Reply, e: nat)
    requires Sorted(l.timers, l.nextId) && maxId < l.nextId && ClockTime(now) && AllDecent(replies)
    ensures var (m, ids) := Pass(l, maxId, now, k, replies); var acts := PassActs(ids, k, replies);
      && m.nextId == l.nextId + Creates(acts)
      && (e < |acts| && acts[e].Create? ==>
            var x := l.nextId + Creates(acts[..e]);
            Delete(x) !in acts[e + 1..] ==> StandsOnce(m.timers, x, Total(now) + acts[e].milliseconds))
    decreases RipeIds(l.timers, maxId, now)
  {
    hide Pass, Sorted, Fired, AllDecent, RipeIds, Acts, StandsOnce, AddMs, NoTwice, Creates, Decent;
    PassIs(l, maxId, now, k, replies);
    var (m, ids) := Pass(l, maxId, now, k, replies);
    NoCreates();
    if ids != [] {
      var id := ids[0];
      var r := replies(k, id);
      var l' := Fired(l, id, r, now);
      var a, b := Acts(r, id), PassActs(ids[1..], k + 1, replies);
      var acts := a + b;
      FiringCreates(l, id, r, now, e);
      CreatesConcat(a, b);
      if e < |a| {
        CreatedStandsOnce(l', maxId, now, k + 1, replies, 0);
        if a[e].Create? && Delete(l.nextId + Creates(acts[..e])) !in acts[e + 1..] {
          assert acts[..e] == a[..e] && acts[e + 1..] == a[e + 1..] + b;
          NewStays(l', maxId, now, k + 1, replies, Timer(l.nextId + Creates(a[..e]), AddMs(now, a[e].milliseconds)));
          AddMsExact(now, a[e].milliseconds);
        }
      } else {
        var f := e - |a|;
        CreatedStandsOnce(l', maxId, now, k + 1, replies, f);
        if e < |acts| {
          assert acts[..e] == a + b[..f] && acts[e + 1..] == b[f + 1..] && acts[e] == b[f];
          CreatesConcat(a, b[..f]);
        }
      }
    }
  }

  lemma NoCreates()
    ensures Creates([]) == 0
  {
  }

  /** A new timer is not fired in the pass. */
  lemma NewStays(l: Loop, maxId: int, now: Time, k: nat, replies: (nat, int) -> Reply, t: Timer)
    requires Sorted(l.timers, l.nextId) && maxId < l.nextId && ClockTime(now) && AllDecent(replies) &&
      t in l.timers && t.id > maxId
    ensures var (m, ids) := Pass(l, maxId, now, k, replies);
      Delete(t.id) !in PassActs(ids, k, replies) ==> StandsOnce(m.timers, t.id, Total(t.when))
  {
    hide Pass, Sorted, AllDecent, StandsOnce, PassActs, NoTwice;
    PassIsSound(l, maxId, now, k, replies);
    UntouchedStays(l, maxId, now, k, replies, t);
    var (m, ids) := Pass(l, maxId, now, k, replies);
    if t in m.timers { InSortedIsOnce(m.timers, m.nextId, t); }
  }
}
