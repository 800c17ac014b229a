/** The timers of ae/ae.c: the arithmetic of seconds and milliseconds, and a pass over the timer
    list while the callbacks edit it, as a function. */
module TimerSpec {
  import opened Basics

  // ---- seconds and milliseconds --------------------------------------------------------------------

  /** A point in time in two fields; the clock's milliseconds are below 1000. */
  datatype Time = Time(sec: int, ms: int)

  predicate ClockTime(t: Time) { 0 <= t.ms < 1000 }

  function Total(t: Time): int { t.sec * 1000 + t.ms }

  // C's / and % by 1000
  function Quot(n: int): int { if n >= 0 then n / 1000 else -((-n) / 1000) }

  function Rem(n: int): int { n - Quot(n) * 1000 }

  /** aeAddMillisecondsToNow at clock time `now`. */
  function AddMs(now: Time, milliseconds: int): Time {
    var s, m := now.sec + Quot(milliseconds), now.ms + Rem(milliseconds);
    if m >= 1000 then Time(s + 1, m - 1000) else Time(s, m)
  }

  /** No millisecond is lost, and a delay that is not negative gives a normal time. */
  lemma AddMsExact(now: Time, milliseconds: int)
    requires ClockTime(now)
    ensures Total(AddMs(now, milliseconds)) == Total(now) + milliseconds
    ensures milliseconds >= 0 ==> ClockTime(AddMs(now, milliseconds))
  {
  }

  /** The comparison of processTimeEvents. */
  predicate Due(t: Time, now: Time) { now.sec > t.sec || (now.sec == t.sec && now.ms >= t.ms) }

  predicate Earlier(a: Time, b: Time) { a.sec < b.sec || (a.sec == b.sec && a.ms < b.ms) }

  lemma DueIsPast(t: Time, now: Time)
    requires ClockTime(t) && ClockTime(now)
    ensures Due(t, now) <==> Total(t) <= Total(now)
    ensures Earlier(now, t) <==> Total(now) < Total(t)
  {
  }

  /** The timeout given to poll for the nearest timer: seconds and microseconds. */
  function Wait(t: Time, now: Time): (int, int) {
    var (s, u) := if t.ms < now.ms then (t.sec - now.sec - 1, (t.ms + 1000 - now.ms) * 1000)
                  else (t.sec - now.sec, (t.ms - now.ms) * 1000);
    (if s < 0 then 0 else s, if u < 0 then 0 else u)
  }

  /** A timer that is not overdue is waited for exactly. An overdue one is waited for as long as its
      milliseconds are ahead of the clock's, so not at all only if they agree. */
  lemma WaitExact(t: Time, now: Time)
    requires ClockTime(t) && ClockTime(now)
    ensures var (s, u) := Wait(t, now);
      && 0 <= s && 0 <= u < 1000000
      && (Total(t) >= Total(now) ==> s * 1000000 + u == (Total(t) - Total(now)) * 1000)
      && (Total(t) < Total(now) ==> s == 0 && u == ((t.ms - now.ms) % 1000) * 1000)
  {
  }

  // ---- the list --------------------------------------------------------------------------------------

  datatype Timer = Timer(id: int, when: Time)

  /** Newest first: ids strictly decreasing, all below the next one. */
  predicate Sorted(s: seq<Timer>, nextId: int) {
    && (forall i, j :: 0 <= i < j < |s| ==> s[i].id > s[j].id)
    && forall i :: 0 <= i < |s| ==> s[i].id < nextId
  }

  function Drop(s: seq<Timer>, id: int): seq<Timer> {
    if s == [] then [] else if s[0].id == id then s[1..] else [s[0]] + Drop(s[1..], id)
  }

  /** What a callback may do to the list: create timers and delete some. What the finalizer of a deleted
      timer does stands behind the deletion. */
  datatype Edit = Create(milliseconds: int) | Delete(id: int)

  /** One call of a callback: its edits, what it returns, and the edits of the timer's own finalizer, which
      is called if the timer is deleted on that. */
  datatype Reply = Reply(edits: seq<Edit>, ret: int, last: seq<Edit>)

  const NO_MORE := -1

  /** A callback never deletes its own timer and then asks for it again, and asks for a delay of at
      least a millisecond. */
  predicate Decent(r: Reply, id: int) {
    r.ret == NO_MORE || (r.ret >= 1 && forall i :: 0 <= i < |r.edits| ==> r.edits[i] != Delete(id))
  }

  datatype Loop = Loop(timers: seq<Timer>, nextId: int)

  function Apply(l: Loop, e: Edit, now: Time): Loop {
    match e
    case Create(ms) => Loop([Timer(l.nextId, AddMs(now, ms))] + l.timers, l.nextId + 1)
    case Delete(id) => Loop(Drop(l.timers, id), l.nextId)
  }

  function ApplyAll(l: Loop, es: seq<Edit>, now: Time): Loop {
    if es == [] then l else Apply(ApplyAll(l, es[..|es| - 1], now), es[|es| - 1], now)
  }

  function Reschedule(s: seq<Timer>, id: int, when: Time): seq<Timer> {
    if s == [] then [] else if s[0].id == id then [Timer(id, when)] + s[1..] else [s[0]] + Reschedule(s[1..], id, when)
  }

  /** A timer is deleted, and its finalizer, which does `last`, is called with the timer off the list. */
  function Removed(l: Loop, id: int, last: seq<Edit>, now: Time): Loop {
    if Absent(l.timers, id) then l else ApplyAll(Loop(Drop(l.timers, id), l.nextId), last, now)
  }

  predicate Absent(s: seq<Timer>, id: int) { forall i :: 0 <= i < |s| ==> s[i].id != id }

  /** The list after timer `id` has fired. */
  function Fired(l: Loop, id: int, r: Reply, now: Time): Loop {
    var m := ApplyAll(l, r.edits, now);
    if r.ret == NO_MORE then Removed(m, id, r.last, now)
    else m.(timers := Reschedule(m.timers, id, AddMs(now, r.ret)))
  }

  /** A timer that this pass is to fire. */
  predicate Ripe(t: Timer, maxId: int, now: Time) { t.id <= maxId && Due(t.when, now) }

  /** The place of the first such timer, |s| if there is none. */
  function FirstRipe(s: seq<Timer>, maxId: int, now: Time): (i: nat)
    ensures i <= |s| && (i < |s| ==> Ripe(s[i], maxId, now))
    ensures forall j :: 0 <= j < i ==> !Ripe(s[j], maxId, now)
  {
    if s == [] || Ripe(s[0], maxId, now) then 0 else 1 + FirstRipe(s[1..], maxId, now)
  }

  /** The ids of the timers that this pass is to fire. */
  ghost function RipeIds(s: seq<Timer>, maxId: int, now: Time): set<int> {
    set t | t in s && Ripe(t, maxId, now) :: t.id
  }

  /** Of the first n timers none is earlier than number m, and none before it is as early. */
  predicate NearestOf(s: seq<Timer>, m: nat, n: nat) {
    && m < n <= |s|
    && (forall i :: 0 <= i < n ==> !Earlier(s[i].when, s[m].when))
    && forall i :: 0 <= i < m ==> Earlier(s[m].when, s[i].when)
  }

  predicate Nearest(s: seq<Timer>, m: nat) { NearestOf(s, m, |s|) }

  lemma NearestGrows(s: seq<Timer>, m: nat, j: nat)
    requires j < |s| && (j > 0 ==> NearestOf(s, m, j))
    ensures NearestOf(s, if j == 0 || Earlier(s[j].when, s[m].when) then j else m, j + 1)
  {
  }

  /** With no timer overdue, waiting for the nearest one ends exactly when the first of all is due. */
  lemma WaitIsForTheFirst(s: seq<Timer>, m: nat, now: Time, i: nat)
    requires ClockTime(now) && Nearest(s, m) && i < |s|
    requires forall k :: 0 <= k < |s| ==> ClockTime(s[k].when) && Total(now) <= Total(s[k].when)
    ensures var (sec, usec) := Wait(s[m].when, now); sec * 1000000 + usec <= (Total(s[i].when) - Total(now)) * 1000
    ensures var (sec, usec) := Wait(s[m].when, now); sec * 1000000 + usec == (Total(s[m].when) - Total(now)) * 1000
  {
    WaitExact(s[m].when, now);
    assert !Earlier(s[i].when, s[m].when);
    DueIsPast(s[m].when, s[i].when);
  }

  // ---- edits keep the list in order -------------------------------------------------------------------

  lemma {:induction false} DropKeeps(s: seq<Timer>, id: int, nextId: int)
    requires Sorted(s, nextId)
    ensures Sorted(Drop(s, id), nextId)
    ensures forall t :: t in Drop(s, id) <==> t in s && t.id != id
  {
    if s != [] {
      var r := s[1..];
      SortedTail(s, nextId);
      if s[0].id == id {
        assert forall t :: t in r ==> t.id != id;
        assert s == [s[0]] + r;
      } else {
        DropKeeps(r, id, s[0].id);
        HeadKeeps(s[0], Drop(r, id), nextId);
        assert s == [s[0]] + r;
      }
    }
  }

  lemma SortedTail(s: seq<Timer>, nextId: int)
    requires Sorted(s, nextId) && s != []
    ensures Sorted(s[1..], s[0].id) && s[0].id < nextId
    ensures forall t :: t in s[1..] ==> t.id < s[0].id
  {
  }

  lemma HeadKeeps(t: Timer, s: seq<Timer>, nextId: int)
    requires Sorted(s, t.id) && t.id < nextId
    ensures Sorted([t] + s, nextId)
  {
  }

  lemma {:induction false} RescheduleKeeps(s: seq<Timer>, id: int, when: Time, nextId: int)
    requires Sorted(s, nextId)
    ensures Sorted(Reschedule(s, id, when), nextId)
    ensures forall t :: t in Reschedule(s, id, when) ==> t == Timer(id, when) || (t in s && t.id != id)
    ensures forall t :: t in s && t.id != id ==> t in Reschedule(s, id, when)
  {
    if s != [] {
      var r := s[1..];
      SortedTail(s, nextId);
      assert s == [s[0]] + r;
      if s[0].id == id {
        HeadKeeps(Timer(id, when), r, nextId);
      } else {
        RescheduleKeeps(r, id, when, s[0].id);
        HeadKeeps(s[0], Reschedule(r, id, when), nextId);
      }
    }
  }

  lemma ApplyKeeps(l: Loop, e: Edit, now: Time)
    requires Sorted(l.timers, l.nextId)
    ensures var m := Apply(l, e, now); Sorted(m.timers, m.nextId) && m.nextId >= l.nextId
    ensures forall t :: t in Apply(l, e, now).timers ==> t in l.timers || t.id >= l.nextId
    ensures forall t :: t in l.timers && e != Delete(t.id) ==> t in Apply(l, e, now).timers
  {
    match e
    case Create(ms) =>
      HeadKeeps(Timer(l.nextId, AddMs(now, ms)), l.timers, l.nextId + 1);
    case Delete(id) => DropKeeps(l.timers, id, l.nextId);
  }

  lemma {:induction false} ApplyAllKeeps(l: Loop, es: seq<Edit>, now: Time)
    requires Sorted(l.timers, l.nextId)
    ensures var m := ApplyAll(l, es, now); Sorted(m.timers, m.nextId) && m.nextId >= l.nextId
    ensures forall t :: t in ApplyAll(l, es, now).timers ==> t in l.timers || t.id >= l.nextId
    ensures forall t :: t in l.timers && Delete(t.id) !in es ==> t in ApplyAll(l, es, now).timers
  {
    if es != [] {
      var init := es[..|es| - 1];
      ApplyAllKeeps(l, init, now);
      ApplyKeeps(ApplyAll(l, init, now), es[|es| - 1], now);
      assert es == init + [es[|es| - 1]];
    }
  }

  lemma {:induction false} NothingDropped(s: seq<Timer>, id: int)
    ensures Absent(s, id) ==> Drop(s, id) == s
  {
    if s != [] && Absent(s, id) {
      assert Absent(s[1..], id);
      NothingDropped(s[1..], id);
    }
  }

  lemma RemovedKeeps(l: Loop, id: int, last: seq<Edit>, now: Time)
    requires Sorted(l.timers, l.nextId)
    ensures var m := Removed(l, id, last, now); Sorted(m.timers, m.nextId) && m.nextId >= l.nextId
    ensures forall t :: t in Removed(l, id, last, now).timers ==> (t in l.timers && t.id != id) || t.id >= l.nextId
    ensures forall t :: t in l.timers && t.id != id && Delete(t.id) !in last ==> t in Removed(l, id, last, now).timers
  {
    hide Sorted, Drop;
    AbsentIn(l.timers, id);
    if !Absent(l.timers, id) {
      DropKeeps(l.timers, id, l.nextId);
      ApplyAllKeeps(Loop(Drop(l.timers, id), l.nextId), last, now);
    }
  }

  /** Firing a timer leaves of the timers to fire only others, and none of the new ones. */
  lemma FiredKeeps(l: Loop, id: int, r: Reply, now: Time, maxId: int)
    requires Sorted(l.timers, l.nextId) && maxId < l.nextId && ClockTime(now) && Decent(r, id)
    ensures var m := Fired(l, id, r, now);
      && Sorted(m.timers, m.nextId) && m.nextId >= l.nextId
      && RipeIds(m.timers, maxId, now) <= RipeIds(l.timers, maxId, now) - {id}
  {
    var m := ApplyAll(l, r.edits, now);
    ApplyAllKeeps(l, r.edits, now);
    if r.ret == NO_MORE {
      RemovedKeeps(m, id, r.last, now);
    } else {
      RescheduleKeeps(m.timers, id, AddMs(now, r.ret), m.nextId);
      AddMsExact(now, r.ret);
      DueIsPast(AddMs(now, r.ret), now);
    }
  }

  // ---- a pass --------------------------------------------------------------------------------------------

  ghost predicate AllDecent(replies: (nat, int) -> Reply) { forall k, id :: Decent(replies(k, id), id) }

  /** A pass at a fixed time: the loop with its list, and the ids fired, in order. Firing number k calls
      the callback of timer `id`, which replies(k, id). */
  ghost function Pass(l: Loop, maxId: int, now: Time, k: nat, replies: (nat, int) -> Reply): (r: (Loop, seq<int>))
    requires Sorted(l.timers, l.nextId) && maxId < l.nextId && ClockTime(now) && AllDecent(replies)
    decreases RipeIds(l.timers, maxId, now)
  {
    var i := FirstRipe(l.timers, maxId, now);
    if i == |l.timers| then (l, [])
    else
      var id := l.timers[i].id;
      FiredKeeps(l, id, replies(k, id), now, maxId);
      assert id in RipeIds(l.timers, maxId, now);
      var (m, ids) := Pass(Fired(l, id, replies(k, id), now), maxId, now, k + 1, replies);
      (m, [id] + ids)
  }

  /** Whatever the callbacks do: a pass fires timers that were on the list and due when it began, each
      at most once; it leaves no timer of then due; and the list stays in order. */
  lemma {:induction false} PassIsSound(l: Loop, maxId: int, now: Time, k: nat, replies: (nat, int) -> Reply)
    requires Sorted(l.timers, l.nextId) && maxId < l.nextId && ClockTime(now) && AllDecent(replies)
    ensures var (m, ids) := Pass(l, maxId, now, k, replies);
      && Sorted(m.timers, m.nextId) && m.nextId >= l.nextId
      && RipeIds(m.timers, maxId, now) == {}
      && (forall x :: x in ids ==> x in RipeIds(l.timers, maxId, now))
      && NoTwice(ids)
    decreases RipeIds(l.timers, maxId, now)
  {
    var i := FirstRipe(l.timers, maxId, now);
    if i < |l.timers| {
      var id := l.timers[i].id;
      var l' := Fired(l, id, replies(k, id), now);
      FiredKeeps(l, id, replies(k, id), now, maxId);
      assert id in RipeIds(l.timers, maxId, now);
      PassIsSound(l', maxId, now, k + 1, replies);
    }
  }

  lemma AbsentIn(s: seq<Timer>, id: int)
    ensures Absent(s, id) <==> forall t :: t in s ==> t.id != id
  {
    if Absent(s, id) {
    } else {
      var i :| 0 <= i < |s| && s[i].id == id;
      assert s[i] in s;
    }
  }

  lemma {:induction false} DeletedIsAbsent(l: Loop, es: seq<Edit>, now: Time, id: int)
    requires Sorted(l.timers, l.nextId) && id < l.nextId && (Delete(id) in es || Absent(l.timers, id))
    ensures Absent(ApplyAll(l, es, now).timers, id)
  {
    if es != [] {
      var init, e := es[..|es| - 1], es[|es| - 1];
      assert es == init + [e];
      var m := ApplyAll(l, init, now);
      ApplyAllKeeps(l, init, now);
      if Delete(id) in init || Absent(l.timers, id) { DeletedIsAbsent(l, init, now, id); }
      AbsentIn(m.timers, id);
      AbsentIn(Apply(m, e, now).timers, id);
      match e
      case Create(_) =>
      case Delete(x) => DropKeeps(m.timers, x, m.nextId);
    }
  }

  lemma FiredAbsent(l: Loop, id: int, r: Reply, now: Time, x: int)
    requires Sorted(l.timers, l.nextId) && x < l.nextId && (Delete(x) in r.edits || Absent(l.timers, x))
    requires x != id || r.ret == NO_MORE
    ensures Absent(Fired(l, id, r, now).timers, x)
  {
    var m := ApplyAll(l, r.edits, now);
    ApplyAllKeeps(l, r.edits, now);
    DeletedIsAbsent(l, r.edits, now, x);
    AbsentIn(m.timers, x);
    AbsentIn(Fired(l, id, r, now).timers, x);
    if r.ret == NO_MORE {
      RemovedKeeps(m, id, r.last, now);
    } else {
      RescheduleKeeps(m.timers, id, AddMs(now, r.ret), m.nextId);
    }
  }

  /** The firing of another timer deletes timer x, in the callback or in the finalizer. */
  predicate Deletes(r: Reply, x: int) { Delete(x) in r.edits || (r.ret == NO_MORE && Delete(x) in r.last) }

  /** Another timer stays as it is, unless the firing deletes it. */
  lemma FiredLeaves(l: Loop, id: int, r: Reply, now: Time, t: Timer)
    requires Sorted(l.timers, l.nextId) && t in l.timers && t.id != id
    ensures t in Fired(l, id, r, now).timers || (Deletes(r, t.id) && Absent(Fired(l, id, r, now).timers, t.id))
  {
    var m := ApplyAll(l, r.edits, now);
    ApplyAllKeeps(l, r.edits, now);
    if Delete(t.id) in r.edits {
      FiredAbsent(l, id, r, now, t.id);
    } else if r.ret == NO_MORE {
      RemovedKeeps(m, id, r.last, now);
      if Delete(t.id) in r.last && !Absent(m.timers, id) {
        DropKeeps(m.timers, id, m.nextId);
        DeletedIsAbsent(Loop(Drop(m.timers, id), m.nextId), r.last, now, t.id);
      }
    } else {
      RescheduleKeeps(m.timers, id, AddMs(now, r.ret), m.nextId);
    }
  }

  /** Timers of this pass that are gone do not come back. */
  lemma {:induction false} GoneStaysGone(l: Loop, maxId: int, now: Time, k: nat, replies: (nat, int) -> Reply, x: int)
    requires Sorted(l.timers, l.nextId) && maxId < l.nextId && ClockTime(now) && AllDecent(replies)
    requires x <= maxId && Absent(l.timers, x)
    ensures Absent(Pass(l, maxId, now, k, replies).0.timers, x)
    decreases RipeIds(l.timers, maxId, now)
  {
    var i := FirstRipe(l.timers, maxId, now);
    if i < |l.timers| {
      var id := l.timers[i].id;
      FiredKeeps(l, id, replies(k, id), now, maxId);
      assert id in RipeIds(l.timers, maxId, now);
      FiredAbsent(l, id, replies(k, id), now, x);
      GoneStaysGone(Fired(l, id, replies(k, id), now), maxId, now, k + 1, replies, x);
    }
  }

  /** No timer is forgotten: each one that was due when the pass began is fired, unless a callback or
      a finalizer of the pass deletes it first. */
  lemma {:induction false} PassIsComplete(l: Loop, maxId: int, now: Time, k: nat, replies: (nat, int) -> Reply, t: Timer)
    requires Sorted(l.timers, l.nextId) && maxId < l.nextId && ClockTime(now) && AllDecent(replies)
    requires t in l.timers && Ripe(t, maxId, now)
    ensures var (m, ids) := Pass(l, maxId, now, k, replies); t.id in ids || Absent(m.timers, t.id)
    decreases RipeIds(l.timers, maxId, now)
  {
    var i := FirstRipe(l.timers, maxId, now);
    assert i < |l.timers|;
    var id := l.timers[i].id;
    var r := replies(k, id);
    var l' := Fired(l, id, r, now);
    FiredKeeps(l, id, r, now, maxId);
    assert id in RipeIds(l.timers, maxId, now);
    if t.id != id {
      FiredLeaves(l, id, r, now, t);
      if t in l'.timers {
        PassIsComplete(l', maxId, now, k + 1, replies, t);
      } else {
        GoneStaysGone(l', maxId, now, k + 1, replies, t.id);
      }
    }
  }
}
