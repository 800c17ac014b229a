/** http_parser_execute as the loop it is: marks, slices, inner loops, memchr() scans and bulk
    body reads over one buffer. Execute is proved to do what the one-byte machine does. */
module HttpExecute {
  import opened Basics
  import opened HttpBase
  import opened HttpMachine
  import opened HttpRun
  import opened HttpSteps

  /** memchr(data + from, c, limit). */
  method Memchr(data: string, from: nat, limit: nat, c: char) returns (r: Option<nat>)
    requires from + limit <= |data|
    ensures r.Some? ==> from <= r.value < from + limit && data[r.value] == c && c !in data[from..r.value]
    ensures r.None? ==> c !in data[from..from + limit]
  {
    for j := from to from + limit
      invariant c !in data[from..j]
    {
      if data[j] == c { return Some(j); }
    }
    return None;
  }

  /** Where the scan of a general header value stops: at the first CR or LF within the limit,
      otherwise at the end of the buffer. */
  method ScanValue(data: string, from: nat) returns (q: nat)
    requires from < |data|
    ensures from <= q <= |data|
    ensures q < |data| ==> IsBreak(data[q])
    ensures forall j :: from <= j < q && (q < |data| || j < from + MAX_HEADER_SIZE) ==> !IsBreak(data[j])
  {
    var limit := if |data| - from < MAX_HEADER_SIZE then |data| - from else MAX_HEADER_SIZE;
    var cr := Memchr(data, from, limit, CR);
    var lf := Memchr(data, from, limit, LF);
    q := match cr
      case Some(j) => if lf.Some? && j >= lf.value then lf.value else j
      case None => if lf.Some? then lf.value else |data|;
    forall j | from <= j < q && (q < |data| || j < from + MAX_HEADER_SIZE) ensures !IsBreak(data[j]) {
      assert data[j] == data[from..from + limit][j - from];
      if cr.Some? { assert j < cr.value ==> data[j] in data[from..cr.value]; }
      if lf.Some? { assert j < lf.value ==> data[j] in data[from..lf.value]; }
    }
  }

  /** The open slices of a call, seen from position i. */
  function Slices(marks: map<DataKind, nat>, data: string, i: nat): map<DataKind, string>
    requires i <= |data| && forall k :: k in marks ==> marks[k] <= i
  {
    map k | k in marks :: data[marks[k]..i]
  }

  lemma SlicesDrop(marks: map<DataKind, nat>, k: DataKind, data: string, i: nat)
    requires i <= |data| && forall j :: j in marks ==> marks[j] <= i
    ensures Slices(marks - {k}, data, i) == Slices(marks, data, i) - {k}
  {
  }

  lemma LeaveSlices(d: Delivery, c: char)
    ensures CloseSlice(d, Leave, c) == d
  {
  }

  /** A slice is closed by the callback on its mark. */
  lemma FlushSlices(log: seq<Event>, k: DataKind, marks: map<DataKind, nat>, data: string, i: nat, c: char)
    requires i <= |data| && forall j :: j in marks ==> marks[j] <= i
    ensures CloseSlice(Delivery(log, Slices(marks, data, i)), Flush(k), c) ==
            Delivery(if k in marks then Emit(log, Data(k, data[marks[k]..i])) else log, Slices(marks - {k}, data, i))
  {
    hide Emit;
    SlicesDrop(marks, k, data, i);
  }

  lemma SetAndCut(marks: map<DataKind, nat>, k: DataKind, i: nat)
    requires k !in marks
    ensures marks[k := i] - {k} == marks - {k}
  {
    assert marks[k := i].Keys - {k} == marks.Keys - {k};
  }

  /** The same where the mark is set first when it is not. */
  lemma FlushOpen(log: seq<Event>, k: DataKind, marks: map<DataKind, nat>, open: map<DataKind, nat>, data: string, i: nat)
    requires i < |data| && forall j :: j in marks ==> marks[j] <= i
    requires open == if k in marks then marks else marks[k := i]
    ensures var d := Delivery(log, Slices(marks, data, i));
      && CloseSlice(d, FlushEmpty(k), data[i]) ==
         Delivery(Emit(log, Data(k, data[open[k]..i])), Slices(open - {k}, data, i))
      && CloseSlice(d, FlushThrough(k), data[i]) ==
         Delivery(Emit(log, Data(k, data[open[k]..i + 1])), Slices(open - {k}, data, i))
  {
    hide Emit;
    SlicesDrop(marks, k, data, i);
    if k !in marks { SetAndCut(marks, k, i); }
    assert data[open[k]..i + 1] == data[open[k]..i] + [data[i]];
    assert k !in marks ==> data[i..i] == "";
  }

  lemma SlicesExtend(log: seq<Event>, marks: map<DataKind, nat>, data: string, i: nat)
    requires i < |data| && forall j :: j in marks ==> marks[j] <= i
    ensures Extend(Delivery(log, Slices(marks, data, i)), data[i]) == Delivery(log, Slices(marks, data, i + 1))
  {
    forall k | k in marks ensures data[marks[k]..i] + [data[i]] == data[marks[k]..i + 1] {
    }
  }

  /** A scan under way passes over everything up to the next CR or LF. */
  lemma ScanSteps(s: Machine, data: string, i: nat, j: nat, past: char, log: seq<Event>, marks: map<DataKind, nat>)
    requires i <= j <= |data| && (forall k :: k in marks ==> marks[k] <= i)
    requires var m := Feed(s, data, i, past); Running(m) && m.loop.Scanning? && m.p.nread + (j - i) < TWO_TO_32
    requires Feed(s, data, i, past).d == Delivery(log, Slices(marks, data, i))
    requires forall k :: i <= k < j ==> !IsBreak(data[k])
    ensures var m := Feed(s, data, i, past);
      Feed(s, data, j, past) == Machine(m.p.(nread := m.p.nread + (j - i)), Scanning,
                                        Delivery(log, Slices(marks, data, j)), m.consumed + (j - i), false)
    ensures Running(Feed(s, data, j, past))
  {
    hide Step, Good, Extend, Slices, IsBreak;
    if i < j {
      ScanSteps(s, data, i, j - 1, past, log, marks);
      var m := Feed(s, data, j - 1, past);
      ScanStep(m, data[j - 1], After(data, j - 1, past));
      SlicesExtend(log, marks, data, j - 1);
    }
  }

  lemma ScanningState(m: Machine)
    requires Running(m) && m.loop.Scanning?
    ensures m.p.state == Head(HeaderValue)
  {
    hide Inv, HeldFits;
  }

  /** A value whose scan finds no break within the header budget overflows it. */
  lemma LongScan(s: Machine, data: string, i: nat, past: char, log: seq<Event>, marks: map<DataKind, nat>)
    requires i <= |data| && (forall k :: k in marks ==> marks[k] <= i)
    requires var m := Feed(s, data, i, past);
      Running(m) && m.loop.Scanning? && m.p.nread + (|data| - i) + 1 < TWO_TO_32
    requires Feed(s, data, i, past).d == Delivery(log, Slices(marks, data, i))
    requires forall k :: i <= k < |data| && Feed(s, data, i, past).p.nread + (k - i) < MAX_HEADER_SIZE ==> !IsBreak(data[k])
    requires Feed(s, data, i, past).p.nread + (|data| - i) >= MAX_HEADER_SIZE
    ensures End(Feed(s, data, |data|, past)).p.errno == HeaderOverflow
  {
    hide Step, Transition, Good, Leftover, Slices, CloseSlice, Extend;
    var q := i;
    while q < |data| && !IsBreak(data[q])
      invariant i <= q <= |data| && forall k :: i <= k < q ==> !IsBreak(data[k])
    {
      q := q + 1;
    }
    ScanSteps(s, data, i, q, past, log, marks);
    if q < |data| {
      ScanningState(Feed(s, data, q, past));
      BreakStep(Feed(s, data, q, past), data[q], After(data, q, past));
      StoppedStays(s, data, q + 1, |data|, past);
    }
  }

  lemma BodySteps(s: Machine, data: string, i: nat, j: nat, past: char, log: seq<Event>, marks: map<DataKind, nat>)
    requires i < j <= |data| && BodyData in marks && (forall k :: k in marks ==> marks[k] <= i)
    requires var m := Feed(s, data, i, past);
      Running(m) && m.loop.Outside? && CopiesBody(m.p.state) && MoreThan(m.p, j - i)
    requires WithBody(Feed(s, data, i, past).d) == Delivery(log, Slices(marks, data, i))
    ensures var m := Feed(s, data, i, past);
      Feed(s, data, j, past) ==
      Machine(Less(m.p, j - i), Outside, Delivery(log, Slices(marks, data, j)), m.consumed + (j - i), false)
    ensures Running(Feed(s, data, j, past))
  {
    hide Step, Running, Extend, Slices, WithBody, CopiesBody;
    var m := Feed(s, data, i, past);
    if i < j - 1 {
      BodySteps(s, data, i, j - 1, past, log, marks);
      StillOpen(log, marks, data, j - 1);
      LessCopies(m.p, j - 1 - i);
    }
    BodyStep(Feed(s, data, j - 1, past), data[j - 1], After(data, j - 1, past));
    SlicesExtend(log, marks, data, j - 1);
  }

  /** The slice of the body is open. */
  lemma StillOpen(log: seq<Event>, marks: map<DataKind, nat>, data: string, i: nat)
    requires i <= |data| && BodyData in marks && forall k :: k in marks ==> marks[k] <= i
    ensures var d := Delivery(log, Slices(marks, data, i)); WithBody(d) == d
  {
  }

  lemma EmitNotice(raw: seq<Event>, n: Notice)
    ensures Join(raw + [Notify(n)]) == Join(raw) + [Notify(n)]
  {
    assert (raw + [Notify(n)])[..|raw|] == raw;
  }

  /** The notices of a byte come after its slice is closed, then its mark is set. */
  lemma Delivered(d: Delivery, o: Out, data: string, i: nat, rest: map<DataKind, nat>, log: seq<Event>)
    requires i < |data| && forall k :: k in rest ==> rest[k] <= i
    requires var e := CloseSlice(d, o.close, data[i]); log == e.log + Notes(o.tells) && e.held == Slices(rest, data, i)
    ensures var open := if o.mark.Some? && o.mark.value !in rest then rest[o.mark.value := i] else rest;
      && log == Deliver(d, o, data[i]).log
      && Extend(Deliver(d, o, data[i]), data[i]) == Delivery(log, Slices(open, data, i + 1))
  {
    hide CloseSlice, Notes, Extend;
    var open := if o.mark.Some? && o.mark.value !in rest then rest[o.mark.value := i] else rest;
    assert data[i..i] == "";
    assert Slices(open, data, i) == Deliver(d, o, data[i]).held;
    SlicesExtend(log, open, data, i);
  }

  lemma RunningIsOk(m: Machine)
    requires Running(m)
    ensures m.p.errno == OK
  {
  }

  lemma BodyStates(p: Parser)
    requires CopiesBody(p.state)
    ensures p.state == Body(BodyIdentityEof) || p.state == Body(BodyIdentity) || p.state == Chunk(ChunkData)
  {
  }

  /** The buffer ends inside the body or chunk. */
  lemma CopyAll(s: Machine, data: string, i: nat, past: char, log: seq<Event>, marks: map<DataKind, nat>)
    requires i < |data| && BodyData in marks && (forall k :: k in marks ==> marks[k] <= i)
    requires var m := Feed(s, data, i, past); var p := m.p;
      Running(m) && m.loop.Outside? && m.consumed == i && CopiesBody(p.state) &&
      (p.state == Body(BodyIdentityEof) || |data| - i < p.contentLength)
    requires WithBody(Feed(s, data, i, past).d) == Delivery(log, Slices(marks, data, i))
    ensures var p := Feed(s, data, i, past).p; var n := Feed(s, data, |data|, past);
      n == Machine(if p.state == Body(BodyIdentityEof) then p else p.(contentLength := p.contentLength - (|data| - i)),
                   Outside, Delivery(log, Slices(marks, data, |data|)), |data|, false)
      && Good(n)
  {
    hide Slices, Step, Inv, HeldFits, LoopFits, WithBody;
    BodySteps(s, data, i, |data|, past, log, marks);
  }

  lemma LessCopies(p: Parser, n: nat)
    requires CopiesBody(p.state) && MoreThan(p, n)
    ensures CopiesBody(Less(p, n).state)
  {
  }

  /** The machine before the byte that completes the body or chunk, and after it. */
  lemma LastBodySteps(s: Machine, data: string, i: nat, j: nat, past: char, log: seq<Event>, marks: map<DataKind, nat>)
    requires i < j <= |data| && BodyData in marks && (forall k :: k in marks ==> marks[k] <= i)
    requires var m := Feed(s, data, i, past);
      Running(m) && m.loop.Outside? && (m.p.state == Body(BodyIdentity) || m.p.state == Chunk(ChunkData)) &&
      m.p.contentLength == j - i && m.consumed == i
    requires WithBody(Feed(s, data, i, past).d) == Delivery(log, Slices(marks, data, i))
    ensures var n := Feed(s, data, j - 1, past);
      WithBody(n.d) == Delivery(log, Slices(marks, data, j - 1)) && n.consumed == j - 1 &&
      Feed(s, data, j, past) == Apply(n, LastByte(Feed(s, data, i, past).p.(contentLength := 1)), data[j - 1])
    ensures Good(Feed(s, data, j, past))
  {
    hide Step, Transition, Inv, Extend, LastByte, Apply;
    var n := Feed(s, data, j - 1, past);
    if i < j - 1 {
      BodySteps(s, data, i, j - 1, past, log, marks);
      assert WithBody(n.d) == n.d by { assert BodyData in Slices(marks, data, j - 1); }
    }
    LastBodyStep(n, data[j - 1], After(data, j - 1, past));
  }

  /** The callbacks of the byte that ends a message whose body slice is open. */
  lemma LastDelivery(d: Delivery, p: Parser, log: seq<Event>, marks: map<DataKind, nat>, data: string, i: nat)
    requires i < |data| && (forall k :: k in marks ==> marks[k] <= i) && BodyData in marks
    requires p.state == Body(BodyIdentity) && p.contentLength == 1 && p.errno == OK
    requires WithBody(d) == Delivery(log, Slices(marks, data, i))
    ensures var o := AtMessageDone(p.(contentLength := 0, state := Body(MessageDone)));
      && LastByte(p).p == o.p && LastByte(p).exit == o.exit
      && Deliver(d, LastByte(p), data[i]) ==
         Delivery(Emit(log, Data(BodyData, data[marks[BodyData]..i + 1])) + Notes(o.tells),
                  Slices(marks - {BodyData}, data, i))
  {
    hide AtMessageDone, Emit, Notes;
    var o := AtMessageDone(p.(contentLength := 0, state := Body(MessageDone)));
    DoneMarks(p.(contentLength := 0, state := Body(MessageDone)));
    SlicesDrop(marks, BodyData, data, i);
    assert WithBody(d).held[BodyData] == Slice(d, BodyData);
    assert data[marks[BodyData]..i + 1] == Slice(d, BodyData) + [data[i]];
    assert WithBody(d).held - {BodyData} == d.held - {BodyData};
  }

  lemma DoneMarks(p: Parser)
    ensures AtMessageDone(p).mark == None
  {
  }

  lemma AtMostOneMark(marks: map<DataKind, nat>, s: State)
    requires forall k :: k in marks ==> Live(s) == Some(k)
    ensures |marks| <= 1
  {
    if Live(s).Some? {
      assert marks.Keys <= {Live(s).value};
      assert |marks.Keys - {Live(s).value}| == 0;
    } else {
      assert marks == map[];
    }
  }

  class HttpParser {
    // struct http_parser, and the callbacks it has made
    var p: Parser
    var log: seq<Event>

    /** http_parser_init. */
    constructor (kind: Kind, lenient: bool)
      ensures Valid() && log == []
      ensures p.errno == OK && p.info.kind == kind && p.lenient == lenient && p.nread == 0
      ensures p.state == if kind.Request? then StartReq else if kind.Response? then StartRes else StartReqOrRes
    {
      var s := if kind.Request? then StartReq else if kind.Response? then StartRes else StartReqOrRes;
      p := Parser(Info(kind, 0, 0, 0, DELETE, false), NO_FLAGS, s, General, 0, lenient, 0, 0, OK);
      log := [];
    }

    ghost predicate Valid()
      reads this
    {
      Clean(p) && (p.errno == OK ==> Inv(p) && p.nread <= MAX_HEADER_SIZE)
    }

    /** The object is where the machine m is, before byte i. */
    ghost predicate At(m: Machine, marks: map<DataKind, nat>, data: string, i: nat)
      reads this
    {
      && i <= |data| && (forall k :: k in marks ==> marks[k] <= i)
      && p == m.p && m.loop.Outside? && !Stopped(m) && Good(m) && m.consumed == i
      && m.d == Delivery(Join(log), Slices(marks, data, i))
    }

    /** The same with byte i counted and the switch about to handle it. */
    ghost predicate AtSwitch(m: Machine, marks: map<DataKind, nat>, data: string, i: nat)
      reads this
    {
      && i < |data| && (forall k :: k in marks ==> marks[k] <= i)
      && p == Count(m.p, Outside) && p.errno == OK && m.loop.Outside? && !Stopped(m) && Good(m) && m.consumed == i
      && m.d == Delivery(Join(log), Slices(marks, data, i))
    }

    // CALLBACK_NOTIFY for each notice
    method Notifications(ns: seq<Notice>)
      modifies `log
      ensures Join(log) == old(Join(log)) + Notes(ns)
    {
      for j := 0 to |ns|
        invariant Join(log) == old(Join(log)) + Notes(ns)[..j]
      {
        log := log + [Notify(ns[j])];
        assert Notes(ns)[..j + 1] == Notes(ns)[..j] + [Notify(ns[j])];
      }
    }

    // CALLBACK_DATA_: the slice of kind k up to `end`, if its mark is set
    method Callback(k: DataKind, marks: map<DataKind, nat>, data: string, end: nat) returns (rest: map<DataKind, nat>)
      requires end <= |data| && forall j :: j in marks ==> marks[j] <= end
      modifies `log
      ensures rest == marks - {k}
      ensures Join(log) == if k in marks then Emit(old(Join(log)), Data(k, data[marks[k]..end])) else old(Join(log))
    {
      if k in marks {
        log := log + [Data(k, data[marks[k]..end])];
      }
      rest := marks - {k};
    }

    /** The states handled one byte at a time. */
    static predicate Single(s: State) {
      s != Head(HeaderField) && s != Head(HeaderValue) && s != Chunk(ChunkData) &&
      s != Body(BodyIdentity) && s != Body(BodyIdentityEof)
    }

    method CloseMark(close: Close, marks: map<DataKind, nat>, data: string, i: nat) returns (rest: map<DataKind, nat>)
      requires i < |data| && forall j :: j in marks ==> marks[j] <= i
      modifies `log
      ensures forall j :: j in rest ==> rest[j] <= i
      ensures Delivery(Join(log), Slices(rest, data, i)) ==
              CloseSlice(old(Delivery(Join(log), Slices(marks, data, i))), close, data[i])
    {
      hide *;
      ghost var d := Delivery(Join(log), Slices(marks, data, i));
      LeaveSlices(d, data[i]);
      match close {
        case Leave => rest := marks;
        case Flush(k) =>
          FlushSlices(Join(log), k, marks, data, i, data[i]);
          rest := Callback(k, marks, data, i);
        case FlushEmpty(k) =>
          var open := if k in marks then marks else marks[k := i];
          FlushOpen(Join(log), k, marks, open, data, i);
          rest := Callback(k, open, data, i);
        case FlushThrough(k) =>
          var open := if k in marks then marks else marks[k := i];
          FlushOpen(Join(log), k, marks, open, data, i);
          rest := Callback(k, open, data, i + 1);
      }
    }

    /** The callbacks and field updates of a byte with outcome o. */
    method Perform(o: Out, data: string, i: nat, marks: map<DataKind, nat>, ghost m: Machine)
      returns (rest: map<DataKind, nat>)
      requires i < |data| && forall k :: k in marks ==> marks[k] <= i
      requires m.d == Delivery(Join(log), Slices(marks, data, i))
      modifies this
      ensures forall k :: k in rest ==> rest[k] <= i
      ensures p == o.p && Join(log) == Deliver(m.d, o, data[i]).log
      ensures Extend(Deliver(m.d, o, data[i]), data[i]) == Delivery(Join(log), Slices(rest, data, i + 1))
    {
      hide *;
      rest := CloseMark(o.close, marks, data, i);
      Notifications(o.tells);
      Delivered(m.d, o, data, i, rest, Join(log));
      if o.mark.Some? && o.mark.value !in rest {
        rest := rest[o.mark.value := i];
      }
      p := o.p;
    }

    method SingleByte(data: string, i: nat, past: char, marks: map<DataKind, nat>, ghost m: Machine)
      returns (rest: map<DataKind, nat>, exit: bool)
      requires AtSwitch(m, marks, data, i) && Single(p.state)
      modifies this
      ensures var n := Step(m, data[i], After(data, i, past));
        && p == n.p && exit == n.exited && Join(log) == n.d.log && Good(n)
        && n.consumed == (if p.errno == OK then i + 1 else i)
        && (!Stopped(n) ==> At(n, rest, data, i + 1))
    {
      hide Transition;
      var o := Transition(p, Outside, data[i], After(data, i, past));
      StepKeepsGood(m, data[i], After(data, i, past));
      TransitionTidy(p, Outside, data[i], After(data, i, past));
      assert Step(m, data[i], After(data, i, past)) == Apply(m, o, data[i]);
      rest := Perform(o, data, i, marks, m);
      exit := o.exit && p.errno == OK;
    }

    /** Inside s_header_field or s_header_value, entered at byte `start` and now before byte i:
        the bytes since `start` are not in nread yet. */
    ghost predicate InLoop(m: Machine, marks: map<DataKind, nat>, data: string, start: nat, i: nat)
      reads this
    {
      && start <= i <= |data| <= MAX_CALL && (forall k :: k in marks ==> marks[k] <= start)
      && Running(m) && m.consumed == i && (i == start <==> m.loop.Outside?)
      && p == m.p.(nread := p.nread) && p.nread + (i - start) == m.p.nread + 1 && p.nread <= MAX_HEADER_SIZE
      && m.d == Delivery(Join(log), Slices(marks, data, i))
    }

    /** The loop of s_header_field over token characters. */
    method FieldLoop(data: string, start: nat, past: char, marks: map<DataKind, nat>, ghost s: Machine)
      returns (i: nat)
      requires start < |data| && p.state == Head(HeaderField)
      requires InLoop(Feed(s, data, start, past), marks, data, start, start)
      modifies `p
      ensures start <= i <= |data|
      ensures i < |data| ==> !IsToken(data[i])
      ensures p.state == Head(HeaderField) && InLoop(Feed(s, data, i, past), marks, data, start, i)
    {
      hide Step, Transition, FieldChar, IsToken, Inv, HeldFits, Join, Slices, Extend;
      i := start;
      ghost var m := Feed(s, data, start, past);
      while i < |data| && IsToken(data[i])
        invariant start <= i <= |data|
        invariant m == Feed(s, data, i, past)
        invariant InLoop(m, marks, data, start, i) && p.state == Head(HeaderField)
      {
        TokenStep(m, data[i], After(data, i, past));
        match FieldChar(p.headerState, p.index, TokenOf(data[i])) {
          case Some((h, j)) => p := p.(headerState := h, index := j);
          case None => assert false;
        }
        SlicesExtend(Join(log), marks, data, i);
        m := Step(m, data[i], After(data, i, past));
        i := i + 1;
      }
    }

    /** The budget is gone: whatever follows, both the code and the machine report it. */
    ghost predicate Overrun(s: Machine, data: string, start: nat, past: char)
      reads this
    {
      start <= |data| && p.nread + (|data| - start) > MAX_HEADER_SIZE &&
      End(Feed(s, data, |data|, past)).p.errno == HeaderOverflow
    }

    /** A general value: from byte i on, memchr() decides. */
    method Scan(data: string, start: nat, i: nat, past: char, marks: map<DataKind, nat>, ghost s: Machine)
      returns (q: nat)
      requires start <= i < |data| && p.state == Head(HeaderValue) && p.headerState.General? && !IsBreak(data[i])
      requires InLoop(Feed(s, data, i, past), marks, data, start, i) && !Feed(s, data, i, past).loop.Scanning?
      requires p.lenient || IsHeaderChar(data[i])
      ensures i < q <= |data| && (q < |data| ==> IsBreak(data[q]))
      ensures InLoop(Feed(s, data, q, past), marks, data, start, q) || (q == |data| && Overrun(s, data, start, past))
    {
      hide Step, Transition, Inv, HeldFits, Join, Slices, Extend, IsHeaderChar;
      q := ScanValue(data, i);
      assert !IsBreak(data[i]);
      ghost var m := Feed(s, data, i, past);
      ValueCharStep(m, p, data[i], After(data, i, past));
      SlicesExtend(Join(log), marks, data, i);
      if q < |data| || |data| - i <= MAX_HEADER_SIZE {
        ScanSteps(s, data, i + 1, q, past, Join(log), marks);
      } else {
        LongScan(s, data, i + 1, past, Join(log), marks);
      }
    }

    lemma LoopFacts(m: Machine, marks: map<DataKind, nat>, data: string, start: nat, i: nat)
      requires InLoop(m, marks, data, start, i) && p.state == Head(HeaderValue)
      ensures p.errno == OK && Clean(p) && (i == start ==> !m.loop.Scanning?)
    {
      hide HeldFits, Inv, Join, Slices;
    }

    /** A byte that no header value may hold. */
    method RejectByte(data: string, start: nat, i: nat, past: char, marks: map<DataKind, nat>, ghost s: Machine)
      requires i < |data| && p.state == Head(HeaderValue) && !IsBreak(data[i]) && !p.lenient && !IsHeaderChar(data[i])
      requires InLoop(Feed(s, data, i, past), marks, data, start, i) && !Feed(s, data, i, past).loop.Scanning?
      modifies `p
      ensures Clean(p) && p.errno != OK && Rejected(Feed(s, data, i + 1, past), i)
    {
      hide Step, Transition, Inv, HeldFits, Join, Slices, Extend, ValueChar, IsHeaderChar;
      ValueStep(Feed(s, data, i, past), data[i], After(data, i, past));
      p := p.(errno := InvalidHeaderToken);
    }

    /** One byte of a value that the code looks into. */
    method ValueOne(data: string, start: nat, i: nat, past: char, marks: map<DataKind, nat>, ghost s: Machine)
      requires i < |data| && p.state == Head(HeaderValue) && !p.headerState.General? && !IsBreak(data[i])
      requires InLoop(Feed(s, data, i, past), marks, data, start, i) && !Feed(s, data, i, past).loop.Scanning?
      requires p.lenient || IsHeaderChar(data[i])
      modifies `p
      ensures Clean(p) && (p.errno != OK ==> Rejected(Feed(s, data, i + 1, past), i))
      ensures p.errno == OK ==>
        && p.state == Head(HeaderValue) && !Feed(s, data, i + 1, past).loop.Scanning?
        && InLoop(Feed(s, data, i + 1, past), marks, data, start, i + 1)
    {
      hide Step, Transition, Inv, HeldFits, Join, Slices, Extend, ValueChar, IsHeaderChar;
      ValueCharStep(Feed(s, data, i, past), p, data[i], After(data, i, past));
      SlicesExtend(Join(log), marks, data, i);
      p := ValueChar(p, data[i]).p;
    }

    /** The loop of s_header_value up to a CR or LF. It ends at that byte, at the end of the
        buffer, or at a byte it rejects (errno is set). */
    method ValueLoop(data: string, start: nat, past: char, marks: map<DataKind, nat>, ghost s: Machine)
      returns (i: nat)
      requires start < |data| && p.state == Head(HeaderValue)
      requires InLoop(Feed(s, data, start, past), marks, data, start, start)
      modifies `p
      ensures start <= i <= |data| && Clean(p)
      ensures p.errno == OK ==> p.state == Head(HeaderValue) && (i < |data| ==> IsBreak(data[i]))
      ensures p.errno == OK ==>
        InLoop(Feed(s, data, i, past), marks, data, start, i) || (i == |data| && Overrun(s, data, start, past))
      ensures p.errno != OK ==> i < |data| && Rejected(Feed(s, data, i + 1, past), i)
    {
      hide *;
      i := start;
      LoopFacts(Feed(s, data, i, past), marks, data, start, i);
      while i < |data| && !IsBreak(data[i])
        invariant start <= i <= |data|
        invariant p.errno == OK && Clean(p) && p.state == Head(HeaderValue)
        invariant InLoop(Feed(s, data, i, past), marks, data, start, i) || (i == |data| && Overrun(s, data, start, past))
        invariant i < |data| && !IsBreak(data[i]) ==> !Feed(s, data, i, past).loop.Scanning?
      {
        if !p.lenient && !IsHeaderChar(data[i]) {
          RejectByte(data, start, i, past, marks, s);
          return;
        }
        if p.headerState.General? {
          i := Scan(data, start, i, past, marks, s);
        } else {
          ValueOne(data, start, i, past, marks, s);
          if p.errno != OK { return; }
          i := i + 1;
        }
      }
    }

    /** The machine stopped at byte i with the error and the callbacks of this object. */
    ghost predicate Rejected(n: Machine, i: nat)
      reads this
    {
      n.p.errno == p.errno && p.errno != OK && n.d.log == Join(log) && n.consumed == i && !n.exited
    }

    /** The last byte of a body, at position i: its slice, then the end of the message. */
    method EndBody(data: string, i: nat, marks: map<DataKind, nat>, ghost n: Machine)
      returns (rest: map<DataKind, nat>, exit: bool)
      requires i < |data| && (forall k :: k in marks ==> marks[k] <= i) && BodyData in marks
      requires p.state == Body(BodyIdentity) && p.contentLength == 1 && p.errno == OK
      requires WithBody(n.d) == Delivery(Join(log), Slices(marks, data, i))
      modifies this
      ensures forall k :: k in rest ==> rest[k] <= i
      ensures p == LastByte(old(p)).p && exit == LastByte(old(p)).exit
      ensures Deliver(n.d, LastByte(old(p)), data[i]) == Delivery(Join(log), Slices(rest, data, i))
    {
      hide *;
      LastDelivery(n.d, p, Join(log), marks, data, i);
      p := p.(contentLength := 0, state := Body(MessageDone));
      rest := Callback(BodyData, marks, data, i + 1);
      var o := AtMessageDone(p);
      Notifications(o.tells);
      p := o.p;
      exit := o.exit;
    }

    /** The object after a bulk read that ends before byte j. */
    ghost predicate Copied(n: Machine, rest: map<DataKind, nat>, exit: bool, data: string, j: nat)
      reads this
    {
      && p == n.p && p.errno == OK && Good(n) && exit == n.exited && Join(log) == n.d.log && n.consumed == j
      && (!exit ==> At(n, rest, data, j))
    }

    lemma IsCopied(n: Machine, rest: map<DataKind, nat>, exit: bool, data: string, j: nat)
      requires j <= |data| && (forall k :: k in rest ==> rest[k] <= j) && Good(n) && p.errno == OK && n.loop.Outside?
      requires n == Machine(p, Outside, Delivery(Join(log), Slices(rest, data, j)), j, exit)
      ensures Copied(n, rest, exit, data, j)
    {
      hide Good, Join, Slices;
    }

    lemma AtIt(m: Machine, marks: map<DataKind, nat>, data: string, i: nat)
      requires AtSwitch(m, marks, data, i) && CopiesBody(p.state)
      ensures i < |data| && (forall k :: k in marks ==> marks[k] <= i) && p.errno == OK
      ensures p == m.p && Running(m) && m.loop.Outside? && m.consumed == i
      ensures WithBody(m.d) == Delivery(Join(log), Slices(if BodyData in marks then marks else marks[BodyData := i], data, i))
      ensures p.state != Body(BodyIdentityEof) ==> p.contentLength > 0
    {
      hide Join, HeldFits;
      assert data[i..i] == "";
    }

    /** The buffer reaches the end of the body or chunk, just before byte j. */
    method CompleteBody(data: string, i: nat, j: nat, past: char, marks: map<DataKind, nat>, ghost s: Machine)
      returns (rest: map<DataKind, nat>, exit: bool)
      requires i < j <= |data| && BodyData in marks && (forall k :: k in marks ==> marks[k] <= i)
      requires p.state == Body(BodyIdentity) || p.state == Chunk(ChunkData)
      requires var m := Feed(s, data, i, past);
        p == m.p && Running(m) && m.loop.Outside? && m.p.contentLength == j - i && m.consumed == i
      requires WithBody(Feed(s, data, i, past).d) == Delivery(Join(log), Slices(marks, data, i))
      modifies this
      ensures Copied(Feed(s, data, j, past), rest, exit, data, j)
    {
      hide *;
      RunningIsOk(Feed(s, data, i, past));
      LastBodySteps(s, data, i, j, past, Join(log), marks);
      LastByteApplied(Feed(s, data, j - 1, past), p.(contentLength := 1), data[j - 1]);
      if p.state == Chunk(ChunkData) {
        rest, exit := marks, false;
        SlicesExtend(Join(log), rest, data, j - 1);
        p := p.(contentLength := 0, state := Chunk(ChunkDataAlmostDone));
      } else {
        p := p.(contentLength := 1);
        rest, exit := EndBody(data, j - 1, marks, Feed(s, data, j - 1, past));
        SlicesExtend(Join(log), rest, data, j - 1);
      }
      IsCopied(Feed(s, data, j, past), rest, exit, data, j);
    }

    /** s_body_identity, s_chunk_data and s_body_identity_eof: all the bytes at hand at once. */
    method CopyBody(data: string, i: nat, past: char, marks: map<DataKind, nat>, ghost s: Machine)
      returns (j: nat, rest: map<DataKind, nat>, exit: bool)
      requires i < |data| && CopiesBody(p.state)
      requires AtSwitch(Feed(s, data, i, past), marks, data, i)
      modifies this
      ensures i < j <= |data| && Copied(Feed(s, data, j, past), rest, exit, data, j)
    {
      hide *;
      ghost var m := Feed(s, data, i, past);
      AtIt(m, marks, data, i);
      BodyStates(p);
      rest := if BodyData in marks then marks else marks[BodyData := i];
      exit := false;
      if p.state == Body(BodyIdentityEof) {
        j := |data|;
        CopyAll(s, data, i, past, Join(log), rest);
        IsCopied(Feed(s, data, j, past), rest, exit, data, j);
      } else if |data| - i < p.contentLength {
        j := |data|;
        CopyAll(s, data, i, past, Join(log), rest);
        p := p.(contentLength := p.contentLength - (j - i));
        IsCopied(Feed(s, data, j, past), rest, exit, data, j);
      } else {
        j := i + p.contentLength;
        rest, exit := CompleteBody(data, i, j, past, rest, s);
      }
    }

    // ---- the two header states with inner loops --------------------------------------------------

    /** Between two rounds of the outer loop. At the end of the buffer the code has already
        counted the bytes of an inner loop, which the machine counts on ending the call. */
    ghost predicate Ready(m: Machine, marks: map<DataKind, nat>, data: string, i: nat)
      reads this
    {
      && i <= |data| && (forall k :: k in marks ==> marks[k] <= i)
      && Running(m) && m.consumed == i && m.d == Delivery(Join(log), Slices(marks, data, i))
      && (if m.loop.Outside? then p == m.p
          else i == |data| && p == m.p.(nread := m.p.nread + 1) && p.nread <= MAX_HEADER_SIZE)
    }

    /** The call fails at byte i. When the header budget is exceeded, memchr() may have passed
        over the byte at which the machine notices, so only the error itself is compared. */
    ghost predicate Failed(s: Machine, data: string, past: char, i: nat)
      reads this
    {
      var c := End(Feed(s, data, |data|, past));
      && p.errno != OK && c.p.errno == p.errno && Clean(p)
      && (p.errno != HeaderOverflow ==> c.consumed == i && c.d.log == Join(log) && !c.exited)
    }

    /** The byte after the field name: ':' or an error. */
    method FieldEnd(data: string, start: nat, i: nat, past: char, marks: map<DataKind, nat>, ghost s: Machine)
      returns (rest: map<DataKind, nat>)
      requires i < |data| && !IsToken(data[i])
      requires p.state == Head(HeaderField) && InLoop(Feed(s, data, i, past), marks, data, start, i)
      modifies this
      ensures p.errno != OK ==> Failed(s, data, past, i)
      ensures p.errno == OK ==> Ready(Feed(s, data, i + 1, past), rest, data, i + 1)
    {
      hide Step, Transition, Inv, HeldFits, LoopFits, Join, Slices, Extend, IsToken;
      rest := marks;
      ghost var m := Feed(s, data, i, past);
      FieldEndStep(m, data[i], After(data, i, past));
      p := p.(nread := p.nread + (i - start));
      if p.nread > MAX_HEADER_SIZE {
        p := p.(errno := HeaderOverflow);
        StoppedStays(s, data, i + 1, |data|, past);
      } else if data[i] == ':' {
        p := p.(state := Head(HeaderValueDiscardWs));
        rest := CloseMark(Flush(FieldData), marks, data, i);
        SlicesExtend(Join(log), rest, data, i);
      } else {
        p := p.(errno := InvalidHeaderToken);
        StoppedStays(s, data, i + 1, |data|, past);
      }
    }

    method FieldState(data: string, start: nat, past: char, marks: map<DataKind, nat>, ghost s: Machine)
      returns (i: nat, rest: map<DataKind, nat>)
      requires start < |data| && p.state == Head(HeaderField)
      requires InLoop(Feed(s, data, start, past), marks, data, start, start)
      modifies this
      ensures start <= i <= |data|
      ensures p.errno != OK ==> Failed(s, data, past, i)
      ensures p.errno == OK ==> start < i && Ready(Feed(s, data, i, past), rest, data, i)
    {
      hide Step, Transition, Inv, HeldFits, Join, Slices, Extend, IsToken;
      i := FieldLoop(data, start, past, marks, s);
      if i < |data| {
        rest := FieldEnd(data, start, i, past, marks, s);
        i := if p.errno == OK then i + 1 else i;
      } else {
        rest := marks;
        p := p.(nread := p.nread + (i - start));
        if p.nread > MAX_HEADER_SIZE {
          p := p.(errno := HeaderOverflow);
        }
      }
    }

    /** The CR or LF that ends a header value. */
    method ValueEnd(data: string, start: nat, i: nat, past: char, marks: map<DataKind, nat>, ghost s: Machine)
      returns (rest: map<DataKind, nat>)
      requires i < |data| && IsBreak(data[i])
      requires p.state == Head(HeaderValue) && InLoop(Feed(s, data, i, past), marks, data, start, i)
      modifies this
      ensures p.errno != OK ==> Failed(s, data, past, i)
      ensures p.errno == OK ==> Ready(Feed(s, data, i + 1, past), rest, data, i + 1)
    {
      hide Step, Transition, Inv, HeldFits, LoopFits, Join, Slices, Extend;
      rest := marks;
      ghost var m := Feed(s, data, i, past);
      BreakStep(m, data[i], After(data, i, past));
      p := p.(nread := p.nread + (i - start), state := Head(HeaderAlmostDone));
      if data[i] == CR {
        rest := CloseMark(Flush(ValueData), marks, data, i);
        if p.nread > MAX_HEADER_SIZE {
          p := p.(errno := HeaderOverflow);
          StoppedStays(s, data, i + 1, |data|, past);
          return;
        }
      } else {
        if p.nread > MAX_HEADER_SIZE {
          p := p.(errno := HeaderOverflow);
          StoppedStays(s, data, i + 1, |data|, past);
          return;
        }
        rest := CloseMark(Flush(ValueData), marks, data, i);
        p := AtHeaderAlmostDone(p, data[i]).p;
      }
      SlicesExtend(Join(log), rest, data, i);
    }

    method ValueState(data: string, start: nat, past: char, marks: map<DataKind, nat>, ghost s: Machine)
      returns (i: nat, rest: map<DataKind, nat>)
      requires start < |data| && p.state == Head(HeaderValue)
      requires InLoop(Feed(s, data, start, past), marks, data, start, start)
      modifies this
      ensures start <= i <= |data|
      ensures p.errno != OK ==> Failed(s, data, past, i)
      ensures p.errno == OK ==> start < i && Ready(Feed(s, data, i, past), rest, data, i)
    {
      hide Step, Transition, Inv, HeldFits, Join, Slices, Extend;
      i := ValueLoop(data, start, past, marks, s);
      rest := marks;
      if p.errno != OK {
        StoppedStays(s, data, i + 1, |data|, past);
      } else if i < |data| {
        rest := ValueEnd(data, start, i, past, marks, s);
        i := if p.errno == OK then i + 1 else i;
      } else {
        p := p.(nread := p.nread + (i - start));
        if p.nread > MAX_HEADER_SIZE {
          p := p.(errno := HeaderOverflow);
        }
      }
    }

    // ---- the call ----------------------------------------------------------------------------------

    /** One round of the outer loop. */
    method Round(data: string, i: nat, past: char, marks: map<DataKind, nat>, ghost s: Machine)
      returns (j: nat, rest: map<DataKind, nat>, exit: bool)
      requires i < |data| <= MAX_CALL && Ready(Feed(s, data, i, past), marks, data, i)
      modifies this
      ensures i <= j <= |data| && (exit ==> p.errno == OK)
      ensures p.errno != OK ==> Failed(s, data, past, j)
      ensures p.errno == OK && !exit ==> i < j && Ready(Feed(s, data, j, past), rest, data, j)
      ensures exit ==> var n := Feed(s, data, j, past);
        n.exited && p == n.p && Good(n) && Join(log) == n.d.log && n.consumed == j
    {
      hide Step, Transition, Inv, HeldFits, Join, Slices, Extend, Apply;
      ghost var m := Feed(s, data, i, past);
      CountStops(m, data[i], After(data, i, past));
      j, rest, exit := i, marks, false;
      if ParsingHeader(p.state) {
        p := p.(nread := p.nread + 1);
        if p.nread > MAX_HEADER_SIZE {
          p := p.(errno := HeaderOverflow);
          StoppedStays(s, data, i + 1, |data|, past);
          return;
        }
      }
      if p.state == Head(HeaderField) {
        j, rest := FieldState(data, i, past, marks, s);
      } else if p.state == Head(HeaderValue) {
        j, rest := ValueState(data, i, past, marks, s);
      } else if CopiesBody(p.state) {
        j, rest, exit := CopyBody(data, i, past, marks, s);
      } else {
        rest, exit := SingleByte(data, i, past, marks, m);
        if p.errno != OK {
          StoppedStays(s, data, i + 1, |data|, past);
        } else {
          j := i + 1;
        }
      }
    }

    /** http_parser_execute: the error is that of the one-byte machine, unless the header budget is
        exceeded the number of bytes consumed and the callbacks are, and without an error the fields. */
    method Execute(data: string, past: char) returns (consumed: nat)
      requires Valid() && |data| <= MAX_CALL
      modifies this
      ensures Valid()
      ensures var c := Call(old(p), old(Join(log)), data, past);
        && p.errno == c.p.errno
        && (p.errno == OK || old(p.errno) != OK ==> p == c.p)
        && (p.errno != HeaderOverflow ==> consumed == c.consumed && Join(log) == c.d.log)
    {
      if p.errno != OK {
        return 0;
      }
      if |data| == 0 {
        consumed := EndOfStream();
        return;
      }
      consumed := Run(data, past);
    }

    method EndOfStream() returns (consumed: nat)
      requires Valid() && p.errno == OK
      modifies this
      ensures Valid()
      ensures var c := Eof(old(p), old(Join(log))); p == c.p && consumed == c.consumed && Join(log) == c.d.log
    {
      hide Inv, Join;
      consumed := 0;
      if p.state == Body(BodyIdentityEof) {
        log := log + [Notify(MessageComplete)];
        EmitNotice(old(log), MessageComplete);
      } else if !(p.state.Dead? || p.state.StartReqOrRes? || p.state.StartRes? || p.state.StartReq?) {
        p := p.(errno := InvalidEofState);
        consumed := 1;
      }
    }

    /** The loop over the bytes of a call and the leftover marks. */
    method Run(data: string, past: char) returns (i: nat)
      requires Valid() && p.errno == OK && 0 < |data| <= MAX_CALL
      modifies this
      ensures Valid()
      ensures var c := Call(old(p), old(Join(log)), data, past);
        && p.errno == c.p.errno && (p.errno == OK ==> p == c.p)
        && (p.errno != HeaderOverflow ==> i == c.consumed && Join(log) == c.d.log)
    {
      hide Step, Transition, Join, Apply, Leftover;
      ghost var s := Start(p, Join(log));
      var marks: map<DataKind, nat> := if EntryMark(p.state).Some? then map[EntryMark(p.state).value := 0] else map[];
      i := 0;
      var exit := false;
      assert Ready(Feed(s, data, 0, past), marks, data, 0) by {
        assert data[0..0] == "";
        assert Slices(marks, data, 0) == EntryMarks(p.state);
      }
      while i < |data|
        invariant i <= |data| && Ready(Feed(s, data, i, past), marks, data, i)
      {
        i, marks, exit := Round(data, i, past, marks, s);
        if p.errno != OK { return; }
        if exit {
          StoppedStays(s, data, i, |data|, past);
          return;
        }
      }
      FlushLeftovers(data, marks, Feed(s, data, |data|, past));
    }

    /** At most one mark is set when the bytes have run out; the five callbacks in order. */
    method FlushLeftovers(data: string, marks: map<DataKind, nat>, ghost m: Machine)
      requires Ready(m, marks, data, |data|)
      modifies `log
      ensures Join(log) == Leftover(m.d).log
    {
      hide Inv, Join;
      var n := |data|;
      assert |marks| <= 1 by { AtMostOneMark(marks, m.p.state); }
      var f := FlushMark(FieldData, marks, data);
      var v := FlushMark(ValueData, f, data);
      var u := FlushMark(UrlData, v, data);
      var b := FlushMark(BodyData, u, data);
      var t := FlushMark(StatusData, b, data);
    }

    method FlushMark(k: DataKind, marks: map<DataKind, nat>, data: string) returns (rest: map<DataKind, nat>)
      requires forall j :: j in marks ==> marks[j] <= |data|
      modifies `log
      ensures rest == marks - {k}
      ensures Delivery(Join(log), Slices(rest, data, |data|)) ==
              CloseSlice(old(Delivery(Join(log), Slices(marks, data, |data|))), Flush(k), '\0')
    {
      SlicesDrop(marks, k, data, |data|);
      rest := Callback(k, marks, data, |data|);
    }
  }
}
