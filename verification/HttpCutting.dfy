/** Cutting a stream into calls. A run that is cut anywhere and fed piece by piece ends like the
    run of a single call, with the exceptions that the code makes. */
module HttpCutting {
  import opened Basics
  import opened HttpBase
  import opened HttpMachine
  import opened HttpRun
  import opened HttpSteps
  import opened HttpBudget

  // ---- what the application has seen or is about to see ---------------------------------------

  /** The joined trace with the open slice appended. */
  function Visible(d: Delivery): seq<Event> { Leftover(d).log }

  lemma EmitTwice(log: seq<Event>, k: DataKind, a: string, b: string)
    ensures Emit(Emit(log, Data(k, a)), Data(k, b)) == Emit(log, Data(k, a + b))
  {
    var e := Emit(log, Data(k, a));
    if |e| == |log| {
      assert e[..|e| - 1] == log[..|log| - 1];
      assert (log[|log| - 1].bytes + a) + b == log[|log| - 1].bytes + (a + b);
    } else {
      assert e[..|e| - 1] == log;
    }
  }

  lemma VisibleOf(d: Delivery, s: State)
    requires HeldFits(d.held, s)
    ensures d.held == map[] ==> Visible(d) == d.log
    ensures forall k :: k in d.held ==> Visible(d) == Emit(d.log, Data(k, d.held[k]))
    ensures d.held == map[] || (Live(s).Some? && d.held.Keys == {Live(s).value})
  {
    if k :| k in d.held {
      assert d.held.Keys == {k};
    }
  }

  /** The visible trace once the open slice is closed. */
  function Closed(v: seq<Event>, close: Close, c: char): seq<Event> {
    match close
    case Leave => v
    case Flush(_) => v
    case FlushEmpty(k) => Emit(v, Data(k, ""))
    case FlushThrough(k) => Emit(v, Data(k, [c]))
  }

  /** The visible trace after a byte, as a function of the one before it. */
  function Shown(v: seq<Event>, s: State, o: Out, c: char): seq<Event> {
    if o.close.Leave? && Live(s).Some? then Emit(v, Data(Live(s).value, [c]))
    else
      var w := Closed(v, o.close, c) + Notes(o.tells);
      if o.mark.Some? then Emit(w, Data(o.mark.value, [c])) else w
  }

  lemma CloseVisible(d: Delivery, s: State, close: Close, c: char)
    requires HeldFits(d.held, s)
    requires match close
             case Leave => Live(s) == None
             case Flush(k) => Live(s) == Some(k)
             case FlushEmpty(k) => Live(s) == None
             case FlushThrough(k) => Live(s) == Some(k)
    ensures CloseSlice(d, close, c) == Delivery(Closed(Visible(d), close, c), map[])
  {
    hide Leftover;
    VisibleOf(d, s);
    if close.FlushThrough? && close.kind in d.held {
      EmitTwice(d.log, close.kind, d.held[close.kind], [c]);
    }
    if close.FlushThrough? && close.kind !in d.held {
      assert "" + [c] == [c];
    }
    assert CloseSlice(d, close, c).held == map[];
  }

  lemma VisibleApply(d: Delivery, s: State, o: Out, c: char)
    requires HeldFits(d.held, s) && Tidy(s, o)
    ensures Visible(Extend(Deliver(d, o, c), c)) == Shown(Visible(d), s, o, c)
  {
    hide Leftover, Emit;
    var e := Extend(Deliver(d, o, c), c);
    if o.close.Leave? && Live(s).Some? {
      var k := Live(s).value;
      assert Notes(o.tells) == [];
      assert e.log == d.log && e.held == map[k := Slice(d, k) + [c]] by {
        assert d.log + [] == d.log;
      }
      VisibleOf(e, o.p.state);
      VisibleOf(d, s);
      if k in d.held {
        EmitTwice(d.log, k, d.held[k], [c]);
      } else {
        assert d.held == map[] && "" + [c] == [c];
      }
    } else {
      CloseVisible(d, s, o.close, c);
      if o.mark.Some? {
        assert "" + [c] == [c];
        assert e.held == map[o.mark.value := [c]];
      }
      VisibleOf(e, o.p.state);
    }
  }

  // ---- the header budget does not steer the parser --------------------------------------------

  /** Two outcomes that differ in nread alone: it is m here and n there as before, or set to 0. */
  predicate SameBut(a: Out, b: Out, m: nat, n: nat) {
    b == a.(p := a.p.(nread := b.p.nread)) && ((a.p.nread == m && b.p.nread == n) || a.p.nread == b.p.nread == 0)
  }

  lemma UrlNread(p: Parser, n: nat, u: UrlState, c: char)
    requires p.nread <= n
    ensures SameBut(AtUrl(p, u, c), AtUrl(p.(nread := n), u, c), p.nread, n)
  {
    hide Inv;
  }

  lemma ResNread(p: Parser, n: nat, r: ResState, c: char)
    requires p.nread <= n
    ensures SameBut(ResByte(p, r, c), ResByte(p.(nread := n), r, c), p.nread, n)
  {
    hide Inv;
  }

  lemma VersionNread(p: Parser, n: nat, v: VersionState, c: char)
    requires p.nread <= n
    ensures SameBut(VersionByte(p, v, c), VersionByte(p.(nread := n), v, c), p.nread, n)
  {
    hide Inv;
  }

  lemma StartNread(p: Parser, n: nat, c: char, next: char)
    requires p.nread <= n
    ensures p.state.StartReqOrRes? ==> SameBut(AtStartReqOrRes(p, c, next), AtStartReqOrRes(p.(nread := n), c, next), p.nread, n)
    ensures p.state.StartReq? ==> SameBut(AtStartReq(p, c, next), AtStartReq(p.(nread := n), c, next), p.nread, n)
    ensures p.state.StartRes? ==> SameBut(AtStartRes(p, c), AtStartRes(p.(nread := n), c), p.nread, n)
    ensures p.state.ResOrRespH? ==> SameBut(AtResOrRespH(p, c), AtResOrRespH(p.(nread := n), c), p.nread, n)
  {
    hide Inv;
  }

  lemma MethodNread(p: Parser, n: nat, c: char)
    requires p.nread <= n
    ensures SameBut(AtReqMethod(p, c), AtReqMethod(p.(nread := n), c), p.nread, n)
    ensures p.state.ReqSpacesBeforeUrl? ==> SameBut(AtReqSpacesBeforeUrl(p, c), AtReqSpacesBeforeUrl(p.(nread := n), c), p.nread, n)
  {
    hide Inv, MethodName, NextGuess;
  }

  lemma HeadersDoneNread(p: Parser, n: nat, c: char)
    requires p.nread <= n
    ensures SameBut(AtHeadersDone(p, c), AtHeadersDone(p.(nread := n), c), p.nread, n)
  {
    hide Inv;
  }

  lemma HeadersAlmostDoneNread(p: Parser, n: nat, c: char)
    requires p.nread <= n
    ensures SameBut(AtHeadersAlmostDone(p, c), AtHeadersAlmostDone(p.(nread := n), c), p.nread, n)
  {
    hide Inv, AtHeadersDone;
    HeadersDoneNread(p.(state := Head(HeadersDone), info := p.info.(upgrade := true)), n, c);
    HeadersDoneNread(p.(state := Head(HeadersDone), info := p.info.(upgrade := false)), n, c);
  }

  lemma FieldStartNread(p: Parser, n: nat, c: char)
    requires p.nread <= n
    ensures SameBut(AtHeaderFieldStart(p, c), AtHeaderFieldStart(p.(nread := n), c), p.nread, n)
  {
    hide Inv, AtHeadersAlmostDone;
    HeadersAlmostDoneNread(p.(state := Head(HeadersAlmostDone)), n, c);
  }

  lemma ValueStartNread(p: Parser, n: nat, c: char)
    requires p.nread <= n
    ensures SameBut(AtHeaderValueStart(p, c), AtHeaderValueStart(p.(nread := n), c), p.nread, n)
  {
    hide Inv;
  }

  lemma HeadNread(p: Parser, n: nat, h: HeadState, loop: Loop, c: char)
    requires p.nread <= n && !h.HeaderField? && !h.HeaderValue?
    ensures SameBut(HeadByte(p, h, loop, c), HeadByte(p.(nread := n), h, loop, c), p.nread, n)
  {
    hide Inv, AtHeaderFieldStart, AtHeaderValueStart, AtHeadersAlmostDone, AtHeadersDone, FinishFlags, AtHeaderField, AtHeaderValue;
    FieldStartNread(p, n, c);
    FieldStartNread(FinishHeader(p), n, c);
    ValueStartNread(p, n, c);
    HeadersAlmostDoneNread(p, n, c);
    HeadersDoneNread(p, n, c);
  }

  lemma ChunkNread(p: Parser, n: nat, k: ChunkState, c: char)
    requires p.nread <= n && !k.ChunkSizeStart?
    ensures SameBut(ChunkByte(p, k, c), ChunkByte(p.(nread := n), k, c), p.nread, n)
  {
    hide Inv;
  }

  lemma SizeStartNread(p: Parser, c: char, next: char)
    requires p.state == Chunk(ChunkSizeStart)
    ensures Transition(p, Outside, c, next).p.nread == p.nread
  {
    hide Inv, Unhex;
  }

  lemma BodyNread(p: Parser, n: nat, c: char)
    requires p.nread <= n
    ensures SameBut(AtBodyIdentity(p, c), AtBodyIdentity(p.(nread := n), c), p.nread, n)
    ensures SameBut(AtMessageDone(p), AtMessageDone(p.(nread := n)), p.nread, n)
  {
    hide Inv;
  }

  lemma TransitionNread(p: Parser, n: nat, loop: Loop, c: char, next: char)
    requires p.nread <= n
    requires p.state != Head(HeaderField) && p.state != Head(HeaderValue) && p.state != Chunk(ChunkSizeStart)
    ensures SameBut(Transition(p, loop, c, next), Transition(p.(nread := n), loop, c, next), p.nread, n)
  {
    hide Inv, AtUrl, ResByte, VersionByte, HeadByte, ChunkByte, AtStartReq, AtStartReqOrRes, AtStartRes, AtResOrRespH,
      AtReqMethod, AtReqSpacesBeforeUrl, AtBodyIdentity, AtMessageDone;
    match p.state
    case Res(r) => ResNread(p, n, r, c);
    case Url(u) => UrlNread(p, n, u, c);
    case Version(v) => VersionNread(p, n, v, c);
    case Head(h) => HeadNread(p, n, h, loop, c);
    case Chunk(k) => ChunkNread(p, n, k, c);
    case Body(b) => BodyNread(p, n, c);
    case Dead =>
    case _ =>
      StartNread(p, n, c, next);
      MethodNread(p, n, c);
  }

  // ---- what a rejected byte delivers -------------------------------------------------------------

  /** An error delivers nothing, except for the empty value of a header line that ended before it. */
  predicate Bare(s: State, o: Out) {
    o.p.errno != OK ==>
      o.tells == [] && o.mark == None && !o.exit && (o.close == Leave || (o.close.FlushEmpty? && Live(s) == None))
  }

  lemma UrlBare(p: Parser, u: UrlState, c: char)
    requires p.errno == OK
    ensures Bare(p.state, AtUrl(p, u, c))
  {
    hide Inv;
  }

  lemma ResBare(p: Parser, r: ResState, c: char)
    requires p.errno == OK
    ensures Bare(p.state, ResByte(p, r, c))
  {
    hide Inv;
  }

  lemma VersionBare(p: Parser, v: VersionState, c: char)
    requires p.errno == OK
    ensures Bare(p.state, VersionByte(p, v, c))
  {
    hide Inv;
  }

  lemma StartBare(p: Parser, c: char, next: char)
    requires p.errno == OK
    ensures Bare(p.state, AtStartReqOrRes(p, c, next)) && Bare(p.state, AtStartReq(p, c, next))
    ensures Bare(p.state, AtStartRes(p, c)) && Bare(p.state, AtResOrRespH(p, c))
    ensures Bare(p.state, AtReqMethod(p, c)) && Bare(p.state, AtReqSpacesBeforeUrl(p, c))
  {
    hide Inv, MethodName, NextGuess, FirstGuess;
  }

  lemma FieldStartBare(p: Parser, c: char)
    requires p.errno == OK
    ensures Bare(p.state, AtHeadersAlmostDone(p, c)) && Bare(p.state, AtHeadersDone(p, c))
    ensures Bare(p.state, AtHeaderFieldStart(p, c)) && AtHeaderFieldStart(p, c).close == Leave
  {
    hide Inv;
  }

  lemma HeadBare(p: Parser, h: HeadState, loop: Loop, c: char)
    requires p.errno == OK && p.state == Head(h) && !h.HeaderField? && !h.HeaderValue?
    ensures Bare(p.state, HeadByte(p, h, loop, c))
  {
    hide Inv, AtHeaderFieldStart, AtHeadersAlmostDone, AtHeadersDone, FinishFlags, AtHeaderField, AtHeaderValue;
    FieldStartBare(p, c);
    FieldStartBare(FinishHeader(p), c);
  }

  lemma ChunkBare(p: Parser, k: ChunkState, c: char)
    requires p.errno == OK
    ensures Bare(p.state, ChunkByte(p, k, c))
  {
    hide Inv;
  }

  lemma TransitionBare(p: Parser, loop: Loop, c: char, next: char)
    requires p.errno == OK && p.state != Head(HeaderField) && p.state != Head(HeaderValue)
    ensures Bare(p.state, Transition(p, loop, c, next))
  {
    hide Inv, AtUrl, ResByte, VersionByte, HeadByte, ChunkByte, AtStartReq, AtStartReqOrRes, AtStartRes, AtResOrRespH,
      AtReqMethod, AtReqSpacesBeforeUrl;
    match p.state
    case Res(r) => ResBare(p, r, c);
    case Url(u) => UrlBare(p, u, c);
    case Version(v) => VersionBare(p, v, c);
    case Head(h) => HeadBare(p, h, loop, c);
    case Chunk(k) => ChunkBare(p, k, c);
    case Body(b) =>
    case Dead =>
    case _ => StartBare(p, c, next);
  }

  lemma VisibleError(d: Delivery, s: State, o: Out, c: char)
    requires HeldFits(d.held, s) && Bare(s, o) && o.p.errno != OK
    ensures Visible(Deliver(d, o, c)) == Closed(Visible(d), o.close, c)
  {
    hide Leftover, Emit;
    VisibleOf(d, s);
    var e := CloseSlice(d, o.close, c);
    assert e.log + Notes([]) == e.log;
    if o.close.FlushEmpty? {
      CloseVisible(d, s, o.close, c);
      VisibleOf(Delivery(e.log, map[]), Dead);
    }
  }

  // ---- an uncut run and a cut one, side by side ----------------------------------------------------

  /** u has read everything in one call; v is in a later call, which began at byte `base`. */
  predicate Sim(u: Machine, v: Machine, base: nat) {
    && Good(u) && Good(v)
    && u.p.errno == v.p.errno && u.exited == v.exited
    && u.consumed == base + v.consumed && Visible(u.d) == Visible(v.d)
    && (u.p.errno == OK ==> u.p.nread <= v.p.nread <= MAX_HEADER_SIZE + u.consumed)
    && (u.p.errno == OK ==> v.p == u.p.(nread := v.p.nread) && (v.loop == u.loop || v.loop.Outside?))
  }

  /** Two runs that stay together. After a byte they are also at the same place of the inner loops. */
  predicate Tight(u: Machine, v: Machine, base: nat) {
    Sim(u, v, base) && (u.p.errno == OK ==> u.loop == v.loop)
  }

  /** Two runs in the very same situation. */
  predicate Twins(u: Machine, v: Machine) { u.p == v.p && u.loop == v.loop }

  /** v's run is over, and whatever becomes of u, it ends otherwise. */
  predicate Parted(u: Machine, v: Machine, base: nat) {
    v.p.errno != OK &&
    if Stopped(u) then u.p.errno != v.p.errno || u.consumed != base + v.consumed else u.consumed > base + v.consumed
  }

  lemma PartedStays(u: Machine, v: Machine, base: nat, c: char, a: char)
    requires Parted(u, v, base)
    ensures Parted(Step(u, c, a), v, base)
  {
    hide Transition, Deliver, Extend;
  }

  /** The cut run has counted e bytes more, and none if nothing has been counted. */
  predicate Ahead(u: Machine, v: Machine, e: nat) { v.p.nread == u.p.nread + e && (u.p.nread == 0 ==> e == 0) }

  /** What is left of e: nothing once nread has been set back to 0. */
  function Kept(u: Machine, e: nat): nat { if u.p.nread == 0 then 0 else e }

  /** With e bytes more on its count a run is refused for the budget on byte c, and would not be
      without them. `outside`: that run is not in an inner loop. */
  predicate Overdraws(u: Machine, e: nat, outside: bool, c: char) {
    && Checks(u.p.state, outside, c) && u.p.nread + e + 1 > MAX_HEADER_SIZE
    && !(Checks(u.p.state, u.loop.Outside?, c) && u.p.nread + 1 > MAX_HEADER_SIZE)
  }

  /** A value byte that memchr() skips, but not in a run that is outside the inner loop. */
  predicate Exposes(u: Machine, outside: bool, c: char) {
    outside && u.loop.Scanning? && !u.p.lenient && !IsBreak(c) && !IsHeaderChar(c)
  }

  /** The two ways in which a cut makes a difference on byte c. */
  predicate Spoils(u: Machine, e: nat, outside: bool, c: char) { Overdraws(u, e, outside, c) || Exposes(u, outside, c) }

  /** Outcomes that differ in nread alone keep two runs together. */
  lemma SimApply(u: Machine, v: Machine, base: nat, a: Out, b: Out, m: nat, n: nat, c: char)
    requires Sim(u, v, base) && !Stopped(u) && m <= n
    requires Fine(a) && Fine(b) && SameBut(a, b, m, n)
    requires b.p.errno == OK ==> b.p.nread <= MAX_HEADER_SIZE + u.consumed + 1
    requires (a.p.errno == OK ==> Tidy(u.p.state, a) && Tidy(v.p.state, b)) && Bare(u.p.state, a) && Bare(v.p.state, b)
    ensures Tight(Apply(u, a, c), Apply(v, b, c), base)
  {
    hide Inv, HeldFits, Visible, Tidy, Bare;
    if a.p.errno == OK {
      ApplyKeepsGood(u, u.p.state, a, c);
      ApplyKeepsGood(v, v.p.state, b, c);
      VisibleApply(u.d, u.p.state, a, c);
      VisibleApply(v.d, v.p.state, b, c);
    } else {
      VisibleError(u.d, u.p.state, a, c);
      VisibleError(v.d, v.p.state, b, c);
    }
  }

  lemma AheadApply(u: Machine, v: Machine, a: Out, b: Out, m: nat, e: nat, c: char)
    requires SameBut(a, b, m, m + e) && (m == 0 ==> e == 0)
    ensures Ahead(Apply(u, a, c), Apply(v, b, c), Kept(Apply(u, a, c), e))
  {
    hide Deliver, Extend;
  }

  /** The states in which a byte is the first letter of a method. */
  predicate Guesses(s: State) { s.StartReq? || s.StartReqOrRes? }

  /** The first letter of a method is guessed with the byte behind it. */
  predicate SameGuess(p: Parser, c: char, a: char, b: char) {
    Guesses(p.state) && c == 'P' ==> (a == 'U' <==> b == 'U')
  }

  lemma GuessNext(p: Parser, loop: Loop, c: char, a: char, b: char)
    requires SameGuess(p, c, a, b)
    ensures Transition(p, loop, c, a) == Transition(p, loop, c, b)
  {
    hide Inv, AtUrl, ResByte, VersionByte, HeadByte, ChunkByte, AtReqMethod, AtReqSpacesBeforeUrl, AtBodyIdentity,
      AtStartRes, AtResOrRespH;
  }

  lemma CountedInv(m: Machine)
    requires Running(m) && m.loop.Outside? && Count(m.p, m.loop).errno == OK
    ensures InvCounted(Count(m.p, m.loop)) && LoopFits(Count(m.p, m.loop), Outside)
    ensures m.p.state == Chunk(ChunkSizeStart) ==> m.p.nread == 0 && Count(m.p, m.loop).nread == 1
  {
  }

  /** The byte keeps the runs together, and the one as far ahead as it was. */
  predicate Together(u: Machine, v: Machine, base: nat, e: nat) {
    Tight(u, v, base) && (u.p.errno == OK ==> Ahead(u, v, Kept(u, e)))
  }

  /** A byte outside the inner loops. */
  lemma SimSingle(u: Machine, v: Machine, base: nat, e: nat, c: char, a: char, b: char)
    requires Sim(u, v, base) && !Stopped(u) && SameGuess(u.p, c, a, b) && Ahead(u, v, e)
    requires u.p.state != Head(HeaderField) && u.p.state != Head(HeaderValue)
    requires Count(v.p, v.loop).errno == OK
    ensures Together(Step(u, c, a), Step(v, c, b), base, e)
  {
    hide Inv, HeldFits, Visible, Bare, Transition, Tidy, Fine, Tight, Kept, Deliver, Extend, Apply;
    CountStops(u, c, a);
    CountStops(v, c, b);
    CountedInv(u);
    CountedInv(v);
    var p, q := Count(u.p, u.loop), Count(v.p, v.loop);
    var o, r := Transition(p, Outside, c, a), Transition(q, Outside, c, b);
    GuessNext(q, Outside, c, a, b);
    if p.state != Chunk(ChunkSizeStart) {
      TransitionNread(p, q.nread, Outside, c, a);
    } else {
      assert p == q;
      SizeStartNread(p, c, a);
    }
    TransitionTidy(p, Outside, c, a);
    TransitionTidy(q, Outside, c, b);
    TransitionBare(p, Outside, c, a);
    TransitionBare(q, Outside, c, b);
    SimApply(u, v, base, o, r, p.nread, q.nread, c);
    AheadApply(u, v, o, r, p.nread, e, c);
  }

  lemma VisibleExtend(d: Delivery, s: State, c: char)
    requires HeldFits(d.held, s) && EntryMark(s).Some?
    ensures Visible(Extend(d, c)) == Emit(Visible(d), Data(EntryMark(s).value, [c]))
    ensures HeldFits(Extend(d, c).held, s)
  {
    hide Leftover, Emit;
    var k := EntryMark(s).value;
    assert Live(s) == Some(k);
    VisibleOf(d, s);
    VisibleOf(Extend(d, c), s);
    EmitTwice(d.log, k, d.held[k], [c]);
  }

  /** A byte of a header name, and the byte behind it. */
  lemma SimField(u: Machine, v: Machine, base: nat, e: nat, c: char, a: char, b: char)
    requires Sim(u, v, base) && !Stopped(u) && u.p.state == Head(HeaderField) && Ahead(u, v, e)
    requires Counted(u) && Counted(v)
    ensures if Overdraws(u, e, v.loop.Outside?, c) then Parted(Step(u, c, a), Step(v, c, b), base)
            else Together(Step(u, c, a), Step(v, c, b), base, e)
  {
    hide Inv, HeldFits, Visible, Step, IsToken, FieldChar, Extend;
    if IsToken(c) {
      TokenStep(u, c, a);
      TokenStep(v, c, b);
      VisibleExtend(u.d, u.p.state, c);
      VisibleExtend(v.d, v.p.state, c);
    } else {
      FieldEndStep(u, c, a);
      FieldEndStep(v, c, b);
      StepKeepsGood(u, c, a);
      StepKeepsGood(v, c, b);
      if c == ':' {
        ClosedAfter(u.d, u.p.state, FieldData, c);
        ClosedAfter(v.d, v.p.state, FieldData, c);
      }
    }
  }

  /** A slice closed on a byte that then fails. */
  lemma ClosedNow(d: Delivery, s: State, k: DataKind, c: char)
    requires HeldFits(d.held, s) && Live(s) == Some(k)
    ensures Visible(CloseSlice(d, Flush(k), c)) == Visible(d)
  {
    hide Leftover, Emit;
    CloseVisible(d, s, Flush(k), c);
    VisibleOf(CloseSlice(d, Flush(k), c), Dead);
  }

  lemma ClosedAfter(d: Delivery, s: State, k: DataKind, c: char)
    requires HeldFits(d.held, s) && Live(s) == Some(k)
    ensures Visible(Extend(CloseSlice(d, Flush(k), c), c)) == Visible(d)
  {
    hide Leftover, Emit;
    CloseVisible(d, s, Flush(k), c);
    var e := Extend(CloseSlice(d, Flush(k), c), c);
    assert e.held == map[];
    VisibleOf(e, Dead);
  }

  /** The byte that ends a header value. */
  lemma SimBreak(u: Machine, v: Machine, base: nat, e: nat, c: char, a: char, b: char)
    requires Sim(u, v, base) && !Stopped(u) && u.p.state == Head(HeaderValue) && IsBreak(c) && Ahead(u, v, e)
    requires Counted(u) && Counted(v)
    ensures if Overdraws(u, e, v.loop.Outside?, c) then Parted(Step(u, c, a), Step(v, c, b), base)
            else Together(Step(u, c, a), Step(v, c, b), base, e)
  {
    hide Inv, HeldFits, Visible, Step, Extend;
    BreakStep(u, c, a);
    BreakStep(v, c, b);
    StepKeepsGood(u, c, a);
    StepKeepsGood(v, c, b);
    ClosedAfter(u.d, u.p.state, ValueData, c);
    ClosedAfter(v.d, v.p.state, ValueData, c);
    ClosedNow(u.d, u.p.state, ValueData, c);
    ClosedNow(v.d, v.p.state, ValueData, c);
  }

  lemma ValueBytes(p: Parser, n: nat, s: Loop, t: Loop, c: char)
    requires p.errno == OK && p.nread <= n && (t == s || t.Outside?) && (s.Scanning? ==> p.headerState.General?)
    ensures var a := ValueByte(p, s, c); var b := ValueByte(p.(nread := n), t, c);
      if t.Outside? && s.Scanning? && !p.lenient && !IsHeaderChar(c)
      then b == Fail(p.(nread := n), InvalidHeaderToken) && a == Loops(p, Scanning)
      else SameBut(a, b, p.nread, n) && b.p.nread == n && a.p.nread == p.nread
    ensures var a := ValueByte(p, s, c);
      if a.p.errno == OK then a == Loops(a.p, a.loop) && !a.loop.Outside? && a.p.state == p.state
      else Bare(p.state, a)
  {
    hide Inv, ValueChar, IsHeaderChar;
    GeneralScans(p, c);
    GeneralScans(p.(nread := n), c);
    ValueCharNread(p, n, c);
    ValueCharShape(p, c);
  }

  lemma GeneralScans(p: Parser, c: char)
    ensures p.headerState.General? ==> ValueChar(p, c) == Loops(p, Scanning)
  {
  }

  /** A byte inside a header value. */
  lemma SimValue(u: Machine, v: Machine, base: nat, e: nat, c: char, a: char, b: char)
    requires Sim(u, v, base) && !Stopped(u) && u.p.state == Head(HeaderValue) && !IsBreak(c) && Ahead(u, v, e)
    requires Counted(u) && Counted(v)
    ensures if Exposes(u, v.loop.Outside?, c) then Parted(Step(u, c, a), Step(v, c, b), base)
            else Together(Step(u, c, a), Step(v, c, b), base, e)
  {
    hide Inv, HeldFits, Visible, Step, Extend, ValueByte, IsHeaderChar, CloseSlice, Bare, IsBreak;
    var p, q := u.p.(nread := u.p.nread + 1), v.p.(nread := v.p.nread + 1);
    ValueStep(u, c, a);
    ValueStep(v, c, b);
    ValueBytes(p, q.nread, u.loop, v.loop, c);
    ValueBytes(q, q.nread, v.loop, v.loop, c);
    var o, r := ValueByte(p, u.loop, c), ValueByte(q, v.loop, c);
    if Exposes(u, v.loop.Outside?, c) {
      QuietApply(u, p, Scanning, c);
      FailApplied(v, q, InvalidHeaderToken, c);
    } else if o.p.errno == OK {
      QuietApply(u, o.p, o.loop, c);
      QuietApply(v, r.p, r.loop, c);
      VisibleExtend(u.d, u.p.state, c);
      VisibleExtend(v.d, v.p.state, c);
    } else {
      SimRefused(u, v, base, o, r, p.nread, q.nread, c);
    }
  }

  lemma FailApplied(m: Machine, p: Parser, x: Errno, c: char)
    requires x != OK
    ensures var n := Apply(m, Fail(p, x), c); n.p.errno == x && n.consumed == m.consumed
  {
  }

  lemma SimRefused(u: Machine, v: Machine, base: nat, a: Out, b: Out, m: nat, n: nat, c: char)
    requires Sim(u, v, base) && !Stopped(u) && SameBut(a, b, m, n) && a.p.errno != OK
    requires Bare(u.p.state, a) && Good(Apply(u, a, c)) && Good(Apply(v, b, c))
    ensures Sim(Apply(u, a, c), Apply(v, b, c), base) && Apply(u, a, c).p.errno != OK
  {
    hide Inv, HeldFits, Visible;
    VisibleError(u.d, u.p.state, a, c);
    VisibleError(v.d, v.p.state, b, c);
  }

  /** A byte on which the cut run is refused for the budget at once. */
  lemma SimOver(u: Machine, v: Machine, base: nat, e: nat, c: char, a: char, b: char)
    requires Sim(u, v, base) && !Stopped(u) && Ahead(u, v, e) && u.consumed < MAX_CALL
    requires v.loop.Outside? && Count(v.p, v.loop).errno != OK
    ensures if Overdraws(u, e, true, c) then Parted(Step(u, c, a), Step(v, c, b), base)
            else Together(Step(u, c, a), Step(v, c, b), base, e)
  {
    hide Inv, HeldFits, Visible, Step, IsToken, IsBreak;
    CountStops(v, c, b);
    StepKeepsGood(u, c, a);
    StepKeepsGood(v, c, b);
    OverflowExactly(u, c, a);
    if Overdraws(u, e, true, c) {
      StepCounts(u, c, a);
    } else {
      OverflowShows(u, c, a);
    }
  }

  /** A byte that is not refused is consumed. */
  lemma StepCounts(u: Machine, c: char, a: char)
    requires !Stopped(u)
    ensures Step(u, c, a).p.errno == OK ==> Step(u, c, a).consumed == u.consumed + 1
  {
    hide Transition, Deliver, Extend;
  }

  /** A byte that is refused for the budget shows nothing. */
  lemma OverflowShows(u: Machine, c: char, a: char)
    requires Running(u) && u.p.nread + 1 < TWO_TO_32 && u.p.nread + 1 > MAX_HEADER_SIZE
    requires Checks(u.p.state, u.loop.Outside?, c)
    ensures Visible(Step(u, c, a).d) == Visible(u.d)
  {
    hide Inv, HeldFits, Visible, Step, IsToken;
    if u.loop.Outside? {
      CountStops(u, c, a);
    } else if u.p.state == Head(HeaderField) {
      FieldEndStep(u, c, a);
    } else {
      BreakStep(u, c, a);
      ClosedNow(u.d, u.p.state, ValueData, c);
    }
  }

  /** One byte in both runs: either it is spoiled by a cut, and the runs part for good, or it keeps
      them together. */
  lemma SimStep(u: Machine, v: Machine, base: nat, e: nat, c: char, a: char, b: char)
    requires Sim(u, v, base) && !Stopped(u) && SameGuess(u.p, c, a, b) && u.consumed < MAX_CALL && Ahead(u, v, e)
    ensures if Spoils(u, e, v.loop.Outside?, c) then Parted(Step(u, c, a), Step(v, c, b), base)
            else Together(Step(u, c, a), Step(v, c, b), base, e)
  {
    hide Inv, HeldFits, Visible, Transition, Apply, IsHeaderChar, Step, Parted, Together, IsToken, IsBreak;
    LoopStates(u);
    if v.loop.Outside? && Count(v.p, v.loop).errno != OK {
      SimOver(u, v, base, e, c, a, b);
      OverBoth(u, v, e, c);
    } else {
      NotOver(u, v, e, c);
      if u.p.state == Head(HeaderField) {
        SimField(u, v, base, e, c, a, b);
      } else if u.p.state == Head(HeaderValue) {
        if IsBreak(c) { SimBreak(u, v, base, e, c, a, b); } else { SimValue(u, v, base, e, c, a, b); }
      } else {
        SimSingle(u, v, base, e, c, a, b);
      }
    }
  }

  lemma LoopStates(u: Machine)
    requires Running(u)
    ensures !u.loop.Outside? ==> u.p.state == Head(HeaderField) || u.p.state == Head(HeaderValue)
    ensures u.loop.Scanning? ==> u.p.state == Head(HeaderValue)
  {
    hide Inv, HeldFits;
  }

  lemma OverBoth(u: Machine, v: Machine, e: nat, c: char)
    requires Running(u) && Running(v) && Ahead(u, v, e) && u.p.state == v.p.state
    requires v.loop.Outside? && Count(v.p, v.loop).errno != OK
    ensures Spoils(u, e, true, c) <==> Overdraws(u, e, true, c)
  {
    hide Inv, HeldFits, IsToken, IsBreak, IsHeaderChar;
    CountStops(v, c, c);
    LoopStates(u);
  }

  lemma NotOver(u: Machine, v: Machine, e: nat, c: char)
    requires Running(u) && Running(v) && Ahead(u, v, e) && u.p.state == v.p.state
    requires v.p.nread + 1 < TWO_TO_32 && (v.loop.Outside? ==> Count(v.p, v.loop).errno == OK)
    requires v.loop == u.loop || v.loop.Outside?
    ensures InHeaderLoop(u.p.state) ==> Counted(u) && Counted(v)
    ensures v.loop.Outside? ==> !Overdraws(u, e, true, c)
    ensures !InHeaderLoop(u.p.state) ==> !Overdraws(u, e, v.loop.Outside?, c)
    ensures u.p.state == Head(HeaderValue) && !IsBreak(c) ==> !Overdraws(u, e, v.loop.Outside?, c)
  {
    hide Inv, HeldFits, IsToken, IsBreak;
  }
}
