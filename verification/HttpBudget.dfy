/** The header budget: how far nread can get, and exactly which bytes are refused for it. */
module HttpBudget {
  import opened HttpBase
  import opened HttpMachine
  import opened HttpRun
  import opened HttpSteps

  /** A byte never counts for more than itself, and the budget error means that it is used up. */
  predicate Within(p: Parser, q: Parser) {
    q.nread <= p.nread && q.lenient == p.lenient && (q.errno == HeaderOverflow ==> q.nread > MAX_HEADER_SIZE)
  }

  lemma StartWithin(p: Parser, c: char, next: char)
    requires p.errno == OK
    ensures Within(p, AtStartReqOrRes(p, c, next).p) && Within(p, AtStartReq(p, c, next).p)
  {
    hide Inv, FirstGuess, IsAlpha;
  }

  lemma LineWithin(p: Parser, c: char)
    requires p.errno == OK
    ensures Within(p, AtStartRes(p, c).p) && Within(p, AtResOrRespH(p, c).p)
    ensures Within(p, AtReqMethod(p, c).p) && Within(p, AtReqSpacesBeforeUrl(p, c).p)
  {
    hide Inv, MethodName, NextGuess, UrlChar;
  }

  lemma ResWithin(p: Parser, r: ResState, c: char)
    requires p.errno == OK
    ensures Within(p, ResByte(p, r, c).p)
  {
    hide Inv, IsNum, Digit;
  }

  lemma TextWithin(p: Parser, u: UrlState, v: VersionState, c: char)
    requires p.errno == OK
    ensures Within(p, AtUrl(p, u, c).p) && Within(p, VersionByte(p, v, c).p)
  {
    hide Inv, UrlChar, IsNum, Digit;
  }

  lemma FieldStartWithin(p: Parser, c: char)
    requires p.errno == OK
    ensures Within(p, AtHeadersDone(p, c).p) && Within(p, AtHeadersAlmostDone(p, c).p)
    ensures Within(p, AtHeaderFieldStart(p, c).p)
  {
    hide Inv, NewMessage, NeedsEof;
  }

  lemma ValueWithin(p: Parser, loop: Loop, c: char)
    requires p.errno == OK
    ensures Within(p, AtHeaderField(p, c).p) && Within(p, AtHeaderValue(p, loop, c).p)
  {
    hide Inv, FieldChar, ValueChar, IsToken, IsHeaderChar;
    ValueCharShape(p, c);
    ValueCharError(p, c);
  }

  lemma ValueCharError(p: Parser, c: char)
    requires p.errno == OK
    ensures ValueChar(p, c).p.errno != HeaderOverflow && ValueChar(p, c).p.lenient == p.lenient
  {
    hide Inv, ValueState, FinishFlags;
  }

  lemma HeadWithin(p: Parser, h: HeadState, loop: Loop, c: char)
    requires p.errno == OK && p.state == Head(h)
    ensures Within(p, HeadByte(p, h, loop, c).p)
  {
    hide Inv, AtHeaderFieldStart, AtHeadersAlmostDone, AtHeadersDone, FinishFlags, AtHeaderField, AtHeaderValue;
    FieldStartWithin(p, c);
    FieldStartWithin(FinishHeader(p), c);
    ValueWithin(p, loop, c);
  }

  lemma ChunkWithin(p: Parser, k: ChunkState, c: char)
    requires p.errno == OK
    ensures Within(p, ChunkByte(p, k, c).p)
    ensures Within(p, AtBodyIdentity(p, c).p) && Within(p, AtMessageDone(p).p)
  {
    hide Inv, NewMessage;
  }

  lemma TransitionWithin(p: Parser, loop: Loop, c: char, next: char)
    requires p.errno == OK
    ensures Within(p, Transition(p, loop, c, next).p)
  {
    hide Inv, AtUrl, ResByte, VersionByte, HeadByte, ChunkByte, AtStartReq, AtStartReqOrRes, AtStartRes, AtResOrRespH,
      AtReqMethod, AtReqSpacesBeforeUrl, AtBodyIdentity, AtMessageDone;
    match p.state
    case Res(r) => ResWithin(p, r, c);
    case Url(u) => TextWithin(p, u, ReqHttpH, c);
    case Version(v) => TextWithin(p, ReqPath, v, c);
    case Head(h) => HeadWithin(p, h, loop, c);
    case Chunk(k) => ChunkWithin(p, k, c);
    case Body(b) => ChunkWithin(p, ChunkSizeStart, c);
    case Dead =>
    case _ =>
      StartWithin(p, c, next);
      LineWithin(p, c);
  }

  lemma FeedWithin(m: Machine, data: string, n: nat, past: char)
    requires n <= |data| && Within(m.p, m.p)
    ensures Within(m.p.(nread := m.p.nread + n), Feed(m, data, n, past).p)
  {
    hide Transition;
    if n > 0 {
      FeedWithin(m, data, n - 1, past);
      var x := Feed(m, data, n - 1, past);
      var p := Count(x.p, x.loop);
      if !Stopped(x) && p.errno == OK {
        TransitionWithin(p, x.loop, data[n - 1], After(data, n - 1, past));
      }
    }
  }

  // ---- what a byte is charged for ---------------------------------------------------------------------

  /** The byte c ends a header name or value. */
  predicate Leaves(s: State, c: char) { (s == Head(HeaderField) && !IsToken(c)) || (s == Head(HeaderValue) && IsBreak(c)) }

  /** The budget is checked on byte c: outside the inner loops, and on leaving them. */
  predicate Checks(s: State, outside: bool, c: char) { ParsingHeader(s) && (outside || Leaves(s, c)) }

  /** A byte is refused for the budget exactly if the budget is checked on it and used up. */
  lemma OverflowExactly(u: Machine, c: char, next: char)
    requires Running(u) && u.p.nread + 1 < TWO_TO_32
    ensures Step(u, c, next).p.errno == HeaderOverflow <==>
            Checks(u.p.state, u.loop.Outside?, c) && u.p.nread + 1 > MAX_HEADER_SIZE
    ensures Step(u, c, next).p.errno == HeaderOverflow ==> Step(u, c, next).consumed == u.consumed && !Step(u, c, next).exited
  {
    hide Transition, Inv, HeldFits, IsToken, Apply, Deliver;
    if u.loop.Outside? {
      CountStops(u, c, next);
      if Count(u.p, u.loop).errno == OK { NoOverflow(u, c, next); }
    } else if u.p.state == Head(HeaderField) {
      if IsToken(c) { TokenStep(u, c, next); } else { FieldEndStep(u, c, next); }
    } else {
      if IsBreak(c) {
        BreakStep(u, c, next);
      } else {
        ValueStep(u, c, next);
        ValueNotOver(u, c);
      }
    }
  }

  lemma NoOverflow(u: Machine, c: char, next: char)
    requires Running(u) && u.loop.Outside? && Count(u.p, u.loop).errno == OK
    ensures Step(u, c, next).p.errno != HeaderOverflow
  {
    hide Transition, Inv, HeldFits, Deliver;
    var p := Count(u.p, u.loop);
    TransitionWithin(p, u.loop, c, next);
    CountFits(u);
  }

  lemma CountFits(u: Machine)
    requires Running(u) && u.loop.Outside? && Count(u.p, u.loop).errno == OK
    ensures Count(u.p, u.loop).nread <= MAX_HEADER_SIZE
  {
    hide Inv, HeldFits;
  }

  lemma ValueNotOver(u: Machine, c: char)
    requires Running(u) && u.p.nread + 1 < TWO_TO_32
    ensures Apply(u, ValueByte(u.p.(nread := u.p.nread + 1), u.loop, c), c).p.errno != HeaderOverflow
  {
    hide ValueChar, Inv, HeldFits, Deliver, IsHeaderChar;
    ValueCharError(u.p.(nread := u.p.nread + 1), c);
  }
}
