/** Single steps of the machine in closed form, for the states whose bytes the code handles in
    bulk: header names, header values and bodies. */
module HttpSteps {
  import opened Basics
  import opened HttpBase
  import opened HttpMachine
  import opened HttpRun

  /** The two states whose bytes are read in inner loops. */
  predicate InHeaderLoop(s: State) { s == Head(HeaderField) || s == Head(HeaderValue) }

  predicate Running(m: Machine) { Good(m) && !Stopped(m) }

  /** The byte fits the counter: checked at once outside the inner loops, on leaving inside. */
  predicate Counted(m: Machine) {
    m.p.nread + 1 < TWO_TO_32 && (m.loop.Outside? ==> m.p.nread + 1 <= MAX_HEADER_SIZE)
  }

  /** A byte that is counted goes through the switch. */
  lemma StepIsApply(m: Machine, c: char, next: char)
    requires !Stopped(m) && Count(m.p, m.loop).errno == OK
    ensures Step(m, c, next) == Apply(m, Transition(Count(m.p, m.loop), m.loop, c, next), c)
  {
    hide Transition, Apply;
  }

  /** A byte that only moves the nested machine causes no callback. */
  lemma QuietApply(m: Machine, p: Parser, loop: Loop, c: char)
    requires p.errno == OK
    ensures Apply(m, Loops(p, loop), c) == Machine(p, loop, Extend(m.d, c), m.consumed + 1, false)
  {
    assert Notes([]) == [];
    assert m.d.log + [] == m.d.log;
  }

  lemma FieldCharDefined(h: HeaderState, i: nat, c: char)
    requires FieldPhase(h)
    ensures FieldChar(h, i, c).Some?
  {
  }

  lemma FieldStateOk(m: Machine)
    requires Running(m) && m.p.state == Head(HeaderField)
    ensures FieldPhase(m.p.headerState)
  {
    hide FieldPhase;
  }

  lemma FieldRuns(p: Parser, loop: Loop, c: char, next: char)
    requires p.state == Head(HeaderField)
    ensures Transition(p, loop, c, next) == AtHeaderField(p, c)
  {
    hide Inv, AtHeaderField, Fine;
  }

  lemma ValueRuns(p: Parser, loop: Loop, c: char, next: char)
    requires p.state == Head(HeaderValue)
    ensures Transition(p, loop, c, next) == AtHeaderValue(p, loop, c)
  {
    hide Inv, AtHeaderValue, Fine;
  }

  lemma TokenStep(m: Machine, c: char, next: char)
    requires Running(m) && m.p.state == Head(HeaderField) && Counted(m) && IsToken(c)
    ensures FieldChar(m.p.headerState, m.p.index, TokenOf(c)).Some?
    ensures var (h, i) := FieldChar(m.p.headerState, m.p.index, TokenOf(c)).value;
      Step(m, c, next) ==
        Machine(m.p.(headerState := h, index := i, nread := m.p.nread + 1), Inside, Extend(m.d, c), m.consumed + 1, false)
    ensures Running(Step(m, c, next))
  {
    hide Step, Transition, Inv, FieldPhase, FieldChar, IsToken, Extend;
    FieldStateOk(m);
    FieldCharDefined(m.p.headerState, m.p.index, TokenOf(c));
    StepKeepsGood(m, c, next);
    var p := Count(m.p, m.loop);
    var (h, i) := FieldChar(m.p.headerState, m.p.index, TokenOf(c)).value;
    StepIsApply(m, c, next);
    FieldRuns(p, m.loop, c, next);
    QuietApply(m, p.(headerState := h, index := i), Inside, c);
  }

  /** What s_header_value does with a byte that is neither CR nor LF. */
  function ValueByte(p: Parser, loop: Loop, c: char): Out {
    if loop.Scanning? then Loops(p, Scanning)
    else if !p.lenient && !IsHeaderChar(c) then Fail(p, InvalidHeaderToken)
    else ValueChar(p, c)
  }

  lemma ValueStep(m: Machine, c: char, next: char)
    requires Running(m) && m.p.state == Head(HeaderValue) && Counted(m) && !IsBreak(c)
    ensures Step(m, c, next) == Apply(m, ValueByte(m.p.(nread := m.p.nread + 1), m.loop, c), c)
    ensures Good(Step(m, c, next))
  {
    hide Transition, ValueChar, IsHeaderChar, Inv, HeldFits, LoopFits, Apply, Fine;
    StepKeepsGood(m, c, next);
    var p := Count(m.p, m.loop);
    ValueRuns(p, m.loop, c, next);
  }

  /** The machine stopped with error e; nothing was delivered on this byte. */
  predicate Refused(m: Machine, n: Machine, e: Errno) {
    n.p.errno == e && e != OK && n.d == m.d && n.consumed == m.consumed && !n.exited
  }

  lemma CountStops(m: Machine, c: char, next: char)
    requires Running(m) && m.loop.Outside?
    ensures Count(m.p, m.loop) ==
      if !ParsingHeader(m.p.state) then m.p
      else if m.p.nread + 1 > MAX_HEADER_SIZE then m.p.(nread := m.p.nread + 1, errno := HeaderOverflow)
      else m.p.(nread := m.p.nread + 1)
    ensures Count(m.p, m.loop).errno != OK ==> Refused(m, Step(m, c, next), HeaderOverflow)
  {
    hide Transition;
  }

  lemma NoNotes(log: seq<Event>)
    ensures log + Notes([]) == log
  {
  }

  lemma FieldEndStep(m: Machine, c: char, next: char)
    requires Running(m) && m.p.state == Head(HeaderField) && Counted(m) && !IsToken(c)
    ensures var n := Step(m, c, next);
      if m.p.nread + 1 > MAX_HEADER_SIZE then Refused(m, n, HeaderOverflow)
      else if c == ':' then
        Running(n) &&
        n == Machine(m.p.(nread := m.p.nread + 1, state := Head(HeaderValueDiscardWs)), Outside,
                     Extend(CloseSlice(m.d, Flush(FieldData), c), c), m.consumed + 1, false)
      else Refused(m, n, InvalidHeaderToken)
  {
    hide Transition, Inv, IsToken, Extend, Fine, FieldChar;
    StepKeepsGood(m, c, next);
    NoNotes(m.d.log);
    NoNotes(CloseSlice(m.d, Flush(FieldData), c).log);
    var p := Count(m.p, m.loop);
    FieldRuns(p, m.loop, c, next);
  }

  /** The byte that ends a header value. */
  lemma BreakStep(m: Machine, c: char, next: char)
    requires Running(m) && m.p.state == Head(HeaderValue) && Counted(m) && IsBreak(c)
    ensures var n := Step(m, c, next); var d := CloseSlice(m.d, Flush(ValueData), c);
      if m.p.nread + 1 > MAX_HEADER_SIZE then
        n.p.errno == HeaderOverflow && n.consumed == m.consumed && !n.exited && n.d == (if c == CR then d else m.d)
      else
        Running(n) &&
        n == Machine(m.p.(nread := m.p.nread + 1, state := Head(if c == CR then HeaderAlmostDone else HeaderValueLws)),
                     Outside, Extend(d, c), m.consumed + 1, false)
  {
    hide Transition, Inv, Extend, ValueChar, Fine, IsHeaderChar;
    StepKeepsGood(m, c, next);
    NoNotes(m.d.log);
    NoNotes(CloseSlice(m.d, Flush(ValueData), c).log);
    var p := Count(m.p, m.loop);
    ValueRuns(p, m.loop, c, next);
  }

  lemma LengthCharNread(p: Parser, n: nat, c: char)
    ensures var o := LengthChar(p, c); LengthChar(p.(nread := n), c) == o.(p := o.p.(nread := n))
  {
    hide Inv, IsNum, Digit;
  }

  lemma ValueCharNread(p: Parser, n: nat, c: char)
    ensures var o := ValueChar(p, c); ValueChar(p.(nread := n), c) == o.(p := o.p.(nread := n))
  {
    hide ValueState, FinishFlags, Inv, LengthChar, Fine;
    LengthCharNread(p, n, c);
  }

  lemma StoppedStays(s: Machine, data: string, i: nat, j: nat, past: char)
    requires i <= j <= |data| && Stopped(Feed(s, data, i, past))
    ensures Feed(s, data, j, past) == Feed(s, data, i, past)
  {
    hide Transition;
    if i < j { StoppedStays(s, data, i, j - 1, past); }
  }

  lemma ValueCharShape(p: Parser, c: char)
    ensures var o := ValueChar(p, c);
      o.close == Leave && o.tells == [] && o.mark == None && !o.exit && o.p.nread == p.nread && o.p.state == p.state
    ensures var o := ValueChar(p, c); o.p.errno == p.errno == OK ==> o == Loops(o.p, if p.headerState.General? then Scanning else Inside)
  {
    hide ValueState, FinishFlags, Inv, IsNum, Digit;
  }

  lemma ValueCharStep(m: Machine, p: Parser, c: char, next: char)
    requires Running(m) && m.p.state == Head(HeaderValue) && Counted(m) && !IsBreak(c) && !m.loop.Scanning?
    requires p == m.p.(nread := p.nread) && (p.lenient || IsHeaderChar(c))
    ensures var o := ValueChar(p, c); var n := Step(m, c, next);
      if o.p.errno == OK
      then n == Machine(o.p.(nread := m.p.nread + 1), o.loop, Extend(m.d, c), m.consumed + 1, false) && Running(n)
           && o == Loops(o.p, if p.headerState.General? then Scanning else Inside)
           && o.p.nread == p.nread && o.p.state == p.state
      else n.p.errno == o.p.errno && n.d.log == m.d.log && n.consumed == m.consumed && !n.exited && Clean(o.p)
  {
    hide Step, Transition, Inv, HeldFits, Extend, ValueChar, IsHeaderChar;
    ValueStep(m, c, next);
    ValueCharNread(p, m.p.nread + 1, c);
    ValueCharShape(p, c);
    var o := ValueChar(p, c);
    if o.p.errno == OK {
      QuietApply(m, o.p.(nread := m.p.nread + 1), o.loop, c);
    } else {
      assert m.d.log + Notes([]) == m.d.log;
    }
  }

  lemma ScanStep(m: Machine, c: char, next: char)
    requires Running(m) && m.loop.Scanning? && Counted(m) && !IsBreak(c)
    ensures Step(m, c, next) == Machine(m.p.(nread := m.p.nread + 1), Scanning, Extend(m.d, c), m.consumed + 1, false)
    ensures Running(Step(m, c, next))
  {
    hide Step, Transition, Inv, HeldFits, Apply, Extend, ValueChar, IsHeaderChar;
    ValueStep(m, c, next);
    QuietApply(m, m.p.(nread := m.p.nread + 1), Scanning, c);
  }

  // ---- body bytes ---------------------------------------------------------------------------------

  predicate CopiesBody(s: State) { s == Chunk(ChunkData) || s == Body(BodyIdentity) || s == Body(BodyIdentityEof) }

  /** The fields after n body bytes that do not complete the body or chunk. */
  function Less(p: Parser, n: nat): Parser
    requires p.state == Body(BodyIdentityEof) || n <= p.contentLength
  {
    if p.state == Body(BodyIdentityEof) then p else p.(contentLength := p.contentLength - n)
  }

  predicate MoreThan(p: Parser, n: nat) { p.state == Body(BodyIdentityEof) || n < p.contentLength }

  function WithBody(d: Delivery): Delivery { Delivery(d.log, OpenSlice(d.held, Some(BodyData))) }

  lemma BodyStep(m: Machine, c: char, next: char)
    requires Running(m) && m.loop.Outside? && CopiesBody(m.p.state) && MoreThan(m.p, 1)
    ensures Step(m, c, next) == Machine(Less(m.p, 1), Outside, Extend(WithBody(m.d), c), m.consumed + 1, false)
    ensures Running(Step(m, c, next))
  {
    hide Step, Transition, Inv, HeldFits, Extend, Deliver, Apply;
    StepKeepsGood(m, c, next);
    BodyRuns(m, c, next);
    StepIsApply(m, c, next);
    BodyApplied(m, Less(m.p, 1), c);
  }

  /** Body bytes are not counted, and handled alike. */
  lemma BodyRuns(m: Machine, c: char, next: char)
    requires Running(m) && m.loop.Outside? && CopiesBody(m.p.state) && MoreThan(m.p, 1)
    ensures Count(m.p, m.loop) == m.p
    ensures Transition(m.p, m.loop, c, next) == GoMark(Less(m.p, 1), m.p.state, BodyData)
  {
    hide Good, HeldFits, Fine;
    BodyState(m);
  }

  lemma BodyState(m: Machine)
    requires Running(m)
    ensures m.p.state == Chunk(ChunkData) ==> m.p.flags.chunked && m.p.contentLength != ULLONG_MAX
    ensures m.p.state == Body(BodyIdentity) ==> m.p.contentLength != ULLONG_MAX
  {
  }

  lemma BodyApplied(m: Machine, p: Parser, c: char)
    requires p.errno == OK
    ensures Apply(m, GoMark(p, p.state, BodyData), c) == Machine(p, Outside, Extend(WithBody(m.d), c), m.consumed + 1, false)
  {
    NoNotes(m.d.log);
  }

  /** The byte that completes a body or a chunk. */
  function LastByte(p: Parser): (o: Out)
    requires p.contentLength > 0
    ensures o.p.errno == p.errno && o.loop.Outside?
  {
    var q := p.(contentLength := p.contentLength - 1);
    if p.state == Chunk(ChunkData) then GoMark(q, Chunk(ChunkDataAlmostDone), BodyData)
    else Closing(FlushThrough(BodyData), AtMessageDone(q.(state := Body(MessageDone))))
  }

  lemma LastBodyStep(m: Machine, c: char, next: char)
    requires Running(m) && CopiesBody(m.p.state) && !MoreThan(m.p, 1)
    ensures m.p.contentLength == 1 && Step(m, c, next) == Apply(m, LastByte(m.p), c)
    ensures Good(Step(m, c, next))
  {
    hide Step, Transition, Inv, HeldFits, Apply, LastByte;
    StepKeepsGood(m, c, next);
    LastBodyRuns(m, c, next);
    StepIsApply(m, c, next);
  }

  lemma LastBodyRuns(m: Machine, c: char, next: char)
    requires Running(m) && CopiesBody(m.p.state) && !MoreThan(m.p, 1)
    ensures m.p.contentLength == 1 && Count(m.p, m.loop) == m.p && Transition(m.p, m.loop, c, next) == LastByte(m.p)
  {
  }

  lemma LastByteApplied(m: Machine, p: Parser, c: char)
    requires p.contentLength == 1 && p.errno == OK
    ensures p.state == Chunk(ChunkData) ==>
      Apply(m, LastByte(p), c) == Machine(p.(contentLength := 0, state := Chunk(ChunkDataAlmostDone)), Outside,
                                          Extend(WithBody(m.d), c), m.consumed + 1, false)
    ensures p.state == Body(BodyIdentity) ==>
      Apply(m, LastByte(p), c) == Machine(LastByte(p).p, Outside, Extend(Deliver(m.d, LastByte(p), c), c),
                                          m.consumed + 1, LastByte(p).exit)
  {
    assert m.d.log + Notes([]) == m.d.log;
  }

  // ---- gluing runs -----------------------------------------------------------------------------------

  function First(s: string, past: char): char { if s == "" then past else s[0] }

  /** Feeding a ++ b is feeding a and then b, with b's first byte behind a. */
  lemma FeedConcat(m: Machine, a: string, b: string, j: nat, past: char)
    requires j <= |b|
    ensures Feed(m, a + b, |a| + j, past) == Feed(Feed(m, a, |a|, First(b, past)), b, j, past)
  {
    hide Step;
    if j > 0 {
      FeedConcat(m, a, b, j - 1, past);
      assert (a + b)[|a| + j - 1] == b[j - 1];
      if j < |b| { assert (a + b)[|a| + j] == b[j]; }
    } else {
      FeedFront(m, a, b, |a|, past);
    }
  }

  lemma FeedFront(m: Machine, a: string, b: string, i: nat, past: char)
    requires i <= |a|
    ensures Feed(m, a + b, i, past) == Feed(m, a, i, First(b, past))
  {
    hide Step;
    if i > 0 {
      FeedFront(m, a, b, i - 1, past);
      assert (a + b)[i - 1] == a[i - 1];
      if i < |a| { assert (a + b)[i] == a[i]; } else if b != "" { assert (a + b)[i] == b[0]; }
    }
  }
}
