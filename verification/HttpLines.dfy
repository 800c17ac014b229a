/** Header lines as text: what a section of them tells the parser, whatever the case of the names, the
    white space and the line ends, and that every line is reported as it was spelled. */
module HttpLines {
  import opened Basics
  import opened HttpBase
  import opened HttpMachine
  import opened HttpRun
  import opened HttpSteps
  import opened HttpNumbers
  import opened HttpHeaders
  import opened HttpValues
  import opened HttpChunked

  // ---- lines and what they say ---------------------------------------------------------------------------

  /** A name, the white space behind its ':', a value with whatever stands behind it, and whether the line
      ends with LF alone. */
  datatype Line = Line(name: string, gap: string, value: string, bare: bool)

  function Eol(bare: bool): string { if bare then [LF] else CRLF }

  function PrintLine(l: Line): string { l.name + ":" + (l.gap + l.value + Eol(l.bare)) }

  function PrintLines(ls: seq<Line>): string {
    if ls == [] then "" else PrintLine(ls[0]) + PrintLines(ls[1..])
  }

  /** The line has a value, and this name in letters of any case. */
  predicate Is(l: Line, name: string) { l.value != "" && Token(l.name) && Lowered(l.name) == name }

  predicate IsConnection(l: Line) { Is(l, "connection") || Is(l, "proxy-connection") }

  /** What a line adds to the flags. */
  function LineFlags(f: Flags, l: Line): Flags {
    if IsConnection(l) then Effect(f, Split(l.value), true)
    else if Is(l, "transfer-encoding") then f.(chunked := f.chunked || IsWord(l.value, Chunked))
    else if Is(l, "content-length") then f.(contentLength := true)
    else if Is(l, "upgrade") then f.(upgrade := true)
    else f
  }

  function LineLength(length: nat, l: Line): nat {
    if Is(l, "content-length") && LengthText(l.value) then DecValue(l.value) else length
  }

  function FlagsOf(f: Flags, ls: seq<Line>): Flags
    decreases |ls|
  {
    if ls == [] then f else FlagsOf(LineFlags(f, ls[0]), ls[1..])
  }

  function LengthOf(length: nat, ls: seq<Line>): nat
    decreases |ls|
  {
    if ls == [] then length else LengthOf(LineLength(length, ls[0]), ls[1..])
  }

  predicate Blank(c: char) { c == ' ' || c == '\t' }

  predicate Blanks(s: string) { forall i :: 0 <= i < |s| ==> Blank(s[i]) }

  /** A line as it may stand in a header section: a length is a number that fits, and the first one. */
  predicate GoodLine(l: Line, f: Flags, lenient: bool) {
    && Token(l.name) && Blanks(l.gap) && (l.value == "" || ValueText(l.value, lenient))
    && (Is(l, "content-length") ==> LengthText(l.value) && DecValue(l.value) <= MAX_LENGTH && !f.contentLength)
  }

  predicate GoodLines(ls: seq<Line>, f: Flags, lenient: bool)
    decreases |ls|
  {
    ls == [] || (GoodLine(ls[0], f, lenient) && GoodLines(ls[1..], LineFlags(f, ls[0]), lenient))
  }

  function LineEvents(ls: seq<Line>): seq<Event> {
    if ls == [] then [] else [Data(FieldData, ls[0].name), Data(ValueData, ls[0].value)] + LineEvents(ls[1..])
  }

  // ---- between two lines -----------------------------------------------------------------------------------

  predicate LineOver(s: State) { s == Head(HeaderValueLws) || s == Head(HeaderValueDiscardLws) }

  /** What the next byte makes of a finished line, unless it is white space. */
  function Settled(m: Machine): Machine {
    if m.p.state == Head(HeaderValueLws) then m.(p := FinishHeader(m.p))
    else if m.p.state == Head(HeaderValueDiscardLws) then m.(p := FinishHeader(m.p), d := Send(m.d, ValueData, ""))
    else m
  }

  lemma SettledRuns(p: Parser, c: char, next: char)
    requires LineOver(p.state) && !Blank(c)
    ensures var o := AtHeaderFieldStart(FinishHeader(p), c);
      Transition(p, Outside, c, next) ==
      if p.state == Head(HeaderValueLws) then o else Closing(FlushEmpty(ValueData), o)
  {
    hide Inv, Fine, AtHeaderFieldStart, FinishHeader;
  }

  lemma FieldStartLeaves(p: Parser, c: char, next: char)
    requires p.state == Head(HeaderFieldStart)
    ensures Transition(p, Outside, c, next) == AtHeaderFieldStart(p, c) && AtHeaderFieldStart(p, c).close == Leave
  {
    hide Inv, Fine, Upgrades, NewMessage, IsToken, FirstOfField, TokenOf;
  }

  lemma FinishCount(p: Parser)
    requires LineOver(p.state)
    ensures Count(FinishHeader(p), Outside) ==
      FinishHeader(Count(p, Outside)).(errno := Count(p, Outside).errno)
  {
    hide FinishFlags;
  }

  lemma SettledIsGood(m: Machine)
    requires Running(m) && m.loop.Outside? && LineOver(m.p.state)
    ensures AtLine(Settled(m)) && m.d.held == map[] && Settled(m).loop.Outside?
  {
    hide FinishFlags, Emit;
    NothingHeld(m);
  }

  lemma ClosedApply(m: Machine, x: Machine, o: Out, c: char)
    requires m.d.held == map[] && o.close == Leave && x == m.(p := x.p, d := Send(m.d, ValueData, ""))
    ensures Apply(m, Closing(FlushEmpty(ValueData), o), c) == Apply(x, o, c)
  {
    hide Emit, Extend;
  }

  lemma SettledStep(m: Machine, c: char, next: char)
    requires Running(m) && m.loop.Outside? && LineOver(m.p.state) && m.p.nread < MAX_HEADER_SIZE && !Blank(c)
    ensures Step(m, c, next) == Step(Settled(m), c, next)
  {
    hide Transition, Inv, HeldFits, Apply, AtHeaderFieldStart, FinishFlags, Emit, Step;
    var x := Settled(m);
    SettledIsGood(m);
    CountStops(m, c, next);
    CountStops(x, c, next);
    var p := Count(m.p, m.loop);
    StepIsApply(m, c, next);
    StepIsApply(x, c, next);
    FinishCount(m.p);
    SettledRuns(p, c, next);
    FieldStartLeaves(FinishHeader(p), c, next);
    if m.p.state == Head(HeaderValueDiscardLws) {
      ClosedApply(m, x, AtHeaderFieldStart(FinishHeader(p), c), c);
    } else {
      SameApply(m, x, AtHeaderFieldStart(FinishHeader(p), c), c);
    }
  }

  lemma SameApply(m: Machine, x: Machine, o: Out, c: char)
    requires x == m.(p := x.p)
    ensures Apply(m, o, c) == Apply(x, o, c)
  {
    hide Deliver, Extend;
  }

  /** More bytes behind a finished line. */
  lemma SettledFeed(m: Machine, w: string, n: nat, past: char)
    requires Running(m) && m.loop.Outside? && LineOver(m.p.state) && m.p.nread < MAX_HEADER_SIZE
    requires 0 < n <= |w| && !Blank(w[0])
    ensures Feed(m, w, n, past) == Feed(Settled(m), w, n, past)
  {
    hide Step, Running, Settled;
    if n == 1 {
      SettledStep(m, w[0], After(w, 0, past));
      assert Feed(m, w, 0, past) == m && Feed(Settled(m), w, 0, past) == Settled(m);
    } else {
      SettledFeed(m, w, n - 1, past);
    }
  }

  // ---- the white space in front of a value ----------------------------------------------------------------

  lemma BlankStep(m: Machine, c: char, next: char)
    requires Running(m) && m.loop.Outside? && m.p.state == Head(HeaderValueDiscardWs) &&
      m.p.nread < MAX_HEADER_SIZE && Blank(c)
    ensures Step(m, c, next) == Quietly(m, m.p.(nread := m.p.nread + 1), 1) && Running(Step(m, c, next))
  {
    hide ResByte, VersionByte, ChunkByte, AtUrl, AtReqMethod, AtStartReq, Extend, HeldFits, Inv, AtHeaderValueStart;
    CountStops(m, c, next);
    StepKeepsGood(m, c, next);
    NoNotes(m.d.log);
    NothingHeld(m);
    ExtendNothing(m.d, c);
  }

  lemma {:induction false} BlanksFed(m: Machine, s: string, n: nat, past: char)
    requires Running(m) && m.loop.Outside? && m.p.state == Head(HeaderValueDiscardWs) && Blanks(s)
    requires n <= |s| && m.p.nread + |s| <= MAX_HEADER_SIZE
    ensures Feed(m, s, n, past) == Quietly(m, m.p.(nread := m.p.nread + n), n) && Running(Feed(m, s, n, past))
  {
    hide Step, Inv, HeldFits, LoopFits, Blank;
    if n > 0 {
      BlanksFed(m, s, n - 1, past);
      BlankStep(Feed(m, s, n - 1, past), s[n - 1], After(s, n - 1, past));
    }
  }

  // ---- values ------------------------------------------------------------------------------------------------

  /** A machine behind the name and the white space of a line. */
  predicate AtText(m: Machine) {
    && Running(m) && m.loop.Outside? && m.p.state == Head(HeaderValueDiscardWs) && FieldPhase(m.p.headerState)
    && m.d.held == map[]
  }

  /** The machine inside a value, s read: only these fields and the flags and the length can differ. */
  predicate Reads(m: Machine, x: Machine, s: string) {
    && Running(x) && x.p.state == Head(HeaderValue)
    && x.p == m.p.(state := x.p.state, headerState := x.p.headerState, index := x.p.index, flags := x.p.flags,
                   contentLength := x.p.contentLength, nread := m.p.nread + |s|)
    && x.d == Delivery(m.d.log, map[ValueData := s]) && x.consumed == m.consumed + |s| && !x.exited
  }

  lemma FirstReads(m: Machine, c: char, next: char)
    requires AtText(m) && m.p.nread < MAX_HEADER_SIZE && !IsBreak(c) && !Blank(c) && !m.p.headerState.ContentLength?
    ensures var x := Step(m, c, next); Reads(m, x, [c]) && x.p.contentLength == m.p.contentLength && !x.loop.Scanning?
    ensures m.p.headerState.Upgrade? ==>
            Step(m, c, next).p.headerState == General && Step(m, c, next).p.flags == m.p.flags.(upgrade := true)
    ensures !m.p.headerState.Upgrade? && !m.p.headerState.Connection? && !m.p.headerState.TransferEncoding? ==>
            Step(m, c, next).p.headerState == General && Step(m, c, next).p.flags == m.p.flags
  {
    hide Step, Transition, HeldFits, Inv, Deliver, Extend, Apply, FieldPhase;
    CountStops(m, c, next);
    StepKeepsGood(m, c, next);
    StepIsApply(m, c, next);
    TextBegins(Count(m.p, m.loop), c, next);
    FirstApplied(m, Transition(Count(m.p, m.loop), Outside, c, next), ValueData, c);
  }

  lemma TextBegins(p: Parser, c: char, next: char)
    requires p.state == Head(HeaderValueDiscardWs) && FieldPhase(p.headerState) && !p.headerState.ContentLength?
    requires !IsBreak(c) && !Blank(c)
    ensures var o := Transition(p, Outside, c, next);
      && o == GoMark(o.p, Head(HeaderValue), ValueData)
      && o.p == p.(state := Head(HeaderValue), index := 0, headerState := o.p.headerState, flags := o.p.flags)
      && (p.headerState.Upgrade? ==> o.p.headerState == General && o.p.flags == p.flags.(upgrade := true))
      && (!p.headerState.Upgrade? ==> o.p.flags == p.flags)
      && (!p.headerState.Upgrade? && !p.headerState.Connection? && !p.headerState.TransferEncoding? ==>
          o.p.headerState == General)
  {
    hide Inv, Fine, Lower, IsNum, Digit;
  }

  lemma CharFrame(p: Parser, c: char)
    requires !p.headerState.ContentLength?
    ensures var q := ValueChar(p, c).p;
      q == p.(headerState := q.headerState, index := q.index, flags := q.flags, errno := q.errno)
  {
    hide Inv, Fine, ValueState, FinishFlags;
  }

  lemma NextReads(m: Machine, x: Machine, s: string, c: char, next: char)
    requires Reads(m, x, s) && m.p.nread + |s| < MAX_HEADER_SIZE && !IsBreak(c) && (m.p.lenient || IsHeaderChar(c))
    requires !x.p.headerState.ContentLength? && Step(x, c, next).p.errno == OK
    ensures var y := Step(x, c, next); Reads(m, y, s + [c]) && y.p.contentLength == x.p.contentLength
    ensures x.p.headerState.General? ==> Step(x, c, next).p.headerState.General? && Step(x, c, next).p.flags == x.p.flags
  {
    hide Step, Inv, HeldFits, Extend, ValueChar, IsHeaderChar, IsBreak;
    ExtendOne(m.d.log, ValueData, s, c);
    if x.loop.Scanning? {
      ScanStep(x, c, next);
    } else {
      CharFrame(x.p, c);
      ValueCharStep(x, x.p, c, next);
      if x.p.headerState.General? { GeneralChar(x.p, c); }
    }
  }

  lemma GeneralChar(p: Parser, c: char)
    requires p.headerState.General?
    ensures ValueChar(p, c) == Loops(p, Scanning)
  {
    hide Inv;
  }

  /** A byte of a general value is never refused. */
  lemma GeneralRuns(x: Machine, c: char, next: char)
    requires Running(x) && x.p.state == Head(HeaderValue) && x.p.headerState.General? && x.p.nread < MAX_HEADER_SIZE
    requires !IsBreak(c) && (x.p.lenient || IsHeaderChar(c))
    ensures Step(x, c, next).p.errno == OK
  {
    hide Step, Inv, HeldFits, Extend, ValueChar, IsHeaderChar, IsBreak;
    if x.loop.Scanning? {
      ScanStep(x, c, next);
    } else {
      GeneralChar(x.p, c);
      ValueCharStep(x, x.p, c, next);
    }
  }

  lemma TextAt(v: string, lenient: bool, i: nat)
    requires ValueText(v, lenient) && i < |v|
    ensures !IsBreak(v[i]) && (lenient || IsHeaderChar(v[i])) && !Blank(v[0])
  {
  }

  /** A value that means nothing to the parser, but for the first byte of an Upgrade. */
  lemma {:induction false} PlainValue(m: Machine, v: string, n: nat, past: char)
    requires AtText(m) && ValueText(v, m.p.lenient) && 0 < n <= |v| && m.p.nread + |v| <= MAX_HEADER_SIZE
    requires !m.p.headerState.ContentLength? && !m.p.headerState.Connection? && !m.p.headerState.TransferEncoding?
    ensures var x := Feed(m, v, n, past);
      && Reads(m, x, v[..n]) && x.p.headerState.General? && x.p.contentLength == m.p.contentLength
      && x.p.flags == if m.p.headerState.Upgrade? then m.p.flags.(upgrade := true) else m.p.flags
  {
    hide Step, AtText, ValueText, IsBreak, IsHeaderChar, Blank, Good;
    TextAt(v, m.p.lenient, n - 1);
    if n == 1 {
      assert v[..1] == [v[0]];
      FirstReads(m, v[0], After(v, 0, past));
    } else {
      PlainValue(m, v, n - 1, past);
      var x := Feed(m, v, n - 1, past);
      GeneralRuns(x, v[n - 1], After(v, n - 1, past));
      NextReads(m, x, v[..n - 1], v[n - 1], After(v, n - 1, past));
      assert v[..n] == v[..n - 1] + [v[n - 1]];
    }
  }

  lemma ValueStates(m: Machine, x: Machine, v: Val, k: nat)
    requires HasRead(m, x, v, k)
    ensures !x.p.headerState.ContentLength? && x.p.errno == OK && x.p.flags == v.f && x.p.headerState == v.h
  {
  }

  /** A Connection or Transfer-Encoding value: nothing changes but the flags. */
  lemma {:induction false} WordFrame(m: Machine, v: string, n: nat, past: char)
    requires AtText(m) && AtValue(m) && ValueText(v, m.p.lenient) && 0 < n <= |v| && m.p.nread + |v| <= MAX_HEADER_SIZE
    ensures var x := Feed(m, v, n, past); Reads(m, x, v[..n]) && x.p.contentLength == m.p.contentLength
  {
    hide Step, AtText, AtValue, ValueText, IsBreak, IsHeaderChar, Blank, Good, HasRead, FirstVal, ReadVal;
    TextAt(v, m.p.lenient, n - 1);
    NoLength(m);
    assert v[..|v|] == v;
    ValueRead(m, v, v, n, past);
    ValueStates(m, Feed(m, v, n, past), ReadVal(FirstVal(m.p.headerState, v[0], m.p.flags), v[1..n]), n);
    if n == 1 {
      assert v[..1] == [v[0]];
      FirstReads(m, v[0], After(v, 0, past));
    } else {
      WordFrame(m, v, n - 1, past);
      ValueRead(m, v, v, n - 1, past);
      ValueStates(m, Feed(m, v, n - 1, past), ReadVal(FirstVal(m.p.headerState, v[0], m.p.flags), v[1..n - 1]), n - 1);
      NextReads(m, Feed(m, v, n - 1, past), v[..n - 1], v[n - 1], After(v, n - 1, past));
      assert v[..n] == v[..n - 1] + [v[n - 1]];
    }
  }

  lemma NoLength(m: Machine)
    requires AtValue(m)
    ensures !m.p.headerState.ContentLength?
  {
  }

  /** The flags once the line is over, and the length. */
  predicate Tells(x: Machine, f: Flags, length: nat) {
    FinishFlags(x.p.headerState, x.p.flags) == f && x.p.contentLength == length
  }

  lemma WordTells(m: Machine, v: string, past: char)
    requires AtText(m) && AtValue(m) && ValueText(v, m.p.lenient) && m.p.nread + |v| <= MAX_HEADER_SIZE
    ensures var x := Feed(m, v, |v|, past);
      && Reads(m, x, v)
      && Tells(x, if m.p.headerState.Connection? then Effect(m.p.flags, Split(v), true)
                  else m.p.flags.(chunked := m.p.flags.chunked || IsWord(v, Chunked)), m.p.contentLength)
  {
    TextNotEmpty(v, m.p.lenient);
    hide Step, Good, HasRead, ReadVal, ValueText, AtText, Reads, Effect, Split, IsWord, NextVal, Opening, FinishFlags, Feed;
    assert v[..|v|] == v && v[1..|v|] == v[1..];
    WordFrame(m, v, |v|, past);
    ValueRead(m, v, v, |v|, past);
    ValueStates(m, Feed(m, v, |v|, past), ReadVal(FirstVal(m.p.headerState, v[0], m.p.flags), v[1..]), |v|);
    ConnectionRead(v, m.p.flags);
    ChunkedRead(v, m.p.flags);
  }

  lemma TextNotEmpty(v: string, lenient: bool)
    requires ValueText(v, lenient)
    ensures v != ""
  {
  }

  lemma LengthTells(m: Machine, v: string, past: char)
    requires AtText(m) && m.p.headerState.ContentLength? && !m.p.flags.contentLength && m.p.nread + |v| <= MAX_HEADER_SIZE
    requires LengthText(v) && DecValue(v) <= MAX_LENGTH
    ensures var x := Feed(m, v, |v|, past);
      Reads(m, x, v) && Tells(x, m.p.flags.(contentLength := true), DecValue(v))
  {
    hide Step, Inv, HeldFits, LoopFits, IsNum, DecValue, Feed;
    assert v[..|v|] == v;
    LengthIsExact(m, v, |v|, past);
  }

  lemma PlainTells(m: Machine, v: string, past: char)
    requires AtText(m) && ValueText(v, m.p.lenient) && m.p.nread + |v| <= MAX_HEADER_SIZE
    requires !m.p.headerState.ContentLength? && !m.p.headerState.Connection? && !m.p.headerState.TransferEncoding?
    ensures var x := Feed(m, v, |v|, past);
      && Reads(m, x, v)
      && Tells(x, if m.p.headerState.Upgrade? then m.p.flags.(upgrade := true) else m.p.flags, m.p.contentLength)
  {
    hide Step, AtText, ValueText, Reads, Feed;
    TextNotEmpty(v, m.p.lenient);
    assert v[..|v|] == v;
    PlainValue(m, v, |v|, past);
  }

  /** What the name of a line says about header_state says what the line does. */
  lemma NameMeans(l: Line, h: HeaderState)
    requires l.value != "" && Token(l.name) && Names(Lowered(l.name), h)
    ensures IsConnection(l) <==> h.Connection?
    ensures Is(l, "transfer-encoding") <==> h.TransferEncoding?
    ensures Is(l, "content-length") <==> h.ContentLength?
    ensures Is(l, "upgrade") <==> h.Upgrade?
  {
    hide Token, Lowered;
  }

  lemma OneMeaning(l: Line, h: HeaderState, f: Flags, length: nat)
    requires l.value != "" && Token(l.name) && Names(Lowered(l.name), h)
    ensures LineFlags(f, l) ==
      if h.Connection? then Effect(f, Split(l.value), true)
      else if h.TransferEncoding? then f.(chunked := f.chunked || IsWord(l.value, Chunked))
      else if h.ContentLength? then f.(contentLength := true)
      else if h.Upgrade? then f.(upgrade := true) else f
    ensures LineLength(length, l) == if h.ContentLength? && LengthText(l.value) then DecValue(l.value) else length
  {
    NameMeans(l, h);
    hide Is, IsConnection, Names, Effect, Split, IsWord, DecValue, LengthText;
  }

  /** The value of a good line does what the line says. */
  lemma LineTells(m: Machine, l: Line, past: char)
    requires AtText(m) && l.value != "" && GoodLine(l, m.p.flags, m.p.lenient) && Names(Lowered(l.name), m.p.headerState)
    requires m.p.nread + |l.value| <= MAX_HEADER_SIZE
    ensures var x := Feed(m, l.value, |l.value|, past);
      Reads(m, x, l.value) && Tells(x, LineFlags(m.p.flags, l), LineLength(m.p.contentLength, l))
  {
    NameMeans(l, m.p.headerState);
    OneMeaning(l, m.p.headerState, m.p.flags, m.p.contentLength);
    TextState(m);
    hide Step, AtText, Reads, Tells, Feed, Is, IsConnection, Names, LineFlags, LineLength, Running, LengthText,
      ValueText, Effect,
      Split, IsWord, DecValue, Blanks, Token, Lowered;
    match m.p.headerState
    case Connection => WordTells(m, l.value, past);
    case TransferEncoding => WordTells(m, l.value, past);
    case ContentLength => LengthTells(m, l.value, past);
    case _ => PlainTells(m, l.value, past);
  }

  lemma TextState(m: Machine)
    requires AtText(m)
    ensures Running(m) && m.loop.Outside? && m.p.state == Head(HeaderValueDiscardWs) && !m.exited
  {
  }

  // ---- the end of a line ---------------------------------------------------------------------------------------

  /** A byte of the line end that only moves on. */
  lemma EolStep(m: Machine, c: char, s: State, next: char)
    requires Running(m) && m.loop.Outside? && m.p.nread < MAX_HEADER_SIZE && m.d.held == map[]
    requires (m.p.state == Head(HeaderAlmostDone) && c == LF && s == Head(HeaderValueLws)) ||
             (m.p.state == Head(HeaderValueDiscardWs) && c == CR && s == Head(HeaderValueDiscardWsAlmostDone)) ||
             (m.p.state == Head(HeaderValueDiscardWs) && c == LF && s == Head(HeaderValueDiscardLws)) ||
             (m.p.state == Head(HeaderValueDiscardWsAlmostDone) && c == LF && s == Head(HeaderValueDiscardLws))
    ensures Step(m, c, next) == Quietly(m, m.p.(nread := m.p.nread + 1, state := s), 1) && Running(Step(m, c, next))
  {
    hide ResByte, VersionByte, ChunkByte, AtUrl, AtReqMethod, AtStartReq, Extend, HeldFits, Inv, AtHeaderValueStart;
    CountStops(m, c, next);
    StepKeepsGood(m, c, next);
    NoNotes(m.d.log);
    ExtendNothing(m.d, c);
  }

  /** The machine when the line is over. */
  function Ended(m: Machine, x: Machine, log: seq<Event>, s: State, n: nat): Machine {
    Machine(x.p.(nread := x.p.nread + n, state := s), Outside, Delivery(log, map[]), x.consumed + n, false)
  }

  predicate NameLast(log: seq<Event>) {
    log != [] && log[|log| - 1].Data? && log[|log| - 1].kind == FieldData
  }

  lemma FirstBreak(m: Machine, x: Machine, v: string, c: char, next: char)
    requires Reads(m, x, v) && NameLast(m.d.log) && IsBreak(c) && m.p.nread + |v| < MAX_HEADER_SIZE
    ensures Step(x, c, next) ==
            Ended(m, x, m.d.log + [Data(ValueData, v)], Head(if c == CR then HeaderAlmostDone else HeaderValueLws), 1)
    ensures Running(Step(x, c, next))
  {
    hide Step, Inv, HeldFits, LoopFits, Extend;
    BreakStep(x, c, next);
    assert x.d.held - {ValueData} == map[];
    ExtendNothing(Delivery(m.d.log + [Data(ValueData, v)], map[]), c);
  }

  lemma ValueEnds(m: Machine, x: Machine, v: string, bare: bool, past: char)
    requires Reads(m, x, v) && NameLast(m.d.log) && m.p.nread + |v| + |Eol(bare)| <= MAX_HEADER_SIZE
    ensures var y := Feed(x, Eol(bare), |Eol(bare)|, past);
      y == Ended(m, x, m.d.log + [Data(ValueData, v)], Head(HeaderValueLws), |Eol(bare)|) && Running(y)
  {
    hide Step, Running;
    if bare {
      FirstBreak(m, x, v, LF, past);
      OneFed(x, LF, past);
    } else {
      FirstBreak(m, x, v, CR, LF);
      var z := Step(x, CR, LF);
      EolStep(z, LF, Head(HeaderValueLws), past);
      TwoFed(x, CR, LF, past);
      assert Eol(bare) == [CR, LF];
    }
  }

  lemma OneFed(m: Machine, c: char, past: char)
    ensures Feed(m, [c], 1, past) == Step(m, c, past)
  {
    hide Step;
    assert Feed(m, [c], 0, past) == m;
  }

  lemma TwoFed(m: Machine, c: char, d: char, past: char)
    ensures Feed(m, [c, d], 2, past) == Step(Step(m, c, d), d, past)
  {
    hide Step;
    assert Feed(m, [c, d], 0, past) == m;
    assert Feed(m, [c, d], 1, past) == Step(m, c, d);
  }

  /** A line without a value. */
  lemma NothingEnds(m: Machine, bare: bool, past: char)
    requires AtText(m) && m.p.nread + |Eol(bare)| <= MAX_HEADER_SIZE
    ensures var y := Feed(m, Eol(bare), |Eol(bare)|, past);
      y == Ended(m, m, m.d.log, Head(HeaderValueDiscardLws), |Eol(bare)|) && Running(y)
  {
    hide Step, Running;
    TextState(m);
    if bare {
      EolStep(m, LF, Head(HeaderValueDiscardLws), past);
      OneFed(m, LF, past);
    } else {
      EolStep(m, CR, Head(HeaderValueDiscardWsAlmostDone), LF);
      EolStep(Step(m, CR, LF), LF, Head(HeaderValueDiscardLws), past);
      TwoFed(m, CR, LF, past);
    }
  }

  // ---- a line, and a section -----------------------------------------------------------------------------------

  /** The machine that a line leads to, once the next byte has settled it. */
  function LineDone(m: Machine, l: Line, h: HeaderState, i: nat): Machine {
    Machine(m.p.(nread := m.p.nread + |PrintLine(l)|, flags := LineFlags(m.p.flags, l), headerState := h, index := i,
                 contentLength := LineLength(m.p.contentLength, l)),
            Outside, Delivery(m.d.log + [Data(FieldData, l.name), Data(ValueData, l.value)], map[]),
            m.consumed + |PrintLine(l)|, false)
  }

  lemma NoWord(l: Line, f: Flags, length: nat, h: HeaderState)
    requires l.value == "" && FieldPhase(h)
    ensures LineFlags(f, l) == f && LineLength(length, l) == length && FinishFlags(h, f) == f
  {
  }

  /** From the start of the value to the end of the line. */
  lemma RestIsRead(m: Machine, l: Line, past: char)
    requires AtText(m) && GoodLine(l, m.p.flags, m.p.lenient) && Names(Lowered(l.name), m.p.headerState) && NameLast(m.d.log)
    requires m.p.nread + |l.value| + |Eol(l.bare)| <= MAX_HEADER_SIZE
    ensures var w := l.value + Eol(l.bare); var x := Feed(m, w, |w|, past); var y := Settled(x);
      && Running(x) && x.loop.Outside? && LineOver(x.p.state)
      && y == Machine(m.p.(nread := m.p.nread + |w|, flags := LineFlags(m.p.flags, l), headerState := y.p.headerState,
                           index := y.p.index, contentLength := LineLength(m.p.contentLength, l),
                           state := Head(HeaderFieldStart)),
                      Outside, Delivery(m.d.log + [Data(ValueData, l.value)], map[]), m.consumed + |w|, false)
  {
    hide Step, Running, LineFlags, LineLength, GoodLine, Names, FinishFlags, Feed, Eol;
    var e := Eol(l.bare);
    if l.value == "" {
      assert l.value + e == e;
      NothingEnds(m, l.bare, past);
      NoWord(l, m.p.flags, m.p.contentLength, m.p.headerState);
    } else {
      var x := Feed(m, l.value, |l.value|, First(e, past));
      LineTells(m, l, First(e, past));
      FeedConcat(m, l.value, e, |e|, past);
      ValueEnds(m, x, l.value, l.bare, past);
    }
  }

  lemma NameIsRead(m: Machine, l: Line, past: char)
    requires AtLine(m) && Token(l.name) && !NameLast(m.d.log) && m.p.nread + |l.name| + 1 <= MAX_HEADER_SIZE
    ensures var w := l.name + ":"; var x := Feed(m, w, |w|, past);
      && AtText(x) && Names(Lowered(l.name), x.p.headerState)
      && x == Machine(m.p.(nread := m.p.nread + |w|, headerState := x.p.headerState, index := x.p.index,
                           state := Head(HeaderValueDiscardWs)),
                      Outside, Delivery(m.d.log + [Data(FieldData, l.name)], map[]), m.consumed + |w|, false)
  {
    hide Step, Inv, HeldFits, LoopFits, Names, Feed;
    NameIsRecognised(m, l.name, past);
  }

  lemma GapIsRead(x: Machine, gap: string, past: char)
    requires AtText(x) && Blanks(gap) && x.p.nread + |gap| <= MAX_HEADER_SIZE
    ensures var y := Feed(x, gap, |gap|, past); AtText(y) && y == Quietly(x, x.p.(nread := x.p.nread + |gap|), |gap|)
  {
    hide Step, Good;
    BlanksFed(x, gap, |gap|, past);
  }

  function NamePart(l: Line): string { l.name + ":" + l.gap }

  function ValuePart(l: Line): string { l.value + Eol(l.bare) }

  lemma LineParts(l: Line)
    ensures PrintLine(l) == NamePart(l) + ValuePart(l) && |PrintLine(l)| == |NamePart(l)| + |ValuePart(l)|
    ensures |ValuePart(l)| == |l.value| + |Eol(l.bare)|
  {
  }

  /** The machine in front of the value. */
  function BeforeValue(m: Machine, l: Line, h: HeaderState, i: nat): Machine {
    Machine(m.p.(nread := m.p.nread + |NamePart(l)|, headerState := h, index := i, state := Head(HeaderValueDiscardWs)),
            Outside, Delivery(m.d.log + [Data(FieldData, l.name)], map[]), m.consumed + |NamePart(l)|, false)
  }

  lemma NamePartIsRead(m: Machine, l: Line, past: char)
    requires AtLine(m) && GoodLine(l, m.p.flags, m.p.lenient) && !NameLast(m.d.log)
    requires m.p.nread + |NamePart(l)| <= MAX_HEADER_SIZE
    ensures var w := NamePart(l); var x := Feed(m, w, |w|, past);
      AtText(x) && Names(Lowered(l.name), x.p.headerState) && x == BeforeValue(m, l, x.p.headerState, x.p.index)
  {
    hide *;
    GoodName(l, m.p.flags, m.p.lenient);
    NamePartIs(l);
    var a, c := l.name + ":", First(l.gap, past);
    NameIsRead(m, l, c);
    var x := Feed(m, a, |a|, c);
    GapIsRead(x, l.gap, past);
    FeedConcat(m, a, l.gap, |l.gap|, past);
    BeforeValueIs(m, x, l);
    BeforeValueSame(m, l, x.p.headerState, x.p.index);
  }

  lemma NamePartIs(l: Line)
    ensures NamePart(l) == (l.name + ":") + l.gap && |NamePart(l)| == |l.name + ":"| + |l.gap| == |l.name| + 1 + |l.gap|
  {
  }

  lemma BeforeValueIs(m: Machine, x: Machine, l: Line)
    requires x == Machine(m.p.(nread := m.p.nread + |l.name + ":"|, headerState := x.p.headerState, index := x.p.index,
                               state := Head(HeaderValueDiscardWs)),
                          Outside, Delivery(m.d.log + [Data(FieldData, l.name)], map[]), m.consumed + |l.name + ":"|, false)
    ensures Quietly(x, x.p.(nread := x.p.nread + |l.gap|), |l.gap|) == BeforeValue(m, l, x.p.headerState, x.p.index)
  {
    hide NamePart;
    NamePartIs(l);
  }

  lemma BeforeValueLast(m: Machine, l: Line, h: HeaderState, i: nat)
    ensures NameLast(BeforeValue(m, l, h, i).d.log)
  {
  }

  lemma DoneIs(m: Machine, l: Line, h: HeaderState, i: nat, g: HeaderState, j: nat)
    requires m.p.state == Head(HeaderFieldStart)
    ensures var x := BeforeValue(m, l, h, i); var w := ValuePart(l);
      LineDone(m, l, g, j) ==
      Machine(x.p.(nread := x.p.nread + |w|, flags := LineFlags(x.p.flags, l), headerState := g, index := j,
                   contentLength := LineLength(x.p.contentLength, l), state := Head(HeaderFieldStart)),
              Outside, Delivery(x.d.log + [Data(ValueData, l.value)], map[]), x.consumed + |w|, false)
  {
    hide LineFlags, LineLength, NamePart, ValuePart;
    LineParts(l);
    assert m.d.log + [Data(FieldData, l.name)] + [Data(ValueData, l.value)] ==
           m.d.log + [Data(FieldData, l.name), Data(ValueData, l.value)];
  }

  /** A line is reported as it was spelled and tells what its name and value mean. */
  lemma LineIsRead(m: Machine, l: Line, past: char)
    requires AtLine(m) && GoodLine(l, m.p.flags, m.p.lenient) && !NameLast(m.d.log)
    requires m.p.nread + |PrintLine(l)| <= MAX_HEADER_SIZE
    ensures var w := PrintLine(l); var x := Feed(m, w, |w|, past); var y := Settled(x);
      && Running(x) && x.loop.Outside? && LineOver(x.p.state) && y == LineDone(m, l, y.p.headerState, y.p.index)
  {
    hide *;
    AtFieldStart(m);
    LineParts(l);
    var b := ValuePart(l);
    var c := First(b, past);
    NamePartIsRead(m, l, c);
    var x := Feed(m, NamePart(l), |NamePart(l)|, c);
    BeforeValueLast(m, l, x.p.headerState, x.p.index);
    BeforeValueSame(m, l, x.p.headerState, x.p.index);
    RestIsRead(x, l, past);
    ValuePartIs(l);
    FeedConcat(m, NamePart(l), b, |b|, past);
    var y := Settled(Feed(x, b, |b|, past));
    DoneIs(m, l, x.p.headerState, x.p.index, y.p.headerState, y.p.index);
  }

  lemma ValuePartIs(l: Line)
    ensures ValuePart(l) == l.value + Eol(l.bare)
  {
  }

  lemma BeforeValueSame(m: Machine, l: Line, h: HeaderState, i: nat)
    ensures var x := BeforeValue(m, l, h, i); x.p.flags == m.p.flags && x.p.lenient == m.p.lenient
    ensures BeforeValue(m, l, h, i).p.nread == m.p.nread + |NamePart(l)|
    ensures BeforeValue(m, l, h, i).p.headerState == h && BeforeValue(m, l, h, i).p.index == i
  {
  }

  lemma GoodName(l: Line, f: Flags, lenient: bool)
    requires GoodLine(l, f, lenient)
    ensures Token(l.name) && Blanks(l.gap)
  {
  }

  lemma AtFieldStart(m: Machine)
    requires AtLine(m)
    ensures m.loop.Outside? && m.p.state == Head(HeaderFieldStart) && m.p.errno == OK && !m.exited
  {
  }

  /** The machine behind a section, once the next byte has settled its last line. */
  function LinesDone(m: Machine, ls: seq<Line>, h: HeaderState, i: nat): Machine {
    Machine(m.p.(nread := m.p.nread + |PrintLines(ls)|, flags := FlagsOf(m.p.flags, ls), headerState := h, index := i,
                 contentLength := LengthOf(m.p.contentLength, ls)),
            Outside, Delivery(m.d.log + LineEvents(ls), map[]), m.consumed + |PrintLines(ls)|, false)
  }

  lemma NoLines(m: Machine)
    requires AtLine(m)
    ensures LinesDone(m, [], m.p.headerState, m.p.index) == m && PrintLines([]) == ""
  {
    hide HeldFits, Inv;
    NothingHeld(m);
    assert m.d.log + [] == m.d.log;
  }

  lemma LinesSplit(ls: seq<Line>, tail: string)
    requires ls != []
    ensures PrintLines(ls) + tail == PrintLine(ls[0]) + (PrintLines(ls[1..]) + tail)
    ensures |PrintLines(ls)| == |PrintLine(ls[0])| + |PrintLines(ls[1..])|
  {
    hide PrintLine;
  }

  lemma OneAndRest(m: Machine, ls: seq<Line>, g: HeaderState, j: nat, h: HeaderState, i: nat)
    requires ls != []
    ensures LinesDone(LineDone(m, ls[0], g, j), ls[1..], h, i) == LinesDone(m, ls, h, i)
  {
    hide LineFlags, LineLength, PrintLine;
    assert m.d.log + [Data(FieldData, ls[0].name), Data(ValueData, ls[0].value)] + LineEvents(ls[1..]) ==
           m.d.log + LineEvents(ls);
  }

  lemma AfterLine(m: Machine, l: Line, g: HeaderState, j: nat)
    ensures var y := LineDone(m, l, g, j);
      !NameLast(y.d.log) && y.p.flags == LineFlags(m.p.flags, l) && y.p.lenient == m.p.lenient &&
      y.p.nread == m.p.nread + |PrintLine(l)|
  {
    hide LineFlags, LineLength, PrintLine;
  }

  lemma GoodSplit(ls: seq<Line>, f: Flags, lenient: bool)
    requires ls != [] && GoodLines(ls, f, lenient)
    ensures GoodLine(ls[0], f, lenient) && GoodLines(ls[1..], LineFlags(f, ls[0]), lenient)
  {
  }

  lemma NextIsNoBlank(ls: seq<Line>, f: Flags, lenient: bool, tail: string)
    requires GoodLines(ls, f, lenient) && tail != "" && !Blank(tail[0])
    ensures PrintLines(ls) + tail != "" && !Blank((PrintLines(ls) + tail)[0])
  {
    hide LineFlags, IsToken;
    if ls == [] {
      assert PrintLines(ls) + tail == tail;
    } else {
      NotBreak(ls[0].name[0]);
      assert (PrintLines(ls) + tail)[0] == ls[0].name[0];
      TokenIsText(ls[0].name[0]);
    }
  }

  /** A header section: every line tells what it means, and what follows is read by a machine that knows all of it. */
  lemma {:induction false} LinesAreRead(m: Machine, ls: seq<Line>, tail: string, n: nat, past: char)
    returns (h: HeaderState, i: nat)
    requires AtLine(m) && GoodLines(ls, m.p.flags, m.p.lenient) && !NameLast(m.d.log)
    requires 0 < n <= |tail| && !Blank(tail[0]) && m.p.nread + |PrintLines(ls)| < MAX_HEADER_SIZE
    ensures var x := LinesDone(m, ls, h, i);
      AtLine(x) && Feed(m, PrintLines(ls) + tail, |PrintLines(ls)| + n, past) == Feed(x, tail, n, past)
    decreases |ls|
  {
    hide *;
    if ls == [] {
      h, i := m.p.headerState, m.p.index;
      NoLines(m);
      assert "" + tail == tail;
    } else {
      var l, rest := ls[0], PrintLines(ls[1..]) + tail;
      GoodSplit(ls, m.p.flags, m.p.lenient);
      LinesSplit(ls, tail);
      var c := First(rest, past);
      LineIsRead(m, l, c);
      var x := Feed(m, PrintLine(l), |PrintLine(l)|, c);
      var y := Settled(x);
      SettledIsGood(x);
      AfterLine(m, l, y.p.headerState, y.p.index);
      SettledSame(x);
      h, i := LinesAreRead(y, ls[1..], tail, n, past);
      NextIsNoBlank(ls[1..], y.p.flags, m.p.lenient, tail);
      FeedConcat(m, PrintLine(l), rest, |PrintLines(ls[1..])| + n, past);
      SettledFeed(x, rest, |PrintLines(ls[1..])| + n, past);
      OneAndRest(m, ls, y.p.headerState, y.p.index, h, i);
    }
  }

  lemma SettledSame(m: Machine)
    ensures Settled(m).p.nread == m.p.nread
  {
    hide FinishFlags;
  }
}
