/** Whole messages: a request or a response that is printed is read as what it says, from its first
    byte to the end of its body, and what comes next is decided by its version and its headers. */
module HttpMessages {
  import opened Basics
  import opened HttpBase
  import opened HttpMachine
  import opened HttpRun
  import opened HttpSteps
  import opened HttpHeaders
  import opened HttpNumbers
  import opened HttpChunked
  import opened HttpLines
  import opened HttpStartLines
  import opened HttpTargets
  import opened HttpBodies
  import V = HttpValues

  // ---- a message up to its body ----------------------------------------------------------------------------

  datatype StartLine = Asks(asked: Asked) | Answers(status: Status)

  /** A start line, the header lines, and whether the empty line is a LF alone. */
  datatype Heading = Heading(start: StartLine, lines: seq<Line>, bare: bool)

  function PrintStart(s: StartLine): string { if s.Asks? then PrintAsked(s.asked) else PrintStatus(s.status) }

  function PrintHeading(h: Heading): string { PrintStart(h.start) + (PrintLines(h.lines) + Eol(h.bare)) }

  ghost predicate GoodStart(s: StartLine) { if s.Asks? then GoodAsked(s.asked) else GoodStatus(s.status) }

  ghost predicate GoodHeading(h: Heading, lenient: bool) { GoodStart(h.start) && GoodLines(h.lines, NO_FLAGS, lenient) }

  function StartEvents(s: StartLine): seq<Event> {
    [BEGIN, if s.Asks? then Data(UrlData, s.asked.target) else Data(StatusData, ReasonOf(s.status.reason))]
  }

  function HeadingEvents(h: Heading): seq<Event> { StartEvents(h.start) + LineEvents(h.lines) + [HEADERS] }

  /** The read-only part of the parser behind a start line. */
  ghost function StartInfo(i: Info, s: StartLine): Info
    requires GoodStart(s)
  {
    if s.Asks? then AskedInfo(i, s.asked) else StatusInfo(i, s.status)
  }

  function HeadFlags(h: Heading): Flags { FlagsOf(NO_FLAGS, h.lines) }

  /** The length that the headers give; 2^64 - 1 if they give none. */
  function HeadLength(h: Heading): nat { LengthOf(ULLONG_MAX, h.lines) }

  // ---- reading it ------------------------------------------------------------------------------------------

  /** A parser that waits for such a start line. */
  predicate Waits(p: Parser, s: StartLine) {
    && p.errno == OK && Inv(p)
    && (if s.Asks? then p.state == StartReq && p.info.kind.Request?
        else p.state == StartRes && p.info.kind.Response? && !p.info.meth.CONNECT?)
  }

  /** The machine behind a start line. */
  ghost predicate StartRead(m: Machine, s: StartLine, x: Machine)
    requires GoodStart(s)
  {
    && AtLine(x) && x.d == Delivery(m.d.log + StartEvents(s), map[]) && x.p.info == StartInfo(m.p.info, s)
    && x.p.flags == NO_FLAGS && x.p.contentLength == ULLONG_MAX && x.p.lenient == m.p.lenient
    && x.p.nread == m.p.nread + |PrintStart(s)| && x.consumed == m.consumed + |PrintStart(s)|
  }

  lemma StartIsRead(m: Machine, s: StartLine, past: char)
    requires OnLine(m) && GoodStart(s) && m.p.state == (if s.Asks? then StartReq else StartRes)
    requires m.p.nread + |PrintStart(s)| <= MAX_HEADER_SIZE
    ensures StartRead(m, s, Feed(m, PrintStart(s), |PrintStart(s)|, past))
  {
    hide Step, Good, GoodAsked, GoodStatus, PrintAsked, PrintStatus, MethodName;
    if s.Asks? {
      AskedIsRead(m, s.asked, past);
    } else {
      StatusIsRead(m, s.status, past);
    }
  }

  /** The machine in front of the LF that ends the headers. */
  function Before(y: Machine, bare: bool): Machine {
    var n := if bare then 0 else 1;
    y.(p := y.p.(state := Head(HeadersAlmostDone), nread := y.p.nread + n), consumed := y.consumed + n)
  }

  lemma BareStep(y: Machine, next: char)
    requires AtLine(y) && y.p.nread < MAX_HEADER_SIZE
    ensures AtBlankLine(Before(y, true)) && Step(y, LF, next) == Step(Before(y, true), LF, next)
  {
    hide Inv, HeldFits, Apply, AtHeadersAlmostDone, Step;
    var z := Before(y, true);
    BlankIsGood(y);
    CountStops(y, LF, next);
    CountStops(z, LF, next);
    StepIsApply(y, LF, next);
    StepIsApply(z, LF, next);
    BlankMoves(y.p.(nread := y.p.nread + 1), next);
    SameApply(z, y, AtHeadersAlmostDone(z.p.(nread := z.p.nread + 1), LF), LF);
  }

  lemma BlankIsGood(y: Machine)
    requires AtLine(y) && y.p.nread < MAX_HEADER_SIZE
    ensures AtBlankLine(Before(y, true)) && Running(Before(y, true)) && y.loop.Outside? && Running(y)
  {
  }

  lemma BlankMoves(p: Parser, next: char)
    requires p.state == Head(HeaderFieldStart)
    ensures var q := p.(state := Head(HeadersAlmostDone));
      && Transition(p, Outside, LF, next) == AtHeadersAlmostDone(q, LF)
      && Transition(q, Outside, LF, next) == AtHeadersAlmostDone(q, LF)
  {
    hide Inv, Fine, AtHeadersAlmostDone;
  }

  lemma FullStep(y: Machine, next: char)
    requires AtLine(y) && y.p.nread + 1 < MAX_HEADER_SIZE
    ensures AtBlankLine(Before(y, false)) && Step(y, CR, next) == Before(y, false)
  {
    hide Step, HeldFits, Good;
    TrailerCrStep(y, next);
    AlmostIsBlank(Before(y, false));
  }

  lemma AlmostIsBlank(z: Machine)
    requires Running(z) && z.loop.Outside? && z.p.state == Head(HeadersAlmostDone) && z.p.nread < MAX_HEADER_SIZE
    ensures AtBlankLine(z)
  {
  }

  /** The empty line and what follows. */
  lemma BlankIsRead(y: Machine, bare: bool, rest: string, past: char)
    requires AtLine(y) && y.p.nread + |Eol(bare)| <= MAX_HEADER_SIZE
    ensures var t := Eol(bare) + rest; var z := Before(y, bare);
      AtBlankLine(z) && Feed(y, t, |t|, past) == Feed(Step(z, LF, First(rest, past)), rest, |rest|, past)
  {
    hide Step, AtLine, AtBlankLine, Before;
    var c := First(rest, past);
    FeedConcat(y, Eol(bare), rest, |rest|, past);
    if bare {
      BareStep(y, c);
      OneFed(y, LF, c);
    } else {
      FullStep(y, LF);
      TwoFed(y, CR, LF, c);
      assert Eol(bare) == [CR, LF];
    }
  }

  /** The machine in front of the LF that ends the headers of a message. */
  ghost predicate HeadingRead(m: Machine, h: Heading, z: Machine)
    requires GoodStart(h.start)
  {
    && AtBlankLine(z) && z.d == Delivery(m.d.log + (StartEvents(h.start) + LineEvents(h.lines)), map[])
    && z.p.info == StartInfo(m.p.info, h.start) && z.p.flags == HeadFlags(h) && z.p.contentLength == HeadLength(h)
    && z.consumed + 1 == m.consumed + |PrintHeading(h)|
  }

  lemma LinesFit(h: Heading)
    ensures var t := PrintLines(h.lines) + Eol(h.bare);
      PrintHeading(h) == PrintStart(h.start) + t && |PrintHeading(h)| == |PrintStart(h.start)| + |t|
    ensures |PrintLines(h.lines) + Eol(h.bare)| == |PrintLines(h.lines)| + |Eol(h.bare)|
    ensures |Eol(h.bare)| == (if h.bare then 1 else 2) && Eol(h.bare)[0] != ' ' && Eol(h.bare)[0] != '\t'
  {
    hide PrintStart, PrintLines;
  }

  lemma StartedAt(m: Machine, s: StartLine, x: Machine)
    requires GoodStart(s) && StartRead(m, s, x)
    ensures AtLine(x) && !NameLast(x.d.log) && x.p.flags == NO_FLAGS && x.p.lenient == m.p.lenient
    ensures x.p.nread == m.p.nread + |PrintStart(s)|
  {
    hide AtLine, PrintStart;
  }

  lemma HeadingEnds(m: Machine, h: Heading, x: Machine, g: HeaderState, i: nat)
    requires GoodStart(h.start) && StartRead(m, h.start, x)
    requires AtBlankLine(Before(LinesDone(x, h.lines, g, i), h.bare))
    ensures HeadingRead(m, h, Before(LinesDone(x, h.lines, g, i), h.bare))
  {
    hide AtBlankLine, AtLine, PrintHeading, PrintStart, PrintLines, Eol, StartEvents, LineEvents, GoodStart,
      StartInfo, FlagsOf, LengthOf;
    LinesFit(h);
    assert m.d.log + StartEvents(h.start) + LineEvents(h.lines) == m.d.log + (StartEvents(h.start) + LineEvents(h.lines));
  }

  lemma GoodHeadingIs(h: Heading, lenient: bool)
    requires GoodHeading(h, lenient)
    ensures GoodStart(h.start) && GoodLines(h.lines, NO_FLAGS, lenient)
  {
  }

  /** The start line and the headers of a message. */
  lemma HeadingIsRead(m: Machine, h: Heading, rest: string, past: char) returns (z: Machine)
    requires OnLine(m) && GoodHeading(h, m.p.lenient) && m.p.state == (if h.start.Asks? then StartReq else StartRes)
    requires m.p.nread + |PrintHeading(h)| <= MAX_HEADER_SIZE
    ensures GoodStart(h.start) && HeadingRead(m, h, z)
    ensures var t := PrintHeading(h) + rest;
      Feed(m, t, |t|, past) == Feed(Step(z, LF, First(rest, past)), rest, |rest|, past)
  {
    hide *;
    GoodHeadingIs(h, m.p.lenient);
    LinesFit(h);
    var a, b, e := PrintStart(h.start), PrintLines(h.lines), Eol(h.bare) + rest;
    var c := First(b + e, past);
    StartIsRead(m, h.start, c);
    var x := Feed(m, a, |a|, c);
    StartedAt(m, h.start, x);
    NotBlank(e);
    var g, i := LinesAreRead(x, h.lines, e, |e|, past);
    var y := LinesDone(x, h.lines, g, i);
    LinesCount(x, h.lines, g, i);
    BlankIsRead(y, h.bare, rest, past);
    z := Before(y, h.bare);
    HeadingEnds(m, h, x, g, i);
    FeedConcat(m, a, b + e, |b + e|, past);
    assert PrintHeading(h) + rest == a + (b + e);
  }

  lemma NotBlank(e: string)
    requires e != "" && e[0] != ' ' && e[0] != '\t'
    ensures !Blank(e[0])
  {
  }

  lemma LinesCount(x: Machine, ls: seq<Line>, g: HeaderState, i: nat)
    ensures LinesDone(x, ls, g, i).p.nread == x.p.nread + |PrintLines(ls)|
  {
    hide FlagsOf, LengthOf, LineEvents, PrintLines;
  }

  // ---- what the start line and the headers decide ------------------------------------------------------------

  /** A version with a zero in it, or no version at all. */
  predicate IsOld(s: StartLine) {
    match s
    case Asks(r) => r.version.None? || r.version.value.major == '0' || r.version.value.minor == '0'
    case Answers(t) => t.major == '0' || t.minor == '0'
  }

  /** Where the next message begins: from HTTP/1.1 on unless a line says "close", before only if one says
      "keep-alive". */
  function Following(h: Heading): State {
    if (if IsOld(h.start) then !HeadFlags(h).keepAlive else HeadFlags(h).close) then Dead
    else if h.start.Asks? then StartReq else StartRes
  }

  /** Another protocol takes over: an upgrade is asked for, or answered with 101, or a tunnel is asked for. */
  predicate TakesOver(h: Heading) {
    if HeadFlags(h).upgrade && HeadFlags(h).connectionUpgrade
    then h.start.Asks? || CodeOf(h.start.status) == 101
    else WantsTunnel(h)
  }

  predicate WantsTunnel(h: Heading) { h.start.Asks? && h.start.asked.meth.CONNECT? }

  /** A message that ends with its headers if they say nothing about a body. */
  predicate NeedsNoBody(h: Heading) {
    h.start.Asks? || 100 <= CodeOf(h.start.status) < 200 || CodeOf(h.start.status) == 204 || CodeOf(h.start.status) == 304
  }

  lemma LineSets(f: Flags, l: Line)
    ensures var g := LineFlags(f, l); g.trailing == f.trailing && g.skipBody == f.skipBody
  {
    hide V.Effect, V.Split, V.IsWord, Is, IsConnection;
    V.EffectSets(f, V.Split(l.value), true);
  }

  /** No header line sets the flags of a trailer or of a body to be skipped. */
  lemma {:induction false} LinesSet(f: Flags, ls: seq<Line>)
    ensures var g := FlagsOf(f, ls); g.trailing == f.trailing && g.skipBody == f.skipBody
    decreases |ls|
  {
    hide LineFlags;
    if ls != [] {
      LineSets(f, ls[0]);
      LinesSet(LineFlags(f, ls[0]), ls[1..]);
    }
  }

  /** The parser has understood what the message says. */
  lemma Understood(m: Machine, h: Heading, z: Machine)
    requires GoodStart(h.start) && Waits(m.p, h.start) && HeadingRead(m, h, z)
    ensures AtBlankLine(z) && !z.p.flags.trailing && !z.p.flags.skipBody
    ensures z.p.flags == HeadFlags(h) && z.p.contentLength == HeadLength(h) && z.p.info == StartInfo(m.p.info, h.start)
    ensures NextStart(z.p) == Following(h) && HandsOver(z.p) == TakesOver(h) && Bodiless(z.p) == NeedsNoBody(h)
    ensures z.p.info.meth.CONNECT? == WantsTunnel(h)
    ensures !(HeadFlags(h).chunked && HeadFlags(h).contentLength) ==> Decides(z)
    ensures HasLength(z.p) <==> 0 < HeadLength(h) < ULLONG_MAX
  {
    hide AtBlankLine, Inv, PrintHeading, FlagsOf, LengthOf, IsTarget, LineEvents, CodeOf, Digits, NoSpace, GoodReason;
    LinesSet(NO_FLAGS, h.lines);
  }

  // ---- whole messages ----------------------------------------------------------------------------------------

  lemma CallStarts(p: Parser, log: seq<Event>, s: StartLine, w: string, past: char)
    requires Waits(p, s) && w != "" && p.nread + |w| <= MAX_HEADER_SIZE
    ensures OnLine(Start(p, log)) && Start(p, log) == Machine(p, Outside, Delivery(log, map[]), 0, false)
  {
  }

  /** The start of a message in a call that also brings what follows. */
  lemma CallReads(p: Parser, log: seq<Event>, h: Heading, rest: string, past: char) returns (z: Machine)
    requires Waits(p, h.start) && GoodHeading(h, p.lenient) && p.nread + |PrintHeading(h)| <= MAX_HEADER_SIZE
    ensures GoodStart(h.start) && HeadingRead(Start(p, log), h, z) && Start(p, log).p == p
    ensures Call(p, log, PrintHeading(h) + rest, past) == End(Feed(Step(z, LF, First(rest, past)), rest, |rest|, past))
    ensures z.d == Delivery(log + (StartEvents(h.start) + LineEvents(h.lines)), map[]) && z.consumed + 1 == |PrintHeading(h)|
  {
    HeadingIsText(h);
    WaitsIsOk(p, h.start);
    CallStarts(p, log, h.start, PrintHeading(h), past);
    hide Waits, OnLine, GoodHeading, GoodStart, HeadingRead, PrintHeading, Step, Feed, End, StartEvents, LineEvents, Inv;
    z := HeadingIsRead(Start(p, log), h, rest, past);
    HeadingFacts(Start(p, log), h, z);
  }

  lemma HeadingFacts(m: Machine, h: Heading, z: Machine)
    requires GoodStart(h.start) && HeadingRead(m, h, z)
    ensures z.d == Delivery(m.d.log + (StartEvents(h.start) + LineEvents(h.lines)), map[])
    ensures z.consumed + 1 == m.consumed + |PrintHeading(h)|
  {
  }

  lemma HeadingIsText(h: Heading)
    ensures PrintHeading(h) != ""
  {
    hide PrintStart, PrintLines;
    EolSize(h.bare);
  }

  lemma WaitsIsOk(p: Parser, s: StartLine)
    requires Waits(p, s)
    ensures p.errno == OK && p.state == (if s.Asks? then StartReq else StartRes)
  {
  }

  /** The end of a message: what the fields that outlive it say. */
  ghost predicate MessageOver(p: Parser, h: Heading, x: Machine)
    requires GoodStart(h.start)
  {
    && x.p.errno == OK && x.p.info == StartInfo(p.info, h.start).(upgrade := TakesOver(h)) && x.p.state == Following(h)
    && x.exited == TakesOver(h)
  }

  /** The machine in front of a body or of chunks. */
  lemma Opened(z: Machine, x: Machine, s: State)
    requires AtBlankLine(z) && GoesOn(z, x, s) && z.p.errno == OK
    ensures s.Body? && !s.body.MessageDone? ==> AtBody(x) && x.p.state == s
    ensures x.p.contentLength == z.p.contentLength && x.p.errno == OK && x.d.log == z.d.log + [HEADERS]
    ensures x.consumed == z.consumed + 1 && x.p.flags == z.p.flags && x.p.info == z.p.info.(upgrade := HandsOver(z.p))
    ensures NextStart(x.p) == NextStart(z.p) && x.p.state == s && x.p.nread == 0
  {
    hide AtBlankLine, Good, HandsOver;
  }

  lemma BehindIs(x: Machine, b: string)
    requires AtBody(x) && x.p.contentLength == |b| && x.d.log != [] && x.d.log[|x.d.log| - 1].Notify?
    ensures var y := Behind(x, b);
      && End(y) == y && y.p.errno == OK && y.p.info == x.p.info && y.p.state == NextStart(x.p) && y.exited == x.p.info.upgrade
      && y.consumed == x.consumed + |b| && y.d.log == x.d.log + [Data(BodyData, b), COMPLETE]
  {
    hide Inv, HeldFits, LoopFits, NextStart;
    assert x.d.log + [Data(BodyData, b)] + [COMPLETE] == x.d.log + [Data(BodyData, b), COMPLETE];
    EndOfBody(Behind(x, b));
  }

  lemma EventsOf(log: seq<Event>, h: Heading)
    ensures log + (StartEvents(h.start) + LineEvents(h.lines)) + [HEADERS] == log + HeadingEvents(h)
    ensures var l := log + HeadingEvents(h); l != [] && l[|l| - 1].Notify?
  {
    hide StartEvents, LineEvents;
    assert log + (StartEvents(h.start) + LineEvents(h.lines)) + [HEADERS] ==
           log + (StartEvents(h.start) + LineEvents(h.lines) + [HEADERS]);
  }

  /** A printed message with a Content-Length: the callbacks report its target or reason, its lines and
      its body, no byte is left, and the parser knows its method, version and status. */
  lemma MessageWithLength(p: Parser, log: seq<Event>, h: Heading, b: string, past: char)
    requires Waits(p, h.start) && GoodHeading(h, p.lenient) && p.nread + |PrintHeading(h)| <= MAX_HEADER_SIZE
    requires 0 < HeadLength(h) == |b| < ULLONG_MAX && !HeadFlags(h).chunked && !WantsTunnel(h)
    ensures GoodStart(h.start)
    ensures var x := Call(p, log, PrintHeading(h) + b, past);
      && MessageOver(p, h, x) && x.consumed == |PrintHeading(h) + b|
      && x.d.log == log + HeadingEvents(h) + [Data(BodyData, b), COMPLETE]
  {
    hide *;
    var z := CallReads(p, log, h, b, past);
    Understood(Start(p, log), h, z);
    var c := First(b, past);
    BodyComes(z, c);
    var x := Step(z, LF, c);
    BlankIsOk(z);
    Opened(z, x, Body(BodyIdentity));
    EventsOf(log, h);
    WholeBody(x, b, past);
    BehindIs(x, b);
    OverIs(p, h, Behind(x, b), z);
    assert |PrintHeading(h) + b| == |PrintHeading(h)| + |b|;
  }

  lemma BlankIsOk(z: Machine)
    requires AtBlankLine(z)
    ensures z.p.errno == OK && z.p.contentLength <= ULLONG_MAX
  {
  }

  lemma OverIs(p: Parser, h: Heading, x: Machine, z: Machine)
    requires GoodStart(h.start) && z.p.info == StartInfo(p.info, h.start) && HandsOver(z.p) == TakesOver(h)
    requires x.p.errno == OK && x.p.info == z.p.info.(upgrade := HandsOver(z.p)) && x.p.state == Following(h)
    requires x.exited == x.p.info.upgrade
    ensures MessageOver(p, h, x)
  {
    hide GoodStart, StartInfo, HandsOver, TakesOver, Following;
  }

  lemma EndsIs(z: Machine, x: Machine, s: State, exit: bool)
    requires AtBlankLine(z) && Ends(z, x, s, exit) && exit == HandsOver(z.p)
    ensures End(x) == x && x.p.errno == OK && x.p.info == z.p.info.(upgrade := HandsOver(z.p)) && x.p.state == s
    ensures x.exited == x.p.info.upgrade && x.consumed == z.consumed + 1 && x.d.log == z.d.log + [HEADERS, COMPLETE]
    ensures x.exited ==> Stopped(x)
  {
    hide Inv, HeldFits, LoopFits, HandsOver;
    EndOfBody(x);
  }

  /** A message without a body: the length is 0, or none is given and none is needed. */
  lemma MessageWithoutBody(p: Parser, log: seq<Event>, h: Heading, past: char)
    requires Waits(p, h.start) && GoodHeading(h, p.lenient) && p.nread + |PrintHeading(h)| <= MAX_HEADER_SIZE
    requires !HeadFlags(h).chunked && !TakesOver(h)
    requires HeadLength(h) == 0 || (HeadLength(h) == ULLONG_MAX && NeedsNoBody(h))
    ensures GoodStart(h.start)
    ensures var x := Call(p, log, PrintHeading(h), past);
      MessageOver(p, h, x) && x.consumed == |PrintHeading(h)| && x.d.log == log + HeadingEvents(h) + [COMPLETE]
  {
    hide *;
    var z := CallReads(p, log, h, "", past);
    Understood(Start(p, log), h, z);
    NoBody(z, past);
    var x := Step(z, LF, past);
    EndsIs(z, x, Following(h), false);
    NothingFed(x, past);
    OverIs(p, h, x, z);
    EventsOf(log, h);
    TwoEvents(log + (StartEvents(h.start) + LineEvents(h.lines)));
    assert PrintHeading(h) + "" == PrintHeading(h);
  }

  lemma NothingFed(x: Machine, past: char)
    ensures Feed(x, "", 0, past) == x && First("", past) == past
  {
  }

  lemma TwoEvents(log: seq<Event>)
    ensures log + [HEADERS, COMPLETE] == log + [HEADERS] + [COMPLETE]
  {
  }

  /** Where another protocol takes over at once, whatever follows the headers is left to it. */
  lemma MessageThatHandsOver(p: Parser, log: seq<Event>, h: Heading, rest: string, past: char)
    requires Waits(p, h.start) && GoodHeading(h, p.lenient) && p.nread + |PrintHeading(h)| <= MAX_HEADER_SIZE
    requires TakesOver(h) && !(HeadFlags(h).chunked && HeadFlags(h).contentLength)
    requires WantsTunnel(h) || (!HeadFlags(h).chunked && !(0 < HeadLength(h) < ULLONG_MAX))
    ensures var x := Call(p, log, PrintHeading(h) + rest, past);
      && x.p.errno == OK && x.exited && x.p.info.upgrade && x.consumed == |PrintHeading(h)|
      && x.d.log == log + HeadingEvents(h) + [COMPLETE]
  {
    hide *;
    var z := CallReads(p, log, h, rest, past);
    Understood(Start(p, log), h, z);
    var c := First(rest, past);
    TakenOver(z, c);
    var x := Step(z, LF, c);
    var s := x.p.state;
    EndsSomewhere(z, x);
    EndsIs(z, x, s, true);
    FeedZero(x, rest, past);
    StoppedStays(x, rest, 0, |rest|, past);
    EventsOf(log, h);
    TwoEvents(log + (StartEvents(h.start) + LineEvents(h.lines)));
  }

  lemma EndsSomewhere(z: Machine, x: Machine)
    requires Ends(z, x, Dead, true) || Ends(z, x, NextStart(z.p), true)
    ensures Ends(z, x, x.p.state, true)
  {
    hide NextStart, HandsOver;
  }

  lemma FeedZero(x: Machine, w: string, past: char)
    ensures Feed(x, w, 0, past) == x
  {
  }

  /** A chunked message. */
  lemma MessageInChunks(p: Parser, log: seq<Event>, h: Heading, cs: seq<ChunkText>, size: string, ext: string, past: char)
    requires Waits(p, h.start) && GoodHeading(h, p.lenient) && p.nread + |PrintHeading(h)| <= MAX_HEADER_SIZE
    requires HeadFlags(h).chunked && !HeadFlags(h).contentLength && !WantsTunnel(h) && GoodBody(cs, size, ext)
    ensures GoodStart(h.start)
    ensures var w := PrintHeading(h) + BodyText(cs, size, ext); var x := Call(p, log, w, past);
      MessageOver(p, h, x) && x.consumed == |w| && x.d.log == log + HeadingEvents(h) + BodyEvents(cs)
  {
    hide *;
    var t := BodyText(cs, size, ext);
    var z := CallReads(p, log, h, t, past);
    Understood(Start(p, log), h, z);
    var c := First(t, past);
    BodyComes(z, c);
    var x := Step(z, LF, c);
    BlankIsOk(z);
    Opened(z, x, Chunk(ChunkSizeStart));
    AtChunks(z, x);
    BodyFeed(x, cs, size, ext, past);
    ThroughIs(x, cs, |t|);
    EventsOf(log, h);
    OverIs(p, h, Through(x, cs, |t|), z);
    assert |PrintHeading(h) + t| == |PrintHeading(h)| + |t|;
  }

  lemma AtChunks(z: Machine, x: Machine)
    requires GoesOn(z, x, Chunk(ChunkSizeStart))
    ensures AtSize(x)
  {
    hide Good, HandsOver;
  }

  lemma ThroughIs(x: Machine, cs: seq<ChunkText>, n: nat)
    requires x.p.errno == OK && AtSize(x)
    ensures var y := Through(x, cs, n);
      && End(y) == y && y.p.errno == OK && y.p.info == x.p.info && y.p.state == NextStart(x.p) && y.exited == x.p.info.upgrade
      && y.consumed == x.consumed + n && y.d.log == x.d.log + BodyEvents(cs)
  {
    hide NewMessage, NextStart, BodyEvents;
    ChunkedFlag(x);
    var q := x.p.(flags := x.p.flags.(trailing := true), contentLength := 0);
    NextIs(q, q);
    TrailingSame(x.p);
    EndOfBody(Through(x, cs, n));
  }

  lemma TrailingSame(p: Parser)
    ensures NextStart(p.(flags := p.flags.(trailing := true), contentLength := 0)) == NextStart(p)
  {
  }

  /** A response whose headers say nothing about its body: it goes on to the end of the stream, which
      completes it. */
  lemma MessageToTheEnd(p: Parser, log: seq<Event>, h: Heading, b: string, past: char)
    requires Waits(p, h.start) && GoodHeading(h, p.lenient) && p.nread + |PrintHeading(h)| <= MAX_HEADER_SIZE
    requires !HeadFlags(h).chunked && HeadLength(h) == ULLONG_MAX && !NeedsNoBody(h) && !TakesOver(h)
    ensures GoodStart(h.start)
    ensures var x := Call(p, log, PrintHeading(h) + b, past);
      && x.p.errno == OK && !x.exited && x.consumed == |PrintHeading(h) + b|
      && x.p.info == StartInfo(p.info, h.start).(upgrade := false)
      && x.d.log == log + HeadingEvents(h) + (if b == "" then [] else [Data(BodyData, b)])
      && Call(x.p, x.d.log, "", past) == Machine(x.p, Outside, Delivery(x.d.log + [COMPLETE], map[]), 0, false)
  {
    hide *;
    var z := CallReads(p, log, h, b, past);
    Understood(Start(p, log), h, z);
    var c := First(b, past);
    BodyComes(z, c);
    var x := Step(z, LF, c);
    BlankIsOk(z);
    Opened(z, x, Body(BodyIdentityEof));
    EventsOf(log, h);
    NeverFull(x, |b|);
    EndsInside(x, b, past);
    PausedIs(x, b, past);
    assert |PrintHeading(h) + b| == |PrintHeading(h)| + |b|;
  }

  lemma NeverFull(x: Machine, n: nat)
    requires x.p.state == Body(BodyIdentityEof)
    ensures MoreThan(x.p, n)
  {
  }

  lemma PausedIs(x: Machine, b: string, past: char)
    requires x.p.state == Body(BodyIdentityEof) && x.p.errno == OK && x.d.log != [] && x.d.log[|x.d.log| - 1].Notify?
    ensures var y := Paused(x, b);
      && y.p == x.p && !y.exited && y.consumed == x.consumed + |b|
      && y.d.log == x.d.log + (if b == "" then [] else [Data(BodyData, b)])
      && Call(y.p, y.d.log, "", past) == Machine(y.p, Outside, Delivery(y.d.log + [COMPLETE], map[]), 0, false)
  {
    hide Start, Feed;
    assert x.d.log + [] == x.d.log;
  }

  /** A chunked message with a Content-Length is refused at the end of its headers. */
  lemma MessageWithBoth(p: Parser, log: seq<Event>, h: Heading, rest: string, past: char)
    requires Waits(p, h.start) && GoodHeading(h, p.lenient) && p.nread + |PrintHeading(h)| <= MAX_HEADER_SIZE
    requires HeadFlags(h).chunked && HeadFlags(h).contentLength
    ensures var x := Call(p, log, PrintHeading(h) + rest, past);
      x.p.errno == UnexpectedContentLength && x.consumed == |PrintHeading(h)| - 1
  {
    hide *;
    var z := CallReads(p, log, h, rest, past);
    Understood(Start(p, log), h, z);
    var c := First(rest, past);
    BothLengths(z, c);
    var x := Step(z, LF, c);
    RefusedStops(x);
    FeedZero(x, rest, past);
    StoppedStays(x, rest, 0, |rest|, past);
    StoppedEnds(x);
  }

  lemma StoppedEnds(x: Machine)
    requires Stopped(x)
    ensures End(x) == x
  {
  }
}
