/** What follows the headers: the LF of the empty line decides how the message goes on, and a body
    is handed over byte for byte, whether it has a length, comes in chunks or runs to the end of
    the stream. */
module HttpBodies {
  import opened Basics
  import opened HttpBase
  import opened HttpMachine
  import opened HttpRun
  import opened HttpSteps
  import opened HttpNumbers
  import opened HttpPieces
  import opened HttpExactCut
  import opened HttpChunked

  // ---- what the fields say at the end of the headers -----------------------------------------------

  /** In front of the LF that ends the headers. */
  predicate AtBlank(p: Parser) {
    p.errno == OK && Inv(p) && p.state == Head(HeadersAlmostDone) && p.nread < MAX_HEADER_SIZE
  }

  /** Both upgrade headers were sent, in a request or with status 101; or else a tunnel is asked for. */
  predicate HandsOver(p: Parser) {
    if p.flags.upgrade && p.flags.connectionUpgrade then p.info.kind.Request? || p.info.statusCode == 101
    else p.info.meth.CONNECT?
  }

  predicate HasLength(p: Parser) { 0 < p.contentLength < ULLONG_MAX }

  /** Section 3.3.3 of RFC 7230: only a response can end with the stream, and not one of these. */
  predicate Bodiless(p: Parser) {
    p.info.kind.Request? || 100 <= p.info.statusCode < 200 || p.info.statusCode == 204 || p.info.statusCode == 304
  }

  /** Where the next message begins: after HTTP/1.1 unless "close" was said, after older versions only
      if "keep-alive" was. */
  function NextStart(p: Parser): State {
    if (if p.info.httpMajor == 0 || p.info.httpMinor == 0 then !p.flags.keepAlive else p.flags.close) then Dead
    else if p.info.kind.Request? then StartReq else StartRes
  }

  /** The fields when the headers are over. */
  function Over(p: Parser, s: State): Parser {
    p.(info := p.info.(upgrade := HandsOver(p)), nread := 0, state := s)
  }

  /** The machine after a byte that only notifies. */
  function Noted(m: Machine, p: Parser, events: seq<Event>, exit: bool): Machine {
    Machine(p, Outside, Delivery(m.d.log + events, map[]), m.consumed + 1, exit)
  }

  const HEADERS := Notify(HeadersComplete)
  const COMPLETE := Notify(MessageComplete)

  predicate AtBlankLine(m: Machine) { Running(m) && m.loop.Outside? && AtBlank(m.p) }

  lemma LengthFits(p: Parser)
    requires Inv(p)
    ensures p.contentLength <= ULLONG_MAX
  {
  }

  lemma BlankRuns(m: Machine, next: char)
    requires AtBlankLine(m)
    ensures var p := m.p.(nread := m.p.nread + 1);
      Step(m, LF, next) == Apply(m, AtHeadersAlmostDone(p, LF), LF) && Good(Step(m, LF, next)) && m.d.held == map[]
    ensures m.p.contentLength <= ULLONG_MAX && m.p.errno == OK
  {
    LengthFits(m.p);
    hide Inv, HeldFits, Apply, AtHeadersAlmostDone, AtHeadersDone;
    CountStops(m, LF, next);
    StepIsApply(m, LF, next);
    StepKeepsGood(m, LF, next);
    NothingHeld(m);
  }

  lemma NotedApply(m: Machine, o: Out, ns: seq<Notice>, c: char)
    requires m.d.held == map[] && o.close == Leave && o.mark == None && o.p.errno == OK && o.loop.Outside? && o.tells == ns
    ensures Apply(m, o, c) == Noted(m, o.p, Notes(ns), o.exit)
  {
    hide Extend;
    ExtendNothing(Delivery(m.d.log + Notes(ns), map[]), c);
  }

  lemma TwoNotes()
    ensures Notes([HeadersComplete]) == [HEADERS] && Notes([HeadersComplete] + [MessageComplete]) == [HEADERS, COMPLETE]
  {
  }

  // ---- the decision ----------------------------------------------------------------------------------

  /** The message ends with its headers: the fields, and whether the call returns here. */
  predicate Ends(m: Machine, x: Machine, s: State, exit: bool) {
    x == Noted(m, Over(m.p, s), [HEADERS, COMPLETE], exit)
  }

  predicate GoesOn(m: Machine, x: Machine, s: State) {
    x == Noted(m, Over(m.p, s), [HEADERS], false) && Running(x)
  }

  lemma NextIs(p: Parser, q: Parser)
    requires q.info == p.info.(upgrade := q.info.upgrade) && q.flags == p.flags && q.contentLength == p.contentLength
    ensures p.contentLength != ULLONG_MAX || p.flags.chunked || p.flags.skipBody || Bodiless(p) ==>
            !NeedsEof(q) && NewMessage(q) == NextStart(p)
    ensures p.contentLength == ULLONG_MAX && !p.flags.chunked && !p.flags.skipBody && !Bodiless(p) ==>
            NeedsEof(q) && NewMessage(q) == Dead
  {
  }

  /** A chunked message with a Content-Length is refused. */
  lemma BothLengths(m: Machine, next: char)
    requires AtBlankLine(m) && !m.p.flags.trailing && m.p.flags.chunked && m.p.flags.contentLength
    ensures Step(m, LF, next).p.errno == UnexpectedContentLength && Step(m, LF, next).d == m.d
    ensures Step(m, LF, next).consumed == m.consumed
  {
    hide Inv, HeldFits, Step, Good;
    BlankRuns(m, next);
    NoNotes(m.d.log);
  }

  /** Everything but the trailer of chunks and the clash of lengths. */
  predicate Decides(m: Machine) {
    AtBlankLine(m) && !m.p.flags.trailing && !(m.p.flags.chunked && m.p.flags.contentLength)
  }

  /** Another protocol takes over at once: the rest is not for this parser. */
  lemma TakenOver(m: Machine, next: char)
    requires Decides(m) && HandsOver(m.p)
    requires m.p.info.meth.CONNECT? || m.p.flags.skipBody || !(m.p.flags.chunked || HasLength(m.p))
    ensures var open := m.p.contentLength == ULLONG_MAX && !m.p.flags.chunked && !m.p.flags.skipBody && !Bodiless(m.p);
      Ends(m, Step(m, LF, next), if open then Dead else NextStart(m.p), true)
  {
    hide Inv, HeldFits, Step, Good, Fine, NewMessage, NeedsEof, NextStart, Bodiless;
    BlankRuns(m, next);
    NextIs(m.p, Over(m.p, Head(HeadersDone)));
    TwoNotes();
    NotedApply(m, AtHeadersAlmostDone(m.p.(nread := m.p.nread + 1), LF), [HeadersComplete] + [MessageComplete], LF);
  }

  /** The message is complete: the application wants no body, the length is 0, or there is no length
      and the message is not one that can end with the stream. */
  lemma NoBody(m: Machine, next: char)
    requires Decides(m) && !HandsOver(m.p)
    requires m.p.flags.skipBody || (!m.p.flags.chunked && (m.p.contentLength == 0 || (!HasLength(m.p) && Bodiless(m.p))))
    ensures Ends(m, Step(m, LF, next), NextStart(m.p), false)
  {
    hide Inv, HeldFits, Step, Good, Fine, NewMessage, NeedsEof, NextStart, Bodiless;
    BlankRuns(m, next);
    NextIs(m.p, Over(m.p, Head(HeadersDone)));
    TwoNotes();
    NotedApply(m, AtHeadersAlmostDone(m.p.(nread := m.p.nread + 1), LF), [HeadersComplete] + [MessageComplete], LF);
  }

  /** A body comes: in chunks, of the given length, or up to the end of the stream. A request to change the
      protocol waits for it, unless it asks for a tunnel. */
  lemma BodyComes(m: Machine, next: char)
    requires Decides(m) && !m.p.flags.skipBody && (HandsOver(m.p) ==> !m.p.info.meth.CONNECT?)
    ensures m.p.flags.chunked ==> GoesOn(m, Step(m, LF, next), Chunk(ChunkSizeStart))
    ensures !m.p.flags.chunked && HasLength(m.p) ==> GoesOn(m, Step(m, LF, next), Body(BodyIdentity))
    ensures !m.p.flags.chunked && m.p.contentLength == ULLONG_MAX && !Bodiless(m.p) && !HandsOver(m.p) ==>
            GoesOn(m, Step(m, LF, next), Body(BodyIdentityEof))
  {
    hide Inv, HeldFits, Step, Fine, NewMessage, NeedsEof, NextStart, Bodiless;
    BlankRuns(m, next);
    NextIs(m.p, Over(m.p, Head(HeadersDone)));
    TwoNotes();
    var o := AtHeadersAlmostDone(m.p.(nread := m.p.nread + 1), LF);
    if o.tells == [HeadersComplete] + [] {
      NotedApply(m, o, [HeadersComplete], LF);
    }
  }

  // ---- a body of a given length ----------------------------------------------------------------------

  /** A machine in front of a body. */
  predicate AtBody(m: Machine) {
    Running(m) && m.loop.Outside? && m.d.held == map[] &&
      (m.p.state == Body(BodyIdentity) || m.p.state == Body(BodyIdentityEof))
  }

  /** The machine inside the body, s read. */
  function BodyRead(m: Machine, s: string): Machine
    requires m.p.state == Body(BodyIdentityEof) || |s| <= m.p.contentLength
  {
    var held := if s == "" then map[] else map[BodyData := s];
    Machine(Less(m.p, |s|), Outside, Delivery(m.d.log, held), m.consumed + |s|, false)
  }

  lemma {:induction false} BodyFed(m: Machine, w: string, n: nat, past: char)
    requires AtBody(m) && n <= |w| && MoreThan(m.p, n)
    ensures Feed(m, w, n, past) == BodyRead(m, w[..n]) && Running(Feed(m, w, n, past))
  {
    hide Step, Inv, HeldFits, LoopFits, Extend;
    if n > 0 {
      BodyFed(m, w, n - 1, past);
      var y := Feed(m, w, n - 1, past);
      BodyStep(y, w[n - 1], After(w, n - 1, past));
      assert w[..n] == w[..n - 1] + [w[n - 1]];
      assert WithBody(y.d) == Delivery(m.d.log, map[BodyData := w[..n - 1]]);
      ExtendOne(m.d.log, BodyData, w[..n - 1], w[n - 1]);
    }
  }

  /** The machine behind a body of a given length. */
  function Behind(m: Machine, b: string): Machine {
    Machine(m.p.(contentLength := 0, state := NextStart(m.p)), Outside,
            Delivery(Emit(m.d.log, Data(BodyData, b)) + [COMPLETE], map[]), m.consumed + |b|, m.p.info.upgrade)
  }

  lemma LastByteOf(m: Machine, s: string, c: char, next: char)
    requires AtBody(m) && m.p.state == Body(BodyIdentity) && m.p.contentLength == |s| + 1
    requires Running(BodyRead(m, s))
    ensures Step(BodyRead(m, s), c, next) == Behind(m, s + [c]) && Good(Behind(m, s + [c]))
  {
    hide Step, Inv, HeldFits, LoopFits, Emit, NewMessage, NextStart, Extend;
    var y := BodyRead(m, s);
    LastBodyStep(y, c, next);
    LastByteApplied(y, y.p, c);
    NextIs(m.p.(contentLength := 0), y.p.(contentLength := 0, state := Body(MessageDone)));
    NextStartSame(m.p);
    var log := Emit(m.d.log, Data(BodyData, s + [c]));
    assert Notes([MessageComplete]) == [COMPLETE];
    assert y.d.held - {BodyData} == map[];
    ExtendNothing(Delivery(log + [COMPLETE], map[]), c);
  }

  lemma NextStartSame(p: Parser)
    ensures NextStart(p.(contentLength := 0)) == NextStart(p)
  {
  }

  lemma WholeBody(m: Machine, b: string, past: char)
    requires AtBody(m) && m.p.state == Body(BodyIdentity) && m.p.contentLength == |b|
    ensures Feed(m, b, |b|, past) == Behind(m, b) && Good(Behind(m, b)) && Plain(m, b, past)
  {
    hide Step, Running, Behind, NextStart;
    HasBytes(m);
    var n := |b| - 1;
    BodyFed(m, b, n, past);
    assert b == b[..n] + [b[n]];
    LastByteOf(m, b[..n], b[n], past);
    forall j | 0 <= j < |b| ensures Calm(Feed(m, b, j, past).p.state) {
      BodyFed(m, b, j, past);
    }
  }

  lemma HasBytes(m: Machine)
    requires AtBody(m) && m.p.state == Body(BodyIdentity)
    ensures 0 < m.p.contentLength < ULLONG_MAX && m.p.errno == OK
  {
  }

  // ---- the calls that bring a body --------------------------------------------------------------------

  /** The callbacks that bring s, joined to one. */
  function Brought(log: seq<Event>, s: string): seq<Event> {
    if s == "" then log else Emit(log, Data(BodyData, s))
  }

  lemma BroughtTwice(log: seq<Event>, s: string, t: string)
    ensures Brought(Brought(log, s), t) == Brought(log, s + t)
  {
    if s == "" {
      assert s + t == t;
    } else if t == "" {
      assert s + t == s;
    } else if log != [] && log[|log| - 1].Data? && log[|log| - 1].kind == BodyData {
      var a := log[|log| - 1].bytes;
      assert a + (s + t) == (a + s) + t;
    }
  }

  lemma LeftoverBody(log: seq<Event>, s: string)
    ensures Leftover(Delivery(log, if s == "" then map[] else map[BodyData := s])) == Delivery(Brought(log, s), map[])
  {
    hide Emit;
    assert s != "" ==> map[BodyData := s] - {BodyData} == map[];
  }

  /** The machine between two calls, s brought by the first. */
  function Paused(m: Machine, s: string): Machine
    requires m.p.state == Body(BodyIdentityEof) || |s| <= m.p.contentLength
  {
    Machine(Less(m.p, |s|), Outside, Delivery(Brought(m.d.log, s), map[]), m.consumed + |s|, false)
  }

  /** A buffer that ends inside the body. */
  lemma EndsInside(m: Machine, s: string, past: char)
    requires AtBody(m) && MoreThan(m.p, |s|)
    ensures End(Feed(m, s, |s|, past)) == Paused(m, s)
  {
    hide Step, Running, Leftover;
    BodyFed(m, s, |s|, past);
    assert s[..|s|] == s;
    RunsOn(BodyRead(m, s));
    LeftoverBody(m.d.log, s);
  }

  lemma NextCallAtBody(m: Machine, s: string)
    requires AtBody(m) && m.p.nread == 0 && MoreThan(m.p, |s|)
    ensures var q := Paused(m, s); AtBody(Start(q.p, q.d.log)) && !Stopped(q) && q.p.errno == OK
  {
    hide Brought;
  }

  /** The next call goes on where the one before stopped. */
  lemma CallsInside(m: Machine, s: string, t: string, past: char)
    requires AtBody(m) && m.p.nread == 0 && MoreThan(m.p, |s + t|) && t != ""
    ensures !Stopped(Paused(m, s))
    ensures OneMore(Paused(m, s), Piece(t, past)) == Paused(m, s + t)
  {
    hide Step, Running, Brought, End;
    var q := Paused(m, s);
    NextCallAtBody(m, s);
    EndsInside(Start(q.p, q.d.log), t, past);
    BroughtTwice(m.d.log, s, t);
  }

  /** The call that brings the last byte. */
  lemma CallsThrough(m: Machine, s: string, t: string, past: char)
    requires AtBody(m) && m.p.nread == 0 && m.p.state == Body(BodyIdentity) && m.p.contentLength == |s + t| && t != ""
    ensures OneMore(Paused(m, s), Piece(t, past)) == Behind(m, s + t)
  {
    hide Step, Running, Emit, End;
    var q := Paused(m, s);
    NextCallAtBody(m, s);
    var x := Start(q.p, q.d.log);
    WholeBody(x, t, past);
    EndOfBody(Behind(x, t));
    BroughtTwice(m.d.log, s, t);
    NextStartDepends(m.p, q.p);
  }

  lemma NextStartDepends(p: Parser, q: Parser)
    requires p.info == q.info && p.flags == q.flags
    ensures NextStart(p) == NextStart(q)
  {
  }

  // ---- the LF and the body, in any pieces ---------------------------------------------------------------

  lemma WholeLast(ps: seq<Piece>)
    requires ps != []
    ensures Whole(ps) == Whole(ps[..|ps| - 1]) + ps[|ps| - 1].data
    ensures ps[..|ps| - 1] == [] ==> Whole(ps[..|ps| - 1]) == ""
  {
  }

  /** x stands behind the LF and in front of a body. */
  predicate Opens(p: Parser, log: seq<Event>, x: Machine) {
    AtBlank(p) && AtBody(x) && x.p.nread == 0 && x.consumed == 1 && forall c :: Step(Start(p, log), LF, c) == x
  }

  lemma FirstCall(p: Parser, log: seq<Event>, x: Machine, w: string, past: char)
    requires Opens(p, log, x) && w != "" && w[0] == LF
    ensures Call(p, log, w, past) == End(Feed(x, w[1..], |w| - 1, past))
  {
    hide Step, Running, Start, End, Inv;
    var s := Start(p, log);
    assert w == [LF] + w[1..];
    FeedConcat(s, [LF], w[1..], |w| - 1, past);
    assert Feed(s, [LF], 0, First(w[1..], past)) == s;
    assert Feed(s, [LF], 1, First(w[1..], past)) == Step(s, LF, First(w[1..], past));
  }

  lemma CallsLast(p: Parser, log: seq<Event>, ps: seq<Piece>)
    requires ps != []
    ensures Calls(p, log, ps) == OneMore(Calls(p, log, ps[..|ps| - 1]), ps[|ps| - 1])
    ensures ps[..|ps| - 1] == [] && p.errno == OK ==>
            Calls(p, log, ps) == Call(p, log, ps[|ps| - 1].data, ps[|ps| - 1].past)
  {
    hide Call;
  }

  lemma OnlyPiece(ps: seq<Piece>, b: string)
    requires |ps| == 1 && Whole(ps) == [LF] + b
    ensures ps[0].data == [LF] + b && ps[0].data[1..] == b
  {
    hide Whole;
    WholeLast(ps);
    assert "" + ps[0].data == ps[0].data;
  }

  lemma FrontOf(ps: seq<Piece>, b: string)
    requires Fed(ps) && Whole(ps) == [LF] + b && |ps| > 1
    ensures var w := Whole(ps[..|ps| - 1]);
      Fed(ps[..|ps| - 1]) && w != "" && w == [LF] + w[1..] && b == w[1..] + ps[|ps| - 1].data
  {
    hide Whole;
    var front := ps[..|ps| - 1];
    WholeLast(ps);
    WholeLast(front);
    assert front[|front| - 1] == ps[|ps| - 2];
    assert Whole(ps)[0] == Whole(front)[0];
    assert Whole(ps)[1..] == b;
  }

  /** Pieces that end inside the body. */
  lemma {:induction false} PiecesInside(p: Parser, log: seq<Event>, x: Machine, b: string, ps: seq<Piece>)
    requires Opens(p, log, x) && Fed(ps) && Whole(ps) == [LF] + b && MoreThan(x.p, |b|)
    ensures Calls(p, log, ps) == Paused(x, b)
    decreases |ps|
  {
    hide Step, Running, Start, End, Inv, Call, Calls, Whole, Brought, OneMore, Paused;
    var t := ps[|ps| - 1];
    CallsLast(p, log, ps);
    WholeLast(ps);
    if |ps| == 1 {
      OnlyPiece(ps, b);
      FirstCall(p, log, x, t.data, t.past);
      EndsInside(x, b, t.past);
    } else {
      FrontOf(ps, b);
      var a := Whole(ps[..|ps| - 1])[1..];
      PiecesInside(p, log, x, a, ps[..|ps| - 1]);
      CallsInside(x, a, t.data, t.past);
    }
  }

  /** Pieces that bring the whole body. */
  lemma PiecesThrough(p: Parser, log: seq<Event>, x: Machine, b: string, ps: seq<Piece>)
    requires Opens(p, log, x) && Fed(ps) && Whole(ps) == [LF] + b
    requires x.p.state == Body(BodyIdentity) && x.p.contentLength == |b|
    ensures Calls(p, log, ps) == Behind(x, b)
  {
    hide Step, Running, Start, End, Inv, Call, Calls, Whole, Brought, OneMore, Paused, Emit, NextStart;
    var t := ps[|ps| - 1];
    CallsLast(p, log, ps);
    WholeLast(ps);
    if |ps| == 1 {
      OnlyPiece(ps, b);
      FirstCall(p, log, x, t.data, t.past);
      WholeBody(x, b, t.past);
      HasBytes(x);
      EndOfBody(Behind(x, b));
    } else {
      FrontOf(ps, b);
      var a := Whole(ps[..|ps| - 1])[1..];
      PiecesInside(p, log, x, a, ps[..|ps| - 1]);
      CallsThrough(x, a, t.data, t.past);
    }
  }

  lemma StartsBlank(p: Parser, log: seq<Event>)
    requires AtBlank(p)
    ensures AtBlankLine(Start(p, log)) && Start(p, log) == Machine(p, Outside, Delivery(log, map[]), 0, false)
  {
  }

  /** A body with a length: whatever bytes it has, in one call or in any pieces, whatever memory holds behind
      them. The body is handed over, the message is complete once and after it, no byte is left, and the call
      returns there if the connection goes to another protocol. */
  lemma BodyOfLength(p: Parser, log: seq<Event>, b: string, ps: seq<Piece>)
    requires AtBlank(p) && !p.flags.trailing && !p.flags.chunked && !p.flags.skipBody
    requires 0 < p.contentLength == |b| < ULLONG_MAX && (HandsOver(p) ==> !p.info.meth.CONNECT?)
    requires Fed(ps) && Whole(ps) == [LF] + b
    ensures Calls(p, log, ps) ==
            Machine(Over(p, NextStart(p)).(contentLength := 0), Outside,
                    Delivery(log + [HEADERS, Data(BodyData, b), COMPLETE], map[]), |b| + 1, HandsOver(p))
  {
    hide Step, Inv, Running, Call, Calls, Whole, NextStart, HandsOver;
    var s := Start(p, log);
    StartsBlank(p, log);
    BodyComes(s, LF);
    forall c ensures GoesOn(s, Step(s, LF, c), Body(BodyIdentity)) { BodyComes(s, c); }
    var x := Noted(s, Over(p, Body(BodyIdentity)), [HEADERS], false);
    PiecesThrough(p, log, x, b, ps);
    NextStartOver(p, Body(BodyIdentity));
    assert Emit(x.d.log, Data(BodyData, b)) + [COMPLETE] == log + [HEADERS, Data(BodyData, b), COMPLETE];
  }

  lemma NextStartOver(p: Parser, s: State)
    ensures NextStart(Over(p, s)) == NextStart(p)
  {
  }

  /** A response without a length that may have a body: all that comes is body, until the end of the stream
      completes the message. */
  lemma BodyToTheEnd(p: Parser, log: seq<Event>, b: string, ps: seq<Piece>, past: char)
    requires AtBlank(p) && !p.flags.trailing && !p.flags.chunked && !p.flags.skipBody
    requires p.contentLength == ULLONG_MAX && !Bodiless(p) && !HandsOver(p)
    requires Fed(ps) && Whole(ps) == [LF] + b
    ensures var q := Over(p, Body(BodyIdentityEof)); var got := log + [HEADERS] + if b == "" then [] else [Data(BodyData, b)];
      && Calls(p, log, ps) == Machine(q, Outside, Delivery(got, map[]), |b| + 1, false)
      && Call(q, got, "", past) == Machine(q, Outside, Delivery(got + [COMPLETE], map[]), 0, false)
  {
    hide Step, Inv, Running, Calls, Whole, NextStart, HandsOver;
    var s := Start(p, log);
    StartsBlank(p, log);
    BodyComes(s, LF);
    forall c ensures GoesOn(s, Step(s, LF, c), Body(BodyIdentityEof)) { BodyComes(s, c); }
    var x := Noted(s, Over(p, Body(BodyIdentityEof)), [HEADERS], false);
    PiecesInside(p, log, x, b, ps);
    assert Emit(x.d.log, Data(BodyData, b)) == log + [HEADERS] + [Data(BodyData, b)];
  }

  /** The fields when a chunked message is complete. */
  function ChunksOver(p: Parser): Parser {
    Over(p, NextStart(p)).(flags := p.flags.(trailing := true), contentLength := 0, nread := 2)
  }

  lemma FinishedIs(p: Parser)
    requires p.flags.chunked
    ensures Finished(Over(p, Chunk(ChunkSizeStart))) == ChunksOver(p)
  {
  }

  lemma ChunksFed(p: Parser, log: seq<Event>, cs: seq<ChunkText>, size: string, ext: string, past: char)
    requires AtBlank(p) && !p.flags.trailing && !p.flags.skipBody && p.flags.chunked && !p.flags.contentLength
    requires (HandsOver(p) ==> !p.info.meth.CONNECT?) && GoodBody(cs, size, ext)
    ensures var w := [LF] + BodyText(cs, size, ext);
      && Feed(Start(p, log), w, |w|, past) ==
         Machine(ChunksOver(p), Outside, Delivery(log + [HEADERS] + BodyEvents(cs), map[]), |w|, HandsOver(p))
      && Plain(Start(p, log), w, past)
  {
    hide Step, Inv, GoodBody, Plain, BodyText, BodyEvents, NextStart, HandsOver, Finished, NewMessage, HeldFits;
    var s, t := Start(p, log), BodyText(cs, size, ext);
    StartsBlank(p, log);
    BodyComes(s, First(t, past));
    var x := Noted(s, Over(p, Chunk(ChunkSizeStart)), [HEADERS], false);
    FinishedIs(p);
    BodyFeed(x, cs, size, ext, past);
    PlainOne(s, LF, First(t, past));
    FeedGlue(s, [LF], x, t, Through(x, cs, |t|), past);
  }

  /** A chunked body, in any pieces. */
  lemma BodyInChunks(p: Parser, log: seq<Event>, cs: seq<ChunkText>, size: string, ext: string, ps: seq<Piece>)
    requires AtBlank(p) && !p.flags.trailing && !p.flags.skipBody && p.flags.chunked && !p.flags.contentLength
    requires (HandsOver(p) ==> !p.info.meth.CONNECT?) && GoodBody(cs, size, ext)
    requires Fed(ps) && Whole(ps) == [LF] + BodyText(cs, size, ext) && |Whole(ps)| <= MAX_CALL
    ensures var m := Calls(p, log, ps);
      && m.p == ChunksOver(p) && m.d.log == log + [HEADERS] + BodyEvents(cs)
      && m.consumed == |Whole(ps)| && m.exited == HandsOver(p)
  {
    hide Start, Step, Inv, GoodBody, Plain, BodyText, BodyEvents, HandsOver, Calls, Whole, ChunksOver;
    var past := ps[|ps| - 1].past;
    ChunksFed(p, log, cs, size, ext, past);
    OverIsOk(p);
    EndOfBody(Feed(Start(p, log), Whole(ps), |Whole(ps)|, past));
    PlainCuts(p, log, ps);
    CutsOutsideHeaders(p, log, ps);
  }

  lemma OverIsOk(p: Parser)
    requires AtBlank(p)
    ensures p.errno == OK && ChunksOver(p).errno == OK && Inv(p) && p.nread <= MAX_HEADER_SIZE
  {
  }

  /** Where another protocol takes over, the bytes behind the LF are left to it. */
  lemma RestIsLeft(p: Parser, log: seq<Event>, rest: string, past: char)
    requires AtBlank(p) && !p.flags.trailing && !(p.flags.chunked && p.flags.contentLength) && HandsOver(p)
    requires p.info.meth.CONNECT? || p.flags.skipBody || !(p.flags.chunked || HasLength(p))
    ensures var x := Call(p, log, [LF] + rest, past);
      && x.exited && x.consumed == 1 && x.p.errno == OK && x.p.info.upgrade && x.d.log == log + [HEADERS, COMPLETE]
  {
    hide Step, Inv, HandsOver, NextStart, Bodiless, HasLength;
    var s, w := Start(p, log), [LF] + rest;
    StartsBlank(p, log);
    TakenOver(s, First(rest, past));
    FeedFront(s, [LF], rest, 1, past);
    assert Feed(s, [LF], 0, First(rest, past)) == s;
    assert Feed(s, [LF], 1, First(rest, past)) == Step(s, LF, First(rest, past));
    StoppedStays(s, w, 1, |w|, past);
  }
}
