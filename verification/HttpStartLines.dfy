/** Start lines: a request line and a status line are read as what they say, the method, the target, the
    two digits of the version, the status code and the reason. */
module HttpStartLines {
  import opened Basics
  import opened HttpBase
  import opened HttpMachine
  import opened HttpRun
  import opened HttpSteps
  import opened HttpNumbers
  import opened HttpMethods
  import opened HttpChunked
  import opened HttpLines
  import U = UrlSplit

  /** A byte that only moves on: to state s, with the read-only part i. */
  function Moved(m: Machine, i: Info, s: State): Machine {
    m.(p := m.p.(info := i, state := s, nread := m.p.nread + 1), consumed := m.consumed + 1)
  }

  /** A machine that waits for a byte of a start line. */
  predicate OnLine(m: Machine) {
    Running(m) && m.loop.Outside? && m.p.nread < MAX_HEADER_SIZE && m.d.held == map[]
  }

  lemma MovesTo(m: Machine, c: char, next: char, i: Info, s: State)
    requires OnLine(m) && ParsingHeader(m.p.state) && Live(m.p.state) == None
    requires var p := m.p.(nread := m.p.nread + 1); Transition(p, Outside, c, next) == Go(p.(info := i), s)
    ensures Step(m, c, next) == Moved(m, i, s) && Running(Moved(m, i, s))
  {
    hide Transition, Inv, HeldFits, Extend;
    CountStops(m, c, next);
    StepIsApply(m, c, next);
    StepKeepsGood(m, c, next);
    NoNotes(m.d.log);
    ExtendNothing(m.d, c);
  }

  /** In state s the byte c only leads to state t. */
  ghost predicate Leads(s: State, c: char, t: State) {
    ParsingHeader(s) && Live(s) == None &&
      forall p: Parser, next :: p.state == s ==> Transition(p, Outside, c, next) == Go(p, t)
  }

  /** The machine k quiet bytes on, in state s. */
  function On(m: Machine, s: State, k: nat): Machine {
    m.(p := m.p.(state := s, nread := m.p.nread + k), consumed := m.consumed + k)
  }

  lemma {:induction false} ChainFed(m: Machine, w: string, ss: seq<State>, n: nat, past: char)
    requires n <= |w| && |ss| == |w| + 1 && m.p.state == ss[0] && (forall j :: 0 <= j < |w| ==> Leads(ss[j], w[j], ss[j + 1]))
    requires Running(m) && m.loop.Outside? && m.p.nread + |w| <= MAX_HEADER_SIZE && m.d.held == map[]
    ensures Feed(m, w, n, past) == On(m, ss[n], n) && Running(On(m, ss[n], n))
  {
    hide Transition, Step, Good, Live, ParsingHeader;
    if n > 0 {
      ChainFed(m, w, ss, n - 1, past);
      var x := On(m, ss[n - 1], n - 1);
      MovesTo(x, w[n - 1], After(w, n - 1, past), x.p.info, ss[n]);
    }
  }

  lemma OneOn(m: Machine, c: char, t: State, past: char)
    requires Leads(m.p.state, c, t) && OnLine(m)
    ensures Feed(m, [c], 1, past) == On(m, t, 1) && Running(On(m, t, 1))
  {
    hide Transition, Step, Running, Leads;
    ChainFed(m, [c], [m.p.state, t], 1, past);
  }

  // ---- the version ---------------------------------------------------------------------------------------

  /** "HTTP/" and two digits with a dot between them. */
  function VersionText(major: char, minor: char): string { "HTTP/" + [major] + "." + [minor] }

  const HTTP_STATES := [Version(ReqHttpStart), Version(ReqHttpH), Version(ReqHttpHT), Version(ReqHttpHTT),
                        Version(ReqHttpHTTP), Version(ReqHttpMajor)]

  lemma HttpLeads(j: nat)
    requires j < 5
    ensures Leads(HTTP_STATES[j], "HTTP/"[j], HTTP_STATES[j + 1])
  {
    hide Inv, Fine, AtReqMethod, AtStartReq, AtUrl, ResByte, HeadByte, ChunkByte;
  }

  const TTP_STATES := [Res(ResH), Res(ResHT), Res(ResHTT), Res(ResHTTP), Res(ResHttpMajor)]

  lemma TtpLeads(j: nat)
    requires j < 4
    ensures Leads(TTP_STATES[j], "TTP/"[j], TTP_STATES[j + 1])
  {
    hide Inv, Fine, AtReqMethod, AtStartReq, AtUrl, VersionByte, HeadByte, ChunkByte, AtResStatus, AtResStatusStart;
  }

  lemma VersionLeads()
    ensures Leads(Version(ReqHttpDot), '.', Version(ReqHttpMinor))
    ensures Leads(Version(ReqHttpEnd), CR, Version(ReqLineAlmostDone)) &&
      Leads(Version(ReqHttpEnd), LF, Head(HeaderFieldStart))
    ensures Leads(Version(ReqLineAlmostDone), LF, Head(HeaderFieldStart))
  {
    hide Inv, Fine, AtReqMethod, AtStartReq, AtUrl, HeadByte, ChunkByte, ResByte;
  }

  lemma StatusLeads()
    ensures Leads(Res(ResHttpDot), '.', Res(ResHttpMinor)) && Leads(Res(ResHttpEnd), ' ', Res(ResFirstStatusCode))
    ensures Leads(Res(ResLineAlmostDone), LF, Head(HeaderFieldStart))
  {
    hide Inv, Fine, AtReqMethod, AtStartReq, AtUrl, HeadByte, ChunkByte, AtResStatus, AtResStatusStart, VersionByte;
  }

  /** A run over s that ends at x and has not failed. */
  predicate Gets(m: Machine, s: string, past: char, x: Machine) { Feed(m, s, |s|, past) == x && Running(x) }

  lemma GetsConcat(m: Machine, a: string, x: Machine, b: string, y: Machine, past: char)
    requires Gets(m, a, First(b, past), x) && Gets(x, b, past, y)
    ensures Gets(m, a + b, past, y)
  {
    hide Step, Running;
    FeedConcat(m, a, b, |b|, past);
  }

  lemma GetsOne(m: Machine, c: char, past: char, x: Machine)
    requires Step(m, c, past) == x && Running(x)
    ensures Gets(m, [c], past, x)
  {
    hide Step, Running;
    assert Feed(m, [c], 0, past) == m;
  }

  /** With the version read so far. */
  function WithMajor(i: Info, c: char): Info
    requires IsNum(c)
  {
    i.(httpMajor := Digit(c))
  }

  function WithMinor(i: Info, c: char): Info
    requires IsNum(c)
  {
    i.(httpMinor := Digit(c))
  }

  /** The digits of a version are read as the numbers they are. */
  lemma DigitGets(m: Machine, c: char, past: char)
    requires OnLine(m) && IsNum(c)
    ensures m.p.state == Version(ReqHttpMajor) ==> Gets(m, [c], past, Moved(m, WithMajor(m.p.info, c), Version(ReqHttpDot)))
    ensures m.p.state == Version(ReqHttpMinor) ==> Gets(m, [c], past, Moved(m, WithMinor(m.p.info, c), Version(ReqHttpEnd)))
    ensures m.p.state == Res(ResHttpMajor) ==> Gets(m, [c], past, Moved(m, WithMajor(m.p.info, c), Res(ResHttpDot)))
    ensures m.p.state == Res(ResHttpMinor) ==> Gets(m, [c], past, Moved(m, WithMinor(m.p.info, c), Res(ResHttpEnd)))
  {
    hide Step, Good, Gets, IsNum, Digit;
    var i := if m.p.state == Version(ReqHttpMajor) || m.p.state == Res(ResHttpMajor)
             then WithMajor(m.p.info, c) else WithMinor(m.p.info, c);
    var s := match m.p.state
      case Version(v) => Version(if v.ReqHttpMajor? then ReqHttpDot else ReqHttpEnd)
      case Res(r) => Res(if r.ResHttpMajor? then ResHttpDot else ResHttpEnd)
      case _ => m.p.state;
    if m.p.state == Version(ReqHttpMajor) || m.p.state == Res(ResHttpMajor) ||
       m.p.state == Version(ReqHttpMinor) || m.p.state == Res(ResHttpMinor) {
      DigitMoves(m.p.(nread := m.p.nread + 1), c, past);
      MovesTo(m, c, past, i, s);
      GetsOne(m, c, past, Moved(m, i, s));
    }
  }

  lemma DigitMoves(p: Parser, c: char, next: char)
    requires IsNum(c)
    ensures p.state == Version(ReqHttpMajor) ==>
            Transition(p, Outside, c, next) == Go(p.(info := WithMajor(p.info, c)), Version(ReqHttpDot))
    ensures p.state == Version(ReqHttpMinor) ==>
            Transition(p, Outside, c, next) == Go(p.(info := WithMinor(p.info, c)), Version(ReqHttpEnd))
    ensures p.state == Res(ResHttpMajor) ==>
            Transition(p, Outside, c, next) == Go(p.(info := WithMajor(p.info, c)), Res(ResHttpDot))
    ensures p.state == Res(ResHttpMinor) ==>
            Transition(p, Outside, c, next) == Go(p.(info := WithMinor(p.info, c)), Res(ResHttpEnd))
  {
    hide Inv, Fine, IsNum, Digit;
  }

  /** A machine n quiet bytes on, with i read. */
  function Later(m: Machine, i: Info, s: State, n: nat): Machine {
    m.(p := m.p.(info := i, state := s, nread := m.p.nread + n), consumed := m.consumed + n)
  }

  lemma LaterIs(m: Machine, i: Info, s: State, n: nat)
    ensures var x := Later(m, i, s, n);
      && x.p.nread == m.p.nread + n && x.d == m.d && x.loop == m.loop && x.p.state == s && x.p.info == i
      && (forall t, k: nat :: On(x, t, k) == Later(m, i, t, n + k))
      && (forall j, t :: Moved(x, j, t) == Later(m, j, t, n + 1))
    ensures (forall t, k: nat :: On(m, t, k) == Later(m, m.p.info, t, k))
  {
  }

  lemma OnGets(m: Machine, c: char, t: State, past: char)
    requires Leads(m.p.state, c, t) && OnLine(m)
    ensures Gets(m, [c], past, On(m, t, 1))
  {
    hide Step, Running, Leads;
    OneOn(m, c, t, past);
  }

  lemma ChainGets(m: Machine, w: string, ss: seq<State>, past: char)
    requires |ss| == |w| + 1 && m.p.state == ss[0] && (forall j :: 0 <= j < |w| ==> Leads(ss[j], w[j], ss[j + 1]))
    requires Running(m) && m.loop.Outside? && m.p.nread + |w| <= MAX_HEADER_SIZE && m.d.held == map[]
    ensures Gets(m, w, past, On(m, ss[|w|], |w|))
  {
    hide Step, Running, Leads;
    ChainFed(m, w, ss, |w|, past);
  }

  lemma GetsLine(m: Machine, s: string, past: char, x: Machine)
    requires Gets(m, s, past, x) && x.loop.Outside? && x.p.nread < MAX_HEADER_SIZE && x.d.held == map[]
    ensures OnLine(x)
  {
  }

  /** A digit, a dot and a digit, between states that belong to a request or to a response. */
  lemma DotGets(m: Machine, major: char, minor: char, req: bool, past: char)
    requires OnLine(m) && IsNum(major) && IsNum(minor) && m.p.nread + 3 <= MAX_HEADER_SIZE
    requires m.p.state == if req then Version(ReqHttpMajor) else Res(ResHttpMajor)
    ensures Gets(m, [major] + "." + [minor], past,
                 Later(m, WithMinor(WithMajor(m.p.info, major), minor),
                       if req then Version(ReqHttpEnd) else Res(ResHttpEnd), 3))
  {
    hide *;
    VersionLeads();
    StatusLeads();
    var i := WithMajor(m.p.info, major);
    var s1 := if req then Version(ReqHttpDot) else Res(ResHttpDot);
    var s2 := if req then Version(ReqHttpMinor) else Res(ResHttpMinor);
    var x, y := Later(m, i, s1, 1), Later(m, i, s2, 2);
    DigitGets(m, major, '.');
    LaterIs(m, m.p.info, m.p.state, 0);
    SameLater(m);
    LaterIs(m, i, s1, 1);
    LaterIs(m, i, s2, 2);
    OnLineIs(m);
    GetsLine(m, [major], '.', x);
    OnGets(x, '.', s2, minor);
    GetsLine(x, ".", minor, y);
    DigitGets(y, minor, past);
    FirstIs('.', minor);
    FirstIs(minor, past);
    GetsConcat(m, [major], x, ".", y, minor);
    var z := Later(m, WithMinor(i, minor), if req then Version(ReqHttpEnd) else Res(ResHttpEnd), 3);
    GetsConcat(m, [major] + ".", y, [minor], z, past);
  }

  lemma OnLineIs(m: Machine)
    requires OnLine(m)
    ensures m.loop.Outside? && m.p.nread < MAX_HEADER_SIZE && m.d.held == map[] && Running(m)
  {
  }

  lemma SameLater(m: Machine)
    ensures Later(m, m.p.info, m.p.state, 0) == m
  {
  }

  lemma FirstIs(c: char, past: char)
    ensures First([c], past) == c
  {
  }

  lemma ChainLeads(req: bool)
    ensures var w, ss := if req then "HTTP/" else "TTP/", if req then HTTP_STATES else TTP_STATES;
      |ss| == |w| + 1 && forall j :: 0 <= j < |w| ==> Leads(ss[j], w[j], ss[j + 1])
  {
    hide Leads;
    forall j | 0 <= j < 5 ensures Leads(HTTP_STATES[j], "HTTP/"[j], HTTP_STATES[j + 1]) { HttpLeads(j); }
    forall j | 0 <= j < 4 ensures Leads(TTP_STATES[j], "TTP/"[j], TTP_STATES[j + 1]) { TtpLeads(j); }
  }

  lemma HttpGets(m: Machine, past: char)
    requires Running(m) && m.loop.Outside? && m.p.nread + 5 <= MAX_HEADER_SIZE && m.d.held == map[]
    ensures m.p.state == Version(ReqHttpStart) ==> Gets(m, "HTTP/", past, On(m, Version(ReqHttpMajor), 5))
    ensures m.p.state == Res(ResH) ==> Gets(m, "TTP/", past, On(m, Res(ResHttpMajor), 4))
  {
    hide Leads, Running, Gets;
    ChainLeads(true);
    ChainLeads(false);
    if m.p.state == Version(ReqHttpStart) { ChainGets(m, "HTTP/", HTTP_STATES, past); }
    if m.p.state == Res(ResH) { ChainGets(m, "TTP/", TTP_STATES, past); }
  }

  /** The line end of a request line. */
  lemma EolGets(m: Machine, bare: bool, past: char)
    requires OnLine(m) && m.p.state == Version(ReqHttpEnd) && m.p.nread + |Eol(bare)| <= MAX_HEADER_SIZE
    ensures Gets(m, Eol(bare), past, On(m, Head(HeaderFieldStart), |Eol(bare)|))
  {
    hide Leads, Running, Gets;
    VersionLeads();
    if bare {
      OnGets(m, LF, Head(HeaderFieldStart), past);
    } else {
      var ss := [Version(ReqHttpEnd), Version(ReqLineAlmostDone), Head(HeaderFieldStart)];
      assert forall j :: 0 <= j < 2 ==> Leads(ss[j], CRLF[j], ss[j + 1]);
      ChainGets(m, CRLF, ss, past);
    }
  }

  /** The version of a request, and the end of the line. */
  lemma RequestVersion(m: Machine, major: char, minor: char, bare: bool, past: char)
    requires OnLine(m) && m.p.state == Version(ReqHttpStart) && IsNum(major) && IsNum(minor)
    requires m.p.nread + 8 + |Eol(bare)| <= MAX_HEADER_SIZE
    ensures Gets(m, VersionText(major, minor) + Eol(bare), past,
                 Later(m, WithMinor(WithMajor(m.p.info, major), minor), Head(HeaderFieldStart), 8 + |Eol(bare)|))
  {
    hide *;
    var i := WithMinor(WithMajor(m.p.info, major), minor);
    var x, y := Later(m, m.p.info, Version(ReqHttpMajor), 5), Later(m, i, Version(ReqHttpEnd), 8);
    var z := Later(m, i, Head(HeaderFieldStart), 8 + |Eol(bare)|);
    OnLineIs(m);
    EolSize(bare);
    LaterIs(m, m.p.info, Version(ReqHttpMajor), 5);
    LaterIs(m, i, Version(ReqHttpEnd), 8);
    HttpGets(m, major);
    GetsLine(m, "HTTP/", major, x);
    DotGets(x, major, minor, true, First(Eol(bare), past));
    LaterTwice(m, m.p.info, Version(ReqHttpMajor), 5, i, Version(ReqHttpEnd), 3);
    GetsLine(x, [major] + "." + [minor], First(Eol(bare), past), y);
    EolGets(y, bare, past);
    VersionFirst(major, minor, First(Eol(bare), past));
    GetsConcat(m, "HTTP/", x, [major] + "." + [minor], y, First(Eol(bare), past));
    GetsConcat(m, VersionText(major, minor), y, Eol(bare), z, past);
  }

  lemma EolSize(bare: bool)
    ensures 1 <= |Eol(bare)| <= 2
  {
  }

  lemma LaterTwice(m: Machine, i: Info, s: State, n: nat, j: Info, t: State, k: nat)
    ensures Later(Later(m, i, s, n), j, t, k) == Later(m, j, t, n + k)
  {
  }

  lemma VersionFirst(major: char, minor: char, past: char)
    ensures First([major] + "." + [minor], past) == major
    ensures VersionText(major, minor) == "HTTP/" + ([major] + "." + [minor])
  {
  }

  // ---- the status code ---------------------------------------------------------------------------------------

  predicate Digits(s: string) { s != "" && forall i :: 0 <= i < |s| ==> IsNum(s[i]) }

  lemma DigitsAre(s: string)
    requires Digits(s)
    ensures LengthText(s) && IsNum(s[0])
  {
  }

  function WithCode(i: Info, code: nat): Info { i.(statusCode := code) }

  lemma CodeMoves(p: Parser, c: char, next: char)
    requires IsNum(c)
    ensures p.state == Res(ResFirstStatusCode) ==>
            Transition(p, Outside, c, next) == Go(p.(info := WithCode(p.info, Digit(c))), Res(ResStatusCode))
    ensures p.state == Res(ResStatusCode) ==> var code := p.info.statusCode * 10 + Digit(c);
            Transition(p, Outside, c, next) ==
            if code <= 999 then Go(p.(info := WithCode(p.info, code)), Res(ResStatusCode))
            else Fail(p.(info := WithCode(p.info, code)), InvalidStatus)
  {
    hide Inv, Fine, IsNum, Digit, HeadByte, ChunkByte, VersionByte, AtUrl, AtReqMethod;
  }

  lemma CodeStep(m: Machine, c: char, next: char)
    requires OnLine(m) && IsNum(c) && (m.p.state == Res(ResFirstStatusCode) || m.p.state == Res(ResStatusCode))
    ensures var code := (if m.p.state == Res(ResStatusCode) then m.p.info.statusCode * 10 else 0) + Digit(c);
      if m.p.state == Res(ResFirstStatusCode) || code <= 999
      then Step(m, c, next) == Moved(m, WithCode(m.p.info, code), Res(ResStatusCode)) && Running(Step(m, c, next))
      else Step(m, c, next).p.errno == InvalidStatus
  {
    hide Step, Transition, Good, IsNum, Digit;
    var code := (if m.p.state == Res(ResStatusCode) then m.p.info.statusCode * 10 else 0) + Digit(c);
    var p := m.p.(nread := m.p.nread + 1);
    CodeMoves(p, c, next);
    if m.p.state == Res(ResFirstStatusCode) || code <= 999 {
      MovesTo(m, c, next, WithCode(m.p.info, code), Res(ResStatusCode));
    } else {
      CountStops(m, c, next);
      StepIsApply(m, c, next);
    }
  }

  /** A status code is read as its decimal value if that is at most 999, and refused otherwise. */
  lemma {:induction false} StatusIsExact(m: Machine, s: string, n: nat, past: char)
    requires OnLine(m) && m.p.state == Res(ResFirstStatusCode) && Digits(s) && 0 < n <= |s| &&
      m.p.nread + |s| <= MAX_HEADER_SIZE
    ensures LengthText(s[..n])
    ensures var x := Feed(m, s, n, past); var v := DecValue(s[..n]);
      if v <= 999 then x == Later(m, WithCode(m.p.info, v), Res(ResStatusCode), n) && Running(x)
      else x.p.errno == InvalidStatus
  {
    hide Step, Running, IsNum, Digit, DecValue;
    DigitsAre(s);
    DecStep(s, n);
    DigitAt(s, n - 1);
    OnLineIs(m);
    if n == 1 {
      assert Feed(m, s, 0, past) == m;
      CodeStep(m, s[0], After(s, 0, past));
    } else {
      StatusIsExact(m, s, n - 1, past);
      var x := Feed(m, s, n - 1, past);
      if DecValue(s[..n - 1]) <= 999 {
        CodeStep(x, s[n - 1], After(s, n - 1, past));
      } else {
        StoppedStays(m, s, n - 1, n, past);
      }
    }
  }

  lemma DigitAt(s: string, i: nat)
    requires Digits(s) && i < |s|
    ensures IsNum(s[i]) && s[i] != ' '
  {
  }

  // ---- the reason ------------------------------------------------------------------------------------------------

  predicate NoBreak(s: string) { forall i :: 0 <= i < |s| ==> !IsBreak(s[i]) }

  /** The machine inside a reason, s read. */
  function InReason(m: Machine, s: string): Machine {
    Machine(m.p.(state := Res(ResStatus), index := 0, nread := m.p.nread + |s|), Outside,
            Delivery(m.d.log, map[StatusData := s]), m.consumed + |s|, false)
  }

  lemma ReasonMoves(p: Parser, c: char, next: char)
    ensures p.state == Res(ResStatusStart) && !IsBreak(c) ==>
            Transition(p, Outside, c, next) == GoMark(p.(index := 0), Res(ResStatus), StatusData)
    ensures p.state == Res(ResStatus) && !IsBreak(c) ==> Transition(p, Outside, c, next) == Stay(p)
    ensures p.state == Res(ResStatus) && IsBreak(c) ==>
            Transition(p, Outside, c, next) ==
            GoClose(p, if c == CR then Res(ResLineAlmostDone) else Head(HeaderFieldStart), Flush(StatusData))
    ensures (p.state == Res(ResStatusStart) || p.state == Res(ResStatusCode)) && IsBreak(c) ==>
            Transition(p, Outside, c, next) ==
            GoClose(p.(index := 0), if c == CR then Res(ResLineAlmostDone) else Head(HeaderFieldStart),
                    FlushEmpty(StatusData))
  {
    hide Inv, Fine, Digit, HeadByte, ChunkByte, VersionByte, AtUrl, AtReqMethod;
  }

  lemma ReasonStep(m: Machine, s: string, c: char, next: char)
    requires Running(InReason(m, s)) && m.p.nread + |s| < MAX_HEADER_SIZE && !IsBreak(c)
    ensures Step(InReason(m, s), c, next) == InReason(m, s + [c]) && Running(InReason(m, s + [c]))
  {
    hide Step, Transition, Inv, HeldFits, Extend, IsBreak;
    var x := InReason(m, s);
    CountStops(x, c, next);
    StepIsApply(x, c, next);
    StepKeepsGood(x, c, next);
    ReasonMoves(x.p.(nread := x.p.nread + 1), c, next);
    NoNotes(m.d.log);
    ExtendOne(m.d.log, StatusData, s, c);
  }

  lemma ReasonStarts(m: Machine, c: char, next: char)
    requires OnLine(m) && m.p.state == Res(ResStatusStart) && !IsBreak(c)
    ensures Step(m, c, next) == InReason(m, [c]) && Running(InReason(m, [c]))
  {
    hide Step, Transition, Inv, HeldFits, Deliver, Extend, Apply, IsBreak;
    CountStops(m, c, next);
    StepIsApply(m, c, next);
    StepKeepsGood(m, c, next);
    ReasonMoves(m.p.(nread := m.p.nread + 1), c, next);
    FirstApplied(m, GoMark(m.p.(nread := m.p.nread + 1, index := 0), Res(ResStatus), StatusData), StatusData, c);
  }

  lemma {:induction false} ReasonFed(m: Machine, s: string, n: nat, past: char)
    requires OnLine(m) && m.p.state == Res(ResStatusStart) && NoBreak(s) && 0 < n <= |s| && m.p.nread + |s| <= MAX_HEADER_SIZE
    ensures Feed(m, s, n, past) == InReason(m, s[..n]) && Running(InReason(m, s[..n]))
  {
    hide Step, Running, IsBreak, InReason;
    if n == 1 {
      assert Feed(m, s, 0, past) == m && s[..1] == [s[0]];
      ReasonStarts(m, s[0], After(s, 0, past));
    } else {
      ReasonFed(m, s, n - 1, past);
      ReasonStep(m, s[..n - 1], s[n - 1], After(s, n - 1, past));
      assert s[..n] == s[..n - 1] + [s[n - 1]];
    }
  }

  /** A machine that has reported the reason s. */
  function Reported(m: Machine, s: string, t: State, n: nat): Machine {
    Machine(m.p.(state := t, index := 0, nread := m.p.nread + n), Outside,
            Delivery(Emit(m.d.log, Data(StatusData, s)), map[]), m.consumed + n, false)
  }

  function AfterBreak(c: char): State { if c == CR then Res(ResLineAlmostDone) else Head(HeaderFieldStart) }

  lemma ReasonEnds(m: Machine, s: string, c: char, next: char)
    requires Running(InReason(m, s)) && m.p.nread + |s| < MAX_HEADER_SIZE && IsBreak(c)
    ensures Step(InReason(m, s), c, next) == Reported(m, s, AfterBreak(c), |s| + 1)
    ensures Running(Reported(m, s, AfterBreak(c), |s| + 1))
  {
    hide Step, Transition, Inv, HeldFits, Extend, IsBreak, Emit;
    var x := InReason(m, s);
    CountStops(x, c, next);
    StepIsApply(x, c, next);
    StepKeepsGood(x, c, next);
    ReasonMoves(x.p.(nread := x.p.nread + 1), c, next);
    var log := Emit(m.d.log, Data(StatusData, s));
    NoNotes(log);
    assert x.d.held - {StatusData} == map[];
    ExtendNothing(Delivery(log, map[]), c);
  }

  lemma NoReason(m: Machine, c: char, next: char)
    requires OnLine(m) && (m.p.state == Res(ResStatusStart) || m.p.state == Res(ResStatusCode)) && IsBreak(c)
    ensures Step(m, c, next) == Reported(m, "", AfterBreak(c), 1) && Running(Reported(m, "", AfterBreak(c), 1))
  {
    hide Step, Transition, Inv, HeldFits, Extend, IsBreak, Emit;
    CountStops(m, c, next);
    StepIsApply(m, c, next);
    StepKeepsGood(m, c, next);
    ReasonMoves(m.p.(nread := m.p.nread + 1), c, next);
    var log := Emit(m.d.log, Data(StatusData, ""));
    NoNotes(log);
    assert m.d.held - {StatusData} == map[];
    ExtendNothing(Delivery(log, map[]), c);
  }

  /** A reason may be empty, or missing with its space. */
  function ReasonText(r: Option<string>): string { if r.None? then "" else " " + r.value }

  function ReasonOf(r: Option<string>): string { if r.None? then "" else r.value }

  /** The first byte of the line end and, behind a CR, the LF. */
  lemma EolAfter(x: Machine, y: Machine, z: Machine, bare: bool, past: char)
    requires bare ==> Step(x, LF, past) == z && Running(z)
    requires !bare ==> Step(x, CR, LF) == y && OnLine(y) && y.p.state == Res(ResLineAlmostDone)
    requires !bare ==> z == On(y, Head(HeaderFieldStart), 1)
    ensures Gets(x, Eol(bare), past, z)
  {
    hide Step, Running, Gets, Leads;
    StatusLeads();
    if bare {
      GetsOne(x, LF, past, z);
    } else {
      OnLineIs(y);
      GetsOne(x, CR, LF, y);
      OnGets(y, LF, Head(HeaderFieldStart), past);
      GetsConcat(x, [CR], y, [LF], z, past);
      assert [CR] + [LF] == CRLF;
    }
  }

  lemma ReportedOn(m: Machine, s: string, n: nat)
    ensures var y := Reported(m, s, Res(ResLineAlmostDone), n);
      On(y, Head(HeaderFieldStart), 1) == Reported(m, s, Head(HeaderFieldStart), n + 1) && y.p.nread == m.p.nread + n
    ensures Running(Reported(m, s, Res(ResLineAlmostDone), n)) && m.p.nread + n < MAX_HEADER_SIZE ==>
            OnLine(Reported(m, s, Res(ResLineAlmostDone), n))
    ensures Reported(m, s, Res(ResLineAlmostDone), n).p.state == Res(ResLineAlmostDone)
    ensures AfterBreak(CR) == Res(ResLineAlmostDone) && AfterBreak(LF) == Head(HeaderFieldStart) && IsBreak(CR) && IsBreak(LF)
  {
    hide Emit, Good;
  }

  lemma EmptyReason(m: Machine, bare: bool, past: char)
    requires OnLine(m) && (m.p.state == Res(ResStatusStart) || m.p.state == Res(ResStatusCode))
    requires m.p.nread + |Eol(bare)| <= MAX_HEADER_SIZE
    ensures Gets(m, Eol(bare), past, Reported(m, "", Head(HeaderFieldStart), |Eol(bare)|))
  {
    EolSizes();
    hide *;
    ReportedOn(m, "", 1);
    if bare {
      NoReason(m, LF, past);
    } else {
      NoReason(m, CR, LF);
    }
    EolAfter(m, Reported(m, "", Res(ResLineAlmostDone), 1), Reported(m, "", Head(HeaderFieldStart), |Eol(bare)|), bare, past);
  }

  lemma EolSizes()
    ensures |Eol(true)| == 1 && |Eol(false)| == 2
  {
  }

  lemma TextReason(m: Machine, s: string, bare: bool, past: char)
    requires OnLine(m) && m.p.state == Res(ResStatusStart) && NoBreak(s) && s != ""
    requires m.p.nread + |s| + |Eol(bare)| <= MAX_HEADER_SIZE
    ensures Gets(m, s + Eol(bare), past, Reported(m, s, Head(HeaderFieldStart), |s| + |Eol(bare)|))
  {
    EolSizes();
    hide *;
    var x, c := InReason(m, s), First(Eol(bare), past);
    ReasonFed(m, s, |s|, c);
    assert s[..|s|] == s;
    GetsIs(m, s, c, x);
    ReportedOn(m, s, |s| + 1);
    if bare {
      ReasonEnds(m, s, LF, past);
    } else {
      ReasonEnds(m, s, CR, LF);
    }
    var z := Reported(m, s, Head(HeaderFieldStart), |s| + |Eol(bare)|);
    EolAfter(x, Reported(m, s, Res(ResLineAlmostDone), |s| + 1), z, bare, past);
    GetsConcat(m, s, x, Eol(bare), z, past);
  }

  lemma GetsIs(m: Machine, s: string, past: char, x: Machine)
    requires Feed(m, s, |s|, past) == x && Running(x)
    ensures Gets(m, s, past, x)
  {
  }

  predicate GoodReason(r: Option<string>) { NoBreak(ReasonOf(r)) }

  lemma SpaceBeforeReason(m: Machine, past: char)
    requires OnLine(m) && m.p.state == Res(ResStatusCode)
    ensures Gets(m, " ", past, On(m, Res(ResStatusStart), 1))
  {
    hide Gets, Running;
    SpaceLeads();
    OnGets(m, ' ', Res(ResStatusStart), past);
  }

  lemma SpaceLeads()
    ensures Leads(Res(ResStatusCode), ' ', Res(ResStatusStart))
  {
    hide Inv, Fine, AtReqMethod, AtStartReq, AtUrl, HeadByte, ChunkByte, AtResStatus, AtResStatusStart, VersionByte;
  }

  lemma ReportedLater(m: Machine, s: string, n: nat)
    ensures Reported(On(m, Res(ResStatusStart), 1), s, Head(HeaderFieldStart), n) ==
      Reported(m, s, Head(HeaderFieldStart), n + 1)
    ensures var x := On(m, Res(ResStatusStart), 1);
      x.p.nread == m.p.nread + 1 && x.d == m.d && x.loop == m.loop && x.p.state == Res(ResStatusStart)
  {
    hide Emit;
  }

  /** The reason and the end of a status line. */
  lemma ReasonGets(m: Machine, r: Option<string>, bare: bool, past: char)
    requires OnLine(m) && m.p.state == Res(ResStatusCode) && GoodReason(r)
    requires m.p.nread + |ReasonText(r)| + |Eol(bare)| <= MAX_HEADER_SIZE
    ensures Gets(m, ReasonText(r) + Eol(bare), past,
                 Reported(m, ReasonOf(r), Head(HeaderFieldStart), |ReasonText(r)| + |Eol(bare)|))
  {
    hide *;
    OnLineIs(m);
    EolSize(bare);
    ReasonParts(r, bare);
    if r.None? {
      EmptyReason(m, bare, past);
    } else {
      var s, e := r.value, Eol(bare);
      var x := On(m, Res(ResStatusStart), 1);
      SpaceBeforeReason(m, First(s + e, past));
      ReportedLater(m, s, |s + e|);
      GetsLine(m, " ", First(s + e, past), x);
      ReasonIs(r);
      if s == "" {
        assert s + e == e;
        EmptyReason(x, bare, past);
      } else {
        TextReason(x, s, bare, past);
      }
      GetsConcat(m, " ", x, s + e, Reported(m, s, Head(HeaderFieldStart), |s + e| + 1), past);
    }
  }

  lemma ReasonParts(r: Option<string>, bare: bool)
    ensures var t, e := ReasonText(r), Eol(bare);
      if r.None? then t + e == e && |t| == 0 && ReasonOf(r) == ""
      else t + e == " " + (r.value + e) && |t| == 1 + |r.value| && ReasonOf(r) == r.value
  {
    hide Eol;
  }

  lemma ReasonIs(r: Option<string>)
    requires GoodReason(r) && r.Some?
    ensures NoBreak(r.value)
  {
  }

  // ---- a status line ---------------------------------------------------------------------------------------------

  /** A version, a status code and a reason. */
  datatype Status = Status(major: char, minor: char, code: string, reason: Option<string>, bare: bool)

  function PrintStatus(s: Status): string {
    VersionText(s.major, s.minor) + " " + s.code + (ReasonText(s.reason) + Eol(s.bare))
  }

  predicate GoodStatus(s: Status) {
    IsNum(s.major) && IsNum(s.minor) && Digits(s.code) && CodeOf(s) <= 999 && GoodReason(s.reason)
  }

  function CodeOf(s: Status): nat { if LengthText(s.code) then DecValue(s.code) else 0 }

  /** The fields at the start of a message. */
  function Blanked(p: Parser): Parser { p.(flags := NO_FLAGS, contentLength := ULLONG_MAX) }

  const BEGIN := Notify(MessageBegin)

  lemma StepRuns(m: Machine, c: char, next: char)
    requires OnLine(m) && ParsingHeader(m.p.state)
    ensures Step(m, c, next) == Apply(m, Transition(m.p.(nread := m.p.nread + 1), Outside, c, next), c)
  {
    hide Transition, Apply;
    CountStops(m, c, next);
    StepIsApply(m, c, next);
  }

  function Begun(m: Machine): Machine {
    Machine(Blanked(m.p).(state := Res(ResH), nread := m.p.nread + 1), Outside,
            Delivery(m.d.log + [BEGIN], map[]), m.consumed + 1, false)
  }

  lemma ResponseStarts(m: Machine, past: char)
    requires OnLine(m) && m.p.state == StartRes
    ensures Gets(m, "H", past, Begun(m))
  {
    hide ResByte, VersionByte, HeadByte, ChunkByte, AtUrl, AtReqMethod, AtStartReq, Extend, HeldFits, Inv, Step;
    StepRuns(m, 'H', past);
    StepKeepsGood(m, 'H', past);
    assert Notes([MessageBegin]) == [BEGIN];
    ExtendNothing(Delivery(m.d.log + [BEGIN], map[]), 'H');
    GetsOne(m, 'H', past, Step(m, 'H', past));
  }

  function StatusInfo(i: Info, s: Status): Info
    requires IsNum(s.major) && IsNum(s.minor)
  {
    i.(httpMajor := Digit(s.major), httpMinor := Digit(s.minor), statusCode := CodeOf(s))
  }

  /** The machine behind a status line. */
  function StatusDone(m: Machine, s: Status): Machine
    requires IsNum(s.major) && IsNum(s.minor)
  {
    Machine(Blanked(m.p).(info := StatusInfo(m.p.info, s), state := Head(HeaderFieldStart), index := 0,
                          nread := m.p.nread + |PrintStatus(s)|),
            Outside, Delivery(m.d.log + [BEGIN, Data(StatusData, ReasonOf(s.reason))], map[]),
            m.consumed + |PrintStatus(s)|, false)
  }

  lemma CodeGets(m: Machine, s: Status, past: char)
    requires OnLine(m) && m.p.state == Res(ResFirstStatusCode) && GoodStatus(s) && m.p.nread + |s.code| <= MAX_HEADER_SIZE
    ensures Gets(m, s.code, past, Later(m, WithCode(m.p.info, CodeOf(s)), Res(ResStatusCode), |s.code|))
  {
    hide Step, Running, DecValue;
    DigitsAre(s.code);
    StatusIsExact(m, s.code, |s.code|, past);
    assert s.code[..|s.code|] == s.code;
  }

  lemma StatusVersion(m: Machine, major: char, minor: char, past: char)
    requires OnLine(m) && m.p.state == Res(ResH) && IsNum(major) && IsNum(minor) && m.p.nread + 8 <= MAX_HEADER_SIZE
    ensures Gets(m, "TTP/" + ([major] + "." + [minor]) + " ", past,
                 Later(m, WithMinor(WithMajor(m.p.info, major), minor), Res(ResFirstStatusCode), 8))
  {
    hide *;
    StatusLeads();
    var i, d := WithMinor(WithMajor(m.p.info, major), minor), [major] + "." + [minor];
    var x, y := Later(m, m.p.info, Res(ResHttpMajor), 4), Later(m, i, Res(ResHttpEnd), 7);
    OnLineIs(m);
    LaterIs(m, m.p.info, Res(ResHttpMajor), 4);
    LaterIs(m, i, Res(ResHttpEnd), 7);
    HttpGets(m, major);
    GetsLine(m, "TTP/", major, x);
    DotGets(x, major, minor, false, ' ');
    LaterTwice(m, m.p.info, Res(ResHttpMajor), 4, i, Res(ResHttpEnd), 3);
    GetsLine(x, d, ' ', y);
    OnGets(y, ' ', Res(ResFirstStatusCode), past);
    VersionFirst(major, minor, ' ');
    FirstIs(' ', past);
    GetsConcat(m, "TTP/", x, d, y, ' ');
    GetsConcat(m, "TTP/" + d, y, " ", Later(m, i, Res(ResFirstStatusCode), 8), past);
  }

  lemma StatusParts(s: Status)
    ensures PrintStatus(s) ==
            "H" + (("TTP/" + ([s.major] + "." + [s.minor]) + " ") + (s.code + (ReasonText(s.reason) + Eol(s.bare))))
    ensures |PrintStatus(s)| == 9 + |s.code| + |ReasonText(s.reason)| + |Eol(s.bare)|
  {
    assert "HTTP/" == "H" + "TTP/";
  }

  lemma StatusEnds(m: Machine, s: Status)
    requires GoodStatus(s)
    ensures var y := Later(Begun(m), WithCode(WithMinor(WithMajor(m.p.info, s.major), s.minor), CodeOf(s)),
                           Res(ResStatusCode), 8 + |s.code|);
      Reported(y, ReasonOf(s.reason), Head(HeaderFieldStart), |ReasonText(s.reason)| + |Eol(s.bare)|) == StatusDone(m, s)
  {
    hide PrintStatus, Digit, IsNum, CodeOf, ReasonText, Eol;
    StatusParts(s);
    assert m.d.log + [BEGIN] + [Data(StatusData, ReasonOf(s.reason))] ==
           m.d.log + [BEGIN, Data(StatusData, ReasonOf(s.reason))];
  }

  lemma GoodStatusIs(s: Status)
    requires GoodStatus(s)
    ensures IsNum(s.major) && IsNum(s.minor) && GoodReason(s.reason) && s.code != ""
  {
  }

  lemma BegunIs(m: Machine, past: char)
    requires OnLine(m) && m.p.nread + 1 < MAX_HEADER_SIZE && Gets(m, "H", past, Begun(m))
    ensures var x := Begun(m); OnLine(x) && x.p.state == Res(ResH) && x.p.nread == m.p.nread + 1 && x.p.info == m.p.info
  {
    hide Step, Good;
  }

  /** A status line is read as its version, its code and its reason. */
  lemma StatusIsRead(m: Machine, s: Status, past: char)
    requires OnLine(m) && m.p.state == StartRes && GoodStatus(s) && m.p.nread + |PrintStatus(s)| <= MAX_HEADER_SIZE
    ensures Gets(m, PrintStatus(s), past, StatusDone(m, s))
  {
    hide *;
    GoodStatusIs(s);
    StatusParts(s);
    EolSize(s.bare);
    var i := WithMinor(WithMajor(m.p.info, s.major), s.minor);
    var v, r := "TTP/" + ([s.major] + "." + [s.minor]) + " ", ReasonText(s.reason) + Eol(s.bare);
    var x, y := Begun(m), Later(Begun(m), i, Res(ResFirstStatusCode), 8);
    var z := Later(x, WithCode(i, CodeOf(s)), Res(ResStatusCode), 8 + |s.code|);
    var c := First(s.code + r, past);
    ResponseStarts(m, First(v + (s.code + r), past));
    BegunIs(m, First(v + (s.code + r), past));
    StatusVersion(x, s.major, s.minor, c);
    LaterIs(x, i, Res(ResFirstStatusCode), 8);
    OnLineIs(x);
    GetsLine(x, v, c, y);
    CodeGets(y, s, First(r, past));
    LaterTwice(x, i, Res(ResFirstStatusCode), 8, WithCode(i, CodeOf(s)), Res(ResStatusCode), |s.code|);
    LaterIs(x, WithCode(i, CodeOf(s)), Res(ResStatusCode), 8 + |s.code|);
    GetsLine(y, s.code, First(r, past), z);
    ReasonGets(z, s.reason, s.bare, past);
    StatusEnds(m, s);
    GetsConcat(y, s.code, z, r, StatusDone(m, s), past);
    GetsConcat(x, v, y, s.code + r, StatusDone(m, s), past);
    GetsConcat(m, "H", x, v + (s.code + r), StatusDone(m, s), past);
  }
}
