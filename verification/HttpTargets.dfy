/** A request line: the method, the target, which is a text that URL parts print, and the version, or
    none for HTTP/0.9. */
module HttpTargets {
  import opened Basics
  import opened HttpBase
  import opened HttpMachine
  import opened HttpRun
  import opened HttpSteps
  import opened HttpNumbers
  import opened HttpMethods
  import opened HttpChunked
  import opened HttpLines
  import opened HttpStartLines
  import U = UrlSplit

  // ---- the method -----------------------------------------------------------------------------------------

  /** The machine k bytes into a method. */
  function Spelling(m: Machine, g: Method, s: State, i: nat, k: nat): Machine {
    Machine(Blanked(m.p).(state := s, index := i, nread := m.p.nread + k, info := m.p.info.(meth := g)), Outside,
            Delivery(m.d.log + [BEGIN], map[]), m.consumed + k, false)
  }

  lemma MethodStarts(m: Machine, c: char, next: char)
    requires OnLine(m) && m.p.state == StartReq && !IsBreak(c) && FirstGuess(c, next).Some? && IsAlpha(c)
    ensures Step(m, c, next) == Spelling(m, FirstGuess(c, next).value, ReqMethod, 1, 1) && Running(Step(m, c, next))
  {
    hide ResByte, VersionByte, HeadByte, ChunkByte, AtUrl, AtReqMethod, Extend, HeldFits, Inv, Step, FirstGuess, IsAlpha;
    StepRuns(m, c, next);
    StepKeepsGood(m, c, next);
    assert Notes([MessageBegin]) == [BEGIN];
    ExtendNothing(Delivery(m.d.log + [BEGIN], map[]), c);
  }

  lemma MethodGoesOn(m: Machine, g: Method, i: nat, k: nat, c: char, next: char)
    requires OnLine(Spelling(m, g, ReqMethod, i, k)) && i < 127
    requires Step(Spelling(m, g, ReqMethod, i, k), c, next).p.errno == OK
    ensures var y := Step(Spelling(m, g, ReqMethod, i, k), c, next);
      && y == Spelling(m, y.p.info.meth, y.p.state, i + 1, k + 1) && Running(y)
      && (y.p.state == ReqMethod || y.p.state == ReqSpacesBeforeUrl)
  {
    hide ResByte, VersionByte, HeadByte, ChunkByte, AtUrl, AtStartReq, Extend, HeldFits, Inv, Step, MethodName, NextGuess;
    var x := Spelling(m, g, ReqMethod, i, k);
    StepRuns(x, c, next);
    StepKeepsGood(x, c, next);
    NoNotes(x.d.log);
    ExtendNothing(x.d, c);
  }

  predicate MethodText(w: string) { w != "" && |w| <= 11 && IsAlpha(w[0]) && !IsBreak(w[0]) && ' ' !in w }

  lemma {:induction false} MethodFed(m: Machine, w: string, n: nat, past: char)
    requires OnLine(m) && m.p.state == StartReq && m.p.nread + |w| < MAX_HEADER_SIZE && MethodText(w)
    requires 1 <= n <= |w| && GuessAfter(w, n).Some?
    ensures var x := Feed(m, w + " ", n, past);
      x == Spelling(m, GuessAfter(w, n).value, ReqMethod, n, n) && Running(x)
  {
    hide Step, Running, FirstGuess, NextOf, MethodName, IsAlpha, IsBreak, Spelling;
    OnLineIs(m);
    MethodFeed(m, w, n, past);
    var text := w + " ";
    assert forall i :: 0 <= i < |w| ==> text[i] == w[i];
    SpellingIs(m, GuessAfter(w, n).value, ReqMethod, n, n);
    if n == 1 {
      assert Feed(m, text, 0, past) == m;
      MethodStarts(m, w[0], After(text, 0, past));
    } else {
      MethodFed(m, w, n - 1, past);
      SpellingIs(m, GuessAfter(w, n - 1).value, ReqMethod, n - 1, n - 1);
      var x := Feed(m, text, n, past);
      assert x == Step(Feed(m, text, n - 1, past), w[n - 1], After(text, n - 1, past));
      RunsOn(x);
      MethodGoesOn(m, GuessAfter(w, n - 1).value, n - 1, n - 1, w[n - 1], After(text, n - 1, past));
    }
  }

  lemma SpellingIs(m: Machine, g: Method, s: State, i: nat, k: nat)
    ensures var x := Spelling(m, g, s, i, k);
      && x.p.nread == m.p.nread + k && x.d.held == map[] && x.loop.Outside? && x.p.state == s && x.p.info.meth == g
      && x.p.index == i
    ensures Running(Spelling(m, g, s, i, k)) && m.p.nread + k < MAX_HEADER_SIZE ==> OnLine(Spelling(m, g, s, i, k))
  {
    hide Good;
  }

  lemma NameIsMethodText(g: Method)
    ensures MethodText(MethodName(g)) && GuessAfter(MethodName(g), |MethodName(g)|) == Some(g)
  {
    NameFits(g);
    NameIsText(g);
    NameIsGuessed(g);
    hide MethodName, IsAlpha, GuessAfter, FirstGuess;
    GuessedFirst(MethodName(g), |MethodName(g)|);
    assert forall c: char :: c > ' ' ==> !IsBreak(c);
  }

  lemma GuessedFirst(w: string, n: nat)
    requires 1 <= n <= |w| && GuessAfter(w, n).Some?
    ensures IsAlpha(w[0])
  {
    hide FirstGuess, IsAlpha, NextOf;
    if n == 1 { FirstFits(w[0], if |w| > 1 then w[1] else ' '); } else { GuessedFirst(w, n - 1); }
  }

  /** A method and the space behind it. */
  lemma MethodIsRead(m: Machine, g: Method, past: char)
    requires OnLine(m) && m.p.state == StartReq && m.p.nread + |MethodName(g)| < MAX_HEADER_SIZE
    ensures var n := |MethodName(g)| + 1;
      Gets(m, MethodName(g) + " ", past, Spelling(m, g, ReqSpacesBeforeUrl, n, n))
  {
    var w := MethodName(g);
    NameIsMethodText(g);
    hide Step, Running, MethodName, IsAlpha, GuessAfter, Spelling, FirstGuess;
    var n := |w|;
    OnLineIs(m);
    MethodFed(m, w, n, past);
    MethodExactly(m, w, past);
    SpellingIs(m, g, ReqMethod, n, n);
    var x := Spelling(m, g, ReqMethod, n, n);
    assert (w + " ")[n] == ' ';
    assert Feed(m, w + " ", n + 1, past) == Step(x, ' ', past);
    MethodGoesOn(m, g, n, n, ' ', past);
    GetsIs(m, w + " ", past, Step(x, ' ', past));
  }

  // ---- the target -----------------------------------------------------------------------------------------

  /** The machine inside the target, s read. */
  function InTarget(m: Machine, t: State, s: string): Machine {
    Machine(m.p.(state := t, nread := m.p.nread + |s|), Outside, Delivery(m.d.log, map[UrlData := s]),
            m.consumed + |s|, false)
  }

  lemma TargetMoves(p: Parser, c: char, next: char)
    ensures p.state == ReqSpacesBeforeUrl && c != ' ' ==>
      var t := UrlChar(U.Begin(p.info.meth.CONNECT?), c);
      Transition(p, Outside, c, next) == if t == Dead then Fail(p, InvalidUrl) else GoMark(p, t, UrlData)
    ensures p.state.Url? && c != ' ' && !IsBreak(c) ==>
      var t := UrlChar(p.state, c);
      Transition(p, Outside, c, next) == if t == Dead then Fail(p, InvalidUrl) else Go(p, t)
  {
    hide Inv, Fine, UrlChar;
  }

  lemma TargetStarts(m: Machine, c: char, next: char)
    requires OnLine(m) && m.p.state == ReqSpacesBeforeUrl && c != ' '
    ensures var t := UrlChar(U.Begin(m.p.info.meth.CONNECT?), c); var x := Step(m, c, next);
      if t == Dead then x.p.errno == InvalidUrl else x == InTarget(m, t, [c]) && Running(x)
  {
    hide Transition, Inv, HeldFits, Deliver, Extend, Apply, Step, UrlChar;
    StepRuns(m, c, next);
    StepKeepsGood(m, c, next);
    var p := m.p.(nread := m.p.nread + 1);
    TargetMoves(p, c, next);
    var t := UrlChar(U.Begin(m.p.info.meth.CONNECT?), c);
    if t == Dead {
      FailedApply(m, Fail(p, InvalidUrl), c);
    } else {
      FirstApplied(m, GoMark(p, t, UrlData), UrlData, c);
    }
  }

  lemma FailedApply(m: Machine, o: Out, c: char)
    requires o.p.errno != OK
    ensures Apply(m, o, c).p == o.p
  {
    hide Deliver;
  }

  lemma TargetGoesOn(m: Machine, u: State, s: string, c: char, next: char)
    requires Running(InTarget(m, u, s)) && m.p.nread + |s| < MAX_HEADER_SIZE && u.Url? && c != ' ' && !IsBreak(c)
    ensures var t := UrlChar(u, c); var x := Step(InTarget(m, u, s), c, next);
      if t == Dead then x.p.errno == InvalidUrl else x == InTarget(m, t, s + [c]) && Running(x)
  {
    hide Transition, Inv, HeldFits, Extend, Step, UrlChar, IsBreak;
    var x := InTarget(m, u, s);
    CountStops(x, c, next);
    StepIsApply(x, c, next);
    StepKeepsGood(x, c, next);
    TargetMoves(x.p.(nread := x.p.nread + 1), c, next);
    NoNotes(m.d.log);
    ExtendOne(m.d.log, UrlData, s, c);
  }

  predicate NoSpace(s: string) { forall i :: 0 <= i < |s| ==> s[i] != ' ' && !IsBreak(s[i]) }

  lemma NoSpaceAt(s: string, i: nat)
    requires NoSpace(s) && i < |s|
    ensures s[i] != ' ' && !IsBreak(s[i])
  {
  }

  lemma WalkByte(u: string, connect: bool, n: nat)
    requires 0 < n <= |u|
    ensures U.Walk(u, connect, n).s == UrlChar(U.Walk(u, connect, n - 1).s, u[n - 1])
    ensures n == 1 ==> U.Walk(u, connect, 0).s == U.Begin(connect)
    ensures U.Walk(u, connect, n).s == Dead || U.Walk(u, connect, n).s.Url?
  {
    hide UrlChar, U.FieldOf, U.Put, U.Get, U.Grown;
  }

  lemma DeadStays(u: string, connect: bool, n: nat)
    requires 0 < n <= |u| && U.Walk(u, connect, n - 1).s == Dead
    ensures U.Walk(u, connect, n).s == Dead
  {
    hide U.FieldOf, U.Put, U.Get, U.Grown, UrlNext;
  }

  /** The bytes of a target are walked over like the bytes of a URL. */
  lemma {:induction false} TargetFed(m: Machine, u: string, n: nat, past: char)
    requires OnLine(m) && m.p.state == ReqSpacesBeforeUrl && NoSpace(u) && 0 < n <= |u| && m.p.nread + |u| <= MAX_HEADER_SIZE
    ensures var t := U.Walk(u, m.p.info.meth.CONNECT?, n).s; var x := Feed(m, u, n, past);
      if t == Dead then x.p.errno == InvalidUrl else x == InTarget(m, t, u[..n]) && Running(x) && t.Url?
  {
    hide Step, Running, UrlChar, U.Walk, InTarget, IsBreak, NoSpace;
    var connect := m.p.info.meth.CONNECT?;
    WalkByte(u, connect, n);
    NoSpaceAt(u, n - 1);
    OnLineIs(m);
    if n == 1 {
      assert Feed(m, u, 0, past) == m && u[..1] == [u[0]];
      TargetStarts(m, u[0], After(u, 0, past));
    } else {
      TargetFed(m, u, n - 1, past);
      var t := U.Walk(u, connect, n - 1).s;
      if t == Dead {
        DeadStays(u, connect, n);
        StoppedStays(m, u, n - 1, n, past);
      } else {
        TargetGoesOn(m, t, u[..n - 1], u[n - 1], After(u, n - 1, past));
        assert u[..n] == u[..n - 1] + [u[n - 1]];
      }
    }
  }

  // ---- what a target may be -------------------------------------------------------------------------------

  /** Where a target may end: not inside a scheme or the slashes behind it. */
  predicate MayEnd(s: State) {
    s.Url? && s != Url(ReqSchema) && s != Url(ReqSchemaSlash) && s != Url(ReqSchemaSlashSlash) && s != Url(ReqServerStart)
  }

  /** The text is the print of well-shaped URL parts, complete up to where they may end. */
  ghost predicate IsTarget(u: string, connect: bool) {
    exists r: U.Raw, s: State :: MayEnd(s) && U.Shape(r, s, connect) && U.Printed(r, s) == u
  }

  /** The walk over a text ends where a target may end exactly if the text is a target. */
  lemma TargetWalk(u: string, connect: bool)
    requires u != ""
    ensures MayEnd(U.Walk(u, connect, |u|).s) <==> IsTarget(u, connect)
  {
    hide U.Walk, U.Shape, U.Printed;
    assert u[..|u|] == u;
    var x := U.Walk(u, connect, |u|);
    if MayEnd(x.s) {
      U.WalkReads(u, connect, |u|);
    }
    if IsTarget(u, connect) {
      var r, s :| MayEnd(s) && U.Shape(r, s, connect) && U.Printed(r, s) == u;
      U.WalkFinds(u, connect, |u|, r, s);
    }
  }

  /** The machine behind a target and the byte that ends it. */
  function TargetDone(m: Machine, u: string, i: Info, t: State): Machine {
    Machine(m.p.(info := i, state := t, nread := m.p.nread + |u| + 1), Outside,
            Delivery(Emit(m.d.log, Data(UrlData, u)), map[]), m.consumed + |u| + 1, false)
  }

  lemma EndMoves(p: Parser, c: char, next: char)
    requires p.state.Url? && (c == ' ' || IsBreak(c))
    ensures Transition(p, Outside, c, next) ==
      if !MayEnd(p.state) then Fail(p, InvalidUrl)
      else if c == ' ' then GoClose(p, Version(ReqHttpStart), Flush(UrlData))
      else GoClose(p.(info := p.info.(httpMajor := 0, httpMinor := 9)),
                   if c == CR then Version(ReqLineAlmostDone) else Head(HeaderFieldStart), Flush(UrlData))
  {
    hide Inv, Fine, UrlNext;
  }

  /** The info and the state that the byte behind a target leads to: a line end stands for version 0.9. */
  function EndInfo(i: Info, c: char): Info { if c == ' ' then i else i.(httpMajor := 0, httpMinor := 9) }

  function EndState(c: char): State {
    if c == ' ' then Version(ReqHttpStart) else if c == CR then Version(ReqLineAlmostDone) else Head(HeaderFieldStart)
  }

  lemma TargetEnds(m: Machine, t: State, u: string, c: char, next: char)
    requires Running(InTarget(m, t, u)) && m.p.nread + |u| < MAX_HEADER_SIZE && t.Url? && (c == ' ' || IsBreak(c))
    ensures var x := Step(InTarget(m, t, u), c, next); var y := TargetDone(m, u, EndInfo(m.p.info, c), EndState(c));
      if MayEnd(t) then x == y && Running(x) else x.p.errno == InvalidUrl
  {
    hide Transition, Inv, HeldFits, Extend, Step, Emit, MayEnd;
    var x := InTarget(m, t, u);
    CountStops(x, c, next);
    StepIsApply(x, c, next);
    StepKeepsGood(x, c, next);
    EndMoves(x.p.(nread := x.p.nread + 1), c, next);
    var log := Emit(m.d.log, Data(UrlData, u));
    NoNotes(log);
    assert x.d.held - {UrlData} == map[];
    ExtendNothing(Delivery(log, map[]), c);
  }

  /** A target is accepted, and reported as it is, exactly if URL parts print it. */
  lemma TargetExactly(m: Machine, u: string, c: char, past: char)
    requires OnLine(m) && m.p.state == ReqSpacesBeforeUrl && u != "" && NoSpace(u) && (c == ' ' || IsBreak(c))
    requires m.p.nread + |u| < MAX_HEADER_SIZE
    ensures var x := Feed(m, u + [c], |u| + 1, past);
      if IsTarget(u, m.p.info.meth.CONNECT?)
      then x == TargetDone(m, u, EndInfo(m.p.info, c), EndState(c)) && Running(x)
      else x.p.errno == InvalidUrl
  {
    hide Step, Running, UrlChar, U.Walk, InTarget, IsBreak, NoSpace, MayEnd, IsTarget, TargetDone;
    var n, t := |u|, U.Walk(u, m.p.info.meth.CONNECT?, |u|).s;
    TargetWalk(u, m.p.info.meth.CONNECT?);
    OnLineIs(m);
    TargetFed(m, u, n, c);
    assert u[..n] == u;
    FeedFront(m, u, [c], n, past);
    assert (u + [c])[n] == c;
    assert Feed(m, u + [c], n + 1, past) == Step(Feed(m, u, n, c), c, past);
    if t == Dead {
      DeadEndsNowhere();
      StoppedStays(m, u + [c], n, n + 1, past);
    } else {
      TargetEnds(m, t, u, c, past);
    }
  }

  lemma DeadEndsNowhere()
    ensures !MayEnd(Dead)
  {
  }

  // ---- a request line -------------------------------------------------------------------------------------

  /** The two digits of a version. */
  datatype Digit2 = Digit2(major: char, minor: char)

  datatype Asked = Asked(meth: Method, target: string, version: Option<Digit2>, bare: bool)

  function AfterTarget(r: Asked): string {
    if r.version.None? then Eol(r.bare)
    else " " + (VersionText(r.version.value.major, r.version.value.minor) + Eol(r.bare))
  }

  function PrintAsked(r: Asked): string { MethodName(r.meth) + " " + (r.target + AfterTarget(r)) }

  ghost predicate GoodAsked(r: Asked) {
    && r.target != "" && NoSpace(r.target) && IsTarget(r.target, r.meth.CONNECT?)
    && (r.version.Some? ==> IsNum(r.version.value.major) && IsNum(r.version.value.minor))
  }

  /** The method and the version of a request; one without a version is 0.9. */
  function AskedInfo(i: Info, r: Asked): Info
    requires r.version.Some? ==> IsNum(r.version.value.major) && IsNum(r.version.value.minor)
  {
    i.(meth := r.meth, httpMajor := if r.version.None? then 0 else Digit(r.version.value.major),
       httpMinor := if r.version.None? then 9 else Digit(r.version.value.minor))
  }

  /** The machine behind a request line. */
  function AskedDone(m: Machine, r: Asked): Machine
    requires r.version.Some? ==> IsNum(r.version.value.major) && IsNum(r.version.value.minor)
  {
    Machine(Blanked(m.p).(info := AskedInfo(m.p.info, r), state := Head(HeaderFieldStart), index := |MethodName(r.meth)| + 1,
                          nread := m.p.nread + |PrintAsked(r)|),
            Outside, Delivery(m.d.log + [BEGIN, Data(UrlData, r.target)], map[]), m.consumed + |PrintAsked(r)|, false)
  }

  lemma TargetGets(m: Machine, u: string, c: char, past: char)
    requires OnLine(m) && m.p.state == ReqSpacesBeforeUrl && u != "" && NoSpace(u) && (c == ' ' || IsBreak(c))
    requires m.p.nread + |u| < MAX_HEADER_SIZE && IsTarget(u, m.p.info.meth.CONNECT?)
    ensures Gets(m, u + [c], past, TargetDone(m, u, EndInfo(m.p.info, c), EndState(c)))
  {
    hide Step, Running, IsTarget, TargetDone, NoSpace, IsBreak;
    TargetExactly(m, u, c, past);
  }

  /** The machine n bytes on, a target and the rest of its line read. */
  function TargetLine(m: Machine, u: string, i: Info, n: nat): Machine {
    Machine(m.p.(info := i, state := Head(HeaderFieldStart), nread := m.p.nread + n), Outside,
            Delivery(Emit(m.d.log, Data(UrlData, u)), map[]), m.consumed + n, false)
  }

  lemma TargetDoneIs(m: Machine, u: string, i: Info, t: State)
    ensures var x := TargetDone(m, u, i, t);
      && x.p.nread == m.p.nread + |u| + 1 && x.d.held == map[] && x.loop.Outside? && x.p.state == t && x.p.info == i
    ensures TargetDone(m, u, i, Head(HeaderFieldStart)) == TargetLine(m, u, i, |u| + 1)
    ensures On(TargetDone(m, u, i, t), Head(HeaderFieldStart), 1) == TargetLine(m, u, i, |u| + 2)
  {
    hide Emit;
  }

  lemma VersionBehind(m: Machine, u: string, i: Info, t: State, j: Info, k: nat)
    ensures Later(TargetDone(m, u, i, t), j, Head(HeaderFieldStart), k) == TargetLine(m, u, j, |u| + 1 + k)
  {
    hide Emit;
  }

  lemma Breaks()
    ensures IsBreak(CR) && IsBreak(LF) && Eol(true) == [LF] && Eol(false) == [CR] + [LF]
  {
  }

  lemma EndIs(i: Info)
    ensures EndInfo(i, CR) == EndInfo(i, LF) == i.(httpMajor := 0, httpMinor := 9) && EndInfo(i, ' ') == i
    ensures EndState(CR) == Version(ReqLineAlmostDone) && EndState(LF) == Head(HeaderFieldStart)
    ensures EndState(' ') == Version(ReqHttpStart)
  {
  }

  /** A target and the line end right behind it: version 0.9. */
  lemma OldLine(m: Machine, u: string, bare: bool, past: char)
    requires OnLine(m) && m.p.state == ReqSpacesBeforeUrl && u != "" && NoSpace(u) && IsTarget(u, m.p.info.meth.CONNECT?)
    requires m.p.nread + |u| + |Eol(bare)| <= MAX_HEADER_SIZE
    ensures Gets(m, u + Eol(bare), past, TargetLine(m, u, m.p.info.(httpMajor := 0, httpMinor := 9), |u| + |Eol(bare)|))
  {
    hide *;
    EndIs(m.p.info);
    var i := EndInfo(m.p.info, CR);
    EolSizes();
    Breaks();
    if bare {
      TargetGets(m, u, LF, past);
      TargetDoneIs(m, u, i, Head(HeaderFieldStart));
    } else {
      var x := TargetDone(m, u, i, Version(ReqLineAlmostDone));
      TargetGets(m, u, CR, LF);
      TargetDoneIs(m, u, i, Version(ReqLineAlmostDone));
      GetsLine(m, u + [CR], LF, x);
      VersionLeads();
      OnGets(x, LF, Head(HeaderFieldStart), past);
      FirstIs(LF, past);
      GetsConcat(m, u + [CR], x, [LF], TargetLine(m, u, i, |u| + 2), past);
      assert u + ([CR] + [LF]) == u + [CR] + [LF];
    }
  }

  /** A target, a version and the end of the line. */
  lemma NewLine(m: Machine, u: string, major: char, minor: char, bare: bool, past: char)
    requires OnLine(m) && m.p.state == ReqSpacesBeforeUrl && u != "" && NoSpace(u) && IsTarget(u, m.p.info.meth.CONNECT?)
    requires IsNum(major) && IsNum(minor) && m.p.nread + |u| + 9 + |Eol(bare)| <= MAX_HEADER_SIZE
    ensures var i := WithMinor(WithMajor(m.p.info, major), minor);
      Gets(m, u + (" " + (VersionText(major, minor) + Eol(bare))), past, TargetLine(m, u, i, |u| + 9 + |Eol(bare)|))
  {
    hide *;
    EndIs(m.p.info);
    EolSizes();
    var w := VersionText(major, minor) + Eol(bare);
    var c := First(w, past);
    var x := TargetDone(m, u, m.p.info, Version(ReqHttpStart));
    var i := WithMinor(WithMajor(m.p.info, major), minor);
    TargetGets(m, u, ' ', c);
    TargetDoneIs(m, u, m.p.info, Version(ReqHttpStart));
    EolSize(bare);
    GetsLine(m, u + [' '], c, x);
    RequestVersion(x, major, minor, bare, past);
    VersionBehind(m, u, m.p.info, Version(ReqHttpStart), i, 8 + |Eol(bare)|);
    GetsConcat(m, u + [' '], x, w, TargetLine(m, u, i, |u| + 9 + |Eol(bare)|), past);
    assert u + (" " + w) == u + [' '] + w;
  }

  /** The target and all behind it. */
  lemma RestOfLine(m: Machine, r: Asked, past: char)
    requires OnLine(m) && m.p.state == ReqSpacesBeforeUrl && GoodAsked(r) && m.p.info.meth == r.meth
    requires m.p.nread + |r.target + AfterTarget(r)| <= MAX_HEADER_SIZE
    ensures var t := r.target + AfterTarget(r); Gets(m, t, past, TargetLine(m, r.target, AskedInfo(m.p.info, r), |t|))
  {
    hide Gets, OnLine, IsTarget, NoSpace, TargetLine, IsNum, Digit, Eol;
    if r.version.None? {
      OldLine(m, r.target, r.bare, past);
    } else {
      NewLine(m, r.target, r.version.value.major, r.version.value.minor, r.bare, past);
    }
  }

  lemma AskedParts(r: Asked)
    ensures PrintAsked(r) == (MethodName(r.meth) + " ") + (r.target + AfterTarget(r))
    ensures |PrintAsked(r)| == |MethodName(r.meth)| + 1 + |r.target + AfterTarget(r)| && |AfterTarget(r)| >= 1
  {
    EolSize(r.bare);
    hide MethodName, Eol;
  }

  lemma AskedEnds(m: Machine, r: Asked)
    requires r.version.Some? ==> IsNum(r.version.value.major) && IsNum(r.version.value.minor)
    ensures var n := |MethodName(r.meth)| + 1; var x := Spelling(m, r.meth, ReqSpacesBeforeUrl, n, n);
      TargetLine(x, r.target, AskedInfo(x.p.info, r), |r.target + AfterTarget(r)|) == AskedDone(m, r)
  {
    AskedParts(r);
    hide MethodName, AfterTarget, PrintAsked, Digit, IsNum;
    assert m.d.log + [BEGIN] + [Data(UrlData, r.target)] == m.d.log + [BEGIN, Data(UrlData, r.target)];
  }

  lemma GoodVersion(r: Asked)
    requires GoodAsked(r)
    ensures r.version.Some? ==> IsNum(r.version.value.major) && IsNum(r.version.value.minor)
  {
  }

  /** A request line is read as its method, its target and its version. */
  lemma AskedIsRead(m: Machine, r: Asked, past: char)
    requires OnLine(m) && m.p.state == StartReq && GoodAsked(r) && m.p.nread + |PrintAsked(r)| <= MAX_HEADER_SIZE
    ensures r.version.Some? ==> IsNum(r.version.value.major) && IsNum(r.version.value.minor)
    ensures Gets(m, PrintAsked(r), past, AskedDone(m, r))
  {
    hide *;
    GoodVersion(r);
    AskedParts(r);
    var n, t := |MethodName(r.meth)| + 1, r.target + AfterTarget(r);
    var x := Spelling(m, r.meth, ReqSpacesBeforeUrl, n, n);
    MethodIsRead(m, r.meth, First(t, past));
    SpellingIs(m, r.meth, ReqSpacesBeforeUrl, n, n);
    GetsLine(m, MethodName(r.meth) + " ", First(t, past), x);
    RestOfLine(x, r, past);
    AskedEnds(m, r);
    GetsConcat(m, MethodName(r.meth) + " ", x, t, AskedDone(m, r), past);
  }
}
