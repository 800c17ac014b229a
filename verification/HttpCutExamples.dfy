/** Five inputs on which a cut does make a difference: why CutExactly and CutsOutsideHeaders carry the
    conditions they do. */
module HttpCutExamples {
  import opened HttpBase
  import opened HttpMachine
  import opened HttpRun
  import opened HttpSteps
  import opened HttpPieces

  /** A parser in a chunked body, with `length` bytes of a chunk to come. */
  function At(s: State, length: nat): Parser {
    Parser(Info(Request, 1, 1, 0, POST, false), NO_FLAGS.(chunked := true), s, General, 0, false, 0, length, OK)
  }

  /** A parser in a header line of a request, n bytes into the header section. */
  function InLine(h: HeadState, n: nat): Parser {
    Parser(Info(Request, 1, 1, 0, POST, false), NO_FLAGS, Head(h), General, 0, false, n, ULLONG_MAX, OK)
  }

  /** A new request parser. */
  function New(): Parser {
    Parser(Info(Request, 0, 0, 0, DELETE, false), NO_FLAGS, StartReq, General, 0, false, 0, 0, OK)
  }

  lemma TwoSteps(s: Machine, data: string, past: char)
    requires |data| == 2
    ensures Feed(s, data, 2, past) == Step(Step(s, data[0], data[1]), data[1], past)
  {
    assert Feed(s, data, 1, past) == Step(s, data[0], data[1]);
  }

  lemma OneStep(s: Machine, data: string, past: char)
    requires |data| == 1
    ensures Feed(s, data, 1, past) == Step(s, data[0], past)
  {
    assert Feed(s, data, 0, past) == s;
  }

  lemma LastChunkByte(log: seq<Event>, next: char)
    ensures var p := At(Chunk(ChunkData), 1);
      Step(Start(p, log), 'h', next) ==
      Machine(At(Chunk(ChunkDataAlmostDone), 0), Outside, Delivery(log, map[BodyData := "h"]), 1, false)
  {
    hide Inv, HeadByte, ResByte, VersionByte, AtUrl, AtStartReq, AtReqMethod;
    var p := At(Chunk(ChunkData), 1);
    assert Transition(p, Outside, 'h', next) == AtChunkData(p, 'h');
    NoNotes(log);
    assert "" + ['h'] == "h";
  }

  lemma NoCr(d: Delivery, n: nat, next: char)
    ensures var p := At(Chunk(ChunkDataAlmostDone), 0);
      Step(Machine(p, Outside, d, n, false), 'X', next) == Machine(p.(errno := Strict), Outside, d, n, false)
  {
    hide Inv, HeadByte, ResByte, VersionByte, AtUrl, AtStartReq, AtReqMethod;
    var p := At(Chunk(ChunkDataAlmostDone), 0);
    assert Transition(p, Outside, 'X', next) == AtChunkDataAlmostDone(p, 'X');
    NoNotes(d.log);
  }

  /** A chunk of one byte that is not followed by CR: read in one call, the byte is never
      delivered; read in two, it is. The error is the same. */
  lemma BodyByteIsLost(past: char)
    ensures var p := At(Chunk(ChunkData), 1);
      var u := Call(p, [], "hX", past); var m := Call(p, [], "h", 'X'); var n := Call(m.p, m.d.log, "X", past);
      u.p.errno == n.p.errno == Strict && u.d.log == [] && n.d.log == [Data(BodyData, "h")]
  {
    hide Step;
    var p := At(Chunk(ChunkData), 1);
    TwoSteps(Start(p, []), "hX", past);
    OneStep(Start(p, []), "h", 'X');
    LastChunkByte([], 'X');
    var m := Call(p, [], "h", 'X');
    OneStep(Start(m.p, m.d.log), "X", past);
    NoCr(Delivery([], map[BodyData := "h"]), 1, past);
    NoCr(Start(m.p, m.d.log).d, 0, past);
  }

  const SOH := 1 as char

  lemma NameByte(log: seq<Event>, n: nat, loop: Loop, d: Delivery, k: nat, c: char, next: char)
    requires n < MAX_HEADER_SIZE && IsToken(c) && !loop.Scanning? && (forall j :: j in d.held <==> j == FieldData)
    ensures Step(Machine(InLine(HeaderField, n), loop, d, k, false), c, next) ==
            Machine(InLine(HeaderField, n + 1), Inside, Extend(d, c), k + 1, false)
  {
    hide Step, IsToken, Extend;
    TokenStep(Machine(InLine(HeaderField, n), loop, d, k, false), c, next);
  }

  /** Two bytes "ab" of a header name, n bytes into the header section, in one call and in two. */
  lemma NameOfTwo(n: nat, past: char)
    requires n + 3 <= MAX_HEADER_SIZE
    ensures var p := InLine(HeaderField, n);
      var u := Call(p, [], "ab", past); var m := Call(p, [], "a", 'b'); var v := Call(m.p, m.d.log, "b", past);
      u.p.errno == OK && u.p.nread == n + 3 && v.p.nread == n + 4 && v.p.errno == if n + 4 <= MAX_HEADER_SIZE then OK else HeaderOverflow
  {
    hide Step, Extend, Leftover;
    var p := InLine(HeaderField, n);
    TwoSteps(Start(p, []), "ab", past);
    OneStep(Start(p, []), "a", 'b');
    NameByte([], n, Outside, Start(p, []).d, 0, 'a', 'b');
    var d := Extend(Start(p, []).d, 'a');
    assert forall j :: j in d.held <==> j == FieldData by { ExtendKeys(Start(p, []).d, 'a'); }
    NameByte([], n + 1, Inside, d, 1, 'b', past);
    var m := Call(p, [], "a", 'b');
    OneStep(Start(m.p, m.d.log), "b", past);
    NameByte(m.d.log, n + 2, Outside, Start(m.p, m.d.log).d, 0, 'b', past);
  }

  /** Two bytes of a header name count as three in one call and as four in two. */
  lemma CutsAreCounted(past: char)
    ensures var p := InLine(HeaderField, 17);
      var u := Call(p, [], "ab", past); var m := Call(p, [], "a", 'b'); var n := Call(m.p, m.d.log, "b", past);
      u.p.errno == n.p.errno == OK && u.p.nread == 20 && n.p.nread == 21
  {
    hide Call;
    NameOfTwo(17, past);
  }

  /** So near the end of the budget the same two bytes are read in one call and refused in two. */
  lemma CutsUseUpTheBudget(past: char)
    ensures var p := InLine(HeaderField, MAX_HEADER_SIZE - 3);
      var u := Call(p, [], "ab", past); var m := Call(p, [], "a", 'b'); var n := Call(m.p, m.d.log, "b", past);
      u.p.errno == OK && n.p.errno == HeaderOverflow
  {
    hide Call;
    NameOfTwo(MAX_HEADER_SIZE - 3, past);
  }

  lemma ExtendKeys(d: Delivery, c: char)
    ensures forall j :: j in Extend(d, c).held <==> j in d.held
  {
  }

  lemma ValueA(log: seq<Event>, next: char)
    ensures var p := InLine(HeaderValue, 20);
      Step(Start(p, log), 'a', next) == Machine(p.(nread := 21), Scanning, Extend(Start(p, log).d, 'a'), 1, false)
  {
    var p := InLine(HeaderValue, 20);
    ValueStep(Start(p, log), 'a', next);
    NoNotes(log);
  }

  lemma ValueSoh(p: Parser, loop: Loop, d: Delivery, k: nat, next: char)
    requires p == InLine(HeaderValue, p.nread) && p.nread < 100
    requires !loop.Inside? && (forall j :: j in d.held <==> j == ValueData)
    ensures var n := Step(Machine(p, loop, d, k, false), SOH, next);
      if loop.Scanning? then n == Machine(p.(nread := p.nread + 1), Scanning, Extend(d, SOH), k + 1, false)
      else n.p.errno == InvalidHeaderToken
  {
    ValueStep(Machine(p, loop, d, k, false), SOH, next);
    NoNotes(d.log);
  }

  /** A control character inside a general header value: memchr() passes over it, but as the
      first byte of a call it is looked at. */
  lemma ScannedByteIsSeen(past: char)
    ensures var p := InLine(HeaderValue, 20);
      var u := Call(p, [], ['a', SOH], past); var m := Call(p, [], "a", SOH); var n := Call(m.p, m.d.log, [SOH], past);
      u.p.errno == OK && m.p.errno == OK && n.p.errno == InvalidHeaderToken
  {
    hide Step, Extend, Leftover;
    var p := InLine(HeaderValue, 20);
    TwoSteps(Start(p, []), ['a', SOH], past);
    OneStep(Start(p, []), "a", SOH);
    ValueA([], SOH);
    ExtendKeys(Start(p, []).d, 'a');
    ValueSoh(p.(nread := 21), Scanning, Extend(Start(p, []).d, 'a'), 1, past);
    var m := Call(p, [], "a", SOH);
    OneStep(Start(m.p, m.d.log), [SOH], past);
    ValueSoh(m.p, Outside, Start(m.p, m.d.log).d, 0, past);
  }

  /** The same behind its first 'P', with the method m guessed. */
  function AfterP(m: Method): Parser {
    Fresh(New()).(state := ReqMethod, index := 1, nread := 1, info := New().info.(meth := m))
  }

  lemma FirstP(log: seq<Event>, next: char)
    ensures Step(Start(New(), log), 'P', next) ==
            Machine(AfterP(if next == 'U' then PUT else POST), Outside, Delivery(log + [Notify(MessageBegin)], map[]), 1, false)
  {
    hide Inv, HeadByte, ResByte, VersionByte, AtUrl, ChunkByte, AtReqMethod;
    assert Notes([MessageBegin]) == [Notify(MessageBegin)];
  }

  lemma SecondO(log: seq<Event>, m: Method, k: nat, next: char)
    requires m.POST? || m.PUT?
    ensures var x := Step(Machine(AfterP(m), Outside, Delivery(log, map[]), k, false), 'O', next);
      if m.POST? then x.p.errno == OK && x.loop.Outside? else x.p.errno == InvalidMethod
  {
    hide Step;
    var s := Machine(AfterP(m), Outside, Delivery(log, map[]), k, false);
    if m.POST? {
      PostTakes(s, 'O', next);
      StepKeepsGood(s, 'O', next);
      StaysOutside(s, 'O', next);
    } else {
      PutRefuses(s, 'O', next);
    }
  }

  /** "P" and "OST" in two calls: if memory happens to hold a 'U' behind the first buffer, the
      method is taken for PUT and the request is refused. */
  lemma GuessIsMisled(past: char)
    ensures var p := New();
      var u := Call(p, [], "PO", past); var m := Call(p, [], "P", 'U'); var n := Call(m.p, m.d.log, "O", past);
      u.p.errno == OK && m.p.errno == OK && n.p.errno == InvalidMethod
  {
    hide Step, Leftover;
    var p := New();
    TwoSteps(Start(p, []), "PO", past);
    OneStep(Start(p, []), "P", 'U');
    FirstP([], 'O');
    FirstP([], 'U');
    SecondO([] + [Notify(MessageBegin)], POST, 1, past);
    var m := Call(p, [], "P", 'U');
    OneStep(Start(m.p, m.d.log), "O", past);
    SecondO(m.d.log, PUT, 0, past);
  }
}
