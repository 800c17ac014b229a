/** Header names and lengths cut into calls: every fragmentation reads what one call reads. */
module HttpHeaderCuts {
  import opened HttpBase
  import opened HttpMachine
  import opened HttpRun
  import opened HttpSteps
  import opened HttpNumbers
  import opened HttpCutting
  import opened HttpPieces
  import opened HttpExactCut
  import opened HttpHeaders

  // ---- runs without a method ------------------------------------------------------------------------

  /** A run that meets no byte of the stream as the first letter of a method. */
  ghost predicate NoGuess(p: Parser, log: seq<Event>, w: string, past: char) {
    forall j :: 0 <= j < |w| ==> !Guesses(Feed(Start(p, log), w, j, past).p.state)
  }

  /** No cut in such a run fools the guess, whatever lies behind the pieces. */
  lemma NoGuessIsUnfooled(p: Parser, log: seq<Event>, ps: seq<Piece>)
    requires ps != [] && NoGuess(p, log, Whole(ps), ps[|ps| - 1].past)
    ensures NoneFooled(StreamOf(p, log, ps))
  {
    hide Start, Feed, Whole, Guesses, Cuts, UCuts;
  }

  /** A run without a method over header bytes may be cut anywhere if it fits the budget. */
  lemma CalmCuts(p: Parser, log: seq<Event>, ps: seq<Piece>)
    requires p.errno == OK && Inv(p) && Fed(ps) && p.nread + |Whole(ps)| + |ps| <= MAX_HEADER_SIZE
    requires NoGuess(p, log, Whole(ps), ps[|ps| - 1].past) && forall j :: 0 <= j < |Whole(ps)| ==> IsHeaderChar(Whole(ps)[j])
    ensures SameEnd(Call(p, log, Whole(ps), ps[|ps| - 1].past), Calls(p, log, ps))
  {
    hide *;
    FedPieces(ps);
    NoGuessIsUnfooled(p, log, ps);
    FitsSpares(p, log, ps);
    CallIsShort();
    AllHeaderBytes(p, log, ps);
    CutsToSpare(p, log, ps);
  }

  lemma AllHeaderBytes(p: Parser, log: seq<Event>, ps: seq<Piece>)
    requires ps != [] && forall j :: 0 <= j < |Whole(ps)| ==> IsHeaderChar(Whole(ps)[j])
    ensures NoneExposed(StreamOf(p, log, ps))
  {
    hide Start, Feed, Whole, IsHeaderChar, Cuts, UCuts;
  }

  // ---- names ------------------------------------------------------------------------------------------

  lemma TokenStays(p: Parser, loop: Loop, c: char, next: char)
    requires p.state == Head(HeaderFieldStart) || p.state == Head(HeaderField)
    requires IsToken(c)
    ensures var s := Transition(p, loop, c, next).p.state; s == Head(HeaderFieldStart) || s == Head(HeaderField)
  {
    hide Inv, IsToken, TokenOf, FieldChar, FirstOfField;
    NotBreak(c);
  }

  lemma NameStays(m: Machine, w: string, n: nat, past: char)
    requires m.p.state == Head(HeaderFieldStart) && n <= |w| && forall i :: 0 <= i < n ==> IsToken(w[i])
    ensures var s := Feed(m, w, n, past).p.state; s == Head(HeaderFieldStart) || s == Head(HeaderField)
  {
    hide Transition, IsToken;
    if n > 0 {
      NameStays(m, w, n - 1, past);
      var x := Feed(m, w, n - 1, past);
      TokenStays(Count(x.p, x.loop), x.loop, w[n - 1], After(w, n - 1, past));
    }
  }

  lemma NameNoGuess(p: Parser, log: seq<Event>, s: string, past: char)
    requires p.state == Head(HeaderFieldStart) && Token(s)
    ensures NoGuess(p, log, s + ":", past)
  {
    hide Step, IsToken;
    forall j | 0 <= j < |s + ":"| ensures !Guesses(Feed(Start(p, log), s + ":", j, past).p.state) {
      NameStays(Start(p, log), s + ":", j, past);
    }
  }

  lemma NameIsCalm(s: string)
    requires Token(s)
    ensures var w := s + ":"; forall j :: 0 <= j < |w| ==> IsHeaderChar(w[j])
  {
    var w := s + ":";
    forall j | 0 <= j < |w| ensures IsHeaderChar(w[j]) {
      if j < |s| { assert IsToken(w[j]); }
    }
  }

  /** One call on a whole name. */
  lemma NameCall(p: Parser, log: seq<Event>, s: string, past: char)
    requires p.errno == OK && Inv(p) && p.state == Head(HeaderFieldStart) && Token(s)
    requires p.nread + |s| + 1 <= MAX_HEADER_SIZE
    ensures var x := Call(p, log, s + ":", past);
      && Names(Lowered(s), x.p.headerState) && x.p.errno == OK && x.p.state == Head(HeaderValueDiscardWs)
      && x.d.log == Emit(log, Data(FieldData, s)) && x.consumed == |s| + 1 && !x.exited
  {
    assert AtLine(Start(p, log));
    hide Inv, Step, Token, Names, Emit, Running;
    NameIsRecognised(Start(p, log), s, past);
    assert |s + ":"| == |s| + 1;
  }

  /** However a header name and its ':' are cut into calls: if they fit the header budget with a
      byte to spare for every call, header_state says which of the five names it is, and the
      callbacks report the name as it was spelled. */
  lemma NameInPieces(p: Parser, log: seq<Event>, s: string, ps: seq<Piece>)
    requires p.errno == OK && Inv(p) && p.state == Head(HeaderFieldStart) && Token(s)
    requires ps != [] && (forall i :: 0 <= i < |ps| ==> ps[i].data != "") && Whole(ps) == s + ":"
    requires p.nread + |Whole(ps)| + |ps| <= MAX_HEADER_SIZE
    ensures var m := Calls(p, log, ps);
      && Names(Lowered(s), m.p.headerState) && m.p.errno == OK && m.p.state == Head(HeaderValueDiscardWs)
      && m.d.log == Emit(log, Data(FieldData, s)) && m.consumed == |s| + 1
  {
    hide Inv, Call, Calls, Token, Names, Emit, Whole, NoGuess, IsHeaderChar;
    var past := ps[|ps| - 1].past;
    NameNoGuess(p, log, s, past);
    NameCall(p, log, s, past);
    NameIsCalm(s);
    CalmCuts(p, log, ps);
  }

  // ---- Content-Length -----------------------------------------------------------------------------------

  lemma DigitStays(p: Parser, loop: Loop, c: char, next: char)
    requires p.state == Head(HeaderValueDiscardWs) || p.state == Head(HeaderValue)
    requires IsNum(c) || c == ' '
    ensures var s := Transition(p, loop, c, next).p.state; s == Head(HeaderValueDiscardWs) || s == Head(HeaderValue)
  {
    hide Inv, FinishFlags, ValueChar, AtHeaderAlmostDone;
    ValueCharShape(p, c);
  }

  lemma LengthStays(m: Machine, w: string, n: nat, past: char)
    requires m.p.state == Head(HeaderValueDiscardWs) && n <= |w| && LengthText(w)
    ensures var s := Feed(m, w, n, past).p.state; s == Head(HeaderValueDiscardWs) || s == Head(HeaderValue)
  {
    hide Transition;
    if n > 0 {
      LengthStays(m, w, n - 1, past);
      var x := Feed(m, w, n - 1, past);
      DigitStays(Count(x.p, x.loop), x.loop, w[n - 1], After(w, n - 1, past));
    }
  }

  lemma LengthNoGuess(p: Parser, log: seq<Event>, s: string, past: char)
    requires p.state == Head(HeaderValueDiscardWs) && LengthText(s)
    ensures NoGuess(p, log, s, past)
  {
    hide Step, LengthText;
    forall j | 0 <= j < |s| ensures !Guesses(Feed(Start(p, log), s, j, past).p.state) {
      LengthStays(Start(p, log), s, j, past);
    }
  }

  lemma LengthIsCalm(s: string)
    requires LengthText(s)
    ensures forall j :: 0 <= j < |s| ==> IsHeaderChar(s[j])
  {
  }

  predicate LengthEnds(value: nat, p: Parser) {
    if value <= MAX_LENGTH
    then p.errno == OK && p.contentLength == value && p.flags.contentLength && p.state == Head(HeaderValue)
    else p.errno == InvalidContentLength
  }

  lemma LengthAtEnd(m: Machine, x: Machine, value: nat, s: string)
    requires s != "" && LengthOutcome(m, x, value, s) && m.p.nread + |s| < MAX_HEADER_SIZE
    ensures LengthEnds(value, End(x).p)
  {
    hide Inv, HeldFits, Leftover, LoopFits;
  }

  lemma LengthCall(p: Parser, log: seq<Event>, s: string, past: char)
    requires p.errno == OK && Inv(p) && p.state == Head(HeaderValueDiscardWs) && LengthText(s)
    requires p.headerState.ContentLength? && !p.flags.contentLength && p.nread + |s| < MAX_HEADER_SIZE
    ensures LengthEnds(DecValue(s), Call(p, log, s, past).p)
  {
    hide Inv, Step, IsNum, DecValue, Running, End, LengthOutcome, AtLength, Start, LengthEnds;
    var m := Start(p, log);
    LengthStart(p, log);
    NotEmpty(s);
    LengthIsExact(m, s, |s|, past);
    assert s[..|s|] == s;
    LengthAtEnd(m, Feed(m, s, |s|, past), DecValue(s), s);
  }

  lemma LengthStart(p: Parser, log: seq<Event>)
    requires p.errno == OK && Inv(p) && p.state == Head(HeaderValueDiscardWs) && p.headerState.ContentLength?
    requires !p.flags.contentLength && p.nread <= MAX_HEADER_SIZE
    ensures AtLength(Start(p, log)) && Start(p, log).p == p
  {
    hide Inv;
    StartGood(p, log);
  }

  lemma NotEmpty(s: string)
    requires LengthText(s)
    ensures s != ""
  {
  }

  /** However the value of a Content-Length is cut into calls: within the header budget it is
      stored exactly when it is at most 18446744073709551609, and refused otherwise. */
  lemma LengthInPieces(p: Parser, log: seq<Event>, s: string, ps: seq<Piece>)
    requires p.errno == OK && Inv(p) && p.state == Head(HeaderValueDiscardWs) && LengthText(s)
    requires p.headerState.ContentLength? && !p.flags.contentLength
    requires ps != [] && (forall i :: 0 <= i < |ps| ==> ps[i].data != "") && Whole(ps) == s
    requires p.nread + |Whole(ps)| + |ps| <= MAX_HEADER_SIZE
    ensures LengthEnds(DecValue(s), Calls(p, log, ps).p)
  {
    hide Inv, Call, Calls, LengthText, DecValue, Whole, NoGuess, IsHeaderChar;
    var past := ps[|ps| - 1].past;
    LengthNoGuess(p, log, s, past);
    LengthCall(p, log, s, past);
    LengthIsCalm(s);
    CalmCuts(p, log, ps);
  }
}
