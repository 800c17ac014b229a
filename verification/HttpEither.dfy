/** A parser that takes requests and responses finds out from the first two bytes which of them it has
    got, and then is where a parser of that kind would be. */
module HttpEither {
  import opened Basics
  import opened HttpBase
  import opened HttpMachine
  import opened HttpRun
  import opened HttpSteps
  import opened HttpMethods
  import opened HttpNumbers
  import opened HttpPieces
  import opened HttpStartLines
  import opened HttpTargets
  import opened HttpMessages

  /** The same parser, waiting for one kind of message. */
  function Settle(p: Parser, asks: bool): Parser {
    p.(state := if asks then StartReq else StartRes, info := p.info.(kind := if asks then Request else Response))
  }

  lemma LetterSame(m: Machine, n: Machine, c: char, next: char)
    requires OnLine(m) && OnLine(n) && m.p.state == StartReqOrRes && n == m.(p := Settle(m.p, true))
    requires c != 'H' && !IsBreak(c)
    ensures Step(m, c, next) == Step(n, c, next)
  {
    hide Transition, Apply, Step;
    StepRuns(m, c, next);
    StepRuns(n, c, next);
    LetterMoves(m.p.(nread := m.p.nread + 1), c, next);
    ApplySame(m, n, Transition(m.p.(nread := m.p.nread + 1), Outside, c, next), c);
  }

  lemma ApplySame(m: Machine, n: Machine, o: Out, c: char)
    requires n == m.(p := n.p)
    ensures Apply(m, o, c) == Apply(n, o, c)
  {
    hide Deliver, Extend;
  }

  lemma LetterMoves(p: Parser, c: char, next: char)
    requires p.state == StartReqOrRes && c != 'H' && !IsBreak(c)
    ensures Transition(p, Outside, c, next) == Transition(Settle(p, true), Outside, c, next)
  {
    hide Inv, Fine, FirstGuess, IsAlpha;
  }

  lemma HMoves(p: Parser, next: char)
    ensures p.state == StartReqOrRes ==> Transition(p, Outside, 'H', next) == GoTell(Fresh(p), ResOrRespH, MessageBegin)
    ensures p.state == StartReq ==>
      Transition(p, Outside, 'H', next) == GoTell(Fresh(p).(index := 1, info := p.info.(meth := HEAD)), ReqMethod, MessageBegin)
    ensures p.state == StartRes ==> Transition(p, Outside, 'H', next) == GoTell(Fresh(p), Res(ResH), MessageBegin)
    ensures p.state == ResOrRespH ==>
      && Transition(p, Outside, 'E', next) ==
         Go(p.(index := 2, info := p.info.(kind := Request, meth := HEAD)), ReqMethod)
      && Transition(p, Outside, 'T', next) == Go(p.(info := p.info.(kind := Response)), Res(ResHT))
    ensures p.state == ReqMethod && p.info.meth == HEAD && p.index == 1 ==>
      Transition(p, Outside, 'E', next) == Stay(p.(index := 2))
    ensures p.state == Res(ResH) ==> Transition(p, Outside, 'T', next) == Go(p, Res(ResHT))
  {
    hide Inv, Fine;
  }

  lemma BeginApplied(m: Machine, o: Out, c: char)
    requires m.d.held == map[] && o.close == Leave && o.tells == [MessageBegin] && o.mark == None && o.p.errno == OK
    ensures Apply(m, o, c) == Machine(o.p, o.loop, Delivery(m.d.log + [BEGIN], map[]), m.consumed + 1, o.exit)
  {
    assert Notes([MessageBegin]) == [BEGIN];
    ExtendNothing(Delivery(m.d.log + [BEGIN], map[]), c);
  }

  /** The machine behind the 'H'. */
  function BehindH(m: Machine): Machine {
    var q := Fresh(m.p.(nread := m.p.nread + 1));
    var p := if m.p.state == StartReqOrRes then q.(state := ResOrRespH)
             else if m.p.state == StartReq then q.(state := ReqMethod, index := 1, info := q.info.(meth := HEAD))
             else q.(state := Res(ResH));
    Machine(p, Outside, Delivery(m.d.log + [BEGIN], map[]), m.consumed + 1, false)
  }

  lemma HStep(m: Machine, next: char)
    requires OnLine(m) && (m.p.state == StartReqOrRes || m.p.state == StartReq || m.p.state == StartRes)
    ensures Step(m, 'H', next) == BehindH(m) && Running(BehindH(m))
  {
    hide Transition, Apply, Step, Inv, HeldFits, LoopFits;
    StepRuns(m, 'H', next);
    StepKeepsGood(m, 'H', next);
    var p := m.p.(nread := m.p.nread + 1);
    HMoves(p, next);
    BeginApplied(m, Transition(p, Outside, 'H', next), 'H');
  }

  /** The second byte. */
  lemma SecondStep(m: Machine, c: char, next: char)
    requires OnLine(m) && m.p.nread + 1 < MAX_HEADER_SIZE && m.p.state == StartReqOrRes && Running(BehindH(m))
    requires c == 'E' || c == 'T'
    requires Running(BehindH(m.(p := Settle(m.p, c == 'E'))))
    ensures Step(BehindH(m), c, next) == Step(BehindH(m.(p := Settle(m.p, c == 'E'))), c, next)
  {
    hide Transition, Apply, Step, Good;
    var x, y := BehindH(m), BehindH(m.(p := Settle(m.p, c == 'E')));
    StepRuns(x, c, next);
    StepRuns(y, c, next);
    HMoves(x.p.(nread := x.p.nread + 1), next);
    HMoves(y.p.(nread := y.p.nread + 1), next);
    QuietlyApplied(x, Transition(x.p.(nread := x.p.nread + 1), Outside, c, next), c);
    QuietlyApplied(y, Transition(y.p.(nread := y.p.nread + 1), Outside, c, next), c);
  }

  /** The first bytes of a message of a kind. */
  predicate Opens(w: string, asks: bool) {
    |w| >= 2 && (if asks then w[..2] == "HE" || (w[0] != 'H' && !IsBreak(w[0])) else w[..2] == "HT")
  }

  lemma {:induction false} FeedSame(m: Machine, n: Machine, w: string, k: nat, j: nat, past: char)
    requires k <= j <= |w| && Feed(m, w, k, past) == Feed(n, w, k, past)
    ensures Feed(m, w, j, past) == Feed(n, w, j, past)
  {
    hide Step;
    if k < j { FeedSame(m, n, w, k, j - 1, past); }
  }

  lemma TwoSame(m: Machine, w: string, asks: bool, past: char)
    requires OnLine(m) && m.p.nread + 1 < MAX_HEADER_SIZE && m.p.state == StartReqOrRes && Opens(w, asks)
    requires OnLine(m.(p := Settle(m.p, asks)))
    ensures Feed(m, w, |w|, past) == Feed(m.(p := Settle(m.p, asks)), w, |w|, past)
  {
    hide Step, Good, IsBreak;
    var n := m.(p := Settle(m.p, asks));
    assert Feed(m, w, 0, past) == m && Feed(n, w, 0, past) == n;
    assert Feed(m, w, 1, past) == Step(m, w[0], w[1]) && Feed(n, w, 1, past) == Step(n, w[0], w[1]);
    if w[0] != 'H' {
      LetterSame(m, n, w[0], w[1]);
      FeedSame(m, n, w, 1, |w|, past);
    } else {
      assert w[1] == w[..2][1];
      HStep(m, w[1]);
      HStep(n, w[1]);
      SecondStep(m, w[1], After(w, 1, past));
      FeedSame(m, n, w, 2, |w|, past);
    }
  }

  lemma MethodOpens(g: Method)
    ensures var w := MethodName(g); |w| >= 2 && (w[..2] == "HE" || w[0] != 'H')
    ensures !IsBreak(MethodName(g)[0])
  {
    NameFits(g);
  }

  lemma HeadingOpens(h: Heading, rest: string)
    ensures Opens(PrintHeading(h) + rest, h.start.Asks?)
  {
    var w := PrintHeading(h) + rest;
    if h.start.Asks? {
      var name := MethodName(h.start.asked.meth);
      MethodOpens(h.start.asked.meth);
      hide MethodName, AfterTarget;
      assert w[..2] == name[..2] && w[0] == name[0];
    } else {
      hide ReasonText;
      assert w[..5] == "HTTP/" && "HTTP/"[..2] == "HT" && w[..2] == w[..5][..2];
    }
  }

  lemma StartSettles(p: Parser, log: seq<Event>, asks: bool)
    requires p.errno == OK && Inv(p) && p.state == StartReqOrRes && p.nread + 1 < MAX_HEADER_SIZE
    ensures var m := Start(p, log); var q := Settle(p, asks);
      && OnLine(m) && m.p == p && Start(q, log) == m.(p := q) && OnLine(m.(p := q)) && q.errno == OK && Inv(q)
  {
  }

  /** A printed message is read by a parser of either kind as by a parser of its own kind. */
  lemma EitherKind(p: Parser, log: seq<Event>, h: Heading, rest: string, past: char)
    requires p.errno == OK && Inv(p) && p.state == StartReqOrRes && p.nread + 1 < MAX_HEADER_SIZE && !p.info.meth.CONNECT?
    ensures var q := Settle(p, h.start.Asks?); var w := PrintHeading(h) + rest;
      Waits(q, h.start) && Call(p, log, w, past) == Call(q, log, w, past)
  {
    StartSettles(p, log, h.start.Asks?);
    hide Inv, PrintHeading, Start, OnLine, Opens, Feed, End;
    var w := PrintHeading(h) + rest;
    HeadingOpens(h, rest);
    OpensNotEmpty(w, h.start.Asks?);
    TwoSame(Start(p, log), w, h.start.Asks?, past);
  }

  lemma OpensNotEmpty(w: string, asks: bool)
    requires Opens(w, asks)
    ensures w != ""
  {
  }
}
