/** Cuts outside header names and header values change nothing at all: not even nread, and
    without any exception for errors. This covers every cut inside a body, a chunk or the
    framing between chunks. */
module HttpExactCut {
  import opened HttpBase
  import opened HttpMachine
  import opened HttpRun
  import opened HttpSteps
  import opened HttpCutting
  import opened HttpPieces

  lemma TwinsNotSpoiled(u: Machine, v: Machine, c: char)
    requires Twins(u, v)
    ensures !Spoils(u, 0, v.loop.Outside?, c)
  {
    hide IsHeaderChar, IsBreak, IsToken;
  }

  lemma TwinStep(u: Machine, v: Machine, base: nat, c: char, a: char, b: char)
    requires Sim(u, v, base) && Twins(u, v) && SameGuess(u.p, c, a, b) && u.consumed < MAX_CALL
    ensures Sim(Step(u, c, a), Step(v, c, b), base) && Twins(Step(u, c, a), Step(v, c, b))
  {
    hide Transition, Inv, HeldFits, Visible, Spoils;
    if !Stopped(u) {
      TwinsNotSpoiled(u, v, c);
      SimStep(u, v, base, 0, c, a, b);
      GuessNext(Count(u.p, u.loop), u.loop, c, a, b);
    }
  }

  /** The bytes w[base..base + |d|] as one call, next to the uncut run. */
  lemma TwinFeed(s: Machine, w: string, past: char, base: nat, v: Machine, d: string, behind: char, j: nat)
    requires j <= |d| && base + |d| <= |w| <= MAX_CALL && w[base..base + |d|] == d && s.consumed == 0
    requires |d| > 0 ==>
      var e := base + |d| - 1; SameGuess(Feed(s, w, e, past).p, w[e], After(w, e, past), behind)
    requires Sim(Feed(s, w, base, past), v, base) && Twins(Feed(s, w, base, past), v)
    ensures var u := Feed(s, w, base + j, past); var n := Feed(v, d, j, behind); Sim(u, n, base) && Twins(u, n)
  {
    hide Step, Sim, Twins;
    if j > 0 {
      TwinFeed(s, w, past, base, v, d, behind, j - 1);
      var c := d[j - 1];
      assert w[base + j - 1] == c;
      if j < |d| { assert w[base + j] == d[j]; }
      FeedConsumed(s, w, base + j - 1, past);
      TwinStep(Feed(s, w, base + j - 1, past), Feed(v, d, j - 1, behind), base, c,
               After(w, base + j - 1, past), After(d, j - 1, behind));
    }
  }

  lemma StartGood(p: Parser, log: seq<Event>)
    requires p.errno == OK && Inv(p) && p.nread <= MAX_HEADER_SIZE
    ensures Good(Start(p, log)) && !Stopped(Start(p, log)) && Start(p, log).consumed == 0
    ensures Sim(Start(p, log), Start(p, log), 0) && Twins(Start(p, log), Start(p, log))
  {
  }

  /** Outside the inner loops a call ends and the next one starts in the same situation. */
  lemma TwinRestart(u: Machine, n: Machine, base: nat)
    requires Sim(u, n, base) && Twins(u, n) && !Stopped(n) && !InHeaderLoop(u.p.state)
    ensures var e := End(n); var v := Start(e.p, e.d.log);
      Sim(u, v, base + n.consumed) && Twins(u, v) && !Stopped(e) && e.consumed == n.consumed && e.p.nread <= MAX_HEADER_SIZE
    ensures End(u).p == End(n).p && End(u).d.log == End(n).d.log && End(u).exited == End(n).exited
    ensures End(u).consumed == base + n.consumed
  {
    hide Inv, HeldFits, Leftover, Emit;
    assert n.loop.Outside?;
    Restart(u, n, base);
  }

  /** What the ends of two runs share. */
  predicate SameOutcome(u: Machine, m: Machine) {
    && u.p == m.p && u.exited == m.exited && u.consumed == m.consumed
    && Visible(u.d) == Visible(m.d) && (u.p.errno == OK ==> u.d.log == m.d.log)
  }

  /** The ends of two calls in the same situation. */
  lemma SimEnd(u: Machine, n: Machine, base: nat)
    requires Sim(u, n, base) && Twins(u, n)
    ensures var f := End(n); SameOutcome(End(u), f.(consumed := base + f.consumed))
  {
    hide Inv, HeldFits, Leftover, Emit;
    SimFacts(u, n, base);
    if !Stopped(u) && End(u).p.errno == OK {
      LeftoverHoldsNothing(u.d);
      LeftoverHoldsNothing(n.d);
    }
  }

  lemma LeftoverHoldsNothing(d: Delivery)
    ensures Visible(Leftover(d)) == Visible(d)
  {
    var f := CloseSlice(d, Flush(FieldData), '\0');
    var v := CloseSlice(f, Flush(ValueData), '\0');
    var u := CloseSlice(v, Flush(UrlData), '\0');
    var b := CloseSlice(u, Flush(BodyData), '\0');
    var t := CloseSlice(b, Flush(StatusData), '\0');
    forall k: DataKind ensures k !in t.held {
      match k
      case FieldData => case ValueData => case UrlData => case BodyData => case StatusData =>
    }
  }

  /** At every cut the uncut run is outside header names and values, and the byte that memory
      holds behind a piece, if it is looked at, is as good as the byte that follows. */
  ghost predicate CleanCuts(p: Parser, log: seq<Event>, ps: seq<Piece>) {
    && ps != [] && (forall i :: 0 <= i < |ps| ==> ps[i].data != "")
    && forall k :: 0 < k < |ps| ==> CleanCut(p, log, ps, |Whole(ps[..k])|, ps[k - 1].past)
  }

  ghost predicate CleanCut(p: Parser, log: seq<Event>, ps: seq<Piece>, b: nat, behind: char) {
    var s, w, past := Start(p, log), Whole(ps), if ps == [] then '\0' else ps[|ps| - 1].past;
    && 0 < b < |w| && !InHeaderLoop(Feed(s, w, b, past).p.state)
    && SameGuess(Feed(s, w, b - 1, past).p, w[b - 1], w[b], behind)
  }

  /** The cut run m after its calls up to byte b, next to the uncut run u. */
  predicate Level(u: Machine, m: Machine, b: nat) {
    if Stopped(m) then SameOutcome(u, m)
    else var v := Start(m.p, m.d.log); m.consumed == b && Sim(u, v, b) && Twins(u, v)
  }

  /** One more piece, fed to machines in the same situation. */
  lemma FeedPiece(s: Machine, ps: seq<Piece>, k: nat, v: Machine)
    requires k < |ps| && ps[k].data != "" && |Whole(ps)| <= MAX_CALL && s.consumed == 0
    requires |Whole(ps[..k])| <= |Whole(ps)| && |Whole(ps[..k + 1])| <= |Whole(ps)|
    requires var u := Feed(s, Whole(ps), |Whole(ps[..k])|, ps[|ps| - 1].past); Sim(u, v, |Whole(ps[..k])|) && Twins(u, v)
    requires k + 1 < |ps| ==> var b := |Whole(ps[..k + 1])|;
      0 < b < |Whole(ps)| &&
      SameGuess(Feed(s, Whole(ps), b - 1, ps[|ps| - 1].past).p, Whole(ps)[b - 1], Whole(ps)[b], ps[k].past)
    ensures |Whole(ps[..k])| + |ps[k].data| == |Whole(ps[..k + 1])|
    ensures var u := Feed(s, Whole(ps), |Whole(ps[..k + 1])|, ps[|ps| - 1].past);
      var n := Feed(v, ps[k].data, |ps[k].data|, ps[k].past);
      Sim(u, n, |Whole(ps[..k])|) && Twins(u, n)
  {
    hide Step, Sim, Twins, SameGuess;
    WholeAt(ps, k);
    var w, past := Whole(ps), ps[|ps| - 1].past;
    var b, d := |Whole(ps[..k])|, ps[k].data;
    var e := b + |d| - 1;
    assert w[e] == d[|d| - 1];
    if k + 1 == |ps| {
      assert ps[..k + 1] == ps;
      SameByte(Feed(s, w, e, past).p, w[e], past);
    }
    TwinFeed(s, w, past, b, v, d, ps[k].past, |d|);
  }

  lemma SameByte(p: Parser, c: char, a: char)
    ensures SameGuess(p, c, a, a)
  {
  }

  lemma LevelZero(p: Parser, log: seq<Event>)
    requires p.errno == OK && Inv(p) && p.nread <= MAX_HEADER_SIZE
    ensures Level(Start(p, log), Calls(p, log, []), 0)
  {
    StartGood(p, log);
  }

  lemma CallsOneMore(p: Parser, log: seq<Event>, ps: seq<Piece>, k: nat)
    requires 0 < k <= |ps|
    ensures Calls(p, log, ps[..k]) == OneMore(Calls(p, log, ps[..k - 1]), ps[k - 1])
  {
    hide Call;
    assert ps[..k][..k - 1] == ps[..k - 1];
  }

  lemma LevelStep(s: Machine, ps: seq<Piece>, k: nat, m: Machine)
    requires k + 1 < |ps| && ps[k].data != "" && |Whole(ps)| <= MAX_CALL && s.consumed == 0
    requires |Whole(ps[..k])| <= |Whole(ps[..k + 1])| < |Whole(ps)|
    requires Level(Feed(s, Whole(ps), |Whole(ps[..k])|, ps[|ps| - 1].past), m, |Whole(ps[..k])|)
    requires var b := |Whole(ps[..k + 1])|;
      b > 0 && !InHeaderLoop(Feed(s, Whole(ps), b, ps[|ps| - 1].past).p.state) &&
      SameGuess(Feed(s, Whole(ps), b - 1, ps[|ps| - 1].past).p, Whole(ps)[b - 1], Whole(ps)[b], ps[k].past)
    ensures Level(Feed(s, Whole(ps), |Whole(ps[..k + 1])|, ps[|ps| - 1].past), OneMore(m, ps[k]), |Whole(ps[..k + 1])|)
  {
    hide Start, Step, Inv, Sim, Twins, SameGuess, InHeaderLoop, Call, Level, Whole;
    var w, past := Whole(ps), ps[|ps| - 1].past;
    var b, b' := |Whole(ps[..k])|, |Whole(ps[..k + 1])|;
    if Stopped(m) {
      LevelStopped(Feed(s, w, b, past), m, b, b');
      StoppedStays(s, w, b, b', past);
    } else {
      LevelFacts(Feed(s, w, b, past), m, b);
      FeedPiece(s, ps, k, Start(m.p, m.d.log));
      NextLevel(Feed(s, w, b', past), m, b, ps[k]);
    }
  }

  lemma CallsLevel(p: Parser, log: seq<Event>, ps: seq<Piece>, k: nat)
    requires CleanCuts(p, log, ps) && k < |ps| && |Whole(ps)| <= MAX_CALL && p.errno == OK && Inv(p) && p.nread <= MAX_HEADER_SIZE
    ensures |Whole(ps[..k])| <= |Whole(ps)|
    ensures Level(Feed(Start(p, log), Whole(ps), |Whole(ps[..k])|, ps[|ps| - 1].past), Calls(p, log, ps[..k]), |Whole(ps[..k])|)
  {
    hide Start, Step, Inv, SameGuess, InHeaderLoop, Call, Calls, Level, Feed, Whole;
    LevelZero(p, log);
    StartGood(p, log);
    if k == 0 {
      assert ps[..0] == [];
      EmptyStart(Start(p, log), ps);
    } else {
      CallsLevel(p, log, ps, k - 1);
      WholeAt(ps, k - 1);
      CallsOneMore(p, log, ps, k);
      assert CleanCut(p, log, ps, |Whole(ps[..k])|, ps[k - 1].past);
      LevelStep(Start(p, log), ps, k - 1, Calls(p, log, ps[..k - 1]));
    }
  }

  lemma EmptyStart(s: Machine, ps: seq<Piece>)
    ensures Whole([]) == "" && (ps != [] ==> Feed(s, Whole(ps), 0, ps[|ps| - 1].past) == s)
  {
  }

  lemma LevelStopped(u: Machine, m: Machine, b: nat, c: nat)
    requires Level(u, m, b) && Stopped(m)
    ensures Level(u, m, c) && Stopped(u)
  {
  }

  lemma NextLevel(u: Machine, m: Machine, b: nat, piece: Piece)
    requires !Stopped(m) && m.consumed == b && piece.data != "" && !InHeaderLoop(u.p.state)
    requires m.p.errno == OK
    requires var n := Feed(Start(m.p, m.d.log), piece.data, |piece.data|, piece.past); Sim(u, n, b) && Twins(u, n)
    ensures var c := Call(m.p, m.d.log, piece.data, piece.past);
      Level(u, c.(consumed := m.consumed + c.consumed), b + |piece.data|)
  {
    hide Step, Inv, HeldFits, Leftover, Visible;
    var v := Start(m.p, m.d.log);
    var n := Feed(v, piece.data, |piece.data|, piece.past);
    SimEnd(u, n, b);
    if !Stopped(n) {
      RunningConsumed(v, piece.data, |piece.data|, piece.past);
      TwinRestart(u, n, b);
    }
  }

  /** Cutting a stream into calls outside header names and values changes nothing. If a call
      fails, the cut run may have delivered data that the uncut run still holds back; delivered
      and held back together are the same. */
  lemma CutsOutsideHeaders(p: Parser, log: seq<Event>, ps: seq<Piece>)
    requires CleanCuts(p, log, ps) && |Whole(ps)| <= MAX_CALL && p.errno == OK && Inv(p) && p.nread <= MAX_HEADER_SIZE
    ensures SameOutcome(Call(p, log, Whole(ps), ps[|ps| - 1].past), Calls(p, log, ps))
  {
    hide Start, Step, Inv, Level, Feed, Whole, Call, Calls, OneMore, SameOutcome, CleanCut, End;
    var k := |ps| - 1;
    StartGood(p, log);
    CallsLevel(p, log, ps, k);
    CallsOneMore(p, log, ps, k + 1);
    assert ps[..k + 1] == ps;
    LastStep(Start(p, log), ps, k, Calls(p, log, ps[..k]));
    CallIsFeed(p, log, ps, k);
  }

  lemma CallIsFeed(p: Parser, log: seq<Event>, ps: seq<Piece>, k: nat)
    requires p.errno == OK && k < |ps| && ps[k].data != ""
    ensures Call(p, log, Whole(ps), ps[k].past) == End(Feed(Start(p, log), Whole(ps), |Whole(ps)|, ps[k].past))
  {
    hide Start, End, Feed;
    WholeAt(ps, k);
  }

  /** The last piece. */
  lemma LastStep(s: Machine, ps: seq<Piece>, k: nat, m: Machine)
    requires k + 1 == |ps| && ps[k].data != "" && |Whole(ps)| <= MAX_CALL && s.consumed == 0
    requires |Whole(ps[..k])| <= |Whole(ps)|
    requires Level(Feed(s, Whole(ps), |Whole(ps[..k])|, ps[k].past), m, |Whole(ps[..k])|)
    ensures SameOutcome(End(Feed(s, Whole(ps), |Whole(ps)|, ps[k].past)), OneMore(m, ps[k]))
  {
    hide Start, Step, Inv, Sim, Twins, SameGuess, Call, Level, Whole, SameOutcome, End;
    var w, b := Whole(ps), |Whole(ps[..k])|;
    assert ps[..k + 1] == ps;
    if Stopped(m) {
      OutcomeStopped(Feed(s, w, b, ps[k].past), m, b);
      StoppedStays(s, w, b, |w|, ps[k].past);
    } else {
      LevelFacts(Feed(s, w, b, ps[k].past), m, b);
      FeedPiece(s, ps, k, Start(m.p, m.d.log));
      FinishPiece(Feed(s, w, |w|, ps[k].past), m, b, ps[k]);
    }
  }

  lemma FinishPiece(u: Machine, m: Machine, b: nat, piece: Piece)
    requires !Stopped(m) && m.consumed == b && piece.data != ""
    requires var n := Feed(Start(m.p, m.d.log), piece.data, |piece.data|, piece.past); Sim(u, n, b) && Twins(u, n)
    ensures SameOutcome(End(u), OneMore(m, piece))
  {
    hide Feed, Start, Sim, Twins, SameOutcome, End;
    SimEnd(u, Feed(Start(m.p, m.d.log), piece.data, |piece.data|, piece.past), b);
  }

  lemma LevelFacts(u: Machine, m: Machine, b: nat)
    requires Level(u, m, b) && !Stopped(m)
    ensures m.consumed == b && m.p.errno == OK
    ensures Sim(u, Start(m.p, m.d.log), b) && Twins(u, Start(m.p, m.d.log))
  {
  }

  lemma OutcomeStopped(u: Machine, m: Machine, b: nat)
    requires Level(u, m, b) && Stopped(m)
    ensures SameOutcome(u, m) && Stopped(u) && End(u) == u
  {
  }
}
