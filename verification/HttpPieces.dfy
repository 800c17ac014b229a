/** Cutting a stream into calls. A run that is cut anywhere and fed piece by piece ends like the run
    of a single call, unless a cut spoils a byte; which bytes are spoiled is exact. */
module HttpPieces {
  import opened HttpBase
  import opened HttpMachine
  import opened HttpRun
  import opened HttpSteps
  import opened HttpBudget
  import opened HttpCutting

  // ---- the guess at the method --------------------------------------------------------------------

  function As(u: Machine, m: Method): Machine { u.(p := u.p.(info := u.p.info.(meth := m))) }

  /** Behind a first 'P' the runs have seen different bytes: one guessed PUT, and the cut run the method g. */
  predicate Guessed(u: Machine, v: Machine, base: nat, g: Method) {
    && !Stopped(u) && u.p.state.ReqMethod? && u.p.index == 1
    && ((u.p.info.meth.PUT? && g.POST?) || (u.p.info.meth.POST? && g.PUT?))
    && v.p.info.meth == g && Sim(As(u, g), v, base) && v.loop.Outside?
  }

  lemma GuessMade(u: Machine, c: char, a: char, b: char)
    requires Running(u) && !SameGuess(u.p, c, a, b)
    ensures Step(u, c, b).p.errno != OK ==> Step(u, c, a) == Step(u, c, b)
    ensures Step(u, c, b).p.errno == OK ==>
      var n := Step(u, c, a); var g := if b == 'U' then PUT else POST;
      && Step(u, c, b) == As(n, g) && !Stopped(n) && n.p.state.ReqMethod? && n.p.index == 1 && n.loop.Outside?
      && n.p.info.meth == if a == 'U' then PUT else POST
  {
    hide Inv, HeldFits, Transition, Extend, Deliver;
    var p := Count(u.p, u.loop);
    LoopStates(u);
    if p.errno == OK {
      FirstIsP(p, a, b);
      DeliverIgnores(u.d, Transition(p, Outside, c, a), if b == 'U' then PUT else POST, c);
    }
  }

  lemma FirstIsP(p: Parser, a: char, b: char)
    requires Guesses(p.state)
    ensures var o := Transition(p, Outside, 'P', a); var g := if b == 'U' then PUT else POST;
      && o.p.state.ReqMethod? && o.p.index == 1 && o.p.errno == p.errno && !o.exit && o.loop.Outside?
      && o.p.info.meth == (if a == 'U' then PUT else POST)
      && Transition(p, Outside, 'P', b) == o.(p := o.p.(info := o.p.info.(meth := g)))
  {
    hide Inv, UrlChar;
  }

  lemma DeliverIgnores(d: Delivery, o: Out, m: Method, c: char)
    ensures Deliver(d, o.(p := o.p.(info := o.p.info.(meth := m))), c) == Deliver(d, o, c)
  {
  }

  /** With POST guessed the parser goes on with c, with PUT it refuses c. */
  predicate OnlyPost(c: char) { c == 'O' || c == 'A' || c == 'R' }

  /** A byte on which PUT and POST come to the same. */
  lemma PutOrPost(u: Machine, g: Method, c: char, a: char)
    requires Running(u) && u.p.state.ReqMethod? && u.p.index == 1 && u.loop.Outside? && !OnlyPost(c)
    requires (u.p.info.meth.PUT? && g.POST?) || (u.p.info.meth.POST? && g.PUT?)
    ensures var x, y := Step(As(u, g), c, a), Step(u, c, a);
      || x == y
      || (x.p.errno == y.p.errno != OK && x.d == y.d && x.consumed == y.consumed && x.exited == y.exited)
  {
    hide Inv, HeldFits, AtReqMethod, Transition, Extend, CloseSlice;
    if Count(u.p, u.loop).errno == OK { PutIsPost(Count(u.p, u.loop), g, c, a); }
  }

  lemma PutIsPost(p: Parser, g: Method, c: char, a: char)
    requires p.state.ReqMethod? && p.index == 1 && !OnlyPost(c)
    requires (p.info.meth.PUT? && g.POST?) || (p.info.meth.POST? && g.PUT?)
    ensures var x, y := Transition(p.(info := p.info.(meth := g)), Outside, c, a), Transition(p, Outside, c, a);
      x == y || (x == y.(p := y.p.(info := x.p.info)) && x.p.errno == InvalidMethod)
  {
    hide Inv;
  }

  /** A guess is resolved by the next byte. */
  lemma GuessResolved(u: Machine, v: Machine, base: nat, g: Method, e: nat, c: char, a: char, b: char)
    requires Guessed(u, v, base, g) && u.consumed < MAX_CALL && Ahead(u, v, e) && !OnlyPost(c)
    ensures if Spoils(u, e, true, c) then Parted(Step(u, c, a), Step(v, c, b), base)
            else Together(Step(u, c, a), Step(v, c, b), base, e)
  {
    hide Inv, HeldFits, Visible, Step, Spoils;
    LoopStates(As(u, g));
    SimStep(As(u, g), v, base, e, c, a, b);
    SpoilsAs(u, g, e, c);
    AsGood(u, g);
    PutOrPost(u, g, c, a);
    StepKeepsGood(u, c, a);
  }

  /** PUT was guessed for a POST, and the byte says so. */
  lemma GuessFails(u: Machine, v: Machine, base: nat, e: nat, c: char, a: char, b: char)
    requires Guessed(u, v, base, PUT) && u.consumed < MAX_CALL && Ahead(u, v, e) && OnlyPost(c)
    ensures if Spoils(u, e, true, c) || u.p.nread + 1 <= MAX_HEADER_SIZE then Parted(Step(u, c, a), Step(v, c, b), base)
            else Together(Step(u, c, a), Step(v, c, b), base, e)
  {
    hide Inv, HeldFits, Visible, Step, Spoils;
    LoopStates(As(u, PUT));
    SimStep(As(u, PUT), v, base, e, c, a, b);
    SpoilsAs(u, PUT, e, c);
    AsGood(u, PUT);
    StepKeepsGood(u, c, a);
    PostTakes(u, c, a);
    PutRefuses(v, c, b);
    OutsideSpoils(u, e, c);
  }

  lemma PostTakes(u: Machine, c: char, a: char)
    requires Running(u) && u.p.state.ReqMethod? && u.p.index == 1 && u.loop.Outside? && u.p.info.meth.POST? && OnlyPost(c)
    ensures var n := Step(u, c, a);
      if u.p.nread + 1 <= MAX_HEADER_SIZE then n.p.errno == OK && n.consumed == u.consumed + 1
      else n == u.(p := u.p.(nread := u.p.nread + 1, errno := HeaderOverflow))
  {
    hide Inv, HeldFits, Deliver, Extend;
  }

  lemma PutRefuses(v: Machine, c: char, b: char)
    requires Running(v) && v.p.state.ReqMethod? && v.p.index == 1 && v.loop.Outside? && v.p.info.meth.PUT? && OnlyPost(c)
    ensures var n := Step(v, c, b);
      if v.p.nread + 1 <= MAX_HEADER_SIZE then n.p.errno == InvalidMethod && n.consumed == v.consumed
      else n == v.(p := v.p.(nread := v.p.nread + 1, errno := HeaderOverflow))
  {
    hide Inv, HeldFits, Deliver, Extend;
  }

  lemma OutsideSpoils(u: Machine, e: nat, c: char)
    requires u.p.state.ReqMethod? && u.loop.Outside?
    ensures Spoils(u, e, true, c) <==> u.p.nread + 1 <= MAX_HEADER_SIZE < u.p.nread + e + 1
  {
  }

  lemma SpoilsAs(u: Machine, g: Method, e: nat, c: char)
    ensures Spoils(As(u, g), e, true, c) <==> Spoils(u, e, true, c)
  {
  }

  lemma AsGood(u: Machine, g: Method)
    requires Good(As(u, g))
    ensures Good(u)
  {
  }

  // ---- a byte of the stream --------------------------------------------------------------------------

  /** At a boundary, before the byte c. `fooled`: at the cut here the cut run guessed PUT, and no 'U' follows. */
  predicate Meet(u: Machine, v: Machine, base: nat, c: char, fooled: bool) {
    if fooled then Guessed(u, v, base, PUT) && c != 'U' else Sim(u, v, base) || (Guessed(u, v, base, POST) && c == 'U')
  }

  /** Behind a byte; `guess`: the byte was the first of a method, and the cut run guessed g, the other one not. */
  predicate MeetAgain(u: Machine, v: Machine, base: nat, e: nat, guess: bool, g: Method) {
    if guess && !Stopped(u) then Guessed(u, v, base, g) && Ahead(u, v, Kept(u, e)) else Together(u, v, base, e)
  }

  /** A cut makes a difference on byte c: as Spoils says, or PUT was guessed for what goes on as POST. */
  predicate Ruins(u: Machine, e: nat, outside: bool, c: char, fooled: bool) {
    Spoils(u, e, outside, c) || (fooled && OnlyPost(c) && u.p.nread + 1 <= MAX_HEADER_SIZE)
  }

  lemma MeetStep(u: Machine, v: Machine, base: nat, e: nat, c: char, a: char, b: char, fooled: bool)
    requires Meet(u, v, base, c, fooled) && !Stopped(u) && u.consumed < MAX_CALL && Ahead(u, v, e)
    ensures var w := Step(v, c, b); var n := Step(u, c, a);
      if Ruins(u, e, v.loop.Outside?, c, fooled) then Parted(n, w, base)
      else MeetAgain(n, w, base, e, !SameGuess(u.p, c, a, b), if b == 'U' then PUT else POST)
  {
    hide Step, Inv, Visible, HeldFits, Spoils;
    if fooled {
      if OnlyPost(c) { GuessFails(u, v, base, e, c, a, b); } else { GuessResolved(u, v, base, PUT, e, c, a, b); }
    } else if !Sim(u, v, base) {
      GuessResolved(u, v, base, POST, e, c, a, b);
    } else if SameGuess(u.p, c, a, b) {
      SimStep(u, v, base, e, c, a, b);
    } else {
      SimStep(u, v, base, e, c, b, b);
      GuessMade(u, c, a, b);
    }
  }

  lemma TightIsMeet(u: Machine, v: Machine, base: nat, c: char)
    requires Tight(u, v, base)
    ensures Meet(u, v, base, c, false)
  {
  }

  // ---- the stream ---------------------------------------------------------------------------------

  /** The buffer of one call and the byte that memory holds behind it. */
  datatype Piece = Piece(data: string, past: char)

  function Whole(ps: seq<Piece>): string {
    if ps == [] then "" else Whole(ps[..|ps| - 1]) + ps[|ps| - 1].data
  }

  /** One call per piece, until the parser fails or hands the connection over. */
  function Calls(p: Parser, log: seq<Event>, ps: seq<Piece>): Machine {
    if ps == [] then Machine(p, Outside, Delivery(log, map[]), 0, false) else
    var m := Calls(p, log, ps[..|ps| - 1]);
    if Stopped(m) then m else
    var c := Call(m.p, m.d.log, ps[|ps| - 1].data, ps[|ps| - 1].past);
    c.(consumed := m.consumed + c.consumed)
  }

  /** One more call, unless the run is over. */
  function OneMore(m: Machine, piece: Piece): Machine {
    var c := Call(m.p, m.d.log, piece.data, piece.past);
    if Stopped(m) then m else c.(consumed := m.consumed + c.consumed)
  }

  lemma FeedConsumed(s: Machine, w: string, n: nat, past: char)
    requires n <= |w|
    ensures Feed(s, w, n, past).consumed <= s.consumed + n
  {
    hide Transition;
    if n > 0 { FeedConsumed(s, w, n - 1, past); }
  }

  lemma RunningConsumed(s: Machine, w: string, n: nat, past: char)
    requires n <= |w| && !Stopped(Feed(s, w, n, past))
    ensures Feed(s, w, n, past).consumed == s.consumed + n
  {
    hide Transition;
    if n > 0 { RunningConsumed(s, w, n - 1, past); }
  }

  /** The cut run m after a call, next to the uncut run as it would end here. */
  predicate Ended(u: Machine, m: Machine) {
    var e := End(u);
    && e.p.errno == OK && m.p == e.p.(nread := m.p.nread) && e.p.nread <= m.p.nread
    && e.d.log == m.d.log && e.consumed == m.consumed && e.exited == m.exited
  }

  /** A call ends and the next one starts. */
  lemma Restart(u: Machine, n: Machine, base: nat)
    requires Tight(u, n, base) && !Stopped(n) && End(n).p.errno == OK && n.p.nread + 1 < TWO_TO_32
    ensures var e := End(n); Sim(u, Start(e.p, e.d.log), base + n.consumed)
    ensures Ended(u, End(n).(consumed := base + n.consumed))
    ensures !Stopped(End(n)) && End(n).consumed == n.consumed && Visible(u.d) == End(n).d.log
  {
    hide Leftover, Emit;
    var e := End(n);
    var v := Start(e.p, e.d.log);
    VisibleOf(n.d, n.p.state);
    VisibleOf(v.d, v.p.state);
    if EntryMark(n.p.state).Some? {
      var k := EntryMark(n.p.state).value;
      EmitTwice(n.d.log, k, n.d.held[k], "");
      assert n.d.held[k] + "" == n.d.held[k];
    }
  }

  lemma RestartGuessed(u: Machine, n: Machine, base: nat, g: Method)
    requires Guessed(u, n, base, g)
    ensures var e := End(n); !Stopped(e) && e.consumed == n.consumed && Guessed(u, Start(e.p, e.d.log), base + n.consumed, g)
  {
    hide Leftover, Emit, Inv;
    assert Tight(As(u, g), n, base);
    Restart(As(u, g), n, base);
  }

  /** Pieces as an application feeds them: a call without a byte would mean the end of the stream. */
  predicate Fed(ps: seq<Piece>) { ps != [] && forall i :: 0 <= i < |ps| ==> ps[i].data != "" }

  lemma WholeAt(ps: seq<Piece>, k: nat)
    requires k < |ps|
    ensures var b := |Whole(ps[..k])|; b + |ps[k].data| == |Whole(ps[..k + 1])| <= |Whole(ps)|
    ensures var b := |Whole(ps[..k])|; Whole(ps)[b..b + |ps[k].data|] == ps[k].data
    decreases |ps|
  {
    assert ps[..k + 1][..k] == ps[..k];
    if k < |ps| - 1 {
      var qs := ps[..|ps| - 1];
      WholeAt(qs, k);
      assert qs[..k] == ps[..k] && qs[..k + 1] == ps[..k + 1];
    } else {
      assert ps[..k + 1] == ps;
    }
  }

  // ---- which bytes a cut spoils -----------------------------------------------------------------------

  /** A stream as one call reads it, the places where it is to be cut, and those of them at which memory
      holds a 'U' behind the piece. */
  datatype Stream = Stream(start: Machine, data: string, past: char, cuts: set<nat>, uCuts: set<nat>)

  /** The run of one call, up to byte i. */
  function Uncut(x: Stream, i: nat): Machine
    requires i <= |x.data|
  {
    Feed(x.start, x.data, i, x.past)
  }

  /** How far the nread of the cut run is ahead at byte i: one for every cut so far, i included, inside a
      name or value of the header section that is being counted. */
  function Extra(x: Stream, i: nat): nat
    requires i <= |x.data|
  {
    if i == 0 then 0
    else Kept(Uncut(x, i), Extra(x, i - 1)) + if i in x.cuts && !Uncut(x, i).loop.Outside? then 1 else 0
  }

  /** The cut at byte i is behind the 'P' that begins a method, and the 'U' in memory is not the byte that follows. */
  predicate Fooled(x: Stream, i: nat)
    requires i <= |x.data|
  {
    && 0 < i < |x.data| && i in x.uCuts && x.data[i] != 'U'
    && Guesses(Uncut(x, i - 1).p.state) && x.data[i - 1] == 'P' && !Stopped(Uncut(x, i))
  }

  /** The cuts make a difference on byte i, or at the end: there the count of an unfinished name or value
      is checked. */
  predicate SpoiledAt(x: Stream, i: nat)
    requires i <= |x.data|
  {
    var u, e := Uncut(x, i), Extra(x, i);
    && !Stopped(u)
    && if i < |x.data| then Ruins(u, e, u.loop.Outside? || i in x.cuts, x.data[i], Fooled(x, i))
       else !u.loop.Outside? && u.p.nread + 1 <= MAX_HEADER_SIZE < u.p.nread + e + 1
  }

  ghost predicate Spoiled(x: Stream, lo: nat, hi: nat)
    requires hi <= |x.data| + 1
  {
    exists i :: lo <= i < hi && SpoiledAt(x, i)
  }

  lemma SpoiledNext(x: Stream, lo: nat, hi: nat)
    requires lo <= hi <= |x.data|
    ensures Spoiled(x, lo, hi + 1) <==> Spoiled(x, lo, hi) || SpoiledAt(x, hi)
  {
    hide SpoiledAt;
  }

  lemma SpoiledJoin(x: Stream, lo: nat, mid: nat, hi: nat)
    requires lo <= mid <= hi <= |x.data| + 1
    ensures Spoiled(x, lo, hi) <==> Spoiled(x, lo, mid) || Spoiled(x, mid, hi)
  {
    hide SpoiledAt;
  }

  /** A run that is over is not spoiled any more. */
  lemma NotSpoiledAfter(x: Stream, b: nat)
    requires b <= |x.data| && Stopped(Uncut(x, b))
    ensures !Spoiled(x, b, |x.data| + 1) && Uncut(x, |x.data|) == Uncut(x, b)
  {
    hide Step, Ruins, Extra, Fooled;
    forall i | b <= i <= |x.data| ensures !SpoiledAt(x, i) { StoppedStays(x.start, x.data, b, i, x.past); }
    StoppedStays(x.start, x.data, b, |x.data|, x.past);
  }

  lemma PartedFeed(x: Stream, i: nat, j: nat, v: Machine, base: nat)
    requires i <= j <= |x.data| && Parted(Uncut(x, i), v, base)
    ensures Parted(Uncut(x, j), v, base)
  {
    hide Step, Parted;
    if i < j {
      PartedFeed(x, i, j - 1, v, base);
      PartedStays(Uncut(x, j - 1), v, base, x.data[j - 1], After(x.data, j - 1, x.past));
    }
  }

  // ---- a piece -------------------------------------------------------------------------------------------

  /** After j bytes of the piece at `base` that no cut has spoiled. */
  predicate InPiece(x: Stream, u: Machine, n: Machine, base: nat, j: nat, end: bool)
    requires 0 < j && base + j <= |x.data|
  {
    && (if Fooled(x, base + j) then end && Guessed(u, n, base, PUT)
        else Tight(u, n, base) || (end && Guessed(u, n, base, POST) && base + j < |x.data| && x.data[base + j] == 'U'))
    && (!Stopped(u) ==> Ahead(u, n, Kept(u, Extra(x, base + j - 1))))
  }

  /** A stream as a call takes it. */
  ghost predicate Proper(x: Stream) {
    Running(x.start) && x.start.consumed == 0 && x.start.loop.Outside? && |x.data| <= MAX_CALL
  }

  lemma UncutGood(x: Stream, i: nat)
    requires Proper(x) && i <= |x.data|
    ensures Good(Uncut(x, i)) && Uncut(x, i).consumed <= i && Uncut(x, i).p.nread <= MAX_HEADER_SIZE + i
  {
    hide Step, Inv, HeldFits;
    StartFits(x.start);
    FeedWithin(x.start, x.data, i, x.past);
    FeedConsumed(x.start, x.data, i, x.past);
    if i > 0 {
      UncutGood(x, i - 1);
      StepKeepsGood(Uncut(x, i - 1), x.data[i - 1], After(x.data, i - 1, x.past));
    }
  }

  lemma CallSize(x: Stream)
    requires Proper(x)
    ensures |x.data| <= MAX_CALL
  {
  }

  lemma StartFits(m: Machine)
    requires Running(m) && m.loop.Outside?
    ensures m.p.nread <= MAX_HEADER_SIZE
  {
  }

  /** Inside a name or value nread is not 0. */
  lemma UncutCounts(x: Stream, i: nat)
    requires Proper(x) && i <= |x.data| && !Stopped(Uncut(x, i)) && !Uncut(x, i).loop.Outside?
    ensures Uncut(x, i).p.nread > 0
  {
    hide Step, Inv, HeldFits, Proper;
    if i == 0 {
      StartIsOutside(x);
    } else {
      UncutGood(x, i - 1);
      CallSize(x);
      StepCountsInside(Uncut(x, i - 1), x.data[i - 1], After(x.data, i - 1, x.past));
    }
  }

  lemma StartIsOutside(x: Stream)
    requires Proper(x)
    ensures Uncut(x, 0).loop.Outside?
  {
  }

  lemma StepCountsInside(m: Machine, c: char, next: char)
    requires Good(m) && m.p.nread + 1 < TWO_TO_32
    ensures var n := Step(m, c, next); !Stopped(n) && !n.loop.Outside? ==> n.p.nread > 0
  {
    hide Inv, HeldFits, Transition, IsToken, ValueByte, IsBreak, Tidy, Deliver, Extend;
    if !Stopped(m) && (m.loop.Outside? ==> Count(m.p, m.loop).errno == OK) {
      if m.p.state == Head(HeaderField) {
        if IsToken(c) { TokenStep(m, c, next); } else { FieldEndStep(m, c, next); }
      } else if m.p.state == Head(HeaderValue) {
        if IsBreak(c) {
          BreakStep(m, c, next);
        } else {
          ValueStep(m, c, next);
          ValueKeepsNread(m, c);
        }
      } else {
        LoopStates(m);
        StaysOutside(m, c, next);
      }
    }
  }

  lemma ValueKeepsNread(m: Machine, c: char)
    requires !Stopped(m)
    ensures var n := Apply(m, ValueByte(m.p.(nread := m.p.nread + 1), m.loop, c), c); n.p.nread == m.p.nread + 1
  {
    hide ValueChar, Deliver, Extend, IsHeaderChar;
    ValueCharShape(m.p.(nread := m.p.nread + 1), c);
  }

  lemma StaysOutside(m: Machine, c: char, next: char)
    requires Running(m) && m.loop.Outside? && !InHeaderLoop(m.p.state) && Count(m.p, m.loop).errno == OK
    ensures var n := Step(m, c, next); !Stopped(n) ==> n.loop.Outside?
  {
    hide Inv, HeldFits, Transition, Deliver, Extend;
    var p := Count(m.p, m.loop);
    CountedInv(m);
    TransitionTidy(p, Outside, c, next);
    if Transition(p, Outside, c, next).p.errno == OK { OutsideIfTidy(p.state, Transition(p, Outside, c, next)); }
  }

  lemma OutsideIfTidy(s: State, o: Out)
    requires Tidy(s, o) && !InHeaderLoop(s)
    ensures o.loop.Outside?
  {
  }

  /** The piece d of the stream, and the byte that memory holds behind it. */
  ghost predicate PieceOf(x: Stream, base: nat, d: string, behind: char) {
    && d != "" && base + |d| <= |x.data| && x.data[base..base + |d|] == d && Proper(x)
    && (if base + |d| == |x.data| then behind == x.past else behind == 'U' <==> base + |d| in x.uCuts)
    && (forall i :: base < i < base + |d| ==> i !in x.cuts && i !in x.uCuts)
  }

  /** A call that is about to read the piece. */
  predicate AtPiece(x: Stream, base: nat, v: Machine, c: char)
    requires base <= |x.data|
  {
    var u := Uncut(x, base);
    Meet(u, v, base, c, Fooled(x, base)) && !Stopped(v) && v.loop.Outside? && Ahead(u, v, Extra(x, base)) && (base in x.cuts || u.loop.Outside?)
  }

  lemma {:induction false} PieceRuns(x: Stream, base: nat, v: Machine, d: string, behind: char, j: nat)
    requires PieceOf(x, base, d, behind) && AtPiece(x, base, v, d[0]) && 0 < j <= |d|
    ensures var u, n := Uncut(x, base + j), Feed(v, d, j, behind);
      if Spoiled(x, base, base + j) then Parted(u, n, base) else InPiece(x, u, n, base, j, j == |d|)
  {
    hide Step, Extra, Spoiled, SpoiledAt, InPiece, Parted, Inv, Sim, Guessed, Stopped, Fooled;
    var i := base + (j - 1);
    SpoiledNext(x, base, i);
    if j == 1 {
      FirstByte(x, base, v, d, behind);
    } else {
      PieceRuns(x, base, v, d, behind, j - 1);
      if Spoiled(x, base, i) {
        PartedByte(x, base, v, d, behind, j);
      } else {
        NextByte(x, base, v, d, behind, j);
      }
    }
  }

  lemma PieceSize(x: Stream, base: nat, d: string, behind: char)
    requires PieceOf(x, base, d, behind)
    ensures base + |d| <= |x.data|
  {
    hide Proper, Uncut;
  }

  lemma PartedByte(x: Stream, base: nat, v: Machine, d: string, behind: char, j: nat)
    requires PieceOf(x, base, d, behind) && 1 < j <= |d|
    requires Parted(Uncut(x, base + j - 1), Feed(v, d, j - 1, behind), base)
    ensures Parted(Uncut(x, base + j), Feed(v, d, j, behind), base)
  {
    hide *;
    PieceSize(x, base, d, behind);
    PartedIsOver(Uncut(x, base + j - 1), Feed(v, d, j - 1, behind), base);
    PartedFeed(x, base + j - 1, base + j, Feed(v, d, j - 1, behind), base);
    StoppedStays(v, d, j - 1, j, behind);
  }

  lemma FirstByte(x: Stream, base: nat, v: Machine, d: string, behind: char)
    requires PieceOf(x, base, d, behind) && AtPiece(x, base, v, d[0])
    ensures var u, n := Uncut(x, base + 1), Feed(v, d, 1, behind);
      if SpoiledAt(x, base) then Parted(u, n, base) else InPiece(x, u, n, base, 1, 1 == |d|)
    ensures !Spoiled(x, base, base)
  {
    hide Step, Inv, Visible, Ruins, Extra, Parted, MeetAgain, Guessed, Fooled;
    var u, e := Uncut(x, base), Extra(x, base);
    assert Feed(v, d, 0, behind) == v && d[0] == x.data[base];
    MeetRuns(u, v, base, d[0], Fooled(x, base));
    FeedConsumed(x.start, x.data, base, x.past);
    MeetStep(u, v, base, e, d[0], After(x.data, base, x.past), After(d, 0, behind), Fooled(x, base));
    if !SpoiledAt(x, base) { MetAgain(x, Uncut(x, base + 1), Feed(v, d, 1, behind), base, d, behind, 1); }
  }

  lemma NextByte(x: Stream, base: nat, v: Machine, d: string, behind: char, j: nat)
    requires PieceOf(x, base, d, behind) && 1 < j <= |d|
    requires InPiece(x, Uncut(x, base + j - 1), Feed(v, d, j - 1, behind), base, j - 1, false)
    ensures var u, n := Uncut(x, base + j), Feed(v, d, j, behind);
      if SpoiledAt(x, base + j - 1) then Parted(u, n, base) else InPiece(x, u, n, base, j, j == |d|)
  {
    hide Step, Inv, Visible, Ruins, Parted, MeetAgain, Guessed, Sim, Fooled, Tight;
    var i, n := base + j - 1, Feed(v, d, j - 1, behind);
    var u, e := Uncut(x, i), Extra(x, i);
    assert d[j - 1] == x.data[i];
    TightRuns(u, n, base);
    if Stopped(u) {
      StoppedStays(x.start, x.data, i, i + 1, x.past);
      StoppedStays(v, d, j - 1, j, behind);
      StoppedNotFooled(x, i + 1);
    } else {
      TightIsMeet(u, n, base, d[j - 1]);
      FeedConsumed(x.start, x.data, i, x.past);
      MeetStep(u, n, base, e, d[j - 1], After(x.data, i, x.past), After(d, j - 1, behind), false);
      if !SpoiledAt(x, i) { MetAgain(x, Uncut(x, base + j), Feed(v, d, j, behind), base, d, behind, j); }
    }
  }

  lemma StoppedNotFooled(x: Stream, i: nat)
    requires i <= |x.data| && Stopped(Uncut(x, i))
    ensures !Fooled(x, i)
  {
  }

  lemma FooledByte(x: Stream, i: nat)
    requires i < |x.data|
    ensures Fooled(x, i) ==> x.data[i] != 'U'
  {
  }

  lemma MeetRuns(u: Machine, v: Machine, base: nat, c: char, fooled: bool)
    requires Meet(u, v, base, c, fooled)
    ensures Stopped(u) <==> Stopped(v)
  {
    hide Visible, Good;
  }

  lemma TightRuns(u: Machine, v: Machine, base: nat)
    requires Tight(u, v, base)
    ensures Stopped(u) <==> Stopped(v)
    ensures !Stopped(u) ==> u.loop == v.loop
  {
    hide Visible, Good;
  }

  /** The byte behind byte j of a piece, in the stream and in memory. */
  lemma ByteBehind(x: Stream, base: nat, d: string, behind: char, j: nat)
    requires PieceOf(x, base, d, behind) && j < |d|
    ensures var a, b := After(x.data, base + j, x.past), After(d, j, behind);
      if j + 1 == |d| && base + |d| < |x.data| then a == x.data[base + |d|] && (b == 'U' <==> base + |d| in x.uCuts)
      else a == b && (base + j + 1 < |x.data| ==> base + j + 1 !in x.uCuts)
  {
    hide Uncut, Proper;
    if j + 1 < |d| { assert x.data[base + j + 1] == d[j + 1]; }
  }

  lemma MetAgain(x: Stream, u: Machine, n: Machine, base: nat, d: string, behind: char, j: nat)
    requires PieceOf(x, base, d, behind) && 0 < j <= |d| && u == Uncut(x, base + j)
    requires var a, b := After(x.data, base + j - 1, x.past), After(d, j - 1, behind);
      MeetAgain(u, n, base, Extra(x, base + j - 1), !SameGuess(Uncut(x, base + j - 1).p, x.data[base + j - 1], a, b),
                if b == 'U' then PUT else POST)
    ensures InPiece(x, u, n, base, j, j == |d|)
  {
    hide Uncut, Extra, Guessed, Sim, Kept, Guesses;
    ByteBehind(x, base, d, behind, j - 1);
  }

  // ---- a call ------------------------------------------------------------------------------------------------

  /** Two runs that ended alike: the error, the number of bytes consumed, the fields up to
      nread, and everything delivered or (after an error) still held back. */
  predicate SameEnd(u: Machine, m: Machine) {
    && u.p.errno == m.p.errno && u.exited == m.exited && u.consumed == m.consumed
    && (u.p.errno == OK ==>
          m.p == u.p.(nread := m.p.nread) && u.p.nread <= m.p.nread && u.d.log == m.d.log)
    && (u.p.errno != OK ==> Visible(u.d) == Visible(m.d))
  }

  /** The cut run m is over: it has parted from the uncut one exactly if a byte was spoiled. */
  ghost predicate Settled(x: Stream, m: Machine) {
    var u := Uncut(x, |x.data|);
    Stopped(m) && if Spoiled(x, 0, |x.data| + 1) then Parted(u, m, 0) else Stopped(u) && SameEnd(u, m)
  }

  /** The cut run m is at a cut, and nothing has been spoiled. */
  ghost predicate InStep(x: Stream, m: Machine, b: nat)
    requires b <= |x.data|
  {
    && !Stopped(m) && m.consumed == b && !Spoiled(x, 0, b) && b < |x.data|
    && AtPiece(x, b, Start(m.p, m.d.log), x.data[b])
  }

  lemma MovedParted(u: Machine, n: Machine, base: nat)
    requires Parted(u, n, base)
    ensures Parted(u, n.(consumed := base + n.consumed), 0)
  {
  }

  /** The piece was spoiled. */
  lemma SpoiledPiece(x: Stream, base: nat, b: nat, n: Machine)
    requires base <= b <= |x.data| && Spoiled(x, base, b) && Parted(Uncut(x, b), n, base)
    ensures Settled(x, n.(consumed := base + n.consumed))
  {
    hide Uncut, Spoiled, Parted, SameEnd;
    SpoiledJoin(x, base, b, |x.data| + 1);
    SpoiledJoin(x, 0, base, |x.data| + 1);
    PartedFeed(x, b, |x.data|, n, base);
    MovedParted(Uncut(x, |x.data|), n, base);
    PartedIsOver(Uncut(x, |x.data|), n, base);
  }

  lemma PartedIsOver(u: Machine, n: Machine, base: nat)
    requires Parted(u, n, base)
    ensures Stopped(n)
  {
  }

  /** Both runs ended in the piece. */
  lemma OverInPiece(x: Stream, base: nat, b: nat, n: Machine)
    requires b <= |x.data| && !Spoiled(x, 0, b) && Sim(Uncut(x, b), n, base) && Stopped(n)
    ensures Settled(x, n.(consumed := base + n.consumed))
  {
    var u := Uncut(x, b);
    SimFacts(u, n, base);
    hide Uncut, Spoiled, Parted, Sim;
    NotSpoiledAfter(x, b);
    SpoiledJoin(x, 0, b, |x.data| + 1);
  }

  lemma SimFacts(u: Machine, v: Machine, base: nat)
    requires Sim(u, v, base)
    ensures u.p.errno == v.p.errno && u.exited == v.exited && u.consumed == base + v.consumed
    ensures Visible(u.d) == Visible(v.d)
    ensures v.p.errno == OK ==> v.p == u.p.(nread := v.p.nread) && u.p.nread <= v.p.nread <= MAX_HEADER_SIZE + u.consumed
    ensures u.exited ==> u.d.log == v.d.log
  {
    hide Leftover, Emit;
    if u.exited {
      VisibleOf(u.d, Dead);
      VisibleOf(v.d, Dead);
    }
  }

  /** A name or value that is cut off ends the call, if its count is over the budget. */
  lemma OverAtCut(x: Stream, base: nat, b: nat, n: Machine)
    requires 0 < b < |x.data| && b in x.cuts && !Spoiled(x, 0, b) && Proper(x)
    requires Tight(Uncut(x, b), n, base) && !Stopped(n) && base + n.consumed == b
    requires Ahead(Uncut(x, b), n, Kept(Uncut(x, b), Extra(x, b - 1)))
    requires End(n).p.errno != OK && !Fooled(x, b)
    ensures Settled(x, End(n).(consumed := base + n.consumed))
  {
    hide Inv, HeldFits, Visible, Step, Spoils, IsToken, IsBreak, Feed, Uncut, Leftover, Fooled;
    UncutGood(x, b);
    var u, m, c := Uncut(x, b), End(n).(consumed := base + n.consumed), x.data[b];
    var w := Step(u, c, After(x.data, b, x.past));
    UncutStep(x, b);
    SpoiledNext(x, 0, b);
    OverflowExactly(u, c, After(x.data, b, x.past));
    OverIsSpoiled(u, Extra(x, b), c);
    if SpoiledAt(x, b) {
      StepCounts(u, c, After(x.data, b, x.past));
      SpoiledPiece(x, 0, b + 1, m);
    } else {
      OverflowShows(u, c, After(x.data, b, x.past));
      SettledBySame(x, b + 1, m);
    }
  }

  lemma UncutStep(x: Stream, b: nat)
    requires b < |x.data|
    ensures Uncut(x, b + 1) == Step(Uncut(x, b), x.data[b], After(x.data, b, x.past))
  {
    hide Step;
  }

  lemma OverIsSpoiled(u: Machine, e: nat, c: char)
    requires InHeaderLoop(u.p.state) && u.p.nread + e + 1 > MAX_HEADER_SIZE
    ensures !Spoils(u, e, true, c) ==> Checks(u.p.state, u.loop.Outside?, c) && u.p.nread + 1 > MAX_HEADER_SIZE
    ensures Overdraws(u, e, true, c) ==> Spoils(u, e, true, c)
    ensures Spoils(u, e, true, c) && !Overdraws(u, e, true, c) ==> !IsBreak(c) && u.loop.Scanning?
  {
    hide IsToken, IsBreak, IsHeaderChar;
  }

  lemma SettledBySame(x: Stream, b: nat, m: Machine)
    requires b <= |x.data| && !Spoiled(x, 0, b) && Stopped(Uncut(x, b)) && Stopped(m) && SameEnd(Uncut(x, b), m)
    ensures Settled(x, m)
  {
    hide Uncut, Spoiled, Parted, SameEnd;
    NotSpoiledAfter(x, b);
    SpoiledJoin(x, 0, b, |x.data| + 1);
  }

  /** A call ends at a cut and the next one starts. */
  lemma OnAtCut(x: Stream, base: nat, b: nat, n: Machine)
    requires base < b < |x.data| && b in x.cuts && !Spoiled(x, 0, b) && Proper(x)
    requires InPiece(x, Uncut(x, b), n, base, b - base, true) && !Stopped(n) && base + n.consumed == b
    requires End(n).p.errno == OK
    ensures InStep(x, End(n).(consumed := base + n.consumed), b)
  {
    hide Inv, HeldFits, Visible, Step, Ruins, Feed, Uncut, Leftover, Emit, Guessed, Sim, Spoiled, Proper, Fooled;
    var u, m := Uncut(x, b), End(n);
    UncutGood(x, b);
    if !Stopped(u) && !u.loop.Outside? { UncutCounts(x, b); }
    CallSize(x);
    if Tight(u, n, base) && !Fooled(x, b) {
      TightRuns(u, n, base);
      NreadFits(u, n, base);
      Restart(u, n, base);
      EndCounts(n);
    } else {
      var g := if Fooled(x, b) then PUT else POST;
      FooledByte(x, b);
      GuessedNotStopped(u, n, base, g);
      RestartGuessed(u, n, base, g);
      EndCounts(n);
    }
  }

  lemma NreadFits(u: Machine, n: Machine, base: nat)
    requires Tight(u, n, base) && !Stopped(n) && u.consumed <= MAX_CALL
    ensures n.p.nread + 1 < TWO_TO_32 && u.consumed == base + n.consumed
  {
    hide Visible, Good;
  }

  lemma GuessedNotStopped(u: Machine, n: Machine, base: nat, g: Method)
    requires Guessed(u, n, base, g)
    ensures !Stopped(u) && u.loop.Outside? && n.loop.Outside? && u.p.state.ReqMethod?
  {
    hide Visible, Inv, HeldFits;
  }

  lemma EndCounts(n: Machine)
    requires !Stopped(n) && End(n).p.errno == OK && (n.loop.Outside? || n.p.nread + 1 < TWO_TO_32)
    ensures End(n).p == n.p.(nread := n.p.nread + if n.loop.Outside? then 0 else 1) && !End(n).exited
  {
    hide Leftover;
  }

  /** One more call, up to the next cut. */
  lemma OneCall(x: Stream, base: nat, m: Machine, d: string, behind: char)
    requires PieceOf(x, base, d, behind) && InStep(x, m, base) && base + |d| < |x.data| && base + |d| in x.cuts
    ensures var c := Call(m.p, m.d.log, d, behind).(consumed := m.consumed + Call(m.p, m.d.log, d, behind).consumed);
      Settled(x, c) || InStep(x, c, base + |d|)
  {
    hide Step, Inv, Visible, Sim, Leftover, Emit, Spoiled, Feed, Uncut, Guessed, Extra, Settled, Parted, Start, Fooled;
    var v, b := Start(m.p, m.d.log), base + |d|;
    var n := Feed(v, d, |d|, behind);
    StartOf(m.p, m.d.log);
    PieceProper(x, base, d, behind);
    assert x.data[base] == d[0];
    PieceRuns(x, base, v, d, behind, |d|);
    SpoiledJoin(x, 0, base, b);
    if Spoiled(x, base, b) {
      PartedIsOver(Uncut(x, b), n, base);
      SpoiledPiece(x, base, b, n);
    } else {
      EndOfPiece(x, base, b, n);
      if Stopped(n) {
        OverInPiece(x, base, b, n);
      } else {
        RunningConsumed(v, d, |d|, behind);
        if End(n).p.errno != OK { OverAtCut(x, base, b, n); } else { OnAtCut(x, base, b, n); }
      }
    }
  }

  lemma StartOf(p: Parser, log: seq<Event>)
    ensures Start(p, log).consumed == 0
  {
  }

  lemma PieceProper(x: Stream, base: nat, d: string, behind: char)
    requires PieceOf(x, base, d, behind)
    ensures Proper(x)
  {
  }

  lemma EndOfPiece(x: Stream, base: nat, b: nat, n: Machine)
    requires base < b <= |x.data| && InPiece(x, Uncut(x, b), n, base, b - base, true)
    ensures Stopped(n) || End(n).p.errno != OK ==> Tight(Uncut(x, b), n, base) && !Fooled(x, b)
    ensures Stopped(n) ==> Sim(Uncut(x, b), n, base)
    ensures b == |x.data| ==> Tight(Uncut(x, b), n, base)
    ensures Tight(Uncut(x, b), n, base) && !Stopped(n) ==> Ahead(Uncut(x, b), n, Kept(Uncut(x, b), Extra(x, b - 1)))
  {
    hide Uncut, Extra, Kept, Visible, Good, Leftover, Guesses;
  }

  lemma PartedDiffers(u: Machine, m: Machine)
    requires Parted(u, m, 0)
    ensures !SameEnd(End(u), m)
  {
    hide Leftover, Visible;
  }

  lemma SettledIsExact(x: Stream, m: Machine)
    requires Settled(x, m)
    ensures SameEnd(End(Uncut(x, |x.data|)), m) <==> !Spoiled(x, 0, |x.data| + 1)
  {
    hide Uncut, Spoiled, Parted, SameEnd, Leftover;
    if Spoiled(x, 0, |x.data| + 1) { PartedDiffers(Uncut(x, |x.data|), m); }
  }

  /** The last call ends together with the uncut run. */
  lemma LastEnd(x: Stream, base: nat, n: Machine)
    requires 0 < |x.data| && |x.data| !in x.cuts && Proper(x)
    requires var u := Uncut(x, |x.data|);
      Tight(u, n, base) && !Stopped(n) && base + n.consumed == |x.data| && Ahead(u, n, Kept(u, Extra(x, |x.data| - 1)))
    ensures SameEnd(End(Uncut(x, |x.data|)), End(n).(consumed := base + End(n).consumed)) <==> !SpoiledAt(x, |x.data|)
  {
    hide Inv, HeldFits, Visible, Step, Feed, Uncut, Leftover, Proper;
    var u := Uncut(x, |x.data|);
    UncutGood(x, |x.data|);
    CallSize(x);
    TightRuns(u, n, base);
    NreadFits(u, n, base);
    if End(n).p.errno == OK {
      Restart(u, n, base);
      EndCounts(n);
      EndedIsSame(u, n, base);
    } else {
      EndOver(u, n, base);
    }
  }

  lemma EndedIsSame(u: Machine, n: Machine, base: nat)
    requires Ended(u, End(n).(consumed := base + n.consumed)) && End(n).consumed == n.consumed
    ensures SameEnd(End(u), End(n).(consumed := base + End(n).consumed)) && End(u).p.errno == OK
  {
    hide Leftover, Visible;
  }

  lemma EndOver(u: Machine, n: Machine, base: nat)
    requires Sim(u, n, base) && !Stopped(n) && End(n).p.errno != OK
    ensures SameEnd(End(u), End(n).(consumed := base + End(n).consumed)) <==> End(u).p.errno != OK
    ensures !n.loop.Outside?
    ensures u.p.nread + 1 < TWO_TO_32 && u.loop == n.loop ==> (End(u).p.errno != OK <==> u.p.nread + 1 > MAX_HEADER_SIZE)
    ensures n.p.nread + 1 < TWO_TO_32 ==> n.p.nread + 1 > MAX_HEADER_SIZE
  {
    hide Leftover, Visible, Good;
  }

  lemma LastCall(x: Stream, base: nat, m: Machine, d: string, behind: char)
    requires PieceOf(x, base, d, behind) && InStep(x, m, base) && base + |d| == |x.data| && |x.data| !in x.cuts
    ensures var c := Call(m.p, m.d.log, d, behind).(consumed := m.consumed + Call(m.p, m.d.log, d, behind).consumed);
      SameEnd(End(Uncut(x, |x.data|)), c) <==> !Spoiled(x, 0, |x.data| + 1)
  {
    hide Step, Inv, Visible, Sim, Leftover, Emit, Spoiled, Feed, Uncut, Guessed, Extra, Settled, Parted, Start, SameEnd, SpoiledAt, Fooled;
    var v, b := Start(m.p, m.d.log), |x.data|;
    var n := Feed(v, d, |d|, behind);
    StartOf(m.p, m.d.log);
    PieceProper(x, base, d, behind);
    assert x.data[base] == d[0];
    PieceRuns(x, base, v, d, behind, |d|);
    SpoiledJoin(x, 0, base, b);
    if Spoiled(x, base, b) {
      PartedIsOver(Uncut(x, b), n, base);
      SpoiledPiece(x, base, b, n);
      SettledIsExact(x, n.(consumed := base + n.consumed));
    } else {
      EndOfPiece(x, base, b, n);
      if Stopped(n) {
        OverInPiece(x, base, b, n);
        SettledIsExact(x, n.(consumed := base + n.consumed));
      } else {
        RunningConsumed(v, d, |d|, behind);
        LastEnd(x, base, n);
        SpoiledNext(x, 0, b);
      }
    }
  }

  // ---- the theorem ---------------------------------------------------------------------------------------------

  function FirstCuts(ps: seq<Piece>, n: nat): set<nat>
    requires n <= |ps|
  {
    set k: nat | 0 < k < n :: |Whole(ps[..k])|
  }

  /** Where the pieces are cut. */
  function Cuts(ps: seq<Piece>): set<nat> { FirstCuts(ps, |ps|) }

  /** Where they are cut and memory holds a 'U'. */
  function UCuts(ps: seq<Piece>): set<nat> { set k: nat | 0 < k < |ps| && ps[k - 1].past == 'U' :: |Whole(ps[..k])| }

  function StreamOf(p: Parser, log: seq<Event>, ps: seq<Piece>): Stream
    requires ps != []
  {
    Stream(Start(p, log), Whole(ps), ps[|ps| - 1].past, Cuts(ps), UCuts(ps))
  }

  lemma WholeMono(ps: seq<Piece>, i: nat, j: nat)
    requires i <= j <= |ps|
    ensures |Whole(ps[..i])| <= |Whole(ps[..j])| <= |Whole(ps)|
  {
    assert ps[..|ps|] == ps;
    if i < j {
      WholeMono(ps, i, j - 1);
      WholeAt(ps, j - 1);
    } else if j < |ps| {
      WholeAt(ps, j);
    }
  }

  lemma BetweenCuts(ps: seq<Piece>, k: nat, i: nat)
    requires k < |ps| && |Whole(ps[..k])| < i < |Whole(ps[..k])| + |ps[k].data|
    ensures i !in Cuts(ps) && i !in UCuts(ps)
  {
    WholeAt(ps, k);
    forall j: nat | 0 < j < |ps| ensures |Whole(ps[..j])| != i {
      if j <= k { WholeMono(ps, j, k); } else { WholeMono(ps, k + 1, j); }
    }
  }

  lemma UCutIs(ps: seq<Piece>, k: nat)
    requires Fed(ps) && 0 < k < |ps|
    ensures |Whole(ps[..k])| in UCuts(ps) <==> ps[k - 1].past == 'U'
  {
    forall j: nat | 0 < j < |ps| && j != k ensures |Whole(ps[..j])| != |Whole(ps[..k])| {
      if j < k { WholeMono(ps, j + 1, k); WholeAt(ps, j); } else { WholeMono(ps, k + 1, j); WholeAt(ps, k); }
    }
  }

  lemma EndIsNoCut(ps: seq<Piece>)
    requires Fed(ps)
    ensures |Whole(ps)| !in Cuts(ps)
  {
    forall j: nat | 0 < j < |ps| ensures |Whole(ps[..j])| != |Whole(ps)| { WholeAt(ps, j); }
  }

  lemma PieceIs(p: Parser, log: seq<Event>, ps: seq<Piece>, k: nat)
    requires p.errno == OK && Inv(p) && p.nread <= MAX_HEADER_SIZE
    requires Fed(ps) && k < |ps| && |Whole(ps)| <= MAX_CALL
    ensures PieceOf(StreamOf(p, log, ps), |Whole(ps[..k])|, ps[k].data, ps[k].past)
  {
    hide Step, Inv, Start, Feed, Cuts, UCuts, Running, Whole;
    var x, b := StreamOf(p, log, ps), |Whole(ps[..k])|;
    StartProper(p, log);
    WholeAt(ps, k);
    forall i | b < i < b + |ps[k].data| ensures i !in x.cuts && i !in x.uCuts { BetweenCuts(ps, k, i); }
    if k + 1 < |ps| {
      WholeAt(ps, k + 1);
      UCutIs(ps, k + 1);
    } else {
      assert ps[..k + 1] == ps;
    }
  }

  lemma StartProper(p: Parser, log: seq<Event>)
    requires p.errno == OK && Inv(p) && p.nread <= MAX_HEADER_SIZE
    ensures var s := Start(p, log);
      Running(s) && s.consumed == 0 && s.loop.Outside? && !Stopped(s) && Sim(s, s, 0)
  {
  }

  lemma StartInStep(p: Parser, log: seq<Event>, ps: seq<Piece>)
    requires p.errno == OK && Inv(p) && p.nread <= MAX_HEADER_SIZE
    requires Fed(ps) && |Whole(ps)| <= MAX_CALL
    ensures InStep(StreamOf(p, log, ps), Machine(p, Outside, Delivery(log, map[]), 0, false), 0)
  {
    hide Step, Inv, Cuts, UCuts, Whole, Sim, Ruins;
    StartProper(p, log);
    WholeAt(ps, 0);
  }

  lemma {:induction false} CallsSettle(p: Parser, log: seq<Event>, ps: seq<Piece>, k: nat)
    requires p.errno == OK && Inv(p) && p.nread <= MAX_HEADER_SIZE
    requires Fed(ps) && k < |ps| && |Whole(ps)| <= MAX_CALL
    ensures var m, b := Calls(p, log, ps[..k]), |Whole(ps[..k])|;
      b <= |Whole(ps)| && (Settled(StreamOf(p, log, ps), m) || InStep(StreamOf(p, log, ps), m, b))
  {
    hide Step, Inv, Fed, Whole, Call, Settled, InStep, StreamOf, PieceOf;
    if k == 0 {
      assert ps[..0] == [];
      StartInStep(p, log, ps);
      NoPiece();
    } else {
      CallsSettle(p, log, ps, k - 1);
      assert ps[..k][..k - 1] == ps[..k - 1];
      CutHere(p, log, ps, k);
      var m, b := Calls(p, log, ps[..k - 1]), |Whole(ps[..k - 1])|;
      if !Settled(StreamOf(p, log, ps), m) {
        PieceIs(p, log, ps, k - 1);
        OneCall(StreamOf(p, log, ps), b, m, ps[k - 1].data, ps[k - 1].past);
        InStepRuns(StreamOf(p, log, ps), m, b);
      } else {
        SettledIsOver(StreamOf(p, log, ps), m);
      }
    }
  }

  lemma NoPiece()
    ensures Whole([]) == ""
  {
  }

  lemma SettledIsOver(x: Stream, m: Machine)
    requires Settled(x, m)
    ensures Stopped(m)
  {
  }

  lemma InStepRuns(x: Stream, m: Machine, b: nat)
    requires b <= |x.data| && InStep(x, m, b)
    ensures !Stopped(m) && m.consumed == b
  {
  }

  lemma CutHere(p: Parser, log: seq<Event>, ps: seq<Piece>, k: nat)
    requires Fed(ps) && 0 < k < |ps|
    ensures var b := |Whole(ps[..k - 1])| + |ps[k - 1].data|;
      b == |Whole(ps[..k])| < |Whole(ps)| == |StreamOf(p, log, ps).data| && b in StreamOf(p, log, ps).cuts
  {
    hide Whole;
    WholeAt(ps, k - 1);
    WholeAt(ps, k);
    assert ps[k].data != "";
  }

  lemma FedPieces(ps: seq<Piece>)
    requires Fed(ps)
    ensures ps != [] && forall i :: 0 <= i < |ps| ==> ps[i].data != ""
  {
  }

  lemma StreamIs(p: Parser, log: seq<Event>, ps: seq<Piece>)
    requires p.errno == OK && ps != [] && ps[0].data != ""
    ensures var x := StreamOf(p, log, ps);
      && x.data == Whole(ps) && x.past == ps[|ps| - 1].past && x.cuts == Cuts(ps)
      && Call(p, log, x.data, x.past) == End(Uncut(x, |x.data|))
  {
    hide Step, Start, Whole, End;
    WholeAt(ps, 0);
  }

  lemma LastOfCalls(p: Parser, log: seq<Event>, ps: seq<Piece>)
    requires ps != []
    ensures var m, d := Calls(p, log, ps[..|ps| - 1]), ps[|ps| - 1];
      Calls(p, log, ps) == if Stopped(m) then m
        else Call(m.p, m.d.log, d.data, d.past).(consumed := m.consumed + Call(m.p, m.d.log, d.data, d.past).consumed)
  {
    hide Call;
  }

  /** Cutting a stream into calls changes nothing but nread exactly if no byte is spoiled: on no byte is
      the header budget used up by the cuts so far inside names and values of the section, at no cut in a
      general value does a byte follow that memchr() would have skipped, and at no cut behind the 'P' of a
      method other than PUT and PURGE does memory hold a 'U'. */
  lemma CutExactly(p: Parser, log: seq<Event>, ps: seq<Piece>)
    requires p.errno == OK && Inv(p) && p.nread <= MAX_HEADER_SIZE
    requires Fed(ps) && |Whole(ps)| <= MAX_CALL
    ensures var x := StreamOf(p, log, ps);
      SameEnd(Call(p, log, x.data, x.past), Calls(p, log, ps)) <==> !Spoiled(x, 0, |x.data| + 1)
  {
    hide *;
    FedPieces(ps);
    var k := |ps| - 1;
    var x, m := StreamOf(p, log, ps), Calls(p, log, ps[..k]);
    StreamIs(p, log, ps);
    CallsSettle(p, log, ps, k);
    WholeAt(ps, k);
    assert ps[..k + 1] == ps;
    LastOfCalls(p, log, ps);
    if Settled(x, m) {
      SettledIsOver(x, m);
      SettledIsExact(x, m);
    } else {
      PieceIs(p, log, ps, k);
      EndIsNoCut(ps);
      InStepRuns(x, m, |Whole(ps[..k])|);
      LastCall(x, |Whole(ps[..k])|, m, ps[k].data, ps[k].past);
    }
  }

  // ---- streams that may be cut anywhere --------------------------------------------------------------------

  function CutsUpTo(x: Stream, i: nat): set<nat> { set b | b in x.cuts && b <= i }

  /** Extra counts cuts. */
  lemma {:induction false} ExtraCounts(x: Stream, i: nat)
    requires i <= |x.data|
    ensures Extra(x, i) <= |CutsUpTo(x, i)|
  {
    hide Uncut;
    if i > 0 {
      ExtraCounts(x, i - 1);
      var before := CutsUpTo(x, i - 1);
      if i in x.cuts { assert CutsUpTo(x, i) == before + {i}; } else { assert CutsUpTo(x, i) == before; }
    }
  }

  lemma {:induction false} CutsAreFew(ps: seq<Piece>, k: nat)
    requires 0 < k <= |ps|
    ensures |FirstCuts(ps, k)| < k
  {
    hide Whole;
    if k > 1 {
      CutsAreFew(ps, k - 1);
      var before, b := FirstCuts(ps, k - 1), |Whole(ps[..k - 1])|;
      assert FirstCuts(ps, k) <= before + {b};
      NotMore(FirstCuts(ps, k), before + {b});
    }
  }

  lemma {:induction false} NotMore(a: set<nat>, b: set<nat>)
    requires a <= b
    ensures |a| <= |b|
    decreases |a|
  {
    if a != {} {
      var x :| x in a;
      NotMore(a - {x}, b - {x});
    }
  }

  lemma ExtraIsLess(p: Parser, log: seq<Event>, ps: seq<Piece>, i: nat)
    requires ps != [] && i <= |Whole(ps)|
    ensures Extra(StreamOf(p, log, ps), i) < |ps|
  {
    hide Extra, Start, Whole;
    var x := StreamOf(p, log, ps);
    ExtraCounts(x, i);
    CutsAreFew(ps, |ps|);
    NotMore(CutsUpTo(x, i), x.cuts);
  }

  /** The run has n bytes of the header budget left, wherever it is. */
  ghost predicate Spares(x: Stream, n: nat) {
    forall i :: 0 <= i <= |x.data| ==> Uncut(x, i).p.nread + n <= MAX_HEADER_SIZE
  }

  /** memchr() skips no byte that a header may not hold. */
  ghost predicate NoneExposed(x: Stream) {
    x.start.p.lenient || forall i :: 0 <= i < |x.data| && Uncut(x, i).loop.Scanning? ==> IsHeaderChar(x.data[i])
  }

  ghost predicate NoneFooled(x: Stream) { forall i :: 0 <= i < |x.data| ==> !Fooled(x, i) }

  /** With a byte of the budget of every header section to spare for each call, a stream may be cut anywhere
      if memchr() skips no byte that a header may not hold and no cut fools the guess at a method. */
  lemma CutsToSpare(p: Parser, log: seq<Event>, ps: seq<Piece>)
    requires p.errno == OK && Inv(p) && Fed(ps) && |Whole(ps)| <= MAX_CALL
    requires var x := StreamOf(p, log, ps); Spares(x, |ps|) && NoneExposed(x) && NoneFooled(x)
    ensures SameEnd(Call(p, log, Whole(ps), ps[|ps| - 1].past), Calls(p, log, ps))
  {
    hide *;
    FedPieces(ps);
    StreamIs(p, log, ps);
    var x := StreamOf(p, log, ps);
    StartNread(p, log, ps);
    SparesAt(x, |ps|, 0);
    forall i | 0 <= i <= |x.data| ensures !SpoiledAt(x, i) {
      ExtraIsLess(p, log, ps, i);
      StaysLenient(x, i);
      SparesAt(x, |ps|, i);
      NotSpoiled(x, i, |ps|);
    }
    NothingSpoiled(x);
    CutExactly(p, log, ps);
  }

  lemma SparesAt(x: Stream, n: nat, i: nat)
    requires Spares(x, n) && i <= |x.data|
    ensures Uncut(x, i).p.nread + n <= MAX_HEADER_SIZE
  {
    hide Uncut;
  }

  lemma StartNread(p: Parser, log: seq<Event>, ps: seq<Piece>)
    requires ps != []
    ensures Uncut(StreamOf(p, log, ps), 0) == StreamOf(p, log, ps).start && StreamOf(p, log, ps).start.p == p
  {
  }

  lemma StaysLenient(x: Stream, i: nat)
    requires i <= |x.data| && x.start.p.errno == OK
    ensures Uncut(x, i).p.lenient == x.start.p.lenient
  {
    hide Step;
    FeedWithin(x.start, x.data, i, x.past);
  }

  lemma NotSpoiled(x: Stream, i: nat, n: nat)
    requires i <= |x.data| && Extra(x, i) < n && Uncut(x, i).p.nread + n <= MAX_HEADER_SIZE
    requires NoneExposed(x) && NoneFooled(x) && Uncut(x, i).p.lenient == x.start.p.lenient
    ensures !SpoiledAt(x, i)
  {
    hide Extra, Uncut, IsHeaderChar, IsBreak, Checks, Fooled, OnlyPost;
  }

  lemma NothingSpoiled(x: Stream)
    requires forall i :: 0 <= i <= |x.data| ==> !SpoiledAt(x, i)
    ensures !Spoiled(x, 0, |x.data| + 1)
  {
    hide SpoiledAt;
  }

  /** Behind no piece that ends in 'P' does memory hold a 'U' that is not the next byte. */
  predicate Unfooled(ps: seq<Piece>) {
    forall k :: 0 < k < |ps| && ps[k - 1].past == 'U' && ps[k].data != "" && ps[k - 1].data != "" ==>
      ps[k].data[0] == 'U' || ps[k - 1].data[|ps[k - 1].data| - 1] != 'P'
  }

  /** The same for a stream that fits the budget as a whole. */
  lemma CutsWithinBudget(p: Parser, log: seq<Event>, ps: seq<Piece>)
    requires p.errno == OK && Inv(p) && Fed(ps) && Unfooled(ps) && p.nread + |Whole(ps)| + |ps| <= MAX_HEADER_SIZE
    requires NoneExposed(StreamOf(p, log, ps))
    ensures SameEnd(Call(p, log, Whole(ps), ps[|ps| - 1].past), Calls(p, log, ps))
  {
    hide *;
    FedPieces(ps);
    FitsSpares(p, log, ps);
    UnfooledStream(p, log, ps);
    CallIsShort();
    CutsToSpare(p, log, ps);
  }

  lemma FitsSpares(p: Parser, log: seq<Event>, ps: seq<Piece>)
    requires p.errno == OK && ps != [] && ps[0].data != "" && p.nread + |Whole(ps)| + |ps| <= MAX_HEADER_SIZE
    ensures Spares(StreamOf(p, log, ps), |ps|)
  {
    hide Uncut, StreamOf, Whole;
    var x := StreamOf(p, log, ps);
    StreamIs(p, log, ps);
    StartNread(p, log, ps);
    forall i | 0 <= i <= |x.data| ensures Uncut(x, i).p.nread + |ps| <= MAX_HEADER_SIZE { UncutWithin(x, i); }
  }

  lemma UnfooledStream(p: Parser, log: seq<Event>, ps: seq<Piece>)
    requires Fed(ps) && Unfooled(ps)
    ensures NoneFooled(StreamOf(p, log, ps))
  {
    hide Uncut, Whole, Start, Guesses;
    var x := StreamOf(p, log, ps);
    forall i | 0 <= i < |x.data| ensures !Fooled(x, i) {
      if i in UCuts(ps) {
        var k: nat :| 0 < k < |ps| && ps[k - 1].past == 'U' && i == |Whole(ps[..k])|;
        AtCut(ps, k);
      }
    }
  }

  /** The bytes on both sides of a cut. */
  lemma AtCut(ps: seq<Piece>, k: nat)
    requires Fed(ps) && 0 < k < |ps|
    ensures var b := |Whole(ps[..k])|;
      0 < b < |Whole(ps)| && Whole(ps)[b] == ps[k].data[0] && Whole(ps)[b - 1] == ps[k - 1].data[|ps[k - 1].data| - 1]
  {
    hide Whole;
    var w, b, d := Whole(ps), |Whole(ps[..k])|, ps[k - 1].data;
    WholeAt(ps, k);
    WholeAt(ps, k - 1);
    assert w[b] == w[b..b + |ps[k].data|][0];
    assert w[b - 1] == w[b - |d|..b][|d| - 1];
  }

  lemma UncutWithin(x: Stream, i: nat)
    requires i <= |x.data| && Uncut(x, 0).p.errno == OK
    ensures Uncut(x, i).p.nread <= Uncut(x, 0).p.nread + i
  {
    hide Step;
    FeedWithin(x.start, x.data, i, x.past);
  }

  lemma CallIsShort()
    ensures MAX_HEADER_SIZE <= MAX_CALL
  {
  }
}
