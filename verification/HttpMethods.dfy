/** The method of a request: guessed from its first letters and corrected as more of them come, and
    still each of the 34 names is read as itself and nothing else is accepted. */
module HttpMethods {
  import opened Basics
  import opened HttpBase
  import opened HttpMachine
  import opened HttpRun
  import opened HttpSteps

  /** The guess after byte c at place i, or None if it does not go on any name. */
  function NextOf(g: Method, i: nat, c: char): Option<Method> {
    var name := MethodName(g);
    if i < |name| && c == name[i] then Some(g) else NextGuess(g, i, c)
  }

  /** The guess after n bytes of w; a space follows w. */
  function GuessAfter(w: string, n: nat): Option<Method>
    requires 1 <= n <= |w|
  {
    if n == 1 then FirstGuess(w[0], if |w| > 1 then w[1] else ' ')
    else match GuessAfter(w, n - 1)
      case None => None
      case Some(g) => NextOf(g, n - 1, w[n - 1])
  }

  // ---- the guesses are the names ------------------------------------------------------------------------

  lemma NameFits(g: Method)
    ensures 3 <= |MethodName(g)| <= 11
  {
  }

  lemma NameIsText(g: Method)
    ensures forall j :: 0 <= j < |MethodName(g)| ==> MethodName(g)[j] > ' '
  {
  }

  /** A correction keeps the letters that were read. */
  lemma CorrectionFits(g: Method, i: nat, c: char)
    requires NextGuess(g, i, c).Some?
    ensures var s, t := MethodName(g), MethodName(NextGuess(g, i, c).value);
      1 <= i < |s| && i < |t| && (forall j :: 0 <= j < i ==> s[j] == t[j]) && t[i] == c > ' '
  {
    match g
    case MKCOL => MkcolFits(i, c);
    case UNLOCK => UnlockFits(i, c);
    case POST => PostFits(i, c);
    case _ =>
  }

  lemma MkcolFits(i: nat, c: char)
    requires NextGuess(MKCOL, i, c).Some?
    ensures var s, t := MethodName(MKCOL), MethodName(NextGuess(MKCOL, i, c).value);
      1 <= i < |s| && i < |t| && (forall j :: 0 <= j < i ==> s[j] == t[j]) && t[i] == c > ' '
  {
  }

  lemma UnlockFits(i: nat, c: char)
    requires NextGuess(UNLOCK, i, c).Some?
    ensures var s, t := MethodName(UNLOCK), MethodName(NextGuess(UNLOCK, i, c).value);
      1 <= i < |s| && i < |t| && (forall j :: 0 <= j < i ==> s[j] == t[j]) && t[i] == c > ' '
  {
  }

  lemma PostFits(i: nat, c: char)
    requires NextGuess(POST, i, c).Some?
    ensures var s, t := MethodName(POST), MethodName(NextGuess(POST, i, c).value);
      1 <= i < |s| && i < |t| && (forall j :: 0 <= j < i ==> s[j] == t[j]) && t[i] == c > ' '
  {
  }

  lemma FirstFits(c: char, next: char)
    requires FirstGuess(c, next).Some?
    ensures MethodName(FirstGuess(c, next).value)[0] == c && IsAlpha(c)
  {
  }

  /** What was read is the beginning of the guessed name. */
  lemma {:induction false} GuessFits(w: string, n: nat)
    requires 1 <= n <= |w| && GuessAfter(w, n).Some?
    ensures var t := MethodName(GuessAfter(w, n).value); n <= |t| && w[..n] == t[..n]
  {
    hide MethodName, NextGuess, FirstGuess;
    if n == 1 {
      NameFits(GuessAfter(w, n).value);
      FirstFits(w[0], if |w| > 1 then w[1] else ' ');
    } else {
      GuessFits(w, n - 1);
      var g := GuessAfter(w, n - 1).value;
      if NextGuess(g, n - 1, w[n - 1]).Some? {
        CorrectionFits(g, n - 1, w[n - 1]);
        var s, t := MethodName(g), MethodName(NextGuess(g, n - 1, w[n - 1]).value);
        assert s[..n - 1] == t[..n - 1];
      }
      assert w[..n] == w[..n - 1] + [w[n - 1]];
      var t := MethodName(GuessAfter(w, n).value);
      assert t[..n] == t[..n - 1] + [t[n - 1]];
    }
  }

  // ---- every name is guessed ------------------------------------------------------------------------------

  function Guess(m: Method, n: nat): Option<Method>
    requires 1 <= n <= |MethodName(m)|
  {
    GuessAfter(MethodName(m), n)
  }

  lemma NextOfName(m: Method, n: nat, g: Method, h: Method)
    requires 1 <= n < |MethodName(m)| && Guess(m, n) == Some(g) && NextOf(g, n, MethodName(m)[n]) == Some(h)
    ensures Guess(m, n + 1) == Some(h)
  {
    hide MethodName, NextOf, FirstGuess;
  }

  /** Once the name itself is guessed nothing changes any more. */
  lemma {:induction false} GuessStays(m: Method, n: nat, k: nat)
    requires 1 <= n <= k <= |MethodName(m)| && Guess(m, n) == Some(m)
    ensures Guess(m, k) == Some(m)
  {
    hide MethodName, FirstGuess, Guess;
    if n < k {
      GuessStays(m, n, k - 1);
      NextOfName(m, k - 1, m, m);
    }
  }

  /** The names that are not the first guess, and after how many bytes they are guessed. */
  function CorrectedAt(m: Method): nat {
    match m
    case PATCH => 2 case PROPFIND => 2 case CHECKOUT => 2 case MOVE => 2 case MERGE => 2 case MSEARCH => 2
    case SEARCH => 2 case SOURCE => 2 case LINK => 2
    case PURGE => 3 case COPY => 3 case MKACTIVITY => 3 case REBIND => 3 case UNSUBSCRIBE => 3 case UNBIND => 3
    case MKCALENDAR => 4 case UNLINK => 4
    case PROPPATCH => 5
    case _ => 1
  }

  lemma FirstIsGuessed(m: Method)
    requires CorrectedAt(m) == 1
    ensures Guess(m, 1) == Some(m)
  {
  }

  lemma SecondIsGuessed(m: Method)
    requires CorrectedAt(m) == 2
    ensures Guess(m, 2) == Some(m)
  {
    match m
    case PATCH => NextOfName(m, 1, POST, m);
    case PROPFIND => NextOfName(m, 1, POST, m);
    case CHECKOUT => NextOfName(m, 1, CONNECT, m);
    case MOVE => NextOfName(m, 1, MKCOL, m);
    case MERGE => NextOfName(m, 1, MKCOL, m);
    case MSEARCH => NextOfName(m, 1, MKCOL, m);
    case SEARCH => NextOfName(m, 1, SUBSCRIBE, m);
    case SOURCE => NextOfName(m, 1, SUBSCRIBE, m);
    case LINK => NextOfName(m, 1, LOCK, m);
  }

  /** The guess g stands after two bytes and is corrected by the third. */
  lemma ThirdIsGuessed(m: Method)
    requires CorrectedAt(m) == 3
    ensures Guess(m, 3) == Some(m)
  {
    var g := match m case PURGE => PUT case COPY => CONNECT case MKACTIVITY => MKCOL case REBIND => REPORT case _ => UNLOCK;
    NextOfName(m, 1, g, g);
    NextOfName(m, 2, g, m);
  }

  lemma LaterIsGuessed(m: Method)
    requires CorrectedAt(m) > 3
    ensures Guess(m, CorrectedAt(m)) == Some(m)
  {
    if m.PROPPATCH? {
      NextOfName(m, 1, POST, PROPFIND);
      NextOfName(m, 2, PROPFIND, PROPFIND);
      NextOfName(m, 3, PROPFIND, PROPFIND);
      NextOfName(m, 4, PROPFIND, m);
    } else {
      var g := if m.UNLINK? then UNLOCK else MKCOL;
      NextOfName(m, 1, g, g);
      NextOfName(m, 2, g, g);
      NextOfName(m, 3, g, m);
    }
  }

  lemma NameIsGuessed(m: Method)
    ensures |MethodName(m)| >= 1 && Guess(m, |MethodName(m)|) == Some(m)
  {
    hide MethodName, Guess;
    NameFits(m);
    var n := CorrectedAt(m);
    if n == 1 { FirstIsGuessed(m); } else if n == 2 { SecondIsGuessed(m); } else if n == 3 { ThirdIsGuessed(m); } else { LaterIsGuessed(m); }
    CorrectedInside(m);
    GuessStays(m, n, |MethodName(m)|);
  }

  lemma CorrectedInside(m: Method)
    ensures CorrectedAt(m) <= |MethodName(m)|
  {
  }

  // ---- the machine ----------------------------------------------------------------------------------------

  /** The machine after n bytes of w on a request line. */
  predicate AtGuess(s: Machine, x: Machine, w: string, n: nat)
    requires 1 <= n <= |w|
  {
    match GuessAfter(w, n)
    case None => x.p.errno == InvalidMethod
    case Some(g) =>
      && Running(x) && x.loop.Outside? && x.p.state.ReqMethod? && x.p.index == n && x.p.info.meth == g
      && x.p.nread == s.p.nread + n
  }

  lemma FirstLetter(s: Machine, c: char, next: char)
    requires Running(s) && s.loop.Outside? && s.p.state.StartReq? && s.p.nread < MAX_HEADER_SIZE && !IsBreak(c)
    ensures var x := Step(s, c, next);
      match FirstGuess(c, next)
      case None => x.p.errno == InvalidMethod
      case Some(g) =>
        && Running(x) && x.loop.Outside? && x.p.state.ReqMethod? && x.p.index == 1 && x.p.info.meth == g
        && x.p.nread == s.p.nread + 1
  {
    hide Inv, HeldFits, FirstGuess, Deliver, Extend, AtReqMethod;
    CountStops(s, c, next);
    StepKeepsGood(s, c, next);
    if FirstGuess(c, next).Some? { FirstFits(c, next); }
  }

  lemma NextLetter(x: Machine, c: char, next: char)
    requires Running(x) && x.loop.Outside? && x.p.state.ReqMethod? && x.p.index < 127 && x.p.nread < MAX_HEADER_SIZE && c != ' '
    requires 1 <= x.p.index
    ensures var y := Step(x, c, next);
      match NextOf(x.p.info.meth, x.p.index, c)
      case None => y.p.errno == InvalidMethod
      case Some(g) =>
        && Running(y) && y.loop.Outside? && y.p.state.ReqMethod? && y.p.index == x.p.index + 1 && y.p.info.meth == g
        && y.p.nread == x.p.nread + 1
  {
    hide Inv, HeldFits, NextGuess, MethodName, Deliver, Extend;
    CountStops(x, c, next);
    StepKeepsGood(x, c, next);
    NameIsText(x.p.info.meth);
    if NextGuess(x.p.info.meth, x.p.index, c).Some? { CorrectionFits(x.p.info.meth, x.p.index, c); }
  }

  /** The space behind the method. */
  lemma SpaceStep(x: Machine, next: char)
    requires Running(x) && x.loop.Outside? && x.p.state.ReqMethod? && 1 <= x.p.index < 127 && x.p.nread < MAX_HEADER_SIZE
    ensures var y := Step(x, ' ', next);
      if x.p.index >= |MethodName(x.p.info.meth)|
      then y.p.errno == OK && y.p.state == ReqSpacesBeforeUrl && y.p.info.meth == x.p.info.meth
      else y.p.errno == InvalidMethod
  {
    hide Inv, HeldFits, NextGuess, MethodName, Deliver, Extend;
    CountStops(x, ' ', next);
    NameIsText(x.p.info.meth);
    if NextGuess(x.p.info.meth, x.p.index, ' ').Some? { CorrectionFits(x.p.info.meth, x.p.index, ' '); }
  }

  lemma {:induction false} MethodFeed(s: Machine, w: string, n: nat, past: char)
    requires Running(s) && s.loop.Outside? && s.p.state.StartReq? && s.p.nread + |w| < MAX_HEADER_SIZE
    requires 1 <= n <= |w| && !IsBreak(w[0]) && ' ' !in w
    ensures AtGuess(s, Feed(s, w + " ", n, past), w, n)
  {
    hide Step, Running, FirstGuess, NextOf, MethodName;
    var text := w + " ";
    assert forall i :: 0 <= i < |w| ==> text[i] == w[i];
    if n == 1 {
      assert Feed(s, text, 0, past) == s;
      FirstLetter(s, w[0], After(text, 0, past));
    } else {
      MethodFeed(s, w, n - 1, past);
      var x := Feed(s, text, n - 1, past);
      if GuessAfter(w, n - 1).Some? {
        GuessFits(w, n - 1);
        NameFits(GuessAfter(w, n - 1).value);
        NextLetter(x, w[n - 1], After(text, n - 1, past));
      } else {
        StoppedStays(s, text, n - 1, n, past);
      }
    }
  }

  /** The 34 names are accepted, each as its method, and no other text is. */
  lemma MethodExactly(s: Machine, w: string, past: char)
    requires Running(s) && s.loop.Outside? && s.p.state.StartReq? && s.p.nread + |w| < MAX_HEADER_SIZE
    requires w != "" && !IsBreak(w[0]) && ' ' !in w
    ensures var x := Feed(s, w + " ", |w| + 1, past);
      && (forall m :: w == MethodName(m) ==> x.p.errno == OK && x.p.state == ReqSpacesBeforeUrl && x.p.info.meth == m)
      && ((forall m :: w != MethodName(m)) ==> x.p.errno == InvalidMethod)
  {
    hide Step, Running, MethodName, GuessAfter;
    var text, n := w + " ", |w|;
    var x := Feed(s, text, n, past);
    MethodFeed(s, w, n, past);
    assert text[n] == ' ';
    assert Feed(s, text, n + 1, past) == Step(x, ' ', past);
    forall m | w == MethodName(m) ensures GuessAfter(w, n) == Some(m) { NameIsGuessed(m); }
    if GuessAfter(w, n).Some? {
      var g := GuessAfter(w, n).value;
      GuessFits(w, n);
      NameFits(g);
      assert w[..n] == w;
      SpaceStep(x, past);
      if n >= |MethodName(g)| { assert MethodName(g)[..n] == MethodName(g); }
    } else {
      StoppedStays(s, text, n, n + 1, past);
    }
  }
}
