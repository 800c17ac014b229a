/** The two numbers of the protocol, accumulated byte by byte in 64 bits: chunk sizes and
    Content-Length values. Each is stored exactly or refused, and the bound is exact. */
module HttpNumbers {
  import opened Basics
  import opened HttpBase
  import opened HttpMachine
  import opened HttpRun
  import opened HttpSteps

  /** Value of a string of hexadecimal digits, as unhex[] reads them. */
  function HexValue(s: string): nat
    requires forall i :: 0 <= i < |s| ==> Unhex(s[i]) >= 0
  {
    if s == "" then 0 else HexValue(s[..|s| - 1]) * 16 + Unhex(s[|s| - 1])
  }

  predicate HexDigits(s: string) { forall i :: 0 <= i < |s| ==> Unhex(s[i]) >= 0 }

  lemma HexPrefix(s: string, n: nat)
    requires HexDigits(s) && n <= |s|
    ensures HexDigits(s[..n]) && HexValue(s[..n]) <= HexValue(s)
  {
    if n < |s| {
      HexPrefix(s[..|s| - 1], n);
      assert s[..|s| - 1][..n] == s[..n];
    } else {
      assert s[..n] == s;
    }
  }

  /** A machine about to read a chunk size. */
  predicate AtSize(m: Machine) {
    Running(m) && m.loop.Outside? && m.p.state == Chunk(ChunkSizeStart)
  }

  lemma SizeStep(m: Machine, c: char, next: char)
    requires Running(m) && m.loop.Outside? && Unhex(c) >= 0 && m.p.nread < MAX_HEADER_SIZE
    requires m.p.state == Chunk(ChunkSizeStart) || m.p.state == Chunk(ChunkSize)
    ensures var n := Step(m, c, next);
      var v := if m.p.state == Chunk(ChunkSize) then m.p.contentLength * 16 + Unhex(c) else Unhex(c);
      if v <= MAX_CHUNK
      then n == m.(p := m.p.(nread := m.p.nread + 1, contentLength := v, state := Chunk(ChunkSize)), consumed := m.consumed + 1)
           && Running(n)
      else Refused(m, n, InvalidContentLength)
  {
    hide Step, Transition, Inv, HeldFits, Unhex, Extend, Deliver, Apply;
    var p := Count(m.p, m.loop);
    CountStops(m, c, next);
    SizeState(m);
    SizeDigit(p, c, next);
    StepIsApply(m, c, next);
    StepKeepsGood(m, c, next);
    QuietlyApplied(m, Transition(p, m.loop, c, next), c);
  }

  lemma SizeState(m: Machine)
    requires Running(m) && (m.p.state == Chunk(ChunkSizeStart) || m.p.state == Chunk(ChunkSize))
    ensures m.d.held == map[] && m.p.flags.chunked && m.p.contentLength <= ULLONG_MAX
    ensures m.p.state == Chunk(ChunkSizeStart) ==> m.p.nread == 0
    ensures m.p.state == Chunk(ChunkSize) ==> m.p.contentLength <= MAX_CHUNK
  {
    NothingHeld(m);
  }

  /** What s_chunk_size_start and s_chunk_size do with a digit. */
  lemma SizeDigit(p: Parser, c: char, next: char)
    requires p.errno == OK && p.flags.chunked && 0 <= Unhex(c) && p.contentLength <= ULLONG_MAX
    requires (p.state == Chunk(ChunkSizeStart) && p.nread == 1) || p.state == Chunk(ChunkSize)
    ensures var v := if p.state == Chunk(ChunkSize) then p.contentLength * 16 + Unhex(c) else Unhex(c);
      Transition(p, Outside, c, next) ==
      if v <= MAX_CHUNK then Go(p.(contentLength := v), Chunk(ChunkSize)) else Fail(p, InvalidContentLength)
  {
    hide Inv;
    HexDigit(c);
    if p.contentLength <= (ULLONG_MAX - 16) / 16 { HexNoWrap(p.contentLength, Unhex(c)); }
  }

  lemma HexDigit(c: char)
    ensures Unhex(c) < 16
  {
  }

  /** A byte without callbacks, with no slice open. */
  lemma QuietlyApplied(m: Machine, o: Out, c: char)
    requires m.d.held == map[] && o.close == Leave && o.tells == [] && o.mark == None
    ensures Apply(m, o, c) ==
      if o.p.errno != OK then m.(p := o.p, loop := o.loop)
      else Machine(o.p, o.loop, m.d, m.consumed + 1, o.exit)
  {
    NoNotes(m.d.log);
    ExtendNothing(m.d, c);
  }

  lemma NothingHeld(m: Machine)
    requires Running(m) && Live(m.p.state) == None
    ensures m.d.held == map[]
  {
  }

  lemma ExtendNothing(d: Delivery, c: char)
    requires d.held == map[]
    ensures Extend(d, c) == d
  {
  }

  function Sized(m: Machine, value: nat, n: nat): Machine {
    m.(p := m.p.(nread := n, contentLength := value, state := Chunk(ChunkSize)), consumed := m.consumed + n)
  }

  lemma HexStep(s: string, n: nat)
    requires HexDigits(s) && 0 < n <= |s|
    ensures HexDigits(s[..n]) && HexDigits(s[..n - 1]) && 0 <= Unhex(s[n - 1]) < 16
    ensures HexValue(s[..n]) == HexValue(s[..n - 1]) * 16 + Unhex(s[n - 1])
    ensures n == 1 ==> HexValue(s[..0]) == 0
  {
    var t := s[..n];
    assert t[..n - 1] == s[..n - 1] && t[n - 1] == s[n - 1];
  }

  predicate SizeOutcome(m: Machine, x: Machine, value: nat, n: nat) {
    if value <= MAX_CHUNK then x == Sized(m, value, n) && Running(x)
    else x.p.errno == InvalidContentLength && x.d == m.d && !x.exited
  }

  /** A chunk size within the header budget is stored with its value exactly when that value is
      at most 2^64 - 17, and refused otherwise. */
  lemma {:induction false} SizeIsExact(m: Machine, s: string, n: nat, past: char)
    requires AtSize(m) && HexDigits(s) && 0 < n <= |s| <= MAX_HEADER_SIZE
    ensures HexDigits(s[..n]) && SizeOutcome(m, Feed(m, s, n, past), HexValue(s[..n]), n)
  {
    hide Step, Good, Unhex, HexDigits, HexValue, Stopped;
    HexStep(s, n);
    SizeBegins(m);
    if n == 1 {
      SizeStep(m, s[0], After(s, 0, past));
    } else {
      SizeIsExact(m, s, n - 1, past);
      var y := Feed(m, s, n - 1, past);
      if HexValue(s[..n - 1]) <= MAX_CHUNK {
        SizeStep(y, s[n - 1], After(s, n - 1, past));
      } else {
        RefusedStops(y);
        StoppedStays(m, s, n - 1, n, past);
      }
    }
  }

  lemma SizeBegins(m: Machine)
    requires AtSize(m)
    ensures m.p.nread == 0 && !m.exited
  {
  }

  lemma RefusedStops(m: Machine)
    requires m.p.errno != OK
    ensures Stopped(m)
  {
  }

  // ---- Content-Length ----------------------------------------------------------------------------------

  /** A Content-Length value as the code reads it: digits, with spaces anywhere after the first. */
  predicate LengthText(s: string) {
    s != "" && IsNum(s[0]) && forall i :: 0 <= i < |s| ==> IsNum(s[i]) || s[i] == ' '
  }

  function DecValue(s: string): nat
    requires forall i :: 0 <= i < |s| ==> IsNum(s[i]) || s[i] == ' '
  {
    if s == "" then 0
    else
      var v := DecValue(s[..|s| - 1]);
      if s[|s| - 1] == ' ' then v else v * 10 + Digit(s[|s| - 1])
  }

  lemma DecStep(s: string, n: nat)
    requires LengthText(s) && 0 < n <= |s|
    ensures LengthText(s[..n]) && (n > 1 ==> LengthText(s[..n - 1]))
    ensures n == 1 ==> DecValue(s[..1]) == Digit(s[0]) <= 9
    ensures n > 1 ==>
      DecValue(s[..n]) == if s[n - 1] == ' ' then DecValue(s[..n - 1]) else DecValue(s[..n - 1]) * 10 + Digit(s[n - 1])
  {
    var t := s[..n];
    assert t[..n - 1] == s[..n - 1] && t[n - 1] == s[n - 1];
    if n == 1 { assert t[..0] == ""; }
  }

  /** A machine behind "Content-Length:" and its white space, with no length seen before. */
  predicate AtLength(m: Machine) {
    && Running(m) && m.loop.Outside? && m.p.state == Head(HeaderValueDiscardWs)
    && m.p.headerState.ContentLength? && !m.p.flags.contentLength
  }

  function LengthRead(m: Machine, value: nat, s: string): Machine
    requires s != ""
  {
    Machine(m.p.(nread := m.p.nread + |s|, contentLength := value, index := 0, state := Head(HeaderValue),
                 flags := m.p.flags.(contentLength := true)),
            if |s| == 1 then Outside else Inside, Delivery(m.d.log, map[ValueData := s]), m.consumed + |s|, false)
  }

  lemma FirstDigit(m: Machine, c: char, next: char)
    requires AtLength(m) && IsNum(c) && m.p.nread < MAX_HEADER_SIZE
    ensures Step(m, c, next) == LengthRead(m, Digit(c), [c]) && Running(Step(m, c, next))
  {
    hide Step, Transition, Inv, HeldFits, Deliver, Extend, Apply;
    var p := Count(m.p, m.loop);
    CountStops(m, c, next);
    NothingHeld(m);
    ValueBegins(p, c, next);
    StepIsApply(m, c, next);
    StepKeepsGood(m, c, next);
    FirstApplied(m, Transition(p, m.loop, c, next), ValueData, c);
  }

  /** What s_header_value_start does with the first digit of a length. */
  lemma ValueBegins(p: Parser, c: char, next: char)
    requires p.state == Head(HeaderValueDiscardWs) && p.headerState.ContentLength? && IsNum(c)
    ensures Transition(p, Outside, c, next) ==
      if p.flags.contentLength then Fail(p.(state := Head(HeaderValue), index := 0), UnexpectedContentLength)
      else GoMark(p.(index := 0, flags := p.flags.(contentLength := true), contentLength := Digit(c)), Head(HeaderValue), ValueData)
  {
    hide Inv;
  }

  /** A byte that opens a slice. */
  lemma FirstApplied(m: Machine, o: Out, k: DataKind, c: char)
    requires m.d.held == map[] && o.close == Leave && o.tells == [] && o.mark == Some(k) && o.p.errno == OK
    ensures Apply(m, o, c) == Machine(o.p, o.loop, Delivery(m.d.log, map[k := [c]]), m.consumed + 1, o.exit)
  {
    NoNotes(m.d.log);
    assert "" + [c] == [c];
  }

  lemma LengthCharValue(p: Parser, c: char)
    requires p.headerState.ContentLength? && p.contentLength <= MAX_LENGTH && (IsNum(c) || c == ' ')
    ensures var v := if c == ' ' then p.contentLength else p.contentLength * 10 + Digit(c);
      ValueChar(p, c) ==
      if v <= MAX_LENGTH then Loops(p.(contentLength := v), Inside) else Fail(p, InvalidContentLength)
  {
    hide Inv;
  }

  lemma LengthCharStep(m: Machine, c: char, next: char)
    requires Running(m) && m.p.state == Head(HeaderValue) && m.p.headerState.ContentLength? && Counted(m)
    requires IsNum(c) || c == ' '
    ensures var n := Step(m, c, next);
      var v := if c == ' ' then m.p.contentLength else m.p.contentLength * 10 + Digit(c);
      if v <= MAX_LENGTH
      then n == Machine(m.p.(nread := m.p.nread + 1, contentLength := v), Inside, Extend(m.d, c), m.consumed + 1, false)
           && Running(n)
      else n.p.errno == InvalidContentLength && n.d.log == m.d.log && !n.exited
  {
    assert m.p.contentLength <= MAX_LENGTH;
    assert IsHeaderChar(c) && !m.loop.Scanning? && !IsBreak(c);
    LengthCharValue(m.p, c);
    hide Step, Transition, Inv, HeldFits, IsHeaderChar, Extend, ValueChar, IsNum, Digit, IsBreak;
    ValueCharStep(m, m.p, c, next);
  }

  predicate LengthOutcome(m: Machine, x: Machine, value: nat, s: string)
    requires s != ""
  {
    if value <= MAX_LENGTH then x == LengthRead(m, value, s) && Running(x)
    else x.p.errno == InvalidContentLength && x.d.log == m.d.log && !x.exited
  }

  lemma ExtendOne(log: seq<Event>, k: DataKind, s: string, c: char)
    ensures Extend(Delivery(log, map[k := s]), c) == Delivery(log, map[k := s + [c]])
  {
  }

  lemma NextLengthByte(m: Machine, y: Machine, s: string, u: nat, v: nat, c: char, next: char)
    requires AtLength(m) && s != "" && m.p.nread + |s| < MAX_HEADER_SIZE && !Stopped(y)
    requires LengthOutcome(m, y, u, s) && (IsNum(c) || c == ' ')
    requires v == if c == ' ' then u else u * 10 + Digit(c)
    ensures LengthOutcome(m, Step(y, c, next), v, s + [c])
  {
    hide Step, Inv, HeldFits, Live, EntryMark, Extend;
    LengthCharStep(y, c, next);
    ExtendOne(m.d.log, ValueData, s, c);
  }

  /** A Content-Length within the header budget is stored with its decimal value exactly when
      that value is at most 18446744073709551609, and refused otherwise. */
  lemma {:induction false} LengthIsExact(m: Machine, s: string, n: nat, past: char)
    requires AtLength(m) && LengthText(s) && 0 < n <= |s| && m.p.nread + |s| <= MAX_HEADER_SIZE
    ensures LengthText(s[..n]) && LengthOutcome(m, Feed(m, s, n, past), DecValue(s[..n]), s[..n])
  {
    hide Step, Running, LengthRead, DecValue, IsNum, Digit;
    DecStep(s, n);
    DigitFirst(s);
    DigitOrSpace(s, n - 1);
    var c := s[n - 1];
    if n == 1 {
      assert s[..1] == [c];
      FirstDigit(m, c, After(s, 0, past));
    } else {
      LengthIsExact(m, s, n - 1, past);
      var y := Feed(m, s, n - 1, past);
      assert s[..n] == s[..n - 1] + [c];
      if DecValue(s[..n - 1]) <= MAX_LENGTH {
        RunsOn(y);
        hide LengthOutcome;
        NextLengthByte(m, y, s[..n - 1], DecValue(s[..n - 1]), DecValue(s[..n]), c, After(s, n - 1, past));
      } else {
        StoppedStays(m, s, n - 1, n, past);
      }
    }
  }

  lemma RunsOn(m: Machine)
    requires Running(m)
    ensures !Stopped(m)
  {
  }

  lemma DigitFirst(s: string)
    requires LengthText(s)
    ensures IsNum(s[0])
  {
  }

  lemma DigitOrSpace(s: string, i: nat)
    requires LengthText(s) && i < |s|
    ensures IsNum(s[i]) || s[i] == ' '
  {
  }

  /** A second Content-Length is refused whatever it says. */
  lemma SecondLength(m: Machine, c: char, next: char)
    requires Running(m) && m.loop.Outside? && m.p.state == Head(HeaderValueDiscardWs) && m.p.nread < MAX_HEADER_SIZE
    requires m.p.headerState.ContentLength? && m.p.flags.contentLength && IsNum(c)
    ensures Step(m, c, next).p.errno == UnexpectedContentLength
  {
    hide Step, Transition, Inv, HeldFits, Deliver, Extend;
    CountStops(m, c, next);
    ValueBegins(Count(m.p, m.loop), c, next);
    StepIsApply(m, c, next);
  }

  /** A line that has a length does not lose it before the header section ends. */
  predicate KeepsLength(p: Parser, o: Out) {
    p.flags.contentLength && o.p.errno == OK && o.p.state.Head? ==> o.p.flags.contentLength
  }

  lemma DoneLeaves(p: Parser, c: char)
    ensures AtHeadersDone(p, c).p.errno == OK ==> !AtHeadersDone(p, c).p.state.Head?
  {
    hide Inv, Fine, NeedsEof, ShouldKeepAlive;
  }

  lemma AlmostDoneLeaves(p: Parser, c: char)
    ensures AtHeadersAlmostDone(p, c).p.errno == OK ==> !AtHeadersAlmostDone(p, c).p.state.Head?
  {
    hide Inv, Fine, AtHeadersDone, Upgrades, ShouldKeepAlive;
    DoneLeaves(p.(state := Head(HeadersDone), info := p.info.(upgrade := Upgrades(p))), c);
  }

  lemma FieldStartKeeps(p: Parser, c: char)
    ensures KeepsLength(p, AtHeaderFieldStart(p, c)) && KeepsLength(p, AtHeadersAlmostDone(p, c))
  {
    hide Inv, Fine, IsToken, TokenOf, FirstOfField, AtHeadersAlmostDone;
    AlmostDoneLeaves(p, c);
    AlmostDoneLeaves(p.(state := Head(HeadersAlmostDone)), c);
  }

  lemma ValueStartKeeps(p: Parser, c: char)
    ensures KeepsLength(p, AtHeaderValueStart(p, c))
  {
    hide Inv, Fine, IsNum, Digit;
  }

  lemma FieldKeeps(p: Parser, c: char)
    ensures KeepsLength(p, AtHeaderField(p, c))
  {
    hide Inv, Fine, IsToken, TokenOf, FieldChar;
  }

  lemma FinishKeeps(h: HeaderState, f: Flags)
    ensures FinishFlags(h, f).contentLength == f.contentLength
  {
  }

  lemma CharKeeps(p: Parser, c: char)
    ensures KeepsLength(p, ValueChar(p, c))
  {
    hide Inv, Fine, IsNum, Digit, ValueState, FinishFlags;
    FinishKeeps(p.headerState, p.flags);
  }

  lemma ValueKeeps(p: Parser, loop: Loop, c: char)
    ensures KeepsLength(p, AtHeaderValue(p, loop, c))
  {
    hide Inv, Fine, ValueChar, IsHeaderChar;
    CharKeeps(p, c);
  }

  lemma HeadKeeps(p: Parser, h: HeadState, loop: Loop, c: char)
    requires h != HeadersDone
    ensures KeepsLength(p, HeadByte(p, h, loop, c))
  {
    hide Inv, Fine, AtHeaderFieldStart, AtHeadersAlmostDone, AtHeadersDone, AtHeaderValueStart, AtHeaderValue, AtHeaderField,
      FinishFlags;
    FieldStartKeeps(p, c);
    FieldStartKeeps(FinishHeader(p), c);
    FinishKeeps(p.headerState, p.flags);
    ValueStartKeeps(p, c);
    FieldKeeps(p, c);
    ValueKeeps(p, loop, c);
  }

  lemma StepKeepsLength(m: Machine, c: char, next: char)
    requires Running(m) && m.p.state.Head? && m.p.flags.contentLength
    ensures var n := Step(m, c, next); n.p.errno == OK && n.p.state.Head? ==> n.p.flags.contentLength
  {
    hide HeldFits, LoopFits, HeadByte, Deliver, Extend;
    var p := Count(m.p, m.loop);
    match m.p.state
    case Head(h) => HeadKeeps(p, h, m.loop, c);
  }

  /** The first digit of a Content-Length value comes next. */
  predicate LengthComes(m: Machine, c: char) {
    && Running(m) && m.loop.Outside? && m.p.state == Head(HeaderValueDiscardWs) && m.p.nread < MAX_HEADER_SIZE
    && m.p.headerState.ContentLength? && IsNum(c)
  }

  lemma LengthIsNoted(m: Machine, c: char, next: char)
    requires LengthComes(m, c)
    ensures var n := Step(m, c, next); n.p.errno == OK ==> n.p.flags.contentLength
  {
    hide Step, Transition, Inv, HeldFits, Running, IsNum;
    if m.p.flags.contentLength { SecondLength(m, c, next); } else { FirstDigit(m, c, next); }
  }

  lemma GoodAt(s: Machine, w: string, i: nat, past: char)
    requires i <= |w| && Good(s)
    ensures Good(Feed(s, w, i, past))
  {
    hide Step, Good;
    if i > 0 {
      GoodAt(s, w, i - 1, past);
      StepKeepsGood(Feed(s, w, i - 1, past), w[i - 1], After(w, i - 1, past));
    }
  }

  lemma {:induction false} LengthStaysNoted(s: Machine, w: string, i: nat, j: nat, past: char)
    requires i < j <= |w| && Good(s) && LengthComes(Feed(s, w, i, past), w[i]) && !Stopped(Feed(s, w, j, past))
    requires forall k :: i < k <= j ==> Feed(s, w, k, past).p.state.Head?
    ensures Feed(s, w, j, past).p.flags.contentLength
  {
    hide Step, Good, LengthComes;
    if i + 1 == j {
      LengthIsNoted(Feed(s, w, i, past), w[i], After(w, i, past));
    } else {
      if Stopped(Feed(s, w, j - 1, past)) { StoppedStays(s, w, j - 1, j, past); }
      GoodAt(s, w, j - 1, past);
      LengthStaysNoted(s, w, i, j - 1, past);
      StepKeepsLength(Feed(s, w, j - 1, past), w[j - 1], After(w, j - 1, past));
    }
  }

  /** No header section has two lengths: whatever lines stand between, the first digit of a second
      Content-Length is refused. */
  lemma OnlyOneLength(s: Machine, w: string, i: nat, j: nat, past: char)
    requires i < j < |w| && Good(s) && LengthComes(Feed(s, w, i, past), w[i]) && LengthComes(Feed(s, w, j, past), w[j])
    requires forall k :: i < k <= j ==> Feed(s, w, k, past).p.state.Head?
    ensures var x := Feed(s, w, j + 1, past); x.p.errno == UnexpectedContentLength && x.consumed == Feed(s, w, j, past).consumed
  {
    hide Step, Good, IsNum;
    LengthStaysNoted(s, w, i, j, past);
    SecondLength(Feed(s, w, j, past), w[j], After(w, j, past));
    RefusedStays(Feed(s, w, j, past), w[j], After(w, j, past));
  }

  lemma RefusedStays(m: Machine, c: char, next: char)
    requires !Stopped(m)
    ensures Step(m, c, next).p.errno != OK ==> Step(m, c, next).consumed == m.consumed
  {
    hide Transition, Deliver, Extend;
  }
}
