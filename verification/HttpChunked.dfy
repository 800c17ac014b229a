/** Chunked bodies, section 4.1 of RFC 7230: a body printed as chunks is read back as the chunks,
    in one call or in any fragmentation. */
module HttpChunked {
  import opened HttpBase
  import opened HttpMachine
  import opened HttpRun
  import opened HttpSteps
  import opened HttpNumbers
  import opened HttpPieces
  import opened HttpExactCut

  // ---- plain runs ------------------------------------------------------------------------------------

  /** A state in which a byte is neither part of a header name or value nor the first of a method. */
  predicate Calm(s: State) { !InHeaderLoop(s) && !s.StartReq? && !s.StartReqOrRes? }

  /** A run that meets every byte of s in a calm state. */
  ghost predicate Plain(m: Machine, s: string, past: char) {
    forall j :: 0 <= j < |s| ==> Calm(Feed(m, s, j, past).p.state)
  }

  lemma PlainConcat(m: Machine, a: string, b: string, past: char)
    requires Plain(m, a, First(b, past)) && Plain(Feed(m, a, |a|, First(b, past)), b, past)
    ensures Plain(m, a + b, past)
  {
    hide Step, Calm;
    forall j | 0 <= j < |a + b| ensures Calm(Feed(m, a + b, j, past).p.state) {
      if j < |a| { FeedFront(m, a, b, j, past); } else { FeedConcat(m, a, b, j - |a|, past); }
    }
  }

  lemma PlainOne(m: Machine, c: char, past: char)
    requires Calm(m.p.state)
    ensures Plain(m, [c], past) && Feed(m, [c], 1, past) == Step(m, c, past)
  {
    hide Step, Calm;
    assert Feed(m, [c], 0, past) == m;
    assert Feed(m, [c], 1, past) == Step(m, c, past);
  }

  // ---- the text of a chunk -----------------------------------------------------------------------------

  /** A chunk: its size as spelled, its extensions, its data. */
  datatype ChunkText = ChunkText(size: string, ext: string, data: string)

  const CRLF := [CR, LF]

  predicate Extension(s: string) {
    s == "" || ((s[0] == ';' || s[0] == ' ') && forall i :: 0 <= i < |s| ==> s[i] != CR)
  }

  /** The size line fits the header budget and its number is `length`. */
  predicate SizeLine(size: string, ext: string, length: nat) {
    && size != "" && HexDigits(size) && HexValue(size) == length && Extension(ext)
    && |size| + |ext| + 2 <= MAX_HEADER_SIZE
  }

  predicate GoodChunk(c: ChunkText) {
    c.data != "" && |c.data| <= MAX_CHUNK && SizeLine(c.size, c.ext, |c.data|)
  }

  function Print(c: ChunkText): string { c.size + c.ext + CRLF + c.data + CRLF }

  function PrintAll(cs: seq<ChunkText>): string {
    if cs == [] then "" else Print(cs[0]) + PrintAll(cs[1..])
  }

  // ---- one chunk -----------------------------------------------------------------------------------------

  /** The machine after n quiet bytes: only the fields differ. */
  function Quietly(m: Machine, p: Parser, n: nat): Machine { m.(p := p, consumed := m.consumed + n) }

  lemma ExtStep(m: Machine, c: char, next: char)
    requires Running(m) && m.loop.Outside? && m.p.nread < MAX_HEADER_SIZE
    requires (m.p.state == Chunk(ChunkSize) && (c == ';' || c == ' ')) || (m.p.state == Chunk(ChunkParameters) && c != CR)
    ensures var n := Step(m, c, next);
      n == Quietly(m, m.p.(nread := m.p.nread + 1, state := Chunk(ChunkParameters)), 1) && Running(n)
  {
    hide ResByte, VersionByte, HeadByte, AtUrl, AtReqMethod, AtStartReq, Extend, HeldFits, Inv;
    StepKeepsGood(m, c, next);
    NoNotes(m.d.log);
    NothingHeld(m);
    ExtendNothing(m.d, c);
    ChunkedFlag(m);
  }

  lemma ChunkedFlag(m: Machine)
    requires Running(m) && m.p.state.Chunk?
    ensures m.p.flags.chunked && m.p.errno == OK && !m.exited
    ensures m.p.state == Chunk(ChunkDataAlmostDone) ==> m.p.contentLength == 0
    ensures !m.p.state.chunk.ChunkSizeStart? && !m.p.state.chunk.ChunkDataDone? ==> m.p.contentLength <= MAX_CHUNK
  {
  }

  lemma SizeCrStep(m: Machine, next: char)
    requires Running(m) && m.loop.Outside? && m.p.nread < MAX_HEADER_SIZE
    requires m.p.state == Chunk(ChunkSize) || m.p.state == Chunk(ChunkParameters)
    ensures var n := Step(m, CR, next);
      n == Quietly(m, m.p.(nread := m.p.nread + 1, state := Chunk(ChunkSizeAlmostDone)), 1) && Running(n)
  {
    hide ResByte, VersionByte, HeadByte, AtUrl, AtReqMethod, AtStartReq, Extend, HeldFits, Inv;
    StepKeepsGood(m, CR, next);
    NoNotes(m.d.log);
    NothingHeld(m);
    ExtendNothing(m.d, CR);
    ChunkedFlag(m);
  }

  function Announced(m: Machine): Machine {
    var zero := m.p.contentLength == 0;
    Machine(m.p.(nread := 0, state := if zero then Head(HeaderFieldStart) else Chunk(ChunkData),
                 flags := if zero then m.p.flags.(trailing := true) else m.p.flags),
            Outside, Delivery(m.d.log + [Notify(ChunkHeader(m.p.contentLength))], map[]), m.consumed + 1, false)
  }

  lemma SizeLfStep(m: Machine, next: char)
    requires Running(m) && m.loop.Outside? && m.p.nread < MAX_HEADER_SIZE && m.p.state == Chunk(ChunkSizeAlmostDone)
    ensures Step(m, LF, next) == Announced(m) && Running(Step(m, LF, next))
  {
    hide ResByte, VersionByte, HeadByte, AtUrl, AtReqMethod, AtStartReq, Extend, HeldFits, Inv;
    StepKeepsGood(m, LF, next);
    assert Notes([ChunkHeader(m.p.contentLength)]) == [Notify(ChunkHeader(m.p.contentLength))];
    NothingHeld(m);
    ExtendNothing(Delivery(m.d.log + [Notify(ChunkHeader(m.p.contentLength))], map[]), LF);
    ChunkedFlag(m);
  }

  /** Outcome of a run over s: it ends at x and meets every byte in a calm state. */
  ghost predicate Gives(m: Machine, s: string, past: char, x: Machine) {
    Feed(m, s, |s|, past) == x && Running(x) && Plain(m, s, past)
  }

  lemma GivesConcat(m: Machine, a: string, x: Machine, b: string, y: Machine, past: char)
    requires Gives(m, a, First(b, past), x) && Gives(x, b, past, y)
    ensures Gives(m, a + b, past, y)
  {
    hide Step, Running, Plain;
    FeedConcat(m, a, b, |b|, past);
    PlainConcat(m, a, b, past);
  }

  lemma GivesOne(m: Machine, c: char, past: char, x: Machine)
    requires Calm(m.p.state) && Step(m, c, past) == x && Running(x)
    ensures Gives(m, [c], past, x)
  {
    hide Step, Running, Plain;
    PlainOne(m, c, past);
  }

  lemma {:induction false} ExtGives(m: Machine, s: string, n: nat, past: char)
    requires Running(m) && m.loop.Outside? && m.p.state == Chunk(ChunkSize) && Extension(s) && n <= |s|
    requires m.p.nread + |s| <= MAX_HEADER_SIZE
    ensures Feed(m, s, n, past) ==
            (if n == 0 then m else Quietly(m, m.p.(nread := m.p.nread + n, state := Chunk(ChunkParameters)), n))
    ensures Running(Feed(m, s, n, past))
  {
    hide Step, Inv, HeldFits, LoopFits, Live, EntryMark;
    if n > 0 {
      ExtGives(m, s, n - 1, past);
      ExtStep(Feed(m, s, n - 1, past), s[n - 1], After(s, n - 1, past));
    }
  }

  lemma ExtIsPlain(m: Machine, s: string, past: char)
    requires Running(m) && m.loop.Outside? && m.p.state == Chunk(ChunkSize) && Extension(s)
    requires m.p.nread + |s| <= MAX_HEADER_SIZE
    ensures Plain(m, s, past)
  {
    hide Step, Inv, HeldFits, LoopFits, Live, EntryMark, Extension;
    forall j | 0 <= j < |s| ensures Calm(Feed(m, s, j, past).p.state) {
      ExtGives(m, s, j, past);
    }
  }

  lemma DigitStays(p: Parser, loop: Loop, c: char, next: char)
    requires p.state == Chunk(ChunkSizeStart) || p.state == Chunk(ChunkSize)
    requires Unhex(c) >= 0
    ensures var s := Transition(p, loop, c, next).p.state; s == Chunk(ChunkSizeStart) || s == Chunk(ChunkSize)
  {
    hide Inv;
  }

  lemma SizeStays(m: Machine, s: string, n: nat, past: char)
    requires m.p.state == Chunk(ChunkSizeStart) && n <= |s| && HexDigits(s)
    ensures var t := Feed(m, s, n, past).p.state; t == Chunk(ChunkSizeStart) || t == Chunk(ChunkSize)
  {
    hide Transition, Unhex;
    if n > 0 {
      SizeStays(m, s, n - 1, past);
      var x := Feed(m, s, n - 1, past);
      DigitStays(Count(x.p, x.loop), x.loop, s[n - 1], After(s, n - 1, past));
    }
  }

  lemma SizeIsPlain(m: Machine, s: string, past: char)
    requires m.p.state == Chunk(ChunkSizeStart) && HexDigits(s)
    ensures Plain(m, s, past)
  {
    hide Step, HexDigits;
    forall j | 0 <= j < |s| ensures Calm(Feed(m, s, j, past).p.state) {
      SizeStays(m, s, j, past);
    }
  }

  /** The machine after a whole size line. */
  function AfterSize(m: Machine, length: nat, n: nat): Machine {
    Machine(m.p.(nread := 0, contentLength := length,
                 state := if length == 0 then Head(HeaderFieldStart) else Chunk(ChunkData),
                 flags := if length == 0 then m.p.flags.(trailing := true) else m.p.flags),
            Outside, Delivery(m.d.log + [Notify(ChunkHeader(length))], map[]), m.consumed + n, false)
  }

  lemma SizeEndGives(m: Machine, past: char)
    requires Running(m) && m.loop.Outside? && m.p.nread + 1 < MAX_HEADER_SIZE
    requires m.p.state == Chunk(ChunkSize) || m.p.state == Chunk(ChunkParameters)
    ensures Gives(m, CRLF, past, AfterSize(m, m.p.contentLength, 2))
  {
    hide Step, Inv, HeldFits, LoopFits, Gives, Good;
    SizeCrStep(m, LF);
    var x := Step(m, CR, LF);
    SizeLfStep(x, past);
    var y := Step(x, LF, past);
    assert y == AfterSize(m, m.p.contentLength, 2);
    TwoGive(m, CR, x, LF, y, past);
  }

  lemma TwoGive(m: Machine, c: char, x: Machine, d: char, y: Machine, past: char)
    requires Step(m, c, d) == x && Step(x, d, past) == y && Running(x) && Running(y)
    requires Calm(m.p.state) && Calm(x.p.state)
    ensures Gives(m, [c, d], past, y)
  {
    hide Step, Running, Gives, Calm;
    GivesOne(m, c, d, x);
    GivesOne(x, d, past, y);
    GivesConcat(m, [c], x, [d], y, past);
    assert [c] + [d] == [c, d];
  }

  lemma SizeDigitsGive(m: Machine, size: string, past: char)
    requires AtSize(m) && size != "" && HexDigits(size) && |size| <= MAX_HEADER_SIZE && HexValue(size) <= MAX_CHUNK
    ensures Gives(m, size, past, Sized(m, HexValue(size), |size|))
  {
    hide Step, Running, HexDigits, HexValue, Plain;
    SizeIsExact(m, size, |size|, past);
    assert size[..|size|] == size;
    SizeIsPlain(m, size, past);
  }

  lemma SizeLineGives(m: Machine, size: string, ext: string, length: nat, past: char)
    requires AtSize(m) && SizeLine(size, ext, length) && length <= MAX_CHUNK
    ensures Gives(m, size + ext + CRLF, past, AfterSize(m, length, |size| + |ext| + 2))
  {
    assert m.p.nread == 0;
    SizeDigitsGive(m, size, First(ext, CR));
    hide Step, HexDigits, HexValue, Extension, Plain, Inv, HeldFits, LoopFits;
    var x := Sized(m, length, |size|);
    ExtGives(x, ext, |ext|, CR);
    ExtIsPlain(x, ext, CR);
    var y := Feed(x, ext, |ext|, CR);
    assert Gives(x, ext, CR, y);
    SizeEndGives(y, past);
    var z := AfterSize(m, length, |size| + |ext| + 2);
    assert AfterSize(y, length, 2) == z;
    hide Gives, Quietly, Sized, AfterSize;
    GivesConcat(m, size, x, ext, y, CR);
    GivesConcat(m, size + ext, y, CRLF, z, past);
  }

  /** A machine in front of a chunk's data. */
  predicate AtData(m: Machine, n: nat) {
    Running(m) && m.loop.Outside? && m.p.state == Chunk(ChunkData) && m.p.contentLength == n && m.d.held == map[]
  }

  function Reading(m: Machine, s: string): Machine
    requires |s| <= m.p.contentLength
  {
    var left := m.p.contentLength - |s|;
    Machine(m.p.(contentLength := left, state := Chunk(if left == 0 then ChunkDataAlmostDone else ChunkData)),
            Outside, Delivery(m.d.log, if s == "" then map[] else map[BodyData := s]), m.consumed + |s|, false)
  }

  lemma DataStep(m: Machine, c: char, next: char)
    requires Running(m) && m.loop.Outside? && m.p.state == Chunk(ChunkData) && m.p.contentLength > 0
    ensures var left := m.p.contentLength - 1;
      Step(m, c, next) ==
      Machine(m.p.(contentLength := left, state := Chunk(if left == 0 then ChunkDataAlmostDone else ChunkData)), Outside,
              Extend(WithBody(m.d), c), m.consumed + 1, false)
    ensures Running(Step(m, c, next))
  {
    hide Step, Inv, HeldFits;
    ChunkedFlag(m);
    StepKeepsGood(m, c, next);
    if m.p.contentLength > 1 {
      BodyStep(m, c, next);
    } else {
      LastBodyStep(m, c, next);
      LastByteApplied(m, m.p, c);
    }
  }

  lemma {:induction false} DataGives(m: Machine, s: string, n: nat, past: char)
    requires AtData(m, |s|) && s != "" && n <= |s|
    ensures Feed(m, s, n, past) == Reading(m, s[..n]) && Running(Feed(m, s, n, past))
  {
    hide Step, Inv, HeldFits, LoopFits, Extend;
    if n > 0 {
      DataGives(m, s, n - 1, past);
      var y := Feed(m, s, n - 1, past);
      DataStep(y, s[n - 1], After(s, n - 1, past));
      assert s[..n] == s[..n - 1] + [s[n - 1]];
      assert WithBody(y.d) == Delivery(m.d.log, map[BodyData := s[..n - 1]]);
      ExtendOne(m.d.log, BodyData, s[..n - 1], s[n - 1]);
    }
  }

  lemma DataIsPlain(m: Machine, s: string, past: char)
    requires AtData(m, |s|) && s != ""
    ensures Gives(m, s, past, Reading(m, s))
  {
    hide Step, Running;
    forall j | 0 <= j < |s| ensures Calm(Feed(m, s, j, past).p.state) {
      DataGives(m, s, j, past);
    }
    DataGives(m, s, |s|, past);
    assert s[..|s|] == s;
  }

  lemma DataCrStep(m: Machine, s: string, next: char)
    requires Running(m) && m.loop.Outside? && m.p.state == Chunk(ChunkDataAlmostDone) && m.d.held == map[BodyData := s]
    ensures Step(m, CR, next) == Machine(m.p.(state := Chunk(ChunkDataDone)), Outside,
                                         Delivery(Emit(m.d.log, Data(BodyData, s)), map[]), m.consumed + 1, false)
    ensures Running(Step(m, CR, next))
  {
    hide ResByte, VersionByte, HeadByte, AtUrl, AtReqMethod, AtStartReq, Extend, HeldFits, Inv, Emit;
    ChunkedFlag(m);
    StepKeepsGood(m, CR, next);
    var log := Emit(m.d.log, Data(BodyData, s));
    NoNotes(log);
    assert m.d.held - {BodyData} == map[];
    ExtendNothing(Delivery(log, map[]), CR);
  }

  lemma DataLfStep(m: Machine, next: char)
    requires Running(m) && m.loop.Outside? && m.p.state == Chunk(ChunkDataDone)
    ensures Step(m, LF, next) == Machine(m.p.(nread := 0, state := Chunk(ChunkSizeStart)), Outside,
                                         Delivery(m.d.log + [Notify(ChunkComplete)], map[]), m.consumed + 1, false)
    ensures Running(Step(m, LF, next))
  {
    hide ResByte, VersionByte, HeadByte, AtUrl, AtReqMethod, AtStartReq, Extend, HeldFits, Inv;
    ChunkedFlag(m);
    StepKeepsGood(m, LF, next);
    NothingHeld(m);
    assert Notes([ChunkComplete]) == [Notify(ChunkComplete)];
    ExtendNothing(Delivery(m.d.log + [Notify(ChunkComplete)], map[]), LF);
  }

  // ---- a list of chunks ------------------------------------------------------------------------------

  /** What the callbacks say about a chunk. */
  function ChunkEvents(c: ChunkText): seq<Event> {
    [Notify(ChunkHeader(|c.data|)), Data(BodyData, c.data), Notify(ChunkComplete)]
  }

  function AllEvents(cs: seq<ChunkText>): seq<Event> {
    if cs == [] then [] else ChunkEvents(cs[0]) + AllEvents(cs[1..])
  }

  /** The machine at the next size line. */
  function Past(m: Machine, length: nat, events: seq<Event>, n: nat): Machine {
    Machine(m.p.(nread := 0, contentLength := length, state := Chunk(ChunkSizeStart)), Outside,
            Delivery(m.d.log + events, map[]), m.consumed + n, false)
  }

  lemma DataEndGives(m: Machine, s: string, past: char)
    requires Running(m) && m.loop.Outside? && m.p.state == Chunk(ChunkDataAlmostDone) && m.d.held == map[BodyData := s]
    ensures Gives(m, CRLF, past,
                  Machine(m.p.(nread := 0, state := Chunk(ChunkSizeStart)), Outside,
                          Delivery(Emit(m.d.log, Data(BodyData, s)) + [Notify(ChunkComplete)], map[]), m.consumed + 2, false))
  {
    hide Step, Inv, HeldFits, LoopFits, Gives, Emit, Good;
    DataCrStep(m, s, LF);
    var x := Step(m, CR, LF);
    DataLfStep(x, past);
    TwoGive(m, CR, x, LF, Step(x, LF, past), past);
  }

  lemma ChunkGives(m: Machine, c: ChunkText, past: char)
    requires AtSize(m) && GoodChunk(c)
    ensures Gives(m, Print(c), past, Past(m, 0, ChunkEvents(c), |Print(c)|))
  {
    var line := c.size + c.ext + CRLF;
    SizeLineGives(m, c.size, c.ext, |c.data|, c.data[0]);
    hide Step, Running, Inv, Gives, SizeLine;
    var x := AfterSize(m, |c.data|, |line|);
    assert AtData(x, |c.data|) by { GivesRuns(m, line, c.data[0], x); }
    DataIsPlain(x, c.data, CR);
    var y := Reading(x, c.data);
    GivesRuns(x, c.data, CR, y);
    DataEndGives(y, c.data, past);
    var z := Past(m, 0, ChunkEvents(c), |Print(c)|);
    EmitBody(m.d.log, c);
    assert z == Machine(y.p.(nread := 0, state := Chunk(ChunkSizeStart)), Outside,
                        Delivery(Emit(y.d.log, Data(BodyData, c.data)) + [Notify(ChunkComplete)], map[]), y.consumed + 2, false);
    hide AfterSize, Reading, Past;
    GivesConcat(m, line, x, c.data, y, CR);
    GivesConcat(m, line + c.data, y, CRLF, z, past);
  }

  lemma GivesRuns(m: Machine, s: string, past: char, x: Machine)
    requires Gives(m, s, past, x)
    ensures Running(x) && !Stopped(x)
  {
  }

  lemma EmitBody(log: seq<Event>, c: ChunkText)
    ensures Emit(log + [Notify(ChunkHeader(|c.data|))], Data(BodyData, c.data)) + [Notify(ChunkComplete)] ==
            log + ChunkEvents(c)
  {
  }

  /** Some contentLength is left behind by the last chunk; it is 0 after each. */
  lemma {:induction false} ChunksGive(m: Machine, cs: seq<ChunkText>, past: char)
    requires AtSize(m) && (forall i :: 0 <= i < |cs| ==> GoodChunk(cs[i]))
    ensures Gives(m, PrintAll(cs), past, Past(m, if cs == [] then m.p.contentLength else 0, AllEvents(cs), |PrintAll(cs)|))
    decreases |cs|
  {
    hide Step, GoodChunk, Inv, HeldFits, Gives;
    if cs == [] {
      NoChunks(m, past);
    } else {
      var rest := PrintAll(cs[1..]);
      var c := First(rest, past);
      ChunkGives(m, cs[0], c);
      var x := Past(m, 0, ChunkEvents(cs[0]), |Print(cs[0])|);
      GivesRuns(m, Print(cs[0]), c, x);
      ChunksGive(x, cs[1..], past);
      PastTwice(m, cs);
      GivesConcat(m, Print(cs[0]), x, rest, Past(m, 0, AllEvents(cs), |PrintAll(cs)|), past);
    }
  }

  lemma PastTwice(m: Machine, cs: seq<ChunkText>)
    requires cs != []
    ensures var x := Past(m, 0, ChunkEvents(cs[0]), |Print(cs[0])|); var rest := cs[1..];
      Past(x, if rest == [] then x.p.contentLength else 0, AllEvents(rest), |PrintAll(rest)|) ==
      Past(m, 0, AllEvents(cs), |PrintAll(cs)|)
  {
    assert (m.d.log + ChunkEvents(cs[0])) + AllEvents(cs[1..]) == m.d.log + AllEvents(cs);
  }

  lemma NoChunks(m: Machine, past: char)
    requires AtSize(m)
    ensures Gives(m, "", past, Past(m, m.p.contentLength, [], 0))
  {
    NothingHeld(m);
    assert m.d.log + [] == m.d.log;
    assert Feed(m, "", 0, past) == m;
  }

  // ---- the last chunk ----------------------------------------------------------------------------------

  lemma TrailerCrStep(m: Machine, next: char)
    requires Running(m) && m.loop.Outside? && m.p.nread < MAX_HEADER_SIZE && m.p.state == Head(HeaderFieldStart)
    ensures Step(m, CR, next) == Quietly(m, m.p.(nread := m.p.nread + 1, state := Head(HeadersAlmostDone)), 1)
    ensures Running(Step(m, CR, next))
  {
    hide ResByte, VersionByte, ChunkByte, AtUrl, AtReqMethod, AtStartReq, Extend, HeldFits, Inv, AtHeadersAlmostDone;
    StepKeepsGood(m, CR, next);
    NoNotes(m.d.log);
    NothingHeld(m);
    ExtendNothing(m.d, CR);
  }

  /** The end of a chunked message; the call returns here if an upgrade was announced. */
  lemma TrailerLfStep(m: Machine, next: char)
    requires Running(m) && m.loop.Outside? && m.p.nread < MAX_HEADER_SIZE && m.p.state == Head(HeadersAlmostDone)
    requires m.p.flags.trailing
    ensures Step(m, LF, next) ==
            Machine(m.p.(nread := m.p.nread + 1, state := NewMessage(m.p)), Outside,
                    Delivery(m.d.log + [Notify(ChunkComplete), Notify(MessageComplete)], map[]), m.consumed + 1, m.p.info.upgrade)
    ensures Good(Step(m, LF, next))
  {
    hide ResByte, VersionByte, ChunkByte, AtUrl, AtReqMethod, AtStartReq, Extend, HeldFits, Inv;
    StepKeepsGood(m, LF, next);
    NothingHeld(m);
    var e := [Notify(ChunkComplete), Notify(MessageComplete)];
    assert Notes([ChunkComplete] + [MessageComplete]) == e;
    ExtendNothing(Delivery(m.d.log + e, map[]), LF);
  }

  // ---- the whole body ------------------------------------------------------------------------------------

  /** The chunks, then the last chunk (any spelling of 0) and the empty trailer. */
  function BodyText(cs: seq<ChunkText>, size: string, ext: string): string {
    PrintAll(cs) + (size + ext + CRLF) + CRLF
  }

  predicate GoodBody(cs: seq<ChunkText>, size: string, ext: string) {
    (forall i :: 0 <= i < |cs| ==> GoodChunk(cs[i])) && SizeLine(size, ext, 0)
  }

  function BodyEvents(cs: seq<ChunkText>): seq<Event> {
    AllEvents(cs) + [Notify(ChunkHeader(0)), Notify(ChunkComplete), Notify(MessageComplete)]
  }

  /** The fields when the message is complete. */
  function Finished(p: Parser): Parser {
    var q := p.(flags := p.flags.(trailing := true), contentLength := 0);
    q.(nread := 2, state := NewMessage(q))
  }

  lemma LastChunkGives(m: Machine, size: string, ext: string)
    requires AtSize(m) && SizeLine(size, ext, 0)
    ensures Gives(m, size + ext + CRLF, CR, AfterSize(m, 0, |size| + |ext| + 2))
  {
    hide Step, Inv, Running, Gives;
    SizeLineGives(m, size, ext, 0, CR);
  }

  /** The empty trailer. */
  lemma TrailerFeed(m: Machine, past: char)
    requires Running(m) && m.loop.Outside? && m.p.nread == 0 && m.p.state == Head(HeaderFieldStart) && m.p.flags.trailing
    ensures Feed(m, CRLF, 2, past) ==
            Machine(m.p.(nread := 2, state := NewMessage(m.p)), Outside,
                    Delivery(m.d.log + [Notify(ChunkComplete), Notify(MessageComplete)], map[]), m.consumed + 2, m.p.info.upgrade)
    ensures Good(Feed(m, CRLF, 2, past)) && Plain(m, CRLF, past)
  {
    hide Step, Inv, HeldFits, LoopFits;
    TrailerCrStep(m, LF);
    var x := Step(m, CR, LF);
    TrailerLfStep(x, past);
    PlainOne(m, CR, LF);
    PlainOne(x, LF, past);
    FeedConcat(m, [CR], [LF], 1, past);
    PlainConcat(m, [CR], [LF], past);
    assert [CR] + [LF] == CRLF;
  }

  /** The machine in front of the empty trailer. */
  function AtTrailer(m: Machine, cs: seq<ChunkText>, n: nat): Machine {
    Machine(m.p.(nread := 0, contentLength := 0, state := Head(HeaderFieldStart), flags := m.p.flags.(trailing := true)),
            Outside, Delivery(m.d.log + AllEvents(cs) + [Notify(ChunkHeader(0))], map[]), m.consumed + n, false)
  }

  lemma AllChunksGive(m: Machine, cs: seq<ChunkText>, size: string, ext: string)
    requires AtSize(m) && GoodBody(cs, size, ext)
    ensures var t := PrintAll(cs) + (size + ext + CRLF); Gives(m, t, CR, AtTrailer(m, cs, |t|))
  {
    hide Step, Inv, HeldFits, SizeLine, GoodChunk, Gives, PrintAll, AllEvents;
    var a, b := PrintAll(cs), size + ext + CRLF;
    ChunksGive(m, cs, b[0]);
    var x := Past(m, if cs == [] then m.p.contentLength else 0, AllEvents(cs), |a|);
    GivesRuns(m, a, b[0], x);
    LastChunkGives(x, size, ext);
    GivesConcat(m, a, x, b, AfterSize(x, 0, |b|), CR);
  }

  /** The machine after the whole body. */
  function Through(m: Machine, cs: seq<ChunkText>, n: nat): Machine {
    Machine(Finished(m.p), Outside, Delivery(m.d.log + BodyEvents(cs), map[]), m.consumed + n, m.p.info.upgrade)
  }

  lemma NewMessageDepends(p: Parser, q: Parser)
    requires p.info == q.info && p.flags == q.flags && p.contentLength == q.contentLength
    ensures NewMessage(p) == NewMessage(q)
  {
  }

  lemma TrailerEnd(m: Machine, cs: seq<ChunkText>, n: nat)
    ensures var y := AtTrailer(m, cs, n);
      Through(m, cs, n + 2) ==
      Machine(y.p.(nread := 2, state := NewMessage(y.p)), Outside,
              Delivery(y.d.log + [Notify(ChunkComplete), Notify(MessageComplete)], map[]), y.consumed + 2, y.p.info.upgrade)
  {
    hide NewMessage;
    NewMessageDepends(AtTrailer(m, cs, n).p, m.p.(flags := m.p.flags.(trailing := true), contentLength := 0));
    assert AtTrailer(m, cs, n).d.log + [Notify(ChunkComplete), Notify(MessageComplete)] == m.d.log + BodyEvents(cs);
  }

  lemma BodyFeed(m: Machine, cs: seq<ChunkText>, size: string, ext: string, past: char)
    requires AtSize(m) && GoodBody(cs, size, ext)
    ensures var t := BodyText(cs, size, ext);
      Feed(m, t, |t|, past) == Through(m, cs, |t|) && Good(Feed(m, t, |t|, past)) && Plain(m, t, past)
  {
    hide Step, Inv, HeldFits, SizeLine, GoodBody, Gives, PrintAll, AllEvents, Plain, NewMessage, Through;
    AllChunksGive(m, cs, size, ext);
    var t := PrintAll(cs) + (size + ext + CRLF);
    var y := AtTrailer(m, cs, |t|);
    GivesRuns(m, t, CR, y);
    TrailerFeed(y, past);
    TrailerEnd(m, cs, |t|);
    FeedOf(m, t, CR, y);
    FeedGlue(m, t, y, CRLF, Through(m, cs, |t| + 2), past);
  }

  lemma FeedGlue(m: Machine, a: string, x: Machine, b: string, z: Machine, past: char)
    requires Feed(m, a, |a|, First(b, past)) == x && Plain(m, a, First(b, past))
    requires Feed(x, b, |b|, past) == z && Plain(x, b, past)
    ensures Feed(m, a + b, |a + b|, past) == z && Plain(m, a + b, past)
  {
    hide Step, Plain;
    FeedConcat(m, a, b, |b|, past);
    PlainConcat(m, a, b, past);
  }

  lemma FeedOf(m: Machine, s: string, past: char, x: Machine)
    requires Gives(m, s, past, x)
    ensures Feed(m, s, |s|, past) == x && Plain(m, s, past)
  {
  }

  // ---- the round trip ------------------------------------------------------------------------------------

  lemma StartAtSize(p: Parser, log: seq<Event>)
    requires p.errno == OK && Inv(p) && p.state == Chunk(ChunkSizeStart)
    ensures AtSize(Start(p, log)) && Start(p, log).consumed == 0 && Start(p, log).d == Delivery(log, map[])
    ensures p.nread <= MAX_HEADER_SIZE && Start(p, log).p == p
  {
  }

  lemma EndOfBody(m: Machine)
    requires m.p.errno == OK && m.loop.Outside? && m.d.held == map[]
    ensures End(m) == m
  {
  }

  /** Printing chunks and parsing them gives the chunks back: one call, any bytes behind it. */
  lemma ChunkedRoundTrip(p: Parser, log: seq<Event>, cs: seq<ChunkText>, size: string, ext: string, past: char)
    requires p.errno == OK && Inv(p) && p.state == Chunk(ChunkSizeStart) && GoodBody(cs, size, ext)
    ensures var t := BodyText(cs, size, ext);
      Call(p, log, t, past) ==
      Machine(Finished(p), Outside, Delivery(log + BodyEvents(cs), map[]), |t|, p.info.upgrade)
  {
    hide Start, Step, Inv, GoodBody, Plain, AllEvents, PrintAll, Good, NewMessage, End;
    StartAtSize(p, log);
    BodyFeed(Start(p, log), cs, size, ext, past);
    EndOfBody(Through(Start(p, log), cs, |BodyText(cs, size, ext)|));
  }

  /** A plain run may be cut anywhere. */
  lemma PlainCuts(p: Parser, log: seq<Event>, ps: seq<Piece>)
    requires ps != [] && (forall i :: 0 <= i < |ps| ==> ps[i].data != "")
    requires Plain(Start(p, log), Whole(ps), ps[|ps| - 1].past)
    ensures CleanCuts(p, log, ps)
  {
    hide Start, Feed, Whole, InHeaderLoop;
    forall k | 0 < k < |ps| ensures CleanCut(p, log, ps, |Whole(ps[..k])|, ps[k - 1].past) {
      WholeAt(ps, k);
      WholeAt(ps, k - 1);
      CutOfPlain(p, log, ps, |Whole(ps[..k])|, ps[k - 1].past);
    }
  }

  lemma CutOfPlain(p: Parser, log: seq<Event>, ps: seq<Piece>, b: nat, behind: char)
    requires ps != [] && 0 < b < |Whole(ps)| && Plain(Start(p, log), Whole(ps), ps[|ps| - 1].past)
    ensures CleanCut(p, log, ps, b, behind)
  {
    hide Start, Feed, Whole, InHeaderLoop;
    var s, w, past := Start(p, log), Whole(ps), ps[|ps| - 1].past;
    assert Calm(Feed(s, w, b, past).p.state) && Calm(Feed(s, w, b - 1, past).p.state);
  }

  /** The same in any fragmentation, whatever lies in memory behind the pieces. */
  lemma ChunkedRoundTripInPieces(p: Parser, log: seq<Event>, cs: seq<ChunkText>, size: string, ext: string, ps: seq<Piece>)
    requires p.errno == OK && Inv(p) && p.state == Chunk(ChunkSizeStart) && GoodBody(cs, size, ext)
    requires ps != [] && (forall i :: 0 <= i < |ps| ==> ps[i].data != "")
    requires Whole(ps) == BodyText(cs, size, ext) && |Whole(ps)| <= MAX_CALL
    ensures var m := Calls(p, log, ps);
      m.p == Finished(p) && m.d.log == log + BodyEvents(cs) && m.consumed == |Whole(ps)| && m.exited == p.info.upgrade
  {
    hide Start, Step, Inv, GoodBody, Plain, AllEvents, PrintAll, Good, NewMessage, Call, Calls, BodyEvents, Whole;
    StartAtSize(p, log);
    var past := ps[|ps| - 1].past;
    BodyFeed(Start(p, log), cs, size, ext, past);
    PlainCuts(p, log, ps);
    CutsOutsideHeaders(p, log, ps);
    ChunkedRoundTrip(p, log, cs, size, ext, past);
  }

  /** However the digits of a chunk size are cut into calls: within the header budget the size is
      stored exactly when its value is at most 2^64 - 17, and refused otherwise. */
  lemma ChunkSizeInPieces(p: Parser, log: seq<Event>, s: string, ps: seq<Piece>)
    requires p.errno == OK && Inv(p) && p.state == Chunk(ChunkSizeStart) && HexDigits(s) && s != "" && |s| <= MAX_HEADER_SIZE
    requires ps != [] && (forall i :: 0 <= i < |ps| ==> ps[i].data != "") && Whole(ps) == s
    ensures var q := Calls(p, log, ps).p;
      if HexValue(s) <= MAX_CHUNK
      then q == p.(nread := |s|, contentLength := HexValue(s), state := Chunk(ChunkSize))
      else q.errno == InvalidContentLength
  {
    hide Step, Inv, Plain, Calls, Whole, HexDigits, HexValue, Running, Leftover, Start;
    StartAtSize(p, log);
    var m, past := Start(p, log), ps[|ps| - 1].past;
    SizeIsPlain(m, s, past);
    PlainCuts(p, log, ps);
    CutsOutsideHeaders(p, log, ps);
    SizeIsExact(m, s, |s|, past);
    assert s[..|s|] == s;
  }

  // ---- what an application makes of the callbacks ----------------------------------------------------

  /** Everything on_body is given. */
  function BodyBytes(log: seq<Event>): string {
    if log == [] then "" else
    BodyBytes(log[..|log| - 1]) + (if log[|log| - 1].Data? && log[|log| - 1].kind == BodyData then log[|log| - 1].bytes else "")
  }

  function MessagesIn(log: seq<Event>): nat {
    if log == [] then 0 else MessagesIn(log[..|log| - 1]) + if log[|log| - 1] == Notify(MessageComplete) then 1 else 0
  }

  function DataOf(cs: seq<ChunkText>): string {
    if cs == [] then "" else cs[0].data + DataOf(cs[1..])
  }

  lemma {:induction false} TalliesConcat(a: seq<Event>, b: seq<Event>)
    ensures BodyBytes(a + b) == BodyBytes(a) + BodyBytes(b)
    ensures MessagesIn(a + b) == MessagesIn(a) + MessagesIn(b)
  {
    hide BodyBytes, MessagesIn;
    if b == [] {
      assert a + b == a;
      NoTally();
    } else {
      var e := b[|b| - 1];
      assert b == b[..|b| - 1] + [e];
      assert a + b == (a + b[..|b| - 1]) + [e];
      TalliesConcat(a, b[..|b| - 1]);
      LastTally(a + b[..|b| - 1], e);
      LastTally(b[..|b| - 1], e);
    }
  }

  lemma NoTally()
    ensures BodyBytes([]) == "" && MessagesIn([]) == 0
  {
  }

  lemma LastTally(a: seq<Event>, e: Event)
    ensures BodyBytes(a + [e]) == BodyBytes(a) + (if e.Data? && e.kind == BodyData then e.bytes else "")
    ensures MessagesIn(a + [e]) == MessagesIn(a) + if e == Notify(MessageComplete) then 1 else 0
  {
    assert (a + [e])[..|a|] == a;
  }

  lemma {:induction false} ChunkTallies(cs: seq<ChunkText>)
    ensures BodyBytes(AllEvents(cs)) == DataOf(cs) && MessagesIn(AllEvents(cs)) == 0
  {
    if cs == [] {
      assert AllEvents(cs) == [];
    } else {
      TalliesConcat(ChunkEvents(cs[0]), AllEvents(cs[1..]));
      ChunkTallies(cs[1..]);
      ThreeTally(Notify(ChunkHeader(|cs[0].data|)), Data(BodyData, cs[0].data), Notify(ChunkComplete));
      assert AllEvents(cs) == ChunkEvents(cs[0]) + AllEvents(cs[1..]);
      assert DataOf(cs) == cs[0].data + DataOf(cs[1..]);
    }
  }

  lemma OneTally(e: Event)
    ensures BodyBytes([e]) == (if e.Data? && e.kind == BodyData then e.bytes else "")
    ensures MessagesIn([e]) == if e == Notify(MessageComplete) then 1 else 0
  {
    NoTally();
    LastTally([], e);
    assert [] + [e] == [e];
  }

  lemma ThreeTally(e: Event, f: Event, g: Event)
    requires e.Notify? && g.Notify?
    ensures BodyBytes([e, f, g]) == (if f.Data? && f.kind == BodyData then f.bytes else "")
    ensures MessagesIn([e, f, g]) ==
            (if e == Notify(MessageComplete) then 1 else 0) + (if f == Notify(MessageComplete) then 1 else 0) +
            (if g == Notify(MessageComplete) then 1 else 0)
  {
    TalliesConcat([e], [f]);
    TalliesConcat([e] + [f], [g]);
    assert [e] + [f] + [g] == [e, f, g];
    OneTally(e);
    OneTally(f);
    OneTally(g);
  }

  /** Whatever way the body is spelled and cut, the body bytes handed over are the data of the
      chunks and the message completes exactly once. */
  lemma ChunkedDelivery(p: Parser, cs: seq<ChunkText>, size: string, ext: string, ps: seq<Piece>)
    requires p.errno == OK && Inv(p) && p.state == Chunk(ChunkSizeStart) && GoodBody(cs, size, ext)
    requires ps != [] && (forall i :: 0 <= i < |ps| ==> ps[i].data != "")
    requires Whole(ps) == BodyText(cs, size, ext) && |Whole(ps)| <= MAX_CALL
    ensures var m := Calls(p, [], ps);
      BodyBytes(m.d.log) == DataOf(cs) && MessagesIn(m.d.log) == 1 && m.p.errno == OK && m.consumed == |Whole(ps)|
  {
    hide Call, Calls, Inv, GoodBody, Whole, BodyText, NewMessage;
    ChunkedRoundTripInPieces(p, [], cs, size, ext, ps);
    var e, f, g := Notify(ChunkHeader(0)), Notify(ChunkComplete), Notify(MessageComplete);
    ChunkTallies(cs);
    TalliesConcat(AllEvents(cs), [e, f, g]);
    ThreeTally(e, f, g);
    assert [] + BodyEvents(cs) == BodyEvents(cs);
  }
}
