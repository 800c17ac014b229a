/** The parser one byte at a time: what the switch of http_parser_execute does with a single
    byte, as a function of the parser fields. Bulk reads, slices and marks are the business
    of HttpExecute, which is proved to compute the same thing. */
module HttpMachine {
  import opened Basics
  import opened HttpBase

  /** Where the call is inside the loops of s_header_field and s_header_value: outside them,
      inside, or inside with the memchr() scan of a general value under way. */
  datatype Loop = Outside | Inside | Scanning

  /** What a byte does first to the slice that is open for a data callback. Flush: delivered
      without this byte. FlushEmpty: opened at this byte and delivered at once. FlushThrough:
      delivered with this byte. */
  datatype Close = Leave | Flush(kind: DataKind) | FlushEmpty(kind: DataKind) | FlushThrough(kind: DataKind)

  /** Result of one byte: the fields, then the callbacks in order (the closed slice, the
      notifications), then the slice that starts here unless it is open already. `exit`: the
      call returns right after this byte (upgrade). */
  datatype Out = Out(p: Parser, loop: Loop, close: Close, tells: seq<Notice>, mark: Option<DataKind>, exit: bool)

  // ---- the invariant ------------------------------------------------------------------------

  const MAX_CHUNK: nat := ULLONG_MAX - 16
  const MAX_LENGTH: nat := ULLONG_MAX - 6

  predicate FieldPhase(h: HeaderState) {
    h.General? || h.HC? || h.HCO? || h.HCON? || h.MatchingConnection? || h.MatchingProxyConnection? ||
    h.MatchingContentLength? || h.MatchingTransferEncoding? || h.MatchingUpgrade? ||
    h.Connection? || h.ContentLength? || h.TransferEncoding? || h.Upgrade?
  }

  /** What ties the parser fields together between two bytes. */
  predicate Inv(p: Parser) {
    && p.nread < TWO_TO_32
    && p.index < 128
    && p.contentLength <= ULLONG_MAX
    && match p.state
       case Res(r) => r.ResStatusCode? ==> p.info.statusCode <= 999
       case Head(h) =>
         && !h.HeadersDone? && !h.HeaderValueStart?
         && (h.HeaderField? ==> FieldPhase(p.headerState))
         && (h.HeaderValue? ==> !p.headerState.Connection? && !p.headerState.TransferEncoding?)
         && (h.HeaderValue? && p.headerState.ContentLength? ==> p.contentLength <= MAX_LENGTH)
       case Chunk(k) =>
         && p.flags.chunked
         && (k.ChunkSizeStart? ==> p.nread == 0)
         && (!k.ChunkSizeStart? && !k.ChunkDataDone? ==> p.contentLength <= MAX_CHUNK)
         && (k.ChunkData? ==> 0 < p.contentLength)
         && (k.ChunkDataAlmostDone? ==> p.contentLength == 0)
       case Body(b) => !b.MessageDone? && (b.BodyIdentity? ==> 0 < p.contentLength < ULLONG_MAX)
       case _ => true
  }

  predicate Clean(p: Parser) { p.errno != AssertionFailed && p.errno != InvalidInternalState }

  /** Inv as it stands once the byte has been counted. */
  predicate InvCounted(p: Parser) {
    Inv(p.(nread := if p.state == Chunk(ChunkSizeStart) then 0 else p.nread)) &&
    (p.state == Chunk(ChunkSizeStart) ==> p.nread == 1)
  }

  /** The one slice that may be open between two bytes. */
  function Live(s: State): Option<DataKind> {
    match s
    case Chunk(k) => if k.ChunkData? || k.ChunkDataAlmostDone? then Some(BodyData) else None
    case Body(b) => if b.MessageDone? then None else Some(BodyData)
    case _ => EntryMark(s)
  }

  /** The slice that a call opens on entry. */
  function EntryMark(s: State): Option<DataKind> {
    match s
    case Head(h) => if h.HeaderField? then Some(FieldData) else if h.HeaderValue? then Some(ValueData) else None
    case Url(_) => Some(UrlData)
    case Res(r) => if r.ResStatus? then Some(StatusData) else None
    case _ => None
  }

  /** A call is inside an inner loop only in s_header_field and s_header_value, and outside
      the loops the header budget has been checked. */
  predicate LoopFits(p: Parser, loop: Loop) {
    match loop
    case Outside => p.nread <= MAX_HEADER_SIZE
    case Inside => p.state == Head(HeaderField) || p.state == Head(HeaderValue)
    case Scanning => p.state == Head(HeaderValue) && p.headerState.General?
  }

  /** The callbacks of a byte fit the states before and after it: a slice is closed only if it
      can be open, notifications are sent only between slices, and a slice that a call would
      open on entry is open. */
  predicate Tidy(s: State, o: Out) {
    && (match o.close
        case Leave => Live(s).Some? ==> o.tells == [] && Live(o.p.state) == Live(s)
        case Flush(k) => Live(s) == Some(k)
        case FlushEmpty(k) => Live(s) == None
        case FlushThrough(k) => Live(s) == Some(k))
    && (if o.close.Leave? && Live(s).Some?
        then o.mark == Live(s) || (o.mark == None && EntryMark(s) == Live(s))
        else o.mark == Live(o.p.state) || (o.mark == None && EntryMark(o.p.state) == None))
    && (o.exit ==> Live(o.p.state) == None && o.loop.Outside?)
    && LoopFits(o.p, o.loop) && (!o.loop.Outside? ==> o.p.state == s)
  }

  /** What every byte keeps. */
  predicate Fine(o: Out) { Clean(o.p) && (o.p.errno == OK ==> Inv(o.p)) }

  function Fail(p: Parser, e: Errno): Out { Out(p.(errno := e), Outside, Leave, [], None, false) }

  function Go(p: Parser, s: State): Out { Out(p.(state := s), Outside, Leave, [], None, false) }

  function GoMark(p: Parser, s: State, k: DataKind): Out { Out(p.(state := s), Outside, Leave, [], Some(k), false) }

  function GoClose(p: Parser, s: State, close: Close): Out { Out(p.(state := s), Outside, close, [], None, false) }

  function GoTell(p: Parser, s: State, n: Notice): Out { Out(p.(state := s), Outside, Leave, [n], None, false) }

  function Stay(p: Parser): Out { Out(p, Outside, Leave, [], None, false) }

  function Loops(p: Parser, loop: Loop): Out { Out(p, loop, Leave, [], None, false) }

  /** A byte handled twice (REEXECUTE): the first state's callbacks come before. */
  function Closing(close: Close, o: Out): Out { o.(close := close) }

  function Telling(n: Notice, o: Out): Out { o.(tells := [n] + o.tells) }

  function Expect(p: Parser, ok: bool, s: State, e: Errno): Out { if ok then Go(p, s) else Fail(p, e) }

  predicate IsBreak(c: char) { c == CR || c == LF }

  /** http_message_needs_eof. */
  predicate NeedsEof(p: Parser) {
    && !p.info.kind.Request?
    && !(p.info.statusCode / 100 == 1 || p.info.statusCode == 204 || p.info.statusCode == 304 || p.flags.skipBody)
    && !(p.flags.chunked || p.contentLength != ULLONG_MAX)
  }

  /** http_should_keep_alive. */
  predicate ShouldKeepAlive(p: Parser) {
    && (if p.info.httpMajor > 0 && p.info.httpMinor > 0 then !p.flags.close else p.flags.keepAlive)
    && !NeedsEof(p)
  }

  /** NEW_MESSAGE(). */
  function NewMessage(p: Parser): (s: State)
    ensures s.Dead? || s.StartReq? || s.StartRes?
  {
    if !ShouldKeepAlive(p) then Dead else if p.info.kind.Request? then StartReq else StartRes
  }

  // ---- URL characters -----------------------------------------------------------------

  /** parse_url_char; Dead is the error state. */
  function UrlChar(s: State, c: char): (r: State)
    ensures r.Dead? || r.Url?
  {
    if c == ' ' || c == CR || c == LF || c == '\t' || c as int == 12 then Dead
    else match s
      case ReqSpacesBeforeUrl =>
        if c == '/' || c == '*' then Url(ReqPath) else if IsAlpha(c) then Url(ReqSchema) else Dead
      case Url(u) => UrlNext(u, c)
      case _ => Dead
  }

  function UrlNext(u: UrlState, c: char): (r: State)
    ensures r.Dead? || r.Url?
  {
    match u
    case ReqSchema => if IsAlpha(c) then Url(ReqSchema) else if c == ':' then Url(ReqSchemaSlash) else Dead
    case ReqSchemaSlash => if c == '/' then Url(ReqSchemaSlashSlash) else Dead
    case ReqSchemaSlashSlash => if c == '/' then Url(ReqServerStart) else Dead
    case ReqServerWithAt => if c == '@' then Dead else ServerChar(c)
    case ReqServerStart => ServerChar(c)
    case ReqServer => ServerChar(c)
    case ReqPath =>
      if IsUrlChar(c) then Url(ReqPath)
      else if c == '?' then Url(ReqQueryStringStart) else if c == '#' then Url(ReqFragmentStart) else Dead
    case ReqQueryStringStart => QueryChar(c)
    case ReqQueryString => QueryChar(c)
    case ReqFragmentStart =>
      if IsUrlChar(c) || c == '?' then Url(ReqFragment) else if c == '#' then Url(ReqFragmentStart) else Dead
    case ReqFragment => if IsUrlChar(c) || c == '?' || c == '#' then Url(ReqFragment) else Dead
  }

  function ServerChar(c: char): (r: State)
    ensures r.Dead? || r.Url?
  {
    if c == '/' then Url(ReqPath)
    else if c == '?' then Url(ReqQueryStringStart)
    else if c == '@' then Url(ReqServerWithAt)
    else if IsUserinfoChar(c) || c == '[' || c == ']' then Url(ReqServer)
    else Dead
  }

  function QueryChar(c: char): (r: State)
    ensures r.Dead? || r.Url?
  {
    if IsUrlChar(c) || c == '?' then Url(ReqQueryString) else if c == '#' then Url(ReqFragmentStart) else Dead
  }

  // ---- end of headers, end of message -----------------------------------------------------

  /** The message is complete; `exit` when the rest belongs to a different protocol. */
  function EndMessage(p: Parser, exit: bool): (o: Out)
    ensures o.p.errno == p.errno && Live(o.p.state) == None && o.close == Leave && o.mark == None
  {
    Out(p.(state := NewMessage(p)), Outside, Leave, [MessageComplete], None, exit)
  }

  function AtMessageDone(p: Parser): (o: Out)
    ensures Inv(p.(state := Head(HeaderFieldStart))) && p.errno == OK ==> Fine(o)
  {
    EndMessage(p, p.info.upgrade)
  }

  function AtHeadersDone(p: Parser, c: char): (o: Out)
    ensures Inv(p.(state := Head(HeaderFieldStart))) && p.errno == OK ==> Fine(o)
    ensures o.close == Leave && o.mark == None
  {
    if c != LF then Fail(p, Strict) else
    var q := p.(nread := 0);
    var hasBody := q.flags.chunked || (q.contentLength > 0 && q.contentLength != ULLONG_MAX);
    if q.info.upgrade && (q.info.meth.CONNECT? || q.flags.skipBody || !hasBody) then EndMessage(q, true)
    else if q.flags.skipBody then EndMessage(q, false)
    else if q.flags.chunked then Go(q, Chunk(ChunkSizeStart))
    else if q.contentLength == 0 then EndMessage(q, false)
    else if q.contentLength != ULLONG_MAX then Go(q, Body(BodyIdentity))
    else if !NeedsEof(q) then EndMessage(q, false)
    else Go(q, Body(BodyIdentityEof))
  }

  /** The headers hand the connection over to another protocol. */
  predicate Upgrades(p: Parser) {
    if p.flags.upgrade && p.flags.connectionUpgrade then p.info.kind.Request? || p.info.statusCode == 101
    else p.info.meth.CONNECT?
  }

  function AtHeadersAlmostDone(p: Parser, c: char): (o: Out)
    ensures Inv(p.(state := Head(HeaderFieldStart))) && p.errno == OK ==> Fine(o)
  {
    if c != LF then Fail(p, Strict)
    else if p.flags.trailing then
      Telling(ChunkComplete, AtMessageDone(p.(state := Body(MessageDone))))
    else if p.flags.chunked && p.flags.contentLength then Fail(p, UnexpectedContentLength)
    else Telling(HeadersComplete, AtHeadersDone(p.(state := Head(HeadersDone), info := p.info.(upgrade := Upgrades(p))), c))
  }

  // ---- header field -----------------------------------------------------------------------

  function FirstOfField(c: char): HeaderState {
    match c
    case 'c' => HC
    case 'p' => MatchingProxyConnection
    case 't' => MatchingTransferEncoding
    case 'u' => MatchingUpgrade
    case _ => General
  }

  function AtHeaderFieldStart(p: Parser, c: char): (o: Out)
    ensures Inv(p.(state := Head(HeaderFieldStart))) && p.errno == OK ==> Fine(o)
  {
    if c == CR then Go(p, Head(HeadersAlmostDone))
    else if c == LF then AtHeadersAlmostDone(p.(state := Head(HeadersAlmostDone)), c)
    else if !IsToken(c) then Fail(p, InvalidHeaderToken)
    else GoMark(p.(index := 0, headerState := FirstOfField(TokenOf(c))), Head(HeaderField), FieldData)
  }

  const CONNECTION := "connection"
  const PROXY_CONNECTION := "proxy-connection"
  const CONTENT_LENGTH := "content-length"
  const TRANSFER_ENCODING := "transfer-encoding"
  const UPGRADE := "upgrade"
  const CHUNKED := "chunked"
  const KEEP_ALIVE := "keep-alive"
  const CLOSE := "close"

  // parser->index is a 7-bit field
  function Inc(index: nat): nat { (index + 1) % 128 }

  /** One step of matching `name`: `i` is the index after the increment. The byte at |name|
      is the terminating NUL. */
  function MatchName(name: string, i: nat, c: char, keep: HeaderState, done: HeaderState, lost: HeaderState): HeaderState
    requires |name| > 0
  {
    if i > |name| || c != (if i < |name| then name[i] else '\0') then lost
    else if i == |name| - 1 then done
    else keep
  }

  /** The nested machine of s_header_field: c is the lower-cased token character. None is the
      failing assert of its default case. */
  function FieldChar(h: HeaderState, i: nat, c: char): Option<(HeaderState, nat)> {
    match h
    case General => Some((General, i))
    case HC => Some((if c == 'o' then HCO else General, Inc(i)))
    case HCO => Some((if c == 'n' then HCON else General, Inc(i)))
    case HCON =>
      Some((if c == 'n' then MatchingConnection else if c == 't' then MatchingContentLength else General, Inc(i)))
    case MatchingConnection => Some((MatchName(CONNECTION, Inc(i), c, h, Connection, General), Inc(i)))
    case MatchingProxyConnection => Some((MatchName(PROXY_CONNECTION, Inc(i), c, h, Connection, General), Inc(i)))
    case MatchingContentLength => Some((MatchName(CONTENT_LENGTH, Inc(i), c, h, ContentLength, General), Inc(i)))
    case MatchingTransferEncoding => Some((MatchName(TRANSFER_ENCODING, Inc(i), c, h, TransferEncoding, General), Inc(i)))
    case MatchingUpgrade => Some((MatchName(UPGRADE, Inc(i), c, h, Upgrade, General), Inc(i)))
    case Connection => Some((if c != ' ' then General else h, i))
    case ContentLength => Some((if c != ' ' then General else h, i))
    case TransferEncoding => Some((if c != ' ' then General else h, i))
    case Upgrade => Some((if c != ' ' then General else h, i))
    case _ => None
  }

  function AtHeaderField(p: Parser, c: char): (o: Out)
    ensures Inv(p) && p.state == Head(HeaderField) && p.errno == OK ==> Fine(o)
  {
    if IsToken(c) then
      match FieldChar(p.headerState, p.index, TokenOf(c))
      case Some((h, i)) => Loops(p.(headerState := h, index := i), Inside)
      case None => Fail(p, AssertionFailed)
    else if p.nread > MAX_HEADER_SIZE then Fail(p, HeaderOverflow)
    else if c == ':' then GoClose(p, Head(HeaderValueDiscardWs), Flush(FieldData))
    else Fail(p, InvalidHeaderToken)
  }

  // ---- header value -----------------------------------------------------------------------

  function AtHeaderValueStart(p: Parser, c: char): (o: Out)
    ensures Inv(p.(state := Head(HeaderFieldStart))) && p.errno == OK ==> Fine(o)
  {
    var q := p.(state := Head(HeaderValue), index := 0);
    var l := Lower(c);
    match p.headerState
    case Upgrade => GoMark(q.(flags := q.flags.(upgrade := true), headerState := General), Head(HeaderValue), ValueData)
    case TransferEncoding =>
      GoMark(q.(headerState := if l == 'c' then MatchingChunked else General), Head(HeaderValue), ValueData)
    case ContentLength =>
      if !IsNum(c) then Fail(q, InvalidContentLength)
      else if q.flags.contentLength then Fail(q, UnexpectedContentLength)
      else GoMark(q.(flags := q.flags.(contentLength := true), contentLength := Digit(c)), Head(HeaderValue), ValueData)
    case Connection =>
      GoMark(q.(headerState := if l == 'k' then MatchingKeepAlive else if l == 'c' then MatchingClose
                               else if l == 'u' then MatchingConnUpgrade else ConnToken), Head(HeaderValue), ValueData)
    case TokenStart => GoMark(q, Head(HeaderValue), ValueData)
    case _ => GoMark(q.(headerState := General), Head(HeaderValue), ValueData)
  }

  function AtHeaderValueDiscardWs(p: Parser, c: char): (o: Out)
    ensures Inv(p.(state := Head(HeaderFieldStart))) && p.state == Head(HeaderValueDiscardWs) && p.errno == OK ==> Fine(o)
  {
    if c == ' ' || c == '\t' then Stay(p)
    else if c == CR then Go(p, Head(HeaderValueDiscardWsAlmostDone))
    else if c == LF then Go(p, Head(HeaderValueDiscardLws))
    else AtHeaderValueStart(p, c)
  }

  /** The flags with the one a finished header value sets. */
  function FinishFlags(h: HeaderState, f: Flags): Flags {
    match h
    case KeepAlive => f.(keepAlive := true)
    case Close => f.(close := true)
    case Chunked => f.(chunked := true)
    case ConnUpgrade => f.(connectionUpgrade := true)
    case _ => f
  }

  function FinishHeader(p: Parser): Parser {
    p.(flags := FinishFlags(p.headerState, p.flags), state := Head(HeaderFieldStart))
  }

  /** The nested machine of s_header_value outside a Content-Length, for a byte that is
      neither CR nor LF. */
  function ValueState(h: HeaderState, i: nat, c: char): (r: (HeaderState, nat))
    ensures !r.0.Connection? && !r.0.TransferEncoding? && !r.0.ContentLength? && (i < 128 ==> r.1 < 128)
  {
    var l := Lower(c);
    match h
    case MatchingChunked => (MatchName(CHUNKED, Inc(i), l, h, Chunked, General), Inc(i))
    case TokenStart =>
      (if l == 'k' then MatchingKeepAlive else if l == 'c' then MatchingClose
       else if l == 'u' then MatchingConnUpgrade else if IsToken(l) then ConnToken
       else if l == ' ' || l == '\t' then TokenStart else General, i)
    case MatchingKeepAlive => (MatchName(KEEP_ALIVE, Inc(i), l, h, KeepAlive, ConnToken), Inc(i))
    case MatchingClose => (MatchName(CLOSE, Inc(i), l, h, Close, ConnToken), Inc(i))
    case MatchingConnUpgrade => (MatchName(UPGRADE, Inc(i), l, h, ConnUpgrade, ConnToken), Inc(i))
    case ConnToken => if c == ',' then (TokenStart, 0) else (h, i)
    case Chunked => (if c != ' ' then General else h, i)
    case KeepAlive => AfterToken(h, i, c)
    case Close => AfterToken(h, i, c)
    case ConnUpgrade => AfterToken(h, i, c)
    case _ => (General, i)
  }

  function AfterToken(h: HeaderState, i: nat, c: char): (HeaderState, nat) {
    if c == ',' then (TokenStart, 0) else (if c != ' ' then ConnToken else h, i)
  }

  /** A byte of a Content-Length value; the overflow test comes before the store. */
  function LengthChar(p: Parser, c: char): (o: Out)
    ensures Inv(p) && p.state == Head(HeaderValue) && p.headerState.ContentLength? && p.errno == OK ==> Fine(o)
  {
    if c == ' ' then Loops(p, Inside)
    else if !IsNum(c) then Fail(p, InvalidContentLength)
    else if (ULLONG_MAX - 10) / 10 < p.contentLength then Fail(p, InvalidContentLength)
    else Loops(p.(contentLength := (p.contentLength * 10 + Digit(c)) % TWO_TO_64), Inside)
  }

  /** A byte of a value that is neither general nor a length; a ',' ends a token of a
      Connection header and sets its flag. */
  function TokenChar(p: Parser, c: char): (o: Out)
    ensures Inv(p) && p.state == Head(HeaderValue) && p.errno == OK ==> Fine(o)
  {
    var f := if c == ',' && !p.headerState.Chunked? then FinishFlags(p.headerState, p.flags) else p.flags;
    var (h, i) := ValueState(p.headerState, p.index, c);
    Loops(p.(flags := f, headerState := h, index := i), Inside)
  }

  function ValueChar(p: Parser, c: char): (o: Out)
    ensures Inv(p) && p.state == Head(HeaderValue) && p.errno == OK ==> Fine(o)
  {
    match p.headerState
    case General => Loops(p, Scanning)
    case Connection => Fail(p, AssertionFailed)
    case TransferEncoding => Fail(p, AssertionFailed)
    case ContentLength => LengthChar(p, c)
    case _ => TokenChar(p, c)
  }

  function AtHeaderAlmostDone(p: Parser, c: char): (o: Out)
    ensures Inv(p.(state := Head(HeaderFieldStart))) && p.errno == OK ==> Fine(o)
  { Expect(p, c == LF, Head(HeaderValueLws), LfExpected) }

  function AtHeaderValue(p: Parser, loop: Loop, c: char): (o: Out)
    ensures Inv(p) && p.state == Head(HeaderValue) && p.errno == OK ==> Fine(o)
  {
    if c == CR then
      var q := p.(state := Head(HeaderAlmostDone));
      if p.nread > MAX_HEADER_SIZE then Fail(q, HeaderOverflow).(close := Flush(ValueData))
      else GoClose(p, Head(HeaderAlmostDone), Flush(ValueData))
    else if c == LF then
      if p.nread > MAX_HEADER_SIZE then Fail(p.(state := Head(HeaderAlmostDone)), HeaderOverflow)
      else Closing(Flush(ValueData), AtHeaderAlmostDone(p.(state := Head(HeaderAlmostDone)), c))
    else if loop == Scanning then Loops(p, Scanning)
    else if !p.lenient && !IsHeaderChar(c) then Fail(p, InvalidHeaderToken)
    else ValueChar(p, c)
  }

  function AtHeaderValueLws(p: Parser, c: char): (o: Out)
    ensures Inv(p) && p.errno == OK ==> Fine(o)
  {
    if c == ' ' || c == '\t' then AtHeaderValueStart(p, c)
    else AtHeaderFieldStart(FinishHeader(p), c)
  }

  function AtHeaderValueDiscardLws(p: Parser, c: char): (o: Out)
    ensures Inv(p) && p.errno == OK ==> Fine(o)
  {
    if c == ' ' || c == '\t' then Go(p, Head(HeaderValueDiscardWs))
    else Closing(FlushEmpty(ValueData), AtHeaderFieldStart(FinishHeader(p), c))
  }

  // ---- request and status line --------------------------------------------------------------

  function Fresh(p: Parser): Parser { p.(flags := NO_FLAGS, contentLength := ULLONG_MAX) }

  function AtStartReq(p: Parser, c: char, next: char): (o: Out)
    ensures Inv(p) && p.errno == OK ==> Fine(o)
  {
    if IsBreak(c) then Stay(p)
    else if !IsAlpha(c) then Fail(Fresh(p), InvalidMethod)
    else match FirstGuess(c, next)
      case Some(m) =>
        GoTell(Fresh(p).(index := 1, info := p.info.(meth := m)), ReqMethod, MessageBegin)
      case None => Fail(Fresh(p), InvalidMethod)
  }

  function AtStartReqOrRes(p: Parser, c: char, next: char): (o: Out)
    ensures Inv(p) && p.errno == OK ==> Fine(o)
  {
    if IsBreak(c) then Stay(p)
    else if c == 'H' then GoTell(Fresh(p), ResOrRespH, MessageBegin)
    else AtStartReq(Fresh(p).(state := StartReq, info := p.info.(kind := Request)), c, next)
  }

  function AtResOrRespH(p: Parser, c: char): (o: Out)
    ensures Inv(p) && p.errno == OK ==> Fine(o)
  {
    if c == 'T' then Go(p.(info := p.info.(kind := Response)), Res(ResHT))
    else if c != 'E' then Fail(p, InvalidConstant)
    else Go(p.(index := 2, info := p.info.(kind := Request, meth := HEAD)), ReqMethod)
  }

  // a leading CR or LF also announces a message
  function AtStartRes(p: Parser, c: char): (o: Out)
    ensures Inv(p) && p.errno == OK ==> Fine(o)
  {
    if c == 'H' then GoTell(Fresh(p), Res(ResH), MessageBegin)
    else if IsBreak(c) then GoTell(Fresh(p), StartRes, MessageBegin)
    else Fail(Fresh(p), InvalidConstant)
  }

  function AtReqMethod(p: Parser, c: char): (o: Out)
    ensures Inv(p) && p.state == ReqMethod && p.errno == OK ==> Fine(o)
  {
    if c == '\0' then Fail(p, InvalidMethod) else
    var name := MethodName(p.info.meth);
    var q := p.(index := Inc(p.index));
    if c == ' ' && p.index >= |name| then Go(q, ReqSpacesBeforeUrl)
    else if p.index < |name| && c == name[p.index] then Stay(q)
    else match NextGuess(p.info.meth, p.index, c)
      case Some(m) => Stay(q.(info := q.info.(meth := m)))
      case None => Fail(p, InvalidMethod)
  }

  function AtReqSpacesBeforeUrl(p: Parser, c: char): (o: Out)
    ensures Inv(p) && p.state == ReqSpacesBeforeUrl && p.errno == OK ==> Fine(o)
  {
    if c == ' ' then Stay(p) else
    var s := UrlChar(if p.info.meth.CONNECT? then Url(ReqServerStart) else p.state, c);
    if s == Dead then Fail(p, InvalidUrl) else GoMark(p, s, UrlData)
  }

  /** In a scheme, its slashes and right after them no white space may follow. */
  predicate UrlMayEnd(u: UrlState) {
    !u.ReqSchema? && !u.ReqSchemaSlash? && !u.ReqSchemaSlashSlash? && !u.ReqServerStart?
  }

  function AtUrl(p: Parser, u: UrlState, c: char): (o: Out)
    ensures Inv(p) && p.errno == OK ==> Fine(o)
  {
    if UrlMayEnd(u) && c == ' ' then GoClose(p, Version(ReqHttpStart), Flush(UrlData))
    else if UrlMayEnd(u) && IsBreak(c) then
      GoClose(p.(info := p.info.(httpMajor := 0, httpMinor := 9)),
              if c == CR then Version(ReqLineAlmostDone) else Head(HeaderFieldStart), Flush(UrlData))
    else
      var s := UrlChar(Url(u), c);
      if s == Dead then Fail(p, InvalidUrl) else Go(p, s)
  }

  function AtResStatus(p: Parser, c: char): (o: Out)
    ensures Inv(p) && p.state == Res(ResStatus) && p.errno == OK ==> Fine(o)
  {
    if c == CR then GoClose(p, Res(ResLineAlmostDone), Flush(StatusData))
    else if c == LF then GoClose(p, Head(HeaderFieldStart), Flush(StatusData))
    else Stay(p)
  }

  function AtResStatusStart(p: Parser, c: char): (o: Out)
    ensures Inv(p.(state := Head(HeaderFieldStart))) && p.errno == OK ==> Fine(o)
  {
    var q := p.(state := Res(ResStatus), index := 0);
    if IsBreak(c) then Closing(FlushEmpty(StatusData), AtResStatus(q, c)) else GoMark(q, Res(ResStatus), StatusData)
  }

  function AtResFirstStatusCode(p: Parser, c: char): (o: Out)
    ensures Inv(p) && p.errno == OK && p.state == Res(ResFirstStatusCode) ==> Fine(o)
  {
    if IsNum(c) then Go(p.(info := p.info.(statusCode := Digit(c))), Res(ResStatusCode))
    else if c == ' ' then Stay(p)
    else Fail(p, InvalidStatus)
  }

  function AtResStatusCode(p: Parser, c: char): (o: Out)
    ensures Inv(p) && p.state == Res(ResStatusCode) && p.errno == OK ==> Fine(o)
  {
    if IsNum(c) then
      var code := p.info.statusCode * 10 + Digit(c);
      var q := p.(info := p.info.(statusCode := code));
      if code > 999 then Fail(q, InvalidStatus) else Stay(q)
    else if c == ' ' then Go(p, Res(ResStatusStart))
    else if IsBreak(c) then AtResStatusStart(p.(state := Res(ResStatusStart)), c)
    else Fail(p, InvalidStatus)
  }

  function AtVersionDigit(p: Parser, c: char, major: bool, s: State): Out {
    if !IsNum(c) then Fail(p, InvalidVersion)
    else
      var i := if major then p.info.(httpMajor := Digit(c)) else p.info.(httpMinor := Digit(c));
      Go(p.(info := i), s)
  }

  // ---- bodies ---------------------------------------------------------------------------------

  predicate CountIsLive(p: Parser) { p.contentLength != 0 && p.contentLength != ULLONG_MAX }

  function AtBodyIdentity(p: Parser, c: char): (o: Out)
    ensures Inv(p) && p.state == Body(BodyIdentity) && p.errno == OK ==> Fine(o)
  {
    if !CountIsLive(p) then Fail(p, AssertionFailed) else
    var q := p.(contentLength := p.contentLength - 1);
    if q.contentLength == 0 then
      Closing(FlushThrough(BodyData), AtMessageDone(q.(state := Body(MessageDone))))
    else GoMark(q, Body(BodyIdentity), BodyData)
  }

  function AtChunkSizeStart(p: Parser, c: char): (o: Out)
    ensures InvCounted(p) && p.state == Chunk(ChunkSizeStart) && p.errno == OK ==> Fine(o)
  {
    if p.nread != 1 || !p.flags.chunked then Fail(p, AssertionFailed)
    else if Unhex(c) == -1 then Fail(p, InvalidChunkSize)
    else Go(p.(contentLength := Unhex(c)), Chunk(ChunkSize))
  }

  /** Past the overflow test neither the sum nor its 64-bit image reaches ULLONG_MAX. */
  lemma HexNoWrap(n: nat, digit: nat)
    requires n <= (ULLONG_MAX - 16) / 16 && digit < 16
    ensures (n * 16 + digit) % TWO_TO_64 == n * 16 + digit <= MAX_CHUNK
  {
  }

  /** The size so far and one more digit. */
  function NextSize(n: nat, digit: nat): (r: nat)
    requires n <= (ULLONG_MAX - 16) / 16 && digit < 16
    ensures r <= MAX_CHUNK
  {
    HexNoWrap(n, digit);
    (n * 16 + digit) % TWO_TO_64
  }

  function AtChunkSize(p: Parser, c: char): (o: Out)
    ensures Inv(p) && p.state == Chunk(ChunkSize) && p.errno == OK ==> Fine(o)
  {
    if !p.flags.chunked then Fail(p, AssertionFailed)
    else if c == CR then Go(p, Chunk(ChunkSizeAlmostDone))
    else if Unhex(c) == -1 then
      if c == ';' || c == ' ' then Go(p, Chunk(ChunkParameters)) else Fail(p, InvalidChunkSize)
    else if (ULLONG_MAX - 16) / 16 < p.contentLength then Fail(p, InvalidContentLength)
    else Stay(p.(contentLength := NextSize(p.contentLength, Unhex(c))))
  }

  function AtChunkParameters(p: Parser, c: char): (o: Out)
    ensures Inv(p) && p.state == Chunk(ChunkParameters) && p.errno == OK ==> Fine(o)
  {
    if !p.flags.chunked then Fail(p, AssertionFailed)
    else if c == CR then Go(p, Chunk(ChunkSizeAlmostDone))
    else Stay(p)
  }

  function AtChunkSizeAlmostDone(p: Parser, c: char): (o: Out)
    ensures Inv(p) && p.state == Chunk(ChunkSizeAlmostDone) && p.errno == OK ==> Fine(o)
  {
    if !p.flags.chunked then Fail(p, AssertionFailed)
    else if c != LF then Fail(p, Strict)
    else
      var q := p.(nread := 0);
      var n := ChunkHeader(q.contentLength);
      if q.contentLength == 0 then GoTell(q.(flags := q.flags.(trailing := true)), Head(HeaderFieldStart), n)
      else GoTell(q, Chunk(ChunkData), n)
  }

  function AtChunkData(p: Parser, c: char): (o: Out)
    ensures Inv(p) && p.state == Chunk(ChunkData) && p.errno == OK ==> Fine(o)
  {
    if !p.flags.chunked || !CountIsLive(p) then Fail(p, AssertionFailed) else
    var q := p.(contentLength := p.contentLength - 1);
    GoMark(q, if q.contentLength == 0 then Chunk(ChunkDataAlmostDone) else Chunk(ChunkData), BodyData)
  }

  function AtChunkDataAlmostDone(p: Parser, c: char): (o: Out)
    ensures Inv(p) && p.state == Chunk(ChunkDataAlmostDone) && p.errno == OK ==> Fine(o)
  {
    if !p.flags.chunked || p.contentLength != 0 then Fail(p, AssertionFailed)
    else if c != CR then Fail(p, Strict)
    else GoClose(p, Chunk(ChunkDataDone), Flush(BodyData))
  }

  function AtChunkDataDone(p: Parser, c: char): (o: Out)
    ensures Inv(p) && p.state == Chunk(ChunkDataDone) && p.errno == OK ==> Fine(o)
  {
    if !p.flags.chunked then Fail(p, AssertionFailed)
    else if c != LF then Fail(p, Strict)
    else GoTell(p.(nread := 0), Chunk(ChunkSizeStart), ChunkComplete)
  }

  // ---- the switch -----------------------------------------------------------------------------

  function ResByte(p: Parser, r: ResState, c: char): (o: Out)
    ensures Inv(p) && p.state == Res(r) && p.errno == OK ==> Fine(o)
  {
    match r
    case ResH => Expect(p, c == 'T', Res(ResHT), Strict)
    case ResHT => Expect(p, c == 'T', Res(ResHTT), Strict)
    case ResHTT => Expect(p, c == 'P', Res(ResHTTP), Strict)
    case ResHTTP => Expect(p, c == '/', Res(ResHttpMajor), Strict)
    case ResHttpMajor => AtVersionDigit(p, c, true, Res(ResHttpDot))
    case ResHttpDot => Expect(p, c == '.', Res(ResHttpMinor), InvalidVersion)
    case ResHttpMinor => AtVersionDigit(p, c, false, Res(ResHttpEnd))
    case ResHttpEnd => Expect(p, c == ' ', Res(ResFirstStatusCode), InvalidVersion)
    case ResFirstStatusCode => AtResFirstStatusCode(p, c)
    case ResStatusCode => AtResStatusCode(p, c)
    case ResStatusStart => AtResStatusStart(p, c)
    case ResStatus => AtResStatus(p, c)
    case ResLineAlmostDone => Expect(p, c == LF, Head(HeaderFieldStart), Strict)
  }

  function VersionByte(p: Parser, v: VersionState, c: char): (o: Out)
    ensures Inv(p) && p.state == Version(v) && p.errno == OK ==> Fine(o)
  {
    match v
    case ReqHttpStart =>
      if c == 'H' then Go(p, Version(ReqHttpH)) else if c == ' ' then Stay(p) else Fail(p, InvalidConstant)
    case ReqHttpH => Expect(p, c == 'T', Version(ReqHttpHT), Strict)
    case ReqHttpHT => Expect(p, c == 'T', Version(ReqHttpHTT), Strict)
    case ReqHttpHTT => Expect(p, c == 'P', Version(ReqHttpHTTP), Strict)
    case ReqHttpHTTP => Expect(p, c == '/', Version(ReqHttpMajor), Strict)
    case ReqHttpMajor => AtVersionDigit(p, c, true, Version(ReqHttpDot))
    case ReqHttpDot => Expect(p, c == '.', Version(ReqHttpMinor), InvalidVersion)
    case ReqHttpMinor => AtVersionDigit(p, c, false, Version(ReqHttpEnd))
    case ReqHttpEnd =>
      if c == CR then Go(p, Version(ReqLineAlmostDone))
      else if c == LF then Go(p, Head(HeaderFieldStart))
      else Fail(p, InvalidVersion)
    case ReqLineAlmostDone => Expect(p, c == LF, Head(HeaderFieldStart), LfExpected)
  }

  function HeadByte(p: Parser, h: HeadState, loop: Loop, c: char): (o: Out)
    ensures Inv(p) && p.state == Head(h) && p.errno == OK ==> Fine(o)
  {
    match h
    case HeaderFieldStart => AtHeaderFieldStart(p, c)
    case HeaderField => AtHeaderField(p, c)
    case HeaderValueDiscardWs => AtHeaderValueDiscardWs(p, c)
    case HeaderValueDiscardWsAlmostDone => Expect(p, c == LF, Head(HeaderValueDiscardLws), Strict)
    case HeaderValueDiscardLws => AtHeaderValueDiscardLws(p, c)
    case HeaderValueStart => AtHeaderValueStart(p, c)
    case HeaderValue => AtHeaderValue(p, loop, c)
    case HeaderValueLws => AtHeaderValueLws(p, c)
    case HeaderAlmostDone => AtHeaderAlmostDone(p, c)
    case HeadersAlmostDone => AtHeadersAlmostDone(p, c)
    case HeadersDone => AtHeadersDone(p, c)
  }

  function ChunkByte(p: Parser, k: ChunkState, c: char): (o: Out)
    ensures InvCounted(p) && p.state == Chunk(k) && p.errno == OK ==> Fine(o)
  {
    match k
    case ChunkSizeStart => AtChunkSizeStart(p, c)
    case ChunkSize => AtChunkSize(p, c)
    case ChunkParameters => AtChunkParameters(p, c)
    case ChunkSizeAlmostDone => AtChunkSizeAlmostDone(p, c)
    case ChunkData => AtChunkData(p, c)
    case ChunkDataAlmostDone => AtChunkDataAlmostDone(p, c)
    case ChunkDataDone => AtChunkDataDone(p, c)
  }

  /** The switch of http_parser_execute, from `reexecute` to the end of the loop body. */
  function Transition(p: Parser, loop: Loop, c: char, next: char): (o: Out)
    ensures InvCounted(p) && p.errno == OK ==> Fine(o)
  {
    match p.state
    case Dead => if IsBreak(c) then Stay(p) else Fail(p, ClosedConnection)
    case StartReqOrRes => AtStartReqOrRes(p, c, next)
    case ResOrRespH => AtResOrRespH(p, c)
    case StartRes => AtStartRes(p, c)
    case StartReq => AtStartReq(p, c, next)
    case ReqMethod => AtReqMethod(p, c)
    case ReqSpacesBeforeUrl => AtReqSpacesBeforeUrl(p, c)
    case Res(r) => ResByte(p, r, c)
    case Url(u) => AtUrl(p, u, c)
    case Version(v) => VersionByte(p, v, c)
    case Head(h) => HeadByte(p, h, loop, c)
    case Chunk(k) => ChunkByte(p, k, c)
    case Body(BodyIdentity) => AtBodyIdentity(p, c)
    case Body(BodyIdentityEof) => GoMark(p, Body(BodyIdentityEof), BodyData)
    case Body(MessageDone) => AtMessageDone(p)
  }

  // ---- every byte is tidy -----------------------------------------------------------------------

  lemma UrlTidy(p: Parser, u: UrlState, c: char)
    requires p.state == Url(u) && LoopFits(p, Outside)
    ensures var o := AtUrl(p, u, c); o.p.errno == OK ==> Tidy(p.state, o)
  {
    hide Inv, UrlChar;
  }

  lemma StatusTidy(p: Parser, c: char)
    requires LoopFits(p, Outside)
    ensures p.state == Res(ResStatus) ==> var o := AtResStatus(p, c); o.p.errno == OK ==> Tidy(p.state, o)
    ensures Live(p.state).None? ==> var o := AtResStatusStart(p, c); o.p.errno == OK ==> Tidy(p.state, o)
  {
    hide Inv;
  }

  lemma ResTidy(p: Parser, r: ResState, c: char)
    requires p.state == Res(r) && LoopFits(p, Outside)
    ensures var o := ResByte(p, r, c); o.p.errno == OK ==> Tidy(p.state, o)
  {
    hide Inv, AtResStatus, AtResStatusStart, IsNum, Digit;
    StatusTidy(p, c);
    StatusTidy(p.(state := Res(ResStatusStart)), c);
  }

  lemma VersionTidy(p: Parser, v: VersionState, c: char)
    requires p.state == Version(v) && LoopFits(p, Outside)
    ensures var o := VersionByte(p, v, c); o.p.errno == OK ==> Tidy(p.state, o)
  {
    hide Inv;
  }

  lemma HeadersDoneTidy(p: Parser, c: char)
    requires Live(p.state) == None && LoopFits(p, Outside)
    ensures var o := AtHeadersDone(p, c); o.p.errno == OK ==> Tidy(p.state, o)
  {
    hide Inv;
  }

  lemma HeadersAlmostDoneTidy(p: Parser, c: char)
    requires Live(p.state) == None && LoopFits(p, Outside)
    ensures var o := AtHeadersAlmostDone(p, c); o.p.errno == OK ==> Tidy(p.state, o) && o.close == Leave
  {
    hide Inv, AtHeadersDone;
    HeadersDoneTidy(p.(state := Head(HeadersDone), info := p.info.(upgrade := Upgrades(p))), c);
  }

  lemma FieldStartTidy(p: Parser, c: char)
    requires Live(p.state) == None && LoopFits(p, Outside)
    ensures var o := AtHeaderFieldStart(p, c); o.p.errno == OK ==> Tidy(p.state, o) && o.close == Leave
  {
    hide Inv, AtHeadersAlmostDone, IsToken;
    if c == LF {
      HeadersAlmostDoneTidy(p.(state := Head(HeadersAlmostDone)), c);
    }
  }

  lemma ValueTidy(p: Parser, loop: Loop, c: char)
    requires p.state == Head(HeaderValue) && LoopFits(p, loop)
    ensures var o := AtHeaderValue(p, loop, c); o.p.errno == OK ==> Tidy(p.state, o)
  {
    hide Inv, IsHeaderChar, IsNum, Digit, ValueState, FinishFlags;
  }

  lemma AfterValueTidy(p: Parser, c: char)
    requires Live(p.state) == None && LoopFits(p, Outside)
    ensures var o := AtHeaderValueLws(p, c); o.p.errno == OK ==> Tidy(p.state, o)
    ensures var o := AtHeaderValueDiscardLws(p, c); o.p.errno == OK ==> Tidy(p.state, o)
  {
    hide Inv, AtHeaderFieldStart, AtHeaderValueStart, FinishFlags;
    FieldStartTidy(FinishHeader(p), c);
    ValueStartTidy(p, c);
  }

  lemma ValueStartTidy(p: Parser, c: char)
    requires Live(p.state).None? && LoopFits(p, Outside)
    ensures var o := AtHeaderValueStart(p, c); o.p.errno == OK ==> Tidy(p.state, o)
  {
    hide Inv, IsNum, Digit;
  }

  lemma ValueSpaceTidy(p: Parser, c: char)
    requires Live(p.state).None? && LoopFits(p, Outside)
    ensures var o := AtHeaderValueDiscardWs(p, c); o.p.errno == OK ==> Tidy(p.state, o)
  {
    hide Inv, AtHeaderValueStart;
    ValueStartTidy(p, c);
  }

  lemma LineTidy(p: Parser, h: HeadState, loop: Loop, c: char)
    requires p.state == Head(h) && LoopFits(p, Outside) && Live(p.state).None?
    requires !h.HeaderFieldStart? && !h.HeaderValueDiscardLws? && !h.HeaderValueLws?
    requires !h.HeadersAlmostDone? && !h.HeadersDone? && !h.HeaderValueStart? && !h.HeaderValueDiscardWs?
    ensures var o := HeadByte(p, h, loop, c); o.p.errno == OK ==> Tidy(p.state, o)
  {
    hide Inv, AtHeaderFieldStart, AtHeadersAlmostDone, AtHeadersDone, AtHeaderValue, AtHeaderValueStart;
  }

  lemma HeadTidy(p: Parser, h: HeadState, loop: Loop, c: char)
    requires p.state == Head(h) && LoopFits(p, loop)
    ensures var o := HeadByte(p, h, loop, c); o.p.errno == OK ==> Tidy(p.state, o)
  {
    hide Inv, AtHeaderFieldStart, AtHeadersAlmostDone, AtHeadersDone, AtHeaderValue, AtHeaderValueStart, AtHeaderValueLws,
      AtHeaderValueDiscardLws, AtHeaderValueDiscardWs, FieldChar, IsToken;
    match h
    case HeaderFieldStart => FieldStartTidy(p, c);
    case HeaderValueDiscardLws => AfterValueTidy(p, c);
    case HeaderValueLws => AfterValueTidy(p, c);
    case HeadersAlmostDone => HeadersAlmostDoneTidy(p, c);
    case HeadersDone => HeadersDoneTidy(p, c);
    case HeaderValue => ValueTidy(p, loop, c);
    case HeaderValueStart => ValueStartTidy(p, c);
    case HeaderValueDiscardWs => ValueSpaceTidy(p, c);
    case HeaderField =>
    case _ => LineTidy(p, h, loop, c);
  }

  lemma ChunkTidy(p: Parser, k: ChunkState, c: char)
    requires p.state == Chunk(k) && LoopFits(p, Outside)
    ensures var o := ChunkByte(p, k, c); o.p.errno == OK ==> Tidy(p.state, o)
  {
    hide Inv, Unhex, NextSize;
  }

  lemma BodyTidy(p: Parser, c: char)
    requires LoopFits(p, Outside) && p.state.Body? && !p.state.body.BodyIdentityEof?
    ensures var o := AtBodyIdentity(p, c); o.p.errno == OK && p.state == Body(BodyIdentity) ==> Tidy(p.state, o)
    ensures var o := AtMessageDone(p); o.p.errno == OK && p.state == Body(MessageDone) ==> Tidy(p.state, o)
  {
    hide Inv;
  }

  lemma TransitionTidy(p: Parser, loop: Loop, c: char, next: char)
    requires LoopFits(p, loop)
    ensures var o := Transition(p, loop, c, next); o.p.errno == OK ==> Tidy(p.state, o)
  {
    hide Inv, ResByte, AtUrl, VersionByte, HeadByte, ChunkByte, AtBodyIdentity, AtMessageDone, FirstGuess, NextGuess, MethodName, UrlChar;
    match p.state
    case Res(r) => ResTidy(p, r, c);
    case Url(u) => UrlTidy(p, u, c);
    case Version(v) => VersionTidy(p, v, c);
    case Head(h) => HeadTidy(p, h, loop, c);
    case Chunk(k) => ChunkTidy(p, k, c);
    case Body(b) => if !b.BodyIdentityEof? { BodyTidy(p, c); }
    case _ =>
  }
}
