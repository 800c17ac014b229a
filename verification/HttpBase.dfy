/** Characters, states and records of the HTTP parser (httpserver/http_parser.h and the
    tables and macros at the top of httpserver/http_parser.cc), strict mode.
    A byte is a `char`; nothing below ever depends on a code point above 255. */
module HttpBase {
  import opened Basics

  const CR := '\r'
  const LF := '\n'

  // 2^64 - 1, the "no Content-Length" sentinel
  const ULLONG_MAX: nat := 18446744073709551615
  const TWO_TO_64: nat := 18446744073709551616
  const TWO_TO_32: nat := 4294967296
  const MAX_HEADER_SIZE: nat := 80 * 1024
  // calls this short cannot wrap the 32-bit nread counter
  const MAX_CALL: nat := 4294967296 - 2 * (80 * 1024)

  /** LOWER(c): sets bit 0x20 of a byte. */
  function Lower(c: char): char {
    if c as int < 256 && (c as int / 32) % 2 == 0 then (c as int + 32) as char else c
  }

  predicate IsAlpha(c: char) { 'a' <= Lower(c) <= 'z' }

  predicate IsNum(c: char) { '0' <= c <= '9' }

  predicate IsAlphaNum(c: char) { IsAlpha(c) || IsNum(c) }

  predicate IsHex(c: char) { IsNum(c) || 'a' <= Lower(c) <= 'f' }

  predicate IsMark(c: char) { c in "-_.!~*'()" }

  predicate IsUserinfoChar(c: char) { IsAlphaNum(c) || IsMark(c) || c in "%;:&=+$," }

  predicate IsHostChar(c: char) { IsAlphaNum(c) || c == '.' || c == '-' }

  /** normal_url_char: printable ASCII without space, '#' and '?'. */
  predicate IsUrlChar(c: char) { '!' <= c <= '~' && c != '#' && c != '?' }

  predicate IsHeaderChar(c: char) { c == CR || c == LF || c == '\t' || (c >= ' ' && c != 127 as char) }

  predicate IsToken(c: char) { IsAlphaNum(c) || c in "!#$%&'*+-.^_`|~" }

  /** tokens[c] of a token character: letters lower-cased, everything else unchanged. */
  function TokenOf(c: char): char
    requires IsToken(c)
  {
    if IsAlpha(c) then Lower(c) else c
  }

  // ---- the sets by their characters ----------------------------------------------------------------

  lemma AlphaNumChars(c: char)
    ensures IsAlpha(c) <==> 'A' <= c <= 'Z' || 'a' <= c <= 'z'
    ensures IsAlphaNum(c) <==> 'A' <= c <= 'Z' || 'a' <= c <= 'z' || '0' <= c <= '9'
  {
  }

  /** What a host, a userinfo, and a path, query or fragment may hold. */
  lemma UrlSets(c: char)
    ensures IsHostChar(c) <==> 'A' <= c <= 'Z' || 'a' <= c <= 'z' || '0' <= c <= '9' || c == '-' || c == '.'
    ensures IsUserinfoChar(c) <==>
      || 'A' <= c <= 'Z' || 'a' <= c <= 'z' || '0' <= c <= '9'
      || c == '-' || c == '_' || c == '.' || c == '!' || c == '~' || c == '*' || c == '\'' || c == '(' || c == ')'
      || c == '%' || c == ';' || c == ':' || c == '&' || c == '=' || c == '+' || c == '$' || c == ','
    ensures IsUrlChar(c) <==> c == '!' || c == '"' || '$' <= c <= '>' || '@' <= c <= '~'
  {
    AlphaNumChars(c);
    hide IsAlpha, Lower;
  }

  /** What a header name may hold, and how it is lower-cased. */
  lemma TokenSet(c: char)
    ensures IsToken(c) <==>
      || 'A' <= c <= 'Z' || 'a' <= c <= 'z' || '0' <= c <= '9'
      || c == '!' || c == '#' || c == '$' || c == '%' || c == '&' || c == '\'' || c == '*' || c == '+' || c == '-'
      || c == '.' || c == '^' || c == '_' || c == '`' || c == '|' || c == '~'
    ensures IsToken(c) ==> TokenOf(c) == if 'A' <= c <= 'Z' then (c as int + 32) as char else c
  {
  }

  function Digit(c: char): nat
    requires IsNum(c)
  {
    c as int - '0' as int
  }

  /** unhex[c]; -1 for no digit. The table initialises only its first 128 entries,
      so every byte from 128 on reads as the digit 0. */
  function Unhex(c: char): int {
    if IsNum(c) then Digit(c)
    else if 'a' <= c <= 'f' then c as int - 'a' as int + 10
    else if 'A' <= c <= 'F' then c as int - 'A' as int + 10
    else if c as int >= 128 then 0
    else -1
  }

  datatype Kind = Request | Response | Both

  datatype Method =
    | DELETE | GET | HEAD | POST | PUT | CONNECT | OPTIONS | TRACE | COPY | LOCK | MKCOL | MOVE
    | PROPFIND | PROPPATCH | SEARCH | UNLOCK | BIND | REBIND | UNBIND | ACL | REPORT | MKACTIVITY
    | CHECKOUT | MERGE | MSEARCH | NOTIFY | SUBSCRIBE | UNSUBSCRIBE | PATCH | PURGE | MKCALENDAR
    | LINK | UNLINK | SOURCE

  function MethodName(m: Method): string {
    match m
    case DELETE => "DELETE" case GET => "GET" case HEAD => "HEAD" case POST => "POST"
    case PUT => "PUT" case CONNECT => "CONNECT" case OPTIONS => "OPTIONS" case TRACE => "TRACE"
    case COPY => "COPY" case LOCK => "LOCK" case MKCOL => "MKCOL" case MOVE => "MOVE"
    case PROPFIND => "PROPFIND" case PROPPATCH => "PROPPATCH" case SEARCH => "SEARCH"
    case UNLOCK => "UNLOCK" case BIND => "BIND" case REBIND => "REBIND" case UNBIND => "UNBIND"
    case ACL => "ACL" case REPORT => "REPORT" case MKACTIVITY => "MKACTIVITY"
    case CHECKOUT => "CHECKOUT" case MERGE => "MERGE" case MSEARCH => "M-SEARCH"
    case NOTIFY => "NOTIFY" case SUBSCRIBE => "SUBSCRIBE" case UNSUBSCRIBE => "UNSUBSCRIBE"
    case PATCH => "PATCH" case PURGE => "PURGE" case MKCALENDAR => "MKCALENDAR"
    case LINK => "LINK" case UNLINK => "UNLINK" case SOURCE => "SOURCE"
  }

  /** The method guessed from the first letter; `next` is the byte after it. */
  function FirstGuess(c: char, next: char): (m: Option<Method>) {
    match c
    case 'A' => Some(ACL) case 'B' => Some(BIND) case 'C' => Some(CONNECT) case 'D' => Some(DELETE)
    case 'G' => Some(GET) case 'H' => Some(HEAD) case 'L' => Some(LOCK) case 'M' => Some(MKCOL)
    case 'N' => Some(NOTIFY) case 'O' => Some(OPTIONS)
    case 'P' => if next == 'U' then Some(PUT) else Some(POST)
    case 'R' => Some(REPORT) case 'S' => Some(SUBSCRIBE) case 'T' => Some(TRACE)
    case 'U' => Some(UNLOCK)
    case _ => None
  }

  /** The corrected guess when byte number `index` of the method is `c`, not what `m` spells. */
  function NextGuess(m: Method, index: nat, c: char): Option<Method> {
    match m
    case POST =>
      if index == 1 && c == 'U' then Some(PUT)
      else if index == 1 && c == 'A' then Some(PATCH)
      else if index == 1 && c == 'R' then Some(PROPFIND)
      else None
    case PUT => if index == 2 && c == 'R' then Some(PURGE) else None
    case CONNECT =>
      if index == 1 && c == 'H' then Some(CHECKOUT)
      else if index == 2 && c == 'P' then Some(COPY)
      else None
    case MKCOL =>
      if index == 1 && c == 'O' then Some(MOVE)
      else if index == 1 && c == 'E' then Some(MERGE)
      else if index == 1 && c == '-' then Some(MSEARCH)
      else if index == 2 && c == 'A' then Some(MKACTIVITY)
      else if index == 3 && c == 'A' then Some(MKCALENDAR)
      else None
    case SUBSCRIBE =>
      if index == 1 && c == 'E' then Some(SEARCH)
      else if index == 1 && c == 'O' then Some(SOURCE)
      else None
    case REPORT => if index == 2 && c == 'B' then Some(REBIND) else None
    case PROPFIND => if index == 4 && c == 'P' then Some(PROPPATCH) else None
    case LOCK => if index == 1 && c == 'I' then Some(LINK) else None
    case UNLOCK =>
      if index == 2 && c == 'S' then Some(UNSUBSCRIBE)
      else if index == 2 && c == 'B' then Some(UNBIND)
      else if index == 3 && c == 'I' then Some(UNLINK)
      else None
    case _ => None
  }

  datatype Flags = Flags(chunked: bool, keepAlive: bool, close: bool, connectionUpgrade: bool,
                         trailing: bool, upgrade: bool, skipBody: bool, contentLength: bool)

  const NO_FLAGS := Flags(false, false, false, false, false, false, false, false)

  // enum state, grouped by the part of the message it belongs to
  datatype State =
    | Dead | StartReqOrRes | ResOrRespH | StartRes | StartReq | ReqMethod | ReqSpacesBeforeUrl
    | Res(res: ResState)
    | Url(url: UrlState)
    | Version(version: VersionState)
    | Head(head: HeadState)
    | Chunk(chunk: ChunkState)
    | Body(body: BodyState)

  datatype ResState =
    | ResH | ResHT | ResHTT | ResHTTP | ResHttpMajor | ResHttpDot | ResHttpMinor | ResHttpEnd
    | ResFirstStatusCode | ResStatusCode | ResStatusStart | ResStatus | ResLineAlmostDone

  datatype UrlState =
    | ReqSchema | ReqSchemaSlash | ReqSchemaSlashSlash | ReqServerStart | ReqServer | ReqServerWithAt
    | ReqPath | ReqQueryStringStart | ReqQueryString | ReqFragmentStart | ReqFragment

  datatype VersionState =
    | ReqHttpStart | ReqHttpH | ReqHttpHT | ReqHttpHTT | ReqHttpHTTP
    | ReqHttpMajor | ReqHttpDot | ReqHttpMinor | ReqHttpEnd | ReqLineAlmostDone

  datatype HeadState =
    | HeaderFieldStart | HeaderField
    | HeaderValueDiscardWs | HeaderValueDiscardWsAlmostDone | HeaderValueDiscardLws
    | HeaderValueStart | HeaderValue | HeaderValueLws | HeaderAlmostDone
    | HeadersAlmostDone | HeadersDone

  datatype ChunkState =
    | ChunkSizeStart | ChunkSize | ChunkParameters | ChunkSizeAlmostDone
    | ChunkData | ChunkDataAlmostDone | ChunkDataDone

  datatype BodyState = BodyIdentity | BodyIdentityEof | MessageDone

  /** PARSING_HEADER(state): every state up to s_headers_done. */
  predicate ParsingHeader(s: State) {
    match s
    case Body(_) => false
    case Chunk(k) => !k.ChunkData? && !k.ChunkDataAlmostDone? && !k.ChunkDataDone?
    case _ => true
  }

  datatype HeaderState =
    | General | HC | HCO | HCON
    | MatchingConnection | MatchingProxyConnection | MatchingContentLength
    | MatchingTransferEncoding | MatchingUpgrade
    | Connection | ContentLength | TransferEncoding | Upgrade
    | MatchingChunked | TokenStart | MatchingKeepAlive | MatchingClose | MatchingConnUpgrade | ConnToken
    | Chunked | KeepAlive | Close | ConnUpgrade

  /** HPE_* values the parser itself sets; AssertionFailed stands for a failing assert(). */
  datatype Errno =
    | OK | InvalidEofState | HeaderOverflow | ClosedConnection | InvalidVersion | InvalidStatus
    | InvalidMethod | InvalidUrl | LfExpected | InvalidHeaderToken | InvalidContentLength
    | UnexpectedContentLength | InvalidChunkSize | InvalidConstant | InvalidInternalState
    | Strict | AssertionFailed

  /** The read-only part of struct http_parser: what the start line and the headers said. */
  datatype Info = Info(kind: Kind, httpMajor: nat, httpMinor: nat, statusCode: nat, meth: Method, upgrade: bool)

  /** struct http_parser. */
  datatype Parser = Parser(info: Info, flags: Flags, state: State, headerState: HeaderState, index: nat,
                           lenient: bool, nread: nat, contentLength: nat, errno: Errno)

  datatype DataKind = FieldData | ValueData | UrlData | BodyData | StatusData

  datatype Notice = MessageBegin | HeadersComplete | MessageComplete | ChunkHeader(size: nat) | ChunkComplete

  /** One callback: a data callback with its slice, or a notification. */
  datatype Event = Data(kind: DataKind, bytes: string) | Notify(notice: Notice)
}
