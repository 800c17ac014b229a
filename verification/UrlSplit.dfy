/** The first stage of http_parser_parse_url: parse_url_char walks over the bytes, and the fields
    grow as the state moves from the scheme to the fragment. The walk accepts exactly the texts
    that are printed from well-shaped parts, and its fields are where the parts are. */
module UrlSplit {
  import opened Basics
  import opened HttpBase
  import opened HttpMachine

  // enum http_parser_url_fields, without UF_MAX
  datatype Field = UfSchema | UfHost | UfPort | UfPath | UfQuery | UfFragment | UfUserinfo

  /** One entry of field_data. */
  datatype Span = Span(off: nat, len: nat)

  /** field_data as field_set lets a caller see it. */
  datatype Parts = Parts(schema: Option<Span>, host: Option<Span>, port: Option<Span>, path: Option<Span>,
                         query: Option<Span>, fragment: Option<Span>, userinfo: Option<Span>)

  const NO_PARTS := Parts(None, None, None, None, None, None, None)

  function Get(ps: Parts, f: Field): Option<Span> {
    match f
    case UfSchema => ps.schema case UfHost => ps.host case UfPort => ps.port case UfPath => ps.path
    case UfQuery => ps.query case UfFragment => ps.fragment case UfUserinfo => ps.userinfo
  }

  function Put(ps: Parts, f: Field, s: Span): Parts {
    match f
    case UfSchema => ps.(schema := Some(s))
    case UfHost => ps.(host := Some(s))
    case UfPort => ps.(port := Some(s))
    case UfPath => ps.(path := Some(s))
    case UfQuery => ps.(query := Some(s))
    case UfFragment => ps.(fragment := Some(s))
    case UfUserinfo => ps.(userinfo := Some(s))
  }

  /** A field starts at byte i, or gets longer by it. */
  function Grown(s: Option<Span>, starts: bool, i: nat): Span {
    if starts || s.None? then Span(i, 1) else s.value.(len := s.value.len + 1)
  }

  // ---- the walk -------------------------------------------------------------------------------------

  datatype Scan = Scan(s: State, last: Option<Field>, foundAt: bool, parts: Parts)

  function Begin(connect: bool): State { if connect then Url(ReqServerStart) else ReqSpacesBeforeUrl }

  /** The field that a byte leading to state u belongs to; None for a delimiter. */
  function FieldOf(u: UrlState): Option<Field> {
    match u
    case ReqSchema => Some(UfSchema)
    case ReqServerWithAt => Some(UfHost)
    case ReqServer => Some(UfHost)
    case ReqPath => Some(UfPath)
    case ReqQueryString => Some(UfQuery)
    case ReqFragment => Some(UfFragment)
    case _ => None
  }

  function Mark(r: Scan, s: State, f: Field, at: bool, i: nat): Scan {
    Scan(s, Some(f), r.foundAt || at, Put(r.parts, f, Grown(Get(r.parts, f), r.last != Some(f), i)))
  }

  /** Byte number i of the walk. */
  function ScanByte(r: Scan, c: char, i: nat): Scan {
    var s := UrlChar(r.s, c);
    if !s.Url? then r.(s := Dead)
    else
      match FieldOf(s.url)
      case None => r.(s := s)
      case Some(f) => Mark(r, s, f, s.url.ReqServerWithAt?, i)
  }

  function Walk(buf: string, connect: bool, n: nat): Scan
    requires n <= |buf|
  {
    if n == 0 then Scan(Begin(connect), None, false, NO_PARTS)
    else ScanByte(Walk(buf, connect, n - 1), buf[n - 1], n - 1)
  }

  // ---- parts and the text they print ------------------------------------------------------------------

  /** The parts of a URL as text: the authority undivided, a query that may be empty behind its
      '?', and a fragment behind any number of '#'. */
  datatype Raw = Raw(schema: string, auth: string, path: string, query: Option<string>, hashes: nat, fragment: string)

  const EMPTY := Raw("", "", "", None, 0, "")

  function Hashes(n: nat): (s: string)
    ensures |s| == n
  {
    seq(n, i => '#')
  }

  /** What stands between the scheme and the authority, as far as it has been read in state s. */
  function Separator(schema: string, s: State): string {
    if schema == "" || s == Url(ReqSchema) then ""
    else if s == Url(ReqSchemaSlash) then ":"
    else if s == Url(ReqSchemaSlashSlash) then ":/"
    else "://"
  }

  function PrintQuery(q: Option<string>): string { if q.None? then "" else "?" + q.value }

  function Front(r: Raw, s: State): string { r.schema + Separator(r.schema, s) + r.auth }

  /** The text read when the walk is in state s with parts r. */
  function Printed(r: Raw, s: State): string {
    Text(Front(r, s), r.path, r.query, r.hashes, r.fragment)
  }

  function Text(front: string, path: string, query: Option<string>, hashes: nat, fragment: string): string {
    front + path + PrintQuery(query) + Hashes(hashes) + fragment
  }

  predicate All(s: string, p: char -> bool) { forall i :: 0 <= i < |s| ==> p(s[i]) }

  predicate IsServerChar(c: char) { IsUserinfoChar(c) || c == '[' || c == ']' || c == '@' }

  predicate IsQueryChar(c: char) { IsUrlChar(c) || c == '?' }

  predicate IsFragmentChar(c: char) { IsUrlChar(c) || c == '?' || c == '#' }

  predicate AuthText(s: string) {
    All(s, IsServerChar) && forall i :: 0 < i < |s| && s[i] == '@' ==> s[i - 1] != '@'
  }

  predicate PathText(s: string, server: bool) {
    All(s, IsUrlChar) && (s != "" ==> s[0] == '/' || (s[0] == '*' && !server))
  }

  predicate FragmentText(s: string) { All(s, IsFragmentChar) && (s != "" ==> s[0] != '#') }

  predicate NoTail(r: Raw) { r.path == "" && r.query.None? && r.hashes == 0 && r.fragment == "" }

  predicate WithServer(r: Raw, connect: bool) { connect || r.schema != "" }

  /** Parts that the walk can have read in some state. */
  predicate Sound(r: Raw, connect: bool) {
    && All(r.schema, IsAlpha) && (connect ==> r.schema == "")
    && AuthText(r.auth) && (r.auth != "" ==> WithServer(r, connect))
    && PathText(r.path, WithServer(r, connect))
    && (r.query.Some? ==> All(r.query.value, IsQueryChar) && (WithServer(r, connect) || r.path != ""))
    && FragmentText(r.fragment) && (r.fragment != "" ==> r.hashes > 0)
    && (r.hashes > 0 ==> r.path != "" || r.query.Some?)
  }

  /** The state that belongs to how far the parts have been read. */
  predicate Reached(r: Raw, s: State, connect: bool) {
    match s
    case ReqSpacesBeforeUrl => !connect && r == EMPTY
    case Url(u) => (
      match u
      case ReqSchema => r.schema != "" && r.auth == "" && NoTail(r)
      case ReqSchemaSlash => r.schema != "" && r.auth == "" && NoTail(r)
      case ReqSchemaSlashSlash => r.schema != "" && r.auth == "" && NoTail(r)
      case ReqServerStart => WithServer(r, connect) && r.auth == "" && NoTail(r)
      case ReqServer => r.auth != "" && r.auth[|r.auth| - 1] != '@' && NoTail(r)
      case ReqServerWithAt => r.auth != "" && r.auth[|r.auth| - 1] == '@' && NoTail(r)
      case ReqPath => r.path != "" && NoTail(r.(path := ""))
      case ReqQueryStringStart => r.query == Some("") && r.hashes == 0 && r.fragment == ""
      case ReqQueryString => r.query.Some? && r.query.value != "" && r.hashes == 0 && r.fragment == ""
      case ReqFragmentStart => r.hashes > 0 && r.fragment == ""
      case ReqFragment => r.fragment != "")
    case _ => false
  }

  predicate Shape(r: Raw, s: State, connect: bool) { Sound(r, connect) && Reached(r, s, connect) }

  /** The part that the byte c leading to state s extends. */
  function Grow(r: Raw, s: State, c: char): Raw {
    match s
    case Url(ReqSchema) => r.(schema := r.schema + [c])
    case Url(ReqServer) => r.(auth := r.auth + [c])
    case Url(ReqServerWithAt) => r.(auth := r.auth + [c])
    case Url(ReqPath) => r.(path := r.path + [c])
    case Url(ReqQueryStringStart) => r.(query := Some(""))
    case Url(ReqQueryString) => r.(query := if r.query.Some? then Some(r.query.value + [c]) else r.query)
    case Url(ReqFragmentStart) => r.(hashes := r.hashes + 1)
    case Url(ReqFragment) => r.(fragment := r.fragment + [c])
    case _ => r
  }

  // ---- one byte forth -----------------------------------------------------------------------------------

  lemma AllGrows(s: string, c: char, p: char -> bool)
    ensures All(s + [c], p) <==> All(s, p) && p(c)
  {
    if All(s + [c], p) {
      forall i | 0 <= i < |s| ensures p(s[i]) { assert (s + [c])[i] == s[i]; }
      assert (s + [c])[|s|] == c;
    }
  }

  lemma AuthGrows(s: string, c: char)
    ensures AuthText(s + [c]) <==> AuthText(s) && IsServerChar(c) && (c == '@' && s != "" ==> s[|s| - 1] != '@')
  {
    AllGrows(s, c, IsServerChar);
    var t := s + [c];
    if AuthText(t) {
      forall i | 0 < i < |s| && s[i] == '@' ensures s[i - 1] != '@' { assert t[i] == s[i] && t[i - 1] == s[i - 1]; }
      assert c == '@' && s != "" ==> t[|s|] == '@' && t[|s| - 1] == s[|s| - 1];
    }
  }

  /** A step to state t. */
  predicate Leads(r: Raw, s: State, c: char, t: UrlState, connect: bool) {
    Shape(r, s, connect) && UrlChar(s, c) == Url(t)
  }

  lemma NoPath()
    ensures PathText("", true) && PathText("", false) && AuthText("")
  {
  }

  lemma GrowSchema(r: Raw, s: State, c: char, t: UrlState, connect: bool)
    requires Leads(r, s, c, t, connect)
    requires t == ReqSchema || t == ReqSchemaSlash || t == ReqSchemaSlashSlash || t == ReqServerStart
    ensures Shape(Grow(r, Url(t), c), Url(t), connect)
  {
    hide IsUserinfoChar, All, AuthText, PathText, FragmentText;
    AllGrows(r.schema, c, IsAlpha);
    NoPath();
  }

  lemma GrowServer(r: Raw, s: State, c: char, t: UrlState, connect: bool)
    requires Leads(r, s, c, t, connect) && (t == ReqServer || t == ReqServerWithAt)
    ensures Shape(Grow(r, Url(t), c), Url(t), connect)
  {
    hide IsUrlChar, IsUserinfoChar, All, AuthText, PathText, FragmentText;
    AuthGrows(r.auth, c);
  }

  lemma PathGrows(s: string, c: char, server: bool)
    ensures PathText(s + [c], server) <==>
            PathText(s, server) && IsUrlChar(c) && (s == "" ==> c == '/' || (c == '*' && !server))
  {
    AllGrows(s, c, IsUrlChar);
    if s != "" { assert (s + [c])[0] == s[0]; }
  }

  lemma GrowPath(r: Raw, s: State, c: char, connect: bool)
    requires Leads(r, s, c, ReqPath, connect)
    ensures Shape(Grow(r, Url(ReqPath), c), Url(ReqPath), connect)
  {
    hide IsUserinfoChar, All, AuthText, PathText, FragmentText;
    PathGrows(r.path, c, WithServer(r, connect));
  }

  lemma NoQuery()
    ensures All("", IsQueryChar)
  {
  }

  lemma GrowQuery(r: Raw, s: State, c: char, t: UrlState, connect: bool)
    requires Leads(r, s, c, t, connect) && (t == ReqQueryStringStart || t == ReqQueryString)
    ensures Shape(Grow(r, Url(t), c), Url(t), connect)
  {
    hide IsUserinfoChar, IsUrlChar, All, AuthText, PathText, FragmentText;
    if r.query.Some? { AllGrows(r.query.value, c, IsQueryChar); }
    NoQuery();
  }

  lemma FragmentGrows(s: string, c: char)
    ensures FragmentText(s + [c]) <==> FragmentText(s) && IsFragmentChar(c) && (s == "" ==> c != '#')
  {
    AllGrows(s, c, IsFragmentChar);
    if s != "" { assert (s + [c])[0] == s[0]; }
  }

  lemma GrowFragment(r: Raw, s: State, c: char, t: UrlState, connect: bool)
    requires Leads(r, s, c, t, connect) && (t == ReqFragmentStart || t == ReqFragment)
    ensures Shape(Grow(r, Url(t), c), Url(t), connect)
  {
    hide IsUserinfoChar, All, AuthText, PathText, FragmentText;
    FragmentGrows(r.fragment, c);
  }

  lemma GrowKeepsShape(r: Raw, s: State, c: char, t: UrlState, connect: bool)
    requires Leads(r, s, c, t, connect)
    ensures Shape(Grow(r, Url(t), c), Url(t), connect)
  {
    hide *;
    match t
    case ReqServer => GrowServer(r, s, c, t, connect);
    case ReqServerWithAt => GrowServer(r, s, c, t, connect);
    case ReqPath => GrowPath(r, s, c, connect);
    case ReqQueryStringStart => GrowQuery(r, s, c, t, connect);
    case ReqQueryString => GrowQuery(r, s, c, t, connect);
    case ReqFragmentStart => GrowFragment(r, s, c, t, connect);
    case ReqFragment => GrowFragment(r, s, c, t, connect);
    case _ => GrowSchema(r, s, c, t, connect);
  }

  // ---- one byte back ------------------------------------------------------------------------------------

  /** The parts without their last byte. */
  function Shrink(r: Raw, s: State): (r': Raw) {
    match s
    case Url(ReqSchema) => if r.schema == "" then r else r.(schema := r.schema[..|r.schema| - 1])
    case Url(ReqServer) => if r.auth == "" then r else r.(auth := r.auth[..|r.auth| - 1])
    case Url(ReqServerWithAt) => if r.auth == "" then r else r.(auth := r.auth[..|r.auth| - 1])
    case Url(ReqPath) => if r.path == "" then r else r.(path := r.path[..|r.path| - 1])
    case Url(ReqQueryStringStart) => r.(query := None)
    case Url(ReqQueryString) =>
      if r.query.None? || r.query.value == "" then r else r.(query := Some(r.query.value[..|r.query.value| - 1]))
    case Url(ReqFragmentStart) => if r.hashes == 0 then r else r.(hashes := r.hashes - 1)
    case Url(ReqFragment) => if r.fragment == "" then r else r.(fragment := r.fragment[..|r.fragment| - 1])
    case _ => r
  }

  function ServerState(r: Raw): State {
    if r.auth == "" then Url(ReqServerStart)
    else if r.auth[|r.auth| - 1] == '@' then Url(ReqServerWithAt) else Url(ReqServer)
  }

  /** The state where the scheme and the authority of q have been read. */
  function FrontState(q: Raw, connect: bool): State {
    if WithServer(q, connect) then ServerState(q) else ReqSpacesBeforeUrl
  }

  /** The state before the last byte of the parts r, read up to state s. */
  function Before(r: Raw, s: State, connect: bool): State {
    var q := Shrink(r, s);
    match s
    case Url(ReqSchema) => if q.schema == "" then ReqSpacesBeforeUrl else s
    case Url(ReqSchemaSlash) => Url(ReqSchema)
    case Url(ReqSchemaSlashSlash) => Url(ReqSchemaSlash)
    case Url(ReqServerStart) => Url(ReqSchemaSlashSlash)
    case Url(ReqServer) => FrontState(q, connect)
    case Url(ReqServerWithAt) => FrontState(q, connect)
    case Url(ReqPath) => if q.path == "" then FrontState(q, connect) else s
    case Url(ReqQueryStringStart) => if q.path == "" then FrontState(q, connect) else Url(ReqPath)
    case Url(ReqQueryString) => if q.query == Some("") then Url(ReqQueryStringStart) else s
    case Url(ReqFragmentStart) =>
      if q.hashes > 0 then s
      else if q.query.None? then Url(ReqPath)
      else if q.query == Some("") then Url(ReqQueryStringStart) else Url(ReqQueryString)
    case Url(ReqFragment) => if q.fragment == "" then Url(ReqFragmentStart) else s
    case _ => s
  }

  function LastOf(s: string): char { if s == "" then '\0' else s[|s| - 1] }

  function LastByte(r: Raw, s: State): char {
    match s
    case Url(ReqSchema) => LastOf(r.schema)
    case Url(ReqSchemaSlash) => ':'
    case Url(ReqSchemaSlashSlash) => '/'
    case Url(ReqServerStart) => '/'
    case Url(ReqServer) => LastOf(r.auth)
    case Url(ReqServerWithAt) => LastOf(r.auth)
    case Url(ReqPath) => LastOf(r.path)
    case Url(ReqQueryStringStart) => '?'
    case Url(ReqQueryString) => if r.query.Some? then LastOf(r.query.value) else '\0'
    case Url(ReqFragmentStart) => '#'
    case Url(ReqFragment) => LastOf(r.fragment)
    case _ => '\0'
  }

  /** The last byte leads from q back to r. */
  predicate Undone(r: Raw, u: UrlState, connect: bool) {
    var q, s, c := Shrink(r, Url(u)), Before(r, Url(u), connect), LastByte(r, Url(u));
    Leads(q, s, c, u, connect) && Grow(q, Url(u), c) == r
  }

  lemma Unglue(s: string)
    requires s != ""
    ensures s[..|s| - 1] + [LastOf(s)] == s
  {
  }

  lemma SchemaByte(c: char)
    requires IsAlpha(c)
    ensures UrlChar(ReqSpacesBeforeUrl, c) == Url(ReqSchema) == UrlChar(Url(ReqSchema), c)
  {
  }

  lemma BackSchema(r: Raw, connect: bool)
    requires Shape(r, Url(ReqSchema), connect)
    ensures Undone(r, ReqSchema, connect)
  {
    hide IsAlpha, All, AuthText, PathText, FragmentText, UrlChar, FrontState;
    var q, c := r.schema[..|r.schema| - 1], LastOf(r.schema);
    Unglue(r.schema);
    AllGrows(q, c, IsAlpha);
    NoPath();
    SchemaByte(c);
  }

  lemma BackSeparator(r: Raw, u: UrlState, connect: bool)
    requires Shape(r, Url(u), connect) && (u == ReqServerStart ==> !connect)
    requires u == ReqSchemaSlash || u == ReqSchemaSlashSlash || u == ReqServerStart
    ensures Undone(r, u, connect)
  {
    hide All, AuthText, PathText, FragmentText, ServerChar, QueryChar, Sound, FrontState;
  }

  lemma FrontShape(q: Raw, connect: bool)
    requires Sound(q, connect) && NoTail(q)
    ensures Shape(q, FrontState(q, connect), connect)
  {
    hide All, AuthText, PathText, FragmentText;
  }

  lemma FrontServer(q: Raw, connect: bool, c: char)
    requires WithServer(q, connect) && IsServerChar(c) && (c == '@' && q.auth != "" ==> LastOf(q.auth) != '@')
    ensures UrlChar(FrontState(q, connect), c) == Url(if c == '@' then ReqServerWithAt else ReqServer)
  {
  }

  lemma FrontPath(q: Raw, connect: bool, c: char)
    requires c == '/' || (c == '*' && !WithServer(q, connect))
    ensures UrlChar(FrontState(q, connect), c) == Url(ReqPath)
  {
  }

  lemma FrontQuery(q: Raw, connect: bool)
    requires WithServer(q, connect)
    ensures UrlChar(FrontState(q, connect), '?') == Url(ReqQueryStringStart)
  {
  }

  lemma PathByte(c: char)
    ensures IsUrlChar(c) ==> UrlChar(Url(ReqPath), c) == Url(ReqPath)
    ensures UrlChar(Url(ReqPath), '?') == Url(ReqQueryStringStart)
  {
  }

  lemma QueryByte(c: char)
    requires IsQueryChar(c)
    ensures UrlChar(Url(ReqQueryStringStart), c) == Url(ReqQueryString) == UrlChar(Url(ReqQueryString), c)
  {
  }

  lemma BackServer(r: Raw, u: UrlState, connect: bool)
    requires Shape(r, Url(u), connect) && (u == ReqServer || u == ReqServerWithAt)
    ensures Undone(r, u, connect)
  {
    hide *;
    var q, c := Shrink(r, Url(u)), LastOf(r.auth);
    AuthShrinks(r, q, c, u, connect);
    FrontShape(q, connect);
    FrontServer(q, connect, c);
    UndoneServer(r, q, c, u, connect);
  }

  lemma UndoneServer(r: Raw, q: Raw, c: char, u: UrlState, connect: bool)
    requires (u == ReqServer || u == ReqServerWithAt) && q == Shrink(r, Url(u)) && c == LastOf(r.auth)
    requires q == r.(auth := q.auth) && q.auth + [c] == r.auth
    requires var s := FrontState(q, connect); Shape(q, s, connect) && UrlChar(s, c) == Url(u)
    ensures Undone(r, u, connect)
  {
    hide UrlChar, FrontState, Shape;
  }

  lemma AuthShrinks(r: Raw, q: Raw, c: char, u: UrlState, connect: bool)
    requires Shape(r, Url(u), connect) && (u == ReqServer || u == ReqServerWithAt)
    requires q == Shrink(r, Url(u)) && c == LastOf(r.auth)
    ensures Sound(q, connect) && NoTail(q) && WithServer(q, connect) && q == r.(auth := q.auth) && q.auth + [c] == r.auth
    ensures IsServerChar(c) && (c == '@' <==> u == ReqServerWithAt) && (c == '@' && q.auth != "" ==> LastOf(q.auth) != '@')
  {
    hide IsServerChar, All, AuthText, PathText, FragmentText;
    Unglue(r.auth);
    AuthGrows(q.auth, c);
  }

  lemma BackPath(r: Raw, connect: bool)
    requires Shape(r, Url(ReqPath), connect)
    ensures Undone(r, ReqPath, connect)
  {
    hide IsUrlChar, All, AuthText, PathText, FragmentText, UrlChar, FrontState, Shape, Sound, NoTail;
    var q, c := Shrink(r, Url(ReqPath)), LastOf(r.path);
    PathShrinks(r, q, c, connect);
    if q.path == "" {
      FrontShape(q, connect);
      FrontPath(q, connect, c);
    } else {
      PathByte(c);
    }
  }

  lemma PathShrinks(r: Raw, q: Raw, c: char, connect: bool)
    requires Shape(r, Url(ReqPath), connect) && q == Shrink(r, Url(ReqPath)) && c == LastOf(r.path)
    ensures Sound(q, connect) && q == r.(path := q.path) && q.path + [c] == r.path && IsUrlChar(c)
    ensures if q.path == "" then NoTail(q) && (c == '/' || (c == '*' && !WithServer(q, connect)))
            else Shape(q, Url(ReqPath), connect)
  {
    hide IsUrlChar, All, AuthText, PathText, FragmentText;
    Unglue(r.path);
    PathGrows(q.path, c, WithServer(r, connect));
  }

  lemma BackQueryStart(r: Raw, connect: bool)
    requires Shape(r, Url(ReqQueryStringStart), connect)
    ensures Undone(r, ReqQueryStringStart, connect)
  {
    hide IsUrlChar, All, AuthText, PathText, FragmentText, UrlChar, FrontState;
    var q := Shrink(r, Url(ReqQueryStringStart));
    if q.path == "" {
      FrontShape(q, connect);
      FrontQuery(q, connect);
    } else {
      PathByte('?');
    }
  }

  lemma BackQuery(r: Raw, connect: bool)
    requires Shape(r, Url(ReqQueryString), connect)
    ensures Undone(r, ReqQueryString, connect)
  {
    hide IsQueryChar, All, AuthText, PathText, FragmentText, UrlChar, FrontState;
    var q, c := r.query.value[..|r.query.value| - 1], LastOf(r.query.value);
    Unglue(r.query.value);
    AllGrows(q, c, IsQueryChar);
    QueryByte(c);
  }

  lemma HashByte()
    ensures UrlChar(Url(ReqPath), '#') == Url(ReqFragmentStart) == UrlChar(Url(ReqFragmentStart), '#')
    ensures UrlChar(Url(ReqQueryStringStart), '#') == Url(ReqFragmentStart) == UrlChar(Url(ReqQueryString), '#')
  {
  }

  lemma BackHash(r: Raw, connect: bool)
    requires Shape(r, Url(ReqFragmentStart), connect)
    ensures Undone(r, ReqFragmentStart, connect)
  {
    hide UrlChar, All, AuthText, PathText, FragmentText, FrontState;
    HashByte();
  }

  lemma FragmentByte(c: char)
    requires IsFragmentChar(c)
    ensures UrlChar(Url(ReqFragment), c) == Url(ReqFragment)
    ensures c != '#' ==> UrlChar(Url(ReqFragmentStart), c) == Url(ReqFragment)
  {
  }

  lemma BackFragment(r: Raw, connect: bool)
    requires Shape(r, Url(ReqFragment), connect)
    ensures Undone(r, ReqFragment, connect)
  {
    hide IsFragmentChar, UrlChar, All, AuthText, PathText, FragmentText, FrontState, Shape, Sound;
    var q, c := Shrink(r, Url(ReqFragment)), LastOf(r.fragment);
    FragmentShrinks(r, q, c, connect);
    FragmentByte(c);
  }

  lemma FragmentShrinks(r: Raw, q: Raw, c: char, connect: bool)
    requires Shape(r, Url(ReqFragment), connect) && q == Shrink(r, Url(ReqFragment)) && c == LastOf(r.fragment)
    ensures q == r.(fragment := q.fragment) && q.fragment + [c] == r.fragment && IsFragmentChar(c)
    ensures if q.fragment == "" then Shape(q, Url(ReqFragmentStart), connect) && c != '#'
            else Shape(q, Url(ReqFragment), connect)
  {
    hide IsFragmentChar, All, AuthText, PathText, FragmentText;
    Unglue(r.fragment);
    FragmentGrows(q.fragment, c);
  }

  lemma Back(r: Raw, u: UrlState, connect: bool)
    requires Shape(r, Url(u), connect) && (u == ReqServerStart ==> !connect)
    ensures Undone(r, u, connect)
  {
    hide *;
    match u
    case ReqServer => BackServer(r, u, connect);
    case ReqServerWithAt => BackServer(r, u, connect);
    case ReqPath => BackPath(r, connect);
    case ReqQueryStringStart => BackQueryStart(r, connect);
    case ReqQueryString => BackQuery(r, connect);
    case ReqFragmentStart => BackHash(r, connect);
    case ReqFragment => BackFragment(r, connect);
    case ReqSchema => BackSchema(r, connect);
    case _ => BackSeparator(r, u, connect);
  }

  // ---- where the parts are ---------------------------------------------------------------------------------

  function AuthAt(r: Raw): nat { if r.schema == "" then 0 else |r.schema| + 3 }

  function PathAt(r: Raw): nat { AuthAt(r) + |r.auth| }

  function FragmentAt(r: Raw): nat { PathAt(r) + |r.path| + |PrintQuery(r.query)| + r.hashes }

  function SpanOf(off: nat, s: string): Option<Span> { if s == "" then None else Some(Span(off, |s|)) }

  /** The entries of the parts in the printed text; an empty part has none. */
  function PartsAt(r: Raw): Parts {
    Parts(SpanOf(0, r.schema), SpanOf(AuthAt(r), r.auth), None, SpanOf(PathAt(r), r.path),
          if r.query.None? then None else SpanOf(PathAt(r) + |r.path| + 1, r.query.value),
          SpanOf(FragmentAt(r), r.fragment), None)
  }

  function LastField(r: Raw): Option<Field> {
    if r.fragment != "" then Some(UfFragment)
    else if r.query.Some? && r.query.value != "" then Some(UfQuery)
    else if r.path != "" then Some(UfPath)
    else if r.auth != "" then Some(UfHost)
    else if r.schema != "" then Some(UfSchema)
    else None
  }

  /** The walk is in state s and has found the parts r where they are. */
  predicate Agrees(x: Scan, r: Raw, s: State) {
    x.s == s && x.parts == PartsAt(r) && x.last == LastField(r) && (x.foundAt <==> '@' in r.auth)
  }

  /** The states that lead to the scheme and to the authority, and how their parts stand. */
  lemma CameFrom(r: Raw, s: State, c: char, t: UrlState, connect: bool)
    requires Leads(r, s, c, t, connect)
    ensures t == ReqSchema ==> (s == ReqSpacesBeforeUrl || s == Url(ReqSchema)) && r.auth == ""
    ensures t == ReqSchemaSlash ==> s == Url(ReqSchema) && c == ':' && r.schema != "" && r.auth == ""
    ensures t == ReqSchemaSlashSlash ==> s == Url(ReqSchemaSlash) && c == '/' && r.schema != "" && r.auth == ""
    ensures t == ReqServerStart ==> s == Url(ReqSchemaSlashSlash) && c == '/' && r.schema != "" && r.auth == ""
    ensures t == ReqServer || t == ReqServerWithAt ==>
      s == Url(ReqServerStart) || s == Url(ReqServer) || s == Url(ReqServerWithAt)
  {
    hide IsUrlChar, IsUserinfoChar, IsAlpha, All, AuthText, PathText, FragmentText, Sound;
  }

  lemma PrintFront(r: Raw, s: State, c: char, t: UrlState, connect: bool)
    requires Leads(r, s, c, t, connect)
    requires t.ReqSchema? || t.ReqSchemaSlash? || t.ReqSchemaSlashSlash? || t.ReqServerStart? || t.ReqServer? || t.ReqServerWithAt?
    ensures Front(Grow(r, Url(t), c), Url(t)) == Front(r, s) + [c]
  {
    hide Leads;
    CameFrom(r, s, c, t, connect);
    if t.ReqSchema? { SchemaFirst(r, s, c, connect); }
  }

  lemma SchemaFirst(r: Raw, s: State, c: char, connect: bool)
    requires Leads(r, s, c, ReqSchema, connect)
    ensures s == ReqSpacesBeforeUrl ==> r == EMPTY
  {
    hide Sound, UrlChar;
  }

  lemma PrintServer(r: Raw, s: State, c: char, t: UrlState, connect: bool)
    requires Leads(r, s, c, t, connect) && NoTail(r)
    requires t.ReqSchema? || t.ReqSchemaSlash? || t.ReqSchemaSlashSlash? || t.ReqServerStart? || t.ReqServer? || t.ReqServerWithAt?
    ensures Printed(Grow(r, Url(t), c), Url(t)) == Printed(r, s) + [c]
  {
    hide Leads, Front;
    PrintFront(r, s, c, t, connect);
    FrontOnly(Front(r, s));
    FrontOnly(Front(r, s) + [c]);
  }

  lemma FrontOnly(f: string)
    ensures Text(f, "", None, 0, "") == f
  {
  }

  lemma SameFront(r: Raw, s: State, c: char, t: UrlState, connect: bool)
    requires Leads(r, s, c, t, connect)
    requires t == ReqPath || t == ReqQueryStringStart || t == ReqQueryString || t == ReqFragmentStart || t == ReqFragment
    ensures Front(Grow(r, Url(t), c), Url(t)) == Front(r, s)
    ensures t == ReqPath ==> NoTail(r.(path := ""))
    ensures t == ReqQueryStringStart ==> r.query.None? && r.hashes == 0 && r.fragment == ""
    ensures t == ReqQueryString ==> r.query.Some? && r.hashes == 0 && r.fragment == ""
    ensures t == ReqFragmentStart ==> r.fragment == ""
  {
    hide IsUrlChar, IsUserinfoChar, All, AuthText, PathText, FragmentText, Sound;
  }

  lemma PrintLater(r: Raw, s: State, c: char, t: UrlState, connect: bool)
    requires Leads(r, s, c, t, connect)
    requires t == ReqPath || t == ReqQueryStringStart || t == ReqQueryString || t == ReqFragmentStart || t == ReqFragment
    ensures Printed(Grow(r, Url(t), c), Url(t)) == Printed(r, s) + [c]
  {
    hide Leads, Front, Text;
    SameFront(r, s, c, t, connect);
    Delimiter(r, s, c, t, connect);
    TextGrows(Front(r, s), r.path, r.query, r.hashes, r.fragment, c);
  }

  lemma TextGrows(f: string, p: string, q: Option<string>, n: nat, g: string, c: char)
    ensures q.None? && n == 0 && g == "" ==> Text(f, p + [c], q, n, g) == Text(f, p, q, n, g) + [c]
    ensures q.None? && n == 0 && g == "" ==> Text(f, p, Some(""), n, g) == Text(f, p, q, n, g) + ['?']
    ensures q.Some? && n == 0 && g == "" ==> Text(f, p, Some(q.value + [c]), n, g) == Text(f, p, q, n, g) + [c]
    ensures g == "" ==> Text(f, p, q, n + 1, g) == Text(f, p, q, n, g) + ['#']
    ensures Text(f, p, q, n, g + [c]) == Text(f, p, q, n, g) + [c]
  {
    assert Hashes(n + 1) == Hashes(n) + ['#'];
  }

  lemma Delimiter(r: Raw, s: State, c: char, t: UrlState, connect: bool)
    requires Leads(r, s, c, t, connect)
    ensures t == ReqQueryStringStart ==> c == '?'
    ensures t == ReqFragmentStart ==> c == '#'
  {
    hide IsUrlChar, IsUserinfoChar, Shape;
  }

  lemma NothingAfter(r: Raw, s: State, c: char, t: UrlState, connect: bool)
    requires Leads(r, s, c, t, connect)
    requires t.ReqSchema? || t.ReqSchemaSlash? || t.ReqSchemaSlashSlash? || t.ReqServerStart? || t.ReqServer? || t.ReqServerWithAt?
    ensures NoTail(r)
  {
    hide IsUrlChar, IsUserinfoChar, All, AuthText, PathText, FragmentText, Sound;
  }

  /** A byte is printed behind the text before it. */
  lemma PrintByte(r: Raw, s: State, c: char, t: UrlState, connect: bool)
    requires Leads(r, s, c, t, connect)
    ensures Printed(Grow(r, Url(t), c), Url(t)) == Printed(r, s) + [c]
  {
    hide Leads, Printed, Grow;
    match t
    case ReqPath => PrintLater(r, s, c, t, connect);
    case ReqQueryStringStart => PrintLater(r, s, c, t, connect);
    case ReqQueryString => PrintLater(r, s, c, t, connect);
    case ReqFragmentStart => PrintLater(r, s, c, t, connect);
    case ReqFragment => PrintLater(r, s, c, t, connect);
    case _ =>
      NothingAfter(r, s, c, t, connect);
      PrintServer(r, s, c, t, connect);
  }

  lemma LengthBefore(r: Raw, s: State, c: char, t: UrlState, connect: bool)
    requires Leads(r, s, c, t, connect)
    ensures t == ReqSchema ==> |Printed(r, s)| == |r.schema|
    ensures t == ReqServer || t == ReqServerWithAt ==> |Printed(r, s)| == PathAt(r)
    ensures t == ReqPath ==> |Printed(r, s)| == PathAt(r) + |r.path|
    ensures t == ReqQueryString ==> |Printed(r, s)| == PathAt(r) + |r.path| + |PrintQuery(r.query)|
    ensures t == ReqFragment ==> |Printed(r, s)| == FragmentAt(r) + |r.fragment|
  {
    hide Leads;
    CameFrom(r, s, c, t, connect);
    if t.ReqSchema? || t.ReqServer? || t.ReqServerWithAt? {
      NothingAfter(r, s, c, t, connect);
      if t.ReqSchema? { SchemaFirst(r, s, c, connect); } else { AfterSlashes(r, s, c, t, connect); }
    } else if t.ReqPath? || t.ReqQueryString? || t.ReqFragment? {
      SameFront(r, s, c, t, connect);
      AfterSlashes(r, s, c, t, connect);
    }
  }

  lemma AfterSlashes(r: Raw, s: State, c: char, t: UrlState, connect: bool)
    requires Leads(r, s, c, t, connect)
    requires t.ReqServer? || t.ReqServerWithAt? || t.ReqPath? || t.ReqQueryString? || t.ReqFragment?
    ensures r.schema != "" ==> Separator(r.schema, s) == "://"
  {
    hide IsUrlChar, IsUserinfoChar, IsAlpha, All, AuthText, PathText, FragmentText, Sound;
  }

  lemma Scanned(x: Scan, r: Raw, s: State, c: char, t: UrlState, i: nat, connect: bool)
    requires Leads(r, s, c, t, connect) && x.s == s
    ensures ScanByte(x, c, i) ==
            if FieldOf(t).None? then x.(s := Url(t)) else Mark(x, Url(t), FieldOf(t).value, t.ReqServerWithAt?, i)
  {
    hide UrlChar, Shape;
  }

  lemma AgreeDelimiter(x: Scan, r: Raw, s: State, c: char, t: UrlState, i: nat, connect: bool)
    requires Leads(r, s, c, t, connect) && Agrees(x, r, s) && FieldOf(t).None?
    ensures Agrees(ScanByte(x, c, i), Grow(r, Url(t), c), Url(t))
  {
    hide Leads, ScanByte;
    Scanned(x, r, s, c, t, i, connect);
    if t == ReqQueryStringStart || t == ReqFragmentStart { SameFront(r, s, c, t, connect); }
  }

  lemma AgreeServer(x: Scan, r: Raw, s: State, c: char, t: UrlState, i: nat, connect: bool)
    requires Leads(r, s, c, t, connect) && Agrees(x, r, s) && i == |Printed(r, s)|
    requires t == ReqSchema || t == ReqServer || t == ReqServerWithAt
    ensures Agrees(ScanByte(x, c, i), Grow(r, Url(t), c), Url(t))
  {
    hide Leads, ScanByte, Printed;
    Scanned(x, r, s, c, t, i, connect);
    NothingAfter(r, s, c, t, connect);
    LengthBefore(r, s, c, t, connect);
    AtOnly(r, s, c, t, connect);
  }

  lemma AtOnly(r: Raw, s: State, c: char, t: UrlState, connect: bool)
    requires Leads(r, s, c, t, connect)
    ensures t == ReqSchema ==> r.auth == ""
    ensures t == ReqServer ==> c != '@'
    ensures t == ReqServerWithAt ==> c == '@'
  {
    hide All, AuthText, PathText, FragmentText, IsUrlChar;
  }

  lemma MarkPath(x: Scan, r: Raw, s: State, c: char, i: nat)
    requires Agrees(x, r, s) && NoTail(r.(path := "")) && i == PathAt(r) + |r.path|
    ensures Agrees(Mark(x, Url(ReqPath), UfPath, false, i), r.(path := r.path + [c]), Url(ReqPath))
  {
  }

  lemma MarkQuery(x: Scan, r: Raw, s: State, c: char, i: nat)
    requires Agrees(x, r, s) && r.query.Some? && r.hashes == 0 && r.fragment == ""
    requires i == PathAt(r) + |r.path| + |PrintQuery(r.query)|
    ensures Agrees(Mark(x, Url(ReqQueryString), UfQuery, false, i), r.(query := Some(r.query.value + [c])), Url(ReqQueryString))
  {
  }

  lemma MarkFragment(x: Scan, r: Raw, s: State, c: char, i: nat)
    requires Agrees(x, r, s) && i == FragmentAt(r) + |r.fragment|
    ensures Agrees(Mark(x, Url(ReqFragment), UfFragment, false, i), r.(fragment := r.fragment + [c]), Url(ReqFragment))
  {
  }

  lemma AgreeLater(x: Scan, r: Raw, s: State, c: char, t: UrlState, i: nat, connect: bool)
    requires Leads(r, s, c, t, connect) && Agrees(x, r, s) && i == |Printed(r, s)|
    requires t == ReqPath || t == ReqQueryString || t == ReqFragment
    ensures Agrees(ScanByte(x, c, i), Grow(r, Url(t), c), Url(t))
  {
    Scanned(x, r, s, c, t, i, connect);
    SameFront(r, s, c, t, connect);
    LengthBefore(r, s, c, t, connect);
    hide Leads, ScanByte, Printed, Agrees, Mark, NoTail;
    match t
    case ReqPath => MarkPath(x, r, s, c, i);
    case ReqQueryString => MarkQuery(x, r, s, c, i);
    case ReqFragment => MarkFragment(x, r, s, c, i);
  }

  /** A byte moves the fields as the parts grow. */
  lemma AgreeByte(x: Scan, r: Raw, s: State, c: char, t: UrlState, i: nat, connect: bool)
    requires Leads(r, s, c, t, connect) && Agrees(x, r, s) && i == |Printed(r, s)|
    ensures Agrees(ScanByte(x, c, i), Grow(r, Url(t), c), Url(t))
  {
    hide Leads, Agrees, ScanByte, Grow, Printed;
    match t
    case ReqSchema => AgreeServer(x, r, s, c, t, i, connect);
    case ReqServer => AgreeServer(x, r, s, c, t, i, connect);
    case ReqServerWithAt => AgreeServer(x, r, s, c, t, i, connect);
    case ReqPath => AgreeLater(x, r, s, c, t, i, connect);
    case ReqQueryString => AgreeLater(x, r, s, c, t, i, connect);
    case ReqFragment => AgreeLater(x, r, s, c, t, i, connect);
    case _ => AgreeDelimiter(x, r, s, c, t, i, connect);
  }

  // ---- both directions --------------------------------------------------------------------------------------

  /** The parts read by a walk that does not fail. */
  function Read(buf: string, connect: bool, n: nat): Raw
    requires n <= |buf|
  {
    if n == 0 then EMPTY else Grow(Read(buf, connect, n - 1), Walk(buf, connect, n).s, buf[n - 1])
  }

  lemma NothingRead(connect: bool)
    ensures Shape(EMPTY, Begin(connect), connect) && Printed(EMPTY, Begin(connect)) == ""
    ensures Agrees(Scan(Begin(connect), None, false, NO_PARTS), EMPTY, Begin(connect))
  {
  }

  lemma WalkStops(buf: string, connect: bool, n: nat)
    requires 0 < n <= |buf|
    ensures Walk(buf, connect, n - 1).s == Dead ==> Walk(buf, connect, n).s == Dead
    ensures Walk(buf, connect, n).s != Dead ==>
      Walk(buf, connect, n).s.Url? && UrlChar(Walk(buf, connect, n - 1).s, buf[n - 1]) == Walk(buf, connect, n).s
  {
    hide UrlNext, IsAlpha;
  }

  /** A walk that does not fail has read well-shaped parts, which print the text. */
  lemma {:induction false} WalkReads(buf: string, connect: bool, n: nat)
    requires n <= |buf| && Walk(buf, connect, n).s != Dead
    ensures var x := Walk(buf, connect, n); var r := Read(buf, connect, n);
      Shape(r, x.s, connect) && Printed(r, x.s) == buf[..n] && Agrees(x, r, x.s)
  {
    hide Shape, Printed, Agrees, Grow, UrlChar, ScanByte;
    if n == 0 {
      NothingRead(connect);
    } else {
      WalkStops(buf, connect, n);
      WalkReads(buf, connect, n - 1);
      var x, r, c := Walk(buf, connect, n - 1), Read(buf, connect, n - 1), buf[n - 1];
      var t := Walk(buf, connect, n).s.url;
      assert Leads(r, x.s, c, t, connect);
      GrowKeepsShape(r, x.s, c, t, connect);
      PrintByte(r, x.s, c, t, connect);
      AgreeByte(x, r, x.s, c, t, n - 1, connect);
      assert buf[..n] == buf[..n - 1] + [c];
    }
  }

  /** Well-shaped parts are found where they are printed. */
  lemma {:induction false} WalkFinds(buf: string, connect: bool, n: nat, r: Raw, s: State)
    requires n <= |buf| && Shape(r, s, connect) && Printed(r, s) == buf[..n]
    ensures Agrees(Walk(buf, connect, n), r, s)
    decreases n
  {
    hide Shape, Printed, Agrees, Grow, UrlChar, ScanByte, Shrink, Before, LastByte, Leads;
    if s == Begin(connect) {
      AtBegin(r, connect);
      NothingRead(connect);
    } else {
      NotAtBegin(r, s, connect);
      var u := s.url;
      Back(r, u, connect);
      UndoneIs(r, u, connect);
      var q, s', c := Shrink(r, s), Before(r, s, connect), LastByte(r, s);
      PrintByte(q, s', c, u, connect);
      assert buf[..n][..n - 1] == buf[..n - 1] && buf[..n][n - 1] == buf[n - 1];
      assert (Printed(q, s') + [c])[..n - 1] == Printed(q, s');
      WalkFinds(buf, connect, n - 1, q, s');
      AgreeByte(Walk(buf, connect, n - 1), q, s', c, u, n - 1, connect);
    }
  }

  lemma AtBegin(r: Raw, connect: bool)
    requires Shape(r, Begin(connect), connect)
    ensures r == EMPTY && Printed(r, Begin(connect)) == ""
  {
  }

  lemma NotAtBegin(r: Raw, s: State, connect: bool)
    requires Shape(r, s, connect) && s != Begin(connect)
    ensures s.Url? && (s.url == ReqServerStart ==> !connect)
  {
    hide Sound;
  }

  lemma UndoneIs(r: Raw, u: UrlState, connect: bool)
    requires Undone(r, u, connect)
    ensures var q, s, c := Shrink(r, Url(u)), Before(r, Url(u), connect), LastByte(r, Url(u));
      Leads(q, s, c, u, connect) && Shape(q, s, connect) && Grow(q, Url(u), c) == r
  {
    hide Shape, Grow, Shrink, Before, LastByte;
  }
}
