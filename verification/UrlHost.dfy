/** The second stage of http_parser_parse_url: http_parse_host divides the authority into
    userinfo, host and port. It accepts exactly the printed authorities. */
module UrlHost {
  import opened Basics
  import opened HttpBase
  import opened UrlSplit

  datatype HostState =
    | HostDead | UserinfoStart | Userinfo | HostStart | V6Start | HostName | V6 | V6End | ZoneStart | Zone
    | PortStart | PortDigits

  predicate IsV6Char(c: char) { IsHex(c) || c == ':' || c == '.' }

  predicate IsZoneChar(c: char) { IsAlphaNum(c) || c in "%.-_~" }

  /** http_parse_host_char. */
  function HostChar(s: HostState, c: char): HostState {
    match s
    case UserinfoStart => if c == '@' then HostStart else if IsUserinfoChar(c) then Userinfo else HostDead
    case Userinfo => if c == '@' then HostStart else if IsUserinfoChar(c) then Userinfo else HostDead
    case HostStart => if c == '[' then V6Start else if IsHostChar(c) then HostName else HostDead
    case HostName => if IsHostChar(c) then HostName else if c == ':' then PortStart else HostDead
    case V6End => if c == ':' then PortStart else HostDead
    case V6 =>
      if c == ']' then V6End else if IsV6Char(c) then V6 else if c == '%' then ZoneStart else HostDead
    case V6Start => if IsV6Char(c) then V6 else HostDead
    case Zone => if c == ']' then V6End else if IsZoneChar(c) then Zone else HostDead
    case ZoneStart => if IsZoneChar(c) then Zone else HostDead
    case PortStart => if IsNum(c) then PortDigits else HostDead
    case PortDigits => if IsNum(c) then PortDigits else HostDead
    case HostDead => HostDead
  }

  /** The states in which an authority may end. */
  predicate MayEnd(s: HostState) { s == HostName || s == V6End || s == PortDigits }

  // ---- the walk ---------------------------------------------------------------------------------------

  datatype HostScan = HostScan(s: HostState, parts: Parts)

  /** The host starts anew where its first byte is, but its length only ever grows. */
  function LongerHost(s: Option<Span>, anew: bool, i: nat): Span {
    if s.None? then Span(i, 1)
    else Span(if anew then i else s.value.off, s.value.len + 1)
  }

  /** The entries after byte i, which led from state s to state t. */
  function HostFields(ps: Parts, s: HostState, t: HostState, i: nat): Parts {
    match t
    case HostName => ps.(host := Some(LongerHost(ps.host, s != HostName, i)))
    case V6 => ps.(host := Some(LongerHost(ps.host, s != V6, i)))
    case ZoneStart => ps.(host := Some(LongerHost(ps.host, false, i)))
    case Zone => ps.(host := Some(LongerHost(ps.host, false, i)))
    case PortDigits => ps.(port := Some(Grown(ps.port, s != PortDigits, i)))
    case Userinfo => ps.(userinfo := Some(Grown(ps.userinfo, s != Userinfo, i)))
    case _ => ps
  }

  function HostByte(x: HostScan, c: char, i: nat): HostScan {
    var t := HostChar(x.s, c);
    HostScan(t, HostFields(x.parts, x.s, t, i))
  }

  function HostBegin(at: bool): HostState { if at then UserinfoStart else HostStart }

  /** The scan of buf from position b on, n bytes long. */
  function HostWalk(buf: string, b: nat, at: bool, parts: Parts, n: nat): HostScan
    requires b + n <= |buf|
  {
    if n == 0 then HostScan(HostBegin(at), parts.(host := Some(Span(b, 0))))
    else HostByte(HostWalk(buf, b, at, parts, n - 1), buf[b + n - 1], b + n - 1)
  }

  // ---- authorities --------------------------------------------------------------------------------------

  /** An authority: userinfo (perhaps empty) before an '@', a name or a bracketed address with an
      optional zone, and a port behind a ':'. */
  datatype Authority = Authority(user: Option<string>, bracket: bool, addr: string, zone: Option<string>, port: Option<string>)

  function HostText(a: Authority): string { a.addr + (if a.zone.Some? then "%" + a.zone.value else "") }

  function UserText(a: Authority, s: HostState): string {
    if a.user.None? then "" else a.user.value + (if s == UserinfoStart || s == Userinfo then "" else "@")
  }

  function PortText(a: Authority): string { if a.port.None? then "" else ":" + a.port.value }

  function OpenText(a: Authority): string { if a.bracket then "[" else "" }

  function CloseText(a: Authority, s: HostState): string {
    if a.bracket && (s == V6End || s == PortStart || s == PortDigits) then "]" else ""
  }

  /** The text read when the scan is in state s with parts a. */
  function PrintHost(a: Authority, s: HostState): string {
    Pieces(UserText(a, s), OpenText(a), HostText(a), CloseText(a, s), PortText(a))
  }

  function Pieces(user: string, opening: string, host: string, closing: string, port: string): string {
    user + opening + host + closing + port
  }

  predicate HostSound(a: Authority) {
    && (a.user.Some? ==> All(a.user.value, IsUserinfoChar))
    && All(a.addr, if a.bracket then IsV6Char else IsHostChar)
    && (a.zone.Some? ==> a.bracket && a.addr != "" && All(a.zone.value, IsZoneChar))
    && (a.port.Some? ==> a.addr != "" && a.zone != Some("") && All(a.port.value, IsNum))
  }

  predicate NoHost(a: Authority) { !a.bracket && a.addr == "" && a.zone.None? && a.port.None? }

  predicate HostReached(a: Authority, s: HostState) {
    match s
    case UserinfoStart => a.user == Some("") && NoHost(a)
    case Userinfo => a.user.Some? && a.user.value != "" && NoHost(a)
    case HostStart => NoHost(a)
    case HostName => !a.bracket && a.addr != "" && a.port.None?
    case V6Start => a.bracket && a.addr == "" && a.port.None?
    case V6 => a.bracket && a.addr != "" && a.zone.None? && a.port.None?
    case ZoneStart => a.zone == Some("") && a.port.None?
    case Zone => a.zone.Some? && a.zone.value != "" && a.port.None?
    case V6End => a.bracket && a.addr != "" && a.zone != Some("") && a.port.None?
    case PortStart => a.port == Some("")
    case PortDigits => a.port.Some? && a.port.value != ""
    case HostDead => false
  }

  predicate HostShape(a: Authority, s: HostState) { HostSound(a) && HostReached(a, s) }

  function Add(s: Option<string>, c: char): Option<string> { if s.Some? then Some(s.value + [c]) else s }

  function HostGrow(a: Authority, t: HostState, c: char): Authority {
    match t
    case Userinfo => a.(user := Add(a.user, c))
    case HostName => a.(addr := a.addr + [c])
    case V6Start => a.(bracket := true)
    case V6 => a.(addr := a.addr + [c])
    case ZoneStart => a.(zone := Some(""))
    case Zone => a.(zone := Add(a.zone, c))
    case PortStart => a.(port := Some(""))
    case PortDigits => a.(port := Add(a.port, c))
    case _ => a
  }

  predicate HostLeads(a: Authority, s: HostState, c: char, t: HostState) {
    HostShape(a, s) && HostChar(s, c) == t && t != HostDead
  }

  // ---- one byte forth -------------------------------------------------------------------------------------

  lemma NoChars()
    ensures All("", IsHostChar) && All("", IsV6Char) && All("", IsZoneChar) && All("", IsNum)
  {
  }

  lemma HostGrowKeepsShape(a: Authority, s: HostState, c: char, t: HostState)
    requires HostLeads(a, s, c, t)
    ensures HostShape(HostGrow(a, t, c), t)
  {
    hide All, IsUserinfoChar, IsHostChar, IsV6Char, IsZoneChar, IsNum;
    NoChars();
    match t
    case Userinfo => AllGrows(a.user.value, c, IsUserinfoChar);
    case HostName => AllGrows(a.addr, c, IsHostChar);
    case V6 => AllGrows(a.addr, c, IsV6Char);
    case Zone => AllGrows(a.zone.value, c, IsZoneChar);
    case PortDigits => AllGrows(a.port.value, c, IsNum);
    case _ =>
  }

  // ---- one byte back --------------------------------------------------------------------------------------

  function Init(s: string): string { if s == "" then "" else s[..|s| - 1] }

  function Less(s: Option<string>): Option<string> { if s.Some? then Some(Init(s.value)) else s }

  function HostShrink(a: Authority, s: HostState): Authority {
    match s
    case Userinfo => a.(user := Less(a.user))
    case HostName => a.(addr := Init(a.addr))
    case V6Start => a.(bracket := false)
    case V6 => a.(addr := Init(a.addr))
    case ZoneStart => a.(zone := None)
    case Zone => a.(zone := Less(a.zone))
    case PortStart => a.(port := None)
    case PortDigits => a.(port := Less(a.port))
    case _ => a
  }

  function HostBefore(a: Authority, s: HostState): HostState {
    var q := HostShrink(a, s);
    match s
    case Userinfo => if q.user == Some("") then UserinfoStart else s
    case HostStart => if q.user == Some("") then UserinfoStart else Userinfo
    case HostName => if q.addr == "" then HostStart else s
    case V6Start => HostStart
    case V6 => if q.addr == "" then V6Start else s
    case ZoneStart => V6
    case Zone => if q.zone == Some("") then ZoneStart else s
    case V6End => if q.zone.Some? then Zone else V6
    case PortStart => if q.bracket then V6End else HostName
    case PortDigits => if q.port == Some("") then PortStart else s
    case _ => s
  }

  function LastIn(s: Option<string>): char { if s.Some? then LastOf(s.value) else '\0' }

  function HostLast(a: Authority, s: HostState): char {
    match s
    case Userinfo => LastIn(a.user)
    case HostStart => '@'
    case HostName => LastOf(a.addr)
    case V6Start => '['
    case V6 => LastOf(a.addr)
    case ZoneStart => '%'
    case Zone => LastIn(a.zone)
    case V6End => ']'
    case PortStart => ':'
    case PortDigits => LastIn(a.port)
    case _ => '\0'
  }

  predicate HostUndone(a: Authority, s: HostState) {
    var q, s', c := HostShrink(a, s), HostBefore(a, s), HostLast(a, s);
    HostLeads(q, s', c, s) && HostGrow(q, s, c) == a
  }

  lemma AllInit(s: string, p: char -> bool)
    requires s != "" && All(s, p)
    ensures All(Init(s), p) && p(LastOf(s)) && Init(s) + [LastOf(s)] == s
  {
  }

  // the delimiters are in no part
  lemma Delimiters()
    ensures !IsUserinfoChar('@') && !IsHostChar('[') && !IsHostChar(':')
    ensures !IsV6Char(']') && !IsV6Char('%') && !IsZoneChar(']')
  {
  }

  lemma BackUser(a: Authority)
    requires HostShape(a, Userinfo)
    ensures HostUndone(a, Userinfo)
  {
    hide All, IsUserinfoChar, IsHostChar, IsV6Char, IsZoneChar, IsNum;
    AllInit(a.user.value, IsUserinfoChar);
    Delimiters();
  }

  lemma BackName(a: Authority)
    requires HostShape(a, HostName)
    ensures HostUndone(a, HostName)
  {
    hide All, IsUserinfoChar, IsHostChar, IsV6Char, IsZoneChar, IsNum;
    AllInit(a.addr, IsHostChar);
    Delimiters();
  }

  lemma BackV6(a: Authority)
    requires HostShape(a, V6)
    ensures HostUndone(a, V6)
  {
    hide All, IsUserinfoChar, IsHostChar, IsV6Char, IsZoneChar, IsNum;
    AllInit(a.addr, IsV6Char);
    Delimiters();
  }

  lemma BackZone(a: Authority)
    requires HostShape(a, Zone)
    ensures HostUndone(a, Zone)
  {
    hide All, IsUserinfoChar, IsHostChar, IsV6Char, IsZoneChar, IsNum;
    AllInit(a.zone.value, IsZoneChar);
    Delimiters();
  }

  lemma BackPort(a: Authority)
    requires HostShape(a, PortDigits)
    ensures HostUndone(a, PortDigits)
  {
    hide All, IsUserinfoChar, IsHostChar, IsV6Char, IsZoneChar, IsNum;
    AllInit(a.port.value, IsNum);
  }

  lemma BackMark(a: Authority, s: HostState)
    requires HostShape(a, s) && (s == HostStart ==> a.user.Some?)
    requires s == HostStart || s == V6Start || s == ZoneStart || s == V6End || s == PortStart
    ensures HostUndone(a, s)
  {
    hide All, IsUserinfoChar, IsHostChar, IsV6Char, IsZoneChar, IsNum;
    Delimiters();
    NoChars();
  }

  lemma HostBack(a: Authority, s: HostState)
    requires HostShape(a, s) && s != HostBegin(a.user.Some?)
    ensures HostUndone(a, s)
  {
    hide HostUndone, HostSound;
    match s
    case UserinfoStart =>
    case Userinfo => BackUser(a);
    case HostName => BackName(a);
    case V6 => BackV6(a);
    case Zone => BackZone(a);
    case PortDigits => BackPort(a);
    case _ => BackMark(a, s);
  }

  // ---- printing a byte --------------------------------------------------------------------------------------

  predicate Steps(x: string, y: string, c: char, grows: bool) { y == if grows then x + [c] else x }

  lemma FrontSteps(a: Authority, s: HostState, c: char, t: HostState)
    requires HostLeads(a, s, c, t)
    ensures Steps(UserText(a, s), UserText(HostGrow(a, t, c), t), c, t == Userinfo || t == HostStart)
    ensures Steps(OpenText(a), OpenText(HostGrow(a, t, c)), c, t == V6Start)
    ensures Steps(HostText(a), HostText(HostGrow(a, t, c)), c, t == HostName || t == V6 || t == ZoneStart || t == Zone)
  {
    hide All, IsUserinfoChar, IsHostChar, IsV6Char, IsZoneChar, IsNum;
  }

  lemma RearSteps(a: Authority, s: HostState, c: char, t: HostState)
    requires HostLeads(a, s, c, t)
    ensures Steps(CloseText(a, s), CloseText(HostGrow(a, t, c), t), c, t == V6End)
    ensures Steps(PortText(a), PortText(HostGrow(a, t, c)), c, t == PortStart || t == PortDigits)
    ensures t == Userinfo || t == HostStart ==> OpenText(a) == HostText(a) == CloseText(a, s) == PortText(a) == ""
    ensures t == V6Start ==> HostText(a) == CloseText(a, s) == PortText(a) == ""
    ensures t == HostName || t == V6 || t == ZoneStart || t == Zone ==> CloseText(a, s) == PortText(a) == ""
    ensures t == V6End ==> PortText(a) == ""
    ensures t != UserinfoStart && t != HostDead
  {
    hide All, IsUserinfoChar, IsHostChar, IsV6Char, IsZoneChar, IsNum;
  }

  lemma PiecesGrow(u: string, o: string, h: string, l: string, p: string, c: char)
    ensures o == h == l == p == "" ==> Pieces(u + [c], o, h, l, p) == Pieces(u, o, h, l, p) + [c]
    ensures h == l == p == "" ==> Pieces(u, o + [c], h, l, p) == Pieces(u, o, h, l, p) + [c]
    ensures l == p == "" ==> Pieces(u, o, h + [c], l, p) == Pieces(u, o, h, l, p) + [c]
    ensures p == "" ==> Pieces(u, o, h, l + [c], p) == Pieces(u, o, h, l, p) + [c]
    ensures Pieces(u, o, h, l, p + [c]) == Pieces(u, o, h, l, p) + [c]
  {
  }

  lemma HostPrintByte(a: Authority, s: HostState, c: char, t: HostState)
    requires HostLeads(a, s, c, t)
    ensures PrintHost(HostGrow(a, t, c), t) == PrintHost(a, s) + [c]
  {
    hide HostLeads, Pieces, UserText, OpenText, HostText, CloseText, PortText, HostGrow;
    FrontSteps(a, s, c, t);
    RearSteps(a, s, c, t);
    PiecesGrow(UserText(a, s), OpenText(a), HostText(a), CloseText(a, s), PortText(a), c);
  }

  // ---- where the parts are ------------------------------------------------------------------------------------

  function HostAt(a: Authority, b: nat): nat {
    b + (if a.user.Some? then |a.user.value| + 1 else 0) + (if a.bracket then 1 else 0)
  }

  function PortAt(a: Authority, b: nat): nat { HostAt(a, b) + |HostText(a)| + (if a.bracket then 1 else 0) + 1 }

  function Filled(s: Option<string>): bool { s.Some? && s.value != "" }

  /** The entries of an authority that starts at b. */
  function HostParts(a: Authority, b: nat, parts: Parts): Parts {
    parts.(userinfo := if Filled(a.user) then Some(Span(b, |a.user.value|)) else parts.userinfo,
           host := Some(if a.addr == "" then Span(b, 0) else Span(HostAt(a, b), |HostText(a)|)),
           port := if Filled(a.port) then Some(Span(PortAt(a, b), |a.port.value|)) else parts.port)
  }

  lemma HostAgreeByte(a: Authority, s: HostState, c: char, t: HostState, b: nat, parts: Parts)
    requires HostLeads(a, s, c, t)
    ensures HostByte(HostScan(s, HostParts(a, b, parts)), c, b + |PrintHost(a, s)|) ==
            HostScan(t, HostParts(HostGrow(a, t, c), b, parts))
  {
    hide All, IsUserinfoChar, IsHostChar, IsV6Char, IsZoneChar, IsNum;
  }

  // ---- both directions ----------------------------------------------------------------------------------------

  function HostRead(buf: string, b: nat, at: bool, parts: Parts, n: nat): Authority
    requires b + n <= |buf|
  {
    if n == 0 then Authority(if at then Some("") else None, false, "", None, None)
    else HostGrow(HostRead(buf, b, at, parts, n - 1), HostWalk(buf, b, at, parts, n).s, buf[b + n - 1])
  }

  lemma HostStops(x: HostScan, c: char, i: nat)
    ensures x.s == HostDead ==> HostByte(x, c, i).s == HostDead
    ensures HostByte(x, c, i).s == HostChar(x.s, c)
  {
    hide IsUserinfoChar, IsHostChar, IsV6Char, IsZoneChar, IsNum;
  }

  lemma SliceGrows(buf: string, b: nat, n: nat, p: string, c: char)
    requires 0 < n && b + n <= |buf|
    ensures p + [c] == buf[b..b + n] <==> p == buf[b..b + n - 1] && c == buf[b + n - 1]
  {
    assert buf[b..b + n] == buf[b..b + n - 1] + [buf[b + n - 1]];
    if p + [c] == buf[b..b + n] {
      assert (p + [c])[..n - 1] == p && (p + [c])[n - 1] == c;
    }
  }

  /** The scan x has read the authority a from buf[b..b + n]. */
  predicate HasRead(x: HostScan, a: Authority, buf: string, b: nat, n: nat, parts: Parts)
    requires b + n <= |buf|
  {
    HostShape(a, x.s) && PrintHost(a, x.s) == buf[b..b + n] && x.parts == HostParts(a, b, parts)
  }

  lemma ReadsOn(x: HostScan, a: Authority, buf: string, b: nat, n: nat, parts: Parts)
    requires 0 < n && b + n <= |buf| && HasRead(x, a, buf, b, n - 1, parts)
    requires HostByte(x, buf[b + n - 1], b + n - 1).s != HostDead
    ensures var y := HostByte(x, buf[b + n - 1], b + n - 1);
      HasRead(y, HostGrow(a, y.s, buf[b + n - 1]), buf, b, n, parts)
  {
    hide *;
    var c, i, s := buf[b + n - 1], b + n - 1, x.s;
    var t, w := HostByte(x, c, i).s, PrintHost(a, s);
    HadRead(x, a, buf, b, n - 1, parts);
    HostStops(x, c, i);
    LeadsOn(a, s, c, t);
    HostGrowKeepsShape(a, s, c, t);
    HostPrintByte(a, s, c, t);
    HostAgreeByte(a, s, c, t, b, parts);
    SliceGrows(buf, b, n, w, c);
    NowRead(HostByte(x, c, i), HostGrow(a, t, c), buf, b, n, parts);
  }

  lemma HadRead(x: HostScan, a: Authority, buf: string, b: nat, n: nat, parts: Parts)
    requires b + n <= |buf| && HasRead(x, a, buf, b, n, parts)
    ensures HostShape(a, x.s) && PrintHost(a, x.s) == buf[b..b + n] && |PrintHost(a, x.s)| == n
    ensures x == HostScan(x.s, HostParts(a, b, parts))
  {
    hide HostShape, PrintHost, HostParts;
  }

  lemma NowRead(x: HostScan, a: Authority, buf: string, b: nat, n: nat, parts: Parts)
    requires b + n <= |buf| && HostShape(a, x.s) && PrintHost(a, x.s) == buf[b..b + n] && x.parts == HostParts(a, b, parts)
    ensures HasRead(x, a, buf, b, n, parts)
  {
    hide HostShape, PrintHost, HostParts;
  }

  lemma LeadsOn(a: Authority, s: HostState, c: char, t: HostState)
    requires HostShape(a, s) && HostChar(s, c) == t && t != HostDead
    ensures HostLeads(a, s, c, t)
  {
    hide HostShape, HostChar;
  }

  /** A scan that does not fail has read a well-shaped authority. */
  lemma {:induction false} HostReads(buf: string, b: nat, at: bool, parts: Parts, n: nat)
    requires b + n <= |buf| && HostWalk(buf, b, at, parts, n).s != HostDead
    ensures var a := HostRead(buf, b, at, parts, n);
      HasRead(HostWalk(buf, b, at, parts, n), a, buf, b, n, parts) && (a.user.Some? <==> at)
  {
    hide HasRead, HostByte, HostGrow, HostBegin;
    if n == 0 {
      FirstRead(buf, b, at, parts);
    } else {
      var x := HostWalk(buf, b, at, parts, n - 1);
      HostStops(x, buf[b + n - 1], b + n - 1);
      HostReads(buf, b, at, parts, n - 1);
      ReadsOn(x, HostRead(buf, b, at, parts, n - 1), buf, b, n, parts);
      GrowKeepsUser(HostRead(buf, b, at, parts, n - 1), HostWalk(buf, b, at, parts, n).s, buf[b + n - 1]);
    }
  }

  lemma FirstRead(buf: string, b: nat, at: bool, parts: Parts)
    requires b <= |buf|
    ensures HasRead(HostWalk(buf, b, at, parts, 0), HostRead(buf, b, at, parts, 0), buf, b, 0, parts)
  {
  }

  lemma GrowKeepsUser(a: Authority, t: HostState, c: char)
    ensures HostGrow(a, t, c).user.Some? == a.user.Some?
  {
  }

  lemma FindsOn(a: Authority, s: HostState, buf: string, b: nat, n: nat, parts: Parts)
    requires HostShape(a, s) && s != HostBegin(a.user.Some?) && b + n <= |buf| && PrintHost(a, s) == buf[b..b + n]
    ensures 0 < n && HostShape(HostShrink(a, s), HostBefore(a, s)) && HostShrink(a, s).user.Some? == a.user.Some?
    ensures PrintHost(HostShrink(a, s), HostBefore(a, s)) == buf[b..b + n - 1]
    ensures HostByte(HostScan(HostBefore(a, s), HostParts(HostShrink(a, s), b, parts)), buf[b + n - 1], b + n - 1) ==
            HostScan(s, HostParts(a, b, parts))
  {
    hide HostShape, PrintHost, HostParts, HostChar, HostByte, HostBefore, HostLast, HostGrow;
    HostBack(a, s);
    var q, s', c := HostShrink(a, s), HostBefore(a, s), HostLast(a, s);
    hide HostShrink;
    HostPrintByte(q, s', c, s);
    SliceGrows(buf, b, n, PrintHost(q, s'), c);
    HostAgreeByte(q, s', c, s, b, parts);
  }

  lemma NothingFound(a: Authority, b: nat, parts: Parts)
    requires HostShape(a, HostBegin(a.user.Some?))
    ensures PrintHost(a, HostBegin(a.user.Some?)) == "" && HostParts(a, b, parts) == parts.(host := Some(Span(b, 0)))
  {
  }

  /** A well-shaped authority is found where it is printed. */
  lemma {:induction false} HostFinds(buf: string, b: nat, parts: Parts, n: nat, a: Authority, s: HostState)
    requires b + n <= |buf| && HostShape(a, s) && PrintHost(a, s) == buf[b..b + n]
    ensures HostWalk(buf, b, a.user.Some?, parts, n) == HostScan(s, HostParts(a, b, parts))
    decreases n
  {
    hide HostShape, PrintHost, HostParts, HostByte, HostShrink, HostBefore, HostLast, HostGrow, HostUndone, HostBegin;
    if s == HostBegin(a.user.Some?) {
      NothingFound(a, b, parts);
      assert n == |buf[b..b + n]|;
    } else {
      FindsOn(a, s, buf, b, n, parts);
      HostFinds(buf, b, parts, n - 1, HostShrink(a, s), HostBefore(a, s));
    }
  }
}
