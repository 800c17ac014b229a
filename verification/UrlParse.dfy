/** http_parser_parse_url as a whole: it accepts exactly the texts that are printed from
    well-formed URLs with a port below 65536, and its entries are where the components are. */
module UrlParse {
  import opened Basics
  import opened HttpBase
  import opened HttpNumbers
  import opened UrlSplit
  import opened UrlHost

  // ---- the grammar ------------------------------------------------------------------------------------

  /** A URL by its components. An empty scheme is an absent one; a query may be empty behind its
      '?', a fragment may be empty behind its '#'s. */
  datatype Address = Address(schema: string, authority: Option<Authority>, path: string, query: Option<string>,
                             hashes: nat, fragment: string)

  /** An authority that is over: a host, and no empty zone or port. */
  predicate Complete(a: Authority) {
    HostSound(a) && a.addr != "" && a.zone != Some("") && a.port != Some("")
  }

  function EndState(a: Authority): HostState {
    if a.port.Some? then PortDigits else if a.bracket then V6End else HostName
  }

  function AuthorityText(a: Option<Authority>): string {
    if a.None? then "" else PrintHost(a.value, EndState(a.value))
  }

  function RawOf(u: Address): Raw {
    Raw(u.schema, AuthorityText(u.authority), u.path, u.query, u.hashes, u.fragment)
  }

  /** The components as RFC 3986, section 3, divides them, in the form this parser understands. */
  predicate GoodParts(u: Address, connect: bool) {
    && All(u.schema, IsAlpha) && (connect ==> u.schema == "")
    && (u.authority.Some? ==> connect || u.schema != "") && (u.schema != "" ==> u.authority.Some?)
    && (u.authority.Some? ==> Complete(u.authority.value))
    && PathText(u.path, connect || u.schema != "")
    && (u.query.Some? ==> All(u.query.value, IsQueryChar) && (connect || u.schema != "" || u.path != ""))
    && FragmentText(u.fragment) && (u.fragment != "" ==> u.hashes > 0)
    && (u.hashes > 0 ==> u.path != "" || u.query.Some?)
  }

  /** A CONNECT target is a host and a port, perhaps behind an empty userinfo, perhaps before an
      empty query and an empty fragment. */
  predicate ConnectTarget(u: Address) {
    && u.authority.Some? && u.authority.value.port.Some? && !Filled(u.authority.value.user)
    && u.path == "" && !Filled(u.query) && u.fragment == ""
  }

  predicate WellFormed(u: Address, connect: bool) { GoodParts(u, connect) && (connect ==> ConnectTarget(u)) }

  function PrintUrl(u: Address): string {
    u.schema + (if u.schema == "" then "" else "://") + AuthorityText(u.authority) + u.path + PrintQuery(u.query)
    + Hashes(u.hashes) + u.fragment
  }

  function PortDigitsOf(u: Address): string {
    if u.authority.Some? && u.authority.value.port.Some? then u.authority.value.port.value else ""
  }

  predicate Digits(s: string) { All(s, IsNum) }

  function Value(s: string): nat
    requires Digits(s)
  {
    DecValue(s)
  }

  predicate PortFits(u: Address)
    requires Digits(PortDigitsOf(u))
  {
    Value(PortDigitsOf(u)) <= 65535
  }

  /** The entries of a URL in its printed text. */
  function Entries(u: Address): Parts {
    var ps := PartsAt(RawOf(u));
    if u.authority.None? then ps else HostParts(u.authority.value, AuthAt(RawOf(u)), ps)
  }

  // ---- the parser ---------------------------------------------------------------------------------------

  predicate Fits(s: Option<Span>, buf: string) { s.Some? ==> s.value.off + s.value.len <= |buf| }

  function Slice(buf: string, s: Option<Span>): string
    requires Fits(s, buf)
  {
    if s.None? then "" else buf[s.value.off..s.value.off + s.value.len]
  }

  /** The first stage, then the second if there is a host. */
  function Stages(buf: string, connect: bool): Option<Parts> {
    var x := Walk(buf, connect, |buf|);
    if x.s == Dead || (x.parts.schema.Some? && x.parts.host.None?) then None
    else if x.parts.host.None? then Some(x.parts)
    else
      HostFits(buf, connect);
      var y := HostWalk(buf, x.parts.host.value.off, x.foundAt, x.parts, x.parts.host.value.len);
      if MayEnd(y.s) then Some(y.parts) else None
  }

  lemma HostFits(buf: string, connect: bool)
    requires Walk(buf, connect, |buf|).s != Dead
    ensures Fits(Walk(buf, connect, |buf|).parts.host, buf)
  {
    WalkReads(buf, connect, |buf|);
    var x, r := Walk(buf, connect, |buf|), Read(buf, connect, |buf|);
    AuthPlace(r, x.s, connect);
  }

  lemma Middle(a: string, b: string, c: string)
    ensures (a + b + c)[|a|..|a| + |b|] == b
  {
  }

  /** The authority stands where its entry says. */
  lemma AuthPlace(r: Raw, s: State, connect: bool)
    requires Shape(r, s, connect)
    ensures var w := Printed(r, s); r.auth != "" ==> PathAt(r) <= |w| && w[AuthAt(r)..PathAt(r)] == r.auth
  {
    if r.auth != "" {
      FrontOver(r, s, connect);
      hide Shape;
      var a, c := r.schema + Separator(r.schema, s), r.path + PrintQuery(r.query) + Hashes(r.hashes) + r.fragment;
      assert Printed(r, s) == a + r.auth + c;
      Middle(a, r.auth, c);
    }
  }

  lemma FrontOver(r: Raw, s: State, connect: bool)
    requires Shape(r, s, connect) && (r.auth != "" || !NoTail(r))
    ensures Separator(r.schema, s) == if r.schema == "" then "" else "://"
  {
    hide All, AuthText, PathText, FragmentText, Sound;
  }

  // ---- what is printed is parsed ----------------------------------------------------------------------------

  predicate NoAt(s: string) { forall i :: 0 <= i < |s| ==> s[i] != '@' }

  lemma UserNoAt(s: string)
    requires All(s, IsUserinfoChar)
    ensures NoAt(s) && All(s, IsServerChar)
  {
    forall i | 0 <= i < |s| ensures s[i] != '@' && IsServerChar(s[i]) { assert IsUserinfoChar(s[i]); }
  }

  lemma HostNoAt(s: string, bracket: bool)
    requires All(s, if bracket then IsV6Char else IsHostChar)
    ensures NoAt(s) && All(s, IsServerChar)
  {
    forall i | 0 <= i < |s| ensures s[i] != '@' && IsServerChar(s[i]) {
      if bracket { assert IsV6Char(s[i]); } else { assert IsHostChar(s[i]); }
    }
  }

  lemma ZoneNoAt(s: string)
    requires All(s, IsZoneChar)
    ensures NoAt(s) && All(s, IsServerChar)
  {
  }

  lemma PortNoAt(s: string)
    requires All(s, IsNum)
    ensures NoAt(s) && All(s, IsServerChar)
  {
  }

  predicate Calm(s: string) { NoAt(s) && All(s, IsServerChar) }

  lemma CalmConcat(a: string, b: string)
    requires Calm(a) && Calm(b)
    ensures Calm(a + b)
  {
    hide IsServerChar;
    forall i | 0 <= i < |a + b| ensures (a + b)[i] != '@' && IsServerChar((a + b)[i]) {
      if i < |a| { assert (a + b)[i] == a[i]; } else { assert (a + b)[i] == b[i - |a|]; }
    }
  }

  /** Everything behind the '@'. */
  function HostAndPort(a: Authority): string {
    OpenText(a) + HostText(a) + CloseText(a, EndState(a)) + PortText(a)
  }

  lemma HostAndPortCalm(a: Authority)
    requires Complete(a)
    ensures Calm(HostAndPort(a)) && HostAndPort(a) != ""
  {
    HostNoAt(a.addr, a.bracket);
    if a.zone.Some? { ZoneNoAt(a.zone.value); CalmConcat("%", a.zone.value); CalmConcat(a.addr, "%" + a.zone.value); }
    if a.port.Some? { PortNoAt(a.port.value); CalmConcat(":", a.port.value); }
    assert a.addr + "" == a.addr;
    assert Calm(OpenText(a)) && Calm(CloseText(a, EndState(a))) && Calm(PortText(a)) && Calm(HostText(a));
    hide Calm, Complete, PortText;
    CalmConcat(OpenText(a), HostText(a));
    CalmConcat(OpenText(a) + HostText(a), CloseText(a, EndState(a)));
    CalmConcat(OpenText(a) + HostText(a) + CloseText(a, EndState(a)), PortText(a));
  }

  /** An authority is acceptable to the first stage, which sees an '@' exactly if there is a userinfo. */
  lemma AuthorityIsAuth(a: Authority)
    requires Complete(a)
    ensures var t := PrintHost(a, EndState(a));
      t != "" && AuthText(t) && t[|t| - 1] != '@' && ('@' in t <==> a.user.Some?)
  {
    var s := EndState(a);
    var h := HostAndPort(a);
    PiecesFront(UserText(a, s), OpenText(a), HostText(a), CloseText(a, s), PortText(a));
    assert PrintHost(a, s) == UserText(a, s) + h;
    HostAndPortCalm(a);
    if a.user.Some? { UserNoAt(a.user.value); }
    hide IsServerChar, IsUserinfoChar, AuthText, HostAndPort, PrintHost, Complete;
    if a.user.None? {
      assert "" + h == h;
      NoneAt(h);
    } else {
      AtOnce(a.user.value, h);
    }
  }

  lemma PiecesFront(u: string, o: string, h: string, l: string, p: string)
    ensures Pieces(u, o, h, l, p) == u + (o + h + l + p)
  {
  }

  lemma NoneAt(h: string)
    requires Calm(h) && h != ""
    ensures AuthText(h) && h[|h| - 1] != '@' && '@' !in h
  {
  }

  lemma AtOnce(u: string, h: string)
    requires Calm(u) && Calm(h) && h != ""
    ensures var t := u + "@" + h; AuthText(t) && t[|t| - 1] != '@' && '@' in t
  {
    hide IsUserinfoChar;
    var t := u + "@" + h;
    assert t[|u|] == '@';
    forall i | 0 <= i < |t| ensures IsServerChar(t[i]) && (t[i] == '@' <==> i == |u|) {
      if i < |u| { assert t[i] == u[i]; } else if i > |u| { assert t[i] == h[i - |u| - 1]; }
    }
  }

  /** The state of the first stage at the end of a URL. */
  function FinalState(u: Address): State {
    if u.fragment != "" then Url(ReqFragment)
    else if u.hashes > 0 then Url(ReqFragmentStart)
    else if u.query.Some? then Url(if u.query.value == "" then ReqQueryStringStart else ReqQueryString)
    else if u.path != "" then Url(ReqPath)
    else if u.authority.Some? then Url(ReqServer)
    else ReqSpacesBeforeUrl
  }

  lemma AddressSound(u: Address, connect: bool)
    requires WellFormed(u, connect)
    ensures Sound(RawOf(u), connect)
    ensures u.authority.Some? <==> AuthorityText(u.authority) != ""
    ensures '@' in AuthorityText(u.authority) <==> u.authority.Some? && u.authority.value.user.Some?
  {
    hide All, AuthText, PathText, FragmentText, Complete, PrintHost;
    if u.authority.Some? { AuthorityIsAuth(u.authority.value); }
    AuthTextEmpty();
  }

  lemma AddressShape(u: Address, connect: bool)
    requires WellFormed(u, connect)
    ensures Shape(RawOf(u), FinalState(u), connect)
  {
    hide All, AuthText, PathText, FragmentText, Complete, PrintHost, Sound;
    AddressSound(u, connect);
    if u.authority.Some? { AuthorityIsAuth(u.authority.value); }
  }

  lemma AddressPrinted(u: Address, connect: bool)
    requires WellFormed(u, connect)
    ensures Printed(RawOf(u), FinalState(u)) == PrintUrl(u)
  {
    hide Separator, WellFormed, AuthorityText, FinalState;
    AddressSound(u, connect);
    FinalSeparator(u);
  }

  lemma FinalSeparator(u: Address)
    ensures Separator(u.schema, FinalState(u)) == if u.schema == "" then "" else "://"
  {
  }

  lemma AuthTextEmpty()
    ensures AuthText("") && AuthorityText(None) == ""
  {
  }

  /** The entries of the authority are within it, and its port is made of digits. */
  lemma HostEntries(a: Authority, s: HostState, buf: string, b: nat, n: nat, parts: Parts)
    requires b + n <= |buf| && HostShape(a, s) && MayEnd(s) && PrintHost(a, s) == buf[b..b + n] && parts.port.None?
    ensures var p := HostParts(a, b, parts).port; Fits(p, buf) && Slice(buf, p) == (if a.port.Some? then a.port.value else "")
  {
    hide HostSound;
    if s == PortDigits {
      var p := a.port.value;
      var f := UserText(a, s) + OpenText(a) + HostText(a) + CloseText(a, s) + ":";
      assert PrintHost(a, s) == f + p;
      hide PrintHost, HostText, OpenText;
      assert |f| + b == PortAt(a, b);
      assert buf[b..b + n][|f|..] == p;
    }
  }

  lemma CompleteShape(a: Authority)
    requires Complete(a)
    ensures HostShape(a, EndState(a)) && MayEnd(EndState(a))
  {
    hide HostSound;
  }

  /** The two stages find the components of a printed URL. */
  lemma StagesFind(u: Address, connect: bool)
    requires WellFormed(u, connect)
    ensures Stages(PrintUrl(u), connect) == Some(Entries(u))
  {
    hide Shape, WellFormed, HostShape, PrintUrl, Printed;
    WellFormedHas(u, connect);
    var buf, r, s := PrintUrl(u), RawOf(u), FinalState(u);
    AddressShape(u, connect);
    AddressPrinted(u, connect);
    AddressSound(u, connect);
    assert buf[..|buf|] == buf;
    WalkFinds(buf, connect, |buf|, r, s);
    if u.authority.Some? {
      var a := u.authority.value;
      AuthPlace(r, s, connect);
      CompleteShape(a);
      HostFinds(buf, AuthAt(r), PartsAt(r), |r.auth|, a, EndState(a));
    }
  }

  lemma WellFormedHas(u: Address, connect: bool)
    requires WellFormed(u, connect)
    ensures u.schema != "" ==> u.authority.Some?
    ensures u.authority.Some? ==> Complete(u.authority.value)
  {
  }

  /** The components that the two stages find. */
  function AddressOf(buf: string, connect: bool): Address
    requires Walk(buf, connect, |buf|).s != Dead
  {
    HostFits(buf, connect);
    var x, r := Walk(buf, connect, |buf|), Read(buf, connect, |buf|);
    var h := x.parts.host;
    var a := if h.None? then None else Some(HostRead(buf, h.value.off, x.foundAt, x.parts, h.value.len));
    Address(r.schema, a, r.path, r.query, r.hashes, r.fragment)
  }

  lemma EndComplete(a: Authority, s: HostState)
    requires HostShape(a, s) && MayEnd(s)
    ensures Complete(a) && s == EndState(a)
  {
    hide All;
  }

  lemma ReadAddress(r: Raw, s: State, connect: bool, u: Address)
    requires Shape(r, s, connect) && r == RawOf(u) && (u.authority.Some? <==> r.auth != "")
    requires u.authority.Some? ==> Complete(u.authority.value)
    requires r.schema != "" ==> r.auth != ""
    ensures GoodParts(u, connect) && PrintUrl(u) == Printed(r, s)
  {
    if r.auth != "" || !NoTail(r) { FrontOver(r, s, connect); }
    hide All, AuthText, PathText, FragmentText, Complete, PrintHost;
  }

  /** The host found by the second stage. */
  lemma HostRegion(buf: string, connect: bool)
    requires Stages(buf, connect).Some? && Read(buf, connect, |buf|).auth != ""
    ensures var r, u := Read(buf, connect, |buf|), AddressOf(buf, connect);
      u.authority.Some? && Complete(u.authority.value) && RawOf(u) == r
      && Stages(buf, connect).value == HostParts(u.authority.value, AuthAt(r), PartsAt(r))
  {
    hide Shape, Printed, HostShape, Complete, PrintHost, HostParts;
    var x, r := Walk(buf, connect, |buf|), Read(buf, connect, |buf|);
    WalkReads(buf, connect, |buf|);
    assert buf[..|buf|] == buf;
    AuthPlace(r, x.s, connect);
    var b, n := AuthAt(r), |r.auth|;
    HostReads(buf, b, x.foundAt, x.parts, n);
    EndComplete(HostRead(buf, b, x.foundAt, x.parts, n), HostWalk(buf, b, x.foundAt, x.parts, n).s);
  }

  /** Whatever the two stages accept is a printed URL, and their entries are its entries. */
  lemma StagesRead(buf: string, connect: bool)
    requires Stages(buf, connect).Some?
    ensures var u := AddressOf(buf, connect);
      GoodParts(u, connect) && PrintUrl(u) == buf && Stages(buf, connect) == Some(Entries(u))
  {
    var x, r, u := Walk(buf, connect, |buf|), Read(buf, connect, |buf|), AddressOf(buf, connect);
    WalkReads(buf, connect, |buf|);
    assert buf[..|buf|] == buf;
    if r.auth != "" { HostRegion(buf, connect); }
    hide Shape, GoodParts, PrintUrl, Printed, Complete, PrintHost, HostParts;
    ReadAddress(r, x.s, connect, u);
  }

  // ---- the parser -----------------------------------------------------------------------------------------------

  lemma AuthInUrl(u: Address)
    ensures var r := RawOf(u);
      PathAt(r) <= |PrintUrl(u)| && PrintUrl(u)[AuthAt(r)..PathAt(r)] == AuthorityText(u.authority)
  {
    var a := u.schema + if u.schema == "" then "" else "://";
    var t, c := AuthorityText(u.authority), u.path + PrintQuery(u.query) + Hashes(u.hashes) + u.fragment;
    hide AuthorityText, PrintQuery;
    Middle(a, t, c);
    assert PrintUrl(u) == a + t + c;
  }

  lemma EntriesPort(u: Address, connect: bool)
    requires GoodParts(u, connect)
    ensures var p := Entries(u).port; Digits(PortDigitsOf(u)) && Fits(p, PrintUrl(u)) && Slice(PrintUrl(u), p) == PortDigitsOf(u)
  {
    AuthInUrl(u);
    if u.authority.Some? {
      var a, r := u.authority.value, RawOf(u);
      CompleteShape(a);
      assert a.port.Some? ==> All(a.port.value, IsNum);
      hide GoodParts, HostShape, PrintUrl, PrintHost, HostParts, Complete, All, HostSound;
      HostEntries(a, EndState(a), PrintUrl(u), AuthAt(r), |r.auth|, PartsAt(r));
    }
  }

  predicate OnlyHostAndPort(ps: Parts) {
    ps == NO_PARTS.(host := ps.host, port := ps.port) && ps.host.Some? && ps.port.Some?
  }

  lemma StagesPort(buf: string, connect: bool)
    requires Stages(buf, connect).Some?
    ensures var p := Stages(buf, connect).value.port; Fits(p, buf) && Digits(Slice(buf, p))
  {
    hide Digits, GoodParts, Slice, Entries;
    StagesRead(buf, connect);
    EntriesPort(AddressOf(buf, connect), connect);
  }

  /** field_data and port, or None for a nonzero return. */
  function ParseUrl(buf: string, connect: bool): Option<(Parts, nat)> {
    match Stages(buf, connect)
    case None => None
    case Some(ps) =>
      StagesPort(buf, connect);
      var port := Value(Slice(buf, ps.port));
      if (connect && !OnlyHostAndPort(ps)) || port > 65535 then None else Some((ps, port))
  }

  lemma ConnectEntries(u: Address, connect: bool)
    requires GoodParts(u, connect) && connect
    ensures OnlyHostAndPort(Entries(u)) <==> ConnectTarget(u)
  {
    if u.authority.Some? { AuthorityIsAuth(u.authority.value); }
    hide All, AuthText, PathText, FragmentText, HostSound, PrintHost;
  }

  /** Parsing undoes printing: the components of a well-formed URL are found where they are
      printed, and it is refused exactly if its port does not fit 16 bits. */
  lemma PrintedIsParsed(u: Address, connect: bool)
    requires WellFormed(u, connect)
    ensures Digits(PortDigitsOf(u))
    ensures ParseUrl(PrintUrl(u), connect) ==
            if PortFits(u) then Some((Entries(u), Value(PortDigitsOf(u)))) else None
  {
    StagesFind(u, connect);
    if connect { ConnectEntries(u, connect); }
    hide Slice, Entries, ConnectTarget, PrintUrl, Stages, Digits;
    EntriesPort(u, connect);
  }

  /** Printing undoes parsing: whatever is accepted is the print of a well-formed URL, and the
      entries say where its components are. */
  lemma ParsedIsPrinted(buf: string, connect: bool)
    requires ParseUrl(buf, connect).Some?
    ensures var u := AddressOf(buf, connect);
      WellFormed(u, connect) && PrintUrl(u) == buf && Digits(PortDigitsOf(u)) && PortFits(u)
      && ParseUrl(buf, connect) == Some((Entries(u), Value(PortDigitsOf(u))))
  {
    StagesRead(buf, connect);
    var u := AddressOf(buf, connect);
    if connect { ConnectEntries(u, connect); }
    hide Slice, Entries, ConnectTarget, PrintUrl, Stages, GoodParts, AddressOf, Digits;
    EntriesPort(u, connect);
  }

  /** A text is accepted if and only if it is the print of a well-formed URL whose port fits. */
  lemma AcceptedExactly(buf: string, connect: bool)
    ensures ParseUrl(buf, connect).Some? <==>
            exists u :: WellFormed(u, connect) && PrintUrl(u) == buf && Digits(PortDigitsOf(u)) && PortFits(u)
  {
    hide WellFormed, PrintUrl, PortFits, Entries, Digits, PortDigitsOf;
    if ParseUrl(buf, connect).Some? { ParsedIsPrinted(buf, connect); }
    forall u | WellFormed(u, connect) && PrintUrl(u) == buf && Digits(PortDigitsOf(u)) && PortFits(u)
      ensures ParseUrl(buf, connect).Some?
    {
      PrintedIsParsed(u, connect);
    }
  }

  // ---- what the entries say ----------------------------------------------------------------------------------------

  predicate Says(buf: string, s: Option<Span>, text: string) { Fits(s, buf) && Slice(buf, s) == text }

  lemma SaysMiddle(a: string, b: string, c: string)
    ensures Says(a + b + c, SpanOf(|a|, b), b)
  {
    Middle(a, b, c);
  }

  lemma SchemaAndPathSay(u: Address)
    ensures var ps := PartsAt(RawOf(u)); Says(PrintUrl(u), ps.schema, u.schema) && Says(PrintUrl(u), ps.path, u.path)
  {
    var s := u.schema + if u.schema == "" then "" else "://";
    var t := AuthorityText(u.authority);
    var c := PrintQuery(u.query) + Hashes(u.hashes) + u.fragment;
    hide AuthorityText, PrintQuery, Says;
    SaysMiddle(s + t, u.path, c);
    assert s + t + u.path + c == PrintUrl(u);
    SaysMiddle("", u.schema, (if u.schema == "" then "" else "://") + t + u.path + c);
    assert "" + u.schema + ((if u.schema == "" then "" else "://") + t + u.path + c) == PrintUrl(u);
  }

  lemma QueryAndFragmentSay(u: Address)
    ensures var ps := PartsAt(RawOf(u));
      Says(PrintUrl(u), ps.query, if u.query.None? then "" else u.query.value) && Says(PrintUrl(u), ps.fragment, u.fragment)
  {
    var f := u.schema + (if u.schema == "" then "" else "://") + AuthorityText(u.authority) + u.path;
    var g := Hashes(u.hashes) + u.fragment;
    hide AuthorityText, Says;
    SaysMiddle(f + PrintQuery(u.query) + Hashes(u.hashes), u.fragment, "");
    assert f + PrintQuery(u.query) + Hashes(u.hashes) + u.fragment + "" == PrintUrl(u);
    if u.query.Some? {
      SaysMiddle(f + "?", u.query.value, g);
      assert f + "?" + u.query.value + g == PrintUrl(u);
    } else {
      assert Says(PrintUrl(u), None, "") by { SaysNothing(PrintUrl(u)); }
    }
  }

  lemma SaysNothing(buf: string)
    ensures Says(buf, None, "")
  {
  }

  /** A slice of a slice. */
  lemma SaysWithin(buf: string, b: nat, n: nat, off: nat, text: string)
    requires b + n <= |buf| && off + |text| <= n && buf[b..b + n][off..off + |text|] == text
    ensures Says(buf, Some(Span(b + off, |text|)), text)
  {
    var t := buf[b + off..b + off + |text|];
    forall k | 0 <= k < |text| ensures t[k] == text[k] {
      assert t[k] == buf[b..b + n][off + k] == buf[b..b + n][off..off + |text|][k];
    }
    assert t == text;
  }

  /** The piece b of a + b + c = buf[k..k + n]. */
  lemma SaysPiece(buf: string, k: nat, n: nat, a: string, b: string, c: string)
    requires k + n <= |buf| && buf[k..k + n] == a + b + c
    ensures Says(buf, Some(Span(k + |a|, |b|)), b)
  {
    hide Says;
    Middle(a, b, c);
    SaysWithin(buf, k, n, |a|, b);
  }

  lemma HostSays(a: Authority, s: HostState, buf: string, b: nat, n: nat, parts: Parts)
    requires b + n <= |buf| && Complete(a) && s == EndState(a) && PrintHost(a, s) == buf[b..b + n]
    ensures Says(buf, HostParts(a, b, parts).host, HostText(a))
  {
    assert a.addr != "" && s != UserinfoStart && s != Userinfo;
    var f, c := UserText(a, s) + OpenText(a), CloseText(a, s) + PortText(a);
    assert |f| + b == HostAt(a, b);
    PiecesMiddle(UserText(a, s), OpenText(a), HostText(a), CloseText(a, s), PortText(a));
    hide Complete, EndState, Says, CloseText, PortText, UserText, OpenText, HostText, HostAt, Pieces;
    SaysPiece(buf, b, n, f, HostText(a), c);
  }

  lemma PiecesMiddle(u: string, o: string, h: string, l: string, p: string)
    ensures Pieces(u, o, h, l, p) == (u + o) + h + (l + p)
  {
  }

  lemma UserSays(a: Authority, s: HostState, buf: string, b: nat, n: nat, parts: Parts)
    requires b + n <= |buf| && Complete(a) && s == EndState(a) && PrintHost(a, s) == buf[b..b + n] && Filled(a.user)
    ensures Says(buf, HostParts(a, b, parts).userinfo, a.user.value)
  {
    var c := "@" + HostAndPort(a);
    PiecesFront(UserText(a, s), OpenText(a), HostText(a), CloseText(a, s), PortText(a));
    assert UserText(a, s) + HostAndPort(a) == "" + a.user.value + c;
    hide Complete, EndState, Says, CloseText, PortText, OpenText, HostText, HostAt, Pieces, UserText, HostAndPort;
    SaysPiece(buf, b, n, "", a.user.value, c);
  }

  function UserOf(u: Address): string {
    if u.authority.Some? && u.authority.value.user.Some? then u.authority.value.user.value else ""
  }

  function HostOf(u: Address): string { if u.authority.Some? then HostText(u.authority.value) else "" }

  lemma AuthoritySays(u: Address)
    requires u.authority.Some? && Complete(u.authority.value)
    ensures Says(PrintUrl(u), Entries(u).userinfo, UserOf(u)) && Says(PrintUrl(u), Entries(u).host, HostOf(u))
  {
    var a, r := u.authority.value, RawOf(u);
    AuthInUrl(u);
    SaysNothing(PrintUrl(u));
    PartsHaveNoUser(r);
    hide PrintUrl, PrintHost, Complete, HostText, PartsAt, Says;
    HostSays(a, EndState(a), PrintUrl(u), AuthAt(r), |r.auth|, PartsAt(r));
    if Filled(a.user) { UserSays(a, EndState(a), PrintUrl(u), AuthAt(r), |r.auth|, PartsAt(r)); }
  }

  /** The entries of a URL delimit its components in the printed text. */
  lemma EntriesSay(u: Address, connect: bool)
    requires GoodParts(u, connect)
    ensures var buf, ps := PrintUrl(u), Entries(u);
      && Says(buf, ps.schema, u.schema) && Says(buf, ps.userinfo, UserOf(u)) && Says(buf, ps.host, HostOf(u))
      && Says(buf, ps.port, PortDigitsOf(u)) && Says(buf, ps.path, u.path)
      && Says(buf, ps.query, if u.query.None? then "" else u.query.value) && Says(buf, ps.fragment, u.fragment)
  {
    EntriesPort(u, connect);
    assert Says(PrintUrl(u), Entries(u).port, PortDigitsOf(u));
    SchemaAndPathSay(u);
    QueryAndFragmentSay(u);
    SaysNothing(PrintUrl(u));
    if u.authority.Some? {
      AuthoritySays(u);
    } else {
      NothingSaid(u);
    }
  }

  lemma NothingSaid(u: Address)
    requires u.authority.None?
    ensures Entries(u).userinfo.None? && Entries(u).host.None? && Entries(u).port.None? && UserOf(u) == HostOf(u) == ""
  {
  }

  lemma PartsHaveNoUser(r: Raw)
    ensures PartsAt(r).userinfo.None? && PartsAt(r).port.None?
  {
  }

  predicate Ahead(a: Option<Span>, b: Option<Span>) { a.Some? && b.Some? ==> a.value.off + a.value.len <= b.value.off }

  predicate Inside(s: Option<Span>, lo: nat, hi: nat) { s.Some? ==> lo <= s.value.off && s.value.off + s.value.len <= hi }

  lemma HostInOrder(a: Authority, b: nat, parts: Parts)
    requires Complete(a) && parts.userinfo.None? && parts.port.None?
    ensures var p := HostParts(a, b, parts); var e := b + |PrintHost(a, EndState(a))|;
      Ahead(p.userinfo, p.host) && Ahead(p.userinfo, p.port) && Ahead(p.host, p.port)
      && Inside(p.userinfo, b, e) && Inside(p.host, b, e) && Inside(p.port, b, e)
  {
    hide HostSound, HostText;
  }

  lemma Intervals(p: Parts, k: nat, l: nat, m: nat, n: nat, o: nat)
    requires Inside(p.schema, 0, k) && Inside(p.userinfo, k, l) && Inside(p.host, k, l) && Inside(p.port, k, l)
    requires Ahead(p.userinfo, p.host) && Ahead(p.userinfo, p.port) && Ahead(p.host, p.port)
    requires Inside(p.path, l, m) && Inside(p.query, m, n) && Inside(p.fragment, n, o) && k <= l <= m <= n <= o
    ensures var s := [p.schema, p.userinfo, p.host, p.port, p.path, p.query, p.fragment];
      forall i, j :: 0 <= i < j < |s| ==> Ahead(s[i], s[j])
  {
  }

  lemma OuterIntervals(r: Raw)
    ensures var p, m := PartsAt(r), PathAt(r) + |r.path|; var n := m + |PrintQuery(r.query)|;
      Inside(p.schema, 0, AuthAt(r)) && Inside(p.path, PathAt(r), m) && Inside(p.query, m, n)
      && Inside(p.fragment, n, n + r.hashes + |r.fragment|)
  {
  }

  /** The entries do not overlap and stand in the order of the components. */
  lemma EntriesInOrder(u: Address, connect: bool)
    requires GoodParts(u, connect)
    ensures var p := Entries(u);
      var s := [p.schema, p.userinfo, p.host, p.port, p.path, p.query, p.fragment];
      forall i, j :: 0 <= i < j < |s| ==> Ahead(s[i], s[j])
  {
    var r := RawOf(u);
    var p, m := Entries(u), PathAt(r) + |r.path|;
    var n := m + |PrintQuery(r.query)|;
    OuterIntervals(r);
    if u.authority.Some? {
      assert Complete(u.authority.value);
      HostInOrder(u.authority.value, AuthAt(r), PartsAt(r));
    } else {
      NothingSaid(u);
    }
    assert Inside(p.userinfo, AuthAt(r), PathAt(r)) && Inside(p.host, AuthAt(r), PathAt(r));
    assert Inside(p.port, AuthAt(r), PathAt(r));
    assert Ahead(p.userinfo, p.host) && Ahead(p.userinfo, p.port) && Ahead(p.host, p.port);
    hide GoodParts, PrintHost, HostAt, PortAt, HostText, Complete, Filled, PrintQuery, Ahead, Inside;
    Intervals(p, AuthAt(r), PathAt(r), m, n, n + r.hashes + |r.fragment|);
  }
}
