/** Header names: the nested machine of s_header_field recognises exactly the five names it is
    looking for, in any mixture of cases and in any fragmentation. */
module HttpHeaders {
  import opened Basics
  import opened HttpBase
  import opened HttpMachine
  import opened HttpRun
  import opened HttpSteps
  import opened HttpNumbers

  // ---- names ---------------------------------------------------------------------------------------

  predicate Token(s: string) { s != "" && forall i :: 0 <= i < |s| ==> IsToken(s[i]) }

  function Lowered(s: string): string
    requires forall i :: 0 <= i < |s| ==> IsToken(s[i])
  {
    seq(|s|, i requires 0 <= i < |s| => TokenOf(s[i]))
  }

  /** What header_state must say about a complete lower-case name. */
  predicate Names(name: string, h: HeaderState) {
    && (h == Connection <==> name == CONNECTION || name == PROXY_CONNECTION)
    && (h == ContentLength <==> name == CONTENT_LENGTH)
    && (h == TransferEncoding <==> name == TRANSFER_ENCODING)
    && (h == Upgrade <==> name == UPGRADE)
  }

  /** What the nested machine knows after a non-empty lower-case prefix t of a name. */
  predicate Knows(t: string, h: HeaderState)
    requires t != ""
  {
    match h
    case HC => t == "c"
    case HCO => t == "co"
    case HCON => t == "con"
    case MatchingConnection => 4 <= |t| < |CONNECTION| && t <= CONNECTION
    case MatchingContentLength => 4 <= |t| < |CONTENT_LENGTH| && t <= CONTENT_LENGTH
    case MatchingProxyConnection => |t| < |PROXY_CONNECTION| && t <= PROXY_CONNECTION
    case MatchingTransferEncoding => |t| < |TRANSFER_ENCODING| && t <= TRANSFER_ENCODING
    case MatchingUpgrade => |t| < |UPGRADE| && t <= UPGRADE
    case Connection => t == CONNECTION || t == PROXY_CONNECTION
    case ContentLength => t == CONTENT_LENGTH
    case TransferEncoding => t == TRANSFER_ENCODING
    case Upgrade => t == UPGRADE
    case General =>
      && !(t <= CONNECTION) && !(t <= PROXY_CONNECTION) && !(t <= CONTENT_LENGTH)
      && !(t <= TRANSFER_ENCODING) && !(t <= UPGRADE)
    case _ => false
  }

  predicate Indexed(t: string, h: HeaderState, i: nat) {
    h == General || h == Connection || h == ContentLength || h == TransferEncoding || h == Upgrade || i + 1 == |t|
  }

  lemma PrefixGrows(t: string, c: char, name: string)
    ensures t + [c] <= name <==> t <= name && |t| < |name| && name[|t|] == c
    ensures t + [c] == name <==> t + [c] <= name && |t| + 1 == |name|
  {
    if t + [c] <= name {
      assert (t + [c])[..|t|] == t;
      assert name[|t|] == (t + [c])[|t|];
    }
  }

  /** t starts like at most one of the names (the two with "con" part at the fourth byte). */
  lemma OneName(t: string)
    requires t != ""
    ensures t <= PROXY_CONNECTION ==> t[0] == 'p'
    ensures t <= TRANSFER_ENCODING ==> t[0] == 't'
    ensures t <= UPGRADE ==> t[0] == 'u'
    ensures t <= CONNECTION || t <= CONTENT_LENGTH ==> t[0] == 'c'
    ensures |t| >= 2 && (t <= CONNECTION || t <= CONTENT_LENGTH) ==> t[1] == 'o'
    ensures |t| >= 3 && (t <= CONNECTION || t <= CONTENT_LENGTH) ==> t[2] == 'n'
    ensures |t| >= 4 && t <= CONNECTION ==> t[3] == 'n'
    ensures |t| >= 4 && t <= CONTENT_LENGTH ==> t[3] == 't'
  {
  }

  lemma GrowAll(t: string, c: char)
    ensures var u := t + [c];
      && (u <= CONNECTION <==> t <= CONNECTION && |t| < |CONNECTION| && CONNECTION[|t|] == c)
      && (u <= PROXY_CONNECTION <==> t <= PROXY_CONNECTION && |t| < |PROXY_CONNECTION| && PROXY_CONNECTION[|t|] == c)
      && (u <= CONTENT_LENGTH <==> t <= CONTENT_LENGTH && |t| < |CONTENT_LENGTH| && CONTENT_LENGTH[|t|] == c)
      && (u <= TRANSFER_ENCODING <==> t <= TRANSFER_ENCODING && |t| < |TRANSFER_ENCODING| && TRANSFER_ENCODING[|t|] == c)
      && (u <= UPGRADE <==> t <= UPGRADE && |t| < |UPGRADE| && UPGRADE[|t|] == c)
  {
    PrefixGrows(t, c, CONNECTION);
    PrefixGrows(t, c, PROXY_CONNECTION);
    PrefixGrows(t, c, CONTENT_LENGTH);
    PrefixGrows(t, c, TRANSFER_ENCODING);
    PrefixGrows(t, c, UPGRADE);
  }

  /** A step inside one of the five names. */
  lemma MatchStep(t: string, c: char, name: string, keep: HeaderState, done: HeaderState)
    requires t <= name && |t| < |name| && t != ""
    ensures var h := MatchName(name, |t|, c, keep, done, General);
      if t + [c] == name then h == done
      else if t + [c] <= name then h == keep && |t| + 1 < |name|
      else h == General
  {
    PrefixGrows(t, c, name);
  }

  lemma StartStep(t: string, h: HeaderState, i: nat, c: char)
    requires t != "" && Knows(t, h) && i + 1 == |t| && (h == HC || h == HCO || h == HCON)
    ensures var (h', i') := FieldChar(h, i, c).value; Knows(t + [c], h') && i' + 1 == |t| + 1
  {
    GrowAll(t, c);
    OneName(t);
    OneName(t + [c]);
  }

  lemma ConStep(t: string, h: HeaderState, i: nat, c: char)
    requires t != "" && Knows(t, h) && i + 1 == |t| && (h == MatchingConnection || h == MatchingContentLength)
    ensures var (h', i') := FieldChar(h, i, c).value; Knows(t + [c], h') && i' == |t|
  {
    GrowAll(t, c);
    OneName(t);
    if h == MatchingConnection {
      MatchStep(t, c, CONNECTION, h, Connection);
    } else {
      MatchStep(t, c, CONTENT_LENGTH, h, ContentLength);
    }
  }

  /** Matching goes on along a name whose first byte no other name has. */
  lemma OtherStep(t: string, h: HeaderState, i: nat, c: char)
    requires t != "" && Knows(t, h) && i + 1 == |t|
    requires h == MatchingProxyConnection || h == MatchingTransferEncoding || h == MatchingUpgrade
    ensures var (h', i') := FieldChar(h, i, c).value; Knows(t + [c], h') && i' == |t|
  {
    hide Knows, FieldChar;
    match h
    case MatchingProxyConnection => ProxyStep(t, i, c);
    case MatchingTransferEncoding => EncodingStep(t, i, c);
    case MatchingUpgrade => UpgradeStep(t, i, c);
  }

  lemma ProxyStep(t: string, i: nat, c: char)
    requires t != "" && Knows(t, MatchingProxyConnection) && i + 1 == |t|
    ensures var (h', i') := FieldChar(MatchingProxyConnection, i, c).value; Knows(t + [c], h') && i' == |t|
  {
    GrowAll(t, c);
    OneName(t);
    MatchStep(t, c, PROXY_CONNECTION, MatchingProxyConnection, Connection);
  }

  lemma EncodingStep(t: string, i: nat, c: char)
    requires t != "" && Knows(t, MatchingTransferEncoding) && i + 1 == |t|
    ensures var (h', i') := FieldChar(MatchingTransferEncoding, i, c).value; Knows(t + [c], h') && i' == |t|
  {
    GrowAll(t, c);
    OneName(t);
    MatchStep(t, c, TRANSFER_ENCODING, MatchingTransferEncoding, TransferEncoding);
  }

  lemma UpgradeStep(t: string, i: nat, c: char)
    requires t != "" && Knows(t, MatchingUpgrade) && i + 1 == |t|
    ensures var (h', i') := FieldChar(MatchingUpgrade, i, c).value; Knows(t + [c], h') && i' == |t|
  {
    GrowAll(t, c);
    OneName(t);
    MatchStep(t, c, UPGRADE, MatchingUpgrade, Upgrade);
  }

  lemma DoneStep(t: string, h: HeaderState, i: nat, c: char)
    requires t != "" && Knows(t, h) && c != ' '
    requires h == Connection || h == ContentLength || h == TransferEncoding || h == Upgrade || h == General
    ensures FieldChar(h, i, c) == Some((General, i)) && Knows(t + [c], General)
  {
    GrowAll(t, c);
    OneName(t);
  }

  /** One more byte of a name. */
  lemma NameStep(t: string, h: HeaderState, i: nat, c: char)
    requires t != "" && Knows(t, h) && Indexed(t, h, i) && c != ' '
    ensures FieldPhase(h) && FieldChar(h, i, c).Some?
    ensures var (h', i') := FieldChar(h, i, c).value; Knows(t + [c], h') && Indexed(t + [c], h', i')
  {
    hide Knows;
    assert FieldPhase(h) by { KnowsPhase(t, h); }
    if h == HC || h == HCO || h == HCON {
      StartStep(t, h, i, c);
    } else if h == Connection || h == ContentLength || h == TransferEncoding || h == Upgrade || h == General {
      DoneStep(t, h, i, c);
    } else if h == MatchingConnection || h == MatchingContentLength {
      ConStep(t, h, i, c);
    } else {
      OtherStep(t, h, i, c);
    }
  }

  lemma KnowsPhase(t: string, h: HeaderState)
    requires t != "" && Knows(t, h)
    ensures FieldPhase(h)
  {
  }

  lemma FirstByte(c: char)
    requires c != ' '
    ensures Knows([c], FirstOfField(c)) && Indexed([c], FirstOfField(c), 0)
  {
    OneName([c]);
  }

  /** At the end of the name the machine knows the answer. */
  lemma KnowsNames(t: string, h: HeaderState)
    requires t != "" && Knows(t, h)
    ensures Names(t, h)
  {
    OneName(t);
  }

  // ---- the machine reading a name ---------------------------------------------------------------------

  /** A machine at the start of a header line. */
  predicate AtLine(m: Machine) {
    Running(m) && m.loop.Outside? && m.p.state == Head(HeaderFieldStart)
  }

  function NameRead(m: Machine, s: string, h: HeaderState, i: nat): Machine {
    Machine(m.p.(nread := m.p.nread + |s|, index := i, headerState := h, state := Head(HeaderField)),
            if |s| == 1 then Outside else Inside, Delivery(m.d.log, map[FieldData := s]), m.consumed + |s|, false)
  }

  lemma NameStartStep(m: Machine, c: char, next: char)
    requires AtLine(m) && m.p.nread < MAX_HEADER_SIZE && IsToken(c)
    ensures Step(m, c, next) == NameRead(m, [c], FirstOfField(TokenOf(c)), 0) && Running(Step(m, c, next))
  {
    hide ResByte, VersionByte, ChunkByte, AtUrl, AtReqMethod, AtStartReq, HeldFits, TokenOf, FirstOfField, AtHeadersAlmostDone;
    StepKeepsGood(m, c, next);
    NoNotes(m.d.log);
    NothingHeld(m);
    NotBreak(c);
    assert "" + [c] == [c];
  }

  lemma NotBreak(c: char)
    requires IsToken(c)
    ensures c != CR && c != LF && c != ' ' && TokenOf(c) != ' '
  {
  }

  ghost predicate NameSeen(m: Machine, x: Machine, s: string, t: string) {
    && s != "" && t != "" && Running(x)
    && x == NameRead(m, s, x.p.headerState, x.p.index)
    && Knows(t, x.p.headerState) && Indexed(t, x.p.headerState, x.p.index)
  }

  lemma NextNameByte(m: Machine, x: Machine, s: string, t: string, c: char, next: char)
    requires NameSeen(m, x, s, t) && IsToken(c) && m.p.nread + |s| + 1 <= MAX_HEADER_SIZE
    ensures NameSeen(m, Step(x, c, next), s + [c], t + [TokenOf(c)])
  {
    hide Step, Inv, HeldFits, Live, EntryMark, Extend, FieldChar, IsToken, TokenOf, Knows, Indexed;
    NotBreak(c);
    NameStep(t, x.p.headerState, x.p.index, TokenOf(c));
    TokenStep(x, c, next);
    ExtendOne(m.d.log, FieldData, s, c);
  }

  lemma TokenAt(s: string, i: nat)
    requires Token(s) && i < |s|
    ensures IsToken(s[i]) && Lowered(s)[i] == TokenOf(s[i])
  {
    hide IsToken, TokenOf;
  }

  lemma {:induction false} NameFeed(m: Machine, s: string, n: nat, past: char)
    requires AtLine(m) && Token(s) && 0 < n <= |s| && m.p.nread + |s| <= MAX_HEADER_SIZE
    ensures NameSeen(m, Feed(m, s, n, past), s[..n], Lowered(s)[..n])
  {
    hide Step, IsToken, TokenOf, NameSeen, Inv, HeldFits;
    TokenAt(s, n - 1);
    var c := s[n - 1];
    if n == 1 {
      assert s[..1] == [c] && Lowered(s)[..1] == [TokenOf(c)];
      OneByteSeen(m, c, After(s, 0, past));
    } else {
      NameFeed(m, s, n - 1, past);
      assert s[..n] == s[..n - 1] + [c] && Lowered(s)[..n] == Lowered(s)[..n - 1] + [TokenOf(c)];
      NextNameByte(m, Feed(m, s, n - 1, past), s[..n - 1], Lowered(s)[..n - 1], c, After(s, n - 1, past));
    }
  }

  lemma OneByteSeen(m: Machine, c: char, next: char)
    requires AtLine(m) && m.p.nread < MAX_HEADER_SIZE && IsToken(c)
    ensures NameSeen(m, Step(m, c, next), [c], [TokenOf(c)])
  {
    hide Step, Inv, HeldFits, IsToken, TokenOf, Knows, Indexed, FirstOfField;
    NotBreak(c);
    FirstByte(TokenOf(c));
    NameStartStep(m, c, next);
  }

  /** The machine behind the ':' of a header line. */
  function NameDone(m: Machine, s: string, h: HeaderState, i: nat): Machine {
    Machine(m.p.(nread := m.p.nread + |s| + 1, index := i, headerState := h, state := Head(HeaderValueDiscardWs)),
            Outside, Delivery(Emit(m.d.log, Data(FieldData, s)), map[]), m.consumed + |s| + 1, false)
  }

  lemma ColonIsNoToken()
    ensures !IsToken(':')
  {
  }

  lemma ColonStep(m: Machine, x: Machine, s: string, t: string, next: char)
    requires NameSeen(m, x, s, t) && m.p.nread + |s| + 1 <= MAX_HEADER_SIZE
    ensures Step(x, ':', next) == NameDone(m, s, x.p.headerState, x.p.index) && Running(Step(x, ':', next))
    ensures Names(t, x.p.headerState) && FieldPhase(x.p.headerState)
  {
    KnowsPhase(t, x.p.headerState);
    hide FieldPhase, Step, Good, Extend, IsToken, Knows, Indexed, Names, Emit;
    KnowsNames(t, x.p.headerState);
    ColonIsNoToken();
    FieldEndStep(x, ':', next);
    var d := CloseSlice(x.d, Flush(FieldData), ':');
    assert x.d.held - {FieldData} == map[];
    ExtendNothing(d, ':');
  }

  /** Reading a name and its ':' reports the name as it was spelled and leaves in header_state
      which of the five names it is, whatever the case of its letters. */
  lemma NameIsRecognised(m: Machine, s: string, past: char)
    requires AtLine(m) && Token(s) && m.p.nread + |s| + 1 <= MAX_HEADER_SIZE
    ensures var x := Feed(m, s + ":", |s| + 1, past);
      && Names(Lowered(s), x.p.headerState) && FieldPhase(x.p.headerState)
      && x == NameDone(m, s, x.p.headerState, x.p.index) && Running(x)
  {
    hide FieldPhase, Step, NameSeen, Names, AtLine, Running, IsToken, TokenOf;
    var w := s + ":";
    NameFeed(m, s, |s|, ':');
    assert s[..|s|] == s && Lowered(s)[..|s|] == Lowered(s);
    FeedFront(m, s, ":", |s|, past);
    assert w[|s|] == ':';
    assert Feed(m, w, |s| + 1, past) == Step(Feed(m, s, |s|, ':'), ':', past);
    ColonStep(m, Feed(m, s, |s|, ':'), s, Lowered(s), past);
  }
}
