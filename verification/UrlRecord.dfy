/** struct http_parser_url and the two loops that fill it in place. The 16-bit fields truncate;
    for the lengths that http_parser_parse_url is made for nothing is lost. */
module UrlRecord {
  import opened Basics
  import opened HttpBase
  import opened HttpMachine
  import opened UrlSplit
  import opened UrlHost
  import opened UrlParse

  /** Assignment to a uint16_t. */
  function U16(n: nat): nat { n % 65536 }

  function Index(f: Field): (i: nat)
    ensures i < 7
  {
    match f
    case UfSchema => 0 case UfHost => 1 case UfPort => 2 case UfPath => 3
    case UfQuery => 4 case UfFragment => 5 case UfUserinfo => 6
  }

  /** Every entry ends at or before position n. */
  predicate Within(ps: Parts, n: nat) {
    forall f: Field :: Get(ps, f).Some? ==> Get(ps, f).value.off + Get(ps, f).value.len <= n
  }

  lemma PutWithin(ps: Parts, f: Field, s: Span, n: nat)
    requires Within(ps, n) && s.off + s.len <= n + 1
    ensures Within(Put(ps, f, s), n + 1)
  {
    forall g: Field | Get(Put(ps, f, s), g).Some?
      ensures Get(Put(ps, f, s), g).value.off + Get(Put(ps, f, s), g).value.len <= n + 1
    {
      assert g != f ==> Get(Put(ps, f, s), g) == Get(ps, g);
    }
  }

  class HttpParserUrl {
    var fieldSet: set<Field>
    var port: nat
    const fieldData: array<Span>

    ghost predicate Valid() {
      fieldData.Length == 7
    }

    /** http_parser_url_init. */
    constructor ()
      ensures Valid() && fresh(fieldData) && fieldSet == {} && port == 0
    {
      fieldSet, port := {}, 0;
      fieldData := new Span[7](_ => Span(0, 0));
    }

    function Entry(f: Field): Option<Span>
      requires Valid()
      reads this`fieldSet, fieldData
    {
      if f in fieldSet then Some(fieldData[Index(f)]) else None
    }

    /** What a caller may read: the entries whose bit is set. */
    function Visible(): Parts
      requires Valid()
      reads this`fieldSet, fieldData
    {
      Parts(Entry(UfSchema), Entry(UfHost), Entry(UfPort), Entry(UfPath), Entry(UfQuery), Entry(UfFragment), Entry(UfUserinfo))
    }

    lemma EntryIsPart(f: Field)
      requires Valid()
      ensures Get(Visible(), f) == Entry(f)
    {
    }

    /** One byte more in a field: it starts at i or gets longer. */
    method Count(f: Field, starts: bool, i: nat)
      requires Valid() && i < 65535
      requires !starts ==> Get(Visible(), f).Some? && Get(Visible(), f).value.len < 65535
      modifies this`fieldSet, fieldData
      ensures Visible() == Put(old(Visible()), f, Grown(old(Get(Visible(), f)), starts, i))
      ensures old(fieldSet) <= fieldSet
    {
      EntryIsPart(f);
      var k := Index(f);
      if starts {
        fieldData[k] := Span(U16(i), 1);
        fieldSet := fieldSet + {f};
      } else {
        fieldData[k] := fieldData[k].(len := U16(fieldData[k].len + 1));
      }
    }

    /** The walk of http_parser_parse_url over the bytes. */
    method ScanBytes(buf: string, connect: bool) returns (dead: bool, foundAt: bool)
      requires Valid() && |buf| <= 65535 && fieldSet == {}
      modifies this`fieldSet, fieldData
      ensures var x := Walk(buf, connect, |buf|);
        if dead then x.s == Dead
        else x.s != Dead && Visible() == x.parts && foundAt == x.foundAt && Within(Visible(), |buf|)
    {
      var s := Begin(connect);
      var last: Option<Field> := None;
      var p := 0;
      foundAt := false;
      hide Visible, UrlChar, Put, Get, Within, Walk;
      assert Visible() == NO_PARTS && Within(Visible(), 0) by { Cleared(); }
      WalkBegins(buf, connect);
      while p < |buf|
        invariant p <= |buf| && Within(Visible(), p) && (last.Some? ==> Get(Visible(), last.value).Some?)
        invariant s != Dead && Scan(s, last, foundAt, Visible()) == Walk(buf, connect, p)
      {
        ghost var before := Visible();
        WalkSteps(buf, connect, p);
        var t := UrlChar(s, buf[p]);
        if t == Dead {
          WalkStays(buf, connect, p + 1, |buf|);
          return true, foundAt;
        }
        var uf := FieldOf(t.url);
        if uf.Some? {
          PartWithin(before, uf.value, p);
          if t.url.ReqServerWithAt? { foundAt := true; }
          Count(uf.value, last != uf, p);
          GrownWithin(before, uf.value, last != uf, p);
          last := uf;
        } else {
          WithinMore(before, p);
        }
        s := t;
        p := p + 1;
      }
      dead := false;
    }

    /** One byte more in the host, whose length counts from where the scan began. */
    method CountHost(starts: bool, i: nat)
      requires Valid() && UfHost in fieldSet && i < 65535 && fieldData[Index(UfHost)].len < 65535
      modifies fieldData
      ensures Visible() == old(Visible()).(host := Some(LongerHost(old(Visible().host), starts, i)))
    {
      var k := Index(UfHost);
      if starts { fieldData[k] := fieldData[k].(off := U16(i)); }
      fieldData[k] := fieldData[k].(len := U16(fieldData[k].len + 1));
    }

    /** The switch of http_parse_host on the new state t. */
    method NoteByte(s: HostState, t: HostState, p: nat)
      requires Valid() && p < 65535 && UfHost in fieldSet && Counted(Visible(), s, p)
      modifies this`fieldSet, fieldData
      ensures Visible() == HostFields(old(Visible()), s, t, p) && UfHost in fieldSet
    {
      HostPart();
      assert s == PortDigits ==> Get(Visible(), UfPort) == Visible().port;
      assert s == Userinfo ==> Get(Visible(), UfUserinfo) == Visible().userinfo;
      hide Visible, LongerHost, Grown;
      match t
      case HostName => CountHost(s != HostName, p);
      case V6 => CountHost(s != V6, p);
      case ZoneStart => CountHost(false, p);
      case Zone => CountHost(false, p);
      case PortDigits => Count(UfPort, s != PortDigits, p);
      case Userinfo => Count(UfUserinfo, s != Userinfo, p);
      case _ =>
    }

    /** The loop of http_parse_host over the n bytes from off on; HostDead if a byte is refused. */
    method ScanHost(buf: string, foundAt: bool, off: nat, n: nat, ghost first: Parts) returns (s: HostState)
      requires Valid() && off + n <= |buf| <= 65535 && UfHost in fieldSet && first.host == Some(Span(off, n))
      requires UpTo(buf, foundAt, first, 0, HostBegin(foundAt), Visible())
      modifies this`fieldSet, fieldData
      ensures s == HostDead ==> HostWalk(buf, off, foundAt, first, n).s == HostDead
      ensures s != HostDead ==> UpTo(buf, foundAt, first, n, s, Visible())
    {
      hide UpTo, Visible, HostChar, HostFields, HostWalk, Counted, Within, HostBegin;
      var i := 0;
      s := HostBegin(foundAt);
      assert s != HostDead by { NoDeadBegin(foundAt); }
      while i < n
        invariant i <= n && UfHost in fieldSet && s != HostDead && UpTo(buf, foundAt, first, i, s, Visible())
      {
        ScanOn(buf, foundAt, first, i, s, Visible());
        var t := HostChar(s, buf[off + i]);
        if t == HostDead { return HostDead; }
        NoteByte(s, t, off + i);
        s := t;
        i := i + 1;
      }
    }

    /** http_parse_host. */
    method ParseHost(buf: string, foundAt: bool) returns (failed: bool)
      requires Valid() && |buf| <= 65535 && UfHost in fieldSet && Within(Visible(), |buf|)
      requires Visible().userinfo.None? && Visible().port.None?
      modifies this`fieldSet, fieldData
      ensures Parsed(buf, foundAt, old(Visible()), failed, Visible())
    {
      var k := Index(UfHost);
      var off, n := fieldData[k].off, fieldData[k].len;
      HostFitsIn(Visible(), |buf|);
      ghost var first := Visible();
      fieldData[k] := fieldData[k].(len := 0);
      assert Visible() == first.(host := Some(Span(off, 0)));
      assert UpTo(buf, foundAt, first, 0, HostBegin(foundAt), Visible());
      hide Visible, UpTo, HostWalk, Within;
      var s := ScanHost(buf, foundAt, off, n, first);
      failed := !MayEnd(s);
      ParsedIs(buf, foundAt, first, s, failed, Visible());
    }

    lemma HostPart()
      requires Valid()
      ensures UfHost in fieldSet ==> Visible().host == Some(fieldData[Index(UfHost)])
    {
    }

    /** The port as a number; nonzero if it does not fit. */
    method ParsePort(buf: string, off: nat, n: nat) returns (v: nat, failed: bool)
      requires off + n <= |buf| && Digits(buf[off..off + n])
      ensures failed <==> Value(buf[off..off + n]) > 65535
      ensures !failed ==> v == Value(buf[off..off + n])
    {
      var s := buf[off..off + n];
      v := 0;
      var p := 0;
      while p < n
        invariant p <= n && Digits(s[..p]) && v == Value(s[..p]) <= 65535
      {
        ValueStep(s, p);
        v := v * 10;
        v := v + Digit(buf[off + p]);
        p := p + 1;
        if v > 65535 {
          ValueGrows(s, p);
          return v, true;
        }
      }
      assert s[..n] == s;
      failed := false;
    }

    /** The two stages that set the entries. */
    method Divide(buf: string, connect: bool) returns (failed: bool)
      requires Valid() && |buf| <= 65535 && fieldSet == {}
      modifies this`fieldSet, fieldData
      ensures failed <==> Stages(buf, connect).None?
      ensures !failed ==> Stages(buf, connect) == Some(Visible())
    {
      var dead, foundAt := ScanBytes(buf, connect);
      if dead { return true; }
      FirstStage(buf, connect);
      assert UfSchema in fieldSet <==> Visible().schema.Some?;
      assert UfHost in fieldSet <==> Visible().host.Some?;
      hide Visible, Walk, HostWalk, Within, MayEnd;
      if UfSchema in fieldSet && UfHost !in fieldSet { return true; }
      failed := false;
      if UfHost in fieldSet {
        failed := ParseHost(buf, foundAt);
      }
    }

    lemma PortPart()
      requires Valid()
      ensures Visible().port == if UfPort in fieldSet then Some(fieldData[Index(UfPort)]) else None
      ensures OnlyHostAndPort(Visible()) <==> fieldSet == {UfHost, UfPort}
    {
      if OnlyHostAndPort(Visible()) {
        forall f: Field ensures f in fieldSet <==> f == UfHost || f == UfPort { EntryIsPart(f); }
      }
    }

    /** http_parser_parse_url; true stands for a nonzero return. */
    method Parse(buf: string, connect: bool) returns (failed: bool)
      requires Valid() && |buf| <= 65535
      modifies this, fieldData
      ensures failed <==> ParseUrl(buf, connect).None?
      ensures !failed ==> ParseUrl(buf, connect) == Some((Visible(), port))
    {
      hide Visible, Stages, OnlyHostAndPort, Value;
      port, fieldSet := 0, {};
      failed := Divide(buf, connect);
      if failed { return; }
      StagesPort(buf, connect);
      PortPart();
      if connect && fieldSet != {UfHost, UfPort} { return true; }
      var v := 0;
      if UfPort in fieldSet {
        v, failed := ParsePort(buf, fieldData[Index(UfPort)].off, fieldData[Index(UfPort)].len);
        if failed { return; }
      } else {
        NoPort();
      }
      port := U16(v);
    }

    lemma Cleared()
      requires Valid() && fieldSet == {}
      ensures Visible() == NO_PARTS && Within(NO_PARTS, 0)
    {
    }
  }

  /** The outcome of http_parse_host on the entries `first`, whose host is the authority. */
  predicate Parsed(buf: string, at: bool, first: Parts, failed: bool, ps: Parts) {
    first.host.Some? && first.host.value.off + first.host.value.len <= |buf| &&
    var y := HostWalk(buf, first.host.value.off, at, first, first.host.value.len);
    (failed <==> !MayEnd(y.s)) && (!failed ==> ps == y.parts)
  }

  /** The scan of the authority after n bytes. */
  predicate UpTo(buf: string, at: bool, first: Parts, n: nat, s: HostState, ps: Parts) {
    first.host.Some? &&
    var b := first.host.value.off;
    b + n <= |buf| && Counted(ps, s, b + n) && HostScan(s, ps) == HostWalk(buf, b, at, first, n)
  }

  lemma NoDeadBegin(at: bool)
    ensures HostBegin(at) != HostDead
  {
  }

  lemma ParsedIs(buf: string, at: bool, first: Parts, s: HostState, failed: bool, ps: Parts)
    requires first.host.Some? && first.host.value.off + first.host.value.len <= |buf| && (failed <==> !MayEnd(s))
    requires s != HostDead ==> UpTo(buf, at, first, first.host.value.len, s, ps)
    requires s == HostDead ==> HostWalk(buf, first.host.value.off, at, first, first.host.value.len).s == HostDead
    ensures Parsed(buf, at, first, failed, ps)
  {
  }

  lemma ScanOn(buf: string, at: bool, first: Parts, i: nat, s: HostState, ps: Parts)
    requires UpTo(buf, at, first, i, s, ps) && first.host.value.off + first.host.value.len <= |buf|
    requires i < first.host.value.len
    ensures var p := first.host.value.off + i; var t := HostChar(s, buf[p]);
      && Counted(ps, s, p)
      && (t == HostDead ==> HostWalk(buf, first.host.value.off, at, first, first.host.value.len).s == HostDead)
      && (t != HostDead ==> UpTo(buf, at, first, i + 1, t, HostFields(ps, s, t, p)))
  {
    hide HostChar, HostWalk, HostFields, Counted;
    var b, n := first.host.value.off, first.host.value.len;
    var t := HostChar(s, buf[b + i]);
    HostWalkSteps(buf, b, at, first, i);
    if t == HostDead {
      HostStaysDead(buf, b, at, first, i + 1, n);
    } else {
      CountedByte(ps, s, t, buf[b + i], b + i);
    }
  }

  /** What the scan of an authority keeps: lengths fit 16 bits and the host has not begun before
      its first byte. */
  predicate Counted(ps: Parts, s: HostState, p: nat) {
    && ps.host.Some? && ps.host.value.off + ps.host.value.len <= p
    && (s == UserinfoStart || s == Userinfo || s == HostStart || s == V6Start ==> ps.host.value.len == 0)
    && (ps.port.Some? ==> ps.port.value.len <= p) && (ps.userinfo.Some? ==> ps.userinfo.value.len <= p)
    && (s == PortDigits ==> ps.port.Some?) && (s == Userinfo ==> ps.userinfo.Some?)
  }

  lemma CountedByte(ps: Parts, s: HostState, t: HostState, c: char, p: nat)
    requires Counted(ps, s, p) && HostChar(s, c) == t != HostDead
    ensures Counted(HostFields(ps, s, t, p), t, p + 1)
  {
    hide IsUserinfoChar, IsHostChar, IsV6Char, IsZoneChar, IsNum;
  }

  lemma HostFitsIn(ps: Parts, n: nat)
    requires Within(ps, n) && ps.host.Some?
    ensures ps.host.value.off + ps.host.value.len <= n
  {
    assert Get(ps, UfHost).Some?;
  }

  lemma HostWalkSteps(buf: string, b: nat, at: bool, parts: Parts, n: nat)
    requires b + n < |buf|
    ensures var x := HostWalk(buf, b, at, parts, n); var t := HostChar(x.s, buf[b + n]);
      HostWalk(buf, b, at, parts, n + 1) == HostScan(t, HostFields(x.parts, x.s, t, b + n))
  {
    hide HostChar, HostFields;
  }

  lemma HostStaysDead(buf: string, b: nat, at: bool, parts: Parts, i: nat, n: nat)
    requires i <= n && b + n <= |buf| && HostWalk(buf, b, at, parts, i).s == HostDead
    ensures HostWalk(buf, b, at, parts, n).s == HostDead && !MayEnd(HostDead)
  {
    hide HostByte;
    if i < n {
      HostStaysDead(buf, b, at, parts, i, n - 1);
      HostStops(HostWalk(buf, b, at, parts, n - 1), buf[b + n - 1], b + n - 1);
    }
  }

  lemma WalkBegins(buf: string, connect: bool)
    ensures Walk(buf, connect, 0) == Scan(Begin(connect), None, false, NO_PARTS)
  {
  }

  lemma WalkSteps(buf: string, connect: bool, p: nat)
    requires p < |buf|
    ensures var x := Walk(buf, connect, p); var y := Walk(buf, connect, p + 1); var t := UrlChar(x.s, buf[p]);
      (t.Dead? || t.Url?) && y.s == t && (t == Dead ==> y == x.(s := Dead))
    ensures var x := Walk(buf, connect, p); var y := Walk(buf, connect, p + 1); var t := UrlChar(x.s, buf[p]);
      t != Dead ==>
        y == if FieldOf(t.url).None? then x.(s := t)
             else var f := FieldOf(t.url).value;
               Scan(t, Some(f), x.foundAt || t.url.ReqServerWithAt?,
                    Put(x.parts, f, Grown(Get(x.parts, f), x.last != Some(f), p)))
  {
    hide UrlNext, IsAlpha;
  }

  lemma PartWithin(ps: Parts, f: Field, n: nat)
    requires Within(ps, n)
    ensures Get(ps, f).Some? ==> Get(ps, f).value.len <= n
  {
  }

  lemma WithinMore(ps: Parts, n: nat)
    requires Within(ps, n)
    ensures Within(ps, n + 1)
  {
  }

  lemma GrownWithin(ps: Parts, f: Field, starts: bool, n: nat)
    requires Within(ps, n)
    ensures Within(Put(ps, f, Grown(Get(ps, f), starts, n)), n + 1) && Get(Put(ps, f, Grown(Get(ps, f), starts, n)), f).Some?
  {
    PutWithin(ps, f, Grown(Get(ps, f), starts, n), n);
  }

  lemma WalkStays(buf: string, connect: bool, i: nat, n: nat)
    requires i <= n <= |buf| && Walk(buf, connect, i).s == Dead
    ensures Walk(buf, connect, n).s == Dead
  {
    hide UrlChar;
    if i < n {
      WalkStays(buf, connect, i, n - 1);
      WalkStops(buf, connect, n);
    }
  }

  lemma ValueStep(s: string, p: nat)
    requires Digits(s) && p < |s|
    ensures Digits(s[..p]) && Digits(s[..p + 1]) && IsNum(s[p])
    ensures Value(s[..p + 1]) == Value(s[..p]) * 10 + Digit(s[p])
  {
    var t := s[..p + 1];
    assert t[..p] == s[..p] && t[p] == s[p];
  }

  lemma ValueGrows(s: string, p: nat)
    requires Digits(s) && p <= |s|
    ensures Digits(s[..p]) && Value(s[..p]) <= Value(s)
    decreases |s| - p
  {
    if p < |s| {
      ValueStep(s, p);
      ValueGrows(s, p + 1);
    } else {
      assert s[..p] == s;
    }
  }

  /** The first stage sets neither a port nor a userinfo. */
  lemma FirstStage(buf: string, connect: bool)
    requires Walk(buf, connect, |buf|).s != Dead
    ensures var ps := Walk(buf, connect, |buf|).parts; ps.port.None? && ps.userinfo.None?
  {
    WalkReads(buf, connect, |buf|);
  }

  lemma NoPort()
    ensures Digits("") && Value("") == 0
  {
  }
}
