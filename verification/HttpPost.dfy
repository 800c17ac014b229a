/** One request, byte for byte. */
module HttpPost {
  import opened Basics
  import opened HttpBase
  import opened HttpMachine
  import opened HttpRun
  import opened HttpChunked
  import opened HttpHeaders
  import opened HttpNumbers
  import opened HttpLines
  import opened HttpStartLines
  import opened HttpTargets
  import opened HttpBodies
  import opened HttpMessages
  import U = UrlSplit

  const FIRST := Asked(POST, "/", Some(Digit2('1', '1')), false)
  const LENGTH := Line("Content-Length", " ", "5", false)
  const POSTED := Heading(Asks(FIRST), [LENGTH], false)

  lemma SlashIsTarget()
    ensures IsTarget("/", false)
  {
    var r, s := U.Raw("", "", "/", None, 0, ""), Url(ReqPath);
    assert U.Shape(r, s, false);
    assert U.Hashes(0) == "";
    assert U.Printed(r, s) == "/";
    assert MayEnd(s);
  }

  lemma FirstIsGood()
    ensures GoodAsked(FIRST)
  {
    SlashIsTarget();
    hide IsTarget;
  }

  lemma NameIsLength()
    ensures Token("Content-Length") && Lowered("Content-Length") == "content-length"
  {
    assert Lowered("Content-Length") == "content-length";
  }

  lemma ValueIsFive()
    ensures LengthText("5") && DecValue("5") == 5
  {
    assert "5"[..0] == "";
  }

  lemma MeansLength()
    ensures Is(LENGTH, "content-length") && !IsConnection(LENGTH) && !Is(LENGTH, "transfer-encoding")
  {
    NameIsLength();
    hide Token, Lowered;
  }

  lemma OneLine(l: Line, f: Flags, n: nat, lenient: bool)
    ensures FlagsOf(f, [l]) == LineFlags(f, l) && LengthOf(n, [l]) == LineLength(n, l)
    ensures GoodLines([l], f, lenient) <==> GoodLine(l, f, lenient)
    ensures PrintLines([l]) == PrintLine(l) && LineEvents([l]) == [Data(FieldData, l.name), Data(ValueData, l.value)]
  {
    hide LineFlags, LineLength, GoodLine, PrintLine;
    assert [l][1..] == [];
  }

  lemma LineIsGood()
    ensures GoodLine(LENGTH, NO_FLAGS, false)
    ensures LineFlags(NO_FLAGS, LENGTH) == NO_FLAGS.(contentLength := true) && LineLength(ULLONG_MAX, LENGTH) == 5
  {
    NameIsLength();
    ValueIsFive();
    MeansLength();
    hide Token, Lowered, Is, IsConnection, LengthText, DecValue;
  }

  const TEXT := "POST / HTTP/1.1" + CRLF + "Content-Length: 5" + CRLF + CRLF

  lemma PostedIs()
    ensures PrintHeading(POSTED) == TEXT && |TEXT| == 38
    ensures GoodHeading(POSTED, false) && HeadLength(POSTED) == 5 && HeadFlags(POSTED) == NO_FLAGS.(contentLength := true)
    ensures HeadingEvents(POSTED) ==
            [BEGIN, Data(UrlData, "/"), Data(FieldData, "Content-Length"), Data(ValueData, "5"), HEADERS]
  {
    FirstIsGood();
    LineIsGood();
    OneLine(LENGTH, NO_FLAGS, ULLONG_MAX, false);
    hide GoodLine, GoodLines, GoodAsked, LineFlags, LineLength, PrintLines, FlagsOf, LengthOf, LineEvents;
    assert PrintLine(LENGTH) == "Content-Length: 5" + CRLF;
    assert PrintAsked(FIRST) == "POST / HTTP/1.1" + CRLF;
  }

  const NEW := Parser(Info(Request, 0, 0, 0, DELETE, false), NO_FLAGS, StartReq, General, 0, false, 0, 0, OK)

  lemma NewWaits()
    ensures Waits(NEW, POSTED.start) && NEW.nread == 0 && !NEW.lenient
    ensures POSTED.start.Asks? && !WantsTunnel(POSTED)
    ensures 38 <= MAX_HEADER_SIZE && 5 < ULLONG_MAX && !NO_FLAGS.(contentLength := true).chunked
  {
  }

  lemma PostedOver(x: Machine)
    requires GoodStart(POSTED.start) && MessageOver(NEW, POSTED, x)
    requires HeadFlags(POSTED) == NO_FLAGS.(contentLength := true)
    ensures x.p.errno == OK && !x.exited && x.p.state == StartReq
    ensures x.p.info.meth == POST && x.p.info.httpMajor == 1 && x.p.info.httpMinor == 1
  {
    hide GoodStart, HeadFlags;
  }

  /** A new parser of requests, given a POST with a body of five bytes, reports the target, the line and the
      body, and waits for the next request. */
  lemma PostIsRead(past: char)
    ensures var x := Call(NEW, [], TEXT + "hello", past);
      && x.p.errno == OK && x.consumed == 43 && !x.exited && x.p.state == StartReq
      && x.p.info.meth == POST && x.p.info.httpMajor == 1 && x.p.info.httpMinor == 1
      && x.d.log == [BEGIN, Data(UrlData, "/"), Data(FieldData, "Content-Length"), Data(ValueData, "5"), HEADERS,
                     Data(BodyData, "hello"), COMPLETE]
  {
    PostedIs();
    NewWaits();
    hide *;
    MessageWithLength(NEW, [], POSTED, "hello", past);
    PostedOver(Call(NEW, [], TEXT + "hello", past));
  }
}
