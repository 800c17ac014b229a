/** What stripping takes out of a text and what it leaves: a text made of plain text, tags, comments and
    code loses exactly the tags that the list does not let through, the comments and the code. */
module StripPieces {
  import opened Basics
  import opened StripSpec
  import opened StripProps

  /** In text, with nothing open. */
  predicate AtRest(s: Strip) { s.state.Text? && s.depth == 0 && s.inQ == NUL && s.tag == "" }

  // ---- the text behind a place of rest --------------------------------------------------------------------

  /** s has read what u has, behind a text that has left `pre`. What counts only in code may differ elsewhere. */
  predicate Like(s: Strip, u: Strip, pre: string) {
    && s.state == u.state && s.depth == u.depth && s.inQ == u.inQ && s.tag == u.tag && s.out == pre + u.out
    && (!s.state.Text? ==> s.lc == u.lc) && (s.state.Php? ==> s.br == u.br)
  }

  /** What has been read once a declaration, a comment or code has begun. */
  predicate Known(u: Strip, b: string, n: nat)
    requires n <= |b|
  {
    && (n == 0 ==> u.state.Text?) && (n == 1 ==> u.state.Text? || u.state.Html?)
    && (u.state.Bang? ==> '!' in b[..n]) && (u.state.Php? ==> '?' in b[..n])
  }

  lemma KnownStep(u: Strip, b: string, n: nat, before: char, o: Options)
    requires n < |b| && Known(u, b, n)
    ensures Known(Step(u, b, n, before, o), b, n + 1)
  {
    hide AfterDoctyp, AfterXm, TagFind, IsSpace;
    assert b[..n + 1] == b[..n] + [b[n]];
  }

  /** The bytes in front of byte n of b, alone and behind a. */
  lemma LooksBack(a: string, b: string, n: nat, u: Strip)
    requires n < |b| && Known(u, b, n)
    ensures (a + b)[|a| + n] == b[n] && Next(a + b, |a| + n) == Next(b, n)
    ensures n > 0 ==> (a + b)[|a| + n - 1] == b[n - 1]
    ensures n > 1 ==> Prev2(a + b, |a| + n) == Prev2(b, n)
    ensures u.state.Bang? ==> (AfterDoctyp(a + b, |a| + n) <==> AfterDoctyp(b, n))
    ensures u.state.Php? ==> (AfterXm(a + b, |a| + n) <==> AfterXm(b, n))
  {
    var w := a + b;
    assert forall k :: 0 <= k < |b| ==> w[|a| + k] == b[k];
    if u.state.Bang? && n <= 6 { NotDoctyp(a, b, n); }
    if u.state.Php? && n <= 2 { NotXm(a, b, n); }
  }

  lemma NotDoctyp(a: string, b: string, n: nat)
    requires n <= 6 && n <= |b| && '!' in b[..n]
    ensures !AfterDoctyp(a + b, |a| + n) && !AfterDoctyp(b, n)
  {
    var k :| 0 <= k < n && b[k] == '!';
    assert (a + b)[|a| + k] == '!';
  }

  lemma NotXm(a: string, b: string, n: nat)
    requires n <= 2 && n <= |b| && '?' in b[..n]
    ensures !AfterXm(a + b, |a| + n) && !AfterXm(b, n)
  {
    var k :| 0 <= k < n && b[k] == '?';
    assert (a + b)[|a| + k] == '?';
  }

  lemma LikeStep(s: Strip, u: Strip, pre: string, a: string, b: string, n: nat, before: char, before': char, o: Options)
    requires n < |b| && Like(s, u, pre) && Known(u, b, n)
    ensures Like(Step(s, a + b, |a| + n, before, o), Step(u, b, n, before', o), pre)
  {
    LooksBack(a, b, n, u);
    hide AfterDoctyp, AfterXm, TagFind, IsSpace, Known;
    KnownStates(u, b, n);
    LikeByte(s, u, pre, a + b, |a| + n, b, n, before, before', o);
  }

  lemma KnownStates(u: Strip, b: string, n: nat)
    requires n <= |b| && Known(u, b, n)
    ensures (n == 0 ==> u.state.Text?) && (n == 1 ==> u.state.Text? || u.state.Html?)
  {
  }

  lemma LikeByte(s: Strip, u: Strip, pre: string, w: string, i: nat, b: string, n: nat, before: char, before': char,
                 o: Options)
    requires i < |w| && n < |b| && Like(s, u, pre) && w[i] == b[n] && Next(w, i) == Next(b, n)
    requires (n == 0 ==> u.state.Text?) && (n == 1 ==> u.state.Text? || u.state.Html?)
    requires n > 0 ==> i > 0 && Prev(w, i, before) == Prev(b, n, before')
    requires n > 1 ==> Prev2(w, i) == Prev2(b, n)
    requires u.state.Bang? ==> (AfterDoctyp(w, i) <==> AfterDoctyp(b, n))
    requires u.state.Php? ==> (AfterXm(w, i) <==> AfterXm(b, n))
    ensures Like(Step(s, w, i, before, o), Step(u, b, n, before', o), pre)
  {
    hide Like, RegChar, OnLess, OnParen, OnGreater, OnQuote, OnBang, OnDash, OnLetter, AfterDoctyp, AfterXm, IsSpace;
    var prev, prev' := Prev(w, i, before), Prev(b, n, before');
    LikePlain(s, u, pre, b[n], Next(b, n), o);
    LikeGreater(s, u, pre, prev, prev', Prev2(w, i), Prev2(b, n), n, o);
    LikeQuote(s, u, pre, b[n], i == 0, prev, n == 0, prev', o);
    LikeMarks(s, u, pre, prev, prev', Prev2(w, i), Prev2(b, n), n, o);
    LikeLetter(s, u, pre, w, i, prev, b, n, prev', o);
  }

  lemma LikePlain(s: Strip, u: Strip, pre: string, c: char, next: char, o: Options)
    requires Like(s, u, pre)
    ensures Like(s, u, pre) && Like(RegChar(s, c, o), RegChar(u, c, o), pre)
    ensures Like(OnLess(s, next, o), OnLess(u, next, o), pre) && Like(OnParen(s, c, o), OnParen(u, c, o), pre)
  {
    hide IsSpace;
    assert pre + (u.out + [c]) == (pre + u.out) + [c];
    assert pre + (u.out + ['<']) == (pre + u.out) + ['<'];
  }

  lemma LikeGreater(s: Strip, u: Strip, pre: string, prev: char, prev': char, two: Option<char>, two': Option<char>,
                    n: nat, o: Options)
    requires Like(s, u, pre) && (n > 0 ==> prev == prev') && (n > 1 ==> two == two')
    requires (n == 0 ==> u.state.Text?) && (n == 1 ==> u.state.Text? || u.state.Html?)
    ensures Like(OnGreater(s, prev, two, o), OnGreater(u, prev', two', o), pre)
  {
    hide TagFind;
    assert pre + (u.out + ['>']) == (pre + u.out) + ['>'];
    assert pre + (u.out + (u.tag + ">")) == (pre + u.out) + (u.tag + ">");
  }

  lemma LikeQuote(s: Strip, u: Strip, pre: string, c: char, first: bool, prev: char, first': bool, prev': char, o: Options)
    requires Like(s, u, pre) && (!u.state.Text? ==> prev == prev' && !first && !first')
    ensures Like(OnQuote(s, c, first, prev, o), OnQuote(u, c, first', prev', o), pre)
  {
    assert pre + (u.out + [c]) == (pre + u.out) + [c];
  }

  lemma LikeMarks(s: Strip, u: Strip, pre: string, prev: char, prev': char, two: Option<char>, two': Option<char>,
                  n: nat, o: Options)
    requires Like(s, u, pre) && (n > 0 ==> prev == prev') && (n > 1 ==> two == two')
    requires (n == 0 ==> u.state.Text?) && (n == 1 ==> u.state.Text? || u.state.Html?)
    ensures Like(OnBang(s, prev, o), OnBang(u, prev', o), pre) &&
      Like(OnDash(s, prev, two, o), OnDash(u, prev', two', o), pre)
  {
    assert pre + (u.out + ['!']) == (pre + u.out) + ['!'];
    assert pre + (u.out + ['-']) == (pre + u.out) + ['-'];
  }

  lemma LikeLetter(s: Strip, u: Strip, pre: string, w: string, i: nat, prev: char, b: string, n: nat, prev': char, o: Options)
    requires i < |w| && n < |b| && Like(s, u, pre) && w[i] == b[n] && (!u.state.Text? ==> prev == prev')
    requires u.state.Bang? ==> (AfterDoctyp(w, i) <==> AfterDoctyp(b, n))
    requires u.state.Php? ==> (AfterXm(w, i) <==> AfterXm(b, n))
    ensures Like(OnLetter(s, w, i, prev, o), OnLetter(u, b, n, prev', o), pre)
  {
    hide AfterDoctyp, AfterXm;
    assert pre + (u.out + [b[n]]) == (pre + u.out) + [b[n]];
  }

  lemma {:induction false} LikeRun(a: string, b: string, n: nat, before: char, before': char, o: Options)
    requires n <= |b| && AtRest(Run(a + b, Text, |a|, before, o))
    ensures var u := Run(b, Text, n, before', o);
      Like(Run(a + b, Text, |a| + n, before, o), u, Run(a + b, Text, |a|, before, o).out) && Known(u, b, n)
  {
    hide Step;
    if n > 0 {
      LikeRun(a, b, n - 1, before, before', o);
      var s, u := Run(a + b, Text, |a| + (n - 1), before, o), Run(b, Text, n - 1, before', o);
      LikeStep(s, u, Run(a + b, Text, |a|, before, o).out, a, b, n - 1, before, before', o);
      KnownStep(u, b, n - 1, before', o);
    }
  }

  /** Behind a place of rest the text is stripped as if it stood alone. */
  lemma StripConcat(a: string, b: string, before: char, before': char, o: Options)
    requires AtRest(Run(a + b, Text, |a|, before, o))
    ensures Stripped(a + b, Text, before, o) == Run(a + b, Text, |a|, before, o).out + Stripped(b, Text, before', o)
  {
    hide Run;
    LikeRun(a, b, |b|, before, before', o);
  }

  // ---- plain text ---------------------------------------------------------------------------------------------

  /** w has the text t at i. */
  predicate Has(w: string, i: nat, t: string) { i + |t| <= |w| && w[i..i + |t|] == t }

  lemma HasByte(w: string, i: nat, t: string, k: nat)
    requires Has(w, i, t) && k < |t|
    ensures w[i + k] == t[k]
  {
    assert w[i..i + |t|][k] == t[k];
  }

  lemma HasParts(w: string, i: nat, a: string, b: string)
    requires Has(w, i, a + b)
    ensures Has(w, i, a) && Has(w, i + |a|, b)
  {
    assert w[i..i + |a + b|][..|a|] == a && w[i..i + |a + b|][|a|..] == b;
  }

  /** Plain text is kept, whatever follows it. */
  lemma {:induction false} PlainIsWritten(w: string, a: string, n: nat, before: char, o: Options)
    requires Has(w, 0, a) && n <= |a| && Plain(a, o)
    ensures var s := Run(w, Text, n, before, o); AtRest(s) && s.out == a[..n]
  {
    hide Step, PlainAt;
    if n > 0 {
      PlainIsWritten(w, a, n - 1, before, o);
      PlainHere(a, n - 1, o);
      HasByte(w, 0, a, n - 1);
      PlainThere(w, a, n - 1, o);
      PlainByteHere(Run(w, Text, n - 1, before, o), w, n - 1, before, o);
      assert a[..n] == a[..n - 1] + [a[n - 1]];
    }
  }

  lemma PlainThere(w: string, a: string, i: nat, o: Options)
    requires Has(w, 0, a) && i < |a| && PlainAt(a, i, o)
    ensures PlainAt(w, i, o)
  {
    HasByte(w, 0, a, i);
    if i + 1 < |a| { HasByte(w, 0, a, i + 1); }
  }

  lemma PlainByteHere(s: Strip, w: string, i: nat, before: char, o: Options)
    requires i < |w| && AtRest(s) && PlainAt(w, i, o)
    ensures Step(s, w, i, before, o) == Emit(s, w[i])
  {
    hide AfterDoctyp, AfterXm, IsSpace;
  }

  // ---- inside a tag --------------------------------------------------------------------------------------------

  /** The bytes of a tag between its brackets that have no meaning of their own. */
  predicate TagText(x: string) {
    forall i :: 0 <= i < |x| ==> x[i] != NUL && x[i] != '<' && x[i] != '>' && x[i] != '"' && x[i] != '\''
  }

  /** What may stand behind the '<' of a tag. */
  predicate Opens(x: string, o: Options) {
    x != "" ==> x[0] != '!' && x[0] != '?' && (o.spaces || !IsSpace(x[0]))
  }

  /** In a tag that began with '<', k bytes of which are to be passed on. */
  predicate InTagAt(s: Strip, out: string, k: string, depth: nat, q: char, o: Options) {
    && s.state.Html? && s.depth == depth && s.inQ == q && s.out == out && s.tag == (if o.allow.Some? then k else "")
  }

  lemma LessBegins(s: Strip, w: string, i: nat, before: char, o: Options)
    requires i < |w| && AtRest(s) && w[i] == '<' && (o.spaces || !IsSpace(Next(w, i)))
    ensures InTagAt(Step(s, w, i, before, o), s.out, "<", 0, NUL, o)
  {
    hide IsSpace;
    assert "" + ['<'] == "<";
  }

  lemma TagByte(s: Strip, w: string, i: nat, before: char, out: string, k: string, depth: nat, q: char, o: Options)
    requires 0 < i < |w| && InTagAt(s, out, k, depth, q, o) && TagText([w[i]])
    requires w[i - 1] == '<' ==> w[i] != '!' && w[i] != '?'
    ensures InTagAt(Step(s, w, i, before, o), out, k + [w[i]], depth, q, o)
  {
    hide AfterDoctyp, AfterXm, IsSpace;
    assert TagText([w[i]]) && [w[i]][0] == w[i];
  }

  lemma {:induction false} TagSpan(w: string, i: nat, x: string, n: nat, before: char, out: string, k: string,
                                   depth: nat, q: char, o: Options)
    requires Has(w, i, x) && n <= |x| && TagText(x) && i > 0
    requires x != "" && w[i - 1] == '<' ==> x[0] != '!' && x[0] != '?'
    requires InTagAt(Run(w, Text, i, before, o), out, k, depth, q, o)
    ensures InTagAt(Run(w, Text, i + n, before, o), out, k + x[..n], depth, q, o)
  {
    hide Step, InTagAt, Run, TagText;
    if n == 0 {
      assert k + x[..0] == k;
    } else {
      TagSpan(w, i, x, n - 1, before, out, k, depth, q, o);
      HasByte(w, i, x, n - 1);
      OneOfText(x, n - 1);
      if n > 1 {
        HasByte(w, i, x, n - 2);
        OneOfText(x, n - 2);
      }
      RunNext(w, i + (n - 1), before, o);
      TagByte(Run(w, Text, i + (n - 1), before, o), w, i + (n - 1), before, out, k + x[..n - 1], depth, q, o);
      assert k + x[..n] == (k + x[..n - 1]) + [x[n - 1]];
    }
  }

  lemma OneOfText(x: string, i: nat)
    requires i < |x| && TagText(x)
    ensures TagText([x[i]]) && x[i] != '<'
  {
  }

  /** The '>' that ends a tag: it is passed on if the list contains its normal form. */
  function Passed(tag: string, o: Options): string {
    if o.allow.Some? && TagFind(tag, o.allow.value) then tag else ""
  }

  lemma GreaterEnds(s: Strip, w: string, i: nat, before: char, out: string, k: string, o: Options)
    requires i < |w| && w[i] == '>' && InTagAt(s, out, k, 0, NUL, o)
    ensures var t := Step(s, w, i, before, o); AtRest(t) && t.out == out + Passed(k + ">", o)
  {
    hide TagFind;
  }

  /** A place of rest before the text t at i, and one behind it; of t `kept` is left. */
  predicate Leaves(w: string, i: nat, t: string, kept: string, before: char, o: Options)
    requires i + |t| <= |w|
  {
    AtRest(Run(w, Text, i, before, o)) ==>
      var s := Run(w, Text, i + |t|, before, o); AtRest(s) && s.out == Run(w, Text, i, before, o).out + kept
  }

  lemma TagOpens(w: string, i: nat, x: string, rest: string, before: char, o: Options)
    requires Has(w, i, "<" + x + rest) && TagText(x) && Opens(x, o) && rest != "" && !IsSpace(rest[0])
    requires AtRest(Run(w, Text, i, before, o))
    ensures InTagAt(Run(w, Text, i + 1 + |x|, before, o), Run(w, Text, i, before, o).out, "<" + x, 0, NUL, o)
    ensures Has(w, i + 1 + |x|, rest) && w[i] == '<'
  {
    hide Step, Run, AtRest, InTagAt, TagText, IsSpace;
    var s := Run(w, Text, i, before, o);
    HasParts(w, i, "<" + x, rest);
    HasParts(w, i, "<", x);
    HasByte(w, i, "<", 0);
    if x == "" { HasByte(w, i + 1 + |x|, rest, 0); } else { HasByte(w, i + 1, x, 0); }
    RunNext(w, i, before, o);
    LessBegins(s, w, i, before, o);
    TagSpan(w, i + 1, x, |x|, before, s.out, "<", 0, NUL, o);
    assert x[..|x|] == x;
  }

  /** A tag goes, unless the list lets it through. */
  lemma TagLeaves(w: string, i: nat, x: string, before: char, o: Options)
    requires Has(w, i, "<" + x + ">") && TagText(x) && Opens(x, o)
    ensures Leaves(w, i, "<" + x + ">", Passed("<" + x + ">", o), before, o)
  {
    hide Step, Run, AtRest, InTagAt, TagText, Passed;
    if AtRest(Run(w, Text, i, before, o)) {
      TagOpens(w, i, x, ">", before, o);
      var j := i + 1 + |x|;
      HasByte(w, j, ">", 0);
      RunNext(w, j, before, o);
      GreaterEnds(Run(w, Text, j, before, o), w, j, before, Run(w, Text, i, before, o).out, "<" + x, o);
    }
  }

  // ---- a quoted attribute --------------------------------------------------------------------------------------

  /** The text of a value quoted by q. */
  predicate Quotable(y: string, q: char) { forall i :: 0 <= i < |y| ==> y[i] != NUL && y[i] != '<' && y[i] != q }

  function NoGreater(y: string): string {
    if y == "" then "" else NoGreater(y[..|y| - 1]) + if y[|y| - 1] == '>' then "" else [y[|y| - 1]]
  }

  lemma QuoteByte(s: Strip, w: string, i: nat, before: char, out: string, k: string, q: char, o: Options)
    requires 0 < i < |w| && (q == '"' || q == '\'') && w[i] == q
    ensures InTagAt(s, out, k, 0, NUL, o) ==> InTagAt(Step(s, w, i, before, o), out, k + [q], 0, q, o)
    ensures InTagAt(s, out, k, 0, q, o) ==> InTagAt(Step(s, w, i, before, o), out, k + [q], 0, NUL, o)
  {
  }

  lemma QuotedByte(s: Strip, w: string, i: nat, before: char, out: string, k: string, q: char, o: Options)
    requires 0 < i < |w| && (q == '"' || q == '\'') && Quotable([w[i]], q) && w[i - 1] != '<' && InTagAt(s, out, k, 0, q, o)
    ensures InTagAt(Step(s, w, i, before, o), out, k + if w[i] == '>' then "" else [w[i]], 0, q, o)
  {
    hide AfterDoctyp, AfterXm, IsSpace;
    assert [w[i]][0] == w[i];
    assert k + "" == k;
  }

  lemma {:induction false} QuotedSpan(w: string, i: nat, y: string, n: nat, before: char, out: string, k: string,
                                      q: char, o: Options)
    requires Has(w, i, y) && n <= |y| && (q == '"' || q == '\'') && Quotable(y, q) && i > 0 && w[i - 1] == q
    requires InTagAt(Run(w, Text, i, before, o), out, k, 0, q, o)
    ensures InTagAt(Run(w, Text, i + n, before, o), out, k + NoGreater(y[..n]), 0, q, o)
  {
    hide Step, InTagAt, Run, Quotable;
    if n == 0 {
      assert k + NoGreater(y[..0]) == k;
    } else {
      QuotedSpan(w, i, y, n - 1, before, out, k, q, o);
      HasByte(w, i, y, n - 1);
      OneQuotable(y, n - 1, q);
      if n > 1 {
        HasByte(w, i, y, n - 2);
        OneQuotable(y, n - 2, q);
      }
      RunNext(w, i + (n - 1), before, o);
      QuotedByte(Run(w, Text, i + (n - 1), before, o), w, i + (n - 1), before, out, k + NoGreater(y[..n - 1]), q, o);
      assert y[..n][..n - 1] == y[..n - 1];
      assert k + NoGreater(y[..n]) == (k + NoGreater(y[..n - 1])) + if y[n - 1] == '>' then "" else [y[n - 1]];
    }
  }

  lemma OneQuotable(y: string, i: nat, q: char)
    requires i < |y| && Quotable(y, q)
    ensures Quotable([y[i]], q) && y[i] != '<'
  {
  }

  lemma QuotedParts(w: string, i: nat, x: string, q: char, y: string, z: string)
    requires Has(w, i, "<" + x + [q] + y + [q] + z + ">")
    ensures |"<" + x + [q] + y + [q] + z + ">"| == 4 + |x| + |y| + |z|
    ensures Has(w, i, "<" + x + ([q] + (y + ([q] + (z + ">")))))
    ensures var j := i + 1 + |x|;
      && Has(w, j + 1, y) && Has(w, j + 2 + |y|, z) && j + 2 + |y| + |z| < |w|
      && w[j] == q && w[j + 1 + |y|] == q && w[j + 2 + |y| + |z|] == '>'
  {
    hide *;
    FiveParts(x, [q], y, [q], z);
    HasFive(w, i, x, [q], y, [q], z);
  }

  lemma FiveParts(x: string, p: string, y: string, r: string, z: string)
    ensures "<" + x + p + y + r + z + ">" == "<" + x + (p + (y + (r + (z + ">"))))
    ensures |"<" + x + p + y + r + z + ">"| == 2 + |x| + |p| + |y| + |r| + |z|
  {
  }

  lemma HasFive(w: string, i: nat, x: string, p: string, y: string, r: string, z: string)
    requires |p| == |r| == 1 && Has(w, i, "<" + x + (p + (y + (r + (z + ">")))))
    ensures var j := i + 1 + |x|;
      && Has(w, j + 1, y) && Has(w, j + 2 + |y|, z) && j + 2 + |y| + |z| < |w|
      && w[j] == p[0] && w[j + 1 + |y|] == r[0] && w[j + 2 + |y| + |z|] == '>'
  {
    var j := i + 1 + |x|;
    HasParts(w, i, "<" + x, p + (y + (r + (z + ">"))));
    HasParts(w, j, p, y + (r + (z + ">")));
    HasParts(w, j + 1, y, r + (z + ">"));
    HasParts(w, j + 1 + |y|, r, z + ">");
    HasParts(w, j + 2 + |y|, z, ">");
    HasSingle(w, j, p);
    HasSingle(w, j + 1 + |y|, r);
    HasSingle(w, j + 2 + |y| + |z|, ">");
    hide Has;
  }

  lemma HasSingle(w: string, i: nat, p: string)
    requires Has(w, i, p) && |p| == 1
    ensures i < |w| && w[i] == p[0]
  {
    HasByte(w, i, p, 0);
  }

  /** From the opening quote to the '>' that ends the tag. */
  lemma QuotedRest(w: string, j: nat, k: string, q: char, y: string, z: string, before: char, out: string, o: Options)
    requires (q == '"' || q == '\'') && TagText(z) && Quotable(y, q) && 0 < j && j + 2 + |y| + |z| < |w|
    requires Has(w, j + 1, y) && Has(w, j + 2 + |y|, z)
    requires w[j] == q && w[j + 1 + |y|] == q && w[j + 2 + |y| + |z|] == '>'
    requires InTagAt(Run(w, Text, j, before, o), out, k, 0, NUL, o)
    ensures var s := Run(w, Text, j + 3 + |y| + |z|, before, o);
      AtRest(s) && s.out == out + Passed(k + [q] + NoGreater(y) + [q] + z + ">", o)
  {
    hide *;
    RunNext(w, j, before, o);
    QuoteByte(Run(w, Text, j, before, o), w, j, before, out, k, q, o);
    QuotedSpan(w, j + 1, y, |y|, before, out, k + [q], q, o);
    assert y[..|y|] == y && z[..|z|] == z;
    var k' := k + [q] + NoGreater(y);
    RunNext(w, j + 1 + |y|, before, o);
    QuoteByte(Run(w, Text, j + 1 + |y|, before, o), w, j + 1 + |y|, before, out, k', q, o);
    TagSpan(w, j + 2 + |y|, z, |z|, before, out, k' + [q], 0, NUL, o);
    var e := j + 2 + |y| + |z|;
    RunNext(w, e, before, o);
    GreaterEnds(Run(w, Text, e, before, o), w, e, before, out, k' + [q] + z, o);
  }

  lemma QuoteIsNoSpace(q: char)
    requires q == '"' || q == '\''
    ensures !IsSpace(q)
  {
  }

  lemma LeavesIs(w: string, i: nat, t: string, kept: string, before: char, o: Options)
    requires i + |t| <= |w|
    requires AtRest(Run(w, Text, i, before, o)) ==>
      var s := Run(w, Text, i + |t|, before, o); AtRest(s) && s.out == Run(w, Text, i, before, o).out + kept
    ensures Leaves(w, i, t, kept, before, o)
  {
  }

  /** A '>' between quotes does not end a tag; it is not passed on either. */
  lemma QuotedTagLeaves(w: string, i: nat, x: string, q: char, y: string, z: string, before: char, o: Options)
    requires (q == '"' || q == '\'') && Has(w, i, "<" + x + [q] + y + [q] + z + ">")
    requires TagText(x) && Opens(x, o) && TagText(z) && Quotable(y, q)
    ensures Leaves(w, i, "<" + x + [q] + y + [q] + z + ">", Passed("<" + x + [q] + NoGreater(y) + [q] + z + ">", o),
      before, o)
  {
    HasInside(w, i, "<" + x + [q] + y + [q] + z + ">");
    hide *;
    QuotedParts(w, i, x, q, y, z);
    QuoteIsNoSpace(q);
    if AtRest(Run(w, Text, i, before, o)) {
      TagOpens(w, i, x, [q] + (y + ([q] + (z + ">"))), before, o);
      QuotedRest(w, i + 1 + |x|, "<" + x, q, y, z, before, Run(w, Text, i, before, o).out, o);
    }
    LeavesIs(w, i, "<" + x + [q] + y + [q] + z + ">", Passed("<" + x + [q] + NoGreater(y) + [q] + z + ">", o), before, o);
  }

  lemma HasInside(w: string, i: nat, t: string)
    requires Has(w, i, t)
    ensures i + |t| <= |w|
  {
  }

  // ---- a tag within a tag ----------------------------------------------------------------------------------------

  lemma LessDeeper(s: Strip, w: string, i: nat, before: char, out: string, k: string, o: Options)
    requires i < |w| && w[i] == '<' && (o.spaces || !IsSpace(Next(w, i))) && InTagAt(s, out, k, 0, NUL, o)
    ensures InTagAt(Step(s, w, i, before, o), out, k, 1, NUL, o)
  {
    hide IsSpace;
  }

  lemma GreaterUp(s: Strip, w: string, i: nat, before: char, out: string, k: string, o: Options)
    requires i < |w| && w[i] == '>' && InTagAt(s, out, k, 1, NUL, o)
    ensures InTagAt(Step(s, w, i, before, o), out, k, 0, NUL, o)
  {
  }

  lemma NestedParts(w: string, i: nat, x: string, y: string, z: string)
    requires Has(w, i, "<" + x + "<" + y + ">" + z + ">")
    ensures |"<" + x + "<" + y + ">" + z + ">"| == 4 + |x| + |y| + |z|
    ensures Has(w, i, "<" + x + ("<" + (y + (">" + (z + ">")))))
    ensures var j := i + 1 + |x|;
      && Has(w, j + 1, y) && Has(w, j + 2 + |y|, z) && j + 2 + |y| + |z| < |w|
      && w[j] == '<' && w[j + 1 + |y|] == '>' && w[j + 2 + |y| + |z|] == '>'
      && Next(w, j) == if y == "" then '>' else y[0]
  {
    hide *;
    FiveParts(x, "<", y, ">", z);
    HasFive(w, i, x, "<", y, ">", z);
    NextOf(w, i + 1 + |x|, y);
  }

  lemma NextOf(w: string, j: nat, y: string)
    requires Has(w, j + 1, y) && j + 1 + |y| < |w| && w[j + 1 + |y|] == '>'
    ensures Next(w, j) == if y == "" then '>' else y[0]
  {
    if y != "" { HasByte(w, j + 1, y, 0); }
  }

  lemma NestedRest(w: string, j: nat, k: string, y: string, z: string, before: char, out: string, o: Options)
    requires TagText(y) && Opens(y, o) && TagText(z) && 0 < j && j + 2 + |y| + |z| < |w|
    requires Has(w, j + 1, y) && Has(w, j + 2 + |y|, z)
    requires w[j] == '<' && w[j + 1 + |y|] == '>' && w[j + 2 + |y| + |z|] == '>'
    requires Next(w, j) == if y == "" then '>' else y[0]
    requires InTagAt(Run(w, Text, j, before, o), out, k, 0, NUL, o)
    ensures var s := Run(w, Text, j + 3 + |y| + |z|, before, o); AtRest(s) && s.out == out + Passed(k + y + z + ">", o)
  {
    hide *;
    LessIsNoSpace();
    OpensFirst(y, o);
    RunNext(w, j, before, o);
    LessDeeper(Run(w, Text, j, before, o), w, j, before, out, k, o);
    TagSpan(w, j + 1, y, |y|, before, out, k, 1, NUL, o);
    assert y[..|y|] == y && z[..|z|] == z;
    RunNext(w, j + 1 + |y|, before, o);
    GreaterUp(Run(w, Text, j + 1 + |y|, before, o), w, j + 1 + |y|, before, out, k + y, o);
    TagSpan(w, j + 2 + |y|, z, |z|, before, out, k + y, 0, NUL, o);
    var e := j + 2 + |y| + |z|;
    RunNext(w, e, before, o);
    GreaterEnds(Run(w, Text, e, before, o), w, e, before, out, k + y + z, o);
  }

  lemma OpensFirst(y: string, o: Options)
    requires Opens(y, o)
    ensures y != "" ==> y[0] != '!' && y[0] != '?' && (o.spaces || !IsSpace(y[0]))
  {
  }

  /** The brackets of a tag within a tag are matched, and not passed on. */
  lemma NestedTagLeaves(w: string, i: nat, x: string, y: string, z: string, before: char, o: Options)
    requires Has(w, i, "<" + x + "<" + y + ">" + z + ">")
    requires TagText(x) && Opens(x, o) && TagText(y) && Opens(y, o) && TagText(z)
    ensures Leaves(w, i, "<" + x + "<" + y + ">" + z + ">", Passed("<" + x + y + z + ">", o), before, o)
  {
    HasInside(w, i, "<" + x + "<" + y + ">" + z + ">");
    hide *;
    NestedParts(w, i, x, y, z);
    LessIsNoSpace();
    if AtRest(Run(w, Text, i, before, o)) {
      TagOpens(w, i, x, "<" + (y + (">" + (z + ">"))), before, o);
      NestedRest(w, i + 1 + |x|, "<" + x, y, z, before, Run(w, Text, i, before, o).out, o);
    }
    LeavesIs(w, i, "<" + x + "<" + y + ">" + z + ">", Passed("<" + x + y + z + ">", o), before, o);
  }

  lemma LessIsNoSpace()
    ensures !IsSpace('<') && !IsSpace('>') && !IsSpace('!') && !IsSpace('?')
  {
  }

  // ---- comments and code --------------------------------------------------------------------------------------------

  /** "-->" does not begin at any place of the text. */
  predicate Free(t: string, mark: string) { forall i :: 0 <= i < |t| ==> !Has(t, i, mark) }

  predicate InComment(s: Strip, out: string) { s.state.Comment? && s.depth == 0 && s.inQ == NUL && s.out == out }

  lemma CommentBegins(w: string, i: nat, before: char, o: Options)
    requires Has(w, i, "<!--") && AtRest(Run(w, Text, i, before, o))
    ensures InComment(Run(w, Text, i + 4, before, o), Run(w, Text, i, before, o).out)
  {
    hide Run, IsSpace;
    LessIsNoSpace();
    HasByte(w, i, "<!--", 0);
    HasByte(w, i, "<!--", 1);
    HasByte(w, i, "<!--", 2);
    HasByte(w, i, "<!--", 3);
    RunNext(w, i, before, o);
    RunNext(w, i + 1, before, o);
    RunNext(w, i + 2, before, o);
    RunNext(w, i + 3, before, o);
  }

  lemma CommentByte(s: Strip, w: string, i: nat, before: char, out: string, o: Options)
    requires 2 <= i < |w| && InComment(s, out) && !(w[i] == '>' && w[i - 1] == '-' && w[i - 2] == '-')
    ensures InComment(Step(s, w, i, before, o), out)
  {
    hide AfterDoctyp, AfterXm, IsSpace;
  }

  lemma CommentEnds(s: Strip, w: string, i: nat, before: char, out: string, o: Options)
    requires 2 <= i < |w| && InComment(s, out) && w[i] == '>' && w[i - 1] == '-' && w[i - 2] == '-'
    ensures AtRest(Step(s, w, i, before, o)) && Step(s, w, i, before, o).out == out
  {
  }

  lemma {:induction false} CommentSpan(w: string, i: nat, c: string, n: nat, before: char, out: string, o: Options)
    requires 2 <= i && Has(w, i - 2, c) && 2 <= n <= |c|
    requires forall k :: 2 <= k < n ==> !(c[k] == '>' && c[k - 1] == '-' && c[k - 2] == '-')
    requires InComment(Run(w, Text, i, before, o), out)
    ensures InComment(Run(w, Text, i + (n - 2), before, o), out)
  {
    hide Step, InComment, Run;
    if n > 2 {
      CommentSpan(w, i, c, n - 1, before, out, o);
      HasByte(w, i - 2, c, n - 1);
      HasByte(w, i - 2, c, n - 2);
      HasByte(w, i - 2, c, n - 3);
      RunNext(w, i + (n - 3), before, o);
      CommentByte(Run(w, Text, i + (n - 3), before, o), w, i + (n - 3), before, out, o);
    }
  }

  /** A comment goes, with or without a list. It ends at the first "-->", which may begin with the dashes of "<!--". */
  lemma CommentLeaves(w: string, i: nat, c: string, before: char, o: Options)
    requires Has(w, i, "<!--" + c + "-->") && Free("--" + c + "--", "-->")
    ensures Leaves(w, i, "<!--" + c + "-->", "", before, o)
  {
    hide *;
    CommentParts(w, i, c);
    if AtRest(Run(w, Text, i, before, o)) {
      var out := Run(w, Text, i, before, o).out;
      var d := "--" + c + "--";
      var e := i + 2 + |d|;
      CommentFree(d);
      CommentBegins(w, i, before, o);
      CommentSpan(w, i + 4, d, |d|, before, out, o);
      RunNext(w, e, before, o);
      CommentEnds(Run(w, Text, e, before, o), w, e, before, out, o);
    }
    NothingLeft(w, i, "<!--" + c + "-->", before, o);
  }

  lemma NothingLeft(w: string, i: nat, t: string, before: char, o: Options)
    requires i + |t| <= |w|
    requires AtRest(Run(w, Text, i, before, o)) ==>
      AtRest(Run(w, Text, i + |t|, before, o)) && Run(w, Text, i + |t|, before, o).out == Run(w, Text, i, before, o).out
    ensures Leaves(w, i, t, "", before, o)
  {
    hide AtRest, Run;
    var out := Run(w, Text, i, before, o).out;
    assert out + "" == out;
  }

  lemma CommentParts(w: string, i: nat, c: string)
    requires Has(w, i, "<!--" + c + "-->")
    ensures var d := "--" + c + "--"; var e := i + 2 + |d|;
      && Has(w, i, "<!--") && Has(w, i + 4 - 2, d) && |d| >= 4
      && e < |w| && w[e] == '>' && w[e - 1] == '-' && w[e - 2] == '-' && e + 1 == i + |"<!--" + c + "-->"|
  {
    var d := "--" + c + "--";
    assert "<!--" + c + "-->" == "<!--" + (c + "-->") && "<!--" + c + "-->" == "<!" + (d + ">");
    hide Has;
    HasParts(w, i, "<!--", c + "-->");
    HasParts(w, i, "<!", d + ">");
    HasParts(w, i + 2, d, ">");
    HasFits(w, i + 2 + |d|, ">");
    HasByte(w, i + 2 + |d|, ">", 0);
    HasByte(w, i + 2, d, |d| - 1);
    HasByte(w, i + 2, d, |d| - 2);
  }

  lemma HasFits(w: string, i: nat, t: string)
    requires Has(w, i, t)
    ensures i + |t| <= |w|
  {
  }

  lemma CommentFree(d: string)
    requires Free(d, "-->")
    ensures forall k :: 2 <= k < |d| ==> !(d[k] == '>' && d[k - 1] == '-' && d[k - 2] == '-')
  {
    forall k | 2 <= k < |d| ensures !(d[k] == '>' && d[k - 1] == '-' && d[k - 2] == '-') {
      assert Has(d, k - 2, "-->") <==> d[k - 2..k - 2 + 3] == [d[k - 2], d[k - 1], d[k]] == "-->";
    }
  }

  /** In code, outside quotes and brackets. */
  predicate InCode(s: Strip, out: string) {
    s.state.Php? && s.depth == 0 && s.inQ == NUL && s.br == 0 && s.lc == '<' && s.out == out
  }

  /** Code without quotes, brackets and "<?xml". */
  predicate PlainCode(c: string) {
    && (forall i :: 0 <= i < |c| ==> c[i] != '"' && c[i] != '\'' && c[i] != '(' && c[i] != ')')
    && forall i :: 0 < i < |c| ==> !(ToLower(c[i - 1]) == 'x' && ToLower(c[i]) == 'm')
  }

  lemma CodeBegins(w: string, i: nat, before: char, o: Options)
    requires Has(w, i, "<?") && AtRest(Run(w, Text, i, before, o))
    ensures InCode(Run(w, Text, i + 2, before, o), Run(w, Text, i, before, o).out)
  {
    hide Run, IsSpace;
    LessIsNoSpace();
    HasByte(w, i, "<?", 0);
    HasByte(w, i, "<?", 1);
    RunNext(w, i, before, o);
    RunNext(w, i + 1, before, o);
  }

  lemma CodeByte(s: Strip, w: string, i: nat, before: char, out: string, o: Options)
    requires 2 <= i < |w| && InCode(s, out) && !(w[i] == '>' && w[i - 1] == '?')
    requires w[i] != '"' && w[i] != '\'' && w[i] != '(' && w[i] != ')' && !(ToLower(w[i - 2]) == 'x' && ToLower(w[i - 1]) == 'm')
    ensures InCode(Step(s, w, i, before, o), out)
  {
    hide AfterDoctyp, IsSpace;
  }

  lemma CodeEnds(s: Strip, w: string, i: nat, before: char, out: string, o: Options)
    requires 2 <= i < |w| && InCode(s, out) && w[i] == '>' && w[i - 1] == '?'
    ensures AtRest(Step(s, w, i, before, o)) && Step(s, w, i, before, o).out == out
  {
  }

  lemma {:induction false} CodeSpan(w: string, i: nat, c: string, n: nat, before: char, out: string, o: Options)
    requires Has(w, i, c) && 2 <= n <= |c| && PlainCode(c) && (forall k :: 0 < k < n ==> !(c[k] == '>' && c[k - 1] == '?'))
    requires InCode(Run(w, Text, i + 2, before, o), out)
    ensures InCode(Run(w, Text, i + n, before, o), out)
  {
    hide Step, InCode, Run;
    if n > 2 {
      CodeSpan(w, i, c, n - 1, before, out, o);
      HasByte(w, i, c, n - 1);
      HasByte(w, i, c, n - 2);
      HasByte(w, i, c, n - 3);
      RunNext(w, i + (n - 1), before, o);
      CodeByte(Run(w, Text, i + (n - 1), before, o), w, i + (n - 1), before, out, o);
    }
  }

  /** Code goes, with or without a list, up to the first "?>", which may begin with the '?' of "<?". */
  lemma CodeLeaves(w: string, i: nat, c: string, before: char, o: Options)
    requires Has(w, i, "<?" + c + "?>") && PlainCode(c) && Free("?" + c + "?", "?>")
    ensures Leaves(w, i, "<?" + c + "?>", "", before, o)
  {
    hide *;
    CodeParts(w, i, c);
    if AtRest(Run(w, Text, i, before, o)) {
      var out := Run(w, Text, i, before, o).out;
      var d := "<?" + c + "?";
      var e := i + |d|;
      CodeBegins(w, i, before, o);
      CodeAround(c);
      CodeFree(c);
      CodeSpan(w, i, d, |d|, before, out, o);
      RunNext(w, e, before, o);
      CodeEnds(Run(w, Text, e, before, o), w, e, before, out, o);
    }
    NothingLeft(w, i, "<?" + c + "?>", before, o);
  }

  lemma CodeFree(c: string)
    requires Free("?" + c + "?", "?>")
    ensures var d := "<?" + c + "?"; forall k :: 0 < k < |d| ==> !(d[k] == '>' && d[k - 1] == '?')
  {
    var d, f := "<?" + c + "?", "?" + c + "?";
    assert d == "<" + f;
    forall k | 0 < k < |d| ensures !(d[k] == '>' && d[k - 1] == '?') {
      if k > 1 { assert Has(f, k - 2, "?>") <==> f[k - 2..k - 2 + 2] == [d[k - 1], d[k]] == "?>"; }
    }
  }

  lemma CodeParts(w: string, i: nat, c: string)
    requires Has(w, i, "<?" + c + "?>")
    ensures var d := "<?" + c + "?"; var e := i + |d|;
      && Has(w, i, "<?") && Has(w, i, d) && |d| >= 3
      && e < |w| && w[e] == '>' && w[e - 1] == '?' && e + 1 == i + |"<?" + c + "?>"|
  {
    var d := "<?" + c + "?";
    assert "<?" + c + "?>" == d + ">" && "<?" + c + "?>" == "<?" + (c + "?>");
    hide Has;
    HasParts(w, i, d, ">");
    HasParts(w, i, "<?", c + "?>");
    HasFits(w, i + |d|, ">");
    HasByte(w, i + |d|, ">", 0);
    HasByte(w, i, d, |d| - 1);
  }

  lemma CodeAround(c: string)
    requires PlainCode(c)
    ensures PlainCode("<?" + c + "?")
  {
    var d := "<?" + c + "?";
    assert forall i :: 2 <= i < |c| + 2 ==> d[i] == c[i - 2];
  }

  // ---- the theorem ------------------------------------------------------------------------------------------------------

  /** A piece of text that stripping takes as a whole, and what is left of it. */
  datatype Piece =
    | Tag(x: string)
    | QuotedTag(x: string, q: char, y: string, z: string)
    | NestedTag(x: string, y: string, z: string)
    | CommentPiece(c: string)
    | Code(c: string)

  function Written(t: Piece): string {
    match t
    case Tag(x) => "<" + x + ">"
    case QuotedTag(x, q, y, z) => "<" + x + [q] + y + [q] + z + ">"
    case NestedTag(x, y, z) => "<" + x + "<" + y + ">" + z + ">"
    case CommentPiece(c) => "<!--" + c + "-->"
    case Code(c) => "<?" + c + "?>"
  }

  predicate Proper(t: Piece, o: Options) {
    match t
    case Tag(x) => TagText(x) && Opens(x, o)
    case QuotedTag(x, q, y, z) => (q == '"' || q == '\'') && TagText(x) && Opens(x, o) && TagText(z) && Quotable(y, q)
    case NestedTag(x, y, z) => TagText(x) && Opens(x, o) && TagText(y) && Opens(y, o) && TagText(z)
    case CommentPiece(c) => Free("--" + c + "--", "-->")
    case Code(c) => PlainCode(c) && Free("?" + c + "?", "?>")
  }

  /** What is left: a tag that the list contains, without the brackets and '>' within it. */
  function Left(t: Piece, o: Options): string {
    match t
    case Tag(x) => Passed("<" + x + ">", o)
    case QuotedTag(x, q, y, z) => Passed("<" + x + [q] + NoGreater(y) + [q] + z + ">", o)
    case NestedTag(x, y, z) => Passed("<" + x + y + z + ">", o)
    case CommentPiece(_) => ""
    case Code(_) => ""
  }

  lemma PieceLeaves(w: string, i: nat, t: Piece, before: char, o: Options)
    requires Has(w, i, Written(t)) && Proper(t, o)
    ensures Leaves(w, i, Written(t), Left(t, o), before, o)
  {
    hide Leaves, Passed, TagText, Opens, Quotable, Free, PlainCode;
    match t
    case Tag(x) => TagLeaves(w, i, x, before, o);
    case QuotedTag(x, q, y, z) => QuotedTagLeaves(w, i, x, q, y, z, before, o);
    case NestedTag(x, y, z) => NestedTagLeaves(w, i, x, y, z, before, o);
    case CommentPiece(c) => CommentLeaves(w, i, c, before, o);
    case Code(c) => CodeLeaves(w, i, c, before, o);
  }

  /** Of plain text, a piece and any text behind it stripping leaves the plain text, what is left of the piece,
      and what it would leave of the text behind if that stood alone. */
  lemma PieceIsTaken(a: string, t: Piece, b: string, before: char, before': char, o: Options)
    requires Plain(a, o) && Proper(t, o)
    ensures Stripped(a + Written(t) + b, Text, before, o) == a + Left(t, o) + Stripped(b, Text, before', o)
  {
    hide Run, Written, Proper, Left, Plain, Stripped, AtRest;
    var w, f := a + Written(t) + b, a + Written(t);
    assert w[0..|a|] == a && w[|a|..|a| + |Written(t)|] == Written(t);
    PlainIsWritten(w, a, |a|, before, o);
    PieceLeaves(w, |a|, t, before, o);
    assert a[..|a|] == a;
    StripConcat(f, b, before, before', o);
  }
}
