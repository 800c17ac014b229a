/** What stripping keeps, removes and repeats. */
module StripProps {
  import opened Basics
  import opened StripSpec

  /** a is b with some bytes left out. */
  predicate Sub(a: string, b: string) {
    a == "" || (b != "" && ((a[|a| - 1] == b[|b| - 1] && Sub(a[..|a| - 1], b[..|b| - 1])) || Sub(a, b[..|b| - 1])))
  }

  lemma SubSkip(a: string, b: string, c: char)
    requires Sub(a, b)
    ensures Sub(a, b + [c])
  {
    assert (b + [c])[..|b|] == b;
  }

  lemma SubTake(a: string, b: string, c: char)
    requires Sub(a, b)
    ensures Sub(a + [c], b + [c])
  {
    assert (b + [c])[..|b|] == b && (a + [c])[..|a|] == a;
  }

  lemma {:induction false} SubInit(a: string, b: string)
    requires Sub(a, b) && a != ""
    ensures Sub(a[..|a| - 1], b)
    decreases |b|
  {
    var a', b' := a[..|a| - 1], b[..|b| - 1];
    assert b' + [b[|b| - 1]] == b;
    if a[|a| - 1] == b[|b| - 1] && Sub(a', b') {
      SubSkip(a', b', b[|b| - 1]);
    } else {
      SubInit(a, b');
      SubSkip(a', b', b[|b| - 1]);
    }
  }

  lemma {:induction false} SubPrefix(a: string, t: string, b: string)
    requires Sub(a + t, b)
    ensures Sub(a, b)
    decreases |t|
  {
    if t == "" {
      assert a + t == a;
    } else {
      SubInit(a + t, b);
      assert (a + t)[..|a + t| - 1] == a + t[..|t| - 1];
      SubPrefix(a, t[..|t| - 1], b);
    }
  }

  lemma {:induction false} SubShort(a: string, b: string)
    requires Sub(a, b)
    ensures |a| <= |b|
    decreases |b|
  {
    if a != "" {
      if Sub(a, b[..|b| - 1]) {
        SubShort(a, b[..|b| - 1]);
      } else {
        SubShort(a[..|a| - 1], b[..|b| - 1]);
      }
    }
  }

  // ---- the invariant of a run --------------------------------------------------------------------------

  /** In text nothing is open, and without an allow list no tag is kept. */
  predicate Rests(s: Strip, o: Options) {
    (s.state.Text? ==> s.depth == 0 && s.inQ == NUL && s.tag == "") && (o.allow.None? ==> s.tag == "")
  }

  /** How one byte changes what was written and what is pending. */
  predicate Moves(s: Strip, t: Strip, c: char) {
    || (t.out == s.out && t.tag == s.tag)
    || (t.out == s.out + [c] && s.tag == t.tag == "")
    || (t.out == s.out && t.tag == s.tag + [c])
    || (t.out == s.out && t.tag == "")
    || (t.out == s.out + (s.tag + [c]) && t.tag == "")
  }

  lemma StepMoves(s: Strip, w: string, i: nat, before: char, o: Options)
    requires i < |w| && Rests(s, o)
    ensures Rests(Step(s, w, i, before, o), o) && Moves(s, Step(s, w, i, before, o), w[i])
  {
    hide AfterDoctyp, AfterXm, TagFind, IsSpace;
  }

  lemma {:induction false} RunRests(w: string, state: Mode, n: nat, before: char, o: Options)
    requires n <= |w|
    ensures Rests(Run(w, state, n, before, o), o)
  {
    hide Step, Rests;
    if n > 0 {
      RunRests(w, state, n - 1, before, o);
      StepMoves(Run(w, state, n - 1, before, o), w, n - 1, before, o);
    } else {
      assert Rests(Strip(state, 0, NUL, NUL, 0, "", ""), o) by { FreshRests(state, o); }
    }
  }

  lemma FreshRests(state: Mode, o: Options)
    ensures Rests(Strip(state, 0, NUL, NUL, 0, "", ""), o)
  {
  }

  lemma MoveIsSub(s: Strip, t: Strip, b: string, c: char)
    requires Moves(s, t, c) && Sub(s.out + s.tag, b)
    ensures Sub(t.out + t.tag, b + [c])
  {
    SubPrefix(s.out, s.tag, b);
    assert s.out + "" == s.out;
    if t.out == s.out {
      if t.tag == s.tag {
        SubSkip(s.out + s.tag, b, c);
      } else if t.tag == s.tag + [c] {
        assert s.out + (s.tag + [c]) == (s.out + s.tag) + [c];
        SubTake(s.out + s.tag, b, c);
      } else {
        assert t.out + t.tag == s.out;
        SubSkip(s.out, b, c);
      }
    } else if t.out == s.out + [c] && s.tag == t.tag == "" {
      assert t.out + t.tag == s.out + [c];
      SubTake(s.out, b, c);
    } else {
      assert t.out + t.tag == (s.out + s.tag) + [c];
      SubTake(s.out + s.tag, b, c);
    }
  }

  /** With an allow list and without one: what was written, followed by the pending tag, is the
      consumed input with bytes left out. So rp never overtakes p. */
  lemma {:induction false} OutputIsSub(w: string, state: Mode, n: nat, before: char, o: Options)
    requires n <= |w|
    ensures var s := Run(w, state, n, before, o); Sub(s.out + s.tag, w[..n]) && |s.out| + |s.tag| <= n
  {
    hide Step, Rests, Moves, Sub;
    var s := Run(w, state, n, before, o);
    if n == 0 {
      assert Sub("" + "", w[..0]) by { NothingIsSub(w[..0]); }
    } else {
      OutputIsSub(w, state, n - 1, before, o);
      RunRests(w, state, n - 1, before, o);
      var r := Run(w, state, n - 1, before, o);
      StepMoves(r, w, n - 1, before, o);
      MoveIsSub(r, s, w[..n - 1], w[n - 1]);
      assert w[..n] == w[..n - 1] + [w[n - 1]];
    }
    SubShort(s.out + s.tag, w[..n]);
  }

  lemma NothingIsSub(b: string)
    ensures Sub("" + "", b)
  {
  }

  // ---- stripping twice ---------------------------------------------------------------------------------------

  /** A text without tags, as the stripper sees it: no NUL, and every '<' has white space behind it
      (with allow_tag_spaces: no '<' at all). */
  predicate Plain(t: string, o: Options) {
    forall i :: 0 <= i < |t| ==> PlainAt(t, i, o)
  }

  predicate PlainAt(t: string, i: nat, o: Options)
    requires i < |t|
  {
    t[i] != NUL && (t[i] == '<' ==> !o.spaces && i + 1 < |t| && IsSpace(t[i + 1]))
  }

  /** What was written up to byte n is plain, except that a last '<' still waits for its space. */
  predicate Settled(s: Strip, w: string, n: nat, o: Options)
    requires n <= |w|
  {
    && s.tag == ""
    && (forall i :: 0 <= i < |s.out| - 1 ==> PlainAt(s.out, i, o))
    && (s.out != "" ==> s.out[|s.out| - 1] != NUL)
    && (s.out != "" && s.out[|s.out| - 1] == '<' ==>
          !o.spaces && s.state.Text? && n < |w| && IsSpace(w[n]))
  }

  /** Without an allow list a byte is written in text only, and a '<' only before a space. */
  lemma Writes(s: Strip, w: string, n: nat, before: char, o: Options)
    requires n < |w| && o.allow.None? && Rests(s, o) && s.tag == ""
    ensures var t := Step(s, w, n, before, o);
      t.tag == "" &&
      if t.out == s.out then !(s.state.Text? && IsSpace(w[n]))
      else t.out == s.out + [w[n]] && s.state.Text? && t.state.Text? && w[n] != NUL
           && (w[n] == '<' ==> !o.spaces && n + 1 < |w| && IsSpace(w[n + 1]))
  {
    hide AfterDoctyp, AfterXm, TagFind;
    assert s.out + [w[n]] != s.out;
  }

  lemma StepSettles(s: Strip, w: string, n: nat, before: char, o: Options)
    requires n < |w| && o.allow.None? && Rests(s, o) && Settled(s, w, n, o)
    ensures Settled(Step(s, w, n, before, o), w, n + 1, o)
  {
    Writes(s, w, n, before, o);
    hide Step, Rests, IsSpace;
    var t := Step(s, w, n, before, o);
    if t.out != s.out {
      forall i | 0 <= i < |t.out| - 1 ensures PlainAt(t.out, i, o) {
        if i < |s.out| - 1 { assert PlainAt(s.out, i, o); }
      }
    }
  }

  lemma {:induction false} RunSettles(w: string, state: Mode, n: nat, before: char, o: Options)
    requires n <= |w| && o.allow.None?
    ensures Settled(Run(w, state, n, before, o), w, n, o)
  {
    hide Step, Rests;
    if n > 0 {
      RunSettles(w, state, n - 1, before, o);
      RunRests(w, state, n - 1, before, o);
      StepSettles(Run(w, state, n - 1, before, o), w, n - 1, before, o);
    }
  }

  /** Without an allow list the output is plain, whatever the input and the first state. */
  lemma OutputIsPlain(w: string, state: Mode, before: char, o: Options)
    requires o.allow.None?
    ensures Plain(Stripped(w, state, before, o), o)
  {
    hide Run;
    RunSettles(w, state, |w|, before, o);
    var t := Stripped(w, state, before, o);
    forall i | 0 <= i < |t| ensures PlainAt(t, i, o) {
    }
  }

  /** A plain text goes through unchanged. */
  lemma {:induction false} PlainIsKept(t: string, n: nat, before: char, o: Options)
    requires n <= |t| && Plain(t, o) && o.allow.None?
    ensures var s := Run(t, Text, n, before, o); s.out == t[..n] && s.state.Text?
  {
    hide Step, Plain;
    if n > 0 {
      PlainIsKept(t, n - 1, before, o);
      RunRests(t, Text, n - 1, before, o);
      var s := Run(t, Text, n - 1, before, o);
      assert PlainAt(t, n - 1, o) by { PlainHere(t, n - 1, o); }
      PlainByte(s, t, n - 1, before, o);
      assert t[..n] == t[..n - 1] + [t[n - 1]];
    }
  }

  lemma PlainHere(t: string, i: nat, o: Options)
    requires i < |t| && Plain(t, o)
    ensures PlainAt(t, i, o)
  {
  }

  lemma PlainByte(s: Strip, t: string, i: nat, before: char, o: Options)
    requires i < |t| && Rests(s, o) && s.state.Text? && PlainAt(t, i, o)
    ensures Step(s, t, i, before, o) == Emit(s, t[i])
  {
    hide AfterDoctyp, AfterXm, IsSpace;
  }

  /** The texts that stripping leaves alone are exactly the plain ones. */
  lemma FixedPoints(t: string, before: char, o: Options)
    requires o.allow.None?
    ensures Stripped(t, Text, before, o) == t <==> Plain(t, o)
  {
    if Stripped(t, Text, before, o) == t { OutputIsPlain(t, Text, before, o); }
    if Plain(t, o) {
      PlainIsKept(t, |t|, before, o);
      assert t[..|t|] == t;
    }
  }

  /** Stripping twice is stripping once, from any first state and with or without allow_tag_spaces. */
  lemma Idempotent(w: string, state: Mode, before: char, after: char, o: Options)
    requires o.allow.None?
    ensures var t := Stripped(w, state, before, o); Stripped(t, Text, after, o) == t
  {
    hide Stripped;
    OutputIsPlain(w, state, before, o);
    FixedPoints(Stripped(w, state, before, o), after, o);
  }

  // ---- the normal form of a tag ---------------------------------------------------------------------------------

  predicate Spaces(s: string) { forall i :: 0 <= i < |s| ==> IsSpace(s[i]) }

  predicate NameText(s: string) { forall i :: 0 <= i < |s| ==> !IsSpace(s[i]) && s[i] != '<' && s[i] != '>' }

  /** A name in lower case without its slashes. */
  function Squeezed(s: string): string {
    if s == "" then "" else (if s[0] == '/' then "" else [ToLower(s[0])]) + Squeezed(s[1..])
  }

  lemma {:induction false} NormalSpaces(s: string, rest: string)
    requires Spaces(s)
    ensures Normal(s + rest, false) == Normal(rest, false)
  {
    if s == "" {
      assert s + rest == rest;
    } else {
      assert (s + rest)[1..] == s[1..] + rest && IsSpace(s[0]);
      NormalSpaces(s[1..], rest);
    }
  }

  lemma {:induction false} NormalName(s: string, rest: string, named: bool)
    requires NameText(s)
    ensures Normal(s + rest, named) == Squeezed(s) + Normal(rest, named || s != "")
  {
    if s == "" {
      assert s + rest == rest;
    } else {
      assert (s + rest)[1..] == s[1..] + rest && (s + rest)[0] == s[0];
      NormalName(s[1..], rest, true);
    }
  }

  /** "< Name attributes>", "</name>" and "<name/>" all normalise to "<name>": the allow list is
      asked for the lower-cased name alone. */
  lemma TagNormal(lead: string, name: string, rest: string)
    requires Spaces(lead) && NameText(name) && name != "" && rest != "" && (rest[0] == '>' || IsSpace(rest[0]))
    ensures Normal("<" + lead + name + rest, false) == "<" + Squeezed(name) + ">"
  {
    var t := "<" + lead + name + rest;
    assert t[1..] == lead + (name + rest);
    NormalSpaces(lead, name + rest);
    NormalName(name, rest, false);
  }

  // ---- with an allow list a second pass may remove more ------------------------------------------------------------

  /** A byte that a normal form keeps. */
  predicate NameChar(c: char) { c != NUL && c != '<' && c != '>' && c != '/' && !IsSpace(c) && ToLower(c) == c }

  predicate NameChars(s: string) { forall i :: 0 <= i < |s| ==> NameChar(s[i]) }

  /** Between i and j the list names a tag. */
  predicate NamesAt(allow: string, i: nat, j: nat) {
    i < j < |allow| && allow[i] == '<' && allow[j] == '>' && NameChars(allow[i + 1..j])
  }

  ghost predicate NamesTag(allow: string) { exists i: nat, j: nat :: NamesAt(allow, i, j) }

  /** The quote that is open behind the tag t, if any. */
  function QuoteOf(t: string): char {
    if t == "" then NUL else
    var q, c := QuoteOf(t[..|t| - 1]), t[|t| - 1];
    if (c == '"' || c == '\'') && (q == NUL || q == c) then (if q != NUL then NUL else c) else q
  }

  lemma {:induction false} QuoteIsQuote(t: string)
    ensures QuoteOf(t) == NUL || QuoteOf(t) == '"' || QuoteOf(t) == '\''
  {
    if t != "" { QuoteIsQuote(t[..|t| - 1]); }
  }

  lemma QuoteNext(t: string, c: char)
    ensures var q := QuoteOf(t);
      QuoteOf(t + [c]) == if (c == '"' || c == '\'') && (q == NUL || q == c) then (if q != NUL then NUL else c) else q
  {
    assert (t + [c])[..|t|] == t;
  }

  /** The first tag of the text, of which t has been read and kept. */
  function InTag(t: string): Strip { Strip(Html, 0, QuoteOf(t), '<', 0, "", t) }

  predicate TagChar(c: char) { c != NUL && c != '<' && c != '>' }

  lemma TagStep(t: string, w: string, before: char, o: Options)
    requires 0 < |t| < |w| && o.allow.Some? && TagChar(w[|t|]) && (w[|t| - 1] == '<' ==> w[|t|] == '/')
    ensures Step(InTag(t), w, |t|, before, o) == InTag(t + [w[|t|]])
  {
    hide AfterDoctyp, AfterXm, QuoteOf;
    QuoteNext(t, w[|t|]);
  }

  lemma FirstLess(w: string, before: char, o: Options)
    requires 2 <= |w| && w[0] == '<' && w[1] == '/' && o.allow.Some?
    ensures Run(w, Text, 1, before, o) == InTag(w[..1])
  {
    assert Run(w, Text, 0, before, o) == Strip(Text, 0, NUL, NUL, 0, "", "");
    QuoteNext("", '<');
    assert w[..1] == ['<'] == [] + ['<'];
  }

  lemma {:induction false} TagRun(w: string, n: nat, before: char, o: Options)
    requires 1 <= n <= |w| && 2 <= |w| && w[0] == '<' && w[1] == '/' && o.allow.Some?
    requires forall i :: 1 <= i < n ==> TagChar(w[i])
    ensures Run(w, Text, n, before, o) == InTag(w[..n])
  {
    hide Step, InTag;
    if n == 1 {
      FirstLess(w, before, o);
    } else {
      TagRun(w, n - 1, before, o);
      TagStep(w[..n - 1], w, before, o);
      assert w[..n] == w[..n - 1] + [w[n - 1]];
    }
  }

  lemma RunNext(w: string, i: nat, before: char, o: Options)
    requires i < |w|
    ensures Run(w, Text, i + 1, before, o) == Step(Run(w, Text, i, before, o), w, i, before, o)
  {
  }

  lemma LessInQuote(s: Strip, w: string, i: nat, before: char, o: Options)
    requires i < |w| && w[i] == '<' && s.inQ != NUL
    ensures Step(s, w, i, before, o) == s
  {
  }

  lemma IntoPhp(s: Strip, w: string, i: nat, before: char, o: Options)
    requires 0 < i < |w| && w[i] == '?' && w[i - 1] == '<' && s.state.Html?
    ensures Step(s, w, i, before, o) == s.(br := 0, state := Php)
  {
  }

  lemma QuoteInPhp(s: Strip, w: string, i: nat, before: char, o: Options)
    requires 0 < i < |w| && (w[i] == '"' || w[i] == '\'') && w[i - 1] == '?' && s.state.Php? && s.inQ == w[i] && s.lc == '<'
    ensures Step(s, w, i, before, o) == s.(lc := w[i], inQ := NUL)
  {
  }

  lemma LetterInPhp(s: Strip, w: string, i: nat, before: char, o: Options)
    requires i < |w| && (w[i] == 'x' || w[i] == 'm') && s.state.Php?
    ensures Step(s, w, i, before, o) == s
  {
  }

  lemma OutOfPhp(s: Strip, w: string, i: nat, before: char, o: Options)
    requires 2 < i < |w| && w[i - 2] == 'x' && w[i - 1] == 'm' && w[i] == 'l' && s.state.Php?
    ensures Step(s, w, i, before, o) == s.(state := Html)
  {
    hide AfterDoctyp;
  }

  /** A stretch that closes the quote q, of which nothing is kept, and the end of the tag. */
  function Dropped(q: char): string { ['<', '?', q, 'x', 'm', 'l', '>'] }

  /** "<?", the quote that is open, "xml": it is closed, and nothing of this is kept. */
  lemma QuoteDropped(t: string, w: string, before: char, o: Options)
    requires 0 < |t| && w == t + Dropped(QuoteOf(t)) && QuoteOf(t) != NUL
    requires Run(w, Text, |t|, before, o) == InTag(t)
    ensures Run(w, Text, |t| + 6, before, o) == InTag(t).(inQ := NUL, lc := QuoteOf(t))
  {
    hide Run, Step, QuoteOf;
    var n, q := |t|, QuoteOf(t);
    QuoteIsQuote(t);
    assert w[n..] == Dropped(q);
    var s := InTag(t);
    RunNext(w, n, before, o);
    LessInQuote(s, w, n, before, o);
    RunNext(w, n + 1, before, o);
    IntoPhp(s, w, n + 1, before, o);
    var php := s.(br := 0, state := Php);
    RunNext(w, n + 2, before, o);
    QuoteInPhp(php, w, n + 2, before, o);
    var open := php.(lc := q, inQ := NUL);
    RunNext(w, n + 3, before, o);
    LetterInPhp(open, w, n + 3, before, o);
    RunNext(w, n + 4, before, o);
    LetterInPhp(open, w, n + 4, before, o);
    RunNext(w, n + 5, before, o);
    OutOfPhp(open, w, n + 5, before, o);
  }

  /** A tag named in the list, with a quote open behind the name. */
  function Quoted(name: string): string {
    var t := "</" + name + "/ ";
    if QuoteOf(t) == NUL then t + "'" else t
  }

  lemma QuotedIsOpen(name: string)
    requires NameChars(name)
    ensures var t := Quoted(name);
      QuoteOf(t) != NUL && |t| >= 2 && t[0] == '<' && t[1] == '/' && forall i :: 1 <= i < |t| ==> TagChar(t[i])
  {
    QuoteNext("</" + name + "/ ", '\'');
  }

  lemma {:induction false} SqueezedName(name: string)
    requires NameChars(name)
    ensures Squeezed(name + "/") == name
  {
    if name == "" {
      assert name + "/" == "/" && "/"[1..] == "";
    } else {
      SqueezedName(name[1..]);
      assert (name + "/")[1..] == name[1..] + "/" && (name + "/")[0] == name[0];
    }
  }

  lemma QuotedIsNamed(name: string)
    requires NameChars(name)
    ensures Normal(Quoted(name) + ">", false) == "<" + name + ">"
  {
    hide QuoteOf, Normal, Squeezed;
    var s, rest := "/" + name + "/", Quoted(name)[|name| + 3..] + ">";
    SlashDropped(name);
    TagNormal("", s, rest);
    assert "<" + "" + s + rest == Quoted(name) + ">";
  }

  lemma SlashDropped(name: string)
    requires NameChars(name)
    ensures Squeezed("/" + name + "/") == name
  {
    SqueezedName(name);
    assert ("/" + name + "/")[1..] == name + "/";
  }

  /** Whatever tag the list names: a quote opened inside "<?xml" is dropped from the tag that is passed on,
      but the one that it closes stays, and a second pass loses the tag in it. */
  lemma AllowedTagIsLostLater(name: string, before: char, after: char, o: Options) returns (w: string)
    requires o.allow.Some? && NameChars(name) && Contains(o.allow.value, "<" + name + ">")
    ensures forall i :: 0 <= i < |w| ==> w[i] != NUL
    ensures var t := Stripped(w, Text, before, o); t == Quoted(name) + ">" && Stripped(t, Text, after, o) == ""
  {
    hide *;
    var t := Quoted(name);
    w := t + Dropped(QuoteOf(t));
    QuotedIsOpen(name);
    assert w[..|t|] == t && forall i :: 0 <= i < |t| ==> w[i] == t[i];
    TagRun(w, |t|, before, o);
    QuoteDropped(t, w, before, o);
    QuotedIsFound(name, o.allow.value);
    ClosesTag(t, w, before, o);
    NoNul(t);
    LostInQuote(t, after, o);
  }

  lemma QuotedIsFound(name: string, allow: string)
    requires NameChars(name) && Contains(allow, "<" + name + ">")
    ensures TagFind(Quoted(name) + ">", allow)
  {
    hide Normal, Contains, QuoteOf, Quoted, NameChars;
    QuotedIsNamed(name);
  }

  lemma NoNul(t: string)
    requires t != "" && t[0] == '<' && (forall i :: 1 <= i < |t| ==> TagChar(t[i])) && QuoteOf(t) != NUL
    ensures var w := t + Dropped(QuoteOf(t)); forall i :: 0 <= i < |w| ==> w[i] != NUL
  {
    hide *;
    TagNoNul(t);
    DroppedNoNul(QuoteOf(t));
  }

  lemma TagNoNul(t: string)
    requires t != "" && t[0] == '<' && forall i :: 1 <= i < |t| ==> TagChar(t[i])
    ensures forall i :: 0 <= i < |t| ==> t[i] != NUL
  {
  }

  lemma DroppedNoNul(q: char)
    requires q != NUL
    ensures forall i :: 0 <= i < |Dropped(q)| ==> Dropped(q)[i] != NUL
  {
  }

  /** Within a quote the '>' does not close the tag. */
  lemma LostInQuote(t: string, before: char, o: Options)
    requires |t| >= 2 && t[0] == '<' && t[1] == '/' && (forall i :: 1 <= i < |t| ==> TagChar(t[i])) && QuoteOf(t) != NUL
    requires o.allow.Some?
    ensures Stripped(t + ">", Text, before, o) == ""
  {
    hide Run, Step, QuoteOf, TagChar;
    var u := t + ">";
    assert u[..|t|] == t && forall i :: 0 <= i < |t| ==> u[i] == t[i];
    TagRun(u, |t|, before, o);
    RunNext(u, |t|, before, o);
    GreaterInQuote(InTag(t), u, |t|, before, o);
  }

  lemma GreaterInQuote(s: Strip, w: string, i: nat, before: char, o: Options)
    requires i < |w| && w[i] == '>' && s.inQ != NUL && s.depth == 0
    ensures Step(s, w, i, before, o) == s
  {
  }

  lemma ClosesTag(t: string, w: string, before: char, o: Options)
    requires w == t + Dropped(QuoteOf(t)) && o.allow.Some? && TagFind(t + ">", o.allow.value)
    requires Run(w, Text, |t| + 6, before, o) == InTag(t).(inQ := NUL, lc := QuoteOf(t))
    ensures Stripped(w, Text, before, o) == t + ">"
  {
    hide TagFind, Run, QuoteOf;
    RunNext(w, |t| + 6, before, o);
    assert "" + (t + ">") == t + ">";
  }

  // ---- lists that name no tag --------------------------------------------------------------------------------------

  /** What is held back begins with '<', as long as a tag is open. */
  predicate Begun(s: Strip) { NUL !in s.tag && (!s.state.Text? ==> s.tag != "" && s.tag[0] == '<') }

  lemma StepBegun(s: Strip, w: string, i: nat, before: char, o: Options)
    requires i < |w| && Begun(s) && Rests(s, o) && o.allow.Some?
    ensures Begun(Step(s, w, i, before, o))
  {
    hide AfterDoctyp, AfterXm, TagFind, IsSpace;
  }

  lemma {:induction false} RunBegun(w: string, n: nat, before: char, o: Options)
    requires n <= |w| && o.allow.Some?
    ensures Begun(Run(w, Text, n, before, o))
  {
    hide Step, Rests;
    if n > 0 {
      RunBegun(w, n - 1, before, o);
      RunRests(w, Text, n - 1, before, o);
      StepBegun(Run(w, Text, n - 1, before, o), w, n - 1, before, o);
    }
  }

  lemma OwnName(name: string)
    requires NameChars(name)
    ensures NamesAt("<" + name + ">", 0, |name| + 1)
  {
    assert ("<" + name + ">")[1..|name| + 1] == name;
  }

  /** What a part of a list names, the list names. */
  lemma PartNames(u: string, i: nat, j: nat, allow: string, k: nat)
    requires NamesAt(u, i, j) && StartsAt(allow, u, k)
    ensures NamesAt(allow, k + i, k + j)
  {
    hide NameChar;
    assert forall x :: 0 <= x < |u| ==> u[x] == allow[k..k + |u|][x] == allow[k + x];
    assert allow[k + i + 1..k + j] == u[i + 1..j];
  }

  lemma MoreName(name: string, c: char)
    requires NameChars(name) && NameChar(ToLower(c))
    ensures NameChars(name + [ToLower(c)])
  {
  }

  /** A normal form names a tag with its last bytes. */
  lemma {:induction false} NormalNames(name: string, s: string, named: bool) returns (i: nat)
    requires NameChars(name) && NUL !in s
    ensures var t := "<" + name + Normal(s, named); NamesAt(t, i, |t| - 1)
    decreases s
  {
    hide NamesAt, NameChars;
    i := 0;
    OwnName(name);
    if s != "" && s[0] != '>' {
      var t := "<" + name + Normal(s, named);
      if s[0] == '<' {
        assert NameChars("") by { NoName(); }
        var k := NormalNames("", s[1..], named);
        var u := "<" + Normal(s[1..], named);
        assert "<" + "" + Normal(s[1..], named) == u && t == ("<" + name) + u;
        assert t[|name| + 1..|name| + 1 + |u|] == u;
        PartNames(u, k, |u| - 1, t, |name| + 1);
        i := |name| + 1 + k;
      } else if IsSpace(s[0]) {
        if !named { i := NormalNames(name, s[1..], named); }
      } else if s[0] == '/' {
        i := NormalNames(name, s[1..], true);
      } else {
        MoreName(name, s[0]);
        i := NormalNames(name + [ToLower(s[0])], s[1..], true);
        assert "<" + name + ([ToLower(s[0])] + Normal(s[1..], true)) == "<" + (name + [ToLower(s[0])]) + Normal(s[1..], true);
      }
    }
  }

  lemma NoName()
    ensures NameChars("")
  {
  }

  /** So a list that names no tag lets no tag of a text through, and one without a '>' lets nothing through. */
  lemma NothingFound(s: Strip, allow: string)
    requires '>' !in allow || (!NamesTag(allow) && s.tag != "" && s.tag[0] == '<' && NUL !in s.tag)
    ensures !TagFind(s.tag + ">", allow)
  {
    hide NamesAt, NameChars;
    var tag := s.tag + ">";
    var n := Normal(tag, false);
    if TagFind(tag, allow) {
      NormalEnds(tag, false);
      LastIsIn(allow, n);
      var i :| 0 <= i <= |allow| && StartsAt(allow, n, i);
      NoName();
      var k := NormalNames("", tag[1..], false);
      assert "<" + "" + Normal(tag[1..], false) == n;
      PartNames(n, k, |n| - 1, allow, i);
    }
  }

  lemma LastIsIn(s: string, t: string)
    requires Contains(s, t) && t != ""
    ensures t[|t| - 1] in s
  {
    var i :| 0 <= i <= |s| && StartsAt(s, t, i);
    assert s[i..i + |t|][|t| - 1] == s[i + |t| - 1];
  }

  lemma {:induction false} NormalEnds(tag: string, named: bool)
    ensures var n := Normal(tag, named); n != "" && n[|n| - 1] == '>'
  {
    if tag != "" {
      NormalEnds(tag[1..], named);
      NormalEnds(tag[1..], true);
    }
  }

  /** The same but for the tag that is held back. */
  predicate SameText(s: Strip, t: Strip) { s.(tag := "") == t.(tag := "") }

  lemma SameGreater(s: Strip, t: Strip, prev: char, prev2: Option<char>, o: Options)
    requires SameText(s, t) && o.allow.Some? && (s.state.Html? ==> !TagFind(s.tag + ">", o.allow.value))
    ensures SameText(OnGreater(s, prev, prev2, o), OnGreater(t, prev, prev2, o.(allow := None)))
  {
    hide TagFind;
  }

  lemma SameQuote(s: Strip, t: Strip, c: char, first: bool, prev: char, o: Options)
    requires SameText(s, t)
    ensures SameText(OnQuote(s, c, first, prev, o), OnQuote(t, c, first, prev, o.(allow := None)))
  {
  }

  lemma SameLetter(s: Strip, t: Strip, w: string, i: nat, prev: char, o: Options)
    requires i < |w| && SameText(s, t)
    ensures SameText(OnLetter(s, w, i, prev, o), OnLetter(t, w, i, prev, o.(allow := None)))
  {
    hide AfterDoctyp, AfterXm;
  }

  lemma SameOther(s: Strip, t: Strip, c: char, prev: char, prev2: Option<char>, o: Options)
    requires SameText(s, t)
    ensures SameText(RegChar(s, c, o), RegChar(t, c, o.(allow := None)))
    ensures SameText(OnLess(s, c, o), OnLess(t, c, o.(allow := None)))
    ensures SameText(OnParen(s, c, o), OnParen(t, c, o.(allow := None)))
    ensures SameText(OnBang(s, prev, o), OnBang(t, prev, o.(allow := None)))
    ensures SameText(OnDash(s, prev, prev2, o), OnDash(t, prev, prev2, o.(allow := None)))
  {
    hide IsSpace;
  }

  lemma SameStep(s: Strip, t: Strip, w: string, i: nat, before: char, o: Options)
    requires i < |w| && SameText(s, t) && o.allow.Some? && (s.state.Html? ==> !TagFind(s.tag + ">", o.allow.value))
    ensures SameText(Step(s, w, i, before, o), Step(t, w, i, before, o.(allow := None)))
  {
    hide SameText, TagFind, RegChar, OnLess, OnParen, OnGreater, OnQuote, OnBang, OnDash, OnLetter;
    var prev, prev2 := Prev(w, i, before), Prev2(w, i);
    SameGreater(s, t, prev, prev2, o);
    SameQuote(s, t, w[i], i == 0, prev, o);
    SameLetter(s, t, w, i, prev, o);
    SameOther(s, t, w[i], prev, prev2, o);
    SameOther(s, t, Next(w, i), prev, prev2, o);
  }

  /** From text a list that names no tag strips like no list; from any other state one without a '>' does. */
  ghost predicate LetsNothing(allow: string, state: Mode) { '>' !in allow || (state.Text? && !NamesTag(allow)) }

  lemma {:induction false} SameRun(w: string, state: Mode, n: nat, before: char, o: Options)
    requires n <= |w| && o.allow.Some? && LetsNothing(o.allow.value, state)
    ensures SameText(Run(w, state, n, before, o), Run(w, state, n, before, o.(allow := None)))
  {
    hide Step, NamesTag, TagFind;
    if n > 0 {
      var s := Run(w, state, n - 1, before, o);
      SameRun(w, state, n - 1, before, o);
      if state.Text? { RunBegun(w, n - 1, before, o); }
      if s.state.Html? { NothingFound(s, o.allow.value); }
      SameStep(s, Run(w, state, n - 1, before, o.(allow := None)), w, n - 1, before, o);
    }
  }

  /** A list that lets no tag through strips like no list, so it is idempotent too. */
  lemma IdempotentIfNothingIsLet(w: string, state: Mode, before: char, after: char, o: Options)
    requires o.allow.Some? && LetsNothing(o.allow.value, state)
    ensures Stripped(w, state, before, o) == Stripped(w, state, before, o.(allow := None))
    ensures var t := Stripped(w, state, before, o); Stripped(t, Text, after, o) == t
  {
    hide Run, NamesTag;
    var t := Stripped(w, state, before, o);
    SameRun(w, state, |w|, before, o);
    SameRun(t, Text, |t|, after, o);
    Idempotent(w, state, before, after, o.(allow := None));
  }

  predicate OnceIsEnough(w: string, before: char, after: char, o: Options) {
    var t := Stripped(w, Text, before, o); Stripped(t, Text, after, o) == t
  }

  /** Stripping with an allow list is idempotent exactly if the list names no tag: no '<' in it is
      followed by a '>' with neither white space nor '/' nor another '<' between them. */
  lemma IdempotentExactly(before: char, after: char, o: Options)
    requires o.allow.Some?
    ensures (forall w :: OnceIsEnough(w, before, after, o)) <==> !NamesTag(o.allow.value)
  {
    var allow := o.allow.value;
    if NamesTag(allow) {
      var i: nat, j: nat :| NamesAt(allow, i, j);
      var name := allow[i + 1..j];
      hide Stripped, Contains, NamesAt, NameChars, Quoted;
      NamedIsContained(allow, i, j);
      var w := AllowedTagIsLostLater(name, before, after, o);
      assert !OnceIsEnough(w, before, after, o);
    } else {
      hide Stripped, NamesTag;
      forall w ensures OnceIsEnough(w, before, after, o) {
        IdempotentIfNothingIsLet(w, Text, before, after, o);
      }
    }
  }

  lemma NamedIsContained(allow: string, i: nat, j: nat)
    requires NamesAt(allow, i, j)
    ensures NameChars(allow[i + 1..j]) && Contains(allow, "<" + allow[i + 1..j] + ">")
  {
    assert allow[i..j + 1] == "<" + allow[i + 1..j] + ">";
    assert StartsAt(allow, "<" + allow[i + 1..j] + ">", i);
  }
}
