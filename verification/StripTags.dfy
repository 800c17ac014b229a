/** php_strip_tags_ex and php_tag_find as they run: in place over the caller's buffer, with a tag
    buffer that grows. Every write is shown to be inside its buffer, and the result is the one of
    the transducer. */
module StripTags {
  import opened Basics
  import opened StripSpec
  import opened StripProps

  const TAG_BUF_SIZE := 1023

  // ---- php_tag_find ---------------------------------------------------------------------------------------

  /** The byte ends the normal form. */
  predicate Ends(c: char, named: bool) { c == '>' || (IsSpace(c) && named) }

  /** What a lower-cased byte adds to the normal form. */
  function Written(c: char): string { if c == '/' || IsSpace(c) then "" else [c] }

  lemma NormalStep(tag: string, t: nat, named: bool)
    requires t < |tag|
    ensures var c := ToLower(tag[t]);
      Normal(tag[t..], named) ==
      if Ends(c, named) then ">" else Written(c) + Normal(tag[t + 1..], named || (c != '<' && !IsSpace(c)))
  {
    assert tag[t..][1..] == tag[t + 1..];
  }

  /** *(p++) = c. */
  method Store(a: array<char>, n: nat, c: char) returns (m: nat)
    requires n < a.Length
    modifies a
    ensures m == n + 1 && a[..m] == old(a[..n]) + [c]
    ensures forall i :: 0 <= i < a.Length && i != n ==> a[i] == old(a[i])
  {
    a[n] := c;
    m := n + 1;
  }

  lemma MoveOver(a: string, b: string, c: string)
    ensures a + (b + c) == (a + b) + c
  {
  }

  /** The switch of php_tag_find. */
  method NormByte(norm: array<char>, n: nat, c: char, named: bool) returns (m: nat, named': bool, done: bool)
    requires n < norm.Length
    modifies norm
    ensures n <= m <= n + 1 && done == Ends(c, named) && named' == (named || (c != '<' && c != '>' && !IsSpace(c)))
    ensures norm[..m] == old(norm[..n]) + if done then "" else Written(c)
  {
    m, named', done := n, named, false;
    match c
    case '<' => m := Store(norm, n, c);
    case '>' => done := true;
    case _ =>
      if !IsSpace(c) {
        named' := true;
        if c != '/' { m := Store(norm, n, c); }
      } else if named {
        done := true;
      }
  }

  /** The normal form is built in norm[..n] while t runs over the tag; both stay inside. */
  method PhpTagFind(tag: array<char>, len: nat, allow: string) returns (found: bool)
    requires len < tag.Length && (len > 0 ==> tag[len - 1] == '>')
    ensures found == TagFind(tag[..len], allow)
  {
    hide Normal, Contains, IsSpace, ToLower, Written;
    if len == 0 { return false; }
    ghost var text := tag[..len];
    ghost var full := Normal(text, false);
    assert text[0..] == text;
    var norm := new char[len + 1];
    var n, t, named, done := 0, 0, false, false;
    var c := ToLower(tag[t]);
    LastEnds(text);
    while !done
      invariant n <= t && (if done then n < t <= len else t < len)
      invariant !done ==> c == ToLower(text[t]) && full == norm[..n] + Normal(text[t..], named)
      invariant done ==> full == norm[..n] + ">"
      decreases len - t, !done
    {
      NormalStep(text, t, named);
      ghost var was := norm[..n];
      MoveOver(was, Written(c), Normal(text[t + 1..], named || (c != '<' && !IsSpace(c))));
      n, named, done := NormByte(norm, n, c, named);
      t := t + 1;
      c := ToLower(tag[t]);
    }
    n := Store(norm, n, '>');
    var end := Store(norm, n, NUL);
    assert norm[..n] == norm[..end][..n] == full;
    found := Contains(allow, norm[..n]);
  }

  lemma LastEnds(tag: string)
    requires tag != "" && tag[|tag| - 1] == '>'
    ensures Ends(ToLower(tag[|tag| - 1]), true) && Ends(ToLower(tag[|tag| - 1]), false)
  {
  }

  // ---- php_strip_tags_ex ------------------------------------------------------------------------------------

  /** The variables of one call. */
  class Stripper {
    const buf: string
    const before: char
    const o: Options
    const rbuf: array<char>
    var rp: nat
    var tbuf: array<char>
    var tp: nat
    var state: Mode
    var depth: nat
    var inQ: char
    var lc: char
    var br: int

    /** Room for what is written now; the tag buffer always has room for a byte and a NUL. */
    ghost predicate Valid()
      reads this
    {
      && rbuf != tbuf && |buf| <= rbuf.Length && rp <= |buf| && tp < tbuf.Length
      && (o.allow.Some? ==> TAG_BUF_SIZE < tbuf.Length) && (o.allow.None? ==> tp == 0)
    }

    ghost function Now(): Strip
      requires Valid()
      reads this, rbuf, tbuf
    {
      Strip(state, depth, inQ, lc, br, rbuf[..rp], tbuf[..tp])
    }

    /** What lies behind the text in the caller's buffer. */
    ghost function Tail(): string
      requires Valid()
      reads this, rbuf
    {
      rbuf[|buf|..]
    }

    constructor (rbuf: array<char>, len: nat, state: Mode, before: char, o: Options)
      requires len <= rbuf.Length
      ensures Valid() && Now() == Strip(state, 0, NUL, NUL, 0, "", "") && fresh(tbuf)
      ensures this.rbuf == rbuf && buf == rbuf[..len] && this.before == before && this.o == o
    {
      this.rbuf, this.before, this.o := rbuf, before, o;
      buf := rbuf[..len];
      rp, tp := 0, 0;
      tbuf := new char[if o.allow.Some? then TAG_BUF_SIZE + 1 else 1];
      this.state, depth, inQ, lc, br := state, 0, NUL, NUL, 0;
    }

    method Emit(c: char)
      requires Valid() && rp < |buf|
      modifies this`rp, rbuf
      ensures Valid() && Tail() == old(Tail()) && Now() == StripSpec.Emit(old(Now()), c)
    {
      rp := Store(rbuf, rp, c);
    }

    /** Every byte that goes to the tag buffer: the buffer grows first if it is full. */
    method PutTag(c: char)
      requires Valid() && o.allow.Some?
      modifies this`tp, this`tbuf, tbuf
      ensures Valid() && Tail() == old(Tail()) && Now() == old(Now()).(tag := old(Now().tag) + [c])
      ensures tbuf == old(tbuf) || fresh(tbuf)
    {
      if tp >= TAG_BUF_SIZE {
        var grown := new char[tp + TAG_BUF_SIZE + 1];
        forall i | 0 <= i < tp { grown[i] := tbuf[i]; }
        assert grown[..tp] == tbuf[..tp];
        tbuf := grown;
      }
      tp := Store(tbuf, tp, c);
    }

    method Keep(c: char)
      requires Valid()
      modifies this`tp, this`tbuf, tbuf
      ensures Valid() && Tail() == old(Tail()) && Now() == StripSpec.Keep(old(Now()), c, o)
      ensures tbuf == old(tbuf) || fresh(tbuf)
    {
      if o.allow.Some? { PutTag(c); }
    }

    method RegChar(c: char)
      requires Valid() && rp < |buf|
      modifies this, rbuf, tbuf
      ensures Valid() && Tail() == old(Tail()) && Now() == StripSpec.RegChar(old(Now()), c, o)
      ensures tbuf == old(tbuf) || fresh(tbuf)
    {
      if state.Text? { Emit(c); } else if state.Html? { Keep(c); }
    }

    method OnLess(next: char)
      requires Valid() && rp < |buf|
      modifies this, rbuf, tbuf
      ensures Valid() && Tail() == old(Tail()) && Now() == StripSpec.OnLess(old(Now()), next, o)
      ensures tbuf == old(tbuf) || fresh(tbuf)
    {
      if inQ != NUL { return; }
      if IsSpace(next) && !o.spaces {
        RegChar('<');
      } else if state.Text? {
        lc := '<';
        state := Html;
        Keep('<');
      } else if state.Html? {
        depth := depth + 1;
      }
    }

    method OnParen(c: char)
      requires Valid() && rp < |buf|
      modifies this, rbuf, tbuf
      ensures Valid() && Tail() == old(Tail()) && Now() == StripSpec.OnParen(old(Now()), c, o)
      ensures tbuf == old(tbuf) || fresh(tbuf)
    {
      if state.Php? {
        if lc != '"' && lc != '\'' {
          lc := c;
          br := br + if c == '(' then 1 else -1;
        }
      } else {
        RegChar(c);
      }
    }

    /** memcpy(rp, tbuf, tp - tbuf). */
    method CopyTag()
      requires Valid() && rp + tp <= |buf|
      modifies this`rp, rbuf
      ensures Valid() && Tail() == old(Tail()) && Now() == old(Now()).(out := old(Now().out) + old(Now().tag))
    {
      ghost var out, tail := rbuf[..rp], rbuf[|buf|..];
      forall i | 0 <= i < tp { rbuf[rp + i] := tbuf[i]; }
      assert rbuf[..rp + tp] == out + tbuf[..tp] && rbuf[|buf|..] == tail;
      rp := rp + tp;
    }

    /** The NUL behind the tag. */
    method EndTag()
      requires Valid()
      modifies tbuf
      ensures Valid() && Tail() == old(Tail()) && Now() == old(Now())
    {
      tbuf[tp] := NUL;
    }

    method CloseTag()
      requires Valid() && rp + tp < |buf|
      modifies this, rbuf, tbuf
      ensures Valid() && Tail() == old(Tail()) && Now() == StripSpec.CloseTag(old(Now()), o)
      ensures tbuf == old(tbuf) || fresh(tbuf)
    {
      lc := '>';
      inQ, state := NUL, Text;
      if o.allow.Some? {
        PutTag('>');
        EndTag();
        var found := PhpTagFind(tbuf, tp, o.allow.value);
        if found { CopyTag(); }
        tp := 0;
      }
    }

    method Leave()
      requires Valid()
      modifies this`inQ, this`state, this`tp
      ensures Valid() && Tail() == old(Tail()) && Now() == StripSpec.Leave(old(Now()))
    {
      inQ, state := NUL, Text;
      tp := 0;
    }

    method OnGreater(prev: char, prev2: Option<char>)
      requires Valid() && rp + tp < |buf|
      modifies this, rbuf, tbuf
      ensures Valid() && Tail() == old(Tail()) && Now() == StripSpec.OnGreater(old(Now()), prev, prev2, o)
      ensures tbuf == old(tbuf) || fresh(tbuf)
    {
      if depth > 0 {
        depth := depth - 1;
        return;
      }
      if inQ != NUL { return; }
      match state
      case Html => CloseTag();
      case Php => if br == 0 && lc != '"' && prev == '?' { Leave(); }
      case Bang => Leave();
      case Comment => if prev2 == Some('-') && prev == '-' { Leave(); }
      case Text => Emit('>');
    }

    method OnQuote(c: char, first: bool, prev: char)
      requires Valid() && rp < |buf|
      modifies this, rbuf, tbuf
      ensures Valid() && Tail() == old(Tail()) && Now() == StripSpec.OnQuote(old(Now()), c, first, prev, o)
      ensures tbuf == old(tbuf) || fresh(tbuf)
    {
      if state.Comment? { return; }
      if state.Php? && prev != '\\' {
        if lc == c { lc := NUL; } else if lc != '\\' { lc := c; }
      } else {
        RegChar(c);
      }
      if !state.Text? && !first && (state.Html? || prev != '\\') && (inQ == NUL || inQ == c) {
        inQ := if inQ != NUL then NUL else c;
      }
    }

    method OnBang(prev: char)
      requires Valid() && rp < |buf|
      modifies this, rbuf, tbuf
      ensures Valid() && Tail() == old(Tail()) && Now() == StripSpec.OnBang(old(Now()), prev, o)
      ensures tbuf == old(tbuf) || fresh(tbuf)
    {
      if state.Html? && prev == '<' {
        state, lc := Bang, '!';
      } else {
        RegChar('!');
      }
    }

    method OnDash(prev: char, prev2: Option<char>)
      requires Valid() && rp < |buf|
      modifies this, rbuf, tbuf
      ensures Valid() && Tail() == old(Tail()) && Now() == StripSpec.OnDash(old(Now()), prev, prev2, o)
      ensures tbuf == old(tbuf) || fresh(tbuf)
    {
      if state.Bang? && prev2 == Some('!') && prev == '-' { state := Comment; } else { RegChar('-'); }
    }

    method OnLetter(i: nat, prev: char)
      requires Valid() && rp < |buf| && i < |buf|
      modifies this, rbuf, tbuf
      ensures Valid() && Tail() == old(Tail()) && Now() == StripSpec.OnLetter(old(Now()), buf, i, prev, o)
      ensures tbuf == old(tbuf) || fresh(tbuf)
    {
      var c := buf[i];
      if c == '?' && state.Html? && prev == '<' {
        br, state := 0, Php;
      } else if c != 'l' && c != 'L' && state.Bang? && AfterDoctyp(buf, i) {
        state := Html;
      } else if state.Php? && AfterXm(buf, i) {
        state := Html;
      } else {
        RegChar(c);
      }
    }

    /** The switch on byte i. */
    method OneByte(i: nat)
      requires Valid() && rp + tp <= i < |buf|
      modifies this, rbuf, tbuf
      ensures Valid() && Tail() == old(Tail()) && Now() == Step(old(Now()), buf, i, before, o)
      ensures tbuf == old(tbuf) || fresh(tbuf)
    {
      var c, prev := buf[i], Prev(buf, i, before);
      hide StripSpec.RegChar, StripSpec.OnLess, StripSpec.OnParen, StripSpec.OnGreater, StripSpec.OnQuote,
        StripSpec.OnBang, StripSpec.OnDash, StripSpec.OnLetter, Now;
      match c
      case '\0' =>
      case '<' => OnLess(Next(buf, i));
      case '(' => OnParen(c);
      case ')' => OnParen(c);
      case '>' => OnGreater(prev, Prev2(buf, i));
      case '"' => OnQuote(c, i == 0, prev);
      case '\'' => OnQuote(c, i == 0, prev);
      case '!' => OnBang(prev);
      case '-' => OnDash(prev, Prev2(buf, i));
      case '?' => OnLetter(i, prev);
      case 'E' => OnLetter(i, prev);
      case 'e' => OnLetter(i, prev);
      case 'l' => OnLetter(i, prev);
      case 'L' => OnLetter(i, prev);
      case _ => RegChar(c);
    }

    /** The loop. */
    method AllBytes()
      requires Valid() && Now() == Strip(state, 0, NUL, NUL, 0, "", "")
      modifies this, rbuf, tbuf
      ensures Valid() && Tail() == old(Tail()) && Now() == Run(buf, old(state), |buf|, before, o)
    {
      var i := 0;
      ghost var first, tag, tail := state, tbuf, Tail();
      hide Step;
      while i < |buf|
        invariant i <= |buf| && Valid() && Now() == Run(buf, first, i, before, o)
        invariant (tbuf == tag || fresh(tbuf)) && Tail() == tail
      {
        OutputIsSub(buf, first, i, before, o);
        OneByte(i);
        i := i + 1;
      }
    }
  }

  predicate NulFree(s: string) { forall i :: 0 <= i < |s| ==> s[i] != NUL }

  /** php_strip_tags_ex on the first len bytes of rbuf, which hold no NUL. The result is written over
      the text, and a NUL behind it if it is shorter. */
  method StripTagsEx(rbuf: array<char>, len: nat, state: Mode, allow: Option<string>, spaces: bool, before: char)
    returns (n: nat, state': Mode)
    requires len <= rbuf.Length && NulFree(rbuf[..len])
    modifies rbuf
    ensures var o := Options(if allow.Some? then Some(LowerAll(allow.value)) else None, spaces);
      var s := Run(old(rbuf[..len]), state, len, before, o);
      && n <= len && rbuf[..n] == s.out && state' == s.state && (n < len ==> rbuf[n] == NUL)
      && rbuf[len..] == old(rbuf[len..])
  {
    var o := Options(if allow.Some? then Some(LowerAll(allow.value)) else None, spaces);
    var p := new Stripper(rbuf, len, state, before, o);
    p.AllBytes();
    OutputIsSub(p.buf, state, len, before, o);
    n, state' := p.rp, p.state;
    if n < len { rbuf[n] := NUL; }
  }

  /** php_strtolower. */
  function LowerAll(s: string): string { seq(|s|, i requires 0 <= i < |s| => ToLower(s[i])) }
}
