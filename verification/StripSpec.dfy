/** The tag stripper of php_strip_tags/php_strip_tags.c as a transducer: one step per byte. */
module StripSpec {
  import opened Basics

  /** The values of `state`: 0 text, 1 HTML, 2 PHP, 3 behind "<!", 4 comment. */
  datatype Mode = Text | Html | Php | Bang | Comment

  const NUL := '\0'

  /** The allow list, lower-cased, and allow_tag_spaces. */
  datatype Options = Options(allow: Option<string>, spaces: bool)

  /** The variables of the loop: `out` is what rp has written, `tag` what tp has. */
  datatype Strip = Strip(state: Mode, depth: nat, inQ: char, lc: char, br: int, out: string, tag: string)

  /** isspace in the C locale. */
  predicate IsSpace(c: char) { c == ' ' || '\t' <= c <= '\r' }

  function ToLower(c: char): char { if 'A' <= c <= 'Z' then (c as int + 32) as char else c }

  // ---- the allow list -----------------------------------------------------------------------------

  predicate StartsAt(s: string, t: string, i: nat) { i + |t| <= |s| && s[i..i + |t|] == t }

  /** strstr. */
  predicate Contains(s: string, t: string) { exists i :: 0 <= i <= |s| && StartsAt(s, t, i) }

  /** The rest of the normal form of a tag: `named` once a byte other than white space was seen. */
  function Normal(tag: string, named: bool): string {
    if tag == "" then ">" else
    var c := ToLower(tag[0]);
    if c == '>' then ">"
    else if c == '<' then [c] + Normal(tag[1..], named)
    else if IsSpace(c) then (if named then ">" else Normal(tag[1..], named))
    else if c == '/' then Normal(tag[1..], true)
    else [c] + Normal(tag[1..], true)
  }

  /** php_tag_find. */
  predicate TagFind(tag: string, allow: string) { tag != "" && Contains(allow, Normal(tag, false)) }

  // ---- one byte -----------------------------------------------------------------------------------

  function Emit(s: Strip, c: char): Strip { s.(out := s.out + [c]) }

  function Keep(s: Strip, c: char, o: Options): Strip { if o.allow.Some? then s.(tag := s.tag + [c]) else s }

  function RegChar(s: Strip, c: char, o: Options): Strip {
    if s.state.Text? then Emit(s, c) else if s.state.Html? then Keep(s, c, o) else s
  }

  function OnLess(s: Strip, next: char, o: Options): Strip {
    if s.inQ != NUL then s
    else if IsSpace(next) && !o.spaces then RegChar(s, '<', o)
    else if s.state.Text? then Keep(s.(lc := '<', state := Html), '<', o)
    else if s.state.Html? then s.(depth := s.depth + 1)
    else s
  }

  function OnParen(s: Strip, c: char, o: Options): Strip {
    if s.state.Php? then
      if s.lc != '"' && s.lc != '\'' then s.(lc := c, br := s.br + if c == '(' then 1 else -1) else s
    else RegChar(s, c, o)
  }

  /** The tag is over: it is passed on if the list allows it. */
  function CloseTag(s: Strip, o: Options): Strip {
    var t := s.(lc := '>', inQ := NUL, state := Text);
    if o.allow.None? then t
    else
      var tag := t.tag + ">";
      t.(out := if TagFind(tag, o.allow.value) then t.out + tag else t.out, tag := "")
  }

  function Leave(s: Strip): Strip { s.(inQ := NUL, state := Text, tag := "") }

  function OnGreater(s: Strip, prev: char, prev2: Option<char>, o: Options): Strip {
    if s.depth > 0 then s.(depth := s.depth - 1)
    else if s.inQ != NUL then s
    else
      match s.state
      case Html => CloseTag(s, o)
      case Php => if s.br == 0 && s.lc != '"' && prev == '?' then Leave(s) else s
      case Bang => Leave(s)
      case Comment => if prev2 == Some('-') && prev == '-' then Leave(s) else s
      case Text => Emit(s, '>')
  }

  function QuoteText(s: Strip, c: char, prev: char, o: Options): Strip {
    if s.state.Php? && prev != '\\' then
      if s.lc == c then s.(lc := NUL) else if s.lc != '\\' then s.(lc := c) else s
    else RegChar(s, c, o)
  }

  function OnQuote(s: Strip, c: char, first: bool, prev: char, o: Options): Strip {
    if s.state.Comment? then s else
    var t := QuoteText(s, c, prev, o);
    if !t.state.Text? && !first && (t.state.Html? || prev != '\\') && (t.inQ == NUL || t.inQ == c)
    then t.(inQ := if t.inQ != NUL then NUL else c) else t
  }

  function OnBang(s: Strip, prev: char, o: Options): Strip {
    if s.state.Html? && prev == '<' then s.(state := Bang, lc := '!') else RegChar(s, '!', o)
  }

  function OnDash(s: Strip, prev: char, prev2: Option<char>, o: Options): Strip {
    if s.state.Bang? && prev2 == Some('!') && prev == '-' then s.(state := Comment) else RegChar(s, '-', o)
  }

  /** The six bytes before position i are "doctyp" in some case, and not the very first ones. */
  predicate AfterDoctyp(w: string, i: nat)
    requires i <= |w|
  {
    && i > 6 && ToLower(w[i - 1]) == 'p' && ToLower(w[i - 2]) == 'y' && ToLower(w[i - 3]) == 't'
    && ToLower(w[i - 4]) == 'c' && ToLower(w[i - 5]) == 'o' && ToLower(w[i - 6]) == 'd'
  }

  predicate AfterXm(w: string, i: nat)
    requires i <= |w|
  {
    i > 2 && ToLower(w[i - 2]) == 'x' && ToLower(w[i - 1]) == 'm'
  }

  /** '?', 'e' and 'l' share one fall-through chain, so each may do what the ones below it do. */
  function OnLetter(s: Strip, w: string, i: nat, prev: char, o: Options): Strip
    requires i < |w|
  {
    var c := w[i];
    if c == '?' && s.state.Html? && prev == '<' then s.(br := 0, state := Php)
    else if c != 'l' && c != 'L' && s.state.Bang? && AfterDoctyp(w, i) then s.(state := Html)
    else if s.state.Php? && AfterXm(w, i) then s.(state := Html)
    else RegChar(s, c, o)
  }

  /** The byte before position i; `before` is what memory holds in front of the text. */
  function Prev(w: string, i: nat, before: char): char
    requires i <= |w|
  {
    if i > 0 then w[i - 1] else before
  }

  function Prev2(w: string, i: nat): Option<char>
    requires i <= |w|
  {
    if i >= 2 then Some(w[i - 2]) else None
  }

  /** The byte behind position i; the copy of the text ends with a NUL. */
  function Next(w: string, i: nat): char
    requires i < |w|
  {
    if i + 1 < |w| then w[i + 1] else NUL
  }

  /** The switch on byte i. */
  function Step(s: Strip, w: string, i: nat, before: char, o: Options): Strip
    requires i < |w|
  {
    var prev := Prev(w, i, before);
    match w[i]
    case '\0' => s
    case '<' => OnLess(s, Next(w, i), o)
    case '(' => OnParen(s, '(', o)
    case ')' => OnParen(s, ')', o)
    case '>' => OnGreater(s, prev, Prev2(w, i), o)
    case '"' => OnQuote(s, '"', i == 0, prev, o)
    case '\'' => OnQuote(s, '\'', i == 0, prev, o)
    case '!' => OnBang(s, prev, o)
    case '-' => OnDash(s, prev, Prev2(w, i), o)
    case '?' => OnLetter(s, w, i, prev, o)
    case 'E' => OnLetter(s, w, i, prev, o)
    case 'e' => OnLetter(s, w, i, prev, o)
    case 'l' => OnLetter(s, w, i, prev, o)
    case 'L' => OnLetter(s, w, i, prev, o)
    case _ => RegChar(s, w[i], o)
  }

  function Run(w: string, state: Mode, n: nat, before: char, o: Options): Strip
    requires n <= |w|
  {
    if n == 0 then Strip(state, 0, NUL, NUL, 0, "", "") else Step(Run(w, state, n - 1, before, o), w, n - 1, before, o)
  }

  /** The text that is left. */
  function Stripped(w: string, state: Mode, before: char, o: Options): string { Run(w, state, |w|, before, o).out }
}
