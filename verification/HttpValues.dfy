/** The values of Transfer-Encoding and Connection headers: which flags a header line sets. */
module HttpValues {
  import opened Basics
  import opened HttpBase
  import opened HttpMachine
  import opened HttpRun
  import opened HttpSteps

  // ---- the nested machine on its own ------------------------------------------------------------------------

  /** header_state, index and flags inside a value. */
  datatype Val = Val(h: HeaderState, i: nat, f: Flags)

  /** One more byte of a value that is not a length. */
  function NextVal(x: Val, c: char): Val {
    if x.h.General? then x else
    var f := if c == ',' && !x.h.Chunked? then FinishFlags(x.h, x.f) else x.f;
    var (h, i) := ValueState(x.h, x.i, c);
    Val(h, i, f)
  }

  function ReadVal(x: Val, s: string): Val {
    if s == "" then x else NextVal(ReadVal(x, s[..|s| - 1]), s[|s| - 1])
  }

  lemma ReadNext(x: Val, s: string, c: char)
    ensures ReadVal(x, s + [c]) == NextVal(ReadVal(x, s), c)
  {
    assert (s + [c])[..|s|] == s;
  }

  lemma {:induction false} ReadConcat(x: Val, a: string, b: string)
    ensures ReadVal(x, a + b) == ReadVal(ReadVal(x, a), b)
    decreases |b|
  {
    if b == "" {
      assert a + b == a;
    } else {
      ReadConcat(x, a, b[..|b| - 1]);
      assert (a + b)[..|a + b| - 1] == a + b[..|b| - 1];
    }
  }

  function LowerText(s: string): string { seq(|s|, i requires 0 <= i < |s| => Lower(s[i])) }

  /** The state behind the first byte of a Connection value. */
  function Opening(c: char): HeaderState {
    match Initial(c)
    case Some(d) => Matching(d)
    case None => ConnToken
  }

  // ---- words ----------------------------------------------------------------------------------------------

  /** The states that stand for a word that was read, and the words. */
  predicate Done(d: HeaderState) { d == KeepAlive || d == Close || d == ConnUpgrade }

  function Word(d: HeaderState): string {
    if d == Chunked then CHUNKED else if d == KeepAlive then KEEP_ALIVE else if d == Close then CLOSE else UPGRADE
  }

  function Matching(d: HeaderState): HeaderState {
    if d == Chunked then MatchingChunked
    else if d == KeepAlive then MatchingKeepAlive else if d == Close then MatchingClose else MatchingConnUpgrade
  }

  /** What a text that is not the word leads to. */
  function Lost(d: HeaderState): HeaderState { if d == Chunked then General else ConnToken }

  function Initial(c: char): Option<HeaderState> {
    var l := Lower(c);
    if l == 'k' then Some(KeepAlive) else if l == 'c' then Some(Close) else if l == 'u' then Some(ConnUpgrade) else None
  }

  /** The text is the beginning of the word, but not all of it. */
  predicate BeginsWord(t: string, d: HeaderState) {
    0 < |t| < |Word(d)| && LowerText(t) == Word(d)[..|t|]
  }

  /** The text is the word in letters of any case, perhaps with spaces behind it. */
  predicate IsWord(t: string, d: HeaderState) {
    |t| >= |Word(d)| && LowerText(t[..|Word(d)|]) == Word(d) && forall i :: |Word(d)| <= i < |t| ==> t[i] == ' '
  }

  function WordState(t: string, d: HeaderState): HeaderState {
    if BeginsWord(t, d) then Matching(d) else if IsWord(t, d) then d else Lost(d)
  }

  lemma LowerNext(s: string, c: char)
    ensures LowerText(s + [c]) == LowerText(s) + [Lower(c)]
  {
  }

  lemma BeginsNext(s: string, c: char, d: HeaderState)
    requires s != ""
    ensures BeginsWord(s + [c], d) <==> BeginsWord(s, d) && |s| + 1 < |Word(d)| && Lower(c) == Word(d)[|s|]
  {
    hide Word, Lower;
    LowerNext(s, c);
    var w := Word(d);
    if |s| + 1 < |w| {
      assert w[..|s| + 1] == w[..|s|] + [w[|s|]];
      assert (LowerText(s) + [Lower(c)])[..|s|] == LowerText(s);
      assert w[..|s| + 1][..|s|] == w[..|s|];
      assert (LowerText(s) + [Lower(c)])[|s|] == Lower(c);
    }
  }

  lemma IsNext(s: string, c: char, d: HeaderState)
    requires s != ""
    ensures IsWord(s + [c], d) <==>
      (BeginsWord(s, d) && |s| + 1 == |Word(d)| && Lower(c) == Word(d)[|s|]) || (IsWord(s, d) && c == ' ')
  {
    hide Word, Lower;
    LowerNext(s, c);
    var w, t := Word(d), s + [c];
    if |t| == |w| {
      assert w == w[..|s|] + [w[|s|]] && t[..|w|] == t;
      assert (LowerText(s) + [Lower(c)])[..|s|] == LowerText(s) && (LowerText(s) + [Lower(c)])[|s|] == Lower(c);
    } else if |t| > |w| {
      assert t[..|w|] == s[..|w|];
      assert t[|s|] == c && forall i :: 0 <= i < |s| ==> t[i] == s[i];
    }
  }

  lemma WordSize(d: HeaderState)
    ensures 5 <= |Word(d)| <= 10
  {
  }

  /** One byte while a word is matched. */
  lemma MatchingStep(x: Val, s: string, c: char, d: HeaderState)
    requires BeginsWord(s, d) && (Done(d) || d == Chunked) && x.h == Matching(d) && x.i == |s| - 1 && (c != ',' || d == Chunked)
    ensures var y := NextVal(x, c);
      && y.f == x.f && y.i == |s|
      && y.h == (if Lower(c) != Word(d)[|s|] then Lost(d) else if |s| + 1 == |Word(d)| then d else Matching(d))
  {
    hide Lower, LowerText;
    WordSize(d);
  }

  lemma DoneStep(x: Val, c: char, d: HeaderState)
    requires x.h == d && (Done(d) || d == Chunked) && (c != ',' || d == Chunked)
    ensures NextVal(x, c).f == x.f && NextVal(x, c).h == if c == ' ' then d else Lost(d)
  {
  }

  lemma LostStep(x: Val, c: char, d: HeaderState)
    requires x.h == Lost(d) && (c != ',' || d == Chunked)
    ensures NextVal(x, c).f == x.f && NextVal(x, c).h == x.h
  {
  }

  /** A text from its first byte on: what it leads to, and that it sets no flag. */
  lemma {:induction false} WordRead(t: string, d: HeaderState, f: Flags)
    requires t != "" && (Done(d) || d == Chunked) && Lower(t[0]) == Word(d)[0] && (',' !in t || d == Chunked)
    ensures var x := ReadVal(Val(Matching(d), 0, f), t[1..]);
      x.h == WordState(t, d) && x.f == f && (BeginsWord(t, d) ==> x.i == |t| - 1)
    decreases |t|
  {
    hide NextVal, Lower;
    if |t| == 1 {
      OneLetter(t, d);
    } else {
      var s, c := t[..|t| - 1], t[|t| - 1];
      assert t == s + [c] && t[1..] == s[1..] + [c];
      WordRead(s, d, f);
      var x := ReadVal(Val(Matching(d), 0, f), s[1..]);
      ReadNext(Val(Matching(d), 0, f), s[1..], c);
      BeginsNext(s, c, d);
      IsNext(s, c, d);
      WordOr(s, d);
      hide BeginsWord, IsWord, Word, Matching, Lost;
      if BeginsWord(s, d) {
        MatchingStep(x, s, c, d);
      } else if IsWord(s, d) {
        DoneStep(x, c, d);
      } else {
        LostStep(x, c, d);
      }
    }
  }

  lemma OneLetter(t: string, d: HeaderState)
    requires |t| == 1 && Lower(t[0]) == Word(d)[0]
    ensures BeginsWord(t, d)
  {
    hide Lower;
    assert LowerText(t) == [Lower(t[0])];
    WordSize(d);
  }

  lemma WordOr(s: string, d: HeaderState)
    ensures !(BeginsWord(s, d) && IsWord(s, d))
  {
    hide LowerText, Word;
  }

  // ---- the items of a Connection value ---------------------------------------------------------------------

  function Split(v: string): (items: seq<string>)
    ensures |items| > 0
    decreases |v|
  {
    var k := CommaAt(v);
    if k == |v| then [v] else [v[..k]] + Split(v[k + 1..])
  }

  function CommaAt(v: string): (k: nat)
    ensures k <= |v| && (k < |v| ==> v[k] == ',') && ',' !in v[..k]
    decreases |v|
  {
    if v == "" || v[0] == ',' then 0 else
    var k := CommaAt(v[1..]);
    assert v[..k + 1] == [v[0]] + v[1..][..k];
    k + 1
  }

  predicate Skipped(c: char) { Lower(c) == ' ' || Lower(c) == '\t' }

  /** An item without the spaces in front of it. */
  function Trimmed(t: string): (u: string)
    ensures u == "" || !Skipped(u[0])
    ensures ',' !in t ==> ',' !in u
  {
    if t != "" && Skipped(t[0]) then Trimmed(t[1..]) else t
  }

  /** What the code makes of an item. Half: the beginning of a word, which takes the comma for its next
      letter. Odd: nothing, or something that is no token; the rest of the value is not looked at. */
  datatype Fate = Named(d: HeaderState) | Half | Odd | Other

  function WordFate(t: string, d: HeaderState): Fate {
    if BeginsWord(t, d) then Half else if IsWord(t, d) then Named(d) else Other
  }

  /** The first item of a value has no spaces in front of it and need not begin like a token. */
  function FateOf(item: string, first: bool): Fate {
    var t := if first then item else Trimmed(item);
    if t == "" then (if first then Half else Odd)
    else match Initial(t[0])
      case Some(d) => WordFate(t, d)
      case None => if first || IsToken(Lower(t[0])) then Other else Odd
  }

  /** The flags that a Connection value sets. */
  function Effect(f: Flags, items: seq<string>, first: bool): Flags
    decreases |items|
  {
    if items == [] then f
    else match FateOf(items[0], first)
      case Named(d) => Effect(FinishFlags(d, f), items[1..], false)
      case Half => if |items| == 1 then f else Effect(f, items[2..], false)
      case Odd => f
      case Other => Effect(f, items[1..], false)
  }

  /** The state that an item leaves behind. */
  function FateState(item: string, first: bool): HeaderState {
    var t := if first then item else Trimmed(item);
    if t == "" then TokenStart
    else match Initial(t[0])
      case Some(d) => WordState(t, d)
      case None => if first || IsToken(Lower(t[0])) then ConnToken else General
  }

  lemma InitialIs(c: char)
    ensures match Initial(c) case None => true case Some(d) => Done(d) && Lower(c) == Word(d)[0] && !Skipped(c)
  {
    hide Lower;
  }

  lemma InitialNext(c: char, f: Flags)
    requires c != ','
    ensures NextVal(Val(TokenStart, 0, f), c) ==
      if Skipped(c) then Val(TokenStart, 0, f)
      else Val(match Initial(c) case Some(d) => Matching(d)
                                case None => if IsToken(Lower(c)) then ConnToken else General, 0, f)
  {
    hide Lower, IsToken;
    BlankIsNoToken();
  }

  lemma BlankIsNoToken()
    ensures !IsToken(' ') && !IsToken('\t') && !IsToken(',')
  {
  }

  lemma {:induction false} OtherStays(x: Val, s: string)
    requires (x.h == ConnToken && ',' !in s) || x.h == General
    ensures ReadVal(x, s).h == x.h && ReadVal(x, s).f == x.f
  {
    if s != "" { OtherStays(x, s[..|s| - 1]); }
  }

  lemma ReadFirst(x: Val, t: string)
    requires t != ""
    ensures ReadVal(x, t) == ReadVal(NextVal(x, t[0]), t[1..])
  {
    hide NextVal;
    assert t == [t[0]] + t[1..];
    ReadConcat(x, [t[0]], t[1..]);
    assert [t[0]][..0] == "" && ReadVal(x, [t[0]]) == NextVal(ReadVal(x, ""), t[0]);
  }

  /** An item without its comma, from the start of a token. */
  lemma {:induction false} ItemRead(t: string, f: Flags)
    requires ',' !in t
    ensures var x := ReadVal(Val(TokenStart, 0, f), t);
      && x.f == f && x.h == FateState(t, false)
      && (x.h == TokenStart ==> x.i == 0)
      && (FateOf(t, false).Half? ==> x.i == |Trimmed(t)| - 1)
    decreases |t|
  {
    hide NextVal, Lower, IsToken, Skipped, BeginsWord, IsWord, Matching, Initial, Word, Done, Lost;
    var x := Val(TokenStart, 0, f);
    if t != "" {
      ReadFirst(x, t);
      InitialNext(t[0], f);
      InitialIs(t[0]);
      if Skipped(t[0]) {
        ItemRead(t[1..], f);
      } else if Initial(t[0]).Some? {
        WordStart(t, Initial(t[0]).value, f);
      } else {
        OtherStays(NextVal(x, t[0]), t[1..]);
      }
    }
  }

  /** A word, and what the code makes of it as an item. */
  lemma WordStart(t: string, d: HeaderState, f: Flags)
    requires t != "" && Done(d) && Initial(t[0]) == Some(d) && ',' !in t
    ensures var x := ReadVal(Val(Matching(d), 0, f), t[1..]);
      && x.f == f && x.h == WordState(t, d) && x.h != TokenStart
      && (WordFate(t, d).Half? ==> x.i == |t| - 1)
  {
    hide NextVal, Lower, BeginsWord, IsWord, Word, Initial;
    InitialIs(t[0]);
    WordRead(t, d, f);
  }

  /** The comma behind an item. */
  lemma CommaRead(t: string, first: bool, x: Val)
    requires x.h == FateState(t, first) && (FateOf(t, first).Half? && t != "" ==> x.i + 1 == |if first then t else Trimmed(t)|)
    requires first ==> t != ""
    ensures var y := NextVal(x, ',');
      match FateOf(t, first)
      case Named(d) => y == Val(TokenStart, 0, FinishFlags(d, x.f))
      case Half => y.h == ConnToken && y.f == x.f
      case Odd => y.h == General && y.f == x.f
      case Other => y == Val(TokenStart, 0, x.f)
  {
    hide Lower, IsToken, BeginsWord, IsWord, Word, LowerText;
    var u := if first then t else Trimmed(t);
    CommaIsNoLetter();
    if u != "" {
      InitialIs(u[0]);
      if Initial(u[0]).Some? { CommaInWord(u, Initial(u[0]).value, x); }
    }
  }

  lemma CommaIsNoLetter()
    ensures Lower(',') == ',' && !IsToken(',') && !Skipped(',')
  {
  }

  lemma CommaInWord(u: string, d: HeaderState, x: Val)
    requires Done(d) && x.h == WordState(u, d) && (BeginsWord(u, d) ==> x.i + 1 == |u|)
    ensures var y := NextVal(x, ',');
      match WordFate(u, d)
      case Named(e) => e == d && y == Val(TokenStart, 0, FinishFlags(d, x.f))
      case Half => y.h == ConnToken && y.f == x.f
      case _ => y == Val(TokenStart, 0, x.f)
  {
    hide IsWord, LowerText, IsToken;
    WordSize(d);
    NoComma(d);
  }

  lemma NoComma(d: HeaderState)
    ensures ',' !in Word(d) && '\0' !in Word(d)
  {
  }

  lemma LastItem(t: string, first: bool, f: Flags)
    ensures FinishFlags(FateState(t, first), f) == Effect(f, [t], first)
  {
    hide Lower, IsToken, BeginsWord, IsWord, LowerText;
    var u := if first then t else Trimmed(t);
    if u != "" { InitialIs(u[0]); }
  }

  lemma SplitAt(v: string)
    requires CommaAt(v) < |v|
    ensures var k := CommaAt(v); Split(v)[0] == v[..k] && Split(v)[1..] == Split(v[k + 1..])
  {
    SplitIs(v);
    hide Split, CommaAt;
  }

  lemma SplitIs(v: string)
    requires CommaAt(v) < |v|
    ensures var k := CommaAt(v); Split(v) == [v[..k]] + Split(v[k + 1..])
  {
    hide CommaAt;
  }

  lemma ReadAt(x: Val, v: string, k: nat)
    requires k < |v| && v[k] == ','
    ensures ReadVal(x, v) == ReadVal(NextVal(ReadVal(x, v[..k]), ','), v[k + 1..])
  {
    hide NextVal, ReadVal;
    assert v == (v[..k] + [',']) + v[k + 1..];
    ReadConcat(x, v[..k] + [','], v[k + 1..]);
    ReadNext(x, v[..k], ',');
  }

  lemma NoSplit(v: string)
    requires CommaAt(v) == |v|
    ensures Split(v) == [v] && ',' !in v
  {
    assert v[..|v|] == v;
  }

  /** A whole value from the start of a token. */
  lemma {:induction false} ItemsRead(v: string, f: Flags)
    ensures var x := ReadVal(Val(TokenStart, 0, f), v); FinishFlags(x.h, x.f) == Effect(f, Split(v), false)
    decreases |v|
  {
    hide NextVal, ReadVal, Split, FateState, FateOf, FinishFlags;
    var k, x := CommaAt(v), Val(TokenStart, 0, f);
    if k == |v| {
      NoSplit(v);
      ItemRead(v, f);
      LastItem(v, false, f);
    } else {
      SplitAt(v);
      ReadAt(x, v, k);
      ItemRead(v[..k], f);
      Behind(v[..k], v[k + 1..], false, ReadVal(x, v[..k]));
      EffectAt(f, Split(v), false);
      match FateOf(v[..k], false)
      case Named(d) => ItemsRead(v[k + 1..], FinishFlags(d, f));
      case Half => SkipRead(v[k + 1..], NextVal(ReadVal(x, v[..k]), ','));
      case Odd =>
      case Other => ItemsRead(v[k + 1..], f);
    }
  }

  /** What follows an item. */
  lemma Behind(t: string, rest: string, first: bool, x: Val)
    requires x.h == FateState(t, first) && (FateOf(t, first).Half? && t != "" ==> x.i + 1 == |if first then t else Trimmed(t)|)
    requires first ==> t != ""
    ensures var y := NextVal(x, ',');
      match FateOf(t, first)
      case Named(d) => y == Val(TokenStart, 0, FinishFlags(d, x.f))
      case Half => y.h == ConnToken && y.f == x.f
      case Odd => FinishFlags(ReadVal(y, rest).h, ReadVal(y, rest).f) == x.f
      case Other => y == Val(TokenStart, 0, x.f)
  {
    hide NextVal, ReadVal, FateState, FateOf;
    CommaRead(t, first, x);
    if FateOf(t, first).Odd? { OtherStays(NextVal(x, ','), rest); }
  }

  lemma EffectAt(f: Flags, items: seq<string>, first: bool)
    requires |items| > 1
    ensures Effect(f, items, first) ==
      match FateOf(items[0], first)
      case Named(d) => Effect(FinishFlags(d, f), items[1..], false)
      case Half => Effect(f, items[1..][1..], false)
      case Odd => f
      case Other => Effect(f, items[1..], false)
  {
    hide FateOf, FinishFlags;
    assert items[1..][1..] == items[2..];
  }

  /** A whole value whose first item belongs to a token that began before. */
  lemma SkipRead(v: string, x: Val)
    requires x.h == ConnToken
    ensures var y := ReadVal(x, v); FinishFlags(y.h, y.f) == Effect(x.f, Split(v)[1..], false)
    decreases |v|, 0
  {
    var k := CommaAt(v);
    if k == |v| {
      NoSplit(v);
      OtherStays(x, v);
    } else {
      SplitAt(v);
      ReadAt(x, v, k);
      OtherStays(x, v[..k]);
      CommaAfterOther(ReadVal(x, v[..k]));
      ItemsRead(v[k + 1..], x.f);
    }
  }

  lemma CommaAfterOther(x: Val)
    requires x.h == ConnToken
    ensures NextVal(x, ',') == Val(TokenStart, 0, x.f)
  {
  }

  /** A Connection value sets the flags that its items make. */
  lemma ConnectionRead(v: string, f: Flags)
    requires v != ""
    ensures var x := ReadVal(Val(Opening(v[0]), 0, f), v[1..]); FinishFlags(x.h, x.f) == Effect(f, Split(v), true)
  {
    hide NextVal, ReadVal, Split, FateState, FateOf, FinishFlags, Opening, Effect;
    var k, x := CommaAt(v), Val(Opening(v[0]), 0, f);
    if k == |v| {
      NoSplit(v);
      FirstRead(v, f);
      LastItem(v, true, f);
    } else if k == 0 {
      SplitAt(v);
      CommaFirst(f, Split(v));
      assert v[..0] == "" && v[0 + 1..] == v[1..];
      SkipRead(v[1..], x);
    } else {
      SplitAt(v);
      SplitTail(v, k, x);
      FirstRead(v[..k], f);
      Behind(v[..k], v[k + 1..], true, ReadVal(x, v[..k][1..]));
      EffectAt(f, Split(v), true);
      match FateOf(v[..k], true)
      case Named(d) => ItemsRead(v[k + 1..], FinishFlags(d, f));
      case Half => SkipRead(v[k + 1..], NextVal(ReadVal(x, v[..k][1..]), ','));
      case Odd =>
      case Other => ItemsRead(v[k + 1..], f);
    }
  }

  lemma SplitTail(v: string, k: nat, x: Val)
    requires 0 < k < |v| && v[k] == ','
    ensures ReadVal(x, v[1..]) == ReadVal(NextVal(ReadVal(x, v[..k][1..]), ','), v[k + 1..])
  {
    hide NextVal;
    assert v[1..] == (v[..k][1..] + [',']) + v[k + 1..];
    ReadConcat(x, v[..k][1..] + [','], v[k + 1..]);
    ReadNext(x, v[..k][1..], ',');
  }

  /** A comma at once counts for the first letter of a token. */
  lemma CommaFirst(f: Flags, items: seq<string>)
    requires |items| > 1 && items[0] == ""
    ensures Opening(',') == ConnToken && Effect(f, items, true) == Effect(f, items[1..][1..], false)
  {
    CommaIsNoLetter();
    EffectAt(f, items, true);
  }

  lemma FirstRead(t: string, f: Flags)
    requires t != "" && ',' !in t
    ensures var x := ReadVal(Val(Opening(t[0]), 0, f), t[1..]);
      x.f == f && x.h == FateState(t, true) && (FateOf(t, true).Half? ==> x.i + 1 == |t|)
  {
    hide NextVal, ReadVal, Lower, IsToken, BeginsWord, IsWord, Word, Matching, Initial, Lost;
    InitialIs(t[0]);
    if Initial(t[0]).Some? {
      WordStart(t, Initial(t[0]).value, f);
    } else {
      OtherStays(Val(ConnToken, 0, f), t[1..]);
    }
  }

  // ---- what that means for a list -----------------------------------------------------------------------------

  /** The flags of all items that are words. */
  function Meant(f: Flags, items: seq<string>, first: bool): Flags
    decreases |items|
  {
    if items == [] then f
    else
      var g := match FateOf(items[0], first) case Named(d) => FinishFlags(d, f) case _ => f;
      Meant(g, items[1..], false)
  }

  /** No item is empty, begins with a byte that no token holds, or is the beginning of a word. */
  predicate Tidy(items: seq<string>, first: bool) {
    forall i :: 0 <= i < |items| ==> var a := FateOf(items[i], first && i == 0); a.Named? || a.Other?
  }

  /** Of a tidy list every item counts. */
  lemma {:induction false} TidyListCounts(f: Flags, items: seq<string>, first: bool)
    requires Tidy(items, first)
    ensures Effect(f, items, first) == Meant(f, items, first)
    decreases |items|
  {
    hide FateOf, FinishFlags;
    if items != [] {
      assert Tidy(items[1..], false);
      var a := FateOf(items[0], first);
      TidyListCounts(if a.Named? then FinishFlags(a.d, f) else f, items[1..], false);
    }
  }

  lemma {:induction false} CommaBehind(a: string, rest: string)
    requires ',' !in a
    ensures CommaAt(a + "," + rest) == |a|
  {
    var v := a + "," + rest;
    if a != "" {
      assert v[1..] == a[1..] + "," + rest && v[0] == a[0];
      CommaBehind(a[1..], rest);
    }
  }

  lemma SplitAll(a: string)
    requires ',' !in a
    ensures Split(a) == [a]
  {
    hide Split;
    if CommaAt(a) < |a| { LastOfFront(a, CommaAt(a)); }
    NoSplit(a);
  }

  lemma LastOfFront(a: string, k: nat)
    requires k < |a|
    ensures a[k] in a
  {
  }

  lemma SplitMore(a: string, rest: string)
    requires ',' !in a
    ensures Split(a + "," + rest) == [a] + Split(rest)
  {
    hide Split;
    var v := a + "," + rest;
    CommaBehind(a, rest);
    SplitIs(v);
    assert v[..|a|] == a && v[|a| + 1..] == rest;
  }

  lemma Fates()
    ensures FateOf("close", false) == Named(Close) && FateOf("", false) == Odd
    ensures FateOf("c", true) == Half && FateOf("x", true) == Other
  {
    CloseIsWord();
    OneLetter("c", Close);
    assert Trimmed("close") == "close" && Trimmed("") == "";
    hide IsWord, BeginsWord;
    WordOr("close", Close);
  }

  lemma CloseIsWord()
    ensures IsWord("close", Close)
  {
    assert LowerText("close") == "close" && "close"[..5] == "close";
  }

  /** The beginning of a word hides the item behind it: "c,close" does not ask to close. */
  lemma HalfWordHides(f: Flags)
    ensures var items := Split("c,close"); Effect(f, items, true) == f && Meant(f, items, true) == f.(close := true)
  {
    hide Split, FateOf;
    SplitMore("c", "close");
    SplitAll("close");
    Fates();
    assert "c" + "," + "close" == "c,close" && ["c"] + ["close"] == ["c", "close"];
    EffectAt(f, ["c", "close"], true);
    assert ["c", "close"][1..] == ["close"] && ["close"][1..] == [];
  }

  /** An empty item hides all that follows it. */
  lemma EmptyItemHides(f: Flags)
    ensures var items := Split("x,,close"); Effect(f, items, true) == f && Meant(f, items, true) == f.(close := true)
  {
    hide Split, FateOf;
    SplitMore("x", ",close");
    SplitMore("", "close");
    SplitAll("close");
    Fates();
    assert "x" + "," + ",close" == "x,,close" && "" + "," + "close" == ",close";
    var items := ["x", "", "close"];
    assert ["x"] + ([""] + ["close"]) == items;
    EffectAt(f, items, true);
    assert items[1..] == ["", "close"] && ["", "close"][1..] == ["close"] && ["close"][1..] == [];
    EffectAt(f, ["", "close"], false);
  }

  lemma FinishSets(d: HeaderState, f: Flags)
    ensures var g := FinishFlags(d, f); g.trailing == f.trailing && g.skipBody == f.skipBody
  {
  }

  /** A Connection value has nothing to do with trailers and with bodies to be skipped. */
  lemma {:induction false} EffectSets(f: Flags, items: seq<string>, first: bool)
    ensures var g := Effect(f, items, first); g.trailing == f.trailing && g.skipBody == f.skipBody
    decreases |items|
  {
    hide FateOf, FinishFlags;
    if items != [] {
      match FateOf(items[0], first)
      case Named(d) =>
        FinishSets(d, f);
        EffectSets(FinishFlags(d, f), items[1..], false);
      case Half => if |items| > 1 { EffectSets(f, items[2..], false); }
      case Odd =>
      case Other => EffectSets(f, items[1..], false);
    }
  }

  // ---- the parser reading a value -------------------------------------------------------------------------------

  /** A machine behind the name of a Transfer-Encoding or Connection header. */
  predicate AtValue(m: Machine) {
    && Running(m) && m.loop.Outside? && m.p.state == Head(HeaderValueDiscardWs)
    && (m.p.headerState.TransferEncoding? || m.p.headerState.Connection?)
  }

  /** A value: no line break in it, no white space in front of it, and bytes that a header may hold. */
  predicate ValueText(v: string, lenient: bool) {
    && v != "" && v[0] != ' ' && v[0] != '\t'
    && forall i :: 0 <= i < |v| ==> !IsBreak(v[i]) && (lenient || IsHeaderChar(v[i]))
  }

  function FirstVal(h: HeaderState, c: char, f: Flags): Val {
    Val(if h.Connection? then Opening(c) else if Lower(c) == 'c' then MatchingChunked else General, 0, f)
  }

  predicate InValue(h: HeaderState) {
    h.General? || h.MatchingChunked? || h.TokenStart? || h.MatchingKeepAlive? || h.MatchingClose? || h.MatchingConnUpgrade? ||
    h.ConnToken? || h.Chunked? || h.KeepAlive? || h.Close? || h.ConnUpgrade?
  }

  lemma StaysInValue(x: Val, c: char)
    requires InValue(x.h)
    ensures InValue(NextVal(x, c).h)
  {
    hide Lower, IsToken;
  }

  /** The machine inside a value that has been read as x. */
  predicate HasRead(m: Machine, n: Machine, x: Val, k: nat) {
    && Running(n) && n.p.state == Head(HeaderValue) && n.p.headerState == x.h && n.p.index == x.i && n.p.flags == x.f
    && InValue(x.h) && n.p.nread == m.p.nread + k && n.p.lenient == m.p.lenient && n.consumed == m.consumed + k
  }

  lemma ValueStarts(p: Parser, c: char, next: char)
    requires p.state == Head(HeaderValueDiscardWs) && (p.headerState.TransferEncoding? || p.headerState.Connection?)
    requires !IsBreak(c) && c != ' ' && c != '\t'
    ensures var x := FirstVal(p.headerState, c, p.flags);
      InValue(x.h) && Transition(p, Outside, c, next) == GoMark(p.(headerState := x.h, index := 0), Head(HeaderValue), ValueData)
  {
    hide Inv, Lower;
  }

  lemma FirstByteRead(m: Machine, c: char, next: char)
    requires AtValue(m) && m.p.nread < MAX_HEADER_SIZE && !IsBreak(c) && c != ' ' && c != '\t'
    ensures HasRead(m, Step(m, c, next), FirstVal(m.p.headerState, c, m.p.flags), 1)
  {
    hide Step, Transition, Good, Deliver, Extend, Opening, Lower, InValue;
    CountStops(m, c, next);
    ValueStarts(Count(m.p, m.loop), c, next);
    StepIsApply(m, c, next);
    StepKeepsGood(m, c, next);
  }

  lemma TokenChars(p: Parser, c: char)
    requires InValue(p.headerState)
    ensures var x := NextVal(Val(p.headerState, p.index, p.flags), c); var o := ValueChar(p, c);
      o.p == p.(headerState := x.h, index := x.i, flags := x.f)
  {
    hide Inv, ValueState, FinishFlags;
  }

  lemma ScansGeneral(m: Machine)
    requires Running(m) && m.loop.Scanning?
    ensures m.p.headerState.General?
  {
    hide Inv, HeldFits;
  }

  lemma NextByteRead(m: Machine, n: Machine, x: Val, k: nat, c: char, next: char)
    requires HasRead(m, n, x, k) && m.p.nread + k < MAX_HEADER_SIZE && !IsBreak(c) && (m.p.lenient || IsHeaderChar(c))
    ensures HasRead(m, Step(n, c, next), NextVal(x, c), k + 1)
  {
    hide Step, Good, Extend, NextVal, InValue, ValueChar, IsBreak, IsHeaderChar;
    StaysInValue(x, c);
    if n.loop.Scanning? {
      ScansGeneral(n);
      ScanStep(n, c, next);
      GeneralStays(x, c);
    } else {
      TokenChars(n.p, c);
      ValueCharStep(n, n.p, c, next);
    }
  }

  lemma GeneralStays(x: Val, c: char)
    requires x.h.General?
    ensures NextVal(x, c) == x
  {
  }

  lemma {:induction false} ValueRead(m: Machine, v: string, w: string, n: nat, past: char)
    requires AtValue(m) && ValueText(v, m.p.lenient) && m.p.nread + |v| <= MAX_HEADER_SIZE
    requires 1 <= n <= |v| <= |w| && w[..|v|] == v
    ensures HasRead(m, Feed(m, w, n, past), ReadVal(FirstVal(m.p.headerState, v[0], m.p.flags), v[1..n]), n)
  {
    hide Step, HasRead, FirstVal, NextVal, IsBreak, IsHeaderChar;
    assert w[n - 1] == v[n - 1];
    if n == 1 {
      assert v[1..1] == "";
      FirstByteRead(m, v[0], After(w, 0, past));
    } else {
      ValueRead(m, v, w, n - 1, past);
      var x := FirstVal(m.p.headerState, v[0], m.p.flags);
      assert v[1..n] == v[1..n - 1] + [v[n - 1]];
      ReadNext(x, v[1..n - 1], v[n - 1]);
      NextByteRead(m, Feed(m, w, n - 1, past), ReadVal(x, v[1..n - 1]), n - 1, v[n - 1], After(w, n - 1, past));
    }
  }

  // ---- the line is over -------------------------------------------------------------------------------------------

  lemma CrStep(m: Machine, n: Machine, x: Val, k: nat, next: char)
    requires HasRead(m, n, x, k) && m.p.nread + k < MAX_HEADER_SIZE
    ensures var y := Step(n, CR, next);
      && Running(y) && y.loop.Outside? && y.p.state == Head(HeaderAlmostDone)
      && y.p.headerState == x.h && y.p.flags == x.f && y.p.nread == n.p.nread + 1
  {
    hide Step, Good, Extend, CloseSlice, InValue;
    BreakStep(n, CR, next);
  }

  lemma LfStep(y: Machine, next: char)
    requires Running(y) && y.loop.Outside? && y.p.state == Head(HeaderAlmostDone) && y.p.nread < MAX_HEADER_SIZE
    ensures var z := Step(y, LF, next);
      Running(z) && z.loop.Outside? && z.p == y.p.(nread := y.p.nread + 1, state := Head(HeaderValueLws))
  {
    hide Inv, HeldFits, Deliver, Extend;
    CountStops(y, LF, next);
    StepKeepsGood(y, LF, next);
  }

  /** The first byte of the next line sets the flag of the last word. */
  lemma NextLine(z: Machine, c: char, next: char)
    requires Running(z) && z.loop.Outside? && z.p.state == Head(HeaderValueLws) && z.p.nread < MAX_HEADER_SIZE && IsToken(c)
    ensures var x := Step(z, c, next);
      Running(x) && x.p.state == Head(HeaderField) && x.p.flags == FinishFlags(z.p.headerState, z.p.flags)
  {
    hide Inv, HeldFits, Deliver, Extend, IsToken, FinishFlags, TokenOf, FirstOfField, AtHeadersAlmostDone;
    TokenIsText(c);
    CountStops(z, c, next);
    StepKeepsGood(z, c, next);
  }

  lemma TokenIsText(c: char)
    requires IsToken(c)
    ensures c != ' ' && c != '\t' && !IsBreak(c)
  {
  }

  /** A value, the end of its line, and the first byte of the next one. */
  lemma LineRead(m: Machine, v: string, c: char, past: char)
    requires AtValue(m) && ValueText(v, m.p.lenient) && m.p.nread + |v| + 3 <= MAX_HEADER_SIZE && IsToken(c)
    ensures var x := Feed(m, v + [CR, LF, c], |v| + 3, past);
      var y := ReadVal(FirstVal(m.p.headerState, v[0], m.p.flags), v[1..]);
      Running(x) && x.p.state == Head(HeaderField) && x.p.flags == FinishFlags(y.h, y.f)
  {
    hide Step, Running, FirstVal, NextVal, ReadVal, IsToken, InValue;
    var w, n := v + [CR, LF, c], |v|;
    assert w[n] == CR && w[n + 1] == LF && w[n + 2] == c && w[..n] == v;
    ValueRead(m, v, w, n, past);
    var y := ReadVal(FirstVal(m.p.headerState, v[0], m.p.flags), v[1..n]);
    assert v[1..n] == v[1..];
    CrStep(m, Feed(m, w, n, past), y, n, LF);
    assert Feed(m, w, n + 1, past) == Step(Feed(m, w, n, past), CR, LF);
    LfStep(Feed(m, w, n + 1, past), c);
    assert Feed(m, w, n + 2, past) == Step(Feed(m, w, n + 1, past), LF, c);
    NextLine(Feed(m, w, n + 2, past), c, past);
  }

  /** A Transfer-Encoding line sets F_CHUNKED exactly if its value is the word "chunked" in letters of any
      case, perhaps with spaces behind it, and it changes no other flag. */
  lemma ChunkedExactly(m: Machine, v: string, c: char, past: char)
    requires AtValue(m) && m.p.headerState.TransferEncoding? && ValueText(v, m.p.lenient) && IsToken(c)
    requires m.p.nread + |v| + 3 <= MAX_HEADER_SIZE
    ensures var x := Feed(m, v + [CR, LF, c], |v| + 3, past);
      Running(x) && x.p.flags == m.p.flags.(chunked := m.p.flags.chunked || IsWord(v, Chunked))
  {
    hide Feed, Running, ReadVal, FirstVal, IsWord, IsToken;
    LineRead(m, v, c, past);
    ChunkedRead(v, m.p.flags);
  }

  lemma ChunkedRead(v: string, f: Flags)
    requires v != ""
    ensures var x := ReadVal(FirstVal(TransferEncoding, v[0], f), v[1..]);
      FinishFlags(x.h, x.f) == f.(chunked := f.chunked || IsWord(v, Chunked))
  {
    hide ReadVal, BeginsWord, IsWord, Word, Lower;
    ChunkedIsWord();
    if Lower(v[0]) == 'c' {
      WordRead(v, Chunked, f);
      WordOr(v, Chunked);
    } else {
      OtherStays(FirstVal(TransferEncoding, v[0], f), v[1..]);
      NotTheWord(v, Chunked);
    }
  }

  lemma ChunkedIsWord()
    ensures Word(Chunked)[0] == 'c'
  {
  }

  lemma NotTheWord(v: string, d: HeaderState)
    requires v != "" && Lower(v[0]) != Word(d)[0]
    ensures !IsWord(v, d)
  {
    hide Lower, Word;
    WordSize(d);
    var n := |Word(d)|;
    if n <= |v| { assert LowerText(v[..n])[0] == Lower(v[0]); }
  }

  /** A Connection line sets the flags that the items of its value make, and no others. */
  lemma ConnectionExactly(m: Machine, v: string, c: char, past: char)
    requires AtValue(m) && m.p.headerState.Connection? && ValueText(v, m.p.lenient) && IsToken(c)
    requires m.p.nread + |v| + 3 <= MAX_HEADER_SIZE
    ensures var x := Feed(m, v + [CR, LF, c], |v| + 3, past);
      Running(x) && x.p.flags == Effect(m.p.flags, Split(v), true)
  {
    hide Feed, Running, ReadVal, Effect, Split, IsToken, Opening;
    LineRead(m, v, c, past);
    ConnectionRead(v, m.p.flags);
  }

  /** The flags of a Connection line are those of the words in its list, if the list is tidy. */
  lemma ConnectionMeant(m: Machine, v: string, c: char, past: char)
    requires AtValue(m) && m.p.headerState.Connection? && ValueText(v, m.p.lenient) && IsToken(c)
    requires m.p.nread + |v| + 3 <= MAX_HEADER_SIZE && Tidy(Split(v), true)
    ensures var x := Feed(m, v + [CR, LF, c], |v| + 3, past);
      Running(x) && x.p.flags == Meant(m.p.flags, Split(v), true)
  {
    hide Feed, Running, Effect, Meant, Split, IsToken, Tidy;
    ConnectionExactly(m, v, c, past);
    TidyListCounts(m.p.flags, Split(v), true);
  }
}
