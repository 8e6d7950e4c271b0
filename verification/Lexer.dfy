// The character level of the SQL front end: splitting input into words and quoted strings, and a
// canonical rendering of tokens that splits back into them.
module Lexer {
  import opened Prelude
  import opened Numerals

  datatype Tok = Word(w: string) | Str(s: string)

  predicate IsQuote(c: char) {
    c == '\'' || c == '"'
  }

  predicate IsPunct(c: char) {
    c == '=' || c == '<' || c == '>' || c == ',' || c == '(' || c == ')' || c == '*'
  }

  /** What ends a bare word. */
  predicate IsStop(c: char) {
    IsSpace(c) || IsPunct(c) || IsQuote(c)
  }

  predicate StartsPair(s: string) {
    |s| >= 2 && (s[..2] == "<=" || s[..2] == ">=" || s[..2] == "!=" || s[..2] == "<>")
  }

  /** Index of the first `q`, or the length. */
  function QuoteEnd(s: string, q: char): (i: nat)
    ensures i <= |s|
    ensures forall j :: 0 <= j < i ==> s[j] != q
    ensures i < |s| ==> s[i] == q
  {
    if s == "" || s[0] == q then 0 else 1 + QuoteEnd(s[1..], q)
  }

  /** Index of the first character that ends a word, or the length. */
  function WordEnd(s: string): (i: nat)
    ensures i <= |s|
    ensures forall j :: 0 <= j < i ==> !IsStop(s[j])
    ensures i < |s| ==> IsStop(s[i])
  {
    if s == "" || IsStop(s[0]) then 0 else 1 + WordEnd(s[1..])
  }

  function Prepend(toks: seq<Tok>, rest: Option<seq<Tok>>): Option<seq<Tok>> {
    if rest.None? then None else Some(toks + rest.value)
  }

  lemma PrependLaws(a: seq<Tok>, b: seq<Tok>, r: Option<seq<Tok>>)
    ensures Prepend([], r) == r && Prepend(a, Some([])) == Some(a)
    ensures Prepend(a, Prepend(b, r)) == Prepend(a + b, r)
  {
    if r.Some? {
      assert [] + r.value == r.value;
      assert a + (b + r.value) == a + b + r.value;
    }
    assert a + [] == a;
  }

  /** The tokens of `s`, or nothing when a string is left open. */
  function Lex(s: string): Option<seq<Tok>>
    decreases |s|
  {
    if s == "" then Some([])
    else if IsSpace(s[0]) then Lex(s[1..])
    else if IsQuote(s[0]) then
      var e := QuoteEnd(s[1..], s[0]);
      if e == |s| - 1 then None else Prepend([Str(s[1..][..e])], Lex(s[1..][e + 1..]))
    else if StartsPair(s) then Prepend([Word(s[..2])], Lex(s[2..]))
    else if IsPunct(s[0]) then Prepend([Word(s[..1])], Lex(s[1..]))
    else
      var e := WordEnd(s);
      Prepend([Word(s[..e])], Lex(s[e..]))
  }

  /** One more token read, up to position `next`. */
  ghost predicate Read(input: string, i: nat, tok: Tok, next: nat) {
    i < next <= |input| && Lex(input[i..]) == Prepend([tok], Lex(input[next..]))
  }

  lemma ReadSpace(input: string, i: nat)
    requires i < |input| && IsSpace(input[i])
    ensures Lex(input[i..]) == Lex(input[i + 1..])
  {
    assert input[i..][1..] == input[i + 1..];
  }

  lemma ReadString(input: string, i: nat, e: nat)
    requires i < e <= |input| && IsQuote(input[i]) && !IsSpace(input[i])
    requires forall j :: i < j < e ==> input[j] != input[i]
    requires e < |input| ==> input[e] == input[i]
    ensures e == |input| ==> Lex(input[i..]) == None
    ensures e < |input| ==> Read(input, i, Str(input[i + 1..e]), e + 1)
  {
    var rest := input[i..];
    assert rest[1..] == input[i + 1..];
    QuoteScan(rest[1..], input[i], e - i - 1);
    if e < |input| {
      assert rest[1..][..e - i - 1] == input[i + 1..e];
      assert rest[1..][e - i - 1 + 1..] == input[e + 1..];
    }
  }

  predicate PairAt(input: string, i: nat) {
    i + 2 <= |input| && StartsPair(input[i..i + 2])
  }

  lemma PairHere(input: string, i: nat)
    requires i < |input|
    ensures PairAt(input, i) <==> StartsPair(input[i..])
    ensures PairAt(input, i) ==> input[i..][..2] == input[i..i + 2] && input[i..][2..] == input[i + 2..]
    ensures PairAt(input, i) ==> !IsSpace(input[i]) && !IsQuote(input[i])
  {
    if i + 2 <= |input| {
      assert input[i..][..2] == input[i..i + 2];
      assert input[i..i + 2][..2] == input[i..i + 2];
      assert input[i..i + 2][0] == input[i];
    }
  }

  lemma ReadPair(input: string, i: nat)
    requires i < |input| && PairAt(input, i)
    ensures Read(input, i, Word(input[i..i + 2]), i + 2)
  {
    PairHere(input, i);
    hide StartsPair, PairAt;
  }

  lemma ReadPunct(input: string, i: nat)
    requires i < |input| && !IsSpace(input[i]) && !IsQuote(input[i]) && !PairAt(input, i) && IsPunct(input[i])
    ensures Read(input, i, Word([input[i]]), i + 1)
  {
    PairHere(input, i);
    hide StartsPair, PairAt;
    assert input[i..][..1] == [input[i]] && input[i..][1..] == input[i + 1..];
  }

  lemma ReadWord(input: string, i: nat, e: nat)
    requires i < e <= |input| && !PairAt(input, i)
    requires forall j :: i <= j < e ==> !IsStop(input[j])
    requires e < |input| ==> IsStop(input[e])
    ensures Read(input, i, Word(input[i..e]), e)
  {
    PairHere(input, i);
    var rest := input[i..];
    WordScan(rest, e - i);
    hide StartsPair, PairAt;
    assert rest[..e - i] == input[i..e] && rest[e - i..] == input[e..];
  }

  /** `tokenize`. */
  method Tokenize(input: string) returns (r: Option<seq<Tok>>)
    ensures r == Lex(input)
  {
    hide Lex, StartsPair, Prepend, IsSpace;
    var toks: seq<Tok> := [];
    var i: nat := 0;
    assert input[0..] == input;
    PrependLaws([], [], Lex(input));
    while i < |input|
      invariant i <= |input|
      invariant Lex(input) == Prepend(toks, Lex(input[i..]))
      decreases |input| - i
    {
      var c, at := input[i], i;
      if IsSpace(c) {
        ReadSpace(input, i);
        i := i + 1;
        continue;
      }
      var tok;
      if IsQuote(c) {
        i := i + 1;
        while i < |input| && input[i] != c
          invariant at < i <= |input|
          invariant forall j :: at < j < i ==> input[j] != c
        {
          i := i + 1;
        }
        ReadString(input, at, i);
        if i >= |input| {
          OpenString(toks);
          return None;
        }
        tok := Str(input[at + 1..i]);
        i := i + 1;
      } else if PairAt(input, i) {
        ReadPair(input, i);
        tok := Word(input[i..i + 2]);
        i := i + 2;
      } else if IsPunct(c) {
        ReadPunct(input, i);
        tok := Word([c]);
        i := i + 1;
      } else {
        while i < |input| && !IsStop(input[i])
          invariant at <= i <= |input|
          invariant forall j :: at <= j < i ==> !IsStop(input[j])
        {
          i := i + 1;
        }
        ReadWord(input, at, i);
        tok := Word(input[at..i]);
      }
      PrependLaws(toks, [tok], Lex(input[i..]));
      toks := toks + [tok];
    }
    assert input[i..] == "";
    PrependLaws(toks, [], Some([]));
    NothingToLex();
    r := Some(toks);
  }

  lemma OpenString(toks: seq<Tok>)
    ensures Prepend(toks, None) == None
  {}

  lemma NothingToLex()
    ensures Lex("") == Some([])
  {}

  lemma QuoteScan(s: string, q: char, n: nat)
    requires n <= |s| && (forall j :: 0 <= j < n ==> s[j] != q) && (n < |s| ==> s[n] == q)
    ensures QuoteEnd(s, q) == n
  {}

  lemma WordScan(s: string, n: nat)
    requires n <= |s| && (forall j :: 0 <= j < n ==> !IsStop(s[j])) && (n < |s| ==> IsStop(s[n]))
    ensures WordEnd(s) == n
  {}

  // ----- the tokens that can occur -----

  predicate Bare(w: string) {
    w != "" && forall i :: 0 <= i < |w| ==> !IsStop(w[i])
  }

  predicate Symbol(w: string) {
    (|w| == 1 && IsPunct(w[0])) || (|w| == 2 && StartsPair(w))
  }

  predicate Quotable(s: string) {
    '\'' !in s || '"' !in s
  }

  predicate Clean(t: Tok) {
    match t
    case Word(w) => Bare(w) || Symbol(w)
    case Str(s) => Quotable(s)
  }

  predicate AllClean(toks: seq<Tok>) {
    forall i :: 0 <= i < |toks| ==> Clean(toks[i])
  }

  /** Tokenising only yields clean tokens. */
  lemma {:induction false} LexClean(s: string)
    requires Lex(s).Some?
    ensures AllClean(Lex(s).value)
    decreases |s|
  {
    if s == "" {
    } else if IsSpace(s[0]) {
      LexClean(s[1..]);
    } else if IsQuote(s[0]) {
      var e := QuoteEnd(s[1..], s[0]);
      LexClean(s[1..][e + 1..]);
      assert s[0] !in s[1..][..e];
    } else if StartsPair(s) {
      LexClean(s[2..]);
      assert s[..2][..2] == s[..2];
    } else if IsPunct(s[0]) {
      LexClean(s[1..]);
    } else {
      LexClean(s[WordEnd(s)..]);
    }
  }

  // ----- rendering -----

  function RenderTok(t: Tok): string {
    match t
    case Word(w) => w
    case Str(s) => if '\'' in s then "\"" + s + "\"" else "'" + s + "'"
  }

  /** Each token followed by a space. */
  function Render(toks: seq<Tok>): string {
    if toks == [] then "" else RenderTok(toks[0]) + (" " + Render(toks[1..]))
  }

  lemma LexSpace(rest: string)
    ensures Lex(" " + rest) == Lex(rest)
  {
    assert (" " + rest)[1..] == rest;
  }

  lemma LexQuoted(q: char, s: string, rest: string)
    requires IsQuote(q) && q !in s
    ensures Lex([q] + s + [q] + rest) == Prepend([Str(s)], Lex(rest))
  {
    var all := [q] + s + [q] + rest;
    assert all[1..] == s + [q] + rest;
    assert forall j :: 0 <= j < |s| ==> (s + [q] + rest)[j] == s[j] && s[j] in s;
    QuoteScan(all[1..], q, |s|);
    assert all[1..][..|s|] == s;
    assert all[1..][|s| + 1..] == rest;
  }

  lemma LexBare(w: string, rest: string)
    requires Bare(w)
    ensures Lex(w + (" " + rest)) == Prepend([Word(w)], Lex(" " + rest))
  {
    var all := w + (" " + rest);
    assert all[0] == w[0] && !IsStop(w[0]);
    assert forall j :: 0 <= j < |w| ==> all[j] == w[j];
    assert all[|w|] == ' ';
    WordScan(all, |w|);
    assert !StartsPair(all) by {
      assert all[1] == if |w| > 1 then w[1] else ' ';
      assert all[..2] == [all[0], all[1]];
    }
    assert all[..|w|] == w && all[|w|..] == " " + rest;
  }

  lemma LexPair(w: string, rest: string)
    requires |w| == 2 && StartsPair(w)
    ensures Lex(w + (" " + rest)) == Prepend([Word(w)], Lex(" " + rest))
  {
    var all := w + (" " + rest);
    assert w[..2] == w;
    assert all[..2] == w && all[2..] == " " + rest;
    assert all[0] == w[0];
    assert w[0] == '<' || w[0] == '>' || w[0] == '!';
  }

  lemma LexSingle(c: char, rest: string)
    requires IsPunct(c)
    ensures Lex([c] + (" " + rest)) == Prepend([Word([c])], Lex(" " + rest))
  {
    var all := [c] + (" " + rest);
    assert all[0] == c && all[1] == ' ';
    assert all[..2] == [c, ' '];
    assert !StartsPair(all);
    hide StartsPair;
    assert all[..1] == [c] && all[1..] == " " + rest;
  }

  lemma LexSymbol(w: string, rest: string)
    requires Symbol(w)
    ensures Lex(w + (" " + rest)) == Prepend([Word(w)], Lex(" " + rest))
  {
    hide Lex, StartsPair;
    if |w| == 2 {
      LexPair(w, rest);
    } else {
      assert w == [w[0]];
      LexSingle(w[0], rest);
    }
  }

  /** Rendering clean tokens and tokenising again is the identity. */
  lemma {:induction false} LexRender(toks: seq<Tok>)
    requires AllClean(toks)
    ensures Lex(Render(toks)) == Some(toks)
  {
    if toks != [] {
      var t, rest := toks[0], Render(toks[1..]);
      LexRender(toks[1..]);
      LexSpace(rest);
      assert toks == [t] + toks[1..];
      match t
      case Word(w) =>
        if Bare(w) { LexBare(w, rest); } else { LexSymbol(w, rest); }
      case Str(s) =>
        if '\'' in s {
          LexQuoted('"', s, " " + rest);
          assert RenderTok(t) + (" " + rest) == ['"'] + s + ['"'] + (" " + rest);
        } else {
          LexQuoted('\'', s, " " + rest);
          assert RenderTok(t) + (" " + rest) == ['\''] + s + ['\''] + (" " + rest);
        }
    }
  }

  // ----- every way of writing tokens -----

  ghost predicate Blank(s: string) {
    forall c :: c in s ==> IsSpace(c)
  }

  lemma BlankTail(s: string, i: nat)
    requires 0 < i <= |s| && Blank(s[..i])
    ensures IsSpace(s[0]) && Blank(s[1..][..i - 1])
  {
    assert s[..i][0] == s[0] && s[1..][..i - 1] == s[..i][1..];
  }

  lemma BlankMore(s: string, i: nat)
    requires i < |s| && IsSpace(s[0]) && Blank(s[1..][..i])
    ensures Blank(s[..i + 1])
  {
    assert s[..i + 1] == [s[0]] + s[1..][..i];
  }

  /** The text of a token: a word as it is, a string between two quotes of a kind it does not contain. */
  predicate TextOf(t: Tok, text: string) {
    match t
    case Word(w) => text == w && (Bare(w) || Symbol(w))
    case Str(s) => |text| >= 2 && IsQuote(text[0]) && text == [text[0]] + s + [text[0]] && text[0] !in s
  }

  /** Where a token's text ends: a word at a blank, a quote or a symbol; a symbol of one character where
      it does not go on to one of two. */
  predicate EndsAt(t: Tok, s: string, k: nat)
    requires k <= |s|
  {
    match t
    case Word(w) => if Bare(w) then (k == |s| || IsStop(s[k])) && !StartsPair(s) else |w| == 2 || !StartsPair(s)
    case Str(_) => true
  }

  /** After `i` blanks the text of `t` stands in `s`, `k` characters long. */
  ghost predicate StandsAt(s: string, t: Tok, i: nat, k: nat) {
    0 < k && i + k <= |s| && Blank(s[..i]) && TextOf(t, s[i..i + k]) && EndsAt(t, s[i..], k)
  }

  /** The tokens written one after another, with blanks before, between and after them, or none where
      one token ends before the next. */
  ghost predicate Written(s: string, toks: seq<Tok>)
    decreases |toks|
  {
    if toks == [] then Blank(s)
    else exists i: nat, k: nat :: StandsAt(s, toks[0], i, k) && Written(s[i + k..], toks[1..])
  }

  lemma {:induction false} LexBlanks(s: string, i: nat)
    requires i <= |s| && Blank(s[..i])
    ensures Lex(s) == Lex(s[i..])
  {
    if i == 0 {
      assert s[0..] == s;
    } else {
      BlankTail(s, i);
      LexBlanks(s[1..], i - 1);
      assert s[1..][i - 1..] == s[i..];
    }
  }

  /** A token's text at the front is read as that token. */
  lemma LexFirst(s: string, t: Tok, k: nat)
    requires 0 < k <= |s| && TextOf(t, s[..k]) && EndsAt(t, s, k)
    ensures Lex(s) == Prepend([t], Lex(s[k..]))
  {
    hide Lex;
    match t
    case Str(body) =>
      assert s == [s[0]] + body + [s[0]] + s[k..];
      LexQuoted(s[0], body, s[k..]);
    case Word(w) =>
      if Bare(w) { LexFirstBare(s, w); } else if |w| == 2 { LexFirstPair(s, w); } else { LexFirstPunct(s, w); }
  }

  lemma LexFirstBare(s: string, w: string)
    requires w <= s && Bare(w) && (|w| == |s| || IsStop(s[|w|])) && !StartsPair(s)
    ensures Lex(s) == Prepend([Word(w)], Lex(s[|w|..]))
  {
    hide StartsPair, Prepend;
    assert s[..|w|] == w && s[0] == w[0];
    assert forall j :: 0 <= j < |w| ==> s[j] == w[j];
    WordScan(s, |w|);
  }

  lemma LexFirstPair(s: string, w: string)
    requires w <= s && |w| == 2 && StartsPair(w)
    ensures Lex(s) == Prepend([Word(w)], Lex(s[2..]))
  {
    hide Prepend;
    assert w[..2] == w && s[..2] == w && s[0] == w[0];
    assert w[0] == '<' || w[0] == '>' || w[0] == '!';
  }

  lemma LexFirstPunct(s: string, w: string)
    requires w <= s && |w| == 1 && IsPunct(w[0]) && !StartsPair(s)
    ensures Lex(s) == Prepend([Word(w)], Lex(s[1..]))
  {
    hide StartsPair, Prepend;
    assert s[..1] == w && s[0] == w[0];
  }

  lemma {:induction false} LexWritten(s: string, toks: seq<Tok>)
    requires Written(s, toks)
    ensures Lex(s) == Some(toks)
    decreases |toks|
  {
    hide Lex, TextOf, EndsAt;
    if toks == [] {
      assert s[..|s|] == s && s[|s|..] == "";
      LexBlanks(s, |s|);
      NothingToLex();
    } else {
      var i: nat, k: nat :| StandsAt(s, toks[0], i, k) && Written(s[i + k..], toks[1..]);
      StandsFacts(s, toks[0], i, k);
      LexBlanks(s, i);
      LexFirst(s[i..], toks[0], k);
      LexWritten(s[i + k..], toks[1..]);
      assert toks == [toks[0]] + toks[1..];
    }
  }

  lemma StandsFacts(s: string, t: Tok, i: nat, k: nat)
    requires StandsAt(s, t, i, k)
    ensures 0 < k && i + k <= |s| && Blank(s[..i]) && TextOf(t, s[i..][..k]) && EndsAt(t, s[i..], k)
    ensures s[i..][k..] == s[i + k..]
  {
    assert s[i..][..k] == s[i..i + k];
  }

  /** A blank in front does not matter. */
  lemma WrittenBlank(s: string, toks: seq<Tok>)
    requires s != "" && IsSpace(s[0]) && Written(s[1..], toks)
    ensures Written(s, toks)
  {
    hide TextOf, EndsAt;
    if toks != [] {
      var i: nat, k: nat :| StandsAt(s[1..], toks[0], i, k) && Written(s[1..][i + k..], toks[1..]);
      assert s[1..][i..i + k] == s[i + 1..i + 1 + k] && s[1..][i..] == s[i + 1..] && s[1..][i + k..] == s[i + 1 + k..];
      BlankMore(s, i);
      assert StandsAt(s, toks[0], i + 1, k);
    }
  }

  lemma WrittenFirst(s: string, t: Tok, k: nat, rest: seq<Tok>)
    requires 0 < k <= |s| && TextOf(t, s[..k]) && EndsAt(t, s, k) && Written(s[k..], rest)
    ensures Written(s, [t] + rest)
  {
    hide TextOf, EndsAt;
    assert s[0..0 + k] == s[..k] && s[0..] == s && s[..0] == "";
    var toks := [t] + rest;
    assert toks[1..] == rest && s[0 + k..] == s[k..];
    assert StandsAt(s, toks[0], 0, k) && Written(s[0 + k..], toks[1..]);
  }

  /** The token at the front of text that lexes and does not start with a blank. */
  lemma FirstText(s: string) returns (t: Tok, k: nat)
    requires s != "" && !IsSpace(s[0]) && Lex(s).Some?
    ensures 0 < k <= |s| && TextOf(t, s[..k]) && EndsAt(t, s, k) && Lex(s[k..]).Some?
    ensures Lex(s).value == [t] + Lex(s[k..]).value
  {
    if IsQuote(s[0]) {
      var e := QuoteEnd(s[1..], s[0]);
      t, k := Str(s[1..][..e]), e + 2;
      assert s[1..][e] == s[0] && s[..k] == [s[0]] + s[1..][..e] + [s[0]];
      assert s[1..][e + 1..] == s[k..];
    } else if StartsPair(s) {
      t, k := Word(s[..2]), 2;
      assert s[..2][..2] == s[..2] && s[..2][0] == s[0];
      assert s[0] == '<' || s[0] == '>' || s[0] == '!';
      PairIsNotBare(s[..2]);
    } else if IsPunct(s[0]) {
      t, k := Word(s[..1]), 1;
      assert s[..1][0] == s[0];
    } else {
      k := WordEnd(s);
      t := Word(s[..k]);
    }
  }

  lemma PairIsNotBare(w: string)
    requires |w| == 2 && StartsPair(w)
    ensures !Bare(w) && Symbol(w)
  {
    assert w[..2] == w;
    assert w[1] == '=' || w[1] == '>';
  }

  lemma {:induction false} WrittenLex(s: string)
    requires Lex(s).Some?
    ensures Written(s, Lex(s).value)
    decreases |s|
  {
    if s == "" {
      NothingToLex();
    } else if IsSpace(s[0]) {
      WrittenLex(s[1..]);
      WrittenBlank(s, Lex(s).value);
    } else {
      var t, k := FirstText(s);
      hide Lex, TextOf, EndsAt;
      WrittenLex(s[k..]);
      WrittenFirst(s, t, k, Lex(s[k..]).value);
    }
  }

  /** The lexer splits text into tokens exactly when the text is a way of writing them: blanks are free
      around tokens, and needed only where two would run into one. */
  lemma LexerIsLayout(s: string, toks: seq<Tok>)
    ensures Lex(s) == Some(toks) <==> Written(s, toks)
  {
    hide Lex, Written;
    if Lex(s) == Some(toks) {
      WrittenLex(s);
    } else if Written(s, toks) {
      LexWritten(s, toks);
    }
  }

  /** A word without blanks, quotes and the symbols `= < > , ( ) *` is one token. */
  lemma PlainWord(w: string)
    requires w != "" && forall c :: c in w ==> !IsSpace(c) && c !in "=<>,()*'\""
    ensures Lex(w) == Some([Word(w)])
  {
    hide Lex;
    assert Bare(w) by { forall i | 0 <= i < |w| ensures !IsStop(w[i]) { assert w[i] in w; } }
    assert !StartsPair(w) by { if |w| >= 2 { assert w[1] in w && w[..2] == [w[0], w[1]]; } }
    LexFirstBare(w, w);
    NothingToLex();
    PrependLaws([Word(w)], [], None);
    assert w[|w|..] == "";
  }

  /** The symbols. */
  lemma SymbolTokens()
    ensures forall c :: c in "=<>,()*" ==> Lex([c]) == Some([Word([c])])
    ensures Lex("<=") == Some([Word("<=")]) && Lex(">=") == Some([Word(">=")])
    ensures Lex("!=") == Some([Word("!=")]) && Lex("<>") == Some([Word("<>")])
  {
    hide Lex;
    forall c | c in "=<>,()*" ensures Lex([c]) == Some([Word([c])]) {
      LexFirstPunct([c], [c]);
      NothingToLex();
      PrependLaws([Word([c])], [], None);
      assert [c][1..] == "";
    }
    PairAlone("<=");
    PairAlone(">=");
    PairAlone("!=");
    PairAlone("<>");
  }

  /** Text between quotes of either kind is a string; an open quote is an error. */
  lemma StringTokens(s: string)
    ensures '\'' !in s ==> Lex("'" + s + "'") == Some([Str(s)])
    ensures '"' !in s ==> Lex("\"" + s + "\"") == Some([Str(s)])
    ensures '\'' !in s ==> Lex("'" + s) == None
  {
    hide Lex;
    NothingToLex();
    PrependLaws([Str(s)], [], None);
    if '\'' !in s {
      LexQuoted('\'', s, "");
      assert ['\''] + s + ['\''] + "" == "'" + s + "'";
      OpenQuote(s);
    }
    if '"' !in s {
      LexQuoted('"', s, "");
      assert ['"'] + s + ['"'] + "" == "\"" + s + "\"";
    }
  }

  lemma PairAlone(w: string)
    requires |w| == 2 && StartsPair(w)
    ensures Lex(w) == Some([Word(w)])
  {
    hide Lex;
    LexFirstPair(w, w);
    NothingToLex();
    PrependLaws([Word(w)], [], None);
    assert w[2..] == "";
  }

  lemma OpenQuote(s: string)
    requires '\'' !in s
    ensures Lex("'" + s) == None
  {
    var all := "'" + s;
    assert all[1..] == s && all[0] == '\'';
    assert forall j :: 0 <= j < |s| ==> s[j] in s;
    QuoteScan(s, '\'', |s|);
  }

  /** An exclamation mark runs into the word before it: only `!=` on its own is the operator. */
  lemma BangJoinsWord(w: string, rest: string)
    requires Bare(w)
    ensures Lex(w + "!=" + rest) == Prepend([Word(w + "!"), Word("=")], Lex(rest))
  {
    hide Lex, StartsPair;
    var s, word, tail := w + "!=" + rest, w + "!", ['='] + rest;
    assert s == word + tail && s[..|word|] == word && s[|word|..] == tail;
    assert word[|w|] == '!' && forall j :: 0 <= j < |w| ==> word[j] == w[j];
    NoPairBefore(s, w);
    LexFirstBare(s, word);
    assert tail[..1] == "=" && tail[1..] == rest;
    NoPairAtEquals(tail);
    LexFirstPunct(tail, "=");
    PrependLaws([Word(word)], [Word("=")], Lex(rest));
    assert [Word(word)] + [Word("=")] == [Word(word), Word("=")];
  }

  lemma NoPairBefore(s: string, w: string)
    requires Bare(w) && w + "!" <= s
    ensures !StartsPair(s)
  {
    assert s[0] == w[0] && s[1] == (w + "!")[1] && s[..2] == [s[0], s[1]];
    assert |w| > 1 ==> !IsStop(w[1]);
  }

  lemma NoPairAtEquals(s: string)
    requires s != "" && s[0] == '='
    ensures !StartsPair(s)
  {
    assert |s| >= 2 ==> s[..2][0] == '=';
  }
}
