/**
 The lexical view of SQL text behind the conservative identifier rewriter: string literals,
 quoted identifiers, words, and single symbols.  Comments and doubled double-quotes are not
 recognised, because the rewriter does not recognise them.
 */
module SqlLexer {

  /** Character classes and case folding; nothing else about them is used. */
  datatype Alphabet = Alphabet(alpha: char -> bool, alnum: char -> bool, fold: string -> string)
  {
    predicate WordStart(c: char) { alpha(c) || c == '_' }

    predicate WordChar(c: char) { alnum(c) || c == '_' }

    ghost predicate Valid() {
      && (forall c :: alpha(c) ==> alnum(c))
      && (forall c | AsciiLetter(c) :: alpha(c))
      && (forall c | '0' <= c <= '9' :: alnum(c))
      && !alnum('\'') && !alnum('"') && !alnum('`') && !alnum('[')
    }
  }

  predicate AsciiLetter(c: char) {
    'A' <= c <= 'Z' || 'a' <= c <= 'z'
  }

  /** The names that the rewriter accepts on either side. */
  predicate IsIdentifier(s: string) {
    && s != ""
    && (AsciiLetter(s[0]) || s[0] == '_')
    && forall i | 0 <= i < |s| :: AsciiLetter(s[i]) || s[i] == '_' || '0' <= s[i] <= '9'
  }

  predicate OpensQuote(c: char) {
    c == '"' || c == '`' || c == '['
  }

  function Closing(open: char): char {
    if open == '[' then ']' else open
  }

  datatype Token =
    | Literal(text: string)
    | Quoted(open: char, content: string, closed: bool)
    | Word(text: string)
    | Symbol(c: char)

  function Text(t: Token): string {
    match t
    case Literal(text) => text
    case Quoted(open, content, closed) => [open] + content + if closed then [Closing(open)] else ""
    case Word(text) => text
    case Symbol(c) => [c]
  }

  function Render(ts: seq<Token>): string {
    if ts == [] then "" else Text(ts[0]) + Render(ts[1..])
  }

  // ---------------------------------------------------------------------------------
  // Lexing

  /** Length of a literal after its opening quote; a doubled quote continues it. */
  function LiteralLen(s: string): nat
    ensures LiteralLen(s) <= |s|
  {
    if s == "" then 0
    else if s[0] == '\'' && |s| > 1 && s[1] == '\'' then 2 + LiteralLen(s[2..])
    else if s[0] == '\'' then 1
    else 1 + LiteralLen(s[1..])
  }

  /** Whether that literal ends with a quote. */
  predicate LiteralCloses(s: string) {
    if s == "" then false
    else if s[0] == '\'' && |s| > 1 && s[1] == '\'' then LiteralCloses(s[2..])
    else if s[0] == '\'' then true
    else LiteralCloses(s[1..])
  }

  /** Number of characters before the first `c`. */
  function UntilLen(s: string, c: char): nat
    ensures UntilLen(s, c) <= |s|
    ensures UntilLen(s, c) < |s| ==> s[UntilLen(s, c)] == c
    ensures forall i | 0 <= i < UntilLen(s, c) :: s[i] != c
  {
    if s == "" || s[0] == c then 0 else 1 + UntilLen(s[1..], c)
  }

  /** Number of leading word characters. */
  function WordLen(a: Alphabet, s: string): nat
    ensures WordLen(a, s) <= |s|
    ensures WordLen(a, s) < |s| ==> !a.WordChar(s[WordLen(a, s)])
    ensures forall i | 0 <= i < WordLen(a, s) :: a.WordChar(s[i])
  {
    if s == "" || !a.WordChar(s[0]) then 0 else 1 + WordLen(a, s[1..])
  }

  /** A quoted token spells the text it was read from. */
  lemma QuotedText(s: string, n: nat)
    requires s != "" && n < |s| && (n < |s| - 1 ==> s[1 + n] == Closing(s[0]))
    ensures var t := Quoted(s[0], s[1..1 + n], n < |s| - 1);
            |Text(t)| == (if n < |s| - 1 then n + 2 else |s|) && Text(t) == s[..|Text(t)|]
  {
  }

  function First(a: Alphabet, s: string): (t: Token)
    requires s != ""
    ensures 0 < |Text(t)| <= |s| && Text(t) == s[..|Text(t)|]
  {
    if s[0] == '\'' then Literal(s[..1 + LiteralLen(s[1..])])
    else if OpensQuote(s[0]) then
      var n := UntilLen(s[1..], Closing(s[0]));
      QuotedText(s, n);
      Quoted(s[0], s[1..1 + n], n < |s| - 1)
    else if a.WordStart(s[0]) then Word(s[..1 + WordLen(a, s[1..])])
    else Symbol(s[0])
  }

  function Lex(a: Alphabet, s: string): seq<Token> {
    if s == "" then [] else
    var t := First(a, s);
    [t] + Lex(a, s[|Text(t)|..])
  }

  // ---------------------------------------------------------------------------------
  // Token lists that come from text

  predicate TokenOk(a: Alphabet, t: Token) {
    match t
    case Literal(text) => text != "" && text[0] == '\'' && LiteralLen(text[1..]) == |text| - 1
    case Quoted(open, content, closed) => OpensQuote(open) && Closing(open) !in content
    case Word(text) =>
      text != "" && a.WordStart(text[0]) && forall i | 1 <= i < |text| :: a.WordChar(text[i])
    case Symbol(c) => c != '\'' && !OpensQuote(c) && !a.WordStart(c)
  }

  /** The token ends where `rest` begins. */
  predicate Fits(a: Alphabet, t: Token, rest: string) {
    match t
    case Literal(text) =>
      rest == "" || (text != "" && LiteralCloses(text[1..]) && rest[0] != '\'')
    case Quoted(_, _, closed) => closed || rest == ""
    case Word(_) => rest == "" || !a.WordChar(rest[0])
    case Symbol(_) => true
  }

  predicate WellFormed(a: Alphabet, ts: seq<Token>) {
    ts == [] || (TokenOk(a, ts[0]) && Fits(a, ts[0], Render(ts[1..])) && WellFormed(a, ts[1..]))
  }

  lemma {:induction false} LiteralStops(body: string, rest: string)
    requires LiteralLen(body) == |body|
    requires rest == "" || (LiteralCloses(body) && rest[0] != '\'')
    ensures LiteralLen(body + rest) == |body|
  {
    if rest == "" {
      assert body + rest == body;
    } else if body[0] == '\'' && |body| > 1 && body[1] == '\'' {
      assert (body + rest)[2..] == body[2..] + rest;
      LiteralStops(body[2..], rest);
    } else if body[0] == '\'' {
      assert |body| == 1;
    } else {
      assert (body + rest)[1..] == body[1..] + rest;
      LiteralStops(body[1..], rest);
    }
  }

  lemma {:induction false} LiteralTaken(s: string)
    ensures var body := s[..LiteralLen(s)];
            LiteralLen(body) == |body| && LiteralCloses(body) == LiteralCloses(s)
    ensures LiteralLen(s) < |s| ==> LiteralCloses(s) && s[LiteralLen(s)] != '\''
  {
    if s == "" {
    } else if s[0] == '\'' && |s| > 1 && s[1] == '\'' {
      LiteralTaken(s[2..]);
      assert s[..LiteralLen(s)][2..] == s[2..][..LiteralLen(s[2..])];
    } else if s[0] == '\'' {
    } else {
      LiteralTaken(s[1..]);
      var body := s[..LiteralLen(s)];
      assert body[1..] == s[1..][..LiteralLen(s[1..])];
      assert body[0] == s[0];
    }
  }

  lemma {:induction false} UntilStops(content: string, c: char, rest: string)
    requires c !in content
    requires rest == "" || rest[0] == c
    ensures UntilLen(content + rest, c) == |content|
  {
    if content == "" {
      assert content + rest == rest;
    } else {
      assert content[0] in content;
      assert (content + rest)[1..] == content[1..] + rest;
      assert forall x | x in content[1..] :: x in content;
      UntilStops(content[1..], c, rest);
    }
  }

  lemma {:induction false} WordStops(a: Alphabet, word: string, rest: string)
    requires forall i | 0 <= i < |word| :: a.WordChar(word[i])
    requires rest == "" || !a.WordChar(rest[0])
    ensures WordLen(a, word + rest) == |word|
  {
    if word == "" {
      assert word + rest == rest;
    } else {
      assert (word + rest)[1..] == word[1..] + rest;
      WordStops(a, word[1..], rest);
    }
  }

  lemma FirstLiteral(a: Alphabet, text: string, rest: string)
    requires TokenOk(a, Literal(text)) && Fits(a, Literal(text), rest)
    ensures First(a, text + rest) == Literal(text)
  {
    var s := text + rest;
    assert s[1..] == text[1..] + rest;
    LiteralStops(text[1..], rest);
    assert s[..|text|] == text;
  }

  lemma FirstQuoted(a: Alphabet, t: Token, rest: string)
    requires t.Quoted? && TokenOk(a, t) && Fits(a, t, rest)
    ensures First(a, Text(t) + rest) == t
  {
    var s := Text(t) + rest;
    var tail := (if t.closed then [Closing(t.open)] else "") + rest;
    assert s[1..] == t.content + tail;
    UntilStops(t.content, Closing(t.open), tail);
    assert s[1..1 + |t.content|] == t.content;
    assert s[0] == t.open && s[0] != '\'';
  }

  lemma FirstWord(a: Alphabet, text: string, rest: string)
    requires a.Valid() && TokenOk(a, Word(text)) && Fits(a, Word(text), rest)
    ensures First(a, text + rest) == Word(text)
  {
    var s := text + rest;
    assert s[0] == text[0] && a.WordChar(s[0]);
    assert s[1..] == text[1..] + rest;
    WordStops(a, text[1..], rest);
    assert s[..|text|] == text;
  }

  /** A well-formed token that fits its right neighbour is lexed back. */
  lemma FirstOfRendered(a: Alphabet, t: Token, rest: string)
    requires a.Valid() && TokenOk(a, t) && Fits(a, t, rest)
    ensures Text(t) != "" && First(a, Text(t) + rest) == t
  {
    match t {
      case Literal(text) => FirstLiteral(a, text, rest);
      case Quoted(_, _, _) => FirstQuoted(a, t, rest);
      case Word(text) => FirstWord(a, text, rest);
      case Symbol(c) => assert ([c] + rest)[0] == c;
    }
  }

  /** Rendering a well-formed token list and lexing it again gives the list back. */
  lemma {:induction false} LexOfRender(a: Alphabet, ts: seq<Token>)
    requires a.Valid() && WellFormed(a, ts)
    ensures Lex(a, Render(ts)) == ts
  {
    if ts != [] {
      var rest := Render(ts[1..]);
      FirstOfRendered(a, ts[0], rest);
      assert (Text(ts[0]) + rest)[|Text(ts[0])|..] == rest;
      LexOfRender(a, ts[1..]);
    }
  }

  lemma FirstIsWellFormed(a: Alphabet, s: string)
    requires a.Valid() && s != ""
    ensures var t := First(a, s); TokenOk(a, t) && Fits(a, t, s[|Text(t)|..])
  {
    var t := First(a, s);
    if s[0] == '\'' {
      LiteralTaken(s[1..]);
      assert t.text[1..] == s[1..][..LiteralLen(s[1..])];
    } else if OpensQuote(s[0]) {
      var n := UntilLen(s[1..], Closing(s[0]));
      assert t.content == s[1..][..n];
    } else if a.WordStart(s[0]) {
      var n := WordLen(a, s[1..]);
      assert forall i | 1 <= i < 1 + n :: s[i] == s[1..][i - 1];
    }
  }

  /** Lexing loses nothing and produces a well-formed list: the two are inverse bijections. */
  lemma {:induction false} RenderOfLex(a: Alphabet, s: string)
    requires a.Valid()
    ensures Render(Lex(a, s)) == s && WellFormed(a, Lex(a, s))
  {
    if s != "" {
      var t := First(a, s);
      var rest := s[|Text(t)|..];
      RenderOfLex(a, rest);
      FirstIsWellFormed(a, s);
      assert Lex(a, s)[1..] == Lex(a, rest);
      assert s == Text(t) + rest;
    }
  }
}
