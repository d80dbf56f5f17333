/**
 The identifier rewriter on characters: what it does to the text in front of it, with the quoting characters
 written out. No other function obeys these laws.
 */
module RewriterLaws {
  import opened SqlLexer
  import opened IdentifierRewriter

  /** The content of a literal as the text spells it: every quote twice. */
  function Doubled(content: string): string {
    if content == "" then ""
    else (if content[0] == '\'' then "''" else [content[0]]) + Doubled(content[1..])
  }

  /** A pair of characters that quotes an identifier. */
  predicate QuotePair(open: char, close: char) {
    (open == '"' && close == '"') || (open == '`' && close == '`') || (open == '[' && close == ']')
  }

  predicate Wordlike(a: Alphabet, c: char) {
    a.alnum(c) || c == '_'
  }

  /** A maximal word stands before `rest`. */
  predicate WordBefore(a: Alphabet, word: string, rest: string) {
    && word != "" && (a.alpha(word[0]) || word[0] == '_')
    && (forall i | 0 <= i < |word| :: Wordlike(a, word[i]))
    && (rest == "" || !Wordlike(a, rest[0]))
  }

  predicate Plain(a: Alphabet, c: char) {
    c != '\'' && c != '"' && c != '`' && c != '[' && c != '_' && !a.alpha(c)
  }

  /** The whole content of a quoted identifier is compared; its quotes stay. */
  predicate QuotedLaw(a: Alphabet, f: string -> string, oldName: string, newName: string,
                      open: char, close: char, content: string, rest: string)
  {
    QuotePair(open, close) && close !in content ==>
      f([open] + content + [close] + rest) ==
      [open] + (if a.fold(content) == a.fold(oldName) then newName else content) + [close] + f(rest)
  }

  /** A quote that is never closed: the content is compared without its last character. */
  predicate OpenQuoteLaw(a: Alphabet, f: string -> string, oldName: string, newName: string,
                         open: char, close: char, content: string)
  {
    QuotePair(open, close) && close !in content ==>
      f([open] + content) ==
      if a.fold(if content == "" then "" else content[..|content| - 1]) == a.fold(oldName)
      then [open] + newName + [close] else [open] + content
  }

  /** A literal is copied, closed or not. */
  predicate LiteralLaw(f: string -> string, content: string, rest: string) {
    && (rest == "" || rest[0] != '\'' ==>
          f("'" + Doubled(content) + "'" + rest) == "'" + Doubled(content) + "'" + f(rest))
    && f("'" + Doubled(content)) == "'" + Doubled(content)
  }

  predicate WordLaw(a: Alphabet, f: string -> string, oldName: string, newName: string, word: string, rest: string) {
    WordBefore(a, word, rest) ==>
      f(word + rest) == (if a.fold(word) == a.fold(oldName) then newName else word) + f(rest)
  }

  predicate PlainLaw(a: Alphabet, f: string -> string, c: char, rest: string) {
    Plain(a, c) ==> f([c] + rest) == [c] + f(rest)
  }

  ghost predicate Laws(a: Alphabet, f: string -> string, oldName: string, newName: string) {
    && f("") == ""
    && (forall open, close, content, rest :: QuotedLaw(a, f, oldName, newName, open, close, content, rest))
    && (forall open, close, content :: OpenQuoteLaw(a, f, oldName, newName, open, close, content))
    && (forall content, rest :: LiteralLaw(f, content, rest))
    && (forall word, rest :: WordLaw(a, f, oldName, newName, word, rest))
    && (forall c, rest :: PlainLaw(a, f, c, rest))
  }

  // ---------------------------------------------------------------------------------
  // The rewriter obeys them

  /** The rewriter on a text that starts with a given token. */
  lemma FrontToken(a: Alphabet, t: Token, rest: string, oldName: string, newName: string)
    requires a.Valid() && TokenOk(a, t) && Fits(a, t, rest)
    ensures Rewritten(a, Text(t) + rest, oldName, newName) ==
            Text(RewriteToken(a, t, oldName, newName)) + Rewritten(a, rest, oldName, newName)
  {
    FirstOfRendered(a, t, rest);
    var s := Text(t) + rest;
    RewriteOne(a, s, oldName, newName);
    assert s[|Text(t)|..] == rest;
  }

  lemma QuotedFront(a: Alphabet, open: char, close: char, content: string, rest: string, oldName: string, newName: string)
    requires a.Valid()
    ensures QuotedLaw(a, s => Rewritten(a, s, oldName, newName), oldName, newName, open, close, content, rest)
  {
    if QuotePair(open, close) && close !in content {
      FrontToken(a, Quoted(open, content, true), rest, oldName, newName);
    }
  }

  lemma OpenQuoteFront(a: Alphabet, open: char, close: char, content: string, oldName: string, newName: string)
    requires a.Valid()
    ensures OpenQuoteLaw(a, s => Rewritten(a, s, oldName, newName), oldName, newName, open, close, content)
  {
    if QuotePair(open, close) && close !in content {
      var t := Quoted(open, content, false);
      FrontToken(a, t, "", oldName, newName);
      assert Text(t) + "" == [open] + content;
    }
  }

  lemma {:induction false} DoubledLen(content: string, tail: string)
    requires tail == "" || tail == "'"
    ensures LiteralLen(Doubled(content) + tail) == |Doubled(content) + tail|
    ensures LiteralCloses(Doubled(content) + tail) <==> tail == "'"
  {
    var s := Doubled(content) + tail;
    if content == "" {
      assert s == tail;
    } else {
      DoubledLen(content[1..], tail);
      var rest := Doubled(content[1..]) + tail;
      if content[0] == '\'' {
        assert s == "''" + rest && s[2..] == rest;
      } else {
        assert s == [content[0]] + rest && s[1..] == rest;
      }
    }
  }

  lemma OpenLiteral(a: Alphabet, content: string, oldName: string, newName: string)
    requires a.Valid()
    ensures Rewritten(a, "'" + Doubled(content), oldName, newName) == "'" + Doubled(content)
  {
    DoubledLen(content, "");
    var open := "'" + Doubled(content);
    assert open[1..] == Doubled(content) + "";
    FrontToken(a, Literal(open), "", oldName, newName);
    assert open + "" == open;
  }

  lemma ClosedLiteral(a: Alphabet, content: string, rest: string, oldName: string, newName: string)
    requires a.Valid() && (rest == "" || rest[0] != '\'')
    ensures Rewritten(a, "'" + Doubled(content) + "'" + rest, oldName, newName) ==
            "'" + Doubled(content) + "'" + Rewritten(a, rest, oldName, newName)
  {
    DoubledLen(content, "'");
    var closed := "'" + Doubled(content) + "'";
    assert closed[1..] == Doubled(content) + "'";
    FrontToken(a, Literal(closed), rest, oldName, newName);
  }

  lemma LiteralFront(a: Alphabet, content: string, rest: string, oldName: string, newName: string)
    requires a.Valid()
    ensures LiteralLaw(s => Rewritten(a, s, oldName, newName), content, rest)
  {
    OpenLiteral(a, content, oldName, newName);
    if rest == "" || rest[0] != '\'' { ClosedLiteral(a, content, rest, oldName, newName); }
  }

  lemma WordFront(a: Alphabet, word: string, rest: string, oldName: string, newName: string)
    requires a.Valid()
    ensures WordLaw(a, s => Rewritten(a, s, oldName, newName), oldName, newName, word, rest)
  {
    if WordBefore(a, word, rest) { FrontToken(a, Word(word), rest, oldName, newName); }
  }

  lemma PlainFront(a: Alphabet, c: char, rest: string, oldName: string, newName: string)
    requires a.Valid()
    ensures PlainLaw(a, s => Rewritten(a, s, oldName, newName), c, rest)
  {
    if Plain(a, c) { FrontToken(a, Symbol(c), rest, oldName, newName); }
  }

  lemma RewriterObeys(a: Alphabet, oldName: string, newName: string)
    requires a.Valid()
    ensures Laws(a, s => Rewritten(a, s, oldName, newName), oldName, newName)
  {
    var f := s => Rewritten(a, s, oldName, newName);
    forall open, close, content, rest
      ensures QuotedLaw(a, f, oldName, newName, open, close, content, rest)
    {
      QuotedFront(a, open, close, content, rest, oldName, newName);
    }
    forall open, close, content
      ensures OpenQuoteLaw(a, f, oldName, newName, open, close, content)
    {
      OpenQuoteFront(a, open, close, content, oldName, newName);
    }
    forall content, rest
      ensures LiteralLaw(f, content, rest)
    {
      LiteralFront(a, content, rest, oldName, newName);
    }
    forall word, rest
      ensures WordLaw(a, f, oldName, newName, word, rest)
    {
      WordFront(a, word, rest, oldName, newName);
    }
    forall c, rest
      ensures PlainLaw(a, f, c, rest)
    {
      PlainFront(a, c, rest, oldName, newName);
    }
  }

  // ---------------------------------------------------------------------------------
  // Nothing else does

  /** Every text after an opening quote is the doubled content, up to a single quote or the end. */
  lemma {:induction false} LiteralBody(s: string) returns (content: string, rest: string)
    ensures (s == Doubled(content) && rest == "") ||
            (s == Doubled(content) + "'" + rest && (rest == "" || rest[0] != '\''))
  {
    if s == "" {
      content, rest := "", "";
    } else if s[0] == '\'' && |s| > 1 && s[1] == '\'' {
      content, rest := LiteralBody(s[2..]);
      assert s == "''" + s[2..];
      DoubledCons('\'', content);
      content := ['\''] + content;
    } else if s[0] == '\'' {
      content, rest := "", s[1..];
      assert s == "" + "'" + rest;
    } else {
      content, rest := LiteralBody(s[1..]);
      assert s == [s[0]] + s[1..];
      DoubledCons(s[0], content);
      content := [s[0]] + content;
    }
  }

  lemma DoubledCons(c: char, content: string)
    ensures Doubled([c] + content) == (if c == '\'' then "''" else [c]) + Doubled(content)
  {
    assert ([c] + content)[1..] == content;
  }

  /** The two functions agree on all texts shorter than `s`. */
  ghost predicate AgreeBelow(f: string -> string, g: string -> string, n: nat) {
    forall r: string | |r| < n :: f(r) == g(r)
  }

  lemma SameLiteral(a: Alphabet, f: string -> string, g: string -> string, oldName: string, newName: string,
                    content: string, rest: string)
    requires Laws(a, f, oldName, newName) && Laws(a, g, oldName, newName)
    requires (rest == "" || rest[0] != '\'') && f(rest) == g(rest)
    ensures f("'" + Doubled(content)) == g("'" + Doubled(content))
    ensures f("'" + Doubled(content) + "'" + rest) == g("'" + Doubled(content) + "'" + rest)
  {
    assert LiteralLaw(f, content, rest) && LiteralLaw(g, content, rest);
  }

  /** A text that starts with a single quote is a literal, open or closed, and a rest. */
  lemma LiteralSplit(s: string) returns (content: string, rest: string)
    requires s != "" && s[0] == '\''
    ensures |rest| < |s| && (rest == "" || rest[0] != '\'')
    ensures s == "'" + Doubled(content) || s == "'" + Doubled(content) + "'" + rest
  {
    content, rest := LiteralBody(s[1..]);
    assert s == "'" + s[1..];
    if s[1..] != Doubled(content) { assert s == "'" + Doubled(content) + "'" + rest; }
  }

  lemma QuoteSplit(s: string, close: char) returns (content: string, rest: string)
    requires s != ""
    ensures close !in content && |rest| < |s|
    ensures s == [s[0]] + content || s == [s[0]] + content + [close] + rest
  {
    var n := UntilLen(s[1..], close);
    content, rest := s[1..][..n], if n == |s| - 1 then "" else s[n + 2..];
    if n == |s| - 1 { assert s == [s[0]] + content; } else { assert s == [s[0]] + content + [close] + rest; }
  }

  lemma SameOpenQuote(a: Alphabet, f: string -> string, g: string -> string, oldName: string, newName: string,
                      open: char, close: char, content: string)
    requires Laws(a, f, oldName, newName) && Laws(a, g, oldName, newName)
    requires QuotePair(open, close) && close !in content
    ensures f([open] + content) == g([open] + content)
  {
    assert OpenQuoteLaw(a, f, oldName, newName, open, close, content);
    assert OpenQuoteLaw(a, g, oldName, newName, open, close, content);
  }

  lemma SameClosedQuote(a: Alphabet, f: string -> string, g: string -> string, oldName: string, newName: string,
                        open: char, close: char, content: string, rest: string)
    requires Laws(a, f, oldName, newName) && Laws(a, g, oldName, newName)
    requires QuotePair(open, close) && close !in content && f(rest) == g(rest)
    ensures f([open] + content + [close] + rest) == g([open] + content + [close] + rest)
  {
    assert QuotedLaw(a, f, oldName, newName, open, close, content, rest);
    assert QuotedLaw(a, g, oldName, newName, open, close, content, rest);
  }

  lemma SameQuoted(a: Alphabet, f: string -> string, g: string -> string, oldName: string, newName: string,
                   s: string, close: char)
    requires Laws(a, f, oldName, newName) && Laws(a, g, oldName, newName)
    requires s != "" && QuotePair(s[0], close) && AgreeBelow(f, g, |s|)
    ensures f(s) == g(s)
  {
    var content, rest := QuoteSplit(s, close);
    SameOpenQuote(a, f, g, oldName, newName, s[0], close, content);
    SameClosedQuote(a, f, g, oldName, newName, s[0], close, content, rest);
  }

  lemma SameWord(a: Alphabet, f: string -> string, g: string -> string, oldName: string, newName: string,
                 word: string, rest: string)
    requires Laws(a, f, oldName, newName) && Laws(a, g, oldName, newName)
    requires WordBefore(a, word, rest) && f(rest) == g(rest)
    ensures f(word + rest) == g(word + rest)
  {
    assert WordLaw(a, f, oldName, newName, word, rest) && WordLaw(a, g, oldName, newName, word, rest);
  }

  lemma WordSplit(a: Alphabet, s: string) returns (word: string, rest: string)
    requires a.Valid() && s != "" && (a.alpha(s[0]) || s[0] == '_')
    ensures s == word + rest && |rest| < |s| && WordBefore(a, word, rest)
  {
    var n := WordLen(a, s);
    word, rest := s[..n], s[n..];
  }

  lemma SamePlain(a: Alphabet, f: string -> string, g: string -> string, oldName: string, newName: string, s: string)
    requires Laws(a, f, oldName, newName) && Laws(a, g, oldName, newName)
    requires s != "" && Plain(a, s[0]) && AgreeBelow(f, g, |s|)
    ensures f(s) == g(s)
  {
    assert PlainLaw(a, f, s[0], s[1..]) && PlainLaw(a, g, s[0], s[1..]);
    assert s == [s[0]] + s[1..];
    assert f(s[1..]) == g(s[1..]);
  }

  lemma {:induction false} AtMostOne(a: Alphabet, f: string -> string, g: string -> string,
                                     oldName: string, newName: string, s: string)
    requires a.Valid() && Laws(a, f, oldName, newName) && Laws(a, g, oldName, newName)
    ensures f(s) == g(s)
    decreases |s|
  {
    if s != "" {
      forall r: string | |r| < |s|
        ensures f(r) == g(r)
      {
        AtMostOne(a, f, g, oldName, newName, r);
      }
      if s[0] == '\'' {
        var content, rest := LiteralSplit(s);
        SameLiteral(a, f, g, oldName, newName, content, rest);
      }
      else if s[0] == '"' || s[0] == '`' { SameQuoted(a, f, g, oldName, newName, s, s[0]); }
      else if s[0] == '[' { SameQuoted(a, f, g, oldName, newName, s, ']'); }
      else if a.alpha(s[0]) || s[0] == '_' {
        var word, rest := WordSplit(a, s);
        SameWord(a, f, g, oldName, newName, word, rest);
      }
      else { SamePlain(a, f, g, oldName, newName, s); }
    }
  }

  /** The rewriter is the one function with these laws. */
  lemma RewriterIsTheLaws(a: Alphabet, f: string -> string, oldName: string, newName: string)
    requires a.Valid()
    ensures Laws(a, f, oldName, newName) <==> forall s :: f(s) == Rewritten(a, s, oldName, newName)
  {
    RewriterObeys(a, oldName, newName);
    var g := s => Rewritten(a, s, oldName, newName);
    if Laws(a, f, oldName, newName) {
      forall s
        ensures f(s) == Rewritten(a, s, oldName, newName)
      {
        AtMostOne(a, f, g, oldName, newName, s);
      }
    }
    if forall s :: f(s) == Rewritten(a, s, oldName, newName) {
      SameLaws(a, f, g, oldName, newName);
    }
  }

  lemma SameLaws(a: Alphabet, f: string -> string, g: string -> string, oldName: string, newName: string)
    requires Laws(a, g, oldName, newName) && forall s :: f(s) == g(s)
    ensures Laws(a, f, oldName, newName)
  {
    forall open, close, content, rest
      ensures QuotedLaw(a, f, oldName, newName, open, close, content, rest)
    {
      assert QuotedLaw(a, g, oldName, newName, open, close, content, rest);
    }
    forall open, close, content
      ensures OpenQuoteLaw(a, f, oldName, newName, open, close, content)
    {
      assert OpenQuoteLaw(a, g, oldName, newName, open, close, content);
    }
    forall content, rest
      ensures LiteralLaw(f, content, rest)
    {
      assert LiteralLaw(g, content, rest);
    }
    forall word, rest
      ensures WordLaw(a, f, oldName, newName, word, rest)
    {
      assert WordLaw(a, g, oldName, newName, word, rest);
    }
    forall c, rest
      ensures PlainLaw(a, f, c, rest)
    {
      assert PlainLaw(a, g, c, rest);
    }
  }

  /** The names that the rewriter accepts: letters of the two ASCII ranges, digits and underscores, no digit first. */
  lemma AcceptedNames(s: string)
    ensures IsIdentifier(s) <==>
              && s != "" && !('0' <= s[0] <= '9')
              && forall c | c in s :: 'A' <= c <= 'Z' || 'a' <= c <= 'z' || '0' <= c <= '9' || c == '_'
  {
    if forall c | c in s :: 'A' <= c <= 'Z' || 'a' <= c <= 'z' || '0' <= c <= '9' || c == '_' {
      forall i | 0 <= i < |s|
        ensures AsciiLetter(s[i]) || s[i] == '_' || '0' <= s[i] <= '9'
      {
        assert s[i] in s;
      }
    }
  }
}
