/**
 The rewriter is a homomorphism of token lists, so its algebra is the algebra of renaming
 tokens one by one: idempotence, round trips, commutation, simultaneous substitution.
 */
module RewriterAlgebra {
  import opened Prelude
  import opened SqlLexer
  import opened IdentifierRewriter

  lemma NewNameIsWord(a: Alphabet, name: string)
    requires a.Valid() && IsIdentifier(name)
    ensures name != "" && a.WordStart(name[0]) && forall i | 0 <= i < |name| :: a.WordChar(name[i])
    ensures '"' !in name && '`' !in name && ']' !in name
  {
  }

  lemma RewrittenTokenOk(a: Alphabet, t: Token, oldName: string, newName: string)
    requires a.Valid() && IsIdentifier(newName) && TokenOk(a, t)
    ensures TokenOk(a, RewriteToken(a, t, oldName, newName))
  {
    NewNameIsWord(a, newName);
  }

  /** Rewriting never changes whether a text is empty, starts with a quote, or starts a word. */
  lemma FirstCharKept(a: Alphabet, t: Token, oldName: string, newName: string)
    requires a.Valid() && IsIdentifier(newName) && TokenOk(a, t)
    ensures var t' := RewriteToken(a, t, oldName, newName);
            && Text(t) != "" && Text(t') != ""
            && (Text(t')[0] == '\'' <==> Text(t)[0] == '\'')
            && (a.WordChar(Text(t')[0]) <==> a.WordChar(Text(t)[0]))
  {
    NewNameIsWord(a, newName);
  }

  lemma {:induction false} RewriteKeepsForm(a: Alphabet, ts: seq<Token>, oldName: string, newName: string)
    requires a.Valid() && IsIdentifier(newName) && WellFormed(a, ts)
    ensures WellFormed(a, RewriteAll(a, ts, oldName, newName))
  {
    if ts != [] {
      var rest := ts[1..];
      var rest' := RewriteAll(a, rest, oldName, newName);
      RewriteKeepsForm(a, rest, oldName, newName);
      assert RewriteAll(a, ts, oldName, newName)[1..] == rest';
      RewrittenTokenOk(a, ts[0], oldName, newName);
      if rest != [] {
        FirstCharKept(a, rest[0], oldName, newName);
        assert Render(rest)[0] == Text(rest[0])[0];
        assert Render(rest')[0] == Text(rest'[0])[0];
      }
    }
  }

  /**
   Lexing the output gives the input's tokens with the matching ones renamed: no token is
   split, merged, or shifted, for every text whatever.
   */
  lemma LexerHomomorphism(a: Alphabet, sql: string, oldName: string, newName: string)
    requires a.Valid() && IsIdentifier(newName)
    ensures Lex(a, Rewritten(a, sql, oldName, newName)) == RewriteAll(a, Lex(a, sql), oldName, newName)
  {
    RenderOfLex(a, sql);
    RewriteKeepsForm(a, Lex(a, sql), oldName, newName);
    LexOfRender(a, RewriteAll(a, Lex(a, sql), oldName, newName));
  }

  // ---------------------------------------------------------------------------------
  // What that renaming is

  /** Plain substitution: only a complete identifier that matches is replaced. */
  function Substitute(a: Alphabet, t: Token, oldName: string, newName: string): Token {
    match t
    case Quoted(open, content, true) => if a.fold(content) == a.fold(oldName) then Quoted(open, newName, true) else t
    case Word(text) => if a.fold(text) == a.fold(oldName) then Word(newName) else t
    case _ => t
  }

  function SubstituteAll(a: Alphabet, ts: seq<Token>, oldName: string, newName: string): seq<Token> {
    seq(|ts|, i requires 0 <= i < |ts| => Substitute(a, ts[i], oldName, newName))
  }

  /** The text ends inside a quoted identifier that matches after losing its last character. */
  predicate EndsTruncated(a: Alphabet, ts: seq<Token>, oldName: string) {
    ts != [] && var last := ts[|ts| - 1]; last.Quoted? && !last.closed && Matches(a, last, oldName)
  }

  lemma {:induction false} InnerQuotesClose(a: Alphabet, ts: seq<Token>, i: nat)
    requires WellFormed(a, ts) && i + 1 < |ts|
    ensures ts[i].Quoted? ==> ts[i].closed
  {
    if i == 0 {
      assert TokenOk(a, ts[1..][0]);
      assert Render(ts[1..]) != "";
    } else {
      InnerQuotesClose(a, ts[1..], i - 1);
    }
  }

  lemma SubstitutionOnTokens(a: Alphabet, ts: seq<Token>, oldName: string, newName: string)
    requires WellFormed(a, ts)
    ensures RewriteAll(a, ts, oldName, newName) == SubstituteAll(a, ts, oldName, newName)
            <==> !EndsTruncated(a, ts, oldName)
  {
    var rs, ss := RewriteAll(a, ts, oldName, newName), SubstituteAll(a, ts, oldName, newName);
    forall i | 0 <= i < |ts| - 1
      ensures rs[i] == ss[i]
    {
      InnerQuotesClose(a, ts, i);
    }
    if ts != [] {
      LastSubstituted(a, ts, oldName, newName);
      LastDecides(rs, ss);
    }
  }

  lemma LastSubstituted(a: Alphabet, ts: seq<Token>, oldName: string, newName: string)
    requires ts != []
    ensures var k := |ts| - 1;
            RewriteAll(a, ts, oldName, newName)[k] == SubstituteAll(a, ts, oldName, newName)[k] <==>
            !EndsTruncated(a, ts, oldName)
  {
  }

  lemma LastDecides(rs: seq<Token>, ss: seq<Token>)
    requires rs != [] && |rs| == |ss| && forall i | 0 <= i < |rs| - 1 :: rs[i] == ss[i]
    ensures rs == ss <==> rs[|rs| - 1] == ss[|ss| - 1]
  {
  }

  /**
   The rewriter substitutes complete identifiers and touches nothing else, exactly when the
   text does not end inside a quoted identifier that matches once truncated.
   */
  lemma SubstitutionExactly(a: Alphabet, sql: string, oldName: string, newName: string)
    requires a.Valid() && IsIdentifier(newName)
    ensures Lex(a, Rewritten(a, sql, oldName, newName)) == SubstituteAll(a, Lex(a, sql), oldName, newName)
            <==> !EndsTruncated(a, Lex(a, sql), oldName)
  {
    LexerHomomorphism(a, sql, oldName, newName);
    RenderOfLex(a, sql);
    SubstitutionOnTokens(a, Lex(a, sql), oldName, newName);
  }

  /** The truncated case exists: an open quote swallows a character and gets closed. */
  lemma OpenQuoteLosesText(a: Alphabet, last: char)
    requires a.Valid() && last != '"'
    ensures var sql := ['"', 'i', 'd', last];
            EndsTruncated(a, Lex(a, sql), "id") && Rewritten(a, sql, "id", "key") == "\"key\""
  {
    var t := Quoted('"', ['i', 'd', last], false);
    var sql := ['"', 'i', 'd', last];
    assert Render([t]) == sql by { assert [t][1..] == []; }
    assert WellFormed(a, [t]) by { assert [t][1..] == []; }
    LexOfRender(a, [t]);
    assert Inner(t) == "id";
    var r := Quoted('"', "key", true);
    assert RewriteAll(a, [t], "id", "key") == [r];
    assert Render([r]) == Text(r) by { assert [r][1..] == []; }
  }

  /** String literals survive unchanged, and no occurrence of the old name is left behind. */
  lemma NothingElseChanges(a: Alphabet, sql: string, oldName: string, newName: string)
    requires a.Valid() && IsIdentifier(newName)
    ensures var before, after := Lex(a, sql), Lex(a, Rewritten(a, sql, oldName, newName));
            && |after| == |before|
            && (forall i | 0 <= i < |before| :: !Matches(a, before[i], oldName) ==> after[i] == before[i])
            && (a.fold(newName) != a.fold(oldName) ==> NoMatch(a, after, oldName))
  {
    LexerHomomorphism(a, sql, oldName, newName);
    RewriteRemoves(a, Lex(a, sql), oldName, newName);
  }

  predicate NoMatch(a: Alphabet, ts: seq<Token>, name: string) {
    forall i | 0 <= i < |ts| :: !Matches(a, ts[i], name)
  }

  lemma RewriteRemoves(a: Alphabet, ts: seq<Token>, oldName: string, newName: string)
    ensures var rs := RewriteAll(a, ts, oldName, newName);
            && (forall i | 0 <= i < |ts| :: !Matches(a, ts[i], oldName) ==> rs[i] == ts[i])
            && (a.fold(newName) != a.fold(oldName) ==> NoMatch(a, rs, oldName))
  {
  }

  // ---------------------------------------------------------------------------------
  // Algebra

  /** Rewriting twice is rewriting once. */
  lemma Idempotent(a: Alphabet, sql: string, oldName: string, newName: string)
    requires a.Valid() && IsIdentifier(newName)
    ensures var once := Rewritten(a, sql, oldName, newName);
            Rewritten(a, once, oldName, newName) == once
  {
    LexerHomomorphism(a, sql, oldName, newName);
    var once := RewriteAll(a, Lex(a, sql), oldName, newName);
    assert RewriteAll(a, once, oldName, newName) == once;
  }

  /** Every token survives old-to-new followed by new-to-old. */
  predicate Returns(a: Alphabet, t: Token, oldName: string, newName: string) {
    || Name(t).None?
    || (if Matches(a, t, oldName) then Name(t).value == oldName && (t.Quoted? ==> t.closed)
        else !Matches(a, t, newName))
  }

  /**
   Rewriting there and back restores the text exactly when every identifier that matches the
   old name is complete and spelled just so, and no other identifier matches the new name.
   */
  lemma RoundTripExactly(a: Alphabet, sql: string, oldName: string, newName: string)
    requires a.Valid() && IsIdentifier(oldName) && IsIdentifier(newName)
    ensures Rewritten(a, Rewritten(a, sql, oldName, newName), newName, oldName) == sql <==>
            AllReturn(a, Lex(a, sql), oldName, newName)
  {
    LexerHomomorphism(a, sql, oldName, newName);
    var there := Rewritten(a, sql, oldName, newName);
    LexerHomomorphism(a, there, newName, oldName);
    RenderOfLex(a, sql);
    RoundTripOnTokens(a, Lex(a, sql), oldName, newName);
  }

  predicate AllReturn(a: Alphabet, ts: seq<Token>, oldName: string, newName: string) {
    forall i | 0 <= i < |ts| :: Returns(a, ts[i], oldName, newName)
  }

  lemma RoundTripOnTokens(a: Alphabet, ts: seq<Token>, oldName: string, newName: string)
    ensures RewriteAll(a, RewriteAll(a, ts, oldName, newName), newName, oldName) == ts <==>
            AllReturn(a, ts, oldName, newName)
  {
    var us := RewriteAll(a, RewriteAll(a, ts, oldName, newName), newName, oldName);
    forall i | 0 <= i < |ts|
      ensures us[i] == ts[i] <==> Returns(a, ts[i], oldName, newName)
    {
      assert us[i] == RewriteToken(a, RewriteToken(a, ts[i], oldName, newName), newName, oldName);
    }
    assert us == ts <==> forall i | 0 <= i < |ts| :: us[i] == ts[i];
  }

  /** Rewrites of different names into names that neither of them rewrites commute. */
  lemma IndependentRewritesCommute(a: Alphabet, sql: string, old1: string, new1: string, old2: string, new2: string)
    requires a.Valid() && IsIdentifier(new1) && IsIdentifier(new2)
    requires a.fold(old1) != a.fold(old2)
    requires a.fold(new1) != a.fold(old2) && a.fold(new2) != a.fold(old1)
    ensures Rewritten(a, Rewritten(a, sql, old1, new1), old2, new2) ==
            Rewritten(a, Rewritten(a, sql, old2, new2), old1, new1)
  {
    LexerHomomorphism(a, sql, old1, new1);
    LexerHomomorphism(a, sql, old2, new2);
    var ts := Lex(a, sql);
    var left := RewriteAll(a, RewriteAll(a, ts, old1, new1), old2, new2);
    var right := RewriteAll(a, RewriteAll(a, ts, old2, new2), old1, new1);
    assert left == right;
  }

  datatype Mapping = Mapping(oldName: string, newName: string)

  predicate SafeMappings(ms: seq<Mapping>) {
    forall m | m in ms :: IsIdentifier(m.oldName) && IsIdentifier(m.newName)
  }

  /** One rewrite after the other, in order. */
  function RewrittenInOrder(a: Alphabet, sql: string, ms: seq<Mapping>): string {
    if ms == [] then sql else
    var k := |ms| - 1;
    Rewritten(a, RewrittenInOrder(a, sql, ms[..k]), ms[k].oldName, ms[k].newName)
  }

  function InOrder(a: Alphabet, t: Token, ms: seq<Mapping>): Token {
    if ms == [] then t else
    var k := |ms| - 1;
    RewriteToken(a, InOrder(a, t, ms[..k]), ms[k].oldName, ms[k].newName)
  }

  /** All mappings at once: the one that matches the original token, if any. */
  function AtOnce(a: Alphabet, t: Token, ms: seq<Mapping>): Token {
    if ms == [] then t
    else if Matches(a, t, ms[0].oldName) then Rename(t, ms[0].newName)
    else AtOnce(a, t, ms[1..])
  }

  /** Old names differ, and no new name is renamed by a later mapping. */
  predicate Independent(a: Alphabet, ms: seq<Mapping>) {
    forall i, j | 0 <= i < j < |ms| ::
      a.fold(ms[i].oldName) != a.fold(ms[j].oldName) && a.fold(ms[i].newName) != a.fold(ms[j].oldName)
  }

  lemma {:induction false} InOrderOnTokens(a: Alphabet, sql: string, ms: seq<Mapping>)
    requires a.Valid() && SafeMappings(ms)
    ensures var ts, us := Lex(a, sql), Lex(a, RewrittenInOrder(a, sql, ms));
            |us| == |ts| && forall i | 0 <= i < |ts| :: us[i] == InOrder(a, ts[i], ms)
  {
    if ms != [] {
      var k := |ms| - 1;
      assert ms[k] in ms;
      assert forall m | m in ms[..k] :: m in ms;
      InOrderOnTokens(a, sql, ms[..k]);
      LexerHomomorphism(a, RewrittenInOrder(a, sql, ms[..k]), ms[k].oldName, ms[k].newName);
    }
  }

  lemma {:induction false} NoLaterMatch(a: Alphabet, t: Token, ms: seq<Mapping>)
    requires forall i | 0 <= i < |ms| :: !Matches(a, t, ms[i].oldName)
    ensures InOrder(a, t, ms) == t
  {
    if ms != [] { NoLaterMatch(a, t, ms[..|ms| - 1]); }
  }

  lemma {:induction false} InOrderFromHead(a: Alphabet, t: Token, ms: seq<Mapping>)
    requires ms != []
    ensures InOrder(a, t, ms) == InOrder(a, RewriteToken(a, t, ms[0].oldName, ms[0].newName), ms[1..])
  {
    if |ms| > 1 {
      var k := |ms| - 1;
      InOrderFromHead(a, t, ms[..k]);
      assert ms[..k][1..] == ms[1..][..k - 1];
    } else {
      assert ms[..0] == [] && ms[1..] == [];
    }
  }

  lemma {:induction false} InOrderIsAtOnce(a: Alphabet, t: Token, ms: seq<Mapping>)
    requires Independent(a, ms)
    ensures InOrder(a, t, ms) == AtOnce(a, t, ms)
  {
    if ms != [] {
      InOrderFromHead(a, t, ms);
      if Matches(a, t, ms[0].oldName) {
        var t' := Rename(t, ms[0].newName);
        assert forall i | 0 <= i < |ms[1..]| :: !Matches(a, t', ms[1..][i].oldName);
        NoLaterMatch(a, t', ms[1..]);
      } else {
        assert forall i | 0 <= i < |ms[1..]| :: ms[1..][i] == ms[i + 1];
        InOrderIsAtOnce(a, t, ms[1..]);
      }
    }
  }

  /** The ordered loop over an audited diff is one simultaneous substitution. */
  lemma OrderedIsSimultaneous(a: Alphabet, sql: string, ms: seq<Mapping>)
    requires a.Valid() && SafeMappings(ms) && Independent(a, ms)
    ensures var ts, us := Lex(a, sql), Lex(a, RewrittenInOrder(a, sql, ms));
            |us| == |ts| && forall i | 0 <= i < |ts| :: us[i] == AtOnce(a, ts[i], ms)
  {
    InOrderOnTokens(a, sql, ms);
    forall i | 0 <= i < |Lex(a, sql)|
      ensures InOrder(a, Lex(a, sql)[i], ms) == AtOnce(a, Lex(a, sql)[i], ms)
    {
      InOrderIsAtOnce(a, Lex(a, sql)[i], ms);
    }
  }
}
