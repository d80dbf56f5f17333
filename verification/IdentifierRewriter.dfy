/** Rewriting one SQL identifier: the index loop, and the algebra it obeys. */
module IdentifierRewriter {
  import opened Prelude
  import opened SqlLexer

  /** The text compared with the old name: an unterminated quote loses its last character. */
  function Inner(t: Token): string
    requires t.Quoted?
  {
    if t.closed || t.content == "" then t.content else t.content[..|t.content| - 1]
  }

  /** What the rewriter compares: nothing for literals and symbols. */
  function Name(t: Token): Option<string> {
    match t
    case Quoted(_, _, _) => Some(Inner(t))
    case Word(text) => Some(text)
    case _ => None
  }

  predicate Matches(a: Alphabet, t: Token, name: string) {
    Name(t).Some? && a.fold(Name(t).value) == a.fold(name)
  }

  /** The same kind of token, spelled with another name; quotes come out closed. */
  function Rename(t: Token, name: string): Token {
    match t
    case Quoted(open, _, _) => Quoted(open, name, true)
    case Word(_) => Word(name)
    case _ => t
  }

  function RewriteToken(a: Alphabet, t: Token, oldName: string, newName: string): Token {
    if Matches(a, t, oldName) then Rename(t, newName) else t
  }

  function RewriteAll(a: Alphabet, ts: seq<Token>, oldName: string, newName: string): (r: seq<Token>)
    ensures |r| == |ts|
    ensures forall i | 0 <= i < |ts| :: r[i] == RewriteToken(a, ts[i], oldName, newName)
  {
    if ts == [] then [] else [RewriteToken(a, ts[0], oldName, newName)] + RewriteAll(a, ts[1..], oldName, newName)
  }

  function Rewritten(a: Alphabet, sql: string, oldName: string, newName: string): string {
    Render(RewriteAll(a, Lex(a, sql), oldName, newName))
  }

  function Join(parts: seq<string>): string {
    if parts == [] then "" else Join(parts[..|parts| - 1]) + parts[|parts| - 1]
  }

  lemma JoinSnoc(parts: seq<string>, chunk: string)
    ensures Join(parts + [chunk]) == Join(parts) + chunk
  {
    assert (parts + [chunk])[..|parts|] == parts;
  }

  // ---------------------------------------------------------------------------------
  // The loop

  /** End of the literal that opens at `start`. */
  method ScanLiteral(sql: string, start: nat) returns (index: nat)
    requires start < |sql|
    ensures index == start + 1 + LiteralLen(sql[start + 1..]) <= |sql|
  {
    index := start + 1;
    while index < |sql|
      invariant start < index <= |sql|
      invariant index + LiteralLen(sql[index..]) == start + 1 + LiteralLen(sql[start + 1..])
    {
      assert sql[index..][1..] == sql[index + 1..];
      if sql[index] == '\'' && index + 1 < |sql| && sql[index + 1] == '\'' {
        assert sql[index..][2..] == sql[index + 2..];
        index := index + 2;
        continue;
      }
      if sql[index] == '\'' {
        index := index + 1;
        break;
      }
      index := index + 1;
    }
  }

  /** First position from `from` on that holds `c`, or the end. */
  method ScanUntil(sql: string, from: nat, c: char) returns (index: nat)
    requires from <= |sql|
    ensures index == from + UntilLen(sql[from..], c) <= |sql|
  {
    index := from;
    while index < |sql| && sql[index] != c
      invariant from <= index <= |sql|
      invariant index + UntilLen(sql[index..], c) == from + UntilLen(sql[from..], c)
    {
      assert sql[index..][1..] == sql[index + 1..];
      index := index + 1;
    }
  }

  method ScanWord(a: Alphabet, sql: string, from: nat) returns (index: nat)
    requires from <= |sql|
    ensures index == from + WordLen(a, sql[from..]) <= |sql|
  {
    index := from;
    while index < |sql| && a.WordChar(sql[index])
      invariant from <= index <= |sql|
      invariant index + WordLen(a, sql[index..]) == from + WordLen(a, sql[from..])
    {
      assert sql[index..][1..] == sql[index + 1..];
      index := index + 1;
    }
  }

  lemma QuotedAt(a: Alphabet, sql: string, start: nat, index: nat)
    requires start < |sql| && OpensQuote(sql[start])
    requires index == start + 1 + UntilLen(sql[start + 1..], Closing(sql[start])) <= |sql|
    ensures var t := Quoted(sql[start], sql[start + 1..index], index < |sql|);
            First(a, sql[start..]) == t && Text(t) == sql[start..Min(index + 1, |sql|)]
  {
    var rest := sql[start..];
    assert rest[1..] == sql[start + 1..];
    assert rest[1..1 + (index - start - 1)] == sql[start + 1..index];
    QuotedText(rest, index - start - 1);
  }

  lemma InnerOfText(t: Token, quoted: string)
    requires t.Quoted? && quoted == Text(t)
    ensures Inner(t) == if |quoted| >= 2 then quoted[1..|quoted| - 1] else ""
  {
  }

  method QuotedChunk(a: Alphabet, sql: string, start: nat, oldName: string, newName: string)
    returns (chunk: string, index: nat)
    requires start < |sql| && OpensQuote(sql[start])
    ensures var t := First(a, sql[start..]);
            index == start + |Text(t)| <= |sql| && chunk == Text(RewriteToken(a, t, oldName, newName))
  {
    var c := sql[start];
    var closing := Closing(c);
    index := ScanUntil(sql, start + 1, closing);
    QuotedAt(a, sql, start, index);
    ghost var t := Quoted(c, sql[start + 1..index], index < |sql|);
    index := Min(index + 1, |sql|);
    var quoted := sql[start..index];
    var inner := if |quoted| >= 2 then quoted[1..|quoted| - 1] else "";
    InnerOfText(t, quoted);
    chunk := if a.fold(inner) == a.fold(oldName) then [c] + newName + [closing] else quoted;
  }

  lemma LiteralAt(a: Alphabet, sql: string, start: nat, index: nat)
    requires start < |sql| && sql[start] == '\'' && index == start + 1 + LiteralLen(sql[start + 1..]) <= |sql|
    ensures First(a, sql[start..]) == Literal(sql[start..index])
  {
    assert sql[start..][1..] == sql[start + 1..];
    assert sql[start..][..index - start] == sql[start..index];
  }

  lemma WordAt(a: Alphabet, sql: string, start: nat, index: nat)
    requires start < |sql| && sql[start] != '\'' && !OpensQuote(sql[start]) && a.WordStart(sql[start])
    requires index == start + 1 + WordLen(a, sql[start + 1..]) <= |sql|
    ensures First(a, sql[start..]) == Word(sql[start..index])
  {
    assert sql[start..][1..] == sql[start + 1..];
    assert sql[start..][..index - start] == sql[start..index];
  }

  /** The next chunk of output and where the input continues. */
  method NextChunk(a: Alphabet, sql: string, start: nat, oldName: string, newName: string)
    returns (chunk: string, index: nat)
    requires start < |sql|
    ensures var t := First(a, sql[start..]);
            index == start + |Text(t)| <= |sql| && chunk == Text(RewriteToken(a, t, oldName, newName))
  {
    var c := sql[start];
    if c == '\'' {
      index := ScanLiteral(sql, start);
      chunk := sql[start..index];
      LiteralAt(a, sql, start, index);
    } else if OpensQuote(c) {
      chunk, index := QuotedChunk(a, sql, start, oldName, newName);
    } else if a.WordStart(c) {
      index := ScanWord(a, sql, start + 1);
      var token := sql[start..index];
      WordAt(a, sql, start, index);
      chunk := if a.fold(token) == a.fold(oldName) then newName else token;
    } else {
      chunk := [c];
      index := start + 1;
    }
  }

  /** One round of the loop keeps the output so far plus the rewriting of the rest. */
  lemma LoopStep(a: Alphabet, sql: string, index: nat, next: nat, oldName: string, newName: string,
                 output: string, chunk: string)
    requires index < |sql|
    requires var t := First(a, sql[index..]);
             next == index + |Text(t)| <= |sql| && chunk == Text(RewriteToken(a, t, oldName, newName))
    ensures output + Rewritten(a, sql[index..], oldName, newName) ==
            output + chunk + Rewritten(a, sql[next..], oldName, newName)
  {
    var rest := sql[index..];
    assert rest[next - index..] == sql[next..];
    RewriteOne(a, rest, oldName, newName);
    Regroup(output, chunk, Rewritten(a, sql[next..], oldName, newName));
  }

  /** `rewrite_sql_identifier`: the index loop renders the rewritten token list. */
  method RewriteSqlIdentifier(a: Alphabet, sql: string, oldName: string, newName: string)
    returns (r: Result<string, string>)
    ensures r.Ok? <==> IsIdentifier(oldName) && IsIdentifier(newName)
    ensures r.Ok? ==> r.value == Rewritten(a, sql, oldName, newName)
  {
    if !IsIdentifier(oldName) || !IsIdentifier(newName) {
      return Err("Unsafe SQL identifier mapping");
    }
    var output: seq<string> := [];
    var index := 0;
    assert sql[0..] == sql;
    while index < |sql|
      invariant index <= |sql|
      invariant Join(output) + Rewritten(a, sql[index..], oldName, newName) == Rewritten(a, sql, oldName, newName)
    {
      var chunk, next := NextChunk(a, sql, index, oldName, newName);
      LoopStep(a, sql, index, next, oldName, newName, Join(output), chunk);
      JoinSnoc(output, chunk);
      output := output + [chunk];
      index := next;
    }
    return Ok(Join(output));
  }

  lemma RewriteOne(a: Alphabet, s: string, oldName: string, newName: string)
    requires s != ""
    ensures var t := First(a, s);
            Rewritten(a, s, oldName, newName) ==
            Text(RewriteToken(a, t, oldName, newName)) + Rewritten(a, s[|Text(t)|..], oldName, newName)
  {
    var t := First(a, s);
    assert Lex(a, s)[1..] == Lex(a, s[|Text(t)|..]);
  }
}
