/**
 Texts that spell a query: whatever their layout and quoting, the text rewriter turns a text of a query
 into a text of the query with its identifiers renamed.
 */
module QueryText {
  import opened Prelude
  import opened Strings
  import opened SqlLexer
  import opened IdentifierRewriter
  import opened RewriterAlgebra
  import opened Database
  import opened Queries
  import opened QueryNames

  // ---------------------------------------------------------------------------------
  // What a text spells

  /** A name, quoted or not, or any other token. */
  datatype Lexeme = Ident(name: string) | Mark(text: string)

  function LexemeOf(t: Token): Lexeme {
    match Name(t)
    case Some(x) => Ident(x)
    case None => Mark(SqlLexer.Text(t))
  }

  predicate Blank(t: Token) {
    t.Symbol? && IsSpace(t.c)
  }

  /** The tokens without layout. */
  function Lexemes(ts: seq<Token>): seq<Lexeme> {
    if ts == [] then [] else (if Blank(ts[0]) then [] else [LexemeOf(ts[0])]) + Lexemes(ts[1..])
  }

  function RespellLexeme(l: Lexeme, g: string -> string): Lexeme {
    match l
    case Ident(x) => Ident(g(x))
    case Mark(_) => l
  }

  function RespellLexemes(ls: seq<Lexeme>, g: string -> string): (r: seq<Lexeme>)
    ensures |r| == |ls| && forall i | 0 <= i < |ls| :: r[i] == RespellLexeme(ls[i], g)
  {
    seq(|ls|, i requires 0 <= i < |ls| => RespellLexeme(ls[i], g))
  }

  lemma RespellConcat(a: seq<Lexeme>, b: seq<Lexeme>, g: string -> string)
    ensures RespellLexemes(a + b, g) == RespellLexemes(a, g) + RespellLexemes(b, g)
  {
  }

  /** Rewriting tokens renames lexemes, and nothing else happens to them. */
  lemma {:induction false} RewrittenLexemes(a: Alphabet, ts: seq<Token>, oldName: string, newName: string)
    requires forall x :: a.fold(x) == Fold(x)
    ensures Lexemes(RewriteAll(a, ts, oldName, newName)) ==
            RespellLexemes(Lexemes(ts), x => RenameName(oldName, newName, x))
  {
    if ts != [] {
      var g := x => RenameName(oldName, newName, x);
      RewrittenLexemes(a, ts[1..], oldName, newName);
      var head := if Blank(ts[0]) then [] else [LexemeOf(ts[0])];
      RespellConcat(head, Lexemes(ts[1..]), g);
      var rs := RewriteAll(a, ts, oldName, newName);
      assert rs[1..] == RewriteAll(a, ts[1..], oldName, newName);
      assert rs[0] == RewriteToken(a, ts[0], oldName, newName);
    }
  }

  // ---------------------------------------------------------------------------------
  // How a query is spelled

  datatype Keyword = SelectWord | FromWord | AsWord | WhereWord | OrderWord | ByWord | LimitWord

  /**
   Spellings of keywords and values, the words that are no names, whether aliases follow the keyword, and
   the condition of a query without one.
   */
  datatype Style = Style(keyword: Keyword -> string, value: Value -> seq<Lexeme>, reserved: string -> bool,
                         asWord: bool, unconditional: Value)
  {
    ghost predicate Valid() {
      && (forall k :: reserved(keyword(k)))
      && forall v, l | l in value(v) && l.Ident? :: reserved(l.name)
    }
  }

  function ShowRef(r: Ref): seq<Lexeme> {
    match r.qualifier
    case None => [Ident(r.name)]
    case Some(x) => [Ident(x), Mark("."), Ident(r.name)]
  }

  function Marks(s: string): (r: seq<Lexeme>)
    ensures forall i | 0 <= i < |r| :: r[i].Mark?
  {
    seq(|s|, i requires 0 <= i < |s| => Mark([s[i]]))
  }

  /** Reserved words and symbols stand between their operands; other operators are called. */
  function ShowExpr(style: Style, e: Expr): seq<Lexeme> {
    match e
    case Lit(v) => style.value(v)
    case Col(ref) => ShowRef(ref)
    case Apply(op, left, right) =>
      var l, r := ShowExpr(style, left), ShowExpr(style, right);
      if style.reserved(op) then [Mark("(")] + l + [Ident(op)] + r + [Mark(")")]
      else if IsIdentifier(op) then [Ident(op), Mark("(")] + l + [Mark(",")] + r + [Mark(")")]
      else [Mark("(")] + l + Marks(op) + r + [Mark(")")]
  }

  function ShowItem(style: Style, item: Item): seq<Lexeme> {
    match item
    case Star => [Mark("*")]
    case QualifiedStar(x) => [Ident(x), Mark("."), Mark("*")]
    case Output(e) => ShowExpr(style, e)
  }

  function ShowBinding(style: Style, b: Binding): seq<Lexeme> {
    match b.alias
    case None => [Ident(b.table)]
    case Some(x) =>
      if style.asWord then [Ident(b.table), Ident(style.keyword(AsWord)), Ident(x)] else [Ident(b.table), Ident(x)]
  }

  function Listed(parts: seq<seq<Lexeme>>): seq<Lexeme> {
    if parts == [] then []
    else if |parts| == 1 then parts[0]
    else Listed(parts[..|parts| - 1]) + ([Mark(",")] + parts[|parts| - 1])
  }

  function ShowItems(style: Style, items: seq<Item>): seq<seq<Lexeme>> {
    seq(|items|, i requires 0 <= i < |items| => ShowItem(style, items[i]))
  }

  function ShowBindings(style: Style, from: seq<Binding>): seq<seq<Lexeme>> {
    seq(|from|, b requires 0 <= b < |from| => ShowBinding(style, from[b]))
  }

  function ShowExprs(style: Style, es: seq<Expr>): seq<seq<Lexeme>> {
    seq(|es|, i requires 0 <= i < |es| => ShowExpr(style, es[i]))
  }

  function Words(style: Style, keywords: seq<Keyword>): (r: seq<Lexeme>)
    ensures |r| == |keywords| && forall i | 0 <= i < |r| :: r[i] == Ident(style.keyword(keywords[i]))
  {
    seq(|keywords|, i requires 0 <= i < |keywords| => Ident(style.keyword(keywords[i])))
  }

  function ShowWhere(style: Style, e: Expr): seq<Lexeme> {
    if e == Lit(style.unconditional) then [] else Words(style, [WhereWord]) + ShowExpr(style, e)
  }

  function ShowOrder(style: Style, order: seq<Expr>): seq<Lexeme> {
    if order == [] then [] else Words(style, [OrderWord, ByWord]) + Listed(ShowExprs(style, order))
  }

  function ShowLimit(style: Style, limit: Option<nat>): seq<Lexeme> {
    if limit.None? then [] else Words(style, [LimitWord]) + style.value(Integer(limit.value))
  }

  function Show(style: Style, q: Query): seq<Lexeme> {
    Words(style, [SelectWord]) + Listed(ShowItems(style, q.items)) +
    (Words(style, [FromWord]) + Listed(ShowBindings(style, q.from))) +
    ShowWhere(style, q.where) +
    (ShowOrder(style, q.order) + ShowLimit(style, q.limit))
  }

  // ---------------------------------------------------------------------------------
  // Renaming and spelling commute

  /** Reserved words and symbols are left alone, and other names stay names. */
  ghost predicate Careful(style: Style, g: string -> string) {
    && (forall x | style.reserved(x) || !IsIdentifier(x) :: g(x) == x)
    && forall x | IsIdentifier(x) && !style.reserved(x) :: IsIdentifier(g(x)) && !style.reserved(g(x))
  }

  lemma RespellUnchanged(ls: seq<Lexeme>, g: string -> string)
    requires forall l | l in ls && l.Ident? :: g(l.name) == l.name
    ensures RespellLexemes(ls, g) == ls
  {
  }

  lemma WordsKept(style: Style, keywords: seq<Keyword>, g: string -> string)
    requires style.Valid() && Careful(style, g)
    ensures RespellLexemes(Words(style, keywords), g) == Words(style, keywords)
  {
  }

  lemma ValueKept(style: Style, v: Value, g: string -> string)
    requires style.Valid() && Careful(style, g)
    ensures RespellLexemes(style.value(v), g) == style.value(v)
  {
    RespellUnchanged(style.value(v), g);
  }

  lemma RespellFive(a: seq<Lexeme>, b: seq<Lexeme>, c: seq<Lexeme>, d: seq<Lexeme>, e: seq<Lexeme>, g: string -> string)
    ensures RespellLexemes(a + b + c + d + e, g) ==
            RespellLexemes(a, g) + RespellLexemes(b, g) + RespellLexemes(c, g) + RespellLexemes(d, g) + RespellLexemes(e, g)
  {
    RespellConcat(a + b + c + d, e, g);
    RespellConcat(a + b + c, d, g);
    RespellConcat(a + b, c, g);
    RespellConcat(a, b, g);
  }

  lemma {:induction false} ShownExpr(style: Style, e: Expr, g: string -> string)
    requires style.Valid() && Careful(style, g)
    ensures RespellLexemes(ShowExpr(style, e), g) == ShowExpr(style, RespellExpr(e, g))
  {
    match e
    case Lit(v) => ValueKept(style, v, g);
    case Col(ref) =>
    case Apply(op, left, right) =>
      ShownExpr(style, left, g);
      ShownExpr(style, right, g);
      ShownApply(style, op, ShowExpr(style, left), ShowExpr(style, right), g);
  }

  lemma ShownApply(style: Style, op: string, l: seq<Lexeme>, r: seq<Lexeme>, g: string -> string)
    requires style.Valid() && Careful(style, g)
    ensures style.reserved(g(op)) == style.reserved(op) && IsIdentifier(g(op)) == IsIdentifier(op)
    ensures RespellLexemes([Mark("(")] + l + [Ident(op)] + r + [Mark(")")], g) ==
            [Mark("(")] + RespellLexemes(l, g) + [Ident(g(op))] + RespellLexemes(r, g) + [Mark(")")]
    ensures RespellLexemes([Ident(op), Mark("(")] + l + [Mark(",")] + r + [Mark(")")], g) ==
            [Ident(g(op)), Mark("(")] + RespellLexemes(l, g) + [Mark(",")] + RespellLexemes(r, g) + [Mark(")")]
    ensures !IsIdentifier(op) ==>
              RespellLexemes([Mark("(")] + l + Marks(op) + r + [Mark(")")], g) ==
              [Mark("(")] + RespellLexemes(l, g) + Marks(g(op)) + RespellLexemes(r, g) + [Mark(")")]
  {
    RespellFive([Mark("(")], l, [Ident(op)], r, [Mark(")")], g);
    RespellFive([Ident(op), Mark("(")], l, [Mark(",")], r, [Mark(")")], g);
    RespellFive([Mark("(")], l, Marks(op), r, [Mark(")")], g);
    assert RespellLexemes([Mark("(")], g) == [Mark("(")] && RespellLexemes([Mark(")")], g) == [Mark(")")];
    assert RespellLexemes([Mark(",")], g) == [Mark(",")] && RespellLexemes(Marks(op), g) == Marks(op);
    assert RespellLexemes([Ident(op)], g) == [Ident(g(op))];
    assert RespellLexemes([Ident(op), Mark("(")], g) == [Ident(g(op)), Mark("(")];
  }

  lemma {:induction false} ShownList(parts: seq<seq<Lexeme>>, parts': seq<seq<Lexeme>>, g: string -> string)
    requires |parts'| == |parts| && forall i | 0 <= i < |parts| :: parts'[i] == RespellLexemes(parts[i], g)
    ensures RespellLexemes(Listed(parts), g) == Listed(parts')
  {
    if |parts| > 1 {
      var k := |parts| - 1;
      ShownList(parts[..k], parts'[..k], g);
      RespellConcat(Listed(parts[..k]), [Mark(",")] + parts[k], g);
      RespellConcat([Mark(",")], parts[k], g);
      assert RespellLexemes([Mark(",")], g) == [Mark(",")];
    }
  }

  lemma ShownItems(style: Style, items: seq<Item>, g: string -> string)
    requires style.Valid() && Careful(style, g)
    ensures RespellLexemes(Listed(ShowItems(style, items)), g) == Listed(ShowItems(style, RespellItems(items, g)))
  {
    forall i | 0 <= i < |items|
      ensures ShowItem(style, RespellItem(items[i], g)) == RespellLexemes(ShowItem(style, items[i]), g)
    {
      if items[i].Output? { ShownExpr(style, items[i].e, g); }
    }
    ShownList(ShowItems(style, items), ShowItems(style, RespellItems(items, g)), g);
  }

  lemma ShownBinding(style: Style, b: Binding, g: string -> string)
    requires style.Valid() && Careful(style, g)
    ensures RespellLexemes(ShowBinding(style, b), g) == ShowBinding(style, RespellBinding(b, g))
  {
    assert g(style.keyword(AsWord)) == style.keyword(AsWord);
  }

  lemma ShownBindings(style: Style, from: seq<Binding>, g: string -> string)
    requires style.Valid() && Careful(style, g)
    ensures RespellLexemes(Listed(ShowBindings(style, from)), g) == Listed(ShowBindings(style, RespellBindings(from, g)))
  {
    forall b | 0 <= b < |from|
      ensures ShowBinding(style, RespellBinding(from[b], g)) == RespellLexemes(ShowBinding(style, from[b]), g)
    {
      ShownBinding(style, from[b], g);
    }
    ShownList(ShowBindings(style, from), ShowBindings(style, RespellBindings(from, g)), g);
  }

  lemma ShownWhere(style: Style, e: Expr, g: string -> string)
    requires style.Valid() && Careful(style, g)
    ensures RespellLexemes(ShowWhere(style, e), g) == ShowWhere(style, RespellExpr(e, g))
  {
    if e != Lit(style.unconditional) {
      ShownExpr(style, e, g);
      WordsKept(style, [WhereWord], g);
      RespellConcat(Words(style, [WhereWord]), ShowExpr(style, e), g);
    }
  }

  lemma ShownOrder(style: Style, order: seq<Expr>, g: string -> string)
    requires style.Valid() && Careful(style, g)
    ensures RespellLexemes(ShowOrder(style, order), g) == ShowOrder(style, RespellExprs(order, g))
  {
    if order != [] {
      forall i | 0 <= i < |order|
        ensures ShowExpr(style, RespellExpr(order[i], g)) == RespellLexemes(ShowExpr(style, order[i]), g)
      {
        ShownExpr(style, order[i], g);
      }
      ShownList(ShowExprs(style, order), ShowExprs(style, RespellExprs(order, g)), g);
      WordsKept(style, [OrderWord, ByWord], g);
      RespellConcat(Words(style, [OrderWord, ByWord]), Listed(ShowExprs(style, order)), g);
    }
  }

  lemma ShownLimit(style: Style, limit: Option<nat>, g: string -> string)
    requires style.Valid() && Careful(style, g)
    ensures RespellLexemes(ShowLimit(style, limit), g) == ShowLimit(style, limit)
  {
    if limit.Some? {
      WordsKept(style, [LimitWord], g);
      ValueKept(style, Integer(limit.value), g);
      RespellConcat(Words(style, [LimitWord]), style.value(Integer(limit.value)), g);
    }
  }

  /** Renaming what spells a query spells the renamed query. */
  lemma ShownQuery(style: Style, q: Query, g: string -> string)
    requires style.Valid() && Careful(style, g)
    ensures RespellLexemes(Show(style, q), g) == Show(style, Respell(q, g))
  {
    var items, from := Listed(ShowItems(style, q.items)), Listed(ShowBindings(style, q.from));
    RespellFive(Words(style, [SelectWord]), items, Words(style, [FromWord]) + from, ShowWhere(style, q.where),
                ShowOrder(style, q.order) + ShowLimit(style, q.limit), g);
    ShownItems(style, q.items, g);
    ShownBindings(style, q.from, g);
    ShownWhere(style, q.where, g);
    ShownOrder(style, q.order, g);
    ShownLimit(style, q.limit, g);
    WordsKept(style, [SelectWord], g);
    WordsKept(style, [FromWord], g);
    RespellConcat(Words(style, [FromWord]), from, g);
    RespellConcat(ShowOrder(style, q.order), ShowLimit(style, q.limit), g);
  }

  // ---------------------------------------------------------------------------------
  // Texts

  /** The text spells the query, in some layout and quoting. */
  ghost predicate Spells(a: Alphabet, style: Style, sql: string, q: Query) {
    Lexemes(Lex(a, sql)) == Show(style, q)
  }

  /** Neither name is a reserved word. */
  ghost predicate Unreserved(style: Style, oldName: string, newName: string) {
    !style.reserved(newName) && forall x | style.reserved(x) :: Fold(x) != Fold(oldName)
  }

  lemma FoldedIdentifier(x: string, y: string)
    requires Fold(x) == Fold(y) && IsIdentifier(y)
    ensures IsIdentifier(x)
  {
    forall i | 0 <= i < |x|
      ensures AsciiLetter(x[i]) <==> AsciiLetter(y[i])
      ensures !AsciiLetter(x[i]) ==> x[i] == y[i]
    {
      assert Fold(x)[i] == FoldChar(x[i]) && Fold(y)[i] == FoldChar(y[i]);
    }
  }

  lemma RenameIsCareful(style: Style, oldName: string, newName: string)
    requires IsIdentifier(oldName) && IsIdentifier(newName) && Unreserved(style, oldName, newName)
    ensures Careful(style, x => RenameName(oldName, newName, x))
  {
    forall x | Fold(x) == Fold(oldName)
      ensures IsIdentifier(x) && !style.reserved(x)
    {
      FoldedIdentifier(x, oldName);
    }
  }

  /** The text rewriter turns a text of a query into a text of the query with every identifier renamed. */
  lemma TextFollowsQuery(a: Alphabet, style: Style, sql: string, q: Query, oldName: string, newName: string)
    requires a.Valid() && (forall x :: a.fold(x) == Fold(x)) && style.Valid()
    requires IsIdentifier(oldName) && IsIdentifier(newName) && Unreserved(style, oldName, newName)
    requires Spells(a, style, sql, q)
    ensures Spells(a, style, Rewritten(a, sql, oldName, newName), RenameAll(q, oldName, newName))
  {
    LexerHomomorphism(a, sql, oldName, newName);
    RewrittenLexemes(a, Lex(a, sql), oldName, newName);
    RenameIsCareful(style, oldName, newName);
    ShownQuery(style, q, x => RenameName(oldName, newName, x));
  }

  // ---------------------------------------------------------------------------------
  // All mappings of a diff

  /** What the mappings, one after the other, make of one identifier. */
  function Renaming(ms: seq<Mapping>, x: string): string {
    if ms == [] then x else
    var k := |ms| - 1;
    RenameName(ms[k].oldName, ms[k].newName, Renaming(ms[..k], x))
  }

  lemma {:induction false} RespellTwice(e: Expr, g: string -> string, h: string -> string)
    ensures RespellExpr(RespellExpr(e, g), h) == RespellExpr(e, x => h(g(x)))
  {
    match e
    case Lit(_) =>
    case Col(_) =>
    case Apply(_, left, right) => RespellTwice(left, g, h); RespellTwice(right, g, h);
  }

  lemma RespellQueryTwice(q: Query, g: string -> string, h: string -> string, gh: string -> string)
    requires forall x :: gh(x) == h(g(x))
    ensures Respell(Respell(q, g), h) == Respell(q, gh)
  {
    var k := x => h(g(x));
    forall e: Expr
      ensures RespellExpr(RespellExpr(e, g), h) == RespellExpr(e, gh)
    {
      RespellTwice(e, g, h);
      SameRespelling(e, k, gh);
    }
    RespellPartsTwice(q, g, h, gh);
  }

  lemma RespellPartsTwice(q: Query, g: string -> string, h: string -> string, gh: string -> string)
    requires (forall x :: gh(x) == h(g(x))) && forall e: Expr :: RespellExpr(RespellExpr(e, g), h) == RespellExpr(e, gh)
    ensures Respell(Respell(q, g), h) == Respell(q, gh)
  {
    assert RespellItems(RespellItems(q.items, g), h) == RespellItems(q.items, gh);
    assert RespellBindings(RespellBindings(q.from, g), h) == RespellBindings(q.from, gh);
    assert RespellExprs(RespellExprs(q.order, g), h) == RespellExprs(q.order, gh);
  }

  lemma {:induction false} SameRespelling(e: Expr, g: string -> string, h: string -> string)
    requires forall x :: g(x) == h(x)
    ensures RespellExpr(e, g) == RespellExpr(e, h)
  {
    match e
    case Lit(_) =>
    case Col(_) =>
    case Apply(_, left, right) => SameRespelling(left, g, h); SameRespelling(right, g, h);
  }

  lemma RespellByNothing(q: Query, g: string -> string)
    requires forall x :: g(x) == x
    ensures Respell(q, g) == q
  {
    forall e: Expr
      ensures RespellExpr(e, g) == e
    {
      RespellExprByNothing(e, g);
    }
    assert RespellItems(q.items, g) == q.items;
    assert RespellBindings(q.from, g) == q.from;
    assert RespellExprs(q.order, g) == q.order;
  }

  lemma {:induction false} RespellExprByNothing(e: Expr, g: string -> string)
    requires forall x :: g(x) == x
    ensures RespellExpr(e, g) == e
  {
    match e
    case Lit(_) =>
    case Col(_) =>
    case Apply(_, left, right) => RespellExprByNothing(left, g); RespellExprByNothing(right, g);
  }

  ghost predicate AllUnreserved(style: Style, ms: seq<Mapping>) {
    forall m | m in ms :: Unreserved(style, m.oldName, m.newName)
  }

  /**
   The text that the audited repair has after its mappings spells the query in which every identifier,
   table, alias, qualifier, column or operator, went through all of them.
   */
  lemma {:induction false} RepairedTextFollowsQuery(a: Alphabet, style: Style, sql: string, q: Query, ms: seq<Mapping>)
    requires a.Valid() && (forall x :: a.fold(x) == Fold(x)) && style.Valid()
    requires SafeMappings(ms) && AllUnreserved(style, ms) && Spells(a, style, sql, q)
    ensures Spells(a, style, RewrittenInOrder(a, sql, ms), Respell(q, x => Renaming(ms, x)))
  {
    if ms == [] {
      RespellByNothing(q, x => Renaming(ms, x));
    } else {
      var k := |ms| - 1;
      var init, m := ms[..k], ms[k];
      assert m in ms && forall x | x in init :: x in ms;
      RepairedTextFollowsQuery(a, style, sql, q, init);
      var before := Respell(q, x => Renaming(init, x));
      TextFollowsQuery(a, style, RewrittenInOrder(a, sql, init), before, m.oldName, m.newName);
      RespellQueryTwice(q, x => Renaming(init, x), x => RenameName(m.oldName, m.newName, x), x => Renaming(ms, x));
    }
  }
}
