/**
 Renaming every identifier of a query alike, as the text rewriter does, and when that is what the
 rewriters of one column or one table do.
 */
module QueryNames {
  import opened Prelude
  import opened Strings
  import opened Database
  import opened Queries
  import opened Resolution
  import opened ColumnRewrites
  import opened TableRewrites

  /** What the text rewriter makes of one identifier. */
  function RenameName(oldName: string, newName: string, x: string): string {
    if Fold(x) == Fold(oldName) then newName else x
  }

  function RespellRef(r: Ref, g: string -> string): Ref {
    Ref(match r.qualifier case None => None case Some(x) => Some(g(x)), g(r.name))
  }

  /** Operators and functions are identifiers like any others. */
  function RespellExpr(e: Expr, g: string -> string): Expr {
    match e
    case Lit(_) => e
    case Col(ref) => Col(RespellRef(ref, g))
    case Apply(op, left, right) => Apply(g(op), RespellExpr(left, g), RespellExpr(right, g))
  }

  function RespellExprs(es: seq<Expr>, g: string -> string): seq<Expr> {
    seq(|es|, i requires 0 <= i < |es| => RespellExpr(es[i], g))
  }

  function RespellItem(item: Item, g: string -> string): Item {
    match item
    case Star => Star
    case QualifiedStar(x) => QualifiedStar(g(x))
    case Output(e) => Output(RespellExpr(e, g))
  }

  function RespellItems(items: seq<Item>, g: string -> string): seq<Item> {
    seq(|items|, i requires 0 <= i < |items| => RespellItem(items[i], g))
  }

  function RespellBinding(b: Binding, g: string -> string): Binding {
    Binding(g(b.table), match b.alias case None => None case Some(x) => Some(g(x)))
  }

  function RespellBindings(from: seq<Binding>, g: string -> string): (r: seq<Binding>)
    ensures |r| == |from|
    ensures forall b | 0 <= b < |from| :: Qualifier(r[b]) == g(Qualifier(from[b])) && r[b].table == g(from[b].table)
  {
    seq(|from|, b requires 0 <= b < |from| => RespellBinding(from[b], g))
  }

  /** The query with every identifier respelled. */
  function Respell(q: Query, g: string -> string): Query {
    Query(RespellItems(q.items, g), RespellBindings(q.from, g), RespellExpr(q.where, g), RespellExprs(q.order, g), q.limit)
  }

  // ---------------------------------------------------------------------------------
  // Respelling against rewriting references

  function Operators(e: Expr): set<string> {
    match e
    case Lit(_) => {}
    case Col(_) => {}
    case Apply(op, left, right) => {op} + Operators(left) + Operators(right)
  }

  function ItemOperators(item: Item): set<string> {
    if item.Output? then Operators(item.e) else {}
  }

  function QueryOperators(q: Query): set<string> {
    (set i, op | 0 <= i < |q.items| && op in ItemOperators(q.items[i]) :: op) +
    Operators(q.where) +
    (set i, op | 0 <= i < |q.order| && op in Operators(q.order[i]) :: op)
  }

  /** One expression: operators keep their names, and references become what `h` makes of them. */
  lemma {:induction false} ExprsAgree(e: Expr, g: string -> string, h: Ref -> Ref)
    ensures RespellExpr(e, g) == MapRefs(e, h) <==>
            (forall op | op in Operators(e) :: g(op) == op) && (forall r | r in Refs(e) :: RespellRef(r, g) == h(r))
  {
    match e
    case Lit(_) =>
    case Col(_) =>
    case Apply(op, left, right) =>
      ExprsAgree(left, g, h);
      ExprsAgree(right, g, h);
  }

  ghost predicate ItemAgrees(item: Item, g: string -> string, h: Ref -> Ref, k: string -> string) {
    match item
    case Star => true
    case QualifiedStar(x) => g(x) == k(x)
    case Output(e) => (forall op | op in Operators(e) :: g(op) == op) && (forall r | r in Refs(e) :: RespellRef(r, g) == h(r))
  }

  lemma ItemsAgree(items: seq<Item>, g: string -> string, h: Ref -> Ref, k: string -> string)
    ensures RespellItems(items, g) == MapItems(items, h, k) <==> forall i | 0 <= i < |items| :: ItemAgrees(items[i], g, h, k)
  {
    forall i | 0 <= i < |items|
      ensures RespellItems(items, g)[i] == MapItems(items, h, k)[i] <==> ItemAgrees(items[i], g, h, k)
    {
      if items[i].Output? { ExprsAgree(items[i].e, g, h); }
    }
    PointwiseEqual(RespellItems(items, g), MapItems(items, h, k));
  }

  lemma PointwiseEqual<T>(a: seq<T>, b: seq<T>)
    requires |a| == |b|
    ensures a == b <==> forall i | 0 <= i < |a| :: a[i] == b[i]
  {
  }

  lemma OrdersAgree(es: seq<Expr>, g: string -> string, h: Ref -> Ref)
    ensures RespellExprs(es, g) == MapExprs(es, h) <==>
            forall i | 0 <= i < |es| ::
              (forall op | op in Operators(es[i]) :: g(op) == op) && (forall r | r in Refs(es[i]) :: RespellRef(r, g) == h(r))
  {
    forall i | 0 <= i < |es|
      ensures RespellExprs(es, g)[i] == MapExprs(es, h)[i] <==>
              (forall op | op in Operators(es[i]) :: g(op) == op) && (forall r | r in Refs(es[i]) :: RespellRef(r, g) == h(r))
    {
      ExprsAgree(es[i], g, h);
    }
    PointwiseEqual(RespellExprs(es, g), MapExprs(es, h));
  }

  ghost predicate OperatorsKept(q: Query, g: string -> string) {
    forall op | op in QueryOperators(q) :: g(op) == op
  }

  ghost predicate RefsAgree(q: Query, g: string -> string, h: Ref -> Ref) {
    forall r | r in QueryRefs(q) :: RespellRef(r, g) == h(r)
  }

  ghost predicate StarsAgree(q: Query, g: string -> string, k: string -> string) {
    forall i | 0 <= i < |q.items| && q.items[i].QualifiedStar? :: g(q.items[i].qualifier) == k(q.items[i].qualifier)
  }

  /** Respelling a query is rewriting its references, star qualifiers and bindings exactly when it does the same to each. */
  lemma RespellIsRewrite(q: Query, g: string -> string, h: Ref -> Ref, k: string -> string, from: seq<Binding>)
    ensures Respell(q, g) == MapQuery(q, h, k, from) <==>
            OperatorsKept(q, g) && RefsAgree(q, g, h) && StarsAgree(q, g, k) && RespellBindings(q.from, g) == from
  {
    ItemsAgree(q.items, g, h, k);
    ExprsAgree(q.where, g, h);
    OrdersAgree(q.order, g, h);
    PartsAgree(q, g, h, k);
  }

  lemma PartsAgree(q: Query, g: string -> string, h: Ref -> Ref, k: string -> string)
    ensures OperatorsKept(q, g) && RefsAgree(q, g, h) && StarsAgree(q, g, k) <==>
            && (forall i | 0 <= i < |q.items| :: ItemAgrees(q.items[i], g, h, k))
            && (forall op | op in Operators(q.where) :: g(op) == op)
            && (forall r | r in Refs(q.where) :: RespellRef(r, g) == h(r))
            && (forall i | 0 <= i < |q.order| ::
                  (forall op | op in Operators(q.order[i]) :: g(op) == op)
                  && (forall r | r in Refs(q.order[i]) :: RespellRef(r, g) == h(r)))
  {
    forall i, op | 0 <= i < |q.items| && op in ItemOperators(q.items[i])
      ensures op in QueryOperators(q)
    {
    }
    forall i, r | 0 <= i < |q.items| && r in ItemRefs(q.items[i])
      ensures r in QueryRefs(q)
    {
    }
    forall i, op | 0 <= i < |q.order| && op in Operators(q.order[i])
      ensures op in QueryOperators(q)
    {
    }
    forall i, r | 0 <= i < |q.order| && r in Refs(q.order[i])
      ensures r in QueryRefs(q)
    {
    }
    if OperatorsKept(q, g) && RefsAgree(q, g, h) && StarsAgree(q, g, k) {
      forall i | 0 <= i < |q.items|
        ensures ItemAgrees(q.items[i], g, h, k)
      {
        if q.items[i].Output? {
          assert ItemOperators(q.items[i]) == Operators(q.items[i].e) && ItemRefs(q.items[i]) == Refs(q.items[i].e);
        }
      }
    }
  }

  // ---------------------------------------------------------------------------------
  // The text rewriter against the rewriters of the drift factory

  /** The text rewriter has no effect on an identifier that is spelled otherwise, or just like the new name. */
  predicate Spared(oldName: string, newName: string, x: string) {
    Fold(x) != Fold(oldName) || x == newName
  }

  /** No table, alias, star qualifier, reference qualifier or operator is renamed. */
  ghost predicate OthersSpared(q: Query, oldName: string, newName: string) {
    && (forall b | 0 <= b < |q.from| :: Spared(oldName, newName, q.from[b].table))
    && AliasesSpared(q.from, oldName, newName)
    && StarsSpared(q, oldName, newName)
    && QualifiersSpared(q, oldName, newName)
    && OperatorsSpared(q, oldName, newName)
  }

  ghost predicate QualifiersSpared(q: Query, oldName: string, newName: string) {
    forall r | r in QueryRefs(q) && r.qualifier.Some? :: Spared(oldName, newName, r.qualifier.value)
  }

  predicate StarsSpared(q: Query, oldName: string, newName: string) {
    forall i | 0 <= i < |q.items| && q.items[i].QualifiedStar? :: Spared(oldName, newName, q.items[i].qualifier)
  }

  predicate AliasesSpared(from: seq<Binding>, oldName: string, newName: string) {
    forall b | 0 <= b < |from| && from[b].alias.Some? :: Spared(oldName, newName, from[b].alias.value)
  }

  ghost predicate OperatorsSpared(q: Query, oldName: string, newName: string) {
    forall op | op in QueryOperators(q) :: Spared(oldName, newName, op)
  }

  /** The text rewriter on a whole query. */
  function RenameAll(q: Query, oldName: string, newName: string): Query {
    Respell(q, x => RenameName(oldName, newName, x))
  }

  lemma BindingsSame(from: seq<Binding>, g: string -> string)
    ensures RespellBindings(from, g) == from <==>
            forall b | 0 <= b < |from| ::
              g(from[b].table) == from[b].table && (from[b].alias.Some? ==> g(from[b].alias.value) == from[b].alias.value)
  {
    PointwiseEqual(RespellBindings(from, g), from);
  }

  /**
   The text rewriter does to a query what the column rewriter does if and only if nothing but column
   names of references is spelled like the old name, and every reference that is spelled like it is
   taken for the column; identifiers that are already spelled just like the new name do not count.
   */
  lemma TextIsColumnRewriteExactly(q: Query, db: Db, t: nat, p: nat, newName: string)
    requires t < |db| && p < |db[t].columns|
    ensures var oldName := db[t].columns[p].name;
            RenameAll(q, oldName, newName) == RewriteColumn(q, db, t, p, newName) <==>
            && OthersSpared(q, oldName, newName)
            && forall r | r in QueryRefs(q) && !Spared(oldName, newName, r.name) :: CodeResolve(db, q.from, r) == Some((t, p))
  {
    var oldName := db[t].columns[p].name;
    var g := x => RenameName(oldName, newName, x);
    var h := r => RewriteRef(db, q.from, t, p, newName, r);
    RespellIsRewrite(q, g, h, Keep, q.from);
    BindingsSame(q.from, g);
    ColumnRefsAgree(q, db, t, p, newName);
    assert StarsAgree(q, g, Keep) <==> StarsSpared(q, oldName, newName);
  }

  lemma ColumnRefsAgree(q: Query, db: Db, t: nat, p: nat, newName: string)
    requires t < |db| && p < |db[t].columns|
    ensures var oldName := db[t].columns[p].name;
            RefsAgree(q, x => RenameName(oldName, newName, x), r => RewriteRef(db, q.from, t, p, newName, r)) <==>
            && QualifiersSpared(q, oldName, newName)
            && forall r | r in QueryRefs(q) && !Spared(oldName, newName, r.name) :: CodeResolve(db, q.from, r) == Some((t, p))
  {
    var oldName := db[t].columns[p].name;
    forall r | r in QueryRefs(q)
      ensures RespellRef(r, x => RenameName(oldName, newName, x)) == RewriteRef(db, q.from, t, p, newName, r) <==>
              && (r.qualifier.Some? ==> Spared(oldName, newName, r.qualifier.value))
              && (!Spared(oldName, newName, r.name) ==> CodeResolve(db, q.from, r) == Some((t, p)))
    {
      CodeResolveFold(db, q.from, r);
    }
  }

  /**
   It does what the table rewriter does if and only if the table is used, no alias, reference name or
   operator is spelled like the old name, and, when every use of the table has an alias, no qualifier is.
   */
  lemma TextIsTableRewriteExactly(q: Query, oldName: string, newName: string)
    ensures RewriteTable(q, oldName, newName) == Some(RenameAll(q, oldName, newName)) <==>
            && Referenced(q.from, oldName) && AliasesSpared(q.from, oldName, newName) && OperatorsSpared(q, oldName, newName)
            && (forall r | r in QueryRefs(q) :: Spared(oldName, newName, r.name))
            && (QualifiersFollow(q.from, oldName) ||
                (QualifiersSpared(q, oldName, newName) && StarsSpared(q, oldName, newName)))
  {
    var follow := QualifiersFollow(q.from, oldName);
    var g := x => RenameName(oldName, newName, x);
    var k := x => RenameQualifier(follow, oldName, newName, x);
    RespellIsRewrite(q, g, r => RenameRef(follow, oldName, newName, r), k, RenameBindings(q.from, oldName, newName));
    TableBindingsAgree(q.from, oldName, newName);
    TableRefsAgree(q, follow, oldName, newName);
    assert StarsAgree(q, g, k) <==> (follow || StarsSpared(q, oldName, newName));
  }

  lemma TableBindingsAgree(from: seq<Binding>, oldName: string, newName: string)
    ensures RespellBindings(from, x => RenameName(oldName, newName, x)) == RenameBindings(from, oldName, newName) <==>
            AliasesSpared(from, oldName, newName)
  {
    var g := x => RenameName(oldName, newName, x);
    forall b | 0 <= b < |from|
      ensures RespellBindings(from, g)[b] == RenameBindings(from, oldName, newName)[b] <==>
              (from[b].alias.Some? ==> Spared(oldName, newName, from[b].alias.value))
    {
    }
    PointwiseEqual(RespellBindings(from, g), RenameBindings(from, oldName, newName));
  }

  lemma TableRefsAgree(q: Query, follow: bool, oldName: string, newName: string)
    ensures RefsAgree(q, x => RenameName(oldName, newName, x), r => RenameRef(follow, oldName, newName, r)) <==>
            (forall r | r in QueryRefs(q) :: Spared(oldName, newName, r.name)) &&
            (follow || QualifiersSpared(q, oldName, newName))
  {
    forall r | r in QueryRefs(q)
      ensures RespellRef(r, x => RenameName(oldName, newName, x)) == RenameRef(follow, oldName, newName, r) <==>
              Spared(oldName, newName, r.name) &&
              (follow || (r.qualifier.Some? ==> Spared(oldName, newName, r.qualifier.value)))
    {
    }
  }
}
