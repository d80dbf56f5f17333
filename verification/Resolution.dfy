/** How resolution behaves when a query and its scope are changed together. */
module Resolution {
  import opened Prelude
  import opened Strings
  import opened Database
  import opened Queries

  function MapItem(item: Item, g: Ref -> Ref, h: string -> string): Item {
    match item
    case Star => Star
    case QualifiedStar(q) => QualifiedStar(h(q))
    case Output(e) => Output(MapRefs(e, g))
  }

  function MapItems(items: seq<Item>, g: Ref -> Ref, h: string -> string): seq<Item> {
    seq(|items|, i requires 0 <= i < |items| => MapItem(items[i], g, h))
  }

  /** Whatever `r` resolved to, `r'` resolves to the moved column. */
  ghost predicate Tracks(s: Scope, s': Scope, r: Ref, r': Ref, f: Moves)
    requires ScopeOk(s) && ScopeOk(s')
  {
    var p := ResolveRef(s, r);
    p.Some? ==> ResolveRef(s', r') == Some((p.value.0, f(p.value.0, p.value.1)))
  }

  lemma {:induction false} ExprTracks(s: Scope, s': Scope, e: Expr, g: Ref -> Ref, f: Moves)
    requires ScopeOk(s) && ScopeOk(s') && ResolveExpr(s, e).Some?
    requires forall r | r in Refs(e) :: Tracks(s, s', r, g(r), f)
    ensures ResolveExpr(s', MapRefs(e, g)) == Some(MoveExpr(ResolveExpr(s, e).value, f))
  {
    match e
    case Lit(_) =>
    case Col(r) => assert r in Refs(e);
    case Apply(_, left, right) =>
      ExprTracks(s, s', left, g, f);
      ExprTracks(s, s', right, g, f);
  }

  lemma MapSnoc(es: seq<Expr>, k: nat, g: Ref -> Ref)
    requires |es| == k + 1
    ensures MapExprs(es, g)[..k] == MapExprs(es[..k], g) && MapExprs(es, g)[k] == MapRefs(es[k], g)
  {
  }

  lemma MoveSnoc(init: seq<RExpr>, last: RExpr, f: Moves)
    ensures MoveExprs(init + [last], f) == MoveExprs(init, f) + [MoveExpr(last, f)]
  {
  }

  lemma {:induction false} ExprsTrack(s: Scope, s': Scope, es: seq<Expr>, g: Ref -> Ref, f: Moves)
    requires ScopeOk(s) && ScopeOk(s') && ResolveExprs(s, es).Some?
    requires forall i, r | 0 <= i < |es| && r in Refs(es[i]) :: Tracks(s, s', r, g(r), f)
    ensures ResolveExprs(s', MapExprs(es, g)) == Some(MoveExprs(ResolveExprs(s, es).value, f))
  {
    if es == [] {
      assert MapExprs(es, g) == [] && MoveExprs([], f) == [];
    } else {
      var k := |es| - 1;
      ExprsTrack(s, s', es[..k], g, f);
      ExprTracks(s, s', es[k], g, f);
      MapSnoc(es, k, g);
      MoveSnoc(ResolveExprs(s, es[..k]).value, ResolveExpr(s, es[k]).value, f);
    }
  }

  /** Stars expand to the same positions on both sides. */
  ghost predicate StarsStay(s: Scope, s': Scope, f: Moves) {
    && |s'.columns| == |s.columns|
    && forall b | 0 <= b < |s.columns| ::
         |s'.columns[b]| == |s.columns[b]| && forall c | 0 <= c < |s.columns[b]| :: f(b, c) == c
  }

  ghost predicate SameFit(s: Scope, s': Scope, q: Option<string>, q': Option<string>)
    requires ScopeOk(s) && ScopeOk(s')
  {
    forall b: nat :: QualifierFits(s', q', b) == QualifierFits(s, q, b)
  }

  lemma MoveConcat(a: seq<RExpr>, b: seq<RExpr>, f: Moves)
    ensures MoveExprs(a + b, f) == MoveExprs(a, f) + MoveExprs(b, f)
  {
  }

  lemma {:induction false} StarTracks(s: Scope, s': Scope, q: Option<string>, q': Option<string>, n: nat, f: Moves)
    requires ScopeOk(s) && ScopeOk(s') && StarsStay(s, s', f) && SameFit(s, s', q, q') && n <= |s.columns|
    ensures StarColumns(s', q', n) == MoveExprs(StarColumns(s, q, n), f)
  {
    if n > 0 {
      StarTracks(s, s', q, q', n - 1, f);
      var init := StarColumns(s, q, n - 1);
      if QualifierFits(s, q, n - 1) {
        assert QualifierFits(s', q', n - 1);
        assert AllColumns(s', n - 1) == MoveExprs(AllColumns(s, n - 1), f);
        MoveConcat(init, AllColumns(s, n - 1), f);
      } else {
        assert StarColumns(s, q, n) == init;
      }
    }
  }

  ghost predicate ItemTracks(s: Scope, s': Scope, item: Item, g: Ref -> Ref, h: string -> string, f: Moves)
    requires ScopeOk(s) && ScopeOk(s')
  {
    match item
    case Star => StarsStay(s, s', f) && |s'.qualifiers| == |s.qualifiers|
    case QualifiedStar(q) => StarsStay(s, s', f) && SameFit(s, s', Some(q), Some(h(q)))
    case Output(e) => forall r | r in Refs(e) :: Tracks(s, s', r, g(r), f)
  }

  lemma ItemResolves(s: Scope, s': Scope, item: Item, g: Ref -> Ref, h: string -> string, f: Moves)
    requires ScopeOk(s) && ScopeOk(s') && ResolveItem(s, item).Some? && ItemTracks(s, s', item, g, h, f)
    ensures ResolveItem(s', MapItem(item, g, h)) == Some(MoveExprs(ResolveItem(s, item).value, f))
  {
    match item
    case Star => StarTracks(s, s', None, None, |s.columns|, f);
    case QualifiedStar(q) =>
      var b: nat :| QualifierFits(s, Some(q), b);
      assert QualifierFits(s', Some(h(q)), b);
      StarTracks(s, s', Some(q), Some(h(q)), |s.columns|, f);
    case Output(e) =>
      ExprTracks(s, s', e, g, f);
      assert MoveExprs([ResolveExpr(s, e).value], f) == [MoveExpr(ResolveExpr(s, e).value, f)];
  }

  lemma {:induction false} ItemsResolve(s: Scope, s': Scope, items: seq<Item>, g: Ref -> Ref, h: string -> string, f: Moves)
    requires ScopeOk(s) && ScopeOk(s') && ResolveItems(s, items).Some?
    requires forall i | 0 <= i < |items| :: ItemTracks(s, s', items[i], g, h, f)
    ensures ResolveItems(s', MapItems(items, g, h)) == Some(MoveExprs(ResolveItems(s, items).value, f))
  {
    if items == [] {
      assert MapItems(items, g, h) == [] && MoveExprs([], f) == [];
    } else {
      var k := |items| - 1;
      ItemsResolve(s, s', items[..k], g, h, f);
      ItemResolves(s, s', items[k], g, h, f);
      var mapped := MapItems(items, g, h);
      assert mapped[..k] == MapItems(items[..k], g, h) && mapped[k] == MapItem(items[k], g, h);
      var init, last := ResolveItems(s, items[..k]).value, ResolveItem(s, items[k]).value;
      MoveConcat(init, last, f);
      assert ResolveItems(s', mapped) == Some(MoveExprs(init, f) + MoveExprs(last, f));
    }
  }

  function MapQuery(q: Query, g: Ref -> Ref, h: string -> string, from: seq<Binding>): Query {
    Query(MapItems(q.items, g, h), from, MapRefs(q.where, g), MapExprs(q.order, g), q.limit)
  }

  /** Every name in the query follows the move. */
  ghost predicate QueryTracks(q: Query, s: Scope, s': Scope, g: Ref -> Ref, h: string -> string, f: Moves)
    requires ScopeOk(s) && ScopeOk(s')
  {
    && (forall i | 0 <= i < |q.items| :: ItemTracks(s, s', q.items[i], g, h, f))
    && (forall r | r in Refs(q.where) :: Tracks(s, s', r, g(r), f))
    && (forall i, r | 0 <= i < |q.order| && r in Refs(q.order[i]) :: Tracks(s, s', r, g(r), f))
  }

  /** A rewrite that follows the move preserves the result. */
  lemma TrackedRewritePreserves(sem: Semantics, q: Query, db: Db, db': Db, from: seq<Binding>,
                                g: Ref -> Ref, h: string -> string, f: Moves)
    requires Resolve(q, db).Some? && TablesExist(from, db')
    requires TablesOf(from, db') == TablesOf(q.from, db)
    requires QueryTracks(q, ScopeOf(q.from, db), ScopeOf(from, db'), g, h, f)
    requires Simulates(TablesOf(q.from, db), db, db', f)
    ensures Eval(sem, MapQuery(q, g, h, from), db') == Eval(sem, q, db)
  {
    var s, s' := ScopeOf(q.from, db), ScopeOf(from, db');
    ItemsResolve(s, s', q.items, g, h, f);
    ExprTracks(s, s', q.where, g, f);
    ExprsTrack(s, s', q.order, g, f);
    ResolvedInRange(q, db);
    SimulationPreservesResults(sem, Resolve(q, db).value, db, db', f);
  }

  // ---------------------------------------------------------------------------------
  // Failing references

  lemma {:induction false} ExprNeedsRef(s: Scope, e: Expr, r: Ref)
    requires ScopeOk(s) && r in Refs(e) && ResolveRef(s, r).None?
    ensures ResolveExpr(s, e).None?
  {
    match e
    case Lit(_) =>
    case Col(_) =>
    case Apply(_, left, right) =>
      if r in Refs(left) { ExprNeedsRef(s, left, r); } else { ExprNeedsRef(s, right, r); }
  }

  lemma {:induction false} ExprsNeedEach(s: Scope, es: seq<Expr>, i: nat)
    requires ScopeOk(s) && i < |es| && ResolveExpr(s, es[i]).None?
    ensures ResolveExprs(s, es).None?
  {
    if i < |es| - 1 { ExprsNeedEach(s, es[..|es| - 1], i); }
  }

  lemma {:induction false} ItemsNeedEach(s: Scope, items: seq<Item>, i: nat)
    requires ScopeOk(s) && i < |items| && ResolveItem(s, items[i]).None?
    ensures ResolveItems(s, items).None?
  {
    if i < |items| - 1 { ItemsNeedEach(s, items[..|items| - 1], i); }
  }

  /** A query with a reference that does not resolve does not prepare. */
  lemma QueryNeedsRefs(q: Query, db: Db, r: Ref)
    requires TablesExist(q.from, db) && r in QueryRefs(q) && ResolveRef(ScopeOf(q.from, db), r).None?
    ensures Resolve(q, db).None?
  {
    var s := ScopeOf(q.from, db);
    if r in Refs(q.where) {
      ExprNeedsRef(s, q.where, r);
    } else if i :| 0 <= i < |q.order| && r in Refs(q.order[i]) {
      ExprNeedsRef(s, q.order[i], r);
      ExprsNeedEach(s, q.order, i);
    } else {
      var i :| 0 <= i < |q.items| && r in ItemRefs(q.items[i]);
      ExprNeedsRef(s, q.items[i].e, r);
      ItemsNeedEach(s, q.items, i);
    }
  }

  lemma {:induction false} RefsMapped(e: Expr, g: Ref -> Ref)
    ensures Refs(MapRefs(e, g)) == set r | r in Refs(e) :: g(r)
  {
    match e
    case Lit(_) =>
    case Col(_) =>
    case Apply(_, left, right) => RefsMapped(left, g); RefsMapped(right, g);
  }

  lemma QueryRefMapped(q: Query, g: Ref -> Ref, h: string -> string, from: seq<Binding>, r: Ref)
    requires r in QueryRefs(q)
    ensures g(r) in QueryRefs(MapQuery(q, g, h, from))
  {
    var q' := MapQuery(q, g, h, from);
    if r in Refs(q.where) {
      RefsMapped(q.where, g);
    } else if i :| 0 <= i < |q.order| && r in Refs(q.order[i]) {
      RefsMapped(q.order[i], g);
      assert g(r) in Refs(q'.order[i]);
    } else {
      var i :| 0 <= i < |q.items| && r in ItemRefs(q.items[i]);
      RefsMapped(q.items[i].e, g);
      assert g(r) in ItemRefs(q'.items[i]);
    }
  }
}
