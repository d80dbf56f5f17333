/** When renaming identifiers in the text of a query, together with the database, keeps the query's rows. */
module TextRenames {
  import opened Prelude
  import opened Strings
  import opened Database
  import opened Queries
  import opened Resolution
  import opened ColumnRewrites
  import opened TableRewrites
  import opened ProjectionMeaning
  import opened QueryNames
  import opened NameFollowing

  // ---------------------------------------------------------------------------------
  // Rewritten queries in pieces

  /** References, star qualifiers and bindings replaced one for one. */
  function RewritePieces(q: Query, h: Ref -> Ref, k: string -> string, from: seq<Binding>): Pieces {
    Pieces(from, h, seq(|q.items|, i requires 0 <= i < |q.items| => [MapItem(q.items[i], h, k)]))
  }

  lemma {:induction false} JoinedSingles(items: seq<Item>, blocks: seq<seq<Item>>)
    requires |blocks| == |items| && forall i | 0 <= i < |items| :: blocks[i] == [items[i]]
    ensures Joined(blocks) == items
  {
    if items != [] {
      var k := |items| - 1;
      JoinedSingles(items[..k], blocks[..k]);
      assert items == items[..k] + [items[k]];
    }
  }

  lemma RewriteInPieces(q: Query, h: Ref -> Ref, k: string -> string, from: seq<Binding>)
    requires |from| == |q.from|
    ensures Fitting(q, RewritePieces(q, h, k, from)) && Replaced(q, RewritePieces(q, h, k, from)) == MapQuery(q, h, k, from)
  {
    JoinedSingles(MapItems(q.items, h, k), RewritePieces(q, h, k, from).blocks);
  }

  function RespellPieces(q: Query, g: string -> string): Pieces {
    RewritePieces(q, r => RespellRef(r, g), g, RespellBindings(q.from, g))
  }

  lemma RespellInPieces(q: Query, g: string -> string)
    requires OperatorsKept(q, g)
    ensures Fitting(q, RespellPieces(q, g)) && Replaced(q, RespellPieces(q, g)) == Respell(q, g)
  {
    RewriteInPieces(q, r => RespellRef(r, g), g, RespellBindings(q.from, g));
    RespellIsRewrite(q, g, r => RespellRef(r, g), g, RespellBindings(q.from, g));
  }

  // ---------------------------------------------------------------------------------
  // The scope after the change

  /** The bindings' new qualifiers, and the columns that their tables have afterwards. */
  function LaterScope(q: Query, to: Pieces, db: Db, db': Db): (s: Scope)
    requires TablesExist(q.from, db) && |to.from| == |q.from| && |db'| == |db|
    ensures |s.qualifiers| == |s.columns| == |q.from|
    ensures forall b | 0 <= b < |q.from| ::
      s.qualifiers[b] == Qualifier(to.from[b]) && s.columns[b] == ColumnNames(db'[TableOf(q.from, db, b)])
  {
    Scope(seq(|q.from|, b requires 0 <= b < |q.from| => Qualifier(to.from[b])),
          seq(|q.from|, b requires 0 <= b < |q.from| => ColumnNames(db'[TableOf(q.from, db, b)])))
  }

  lemma LaterScopeIsScope(q: Query, to: Pieces, db: Db, db': Db)
    requires TablesExist(q.from, db) && |to.from| == |q.from| && |db'| == |db| && TablesLand(q, to, db, db')
    ensures TablesExist(to.from, db') && ScopeOf(to.from, db') == LaterScope(q, to, db, db')
  {
    LandedTables(q, to, db, db');
    var s, s' := ScopeOf(to.from, db'), LaterScope(q, to, db, db');
    assert forall b | 0 <= b < |q.from| :: TableOf(to.from, db', b) == TablesOf(to.from, db')[b];
    assert s.qualifiers == s'.qualifiers && s.columns == s'.columns;
  }

  /** No second binding offers what the reference is called afterwards. */
  ghost predicate MeetsOne(s: Scope, s': Scope, r: Ref, r': Ref)
    requires ScopeOk(s) && ScopeOk(s')
  {
    forall b, c, b': nat :: ResolveRef(s, r) == Some((b, c)) && Offers(s', r', b') ==> b' == b
  }

  ghost predicate NoneMeetsTwo(q: Query, to: Pieces, db: Db, db': Db)
    requires TablesExist(q.from, db) && |to.from| == |q.from| && |db'| == |db|
  {
    forall r | r in QueryRefs(q) :: MeetsOne(ScopeOf(q.from, db), LaterScope(q, to, db, db'), r, to.ref(r))
  }

  /** A reference lands when its binding, and no other one, has the column at the right place under the name. */
  lemma LandsByName(s: Scope, s': Scope, r: Ref, r': Ref, f: Moves)
    requires ScopeOk(s) && ScopeOk(s') && ResolveRef(s, r).Some?
    ensures var (b, c) := ResolveRef(s, r).value;
            RefLands(s, s', r, r', f) <==>
            && QualifierFits(s', r'.qualifier, b) && Find(s'.columns[b], r'.name) == Some(f(b, c))
            && MeetsOne(s, s', r, r')
  {
    var (b, c) := ResolveRef(s, r).value;
    if QualifierFits(s', r'.qualifier, b) && Find(s'.columns[b], r'.name) == Some(f(b, c)) && MeetsOne(s, s', r, r') {
      assert Supplies(s', r', b);
      assert ResolveRef(s', r').Some?;
    }
  }

  lemma RespelledFits(from: seq<Binding>, s: Scope, s': Scope, g: string -> string, x: Option<string>, b: nat)
    requires ScopeOk(s) && ScopeOk(s') && |s.columns| == |s'.columns| == |from|
    requires forall b | 0 <= b < |from| :: s.qualifiers[b] == Qualifier(from[b]) && s'.qualifiers[b] == g(Qualifier(from[b]))
    requires forall x, y :: Fold(x) == Fold(y) ==> Fold(g(x)) == Fold(g(y))
    requires QualifierFits(s, x, b)
    ensures QualifierFits(s', match x case None => None case Some(y) => Some(g(y)), b)
  {
  }

  // ---------------------------------------------------------------------------------
  // Stars cannot fail

  lemma RespelledStarResolves(item: Item, from: seq<Binding>, s: Scope, s': Scope, g: string -> string)
    requires ScopeOk(s) && ScopeOk(s') && |s.columns| == |s'.columns| == |from|
    requires forall b | 0 <= b < |from| :: s.qualifiers[b] == Qualifier(from[b]) && s'.qualifiers[b] == g(Qualifier(from[b]))
    requires forall x, y :: Fold(x) == Fold(y) ==> Fold(g(x)) == Fold(g(y))
    requires !item.Output? && ResolveItem(s, item).Some?
    ensures ResolveItem(s', RespellItem(item, g)).Some?
  {
    if item.QualifiedStar? {
      var b: nat :| QualifierFits(s, Some(item.qualifier), b);
      RespelledFits(from, s, s', g, Some(item.qualifier), b);
    }
  }

  lemma RespelledStarsResolve(q: Query, db: Db, s': Scope, g: string -> string)
    requires Resolve(q, db).Some? && ScopeOk(s') && |s'.columns| == |q.from|
    requires forall b | 0 <= b < |q.from| :: s'.qualifiers[b] == g(Qualifier(q.from[b]))
    requires forall x, y :: Fold(x) == Fold(y) ==> Fold(g(x)) == Fold(g(y))
    ensures forall i | 0 <= i < |q.items| && !q.items[i].Output? ::
              ResolveItems(s', RespellPieces(q, g).blocks[i]).Some?
  {
    forall i | 0 <= i < |q.items| && !q.items[i].Output?
      ensures ResolveItems(s', RespellPieces(q, g).blocks[i]).Some?
    {
      ItemResolved(q, db, i);
      RespelledStarResolves(q.items[i], q.from, ScopeOf(q.from, db), s', g);
      assert RespellPieces(q, g).blocks[i] == [RespellItem(q.items[i], g)];
      OneItem(s', RespellItem(q.items[i], g));
    }
  }

  /** Then tables and references decide. */
  lemma TablesAndRefsDecide(q: Query, db: Db, db': Db, g: string -> string, f: Moves)
    requires Resolve(q, db).Some? && |db'| == |db| && Fitting(q, RespellPieces(q, g))
    requires forall x, y :: Fold(x) == Fold(y) ==> Fold(g(x)) == Fold(g(y))
    requires NothingStrays(q, RespellPieces(q, g), db, db', f)
    ensures var to := RespellPieces(q, g);
            EverythingLands(q, to, db, db', f) <==>
            TablesLand(q, to, db, db') && RefsLand(q, to, ScopeOf(q.from, db), LaterScope(q, to, db, db'), f)
  {
    var to := RespellPieces(q, g);
    if TablesLand(q, to, db, db') {
      LaterScopeIsScope(q, to, db, db');
      RespelledStarsResolve(q, db, LaterScope(q, to, db, db'), g);
    }
  }

  // ---------------------------------------------------------------------------------
  // One column

  /** What the text rewriter replaces, piece by piece. */
  function TextPieces(q: Query, oldName: string, newName: string): Pieces {
    RespellPieces(q, x => RenameName(oldName, newName, x))
  }

  /** Only columns of table `t` move. */
  function InTable(t: nat, move: nat -> nat): Places {
    (u: nat, c: nat) => if u == t then move(c) else c
  }

  predicate NoTableSpelled(from: seq<Binding>, name: string) {
    forall b | 0 <= b < |from| :: Fold(from[b].table) != Fold(name)
  }

  /** Every reference that is spelled like the column means it. */
  ghost predicate OnlyTheColumn(q: Query, db: Db, t: nat, p: nat)
    requires TablesExist(q.from, db) && t < |db| && p < |db[t].columns|
  {
    forall r | r in QueryRefs(q) && Fold(r.name) == Fold(db[t].columns[p].name) ::
      Hits(ScopeOf(q.from, db), TablesOf(q.from, db), t, p, r)
  }

  lemma SameTableNamesLand(q: Query, db: Db, db': Db, oldName: string, newName: string)
    requires ValidDb(db) && TablesExist(q.from, db) && TableNames(db') == TableNames(db)
    requires Fold(oldName) != Fold(newName)
    ensures TablesLand(q, TextPieces(q, oldName, newName), db, db') <==> NoTableSpelled(q.from, oldName)
  {
    var to, names := TextPieces(q, oldName, newName), TableNames(db);
    forall b | 0 <= b < |q.from|
      ensures TableLands(q, to, db, db', b) <==> Fold(q.from[b].table) != Fold(oldName)
    {
      assert Fold(names[TableOf(q.from, db, b)]) == Fold(q.from[b].table);
    }
  }

  /** One reference under a column change. */
  lemma ColumnRefLands(s: Scope, s': Scope, tables: seq<nat>, t: nat, p: nat, newName: string, move: nat -> nat,
                       oldName: string, r: Ref, r': Ref)
    requires Changed(s, s', tables, t, p, newName, move) && CalledOld(s, tables, t, p, oldName)
    requires Fold(oldName) != Fold(newName) && ResolveRef(s, r).Some?
    requires r'.name == RenameName(oldName, newName, r.name)
    requires QualifierFits(s', r'.qualifier, ResolveRef(s, r).value.0)
    ensures RefLands(s, s', r, r', BindingMoves(tables, InTable(t, move))) <==>
            (Fold(r.name) == Fold(oldName) ==> Hits(s, tables, t, p, r)) && MeetsOne(s, s', r, r')
  {
    var f := BindingMoves(tables, InTable(t, move));
    var (b, c) := ResolveRef(s, r).value;
    LandsByName(s, s', r, r', f);
    FoundAfter(s, s', tables, t, p, newName, move, oldName, r, r'.name, b);
    if tables[b] == t { ChangedTableFinds(s, s', tables, t, p, newName, move, oldName, b, newName); }
    if Fold(r.name) == Fold(oldName) {
      OldSupplier(s, tables, t, p, oldName, r);
    } else if tables[b] == t && Fold(r.name) == Fold(newName) {
      FindSameFold(s.columns[b], r.name, newName);
    }
  }

  lemma LaterScopeChanged(q: Query, to: Pieces, db: Db, db': Db, t: nat, p: nat, newName: string, move: nat -> nat)
    requires ColumnChange(db, db', t, p, newName, move)
    requires TablesExist(q.from, db) && FreshHere(db, t, p, newName) && |to.from| == |q.from|
    ensures Changed(ScopeOf(q.from, db), LaterScope(q, to, db, db'), TablesOf(q.from, db), t, p, newName, move)
    ensures CalledOld(ScopeOf(q.from, db), TablesOf(q.from, db), t, p, db[t].columns[p].name)
  {
    ChangeIsScopeChange(q, db, db', t, p, newName, move);
    assert forall b | 0 <= b < |q.from| :: TableOf(q.from, db', b) == TablesOf(q.from, db')[b];
    assert LaterScope(q, to, db, db').columns == ScopeOf(q.from, db').columns;
  }

  lemma RefResolves(q: Query, db: Db, r: Ref)
    requires Resolve(q, db).Some? && r in QueryRefs(q)
    ensures ResolveRef(ScopeOf(q.from, db), r).Some?
  {
    if ResolveRef(ScopeOf(q.from, db), r).None? { QueryNeedsRefs(q, db, r); }
  }

  /** The renamed qualifier of a reference still fits the binding. */
  lemma RespelledRefFits(q: Query, db: Db, db': Db, oldName: string, newName: string, r: Ref)
    requires Resolve(q, db).Some? && |db'| == |db| && r in QueryRefs(q)
    ensures ResolveRef(ScopeOf(q.from, db), r).Some?
    ensures var to := TextPieces(q, oldName, newName);
            QualifierFits(LaterScope(q, to, db, db'), to.ref(r).qualifier, ResolveRef(ScopeOf(q.from, db), r).value.0)
  {
    RefResolves(q, db, r);
    RespelledFits(q.from, ScopeOf(q.from, db), LaterScope(q, TextPieces(q, oldName, newName), db, db'),
                  x => RenameName(oldName, newName, x), r.qualifier, ResolveRef(ScopeOf(q.from, db), r).value.0);
  }

  lemma ColumnRefsLand(q: Query, db: Db, db': Db, t: nat, p: nat, newName: string, move: nat -> nat)
    requires ColumnChange(db, db', t, p, newName, move) && Resolve(q, db).Some? && FreshHere(db, t, p, newName)
    requires Fold(db[t].columns[p].name) != Fold(newName)
    ensures var to := TextPieces(q, db[t].columns[p].name, newName);
            RefsLand(q, to, ScopeOf(q.from, db), LaterScope(q, to, db, db'),
                     BindingMoves(TablesOf(q.from, db), InTable(t, move))) <==>
            OnlyTheColumn(q, db, t, p) && NoneMeetsTwo(q, to, db, db')
  {
    var oldName := db[t].columns[p].name;
    var to, tables := TextPieces(q, oldName, newName), TablesOf(q.from, db);
    var s, s' := ScopeOf(q.from, db), LaterScope(q, to, db, db');
    LaterScopeChanged(q, to, db, db', t, p, newName, move);
    forall r | r in QueryRefs(q)
      ensures RefLands(s, s', r, to.ref(r), BindingMoves(tables, InTable(t, move))) <==>
              (Fold(r.name) == Fold(oldName) ==> Hits(s, tables, t, p, r)) && MeetsOne(s, s', r, to.ref(r))
    {
      RespelledRefFits(q, db, db', oldName, newName, r);
      ColumnRefLands(s, s', tables, t, p, newName, move, oldName, r, to.ref(r));
    }
  }

  lemma ChangePlaces(db: Db, db': Db, t: nat, p: nat, newName: string, move: nat -> nat)
    requires ColumnChange(db, db', t, p, newName, move) && forall c | 0 <= c < |db[t].columns| :: move(c) < |db'[t].columns|
    ensures Placed(db, db', InTable(t, move))
  {
    forall u, row: nat, c | 0 <= u < |db| && 0 <= c < |db[u].columns|
      ensures Cell(db', u, row, InTable(t, move)(u, c)) == Cell(db, u, row, c)
    {
      if u != t { assert db'[u] == db[u]; }
    }
  }

  lemma SparedIsKept(q: Query, oldName: string, newName: string)
    requires OperatorsSpared(q, oldName, newName)
    ensures OperatorsKept(q, x => RenameName(oldName, newName, x))
  {
  }

  /** What is found after the change is found where it should be. */
  ghost predicate NoneAstray(q: Query, to: Pieces, db: Db, db': Db, place: Places)
    requires TablesExist(q.from, db)
  {
    Fitting(q, to) && NothingStrays(q, to, db, db', BindingMoves(TablesOf(q.from, db), place))
  }

  /** Any change of the database: tables and references decide. */
  lemma TextRenameExactly(sem: Semantics, q: Query, db: Db, db': Db, oldName: string, newName: string, place: Places)
    requires Placed(db, db', place) && Resolve(q, db).Some? && OperatorsSpared(q, oldName, newName)
    requires NoneAstray(q, TextPieces(q, oldName, newName), db, db', place)
    ensures var to := TextPieces(q, oldName, newName);
            Eval(sem, RenameAll(q, oldName, newName), db') == Eval(sem, q, db) <==>
            && TablesLand(q, to, db, db')
            && RefsLand(q, to, ScopeOf(q.from, db), LaterScope(q, to, db, db'), BindingMoves(TablesOf(q.from, db), place))
  {
    var g := x => RenameName(oldName, newName, x);
    SparedIsKept(q, oldName, newName);
    RespellInPieces(q, g);
    FollowingExactly(sem, q, TextPieces(q, oldName, newName), db, db', place);
    TablesAndRefsDecide(q, db, db', g, BindingMoves(TablesOf(q.from, db), place));
  }

  lemma CaseOnlyTables(q: Query, db: Db, db': Db, oldName: string, newName: string)
    requires TablesExist(q.from, db) && TableNames(db') == TableNames(db) && Fold(oldName) == Fold(newName)
    ensures TablesLand(q, TextPieces(q, oldName, newName), db, db')
  {
    var to := TextPieces(q, oldName, newName);
    forall b | 0 <= b < |q.from|
      ensures TableLands(q, to, db, db', b)
    {
      FindSameFold(TableNames(db), q.from[b].table, to.from[b].table);
    }
  }

  /** A change of letter case only: everything lands. */
  lemma CaseOnlyLands(q: Query, db: Db, db': Db, t: nat, p: nat, newName: string, move: nat -> nat)
    requires ColumnChange(db, db', t, p, newName, move) && Resolve(q, db).Some? && FreshHere(db, t, p, newName)
    requires Fold(db[t].columns[p].name) == Fold(newName)
    ensures var to := TextPieces(q, db[t].columns[p].name, newName);
            && TablesLand(q, to, db, db')
            && RefsLand(q, to, ScopeOf(q.from, db), LaterScope(q, to, db, db'),
                        BindingMoves(TablesOf(q.from, db), InTable(t, move)))
  {
    var oldName := db[t].columns[p].name;
    var to, tables := TextPieces(q, oldName, newName), TablesOf(q.from, db);
    var s, s' := ScopeOf(q.from, db), LaterScope(q, to, db, db');
    CaseOnlyTables(q, db, db', oldName, newName);
    LaterScopeChanged(q, to, db, db', t, p, newName, move);
    forall r | r in QueryRefs(q)
      ensures RefLands(s, s', r, to.ref(r), BindingMoves(tables, InTable(t, move)))
    {
      RefResolves(q, db, r);
      CaseFollows(s, s', tables, t, p, newName, move, oldName, r, to.ref(r), Fold(r.name) == Fold(oldName));
    }
  }

  /**
   Renaming a column in the text and in the database keeps the query's rows, order and arity exactly when
   no table that the query reads is spelled like the column, every reference that is spelled like it
   means it, and no reference meets a second binding that offers its new spelling (or only the letter
   case of the name changes).
   */
  lemma ColumnTextRenameExactly(sem: Semantics, q: Query, db: Db, db': Db, t: nat, p: nat, newName: string, move: nat -> nat)
    requires ColumnChange(db, db', t, p, newName, move) && forall c | 0 <= c < |db[t].columns| :: move(c) < |db'[t].columns|
    requires Resolve(q, db).Some? && FreshHere(db, t, p, newName) && OperatorsSpared(q, db[t].columns[p].name, newName)
    requires NoneAstray(q, TextPieces(q, db[t].columns[p].name, newName), db, db', InTable(t, move))
    ensures var oldName := db[t].columns[p].name;
            Eval(sem, RenameAll(q, oldName, newName), db') == Eval(sem, q, db) <==>
            || (NoTableSpelled(q.from, oldName) && OnlyTheColumn(q, db, t, p)
                && NoneMeetsTwo(q, TextPieces(q, oldName, newName), db, db'))
            || Fold(oldName) == Fold(newName)
  {
    var oldName := db[t].columns[p].name;
    ChangePlaces(db, db', t, p, newName, move);
    TextRenameExactly(sem, q, db, db', oldName, newName, InTable(t, move));
    if Fold(oldName) == Fold(newName) {
      CaseOnlyLands(q, db, db', t, p, newName, move);
    } else {
      SameTableNamesLand(q, db, db', oldName, newName);
      ColumnRefsLand(q, db, db', t, p, newName, move);
    }
  }

  // ---------------------------------------------------------------------------------
  // A name that nothing else has

  /** The new name is no table, no column of a table that the query reads, and no qualifier of the query. */
  ghost predicate NameUnused(q: Query, db: Db, newName: string)
    requires TablesExist(q.from, db)
  {
    && Find(TableNames(db), newName).None?
    && forall b | 0 <= b < |q.from| ::
         Find(ColumnNames(db[TableOf(q.from, db, b)]), newName).None? && Fold(Qualifier(q.from[b])) != Fold(newName)
  }

  /** With an unused name qualifiers fit what they fitted. */
  lemma UnusedFits(from: seq<Binding>, s: Scope, s': Scope, oldName: string, newName: string, x: Option<string>)
    requires ScopeOk(s) && ScopeOk(s') && |s.columns| == |s'.columns| == |from|
    requires forall b | 0 <= b < |from| ::
      s.qualifiers[b] == Qualifier(from[b]) && s'.qualifiers[b] == RenameName(oldName, newName, Qualifier(from[b]))
    requires forall b | 0 <= b < |from| :: Fold(Qualifier(from[b])) != Fold(newName)
    requires exists b: nat :: QualifierFits(s, x, b)
    ensures SameFit(s, s', x, match x case None => None case Some(y) => Some(RenameName(oldName, newName, y)))
  {
    var known: nat :| QualifierFits(s, x, known);
    assert x.Some? ==> Fold(x.value) != Fold(newName);
  }

  /** Who offers the new spelling offered the old one, and has the column if that was renamed. */
  lemma UnusedOffers(s: Scope, s': Scope, tables: seq<nat>, t: nat, p: nat, newName: string, move: nat -> nat,
                     oldName: string, r: Ref, r': Ref, b: nat)
    requires Changed(s, s', tables, t, p, newName, move) && CalledOld(s, tables, t, p, oldName)
    requires Fold(oldName) != Fold(newName) && Fold(r.name) != Fold(newName)
    requires FitsAlike(s, s', r, r') && r'.name == RenameName(oldName, newName, r.name)
    requires Offers(s', r', b) && Find(s.columns[b], newName).None?
    ensures Offers(s, r, b) && (Fold(r.name) == Fold(oldName) ==> tables[b] == t)
  {
    FoundAfter(s, s', tables, t, p, newName, move, oldName, r, r'.name, b);
    if Fold(r.name) == Fold(oldName) {
      FindSameFold(s.columns[b], r.name, oldName);
      ChangedTableFinds(s, s', tables, t, p, newName, move, oldName, b, newName);
    }
  }

  lemma OtherSpelling(names: seq<string>, x: string, y: string)
    requires Find(names, x).Some? && Find(names, y).None?
    ensures Fold(x) != Fold(y)
  {
  }

  /** Then nobody but the column's own bindings offers the new name. */
  lemma UnusedMeetsOne(s: Scope, s': Scope, tables: seq<nat>, t: nat, p: nat, newName: string, move: nat -> nat,
                       oldName: string, r: Ref, r': Ref)
    requires Changed(s, s', tables, t, p, newName, move) && CalledOld(s, tables, t, p, oldName)
    requires Fold(oldName) != Fold(newName) && ResolveRef(s, r).Some? && FitsAlike(s, s', r, r')
    requires r'.name == RenameName(oldName, newName, r.name)
    requires forall b | 0 <= b < |tables| :: Find(s.columns[b], newName).None?
    ensures MeetsOne(s, s', r, r')
    ensures Fold(r.name) == Fold(oldName) && !Hits(s, tables, t, p, r) ==> ResolveRef(s', r').None?
  {
    var (b0, c0) := ResolveRef(s, r).value;
    OtherSpelling(s.columns[b0], r.name, newName);
    forall b: nat | Offers(s', r', b)
      ensures b == b0 && (Fold(r.name) == Fold(oldName) ==> tables[b] == t)
    {
      UnusedOffers(s, s', tables, t, p, newName, move, oldName, r, r', b);
    }
    if Fold(r.name) == Fold(oldName) { OldSupplier(s, tables, t, p, oldName, r); }
  }

  /** Nothing can be found in the wrong place, if stars stay what they were. */
  lemma UnusedNoneAstray(q: Query, db: Db, db': Db, t: nat, p: nat, newName: string, move: nat -> nat)
    requires ColumnChange(db, db', t, p, newName, move) && Resolve(q, db).Some? && FreshHere(db, t, p, newName)
    requires Fold(db[t].columns[p].name) != Fold(newName) && NameUnused(q, db, newName)
    requires NoStars(q) || (move == Stay && |db'[t].columns| == |db[t].columns|)
    ensures NoneAstray(q, TextPieces(q, db[t].columns[p].name, newName), db, db', InTable(t, move))
    ensures NoneMeetsTwo(q, TextPieces(q, db[t].columns[p].name, newName), db, db')
  {
    var oldName := db[t].columns[p].name;
    var to := TextPieces(q, oldName, newName);
    UnusedRefs(q, db, db', t, p, newName, move);
    UnusedTables(q, db, db', oldName, newName);
    if TablesExist(to.from, db') {
      LaterScopeIsScope(q, to, db, db');
      UnusedStars(q, db, db', t, p, newName, move);
    }
  }

  lemma UnusedTables(q: Query, db: Db, db': Db, oldName: string, newName: string)
    requires TablesExist(q.from, db) && TableNames(db') == TableNames(db) && Find(TableNames(db), newName).None?
    ensures forall b | 0 <= b < |q.from| ::
              Find(TableNames(db'), TextPieces(q, oldName, newName).from[b].table).Some? ==>
              TableLands(q, TextPieces(q, oldName, newName), db, db', b)
  {
  }

  lemma UnusedRefs(q: Query, db: Db, db': Db, t: nat, p: nat, newName: string, move: nat -> nat)
    requires ColumnChange(db, db', t, p, newName, move) && Resolve(q, db).Some? && FreshHere(db, t, p, newName)
    requires Fold(db[t].columns[p].name) != Fold(newName) && NameUnused(q, db, newName)
    ensures var to := TextPieces(q, db[t].columns[p].name, newName);
            var s, s', tables := ScopeOf(q.from, db), LaterScope(q, to, db, db'), TablesOf(q.from, db);
            forall r | r in QueryRefs(q) ::
              && MeetsOne(s, s', r, to.ref(r))
              && (ResolveRef(s', to.ref(r)).Some? ==>
                    RefLands(s, s', r, to.ref(r), BindingMoves(tables, InTable(t, move))))
  {
    var oldName := db[t].columns[p].name;
    var to, tables := TextPieces(q, oldName, newName), TablesOf(q.from, db);
    var s, s' := ScopeOf(q.from, db), LaterScope(q, to, db, db');
    LaterScopeChanged(q, to, db, db', t, p, newName, move);
    forall r | r in QueryRefs(q)
      ensures MeetsOne(s, s', r, to.ref(r))
      ensures ResolveRef(s', to.ref(r)).Some? ==> RefLands(s, s', r, to.ref(r), BindingMoves(tables, InTable(t, move)))
    {
      RespelledRefFits(q, db, db', oldName, newName, r);
      UnusedFits(q.from, s, s', oldName, newName, r.qualifier);
      UnusedMeetsOne(s, s', tables, t, p, newName, move, oldName, r, to.ref(r));
      ColumnRefLands(s, s', tables, t, p, newName, move, oldName, r, to.ref(r));
    }
  }

  lemma StayingMoves(tables: seq<nat>, t: nat)
    ensures forall b: nat, c: nat :: BindingMoves(tables, InTable(t, Stay))(b, c) == c
  {
    forall b: nat, c: nat
      ensures BindingMoves(tables, InTable(t, Stay))(b, c) == c
    {
      assert forall u: nat :: InTable(t, Stay)(u, c) == if u == t then Stay(c) else c;
    }
  }

  /** An in-place rename leaves stars as wide as they were. */
  lemma InPlaceStarsStay(q: Query, to: Pieces, db: Db, db': Db, t: nat, p: nat, newName: string)
    requires ColumnChange(db, db', t, p, newName, Stay) && |db'[t].columns| == |db[t].columns|
    requires TablesExist(q.from, db) && |to.from| == |q.from|
    ensures StarsStay(ScopeOf(q.from, db), LaterScope(q, to, db, db'), BindingMoves(TablesOf(q.from, db), InTable(t, Stay)))
  {
    var s, s' := ScopeOf(q.from, db), LaterScope(q, to, db, db');
    assert forall u | 0 <= u < |db| :: |ColumnNames(db'[u])| == |ColumnNames(db[u])|;
    forall b | 0 <= b < |q.from|
      ensures |s'.columns[b]| == |s.columns[b]|
    {
      assert s.columns[b] == ColumnNames(db[TableOf(q.from, db, b)]);
    }
    StayingMoves(TablesOf(q.from, db), t);
  }

  lemma UnusedStars(q: Query, db: Db, db': Db, t: nat, p: nat, newName: string, move: nat -> nat)
    requires ColumnChange(db, db', t, p, newName, move) && Resolve(q, db).Some? && NameUnused(q, db, newName)
    requires NoStars(q) || (move == Stay && |db'[t].columns| == |db[t].columns|)
    ensures var to := TextPieces(q, db[t].columns[p].name, newName);
            StarsLand(q, to, ScopeOf(q.from, db), LaterScope(q, to, db, db'),
                      BindingMoves(TablesOf(q.from, db), InTable(t, move)))
  {
    var oldName := db[t].columns[p].name;
    var to, f := TextPieces(q, oldName, newName), BindingMoves(TablesOf(q.from, db), InTable(t, move));
    var s, s' := ScopeOf(q.from, db), LaterScope(q, to, db, db');
    forall i | 0 <= i < |q.items| && !q.items[i].Output?
      ensures BlockLands(s, s', q.items[i], to.blocks[i], f)
    {
      ItemResolved(q, db, i);
      InPlaceStarsStay(q, to, db, db', t, p, newName);
      UnusedStar(q.items[i], q.from, s, s', oldName, newName, f);
    }
  }

  lemma UnusedStar(item: Item, from: seq<Binding>, s: Scope, s': Scope, oldName: string, newName: string, f: Moves)
    requires ScopeOk(s) && ScopeOk(s') && |s.columns| == |s'.columns| == |from| && StarsStay(s, s', f)
    requires forall b | 0 <= b < |from| ::
      s.qualifiers[b] == Qualifier(from[b]) && s'.qualifiers[b] == RenameName(oldName, newName, Qualifier(from[b]))
    requires forall b | 0 <= b < |from| :: Fold(Qualifier(from[b])) != Fold(newName)
    requires !item.Output? && ResolveItem(s, item).Some?
    ensures BlockLands(s, s', item, [RespellItem(item, x => RenameName(oldName, newName, x))], f)
  {
    var g := x => RenameName(oldName, newName, x);
    OneItem(s', RespellItem(item, g));
    match item
    case Star => StarTracks(s, s', None, None, |from|, f);
    case QualifiedStar(x) =>
      UnusedFits(from, s, s', oldName, newName, Some(x));
      var b: nat :| QualifierFits(s, Some(x), b);
      assert QualifierFits(s', Some(g(x)), b);
      StarTracks(s, s', Some(x), Some(g(x)), |from|, f);
  }

  /**
   If the new name is used nowhere else: the renamed query returns the same rows if and only if no table
   that it reads is spelled like the column, and every reference spelled like it means the column.
   */
  lemma UnusedTextRenameExactly(sem: Semantics, q: Query, db: Db, db': Db, t: nat, p: nat, newName: string, move: nat -> nat)
    requires ColumnChange(db, db', t, p, newName, move) && forall c | 0 <= c < |db[t].columns| :: move(c) < |db'[t].columns|
    requires Resolve(q, db).Some? && FreshHere(db, t, p, newName) && NameUnused(q, db, newName)
    requires OperatorsSpared(q, db[t].columns[p].name, newName) && Fold(db[t].columns[p].name) != Fold(newName)
    requires NoStars(q) || (move == Stay && |db'[t].columns| == |db[t].columns|)
    ensures var oldName := db[t].columns[p].name;
            Eval(sem, RenameAll(q, oldName, newName), db') == Eval(sem, q, db) <==>
            NoTableSpelled(q.from, oldName) && OnlyTheColumn(q, db, t, p)
  {
    UnusedNoneAstray(q, db, db', t, p, newName, move);
    ColumnTextRenameExactly(sem, q, db, db', t, p, newName, move);
  }

  // ---------------------------------------------------------------------------------
  // One table

  function SamePlace(t: nat, c: nat): nat { c }

  lemma TableChangePlaces(db: Db, db': Db, t: nat, newName: string)
    requires TableChange(db, db', t, newName)
    ensures Placed(db, db', SamePlace)
  {
  }

  lemma RenamedTablesLand(q: Query, to: Pieces, db: Db, db': Db, t: nat, newName: string)
    requires TableChange(db, db', t, newName) && TablesExist(q.from, db) && |to.from| == |q.from|
    requires forall b | 0 <= b < |q.from| :: to.from[b].table == RenameName(db[t].name, newName, q.from[b].table)
    ensures TablesLand(q, to, db, db')
    ensures LaterScope(q, to, db, db').columns == ScopeOf(q.from, db).columns
  {
    assert TableNames(db') == TableNames(db)[t := newName];
    forall b | 0 <= b < |q.from|
      ensures TableLands(q, to, db, db', b)
    {
      TableFoundAgain(TableNames(db), t, newName, q.from[b].table);
    }
    forall b | 0 <= b < |q.from|
      ensures LaterScope(q, to, db, db').columns[b] == ScopeOf(q.from, db).columns[b]
    {
    }
  }

  /** One reference under a table change: a column of the table's name loses its own. */
  lemma TableRefLands(s: Scope, s': Scope, tables: seq<nat>, oldName: string, newName: string, r: Ref, r': Ref)
    requires ScopeOk(s) && ScopeOk(s') && s'.columns == s.columns && |tables| == |s.columns|
    requires Fold(oldName) != Fold(newName) && ResolveRef(s, r).Some?
    requires r'.name == RenameName(oldName, newName, r.name)
    requires QualifierFits(s', r'.qualifier, ResolveRef(s, r).value.0)
    ensures RefLands(s, s', r, r', BindingMoves(tables, SamePlace)) <==>
            Fold(r.name) != Fold(oldName) && MeetsOne(s, s', r, r')
  {
    var (b, c) := ResolveRef(s, r).value;
    LandsByName(s, s', r, r', BindingMoves(tables, SamePlace));
    assert BindingMoves(tables, SamePlace)(b, c) == c;
    if Fold(r.name) == Fold(oldName) { FoldsApart(s.columns[b], r.name, newName); }
  }

  /** Two names that differ are not found at the same place. */
  lemma FoldsApart(names: seq<string>, x: string, y: string)
    requires Fold(x) != Fold(y) && Find(names, x).Some?
    ensures Find(names, y) != Find(names, x)
  {
  }

  /**
   Renaming a table in the text and in the database keeps the query's rows exactly when no column name of
   a reference is spelled like the table, and no reference meets a second binding that offers it.
   */
  lemma TableTextRenameExactly(sem: Semantics, q: Query, db: Db, db': Db, t: nat, newName: string)
    requires TableChange(db, db', t, newName) && Resolve(q, db).Some? && OperatorsSpared(q, db[t].name, newName)
    requires NoneAstray(q, TextPieces(q, db[t].name, newName), db, db', SamePlace)
    ensures var oldName := db[t].name;
            Eval(sem, RenameAll(q, oldName, newName), db') == Eval(sem, q, db) <==>
            && (forall r | r in QueryRefs(q) :: Fold(r.name) != Fold(oldName))
            && NoneMeetsTwo(q, TextPieces(q, oldName, newName), db, db')
  {
    var oldName := db[t].name;
    var to := TextPieces(q, oldName, newName);
    TableChangePlaces(db, db', t, newName);
    TextRenameExactly(sem, q, db, db', oldName, newName, SamePlace);
    RenamedTablesLand(q, to, db, db', t, newName);
    TableRefsLand(q, db, db', t, newName);
  }

  lemma TableRefsLand(q: Query, db: Db, db': Db, t: nat, newName: string)
    requires TableChange(db, db', t, newName) && Resolve(q, db).Some?
    ensures var to := TextPieces(q, db[t].name, newName);
            RefsLand(q, to, ScopeOf(q.from, db), LaterScope(q, to, db, db'), BindingMoves(TablesOf(q.from, db), SamePlace)) <==>
            (forall r | r in QueryRefs(q) :: Fold(r.name) != Fold(db[t].name)) && NoneMeetsTwo(q, to, db, db')
  {
    var oldName := db[t].name;
    var to, tables := TextPieces(q, oldName, newName), TablesOf(q.from, db);
    var s, s' := ScopeOf(q.from, db), LaterScope(q, to, db, db');
    assert Fold(oldName) != Fold(newName) by { assert TableNames(db)[t] == oldName; }
    RenamedTablesLand(q, to, db, db', t, newName);
    forall r | r in QueryRefs(q)
      ensures RefLands(s, s', r, to.ref(r), BindingMoves(tables, SamePlace)) <==>
              Fold(r.name) != Fold(oldName) && MeetsOne(s, s', r, to.ref(r))
    {
      RespelledRefFits(q, db, db', oldName, newName, r);
      TableRefLands(s, s', tables, oldName, newName, r, to.ref(r));
    }
  }

  // ---------------------------------------------------------------------------------
  // The table rewriter, when a qualifier is spelled like one of the names

  /** What `_rewrite_table` replaces, piece by piece. */
  function TablePieces(q: Query, oldName: string, newName: string): Pieces {
    var follow := QualifiersFollow(q.from, oldName);
    RewritePieces(q, r => RenameRef(follow, oldName, newName, r), x => RenameQualifier(follow, oldName, newName, x),
                  RenameBindings(q.from, oldName, newName))
  }

  /** The rewritten qualifier of every reference fits the binding that it meant. */
  ghost predicate QualifiersHold(q: Query, to: Pieces, s: Scope, s': Scope)
    requires ScopeOk(s) && ScopeOk(s')
  {
    forall r | r in QueryRefs(q) :: StillFits(s, s', r, to.ref(r))
  }

  ghost predicate StillFits(s: Scope, s': Scope, r: Ref, r': Ref)
    requires ScopeOk(s) && ScopeOk(s')
  {
    ResolveRef(s, r).Some? && QualifierFits(s', r'.qualifier, ResolveRef(s, r).value.0)
  }

  /** Every rewritten star covers something. */
  ghost predicate StarsCover(q: Query, to: Pieces, s': Scope)
    requires ScopeOk(s') && |to.blocks| == |q.items|
  {
    forall i | 0 <= i < |q.items| && !q.items[i].Output? :: ResolveItems(s', to.blocks[i]).Some?
  }

  lemma SameNameLands(s: Scope, s': Scope, tables: seq<nat>, r: Ref, r': Ref)
    requires ScopeOk(s) && ScopeOk(s') && s'.columns == s.columns && r'.name == r.name && ResolveRef(s, r).Some?
    ensures RefLands(s, s', r, r', BindingMoves(tables, SamePlace)) <==> StillFits(s, s', r, r') && MeetsOne(s, s', r, r')
  {
    var (b, c) := ResolveRef(s, r).value;
    LandsByName(s, s', r, r', BindingMoves(tables, SamePlace));
    assert BindingMoves(tables, SamePlace)(b, c) == c;
  }

  lemma RewrittenRefsLand(q: Query, to: Pieces, db: Db, s: Scope, s': Scope, tables: seq<nat>)
    requires Resolve(q, db).Some? && s == ScopeOf(q.from, db) && ScopeOk(s') && s'.columns == s.columns
    requires |tables| == |s.columns| && forall r :: to.ref(r).name == r.name
    ensures RefsLand(q, to, s, s', BindingMoves(tables, SamePlace)) <==>
            QualifiersHold(q, to, s, s') && forall r | r in QueryRefs(q) :: MeetsOne(s, s', r, to.ref(r))
  {
    forall r | r in QueryRefs(q)
      ensures RefLands(s, s', r, to.ref(r), BindingMoves(tables, SamePlace)) <==>
              StillFits(s, s', r, to.ref(r)) && MeetsOne(s, s', r, to.ref(r))
    {
      RefResolves(q, db, r);
      SameNameLands(s, s', tables, r, to.ref(r));
    }
  }

  /**
   The table rewriter together with the rename keeps the query's rows exactly when every qualifier that
   it leaves or renames still fits the binding that was meant, no reference meets a second binding that
   offers it, and no star loses its bindings.
   */
  lemma TableRewriteExactly(sem: Semantics, q: Query, db: Db, db': Db, t: nat, newName: string)
    requires TableChange(db, db', t, newName) && Resolve(q, db).Some? && t in TablesOf(q.from, db)
    requires NoneAstray(q, TablePieces(q, db[t].name, newName), db, db', SamePlace)
    ensures RewriteTable(q, db[t].name, newName).Some?
    ensures var to := TablePieces(q, db[t].name, newName);
            Eval(sem, RewriteTable(q, db[t].name, newName).value, db') == Eval(sem, q, db) <==>
            && QualifiersHold(q, to, ScopeOf(q.from, db), LaterScope(q, to, db, db'))
            && NoneMeetsTwo(q, to, db, db') && StarsCover(q, to, LaterScope(q, to, db, db'))
  {
    var oldName := db[t].name;
    var to, tables := TablePieces(q, oldName, newName), TablesOf(q.from, db);
    var s, s' := ScopeOf(q.from, db), LaterScope(q, to, db, db');
    ReferencedMeansBound(q, db, t);
    TableRewriteInPieces(q, oldName, newName);
    TableChangePlaces(db, db', t, newName);
    FollowingExactly(sem, q, to, db, db', SamePlace);
    RenamedTablesLand(q, to, db, db', t, newName);
    LaterScopeIsScope(q, to, db, db');
    RewrittenRefsLand(q, to, db, s, s', tables);
  }

  lemma TableRewriteInPieces(q: Query, oldName: string, newName: string)
    requires Referenced(q.from, oldName)
    ensures Fitting(q, TablePieces(q, oldName, newName))
    ensures RewriteTable(q, oldName, newName) == Some(Replaced(q, TablePieces(q, oldName, newName)))
  {
    var follow := QualifiersFollow(q.from, oldName);
    RewriteInPieces(q, r => RenameRef(follow, oldName, newName, r), x => RenameQualifier(follow, oldName, newName, x),
                    RenameBindings(q.from, oldName, newName));
  }
}
