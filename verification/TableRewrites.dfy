/** Rewriting a query for a renamed table. */
module TableRewrites {
  import opened Prelude
  import opened Strings
  import opened Database
  import opened Queries
  import opened Resolution

  predicate Mentions(b: Binding, oldName: string) {
    Fold(b.table) == Fold(oldName)
  }

  predicate Referenced(from: seq<Binding>, oldName: string) {
    exists b | 0 <= b < |from| :: Mentions(from[b], oldName)
  }

  /** Qualifiers follow only when some occurrence of the table has no alias. */
  predicate QualifiersFollow(from: seq<Binding>, oldName: string) {
    exists b | 0 <= b < |from| :: Mentions(from[b], oldName) && from[b].alias.None?
  }

  function RenameQualifier(follow: bool, oldName: string, newName: string, x: string): string {
    if follow && Fold(x) == Fold(oldName) then newName else x
  }

  function RenameRef(follow: bool, oldName: string, newName: string, r: Ref): Ref {
    if r.qualifier.Some? then r.(qualifier := Some(RenameQualifier(follow, oldName, newName, r.qualifier.value))) else r
  }

  function RenameBindings(from: seq<Binding>, oldName: string, newName: string): seq<Binding> {
    seq(|from|, b requires 0 <= b < |from| =>
      if Mentions(from[b], oldName) then from[b].(table := newName) else from[b])
  }

  /** `_rewrite_table`: an error when the query does not mention the table. */
  function RewriteTable(q: Query, oldName: string, newName: string): Option<Query> {
    if !Referenced(q.from, oldName) then None else
    var follow := QualifiersFollow(q.from, oldName);
    Some(MapQuery(q, r => RenameRef(follow, oldName, newName, r),
                  x => RenameQualifier(follow, oldName, newName, x),
                  RenameBindings(q.from, oldName, newName)))
  }

  /** The new name is no qualifier yet, and a followed old name is no alias. */
  predicate NamesClear(from: seq<Binding>, oldName: string, newName: string) {
    forall b | 0 <= b < |from| ::
      && Fold(Qualifier(from[b])) != Fold(newName)
      && (QualifiersFollow(from, oldName) && from[b].alias.Some? ==> Fold(from[b].alias.value) != Fold(oldName))
  }

  lemma TableFoundAgain(names: seq<string>, t: nat, newName: string, x: string)
    requires Unique(names) && t < |names| && FreshIn(names, newName, -1) && Find(names, x).Some?
    ensures Find(names[t := newName], if Fold(x) == Fold(names[t]) then newName else x) == Find(names, x)
  {
    var names' := names[t := newName];
    assert Unique(names');
    var i := Find(names, x).value;
    FindAt(names', if Fold(x) == Fold(names[t]) then newName else x, i);
  }

  /** A qualifier that meant something means the same bindings after the rename. */
  lemma FitKept(from: seq<Binding>, s: Scope, s': Scope, oldName: string, newName: string, x: string)
    requires ScopeOk(s) && ScopeOk(s') && |s.columns| == |s'.columns| == |from|
    requires forall b | 0 <= b < |from| :: s.qualifiers[b] == Qualifier(from[b])
    requires forall b | 0 <= b < |from| :: s'.qualifiers[b] == Qualifier(RenameBindings(from, oldName, newName)[b])
    requires NamesClear(from, oldName, newName)
    requires exists b: nat :: QualifierFits(s, Some(x), b)
    ensures SameFit(s, s', Some(x), Some(RenameQualifier(QualifiersFollow(from, oldName), oldName, newName, x)))
  {
    var known: nat :| QualifierFits(s, Some(x), known);
    assert Fold(x) != Fold(newName);
    forall b: nat | b < |from|
      ensures QualifierFits(s', Some(RenameQualifier(QualifiersFollow(from, oldName), oldName, newName, x)), b) ==
              QualifierFits(s, Some(x), b)
    {
      if Mentions(from[b], oldName) && from[b].alias.None? {
        assert s'.qualifiers[b] == newName;
      } else {
        assert s'.qualifiers[b] == s.qualifiers[b];
      }
    }
  }

  lemma RefKept(from: seq<Binding>, s: Scope, s': Scope, oldName: string, newName: string, r: Ref)
    requires ScopeOk(s) && ScopeOk(s') && |s.columns| == |s'.columns| == |from| && s'.columns == s.columns
    requires forall b | 0 <= b < |from| :: s.qualifiers[b] == Qualifier(from[b])
    requires forall b | 0 <= b < |from| :: s'.qualifiers[b] == Qualifier(RenameBindings(from, oldName, newName)[b])
    requires NamesClear(from, oldName, newName)
    ensures Tracks(s, s', r, RenameRef(QualifiersFollow(from, oldName), oldName, newName, r), Same)
  {
    var at := ResolveRef(s, r);
    var r' := RenameRef(QualifiersFollow(from, oldName), oldName, newName, r);
    if at.Some? {
      var b0 := at.value.0;
      assert QualifierFits(s, r.qualifier, b0);
      if r.qualifier.Some? {
        FitKept(from, s, s', oldName, newName, r.qualifier.value);
      }
      assert forall b: nat :: QualifierFits(s', r'.qualifier, b) == QualifierFits(s, r.qualifier, b);
      assert forall b: nat :: Offers(s', r', b) == Offers(s, r, b);
      assert Supplies(s', r', b0);
      assert ResolveRef(s', r').Some?;
    }
  }

  /** Database `db'` is `db` with table `t` renamed. */
  ghost predicate TableChange(db: Db, db': Db, t: nat, newName: string) {
    && ValidDb(db) && t < |db|
    && FreshIn(TableNames(db), newName, -1)
    && db' == db[t := db[t].(name := newName)]
  }

  lemma TablesKept(q: Query, db: Db, db': Db, t: nat, newName: string)
    requires TableChange(db, db', t, newName) && TablesExist(q.from, db)
    ensures var from := RenameBindings(q.from, db[t].name, newName);
            && TablesExist(from, db') && TablesOf(from, db') == TablesOf(q.from, db)
            && ScopeOf(from, db').columns == ScopeOf(q.from, db).columns
  {
    var from := RenameBindings(q.from, db[t].name, newName);
    assert TableNames(db') == TableNames(db)[t := newName];
    forall b | 0 <= b < |from|
      ensures Find(TableNames(db'), from[b].table) == Some(TableOf(q.from, db, b))
    {
      TableFoundAgain(TableNames(db), t, newName, q.from[b].table);
    }
    assert forall b | 0 <= b < |from| :: ColumnNames(db'[TableOf(from, db', b)]) == ColumnNames(db[TableOf(q.from, db, b)]);
  }

  /** Renaming a table in the database and in the query returns the same rows, in the same order. */
  lemma TableRewritePreserves(sem: Semantics, q: Query, db: Db, db': Db, t: nat, newName: string)
    requires TableChange(db, db', t, newName)
    requires Resolve(q, db).Some? && NamesClear(q.from, db[t].name, newName)
    ensures RewriteTable(q, db[t].name, newName).Some? <==> t in TablesOf(q.from, db)
    ensures RewriteTable(q, db[t].name, newName).Some? ==>
              Eval(sem, RewriteTable(q, db[t].name, newName).value, db') == Eval(sem, q, db)
  {
    var oldName := db[t].name;
    var from := RenameBindings(q.from, oldName, newName);
    var follow := QualifiersFollow(q.from, oldName);
    var g := r => RenameRef(follow, oldName, newName, r);
    var h := x => RenameQualifier(follow, oldName, newName, x);
    TablesKept(q, db, db', t, newName);
    var s, s' := ScopeOf(q.from, db), ScopeOf(from, db');
    NamesFollow(q, db, s, s', oldName, newName);
    SameTables(q.from, db, db', t, newName);
    TrackedRewritePreserves(sem, q, db, db', from, g, h, Same);
    ReferencedMeansBound(q, db, t);
  }

  lemma SameTables(from: seq<Binding>, db: Db, db': Db, t: nat, newName: string)
    requires TableChange(db, db', t, newName) && TablesExist(from, db)
    ensures Simulates(TablesOf(from, db), db, db', Same)
  {
  }

  /** Every name of the query follows the rename. */
  lemma NamesFollow(q: Query, db: Db, s: Scope, s': Scope, oldName: string, newName: string)
    requires Resolve(q, db).Some? && s == ScopeOf(q.from, db)
    requires ScopeOk(s) && ScopeOk(s') && |s.columns| == |s'.columns| == |q.from| && s'.columns == s.columns
    requires forall b | 0 <= b < |q.from| :: s.qualifiers[b] == Qualifier(q.from[b])
    requires forall b | 0 <= b < |q.from| :: s'.qualifiers[b] == Qualifier(RenameBindings(q.from, oldName, newName)[b])
    requires NamesClear(q.from, oldName, newName)
    ensures QueryTracks(q, s, s', r => RenameRef(QualifiersFollow(q.from, oldName), oldName, newName, r),
                        x => RenameQualifier(QualifiersFollow(q.from, oldName), oldName, newName, x), Same)
  {
    var follow := QualifiersFollow(q.from, oldName);
    var g := r => RenameRef(follow, oldName, newName, r);
    var h := x => RenameQualifier(follow, oldName, newName, x);
    forall r
      ensures Tracks(s, s', r, g(r), Same)
    {
      RefKept(q.from, s, s', oldName, newName, r);
    }
    forall i | 0 <= i < |q.items|
      ensures ItemTracks(s, s', q.items[i], g, h, Same)
    {
      var item := q.items[i];
      if item.QualifiedStar? {
        if ResolveItem(s, item).None? { ItemsNeedEach(s, q.items, i); }
        FitKept(q.from, s, s', oldName, newName, item.qualifier);
      }
    }
  }

  lemma ReferencedMeansBound(q: Query, db: Db, t: nat)
    requires ValidDb(db) && t < |db| && TablesExist(q.from, db)
    ensures Referenced(q.from, db[t].name) <==> t in TablesOf(q.from, db)
  {
    forall b | 0 <= b < |q.from|
      ensures Mentions(q.from[b], db[t].name) <==> TablesOf(q.from, db)[b] == t
    {
      if Mentions(q.from[b], db[t].name) { FindAt(TableNames(db), q.from[b].table, t); }
    }
    if t in TablesOf(q.from, db) {
      var b :| 0 <= b < |q.from| && TablesOf(q.from, db)[b] == t;
      assert Mentions(q.from[b], db[t].name);
    }
  }
}
