/** When the rewriter reads a reference as the database does, in terms of names alone. */
module NameReading {
  import opened Prelude
  import opened Strings
  import opened Database
  import opened Queries
  import opened Resolution
  import opened ColumnRewrites

  /**
   What the names must satisfy for a reference spelled like column `p` of table `t`. Without a
   qualifier: if the query uses the table, no other table of the whole schema has such a column. With
   one: the alias dictionary leads to the table exactly when the qualified binding is of that table.
   */
  predicate ReadRight(from: seq<Binding>, db: Db, t: nat, p: nat, r: Ref)
    requires TablesExist(from, db) && t < |db| && p < |db[t].columns|
  {
    Fold(r.name) == Fold(db[t].columns[p].name) ==>
      match r.qualifier
      case None => (t in TablesOf(from, db) ==> |SchemaMatches(db, r.name, |db|)| == 1)
      case Some(x) =>
        forall b | 0 <= b < |from| && Fold(Qualifier(from[b])) == Fold(x)
                   && Find(ColumnNames(db[TableOf(from, db, b)]), r.name).Some? ::
          (AliasTable(from, db, x) == Some(t) <==> TableOf(from, db, b) == t)
  }

  predicate NamesRead(q: Query, db: Db, t: nat, p: nat)
    requires TablesExist(q.from, db) && t < |db| && p < |db[t].columns|
  {
    forall r | r in QueryRefs(q) :: ReadRight(q.from, db, t, p, r)
  }

  lemma {:induction false} MatchIsListed(db: Db, name: string, n: nat, u: nat)
    requires u < n <= |db| && Find(ColumnNames(db[u]), name).Some?
    ensures (u, Find(ColumnNames(db[u]), name).value) in SchemaMatches(db, name, n)
  {
    if u < n - 1 { MatchIsListed(db, name, n - 1, u); }
  }

  lemma OnlyElement(matches: seq<(nat, nat)>, a: (nat, nat), b: (nat, nat))
    requires |matches| == 1 && a in matches && b in matches
    ensures a == b == matches[0]
  {
  }

  /** A bare reference spelled like the column. */
  lemma BareAgreesExactly(from: seq<Binding>, db: Db, t: nat, p: nat, r: Ref)
    requires ValidDb(db) && TablesExist(from, db) && t < |db| && p < |db[t].columns|
    requires r.qualifier.None? && ResolveRef(ScopeOf(from, db), r).Some?
    requires Find(ColumnNames(db[t]), r.name) == Some(p)
    ensures (CodeResolve(db, from, r) == Some((t, p)) <==> Hits(ScopeOf(from, db), TablesOf(from, db), t, p, r))
            <==> ReadRight(from, db, t, p, r)
  {
    var s, tables := ScopeOf(from, db), TablesOf(from, db);
    var (b, c) := ResolveRef(s, r).value;
    var matches := SchemaMatches(db, r.name, |db|);
    MatchIsListed(db, r.name, |db|, t);
    MatchIsListed(db, r.name, |db|, tables[b]);
    if |matches| == 1 {
      OnlyElement(matches, (t, p), (tables[b], c));
    }
    if i :| 0 <= i < |tables| && tables[i] == t {
      assert Offers(s, r, i);
    }
  }

  /** A qualified reference spelled like the column. */
  lemma QualifiedAgreesExactly(from: seq<Binding>, db: Db, t: nat, p: nat, r: Ref)
    requires ValidDb(db) && TablesExist(from, db) && t < |db| && p < |db[t].columns|
    requires r.qualifier.Some? && ResolveRef(ScopeOf(from, db), r).Some?
    requires Find(ColumnNames(db[t]), r.name) == Some(p) && Fold(r.name) == Fold(db[t].columns[p].name)
    ensures (CodeResolve(db, from, r) == Some((t, p)) <==> Hits(ScopeOf(from, db), TablesOf(from, db), t, p, r))
            <==> ReadRight(from, db, t, p, r)
  {
    var s := ScopeOf(from, db);
    var (b, c) := ResolveRef(s, r).value;
    forall i | 0 <= i < |from| && Fold(Qualifier(from[i])) == Fold(r.qualifier.value)
               && Find(ColumnNames(db[TableOf(from, db, i)]), r.name).Some?
      ensures i == b
    {
      assert Offers(s, r, i);
    }
    assert Offers(s, r, b);
  }

  /** For every reference that resolves: rewriter and database agree on it exactly when its names read right. */
  lemma AgreesExactly(from: seq<Binding>, db: Db, t: nat, p: nat, r: Ref)
    requires ValidDb(db) && TablesExist(from, db) && t < |db| && p < |db[t].columns|
    requires ResolveRef(ScopeOf(from, db), r).Some?
    ensures (CodeResolve(db, from, r) == Some((t, p)) <==> Hits(ScopeOf(from, db), TablesOf(from, db), t, p, r))
            <==> ReadRight(from, db, t, p, r)
  {
    if Fold(r.name) == Fold(db[t].columns[p].name) {
      assert ColumnNames(db[t])[p] == db[t].columns[p].name;
      FindAt(ColumnNames(db[t]), r.name, p);
      if r.qualifier.None? {
        BareAgreesExactly(from, db, t, p, r);
      } else {
        QualifiedAgreesExactly(from, db, t, p, r);
      }
    } else {
      CodeResolveFold(db, from, r);
    }
  }

  lemma CodeAgreesExactly(q: Query, db: Db, t: nat, p: nat)
    requires ValidDb(db) && Resolve(q, db).Some? && t < |db| && p < |db[t].columns|
    ensures CodeAgrees(q, db, t, p) <==> NamesRead(q, db, t, p)
  {
    forall r | r in QueryRefs(q)
      ensures (CodeResolve(db, q.from, r) == Some((t, p)) <==> Hits(ScopeOf(q.from, db), TablesOf(q.from, db), t, p, r))
              <==> ReadRight(q.from, db, t, p, r)
    {
      if ResolveRef(ScopeOf(q.from, db), r).None? { QueryNeedsRefs(q, db, r); }
      AgreesExactly(q.from, db, t, p, r);
    }
  }

  /**
   Rewriting a column together with its rename or type-changing replacement preserves the query's
   rows, order and arity exactly when its references read right by name and none that is spelled like
   the new name afterwards meets another bound table with such a column, or only the letter case of
   the name changes.
   */
  lemma ColumnRewriteByNames(sem: Semantics, q: Query, db: Db, db': Db, t: nat, p: nat, newName: string, move: nat -> nat)
    requires ColumnChange(db, db', t, p, newName, move)
    requires Resolve(q, db).Some? && FreshHere(db, t, p, newName) && NothingAstray(q, db, t, p, newName)
    requires NoStars(q) || (move == Stay && |db'[t].columns| == |db[t].columns|)
    ensures Eval(sem, RewriteColumn(q, db, t, p, newName), db') == Eval(sem, q, db) <==>
            (NamesRead(q, db, t, p) && NoNamesake(q, db, t, p, newName)) || Fold(db[t].columns[p].name) == Fold(newName)
  {
    CodeAgreesExactly(q, db, t, p);
    ColumnRewriteExactly(sem, q, db, db', t, p, newName, move);
  }

  // ---------------------------------------------------------------------------------
  // Clear aliases

  /** A name qualifies bindings of one table only, and is no other binding's table. */
  ghost predicate AliasesClear(from: seq<Binding>, db: Db)
    requires TablesExist(from, db)
  {
    forall i, j | 0 <= i < |from| && 0 <= j < |from| ::
      Fold(Qualifier(from[i])) == Fold(Qualifier(from[j])) || Fold(Qualifier(from[i])) == Fold(db[TableOf(from, db, j)].name)
      ==> TableOf(from, db, i) == TableOf(from, db, j)
  }

  /** The binding enters the alias dictionary under this name. */
  predicate Answers(from: seq<Binding>, db: Db, k: nat, x: string)
    requires TablesExist(from, db) && k < |from|
  {
    Fold(db[TableOf(from, db, k)].name) == Fold(x) || (from[k].alias.Some? && Fold(from[k].alias.value) == Fold(x))
  }

  lemma QualifierAnswers(from: seq<Binding>, db: Db, k: nat, x: string)
    requires TablesExist(from, db) && k < |from| && Fold(Qualifier(from[k])) == Fold(x)
    ensures Answers(from, db, k, x)
  {
    assert TableNames(db)[TableOf(from, db, k)] == db[TableOf(from, db, k)].name;
  }

  lemma AnswersInPrefix(from: seq<Binding>, db: Db, n: nat, k: nat, x: string)
    requires TablesExist(from, db) && k < n <= |from|
    ensures TablesExist(from[..n], db) && TableOf(from[..n], db, k) == TableOf(from, db, k)
    ensures Answers(from[..n], db, k, x) <==> Answers(from, db, k, x)
  {
    assert forall b | 0 <= b < n :: from[..n][b] == from[b];
  }

  /** Where the alias dictionary leads: to some binding that answers to the name, if there is one. */
  lemma {:induction false} AliasTableFinds(from: seq<Binding>, db: Db, x: string, i: nat) returns (k: nat)
    requires TablesExist(from, db) && i < |from| && Answers(from, db, i, x)
    ensures k < |from| && AliasTable(from, db, x) == Some(TableOf(from, db, k)) && Answers(from, db, k, x)
  {
    k := |from| - 1;
    if !Answers(from, db, k, x) {
      var last := k;
      AnswersInPrefix(from, db, last, i, x);
      k := AliasTableFinds(from[..last], db, x, i);
      AnswersInPrefix(from, db, last, k, x);
    }
  }

  /** Under clear aliases qualified references always read right; only bare ones can go wrong. */
  lemma QualifiedReadsRight(from: seq<Binding>, db: Db, t: nat, p: nat, r: Ref)
    requires ValidDb(db) && TablesExist(from, db) && AliasesClear(from, db) && t < |db| && p < |db[t].columns|
    requires r.qualifier.Some?
    ensures ReadRight(from, db, t, p, r)
  {
    var x := r.qualifier.value;
    forall b | 0 <= b < |from| && Fold(Qualifier(from[b])) == Fold(x)
      ensures AliasTable(from, db, x) == Some(TableOf(from, db, b))
    {
      QualifierAnswers(from, db, b, x);
      var k := AliasTableFinds(from, db, x, b);
      assert Fold(Qualifier(from[b])) == Fold(Qualifier(from[k])) ||
             Fold(Qualifier(from[b])) == Fold(db[TableOf(from, db, k)].name);
    }
  }

  /** With clear aliases no reference is rewritten for a table that it does not mean. */
  lemma ClearNothingAstray(q: Query, db: Db, t: nat, p: nat, newName: string)
    requires ValidDb(db) && Resolve(q, db).Some? && AliasesClear(q.from, db) && t < |db| && p < |db[t].columns|
    ensures NothingAstray(q, db, t, p, newName)
  {
    forall r | r in QueryRefs(q)
      ensures CodeResolve(db, q.from, r) == Some((t, p)) ==>
                Hits(ScopeOf(q.from, db), TablesOf(q.from, db), t, p, r)
    {
      if ResolveRef(ScopeOf(q.from, db), r).None? { QueryNeedsRefs(q, db, r); }
      if r.qualifier.Some? { QualifiedReadsRight(q.from, db, t, p, r); } else { BareMeansItsMatch(q.from, db, r); }
      AgreesExactly(q.from, db, t, p, r);
    }
  }

  /** A bare reference that the rewriter resolves means what the rewriter thinks. */
  lemma BareMeansItsMatch(from: seq<Binding>, db: Db, r: Ref)
    requires TablesExist(from, db) && r.qualifier.None? && ResolveRef(ScopeOf(from, db), r).Some?
    ensures var c := CodeResolve(db, from, r);
            c.Some? ==> Hits(ScopeOf(from, db), TablesOf(from, db), c.value.0, c.value.1, r)
  {
    var s, tables := ScopeOf(from, db), TablesOf(from, db);
    var (b, c) := ResolveRef(s, r).value;
    var matches := SchemaMatches(db, r.name, |db|);
    MatchIsListed(db, r.name, |db|, tables[b]);
    if |matches| == 1 {
      OnlyElement(matches, (tables[b], c), (tables[b], c));
    }
  }

  /** Some bound table other than `t` has a column of this name. */
  predicate OtherHas(from: seq<Binding>, db: Db, t: nat, name: string)
    requires TablesExist(from, db)
  {
    exists b | 0 <= b < |from| :: TableOf(from, db, b) != t && Find(ColumnNames(db[TableOf(from, db, b)]), name).Some?
  }

  lemma BareReaches(from: seq<Binding>, db: Db, t: nat)
    requires TablesExist(from, db)
    ensures Reaches(ScopeOf(from, db), TablesOf(from, db), t, None) <==> t in TablesOf(from, db)
  {
    var s, tables := ScopeOf(from, db), TablesOf(from, db);
    if t in tables {
      var b :| 0 <= b < |tables| && tables[b] == t;
      assert QualifierFits(s, None, b);
    }
  }

  lemma BareHasOther(from: seq<Binding>, db: Db, t: nat, newName: string)
    requires TablesExist(from, db)
    ensures HasOther(ScopeOf(from, db), TablesOf(from, db), t, newName, None) <==> OtherHas(from, db, t, newName)
  {
    var s, tables := ScopeOf(from, db), TablesOf(from, db);
    if OtherHas(from, db, t, newName) {
      var b :| 0 <= b < |from| && TableOf(from, db, b) != t && Find(ColumnNames(db[TableOf(from, db, b)]), newName).Some?;
      assert QualifierFits(s, None, b) && tables[b] != t && Find(s.columns[b], newName).Some?;
    }
  }

  /** With clear aliases a qualifier never fits two tables. */
  lemma QualifiedNeverCollides(from: seq<Binding>, db: Db, t: nat, newName: string, x: string)
    requires TablesExist(from, db) && AliasesClear(from, db)
    ensures !Collides(ScopeOf(from, db), TablesOf(from, db), t, newName, Some(x))
  {
    var s, tables := ScopeOf(from, db), TablesOf(from, db);
    forall b, b' | 0 <= b < |from| && 0 <= b' < |from| && QualifierFits(s, Some(x), b) && QualifierFits(s, Some(x), b')
      ensures tables[b] == tables[b']
    {
      assert Fold(Qualifier(from[b])) == Fold(Qualifier(from[b']));
    }
  }

  /** No qualifier fits all bindings. */
  lemma ClearCollides(from: seq<Binding>, db: Db, t: nat, newName: string, x: Option<string>)
    requires TablesExist(from, db) && AliasesClear(from, db)
    ensures Collides(ScopeOf(from, db), TablesOf(from, db), t, newName, x) <==>
            x.None? && t in TablesOf(from, db) && OtherHas(from, db, t, newName)
  {
    if x.None? {
      BareReaches(from, db, t);
      BareHasOther(from, db, t, newName);
    } else {
      QualifiedNeverCollides(from, db, t, newName, x.value);
    }
  }

  /**
   With clear aliases the whole condition is about bare namesakes: if the query uses the table, then a
   bare reference spelled like the column must have no other match in the whole schema, and while there
   is one, or one spelled like the new name, no other bound table may have a column of that name.
   */
  lemma NamesakesExactly(q: Query, db: Db, t: nat, p: nat, newName: string)
    requires ValidDb(db) && Resolve(q, db).Some? && AliasesClear(q.from, db) && t < |db| && p < |db[t].columns|
    ensures NamesRead(q, db, t, p) && NoNamesake(q, db, t, p, newName) <==>
            (t in TablesOf(q.from, db) ==>
               forall r | r in QueryRefs(q) && r.qualifier.None? ::
                 && (Fold(r.name) == Fold(db[t].columns[p].name) ==>
                       |SchemaMatches(db, r.name, |db|)| == 1 && !OtherHas(q.from, db, t, newName))
                 && (Fold(r.name) == Fold(newName) ==> !OtherHas(q.from, db, t, newName)))
  {
    forall r | r in QueryRefs(q) && r.qualifier.Some?
      ensures ReadRight(q.from, db, t, p, r)
    {
      QualifiedReadsRight(q.from, db, t, p, r);
    }
    forall r | r in QueryRefs(q)
      ensures Collides(ScopeOf(q.from, db), TablesOf(q.from, db), t, newName, r.qualifier) <==>
              r.qualifier.None? && t in TablesOf(q.from, db) && OtherHas(q.from, db, t, newName)
    {
      ClearCollides(q.from, db, t, newName, r.qualifier);
    }
    forall r | r in QueryRefs(q) && r.qualifier.None?
      ensures CodeResolve(db, q.from, r) == Some((t, p)) ==> Fold(r.name) == Fold(db[t].columns[p].name)
      ensures Fold(r.name) == Fold(db[t].columns[p].name) && |SchemaMatches(db, r.name, |db|)| == 1 ==>
                CodeResolve(db, q.from, r) == Some((t, p))
    {
      BareCodeResolves(q.from, db, t, p, r);
    }
  }

  lemma BareCodeResolves(from: seq<Binding>, db: Db, t: nat, p: nat, r: Ref)
    requires ValidDb(db) && r.qualifier.None? && t < |db| && p < |db[t].columns|
    ensures CodeResolve(db, from, r) == Some((t, p)) ==> Fold(r.name) == Fold(db[t].columns[p].name)
    ensures Fold(r.name) == Fold(db[t].columns[p].name) && |SchemaMatches(db, r.name, |db|)| == 1 ==>
              CodeResolve(db, from, r) == Some((t, p))
  {
    CodeResolveFold(db, from, r);
    if Fold(r.name) == Fold(db[t].columns[p].name) && |SchemaMatches(db, r.name, |db|)| == 1 {
      FindAt(ColumnNames(db[t]), r.name, p);
      MatchIsListed(db, r.name, |db|, t);
      OnlyElement(SchemaMatches(db, r.name, |db|), (t, p), (t, p));
    }
  }
}
