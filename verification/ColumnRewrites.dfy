/** Rewriting references to a renamed or replaced column, and when that preserves the query. */
module ColumnRewrites {
  import opened Prelude
  import opened Strings
  import opened Database
  import opened Queries
  import opened Resolution

  // ---------------------------------------------------------------------------------
  // The rewriter's own idea of what a reference means

  /** Qualifier to table, as the alias dictionary built in FROM order ends up: the last entry wins. */
  function AliasTable(from: seq<Binding>, db: Db, qualifier: string): Option<nat> {
    if from == [] then None else
    var k := |from| - 1;
    var t := Find(TableNames(db), from[k].table);
    if t.Some? &&
       (Fold(db[t.value].name) == Fold(qualifier) ||
        (from[k].alias.Some? && Fold(from[k].alias.value) == Fold(qualifier)))
    then t
    else AliasTable(from[..k], db, qualifier)
  }

  /** Every column of the whole schema with this name, mentioned by the query or not. */
  function SchemaMatches(db: Db, name: string, n: nat): seq<(nat, nat)>
    requires n <= |db|
  {
    if n == 0 then [] else
    var c := Find(ColumnNames(db[n - 1]), name);
    SchemaMatches(db, name, n - 1) + if c.Some? then [(n - 1, c.value)] else []
  }

  /** `_resolve_column`: unqualified names must be unique in the whole schema. */
  function CodeResolve(db: Db, from: seq<Binding>, r: Ref): Option<(nat, nat)> {
    if r.qualifier.Some? then
      var t := AliasTable(from, db, r.qualifier.value);
      if t.None? || t.value >= |db| then None else
      var c := Find(ColumnNames(db[t.value]), r.name);
      if c.None? then None else Some((t.value, c.value))
    else
      var matches := SchemaMatches(db, r.name, |db|);
      if |matches| == 1 then Some(matches[0]) else None
  }

  /** `_rewrite_column` on one reference. */
  function RewriteRef(db: Db, from: seq<Binding>, t: nat, p: nat, newName: string, r: Ref): Ref {
    if CodeResolve(db, from, r) == Some((t, p)) then r.(name := newName) else r
  }

  function Keep(q: string): string { q }

  function RewriteColumn(q: Query, db: Db, t: nat, p: nat, newName: string): Query {
    MapQuery(q, r => RewriteRef(db, q.from, t, p, newName, r), Keep, q.from)
  }

  lemma {:induction false} MatchesFold(db: Db, name: string, n: nat)
    requires n <= |db|
    ensures forall m | m in SchemaMatches(db, name, n) ::
      m.0 < |db| && m.1 < |db[m.0].columns| && Fold(db[m.0].columns[m.1].name) == Fold(name)
  {
    if n > 0 { MatchesFold(db, name, n - 1); }
  }

  /** Only references spelled like a column are taken to mean it. */
  lemma CodeResolveFold(db: Db, from: seq<Binding>, r: Ref)
    ensures var c := CodeResolve(db, from, r);
            c.Some? ==> c.value.0 < |db| && c.value.1 < |db[c.value.0].columns| &&
                        Fold(db[c.value.0].columns[c.value.1].name) == Fold(r.name)
  {
    MatchesFold(db, r.name, |db|);
    if r.qualifier.None? && |SchemaMatches(db, r.name, |db|)| == 1 {
      assert SchemaMatches(db, r.name, |db|)[0] in SchemaMatches(db, r.name, |db|);
    }
  }

  // ---------------------------------------------------------------------------------
  // One table's columns before and after

  /** Column `p` is now called `newName`; all others keep their names; `move` says where they are. */
  ghost predicate Renames(names: seq<string>, names': seq<string>, p: nat, newName: string, move: nat -> nat) {
    && p < |names|
    && Find(names', newName) == Some(move(p))
    && (Fold(names[p]) != Fold(newName) ==> Find(names', names[p]) == None)
    && forall x | Fold(x) != Fold(names[p]) && Fold(x) != Fold(newName) ::
         Find(names', x) == match Find(names, x) case None => None case Some(c) => Some(move(c))
  }

  lemma {:induction false} FindSameFold(names: seq<string>, x: string, y: string)
    requires Fold(x) == Fold(y)
    ensures Find(names, x) == Find(names, y)
  {
  }

  function Stay(c: nat): nat { c }

  /** Where a column goes when column `p` of `n` is re-added at the end. */
  function ToEnd(p: nat, n: nat): nat -> nat {
    (c: nat) => if c == p && n > 0 then n - 1 else if c > p then c - 1 else c
  }

  lemma RenameInPlace(names: seq<string>, p: nat, newName: string)
    requires Unique(names) && p < |names| && FreshIn(names, newName, p)
    ensures Renames(names, names[p := newName], p, newName, Stay)
  {
    var names' := names[p := newName];
    assert Unique(names');
    FindAt(names', newName, p);
    forall x | Fold(x) != Fold(names[p]) && Fold(x) != Fold(newName)
      ensures Find(names', x) == Find(names, x)
    {
      if Find(names, x).Some? { FindAt(names', x, Find(names, x).value); }
    }
  }

  lemma RenameAtEnd(names: seq<string>, p: nat, newName: string)
    requires Unique(names) && p < |names| && FreshIn(names, newName, -1)
    ensures Renames(names, names[..p] + names[p + 1..] + [newName], p, newName, ToEnd(p, |names|))
  {
    var names' := names[..p] + names[p + 1..] + [newName];
    MovedUnique(names, names', p, newName);
    FindAt(names', newName, |names| - 1);
    forall x | Fold(x) != Fold(names[p]) && Fold(x) != Fold(newName)
      ensures Find(names', x) ==
              match Find(names, x) case None => None case Some(c) => Some(ToEnd(p, |names|)(c))
    {
      MovedFind(names, names', p, newName, x);
    }
  }

  ghost predicate IsMoved(names: seq<string>, names': seq<string>, p: nat, newName: string)
    requires p < |names|
  {
    && |names'| == |names|
    && (forall i | 0 <= i < |names| - 1 :: names'[i] == names[if i < p then i else i + 1])
    && names'[|names| - 1] == newName
  }

  lemma MovedUnique(names: seq<string>, names': seq<string>, p: nat, newName: string)
    requires Unique(names) && p < |names| && FreshIn(names, newName, -1)
    requires names' == names[..p] + names[p + 1..] + [newName]
    ensures IsMoved(names, names', p, newName) && Unique(names')
  {
  }

  lemma MovedFind(names: seq<string>, names': seq<string>, p: nat, newName: string, x: string)
    requires p < |names| && Unique(names') && IsMoved(names, names', p, newName)
    requires Fold(x) != Fold(names[p]) && Fold(x) != Fold(newName)
    ensures Find(names', x) == match Find(names, x) case None => None case Some(c) => Some(ToEnd(p, |names|)(c))
  {
    var n := |names|;
    if Find(names, x).Some? {
      var c := Find(names, x).value;
      var i := if c > p then c - 1 else c;
      assert c != p && names'[i] == names[c];
      FindAt(names', x, i);
    } else {
      forall i | 0 <= i < n
        ensures Fold(names'[i]) != Fold(x)
      {
        if i < n - 1 { assert names'[i] == names[if i < p then i else i + 1]; }
      }
    }
  }

  // ---------------------------------------------------------------------------------
  // One reference

  /** The scopes before and after, for bindings `tables` of a database whose table `t` changed. */
  ghost predicate Changed(s: Scope, s': Scope, tables: seq<nat>, t: nat, p: nat, newName: string, move: nat -> nat) {
    && ScopeOk(s) && ScopeOk(s') && |tables| == |s.columns| == |s'.columns|
    && (forall b | 0 <= b < |tables| && tables[b] != t :: s'.columns[b] == s.columns[b])
    && (forall b | 0 <= b < |tables| && tables[b] == t ::
          && Renames(s.columns[b], s'.columns[b], p, newName, move)
          && (Find(s.columns[b], newName) == None || Find(s.columns[b], newName) == Some(p))
          && Find(s.columns[b], s.columns[b][p]) == Some(p))
  }

  function Moved(tables: seq<nat>, t: nat, move: nat -> nat): Moves {
    (b: nat, c: nat) => if b < |tables| && tables[b] == t then move(c) else c
  }

  ghost predicate Hits(s: Scope, tables: seq<nat>, t: nat, p: nat, r: Ref)
    requires ScopeOk(s)
  {
    var q := ResolveRef(s, r);
    q.Some? && q.value.0 < |tables| && tables[q.value.0] == t && q.value.1 == p
  }

  /** The qualifier fits a binding of another table, and that table already has a column of the new name. */
  ghost predicate HasOther(s: Scope, tables: seq<nat>, t: nat, newName: string, x: Option<string>)
    requires ScopeOk(s) && |tables| == |s.columns|
  {
    exists b: nat :: b < |tables| && QualifierFits(s, x, b) && tables[b] != t && Find(s.columns[b], newName).Some?
  }

  /** The qualifier fits a binding of the changed table. */
  ghost predicate Reaches(s: Scope, tables: seq<nat>, t: nat, x: Option<string>)
    requires ScopeOk(s) && |tables| == |s.columns|
  {
    exists b: nat :: b < |tables| && QualifierFits(s, x, b) && tables[b] == t
  }

  /** After the change the new name would be offered twice. */
  ghost predicate Collides(s: Scope, tables: seq<nat>, t: nat, newName: string, x: Option<string>)
    requires ScopeOk(s) && |tables| == |s.columns|
  {
    HasOther(s, tables, t, newName, x) && Reaches(s, tables, t, x)
  }

  /** Qualifiers may be spelled differently after the change, as long as they fit the same bindings. */
  ghost predicate FitsAlike(s: Scope, s': Scope, r: Ref, r': Ref)
    requires ScopeOk(s) && ScopeOk(s')
  {
    forall b: nat :: QualifierFits(s', r'.qualifier, b) == QualifierFits(s, r.qualifier, b)
  }

  /** Reference `r` and what becomes of it: the name is the new one if it was rewritten. */
  ghost predicate Rewritten(s: Scope, s': Scope, r: Ref, r': Ref, oldName: string, newName: string, rewritten: bool)
    requires ScopeOk(s) && ScopeOk(s')
  {
    && FitsAlike(s, s', r, r') && r'.name == (if rewritten then newName else r.name)
    && (rewritten ==> Fold(r.name) == Fold(oldName))
  }

  /** In a binding of another table the new name is found if it was there, any other as before. */
  lemma OtherTableFinds(s: Scope, s': Scope, tables: seq<nat>, t: nat, p: nat, newName: string, move: nat -> nat,
                        b: nat, x: string)
    requires Changed(s, s', tables, t, p, newName, move) && b < |tables| && tables[b] != t
    ensures Find(s'.columns[b], x) == Find(s.columns[b], x)
    ensures Fold(x) == Fold(newName) ==> Find(s'.columns[b], x) == Find(s.columns[b], newName)
  {
    if Fold(x) == Fold(newName) { FindSameFold(s.columns[b], x, newName); }
  }

  /** In a binding of the changed table the old name is gone, and the new one stands for the column. */
  lemma ChangedTableFinds(s: Scope, s': Scope, tables: seq<nat>, t: nat, p: nat, newName: string, move: nat -> nat,
                          oldName: string, b: nat, x: string)
    requires Changed(s, s', tables, t, p, newName, move) && b < |tables| && tables[b] == t
    requires Fold(s.columns[b][p]) == Fold(oldName) != Fold(newName)
    ensures Find(s.columns[b], oldName) == Some(p) && Find(s.columns[b], newName) == None
    ensures Fold(x) == Fold(newName) ==> Find(s'.columns[b], x) == Some(move(p))
    ensures Fold(x) == Fold(oldName) ==> Find(s'.columns[b], x) == None
    ensures Fold(x) != Fold(oldName) && Fold(x) != Fold(newName) ==>
              Find(s'.columns[b], x) == match Find(s.columns[b], x) case None => None case Some(c) => Some(move(c))
  {
    var names, names' := s.columns[b], s'.columns[b];
    FindSameFold(names, oldName, names[p]);
    if Fold(x) == Fold(newName) { FindSameFold(names', x, newName); }
    if Fold(x) == Fold(oldName) { FindSameFold(names', x, names[p]); }
  }

  /** What every binding of the changed table calls the column. */
  ghost predicate CalledOld(s: Scope, tables: seq<nat>, t: nat, p: nat, oldName: string)
    requires |tables| == |s.columns|
  {
    forall b | 0 <= b < |tables| && tables[b] == t :: p < |s.columns[b]| && Fold(s.columns[b][p]) == Fold(oldName)
  }

  /** Whether a reference still means its column: it is renamed when it should be, and meets no namesake. */
  ghost predicate Follows(s: Scope, tables: seq<nat>, t: nat, p: nat, oldName: string, newName: string, r: Ref, rewritten: bool)
    requires ScopeOk(s) && |tables| == |s.columns|
  {
    && (Fold(r.name) == Fold(oldName) ==> (rewritten <==> Hits(s, tables, t, p, r)))
    && (rewritten || Fold(r.name) == Fold(newName) ==> !Collides(s, tables, t, newName, r.qualifier))
  }

  /** A reference taken for the column, though it means another table's, finds the new name there. */
  ghost predicate GoesAstray(s: Scope, tables: seq<nat>, t: nat, p: nat, newName: string, r: Ref, rewritten: bool)
    requires ScopeOk(s) && |tables| == |s.columns|
  {
    rewritten && !Hits(s, tables, t, p, r) && HasOther(s, tables, t, newName, r.qualifier)
  }

  /** The binding that supplied the reference, and what it supplied. */
  lemma OldSupplier(s: Scope, tables: seq<nat>, t: nat, p: nat, oldName: string, r: Ref)
    requires ScopeOk(s) && |tables| == |s.columns| && CalledOld(s, tables, t, p, oldName) && ResolveRef(s, r).Some?
    requires forall b | 0 <= b < |tables| && tables[b] == t :: Find(s.columns[b], s.columns[b][p]) == Some(p)
    requires Fold(r.name) == Fold(oldName)
    ensures Hits(s, tables, t, p, r) <==> tables[ResolveRef(s, r).value.0] == t
    ensures Hits(s, tables, t, p, r) <==> Reaches(s, tables, t, r.qualifier)
  {
    var (b0, c0) := ResolveRef(s, r).value;
    if tables[b0] == t { FindSameFold(s.columns[b0], r.name, s.columns[b0][p]); }
    if b: nat :| b < |tables| && QualifierFits(s, r.qualifier, b) && tables[b] == t {
      FindSameFold(s.columns[b], r.name, s.columns[b][p]);
      assert Offers(s, r, b);
    }
  }

  /** In a binding that the qualifier fits: what the reference finds after the change. */
  lemma FoundAfter(s: Scope, s': Scope, tables: seq<nat>, t: nat, p: nat, newName: string, move: nat -> nat,
                   oldName: string, r: Ref, name': string, b: nat)
    requires Changed(s, s', tables, t, p, newName, move) && CalledOld(s, tables, t, p, oldName)
    requires Fold(oldName) != Fold(newName) && b < |tables|
    ensures Find(s'.columns[b], name') ==
            if Fold(name') == Fold(newName) then
              (if tables[b] == t then Some(move(p)) else Find(s.columns[b], newName))
            else if tables[b] == t then
              (if Fold(name') == Fold(oldName) then None
               else match Find(s.columns[b], name') case None => None case Some(c) => Some(move(c)))
            else Find(s.columns[b], name')
  {
    if tables[b] == t {
      ChangedTableFinds(s, s', tables, t, p, newName, move, oldName, b, name');
    } else {
      OtherTableFinds(s, s', tables, t, p, newName, move, b, name');
    }
  }

  /** A reference that is renamed, or spelled like the new name, and meets no namesake. */
  lemma NewNameFollows(s: Scope, s': Scope, tables: seq<nat>, t: nat, p: nat, newName: string, move: nat -> nat,
                       oldName: string, r: Ref, r': Ref, rewritten: bool)
    requires Changed(s, s', tables, t, p, newName, move) && CalledOld(s, tables, t, p, oldName)
    requires Fold(oldName) != Fold(newName) && Rewritten(s, s', r, r', oldName, newName, rewritten)
    requires ResolveRef(s, r).Some? && Fold(r'.name) == Fold(newName)
    requires Follows(s, tables, t, p, oldName, newName, r, rewritten)
    ensures var (b0, c0) := ResolveRef(s, r).value;
            ResolveRef(s', r') == Some((b0, Moved(tables, t, move)(b0, c0)))
  {
    var (b0, c0) := ResolveRef(s, r).value;
    if rewritten { OldSupplier(s, tables, t, p, oldName, r); }
    if tables[b0] == t { ChangedTableFinds(s, s', tables, t, p, newName, move, oldName, b0, newName); }
    if !rewritten { FindSameFold(s.columns[b0], r.name, newName); }
    forall b: nat
      ensures Offers(s', r', b) <==> b == b0
    {
      if b < |tables| && QualifierFits(s, r.qualifier, b) {
        FoundAfter(s, s', tables, t, p, newName, move, oldName, r, r'.name, b);
        if rewritten && tables[b] == t {
          ChangedTableFinds(s, s', tables, t, p, newName, move, oldName, b, newName);
          FindSameFold(s.columns[b], r.name, oldName);
          assert Offers(s, r, b);
        } else if !rewritten && tables[b] != t {
          FindSameFold(s.columns[b], r.name, newName);
          assert Find(s.columns[b], newName).Some? ==> Offers(s, r, b);
        }
      }
    }
    FoundAfter(s, s', tables, t, p, newName, move, oldName, r, r'.name, b0);
    assert Supplies(s', r', b0);
    assert ResolveRef(s', r').Some?;
  }

  /** A reference that is left alone, and is not spelled like the new name. */
  lemma OldNameFollows(s: Scope, s': Scope, tables: seq<nat>, t: nat, p: nat, newName: string, move: nat -> nat,
                       oldName: string, r: Ref, r': Ref)
    requires Changed(s, s', tables, t, p, newName, move) && CalledOld(s, tables, t, p, oldName)
    requires Fold(oldName) != Fold(newName) && Rewritten(s, s', r, r', oldName, newName, false)
    requires ResolveRef(s, r).Some? && Fold(r.name) != Fold(newName)
    requires Follows(s, tables, t, p, oldName, newName, r, false)
    ensures var (b0, c0) := ResolveRef(s, r).value;
            ResolveRef(s', r') == Some((b0, Moved(tables, t, move)(b0, c0)))
  {
    var (b0, c0) := ResolveRef(s, r).value;
    if Fold(r.name) == Fold(oldName) { OldSupplier(s, tables, t, p, oldName, r); }
    forall b: nat
      ensures Offers(s', r', b) <==> Offers(s, r, b)
    {
      if b < |tables| && QualifierFits(s, r.qualifier, b) {
        FoundAfter(s, s', tables, t, p, newName, move, oldName, r, r'.name, b);
        if Fold(r.name) == Fold(oldName) { assert tables[b] != t; }
      }
    }
    FoundAfter(s, s', tables, t, p, newName, move, oldName, r, r'.name, b0);
    assert Supplies(s', r', b0);
    assert ResolveRef(s', r').Some?;
  }

  /** Rewritten exactly when it means the column, and met by no namesake: the reference follows. */
  lemma RefFollows(s: Scope, s': Scope, tables: seq<nat>, t: nat, p: nat, newName: string, move: nat -> nat,
                   oldName: string, r: Ref, r': Ref, rewritten: bool)
    requires Changed(s, s', tables, t, p, newName, move) && CalledOld(s, tables, t, p, oldName)
    requires Fold(oldName) != Fold(newName) && Rewritten(s, s', r, r', oldName, newName, rewritten)
    requires Follows(s, tables, t, p, oldName, newName, r, rewritten)
    ensures Tracks(s, s', r, r', Moved(tables, t, move))
  {
    if ResolveRef(s, r).Some? {
      if Fold(r'.name) == Fold(newName) {
        NewNameFollows(s, s', tables, t, p, newName, move, oldName, r, r', rewritten);
      } else {
        OldNameFollows(s, s', tables, t, p, newName, move, oldName, r, r');
      }
    }
  }

  /** A change of letter case only: every reference follows, rewritten or not. */
  lemma CaseFollows(s: Scope, s': Scope, tables: seq<nat>, t: nat, p: nat, newName: string, move: nat -> nat,
                    oldName: string, r: Ref, r': Ref, rewritten: bool)
    requires Changed(s, s', tables, t, p, newName, move) && CalledOld(s, tables, t, p, oldName)
    requires Fold(oldName) == Fold(newName) && Rewritten(s, s', r, r', oldName, newName, rewritten)
    ensures Tracks(s, s', r, r', Moved(tables, t, move))
  {
    if ResolveRef(s, r).Some? {
      var (b0, c0) := ResolveRef(s, r).value;
      forall b: nat | b < |tables|
        ensures Find(s'.columns[b], r'.name) ==
                match Find(s.columns[b], r.name) case None => None case Some(c) => Some(Moved(tables, t, move)(b, c))
      {
        CaseFound(s, s', tables, t, p, newName, move, oldName, b, r.name, r'.name);
      }
      assert forall b: nat :: Offers(s', r', b) <==> Offers(s, r, b);
      assert Supplies(s', r', b0);
      assert ResolveRef(s', r').Some?;
    }
  }

  lemma CaseFound(s: Scope, s': Scope, tables: seq<nat>, t: nat, p: nat, newName: string, move: nat -> nat,
                  oldName: string, b: nat, x: string, x': string)
    requires Changed(s, s', tables, t, p, newName, move) && CalledOld(s, tables, t, p, oldName)
    requires Fold(oldName) == Fold(newName) && Fold(x') == Fold(x) && b < |tables|
    ensures Find(s'.columns[b], x') ==
            match Find(s.columns[b], x) case None => None case Some(c) => Some(Moved(tables, t, move)(b, c))
  {
    FindSameFold(s.columns[b], x, x');
    FindSameFold(s'.columns[b], x, x');
    if tables[b] == t && Fold(x) == Fold(oldName) {
      FindSameFold(s.columns[b], x, s.columns[b][p]);
      FindSameFold(s'.columns[b], x, newName);
    }
  }

  /** A reference that does not follow, and does not go astray, no longer resolves. */
  lemma RefLost(s: Scope, s': Scope, tables: seq<nat>, t: nat, p: nat, newName: string, move: nat -> nat,
                oldName: string, r: Ref, r': Ref, rewritten: bool)
    requires Changed(s, s', tables, t, p, newName, move) && CalledOld(s, tables, t, p, oldName)
    requires Fold(oldName) != Fold(newName) && Rewritten(s, s', r, r', oldName, newName, rewritten)
    requires ResolveRef(s, r).Some? && !Follows(s, tables, t, p, oldName, newName, r, rewritten)
    requires !GoesAstray(s, tables, t, p, newName, r, rewritten)
    ensures ResolveRef(s', r').None?
  {
    if (rewritten || Fold(r.name) == Fold(newName)) && Collides(s, tables, t, newName, r.qualifier) {
      TwoOffer(s, s', tables, t, p, newName, move, oldName, r, r');
    } else {
      OldSupplier(s, tables, t, p, oldName, r);
      forall b: nat
        ensures !Offers(s', r', b)
      {
        if b < |tables| && QualifierFits(s, r.qualifier, b) {
          FoundAfter(s, s', tables, t, p, newName, move, oldName, r, r'.name, b);
          FindSameFold(s.columns[b], r.name, oldName);
          assert Find(s.columns[b], r.name).Some? ==> Offers(s, r, b);
        }
      }
    }
  }

  /** The new name is offered by the changed table and by another one. */
  lemma TwoOffer(s: Scope, s': Scope, tables: seq<nat>, t: nat, p: nat, newName: string, move: nat -> nat,
                 oldName: string, r: Ref, r': Ref)
    requires Changed(s, s', tables, t, p, newName, move) && CalledOld(s, tables, t, p, oldName)
    requires Fold(oldName) != Fold(newName) && FitsAlike(s, s', r, r') && Fold(r'.name) == Fold(newName)
    requires Collides(s, tables, t, newName, r.qualifier)
    ensures ResolveRef(s', r').None?
  {
    var b: nat :| b < |tables| && QualifierFits(s, r.qualifier, b) && tables[b] != t && Find(s.columns[b], newName).Some?;
    var b': nat :| b' < |tables| && QualifierFits(s, r.qualifier, b') && tables[b'] == t;
    FoundAfter(s, s', tables, t, p, newName, move, oldName, r, r'.name, b);
    FoundAfter(s, s', tables, t, p, newName, move, oldName, r, r'.name, b');
    assert Offers(s', r', b) && Offers(s', r', b') && b != b';
  }

  // ---------------------------------------------------------------------------------
  // Whole queries

  /** The rewriter and the database agree on which references mean column `p` of table `t`. */
  ghost predicate CodeAgrees(q: Query, db: Db, t: nat, p: nat)
    requires TablesExist(q.from, db)
  {
    forall r | r in QueryRefs(q) ::
      CodeResolve(db, q.from, r) == Some((t, p)) <==>
      Hits(ScopeOf(q.from, db), TablesOf(q.from, db), t, p, r)
  }

  /** The new name is not a column of the table yet, except where it will stand. */
  ghost predicate FreshHere(db: Db, t: nat, p: nat, newName: string)
    requires t < |db|
  {
    FreshIn(ColumnNames(db[t]), newName, p)
  }

  /** No reference that is spelled like the new name once rewritten meets another table with such a column. */
  ghost predicate NoNamesake(q: Query, db: Db, t: nat, p: nat, newName: string)
    requires TablesExist(q.from, db)
  {
    forall r | r in QueryRefs(q) && (CodeResolve(db, q.from, r) == Some((t, p)) || Fold(r.name) == Fold(newName)) ::
      !Collides(ScopeOf(q.from, db), TablesOf(q.from, db), t, newName, r.qualifier)
  }

  /** No reference is rewritten for a table that it does not mean while the table it means has the new name. */
  ghost predicate NothingAstray(q: Query, db: Db, t: nat, p: nat, newName: string)
    requires TablesExist(q.from, db)
  {
    forall r | r in QueryRefs(q) ::
      !GoesAstray(ScopeOf(q.from, db), TablesOf(q.from, db), t, p, newName, r, CodeResolve(db, q.from, r) == Some((t, p)))
  }

  ghost predicate NoStars(q: Query) {
    forall i | 0 <= i < |q.items| :: q.items[i].Output?
  }

  /** Database `db'` is `db` with one column of table `t` renamed and moved. */
  ghost predicate ColumnChange(db: Db, db': Db, t: nat, p: nat, newName: string, move: nat -> nat) {
    && ValidDb(db) && |db'| == |db| && t < |db| && TableNames(db') == TableNames(db)
    && (forall u | 0 <= u < |db| && u != t :: db'[u] == db[u])
    && p < |db[t].columns|
    && Renames(ColumnNames(db[t]), ColumnNames(db'[t]), p, newName, move)
    && |db'[t].rows| == |db[t].rows|
    && forall row: nat, c | 0 <= c < |db[t].columns| :: Cell(db', t, row, move(c)) == Cell(db, t, row, c)
  }

  lemma ChangeIsScopeChange(q: Query, db: Db, db': Db, t: nat, p: nat, newName: string, move: nat -> nat)
    requires ColumnChange(db, db', t, p, newName, move)
    requires TablesExist(q.from, db) && FreshHere(db, t, p, newName)
    ensures TablesExist(q.from, db') && TablesOf(q.from, db') == TablesOf(q.from, db)
    ensures Changed(ScopeOf(q.from, db), ScopeOf(q.from, db'), TablesOf(q.from, db), t, p, newName, move)
    ensures CalledOld(ScopeOf(q.from, db), TablesOf(q.from, db), t, p, db[t].columns[p].name)
    ensures ScopeOf(q.from, db').qualifiers == ScopeOf(q.from, db).qualifiers
  {
    forall b | 0 <= b < |q.from|
      ensures Find(TableNames(db'), q.from[b].table) == Some(TableOf(q.from, db, b))
    {
    }
    var s, s', tables := ScopeOf(q.from, db), ScopeOf(q.from, db'), TablesOf(q.from, db);
    forall b | 0 <= b < |tables| && tables[b] == t
      ensures Find(s.columns[b], newName) == None || Find(s.columns[b], newName) == Some(p)
      ensures Find(s.columns[b], s.columns[b][p]) == Some(p)
    {
      FindAt(s.columns[b], s.columns[b][p], p);
    }
    assert s'.qualifiers == s.qualifiers;
  }

  lemma ChangeSimulates(tables: seq<nat>, db: Db, db': Db, t: nat, p: nat, newName: string, move: nat -> nat)
    requires ColumnChange(db, db', t, p, newName, move)
    ensures Simulates(tables, db, db', Moved(tables, t, move))
  {
  }

  /** What `_rewrite_column` makes of one reference. */
  lemma ScopedRewrite(q: Query, db: Db, db': Db, t: nat, p: nat, newName: string, move: nat -> nat, r: Ref)
    requires ColumnChange(db, db', t, p, newName, move) && TablesExist(q.from, db) && FreshHere(db, t, p, newName)
    ensures TablesExist(q.from, db')
    ensures Rewritten(ScopeOf(q.from, db), ScopeOf(q.from, db'), r, RewriteRef(db, q.from, t, p, newName, r),
                      db[t].columns[p].name, newName, CodeResolve(db, q.from, r) == Some((t, p)))
  {
    ChangeIsScopeChange(q, db, db', t, p, newName, move);
    CodeResolveFold(db, q.from, r);
  }

  /** Every reference of the query follows the change. */
  lemma AgreeingRefsTrack(q: Query, db: Db, db': Db, t: nat, p: nat, newName: string, move: nat -> nat, r: Ref)
    requires ColumnChange(db, db', t, p, newName, move) && Resolve(q, db).Some? && FreshHere(db, t, p, newName)
    requires (CodeAgrees(q, db, t, p) && NoNamesake(q, db, t, p, newName)) || Fold(db[t].columns[p].name) == Fold(newName)
    requires r in QueryRefs(q) && TablesExist(q.from, db')
    ensures Tracks(ScopeOf(q.from, db), ScopeOf(q.from, db'), r, RewriteRef(db, q.from, t, p, newName, r),
                   Moved(TablesOf(q.from, db), t, move))
  {
    var s, s', tables, oldName := ScopeOf(q.from, db), ScopeOf(q.from, db'), TablesOf(q.from, db), db[t].columns[p].name;
    var r', rewritten := RewriteRef(db, q.from, t, p, newName, r), CodeResolve(db, q.from, r) == Some((t, p));
    ChangeIsScopeChange(q, db, db', t, p, newName, move);
    ScopedRewrite(q, db, db', t, p, newName, move, r);
    if Fold(oldName) == Fold(newName) {
      CaseFollows(s, s', tables, t, p, newName, move, oldName, r, r', rewritten);
    } else {
      RefFollows(s, s', tables, t, p, newName, move, oldName, r, r', rewritten);
    }
  }

  /** When the rewriter reads the references right and no namesake is met, the rewritten query returns the same rows. */
  lemma AgreeingRewritePreserves(sem: Semantics, q: Query, db: Db, db': Db, t: nat, p: nat, newName: string, move: nat -> nat)
    requires ColumnChange(db, db', t, p, newName, move)
    requires Resolve(q, db).Some? && FreshHere(db, t, p, newName)
    requires NoStars(q) || (move == Stay && |db'[t].columns| == |db[t].columns|)
    requires (CodeAgrees(q, db, t, p) && NoNamesake(q, db, t, p, newName)) || Fold(db[t].columns[p].name) == Fold(newName)
    ensures Eval(sem, RewriteColumn(q, db, t, p, newName), db') == Eval(sem, q, db)
  {
    var s, s', tables := ScopeOf(q.from, db), ScopeOf(q.from, db'), TablesOf(q.from, db);
    ChangeIsScopeChange(q, db, db', t, p, newName, move);
    ChangeSimulates(tables, db, db', t, p, newName, move);
    var g := r => RewriteRef(db, q.from, t, p, newName, r);
    var f := Moved(tables, t, move);
    forall r | r in QueryRefs(q)
      ensures Tracks(s, s', r, g(r), f)
    {
      AgreeingRefsTrack(q, db, db', t, p, newName, move, r);
    }
    forall i | 0 <= i < |q.items|
      ensures ItemTracks(s, s', q.items[i], g, Keep, f)
    {
      if q.items[i].Output? {
        assert forall r | r in Refs(q.items[i].e) :: r in ItemRefs(q.items[i]);
      } else {
        assert StarsStay(s, s', f);
      }
    }
    TrackedRewritePreserves(sem, q, db, db', q.from, g, Keep, f);
  }

  /** A reference that does not follow breaks the rewritten query. */
  lemma LostRefBreaks(q: Query, db: Db, db': Db, t: nat, p: nat, newName: string, move: nat -> nat, r: Ref)
    requires ColumnChange(db, db', t, p, newName, move) && Resolve(q, db).Some? && FreshHere(db, t, p, newName)
    requires NothingAstray(q, db, t, p, newName) && Fold(db[t].columns[p].name) != Fold(newName) && r in QueryRefs(q)
    requires !Follows(ScopeOf(q.from, db), TablesOf(q.from, db), t, p, db[t].columns[p].name, newName, r,
                      CodeResolve(db, q.from, r) == Some((t, p)))
    ensures Resolve(RewriteColumn(q, db, t, p, newName), db').None?
  {
    var s, s', tables, oldName := ScopeOf(q.from, db), ScopeOf(q.from, db'), TablesOf(q.from, db), db[t].columns[p].name;
    var g := r => RewriteRef(db, q.from, t, p, newName, r);
    ChangeIsScopeChange(q, db, db', t, p, newName, move);
    ScopedRewrite(q, db, db', t, p, newName, move, r);
    if ResolveRef(s, r).None? { QueryNeedsRefs(q, db, r); }
    RefLost(s, s', tables, t, p, newName, move, oldName, r, g(r), CodeResolve(db, q.from, r) == Some((t, p)));
    QueryRefMapped(q, g, Keep, q.from, r);
    QueryNeedsRefs(RewriteColumn(q, db, t, p, newName), db', g(r));
  }

  /** The rewriter agrees on references that it takes for the column or that are spelled like it; on others trivially. */
  lemma AgreementFollows(q: Query, db: Db, t: nat, p: nat, newName: string)
    requires ValidDb(db) && TablesExist(q.from, db) && t < |db| && p < |db[t].columns|
    ensures (CodeAgrees(q, db, t, p) && NoNamesake(q, db, t, p, newName)) <==>
            forall r | r in QueryRefs(q) ::
              Follows(ScopeOf(q.from, db), TablesOf(q.from, db), t, p, db[t].columns[p].name, newName, r,
                      CodeResolve(db, q.from, r) == Some((t, p)))
  {
    var s, tables := ScopeOf(q.from, db), TablesOf(q.from, db);
    forall r | r in QueryRefs(q) && Fold(r.name) != Fold(db[t].columns[p].name)
      ensures CodeResolve(db, q.from, r) != Some((t, p)) && !Hits(s, tables, t, p, r)
    {
      CodeResolveFold(db, q.from, r);
    }
  }

  /**
   Rewriting a column together with its rename or type-changing replacement preserves the query's rows,
   order and arity exactly when the rewriter reads every reference as the database does and no reference
   of the new name meets a namesake in another table (or only the letter case of the name changes).
   */
  lemma ColumnRewriteExactly(sem: Semantics, q: Query, db: Db, db': Db, t: nat, p: nat, newName: string, move: nat -> nat)
    requires ColumnChange(db, db', t, p, newName, move)
    requires Resolve(q, db).Some? && FreshHere(db, t, p, newName) && NothingAstray(q, db, t, p, newName)
    requires NoStars(q) || (move == Stay && |db'[t].columns| == |db[t].columns|)
    ensures Eval(sem, RewriteColumn(q, db, t, p, newName), db') == Eval(sem, q, db) <==>
            (CodeAgrees(q, db, t, p) && NoNamesake(q, db, t, p, newName)) || Fold(db[t].columns[p].name) == Fold(newName)
  {
    var oldName := db[t].columns[p].name;
    if (CodeAgrees(q, db, t, p) && NoNamesake(q, db, t, p, newName)) || Fold(oldName) == Fold(newName) {
      AgreeingRewritePreserves(sem, q, db, db', t, p, newName, move);
    } else {
      AgreementFollows(q, db, t, p, newName);
      var r :| r in QueryRefs(q) && !Follows(ScopeOf(q.from, db), TablesOf(q.from, db), t, p, oldName, newName, r,
                                             CodeResolve(db, q.from, r) == Some((t, p)));
      LostRefBreaks(q, db, db', t, p, newName, move, r);
    }
  }
}
