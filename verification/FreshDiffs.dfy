/**
 Diffs whose new names are new: then no name is found in a wrong place, and the exact condition for the
 audited repair holds with no further hypothesis about names.
 */
module FreshDiffs {
  import opened Prelude
  import opened Strings
  import opened SchemaDiffs
  import opened RewriterAlgebra
  import opened SchemaRepair
  import opened Database
  import opened Queries
  import opened Resolution
  import opened ColumnRewrites
  import opened ProjectionContract
  import opened ProjectionMeaning
  import opened Migrations
  import opened QueryNames
  import opened QueryText
  import opened NameFollowing
  import opened TextRenames
  import opened MixedRepair

  // ---------------------------------------------------------------------------------
  // New names

  /** The operation introduces a name. */
  predicate Names(op: Operation) {
    IsMapping(op) || op.AddColumn?
  }

  /** No table and no column of the source has the name. */
  predicate NotInSource(db: Db, name: string) {
    Find(TableNames(db), name).None? && forall t | 0 <= t < |db| :: Find(ColumnNames(db[t]), name).None?
  }

  /** Names carry no spaces around them, and no mapping renames a name that the diff introduces. */
  predicate Unchained(ops: seq<Operation>) {
    && (forall i | 0 <= i < |ops| && Names(ops[i]) :: Strip(ops[i].newName) == ops[i].newName)
    && (forall j | 0 <= j < |ops| && IsMapping(ops[j]) :: Strip(ops[j].oldName) == ops[j].oldName)
    && forall i, j | 0 <= i < |ops| && 0 <= j < |ops| && Names(ops[i]) && IsMapping(ops[j]) ::
         Fold(ops[i].newName) != Fold(ops[j].oldName)
  }

  /** Moreover every new name is introduced once, and is neither in the source nor a qualifier of the query. */
  predicate FreshDiff(ops: seq<Operation>, q: Query, db: Db) {
    && Unchained(ops)
    && (forall i, j | 0 <= i < j < |ops| && Names(ops[i]) && Names(ops[j]) :: Fold(ops[i].newName) != Fold(ops[j].newName))
    && (forall i | 0 <= i < |ops| && Names(ops[i]) :: NotInSource(db, ops[i].newName))
    && forall i, b | 0 <= i < |ops| && Names(ops[i]) && 0 <= b < |q.from| :: Fold(Qualifier(q.from[b])) != Fold(ops[i].newName)
  }

  /** What the mappings make of a name: the new name of one mapping of it, or the name itself. */
  lemma {:induction false} RenamingOrigin(ops: seq<Operation>, x: string) returns (i: nat)
    requires Unchained(ops)
    ensures i < |ops| ==> IsMapping(ops[i]) && Fold(x) == Fold(ops[i].oldName) && Renaming(Mappings(ops), x) == ops[i].newName
    ensures i >= |ops| ==> Renaming(Mappings(ops), x) == x
  {
    i := 0;
    if ops != [] {
      var k := |ops| - 1;
      UnchainedInit(ops);
      i := RenamingOrigin(ops[..k], x);
      assert i < k ==> ops[..k][i] == ops[i];
      RenamingNext(ops, x);
      if i >= k { i := if IsMapping(ops[k]) && Fold(x) == Fold(ops[k].oldName) then k else |ops|; }
    }
  }

  lemma UnchainedInit(ops: seq<Operation>)
    requires Unchained(ops) && ops != []
    ensures Unchained(ops[..|ops| - 1])
  {
    var init := ops[..|ops| - 1];
    assert forall i | 0 <= i < |init| :: init[i] == ops[i];
  }

  lemma RenamingNext(ops: seq<Operation>, x: string)
    requires ops != []
    ensures var k := |ops| - 1;
            var before := Renaming(Mappings(ops[..k]), x);
            Renaming(Mappings(ops), x) ==
            if IsMapping(ops[k]) then RenameName(Strip(ops[k].oldName), Strip(ops[k].newName), before) else before
  {
    var k := |ops| - 1;
    var ms := Mappings(ops[..k]);
    if IsMapping(ops[k]) {
      var all := ms + [MappingOf(ops[k])];
      assert all[..|ms|] == ms && all[|ms|] == MappingOf(ops[k]);
      assert Mappings(ops) == all;
    } else {
      assert Mappings(ops) == ms + [] == ms;
    }
  }

  // ---------------------------------------------------------------------------------
  // Where the names of the migrated database come from

  /** A column of the migrated table: an old one, an old one renamed by an operation, or an added one. */
  datatype Origin = Kept(c: nat) | Renamed(c: nat, i: nat) | Extra(i: nat)

  ghost predicate ColumnIs(ops: seq<Operation>, db: Db, final: Db, t: nat, k: nat, o: Origin)
    requires ValidDb(db) && MaterializeAll(ops, db) == Some(final)
    requires t < |db| && k < |final[t].columns|
  {
    var name := final[t].columns[k].name;
    match o
    case Kept(c) => c < |db[t].columns| && k == PlaceAfter(ops, db, t, c) && name == db[t].columns[c].name
    case Renamed(c, i) =>
      && c < |db[t].columns| && k == PlaceAfter(ops, db, t, c)
      && i < |ops| && (ops[i].RenameColumn? || ops[i].ReplaceColumn?) && name == ops[i].newName
      && Fold(db[t].columns[c].name) == Fold(ops[i].oldName)
    case Extra(i) => i < |ops| && ops[i].AddColumn? && name == ops[i].newName
  }

  /** What one operation makes of a column. */
  ghost predicate StepIs(op: Operation, db: Db, t: nat, k: nat, o: Origin)
    requires ValidDb(db) && Materialize(op, db).Some? && t < |db| && k < |Materialize(op, db).value[t].columns|
  {
    var name := Materialize(op, db).value[t].columns[k].name;
    match o
    case Kept(c) => c < |db[t].columns| && k == Place(op, db, t, c) && name == db[t].columns[c].name
    case Renamed(c, i) =>
      && c < |db[t].columns| && k == Place(op, db, t, c) && i == 0 && (op.RenameColumn? || op.ReplaceColumn?)
      && name == op.newName && Fold(db[t].columns[c].name) == Fold(op.oldName)
    case Extra(i) => i == 0 && op.AddColumn? && name == op.newName
  }

  lemma MovedColumnAt(t: Table, p: nat, c: Column, k: nat)
    requires p < |t.columns| && ValidTable(t) && k < |t.columns|
    ensures |MoveColumn(t, p, c).columns| == |t.columns|
    ensures MoveColumn(t, p, c).columns[k] == if k == |t.columns| - 1 then c else t.columns[if k < p then k else k + 1]
  {
  }

  lemma MovedOrigin(op: Operation, db: Db, t: nat, k: nat) returns (o: Origin)
    requires op.ReplaceColumn? && ValidDb(db) && Materialize(op, db).Some? && TargetTable(op, db) == Some(t)
    requires !InPlace(op, db[t].columns[TargetColumn(op, db).value]) && k < |Materialize(op, db).value[t].columns|
    ensures StepIs(op, db, t, k, o)
  {
    var p, c := TargetColumn(op, db).value, Column(op.newName, Strip(DeclaredOr(op.declaredType, "TEXT")));
    assert Materialize(op, db).value[t] == MoveColumn(db[t], p, c);
    assert MoveOf(op, db) == ToEnd(p, |db[t].columns|);
    MovedColumnAt(db[t], p, c, k);
    o := if k == |db[t].columns| - 1 then Renamed(p, 0) else if k < p then Kept(k) else Kept(k + 1);
  }

  /** The operation changes a column of this table. */
  lemma ColumnStepOrigin(op: Operation, db: Db, t: nat, k: nat) returns (o: Origin)
    requires op.RenameColumn? || op.ReplaceColumn?
    requires ValidDb(db) && Materialize(op, db).Some? && TargetTable(op, db) == Some(t)
    requires k < |Materialize(op, db).value[t].columns|
    ensures StepIs(op, db, t, k, o)
  {
    var p := TargetColumn(op, db).value;
    if InPlace(op, db[t].columns[p]) {
      assert Materialize(op, db).value[t] == RenameColumnAt(db[t], p, op.newName);
      o := if k == p then Renamed(p, 0) else Kept(k);
    } else {
      o := MovedOrigin(op, db, t, k);
    }
  }

  lemma StepOrigin(op: Operation, db: Db, t: nat, k: nat) returns (o: Origin)
    requires ValidDb(db) && Materialize(op, db).Some? && t < |db| && k < |Materialize(op, db).value[t].columns|
    ensures StepIs(op, db, t, k, o)
  {
    if (op.RenameColumn? || op.ReplaceColumn?) && TargetTable(op, db) == Some(t) {
      o := ColumnStepOrigin(op, db, t, k);
    } else {
      o := if k < |db[t].columns| then Kept(k) else Extra(0);
    }
  }

  lemma UnchainedRest(ops: seq<Operation>)
    requires Unchained(ops) && ops != []
    ensures Unchained(ops[1..])
  {
    var rest := ops[1..];
    assert forall i | 0 <= i < |rest| :: rest[i] == ops[i + 1];
  }

  /** Every column of the migrated table has an origin. */
  lemma {:induction false} ColumnOrigin(ops: seq<Operation>, db: Db, final: Db, t: nat, k: nat) returns (o: Origin)
    requires ValidDb(db) && MaterializeAll(ops, db) == Some(final) && Unchained(ops)
    requires t < |db| && k < |final[t].columns|
    ensures ColumnIs(ops, db, final, t, k, o)
  {
    if ops == [] {
      o := Kept(k);
    } else {
      var mid := Materialize(ops[0], db).value;
      MaterializeValid(ops[0], db);
      UnchainedRest(ops);
      var late := ColumnOrigin(ops[1..], mid, final, t, k);
      match late {
        case Extra(i) =>
          assert ops[1..][i] == ops[i + 1];
          o := Extra(i + 1);
        case Kept(c) =>
          var early := StepOrigin(ops[0], db, t, c);
          o := early;
        case Renamed(c, i) =>
          assert ops[1..][i] == ops[i + 1];
          var early := StepOrigin(ops[0], db, t, c);
          o := Renamed(early.c, i + 1);
      }
    }
  }

  lemma StepTable(op: Operation, db: Db, t: nat)
    requires ValidDb(db) && Materialize(op, db).Some? && t < |db|
    ensures var name := Materialize(op, db).value[t].name;
            name == db[t].name || (op.RenameTable? && name == op.newName && Fold(db[t].name) == Fold(op.oldName))
  {
    assert TableNames(db)[t] == db[t].name;
  }

  /** Every table has its old name, or one that an operation gave it. */
  lemma {:induction false} TableOrigin(ops: seq<Operation>, db: Db, final: Db, t: nat) returns (i: nat)
    requires ValidDb(db) && MaterializeAll(ops, db) == Some(final) && Unchained(ops) && t < |db|
    ensures i < |ops| ==>
              ops[i].RenameTable? && final[t].name == ops[i].newName && Fold(db[t].name) == Fold(ops[i].oldName)
    ensures i >= |ops| ==> final[t].name == db[t].name
  {
    i := 0;
    if ops != [] {
      var mid := Materialize(ops[0], db).value;
      MaterializeValid(ops[0], db);
      UnchainedRest(ops);
      StepTable(ops[0], db, t);
      i := TableOrigin(ops[1..], mid, final, t);
      assert i < |ops| - 1 ==> ops[1..][i] == ops[i + 1];
      i := if i < |ops| - 1 || mid[t].name == db[t].name then i + 1 else 0;
    }
  }

  // ---------------------------------------------------------------------------------
  // Names of the source are found where they belong

  /** The name is not introduced by the diff. */
  predicate NotNew(ops: seq<Operation>, x: string) {
    forall i | 0 <= i < |ops| && Names(ops[i]) :: Fold(ops[i].newName) != Fold(x)
  }

  predicate NewOnce(ops: seq<Operation>) {
    forall i, j | 0 <= i < j < |ops| && Names(ops[i]) && Names(ops[j]) :: Fold(ops[i].newName) != Fold(ops[j].newName)
  }

  lemma SameNewName(ops: seq<Operation>, i: nat, j: nat)
    requires NewOnce(ops) && i < |ops| && j < |ops| && Names(ops[i]) && Names(ops[j])
    requires Fold(ops[i].newName) == Fold(ops[j].newName)
    ensures i == j
  {
  }

  /** Renaming does not merge names that the diff does not introduce. */
  lemma RenamingKeepsApart(ops: seq<Operation>, x: string, y: string)
    requires Unchained(ops) && NewOnce(ops) && NotNew(ops, x) && NotNew(ops, y)
    requires Fold(Renaming(Mappings(ops), x)) == Fold(Renaming(Mappings(ops), y))
    ensures Fold(x) == Fold(y)
  {
    var i := RenamingOrigin(ops, x);
    var j := RenamingOrigin(ops, y);
    if i < |ops| && j < |ops| { SameNewName(ops, i, j); }
  }

  /** A table that is found under a renamed source name had that name. */
  lemma FreshTable(ops: seq<Operation>, db: Db, final: Db, x: string, u: nat)
    requires ValidDb(db) && MaterializeAll(ops, db) == Some(final) && Unchained(ops) && NewOnce(ops) && NotNew(ops, x)
    requires u < |db| && NotNew(ops, db[u].name) && Fold(final[u].name) == Fold(Renaming(Mappings(ops), x))
    ensures Fold(db[u].name) == Fold(x)
  {
    var i := RenamingOrigin(ops, x);
    var j := TableOrigin(ops, db, final, u);
    if i < |ops| && j < |ops| { SameNewName(ops, i, j); }
  }

  /** A column that is found under a renamed source name had that name. */
  lemma FreshColumn(ops: seq<Operation>, db: Db, final: Db, t: nat, k: nat, x: string) returns (c: nat)
    requires ValidDb(db) && MaterializeAll(ops, db) == Some(final) && Unchained(ops) && NewOnce(ops) && NotNew(ops, x)
    requires t < |db| && k < |final[t].columns| && Fold(final[t].columns[k].name) == Fold(Renaming(Mappings(ops), x))
    requires forall c | 0 <= c < |db[t].columns| :: NotNew(ops, db[t].columns[c].name)
    ensures c < |db[t].columns| && k == PlaceAfter(ops, db, t, c) && Fold(db[t].columns[c].name) == Fold(x)
  {
    var i := RenamingOrigin(ops, x);
    var o := ColumnOrigin(ops, db, final, t, k);
    match o {
      case Kept(c0) => c := c0;
      case Renamed(c0, j) =>
        c := c0;
        if i < |ops| { SameNewName(ops, i, j); }
      case Extra(j) =>
        if i < |ops| { SameNewName(ops, i, j); }
        assert false;
    }
  }

  /** A column that is found under a source name itself kept its name. */
  lemma UnrenamedColumn(ops: seq<Operation>, db: Db, final: Db, t: nat, k: nat, x: string) returns (c: nat)
    requires ValidDb(db) && MaterializeAll(ops, db) == Some(final) && Unchained(ops) && NotNew(ops, x)
    requires t < |db| && k < |final[t].columns| && Fold(final[t].columns[k].name) == Fold(x)
    ensures c < |db[t].columns| && k == PlaceAfter(ops, db, t, c) && Fold(db[t].columns[c].name) == Fold(x)
  {
    var o := ColumnOrigin(ops, db, final, t, k);
    match o {
      case Kept(c0) => c := c0;
      case Renamed(_, _) => assert false;
      case Extra(_) => assert false;
    }
  }

  /** What a fresh diff means for the names of the source and of the query. */
  lemma SourceIsOld(ops: seq<Operation>, q: Query, db: Db)
    requires FreshDiff(ops, q, db)
    ensures NewOnce(ops)
    ensures forall u | 0 <= u < |db| :: NotNew(ops, db[u].name)
    ensures forall u, c | 0 <= u < |db| && 0 <= c < |db[u].columns| :: NotNew(ops, db[u].columns[c].name)
    ensures forall b | 0 <= b < |q.from| :: NotNew(ops, Qualifier(q.from[b]))
  {
    forall u | 0 <= u < |db|
      ensures NotNew(ops, db[u].name)
    {
      assert TableNames(db)[u] == db[u].name;
    }
    forall u, c | 0 <= u < |db| && 0 <= c < |db[u].columns|
      ensures NotNew(ops, db[u].columns[c].name)
    {
      assert ColumnNames(db[u])[c] == db[u].columns[c].name;
    }
  }

  lemma NotNewFold(ops: seq<Operation>, x: string, y: string)
    requires NotNew(ops, x) && Fold(x) == Fold(y)
    ensures NotNew(ops, y)
  {
  }

  // ---------------------------------------------------------------------------------
  // Bindings and references

  /** The facts that the whole argument shares. */
  ghost predicate Fresh(ops: seq<Operation>, q: Query, db: Db, final: Db) {
    && ValidDb(db) && MaterializeAll(ops, db) == Some(final) && Resolve(q, db).Some? && FreshDiff(ops, q, db)
  }

  lemma FreshBinding(ops: seq<Operation>, q: Query, db: Db, final: Db, b: nat)
    requires Fresh(ops, q, db, final) && b < |q.from|
    requires Find(TableNames(final), Renaming(Mappings(ops), q.from[b].table)).Some?
    ensures Find(TableNames(final), Renaming(Mappings(ops), q.from[b].table)) == Some(TableOf(q.from, db, b))
  {
    SourceIsOld(ops, q, db);
    var x := q.from[b].table;
    var u := Find(TableNames(final), Renaming(Mappings(ops), x)).value;
    var t := TableOf(q.from, db, b);
    assert TableNames(db)[t] == db[t].name && TableNames(db)[u] == db[u].name;
    NotNewFold(ops, db[t].name, x);
    FreshTable(ops, db, final, x, u);
    FindAt(TableNames(db), x, u);
  }

  /** After a fresh diff a renamed qualifier fits what the qualifier fitted. */
  lemma FreshFits(ops: seq<Operation>, q: Query, db: Db, final: Db, x: Option<string>, b: nat)
    requires Fresh(ops, q, db, final) && b < |q.from|
    requires exists b: nat :: QualifierFits(ScopeOf(q.from, db), x, b)
    requires QualifierFits(LaterScope(q, RepairPieces(ops, q, db), db, final),
                           match x case None => None case Some(y) => Some(Renaming(Mappings(ops), y)), b)
    ensures QualifierFits(ScopeOf(q.from, db), x, b)
  {
    if x.Some? {
      SourceIsOld(ops, q, db);
      var known: nat :| QualifierFits(ScopeOf(q.from, db), x, known);
      NotNewFold(ops, Qualifier(q.from[known]), x.value);
      RenamingKeepsApart(ops, Qualifier(q.from[b]), x.value);
    }
  }

  /** A reference that still resolves means the place of its column. */
  lemma FreshRef(ops: seq<Operation>, q: Query, db: Db, final: Db, r: Ref)
    requires Fresh(ops, q, db, final) && r in QueryRefs(q)
    requires ResolveRef(LaterScope(q, RepairPieces(ops, q, db), db, final), RepairPieces(ops, q, db).ref(r)).Some?
    ensures RefLands(ScopeOf(q.from, db), LaterScope(q, RepairPieces(ops, q, db), db, final), r,
                     RepairPieces(ops, q, db).ref(r), BindingMoves(TablesOf(q.from, db), PlacesAfter(ops, db)))
  {
    var to := RepairPieces(ops, q, db);
    var s, s' := ScopeOf(q.from, db), LaterScope(q, to, db, final);
    RefResolves(q, db, r);
    SourceIsOld(ops, q, db);
    var (b0, c0) := ResolveRef(s, r).value;
    var (b, k) := ResolveRef(s', to.ref(r)).value;
    FreshFits(ops, q, db, final, r.qualifier, b);
    var t0, t := TableOf(q.from, db, b0), TableOf(q.from, db, b);
    NotNewFold(ops, db[t0].columns[c0].name, r.name);
    assert Fold(final[t].columns[k].name) == Fold(Renaming(Mappings(ops), r.name));
    var c := FreshColumn(ops, db, final, t, k, r.name);
    FindAt(ColumnNames(db[t]), r.name, c);
    assert Offers(s, r, b);
    assert b == b0 && c == c0;
  }

  // ---------------------------------------------------------------------------------
  // Stars that are not expanded

  /** No column was added, and none was moved. */
  predicate ColumnsStay(ops: seq<Operation>, db: Db, final: Db)
    requires ValidDb(db) && MaterializeAll(ops, db) == Some(final)
  {
    forall t | 0 <= t < |db| ::
      |final[t].columns| == |db[t].columns| && forall c | 0 <= c < |db[t].columns| :: PlaceAfter(ops, db, t, c) == c
  }

  lemma StayingStars(ops: seq<Operation>, q: Query, db: Db, final: Db)
    requires Fresh(ops, q, db, final) && ColumnsStay(ops, db, final)
    ensures StarsStay(ScopeOf(q.from, db), LaterScope(q, RepairPieces(ops, q, db), db, final),
                      BindingMoves(TablesOf(q.from, db), PlacesAfter(ops, db)))
  {
    var s, s' := ScopeOf(q.from, db), LaterScope(q, RepairPieces(ops, q, db), db, final);
    forall b | 0 <= b < |q.from|
      ensures |s'.columns[b]| == |s.columns[b]|
    {
      assert s.columns[b] == ColumnNames(db[TableOf(q.from, db, b)]);
    }
  }

  lemma FreshSameFit(ops: seq<Operation>, q: Query, db: Db, final: Db, x: Option<string>)
    requires Fresh(ops, q, db, final) && exists b: nat :: QualifierFits(ScopeOf(q.from, db), x, b)
    ensures SameFit(ScopeOf(q.from, db), LaterScope(q, RepairPieces(ops, q, db), db, final), x,
                    match x case None => None case Some(y) => Some(Renaming(Mappings(ops), y)))
  {
    var s, s' := ScopeOf(q.from, db), LaterScope(q, RepairPieces(ops, q, db), db, final);
    var x' := match x case None => None case Some(y) => Some(Renaming(Mappings(ops), y));
    forall b: nat
      ensures QualifierFits(s', x', b) == QualifierFits(s, x, b)
    {
      if QualifierFits(s', x', b) { FreshFits(ops, q, db, final, x, b); }
      if QualifierFits(s, x, b) && x.Some? { RenamingFolds(Mappings(ops), Qualifier(q.from[b]), x.value); }
    }
  }

  lemma FreshStar(ops: seq<Operation>, q: Query, db: Db, final: Db, i: nat)
    requires Fresh(ops, q, db, final) && !IsPlanned(ops, q, db) && ColumnsStay(ops, db, final)
    requires i < |q.items| && !q.items[i].Output?
    ensures BlockLands(ScopeOf(q.from, db), LaterScope(q, RepairPieces(ops, q, db), db, final), q.items[i],
                       RepairPieces(ops, q, db).blocks[i], BindingMoves(TablesOf(q.from, db), PlacesAfter(ops, db)))
  {
    var to, f := RepairPieces(ops, q, db), BindingMoves(TablesOf(q.from, db), PlacesAfter(ops, db));
    var s, s' := ScopeOf(q.from, db), LaterScope(q, to, db, final);
    ItemResolved(q, db, i);
    StayingStars(ops, q, db, final);
    match q.items[i]
    case Star =>
      StarTracks(s, s', None, None, |q.from|, f);
      OneItem(s', Star);
    case QualifiedStar(x) =>
      var y := Renaming(Mappings(ops), x);
      FreshSameFit(ops, q, db, final, Some(x));
      var b: nat :| QualifierFits(s, Some(x), b);
      assert QualifierFits(s', Some(y), b);
      StarTracks(s, s', Some(x), Some(y), |q.from|, f);
      OneItem(s', QualifiedStar(y));
  }

  // ---------------------------------------------------------------------------------
  // Stars that are expanded

  lemma FreshNext(names: seq<string>, name: string)
    requires Unique(names) && FreshIn(names, name, -1)
    ensures Unique(names + [name])
  {
  }

  /** What additions an operation list makes, one operation at a time. */
  lemma AdditionsNext(ops: seq<Operation>, names: seq<string>, t: nat)
    requires ops != []
    ensures var k := |ops| - 1;
            Added(Additions(ops), names, t) == Added(Additions(ops[..k]), names, t) +
              if ops[k].AddColumn? && Find(names, ops[k].table) == Some(t) then [ops[k].newName] else []
  {
    var k := |ops| - 1;
    if ops[k].AddColumn? {
      AddedSnoc(Additions(ops[..k]), ops[k], names, t);
    } else {
      assert Additions(ops) == Additions(ops[..k]) + [] == Additions(ops[..k]);
      assert Added(Additions(ops[..k]), names, t) + [] == Added(Additions(ops[..k]), names, t);
    }
  }

  lemma {:induction false} AddedAreNew(ops: seq<Operation>, names: seq<string>, t: nat, name: string)
    requires forall i | 0 <= i < |ops| && ops[i].AddColumn? :: Fold(ops[i].newName) != Fold(name)
    ensures FreshIn(Added(Additions(ops), names, t), name, -1)
  {
    if ops != [] {
      var init := ops[..|ops| - 1];
      assert forall i | 0 <= i < |init| :: init[i] == ops[i];
      AddedAreNew(init, names, t, name);
      AdditionsNext(ops, names, t);
    }
  }

  lemma FreshInBoth(a: seq<string>, b: seq<string>, name: string)
    requires FreshIn(a, name, -1) && FreshIn(b, name, -1)
    ensures FreshIn(a + b, name, -1) && Find(a + b, name).None?
  {
  }

  /** One more operation, for the columns of one table. */
  lemma ActiveNext(before: Schema, names: seq<string>, op: Operation, t: nat)
    requires |before| == |names| && t < |before| && WithOperation(Some(before), names, op).Some?
    ensures t < |WithOperation(Some(before), names, op).value|
    ensures WithOperation(Some(before), names, op).value[t].columns ==
            before[t].columns +
              if op.AddColumn? && Find(names, op.table) == Some(t) && Find(before[t].columns, Strip(op.newName)).None?
              then [Strip(op.newName)] else []
  {
  }

  lemma ColumnsGrow(source: seq<string>, before: seq<string>, name: string)
    requires Unique(source + before) && FreshIn(source, name, -1) && FreshIn(before, name, -1)
    ensures Find(source + before, name).None? && source + before + [name] == source + (before + [name])
    ensures Unique(source + (before + [name]))
  {
    FreshInBoth(source, before, name);
    FreshNext(source + before, name);
    Regroup(source, before, [name]);
  }

  /** The planner is given the source columns, then the added ones. */
  lemma {:induction false} ActiveColumns(schema: Schema, ops: seq<Operation>, t: nat)
    requires ActiveSchema(schema, ops).Some? && t < |schema| && Unique(schema[t].columns)
    requires Unchained(ops) && NewOnce(ops)
    requires forall i | 0 <= i < |ops| && Names(ops[i]) :: FreshIn(schema[t].columns, ops[i].newName, -1)
    ensures var columns := schema[t].columns + Added(Additions(ops), SchemaNames(schema), t);
            ActiveSchema(schema, ops).value[t].columns == columns && Unique(columns)
  {
    var names := SchemaNames(schema);
    if ops == [] {
      assert Added([], names, t) == [] && schema[t].columns + [] == schema[t].columns;
    } else {
      var k := |ops| - 1;
      var init, op := ops[..k], ops[k];
      assert forall i | 0 <= i < k :: init[i] == ops[i];
      UnchainedInit(ops);
      ActiveColumns(schema, init, t);
      ActiveNext(ActiveSchema(schema, init).value, names, op, t);
      AdditionsNext(ops, names, t);
      var before := Added(Additions(init), names, t);
      if op.AddColumn? && Find(names, op.table) == Some(t) {
        AddedAreNew(init, names, t, op.newName);
        ColumnsGrow(schema[t].columns, before, op.newName);
      } else {
        assert before + [] == before;
      }
    }
  }

  /** So what a wildcard is expanded to are the source columns. */
  lemma PlannedColumns(ops: seq<Operation>, q: Query, db: Db, final: Db, t: nat)
    requires Fresh(ops, q, db, final) && ActiveSchema(SchemaOf(db), ops).Some? && t < |db|
    ensures OldColumns(ActiveSchema(SchemaOf(db), ops).value[t].columns, Added(Additions(ops), TableNames(db), t)) ==
            ColumnNames(db[t])
  {
    SourceIsOld(ops, q, db);
    var added := Added(Additions(ops), TableNames(db), t);
    ActiveColumns(SchemaOf(db), ops, t);
    AddedDropped(ColumnNames(db[t]), added, added);
    OldColumnsKept(ColumnNames(db[t]), added);
  }

  /** A binding whose renamed table the source has is of that very table. */
  lemma PlannedTable(ops: seq<Operation>, q: Query, db: Db, final: Db, b: nat)
    requires Fresh(ops, q, db, final) && b < |q.from|
    requires Find(TableNames(db), Renaming(Mappings(ops), q.from[b].table)).Some?
    ensures Renaming(Mappings(ops), q.from[b].table) == q.from[b].table
  {
    var i := RenamingOrigin(ops, q.from[b].table);
    assert i < |ops| ==> NotInSource(db, ops[i].newName);
  }

  /** A scope whose bindings have the renamed qualifiers and the migrated columns. */
  ghost predicate IsLater(ops: seq<Operation>, q: Query, db: Db, final: Db, s: Scope)
    requires |final| == |db| && TablesExist(q.from, db)
  {
    && |s.qualifiers| == |s.columns| == |q.from|
    && forall b | 0 <= b < |q.from| ::
         && s.qualifiers[b] == Renaming(Mappings(ops), Qualifier(q.from[b]))
         && s.columns[b] == ColumnNames(final[TableOf(q.from, db, b)])
  }

  lemma LaterIsLater(ops: seq<Operation>, q: Query, db: Db, final: Db)
    requires |final| == |db| && TablesExist(q.from, db)
    ensures IsLater(ops, q, db, final, LaterScope(q, RepairPieces(ops, q, db), db, final))
  {
  }

  /** The qualifier of an expanded output: the binding's own, or none when there is only one binding. */
  predicate Qualifies(ops: seq<Operation>, from: seq<Binding>, b: nat, qualifier: Option<string>)
    requires b < |from|
  {
    if qualifier.Some? then Fold(qualifier.value) == Fold(Renaming(Mappings(ops), Qualifier(from[b]))) else |from| == 1
  }

  /** Only the binding itself can offer an expanded output. */
  lemma OneOffers(ops: seq<Operation>, q: Query, db: Db, final: Db, s: Scope, b: nat, b': nat, r: Ref)
    requires Fresh(ops, q, db, final) && IsLater(ops, q, db, final, s) && DistinctQualifiers(q.from) && b < |q.from|
    requires Qualifies(ops, q.from, b, r.qualifier) && Offers(s, r, b')
    ensures b' == b
  {
    if r.qualifier.Some? {
      SourceIsOld(ops, q, db);
      RenamingKeepsApart(ops, Qualifier(q.from[b']), Qualifier(q.from[b]));
    }
  }

  /** An expanded output resolves exactly when its column kept its name, and then to its place. */
  lemma PlannedOutput(ops: seq<Operation>, q: Query, db: Db, final: Db, s: Scope, b: nat, c: nat, qualifier: Option<string>)
    requires Fresh(ops, q, db, final) && IsLater(ops, q, db, final, s) && DistinctQualifiers(q.from)
    requires b < |q.from| && c < |db[TableOf(q.from, db, b)].columns| && Qualifies(ops, q.from, b, qualifier)
    ensures var t := TableOf(q.from, db, b);
            var p := ResolveRef(s, Ref(qualifier, db[t].columns[c].name));
            && (p.Some? ==> p == Some((b, PlaceAfter(ops, db, t, c))))
            && (p.Some? <==> ColumnFound(ops, db, final, t, c, db[t].columns[c].name))
  {
    var t := TableOf(q.from, db, b);
    var r := Ref(qualifier, db[t].columns[c].name);
    forall b' | Offers(s, r, b')
      ensures b' == b
    {
      OneOffers(ops, q, db, final, s, b, b', r);
    }
    if Find(ColumnNames(final[t]), r.name).Some? {
      UnrenamedPlace(ops, q, db, final, t, c);
      assert Supplies(s, r, b);
      assert ResolveRef(s, r).Some?;
    } else {
      assert !Supplies(s, r, b);
    }
  }

  /** If the name of a source column is found at all, it is found where the column stands. */
  lemma UnrenamedPlace(ops: seq<Operation>, q: Query, db: Db, final: Db, t: nat, c: nat)
    requires Fresh(ops, q, db, final) && t < |db| && c < |db[t].columns|
    requires Find(ColumnNames(final[t]), db[t].columns[c].name).Some?
    ensures ColumnFound(ops, db, final, t, c, db[t].columns[c].name)
  {
    SourceIsOld(ops, q, db);
    var x := db[t].columns[c].name;
    var k := Find(ColumnNames(final[t]), x).value;
    var c' := UnrenamedColumn(ops, db, final, t, k, x);
    FindAt(ColumnNames(db[t]), x, c');
    FindAt(ColumnNames(db[t]), x, c);
  }

  /** Outputs resolve when each of their references does. */
  lemma OutputsNeedRefs(s: Scope, names: seq<string>, qualifier: Option<string>)
    requires ScopeOk(s)
    ensures ResolveItems(s, Outputs(names, qualifier)).Some? <==>
            forall c | 0 <= c < |names| :: ResolveRef(s, Ref(qualifier, names[c])).Some?
  {
    var items := Outputs(names, qualifier);
    EachItemResolves(s, items);
    forall c | 0 <= c < |names|
      ensures ResolveItem(s, items[c]).Some? <==> ResolveRef(s, Ref(qualifier, names[c])).Some?
    {
      assert items[c] == Output(Col(Ref(qualifier, names[c])));
    }
  }

  lemma OutputsAt(s: Scope, names: seq<string>, qualifier: Option<string>, columns: seq<RExpr>)
    requires ScopeOk(s) && |columns| == |names|
    requires forall c | 0 <= c < |names| ::
      columns[c].RCol? && ResolveRef(s, Ref(qualifier, names[c])) == Some((columns[c].binding, columns[c].column))
    ensures ResolveItems(s, Outputs(names, qualifier)) == Some(columns)
  {
    EachResolves(s, Outputs(names, qualifier), columns);
  }

  /** Every column of the binding's table is found under its old name. */
  predicate NamesKept(ops: seq<Operation>, q: Query, db: Db, final: Db, b: nat)
    requires ValidDb(db) && MaterializeAll(ops, db) == Some(final) && TablesExist(q.from, db) && b < |q.from|
  {
    var t := TableOf(q.from, db, b);
    forall c | 0 <= c < |db[t].columns| :: ColumnFound(ops, db, final, t, c, db[t].columns[c].name)
  }

  /** Where the columns of a binding stand. */
  lemma MovedColumns(ops: seq<Operation>, q: Query, db: Db, final: Db, b: nat)
    requires Fresh(ops, q, db, final) && b < |q.from|
    ensures var f := BindingMoves(TablesOf(q.from, db), PlacesAfter(ops, db));
            var columns := MoveExprs(AllColumns(ScopeOf(q.from, db), b), f);
            var t := TableOf(q.from, db, b);
            && |columns| == |db[t].columns|
            && forall c | 0 <= c < |columns| :: columns[c] == RCol(b, PlaceAfter(ops, db, t, c))
  {
  }

  /** One binding's expanded outputs resolve exactly when its table kept its names, and then to its columns' places. */
  lemma PlannedBinding(ops: seq<Operation>, q: Query, db: Db, final: Db, s: Scope, b: nat, qualifier: Option<string>)
    requires Fresh(ops, q, db, final) && IsLater(ops, q, db, final, s) && DistinctQualifiers(q.from)
    requires b < |q.from| && Qualifies(ops, q.from, b, qualifier)
    ensures var p := ResolveItems(s, Outputs(ColumnNames(db[TableOf(q.from, db, b)]), qualifier));
            && (p.Some? <==> NamesKept(ops, q, db, final, b))
            && (p.Some? ==>
                  p == Some(MoveExprs(AllColumns(ScopeOf(q.from, db), b),
                                      BindingMoves(TablesOf(q.from, db), PlacesAfter(ops, db)))))
  {
    var t := TableOf(q.from, db, b);
    var names := ColumnNames(db[t]);
    OutputsNeedRefs(s, names, qualifier);
    forall c | 0 <= c < |names|
      ensures var p := ResolveRef(s, Ref(qualifier, names[c]));
              && (p.Some? <==> ColumnFound(ops, db, final, t, c, db[t].columns[c].name))
              && (p.Some? ==> p == Some((b, PlaceAfter(ops, db, t, c))))
    {
      PlannedOutput(ops, q, db, final, s, b, c, qualifier);
    }
    if ResolveItems(s, Outputs(names, qualifier)).Some? {
      MovedColumns(ops, q, db, final, b);
      OutputsAt(s, names, qualifier,
                MoveExprs(AllColumns(ScopeOf(q.from, db), b), BindingMoves(TablesOf(q.from, db), PlacesAfter(ops, db))));
    }
  }

  /** Outputs of bindings, each of which stands for its binding's columns if it resolves at all. */
  lemma {:induction false} JoinedBindings(s: Scope, s': Scope, blocks: seq<seq<Item>>, f: Moves, n: nat)
    requires ScopeOk(s) && ScopeOk(s') && |blocks| == |s.columns| && n <= |blocks|
    requires forall b | 0 <= b < |blocks| ::
      ResolveItems(s', blocks[b]).Some? ==> ResolveItems(s', blocks[b]) == Some(MoveExprs(AllColumns(s, b), f))
    requires ResolveItems(s', Joined(blocks[..n])).Some?
    ensures ResolveItems(s', Joined(blocks[..n])) == Some(MoveExprs(StarColumns(s, None, n), f))
  {
    if n == 0 {
      assert Joined(blocks[..0]) == [] && MoveExprs([], f) == [];
    } else {
      var k := n - 1;
      assert blocks[..n][..k] == blocks[..k] && blocks[..n][k] == blocks[k];
      var init, last := Joined(blocks[..k]), blocks[k];
      assert Joined(blocks[..n]) == init + last;
      if ResolveItems(s', init).None? || ResolveItems(s', last).None? { JoinNeedsBoth(s', init, last); }
      JoinedBindings(s, s', blocks, f, k);
      var before, now := StarColumns(s, None, k), AllColumns(s, k);
      JoinResolved(s', init, last, MoveExprs(before, f), MoveExprs(now, f));
      MoveConcat(before, now, f);
      assert QualifierFits(s, None, k);
    }
  }

  /** The source knows every table of the renamed query: then none was renamed. */
  lemma PlannedTables(ops: seq<Operation>, q: Query, db: Db, final: Db, b: nat)
    requires Fresh(ops, q, db, final) && IsPlanned(ops, q, db) && b < |q.from|
    ensures TablesKnown(RenamedQuery(ops, q).from, TableNames(db))
    ensures Physical(RenamedQuery(ops, q).from, TableNames(db), b) == TableOf(q.from, db, b)
  {
    PlannedKnows(ops, q, db);
    var from := RenamedQuery(ops, q).from;
    assert from[b].table == Renaming(Mappings(ops), q.from[b].table);
    PlannedTable(ops, q, db, final, b);
  }

  lemma PlannedBindingOutputs(ops: seq<Operation>, q: Query, db: Db, final: Db, b: nat)
    requires Fresh(ops, q, db, final) && IsPlanned(ops, q, db) && b < |q.from|
    ensures var from, schema := RenamedQuery(ops, q).from, ActiveSchema(SchemaOf(db), ops).value;
            && TablesKnown(from, SchemaNames(schema))
            && BindingOutputs(from, schema, Additions(ops), b) ==
               Outputs(ColumnNames(db[TableOf(q.from, db, b)]),
                       if |q.from| > 1 then Some(Renaming(Mappings(ops), Qualifier(q.from[b]))) else None)
  {
    PlannedTables(ops, q, db, final, b);
    PlannedColumns(ops, q, db, final, TableOf(q.from, db, b));
  }

  lemma PlannedBlockLands(ops: seq<Operation>, q: Query, db: Db, final: Db, s: Scope, b: nat, block: seq<Item>)
    requires Fresh(ops, q, db, final) && IsPlanned(ops, q, db) && DistinctQualifiers(q.from) && b < |q.from|
    requires IsLater(ops, q, db, final, s)
    requires TablesKnown(RenamedQuery(ops, q).from, TableNames(db))
    requires block == BindingOutputs(RenamedQuery(ops, q).from, ActiveSchema(SchemaOf(db), ops).value, Additions(ops), b)
    ensures var p := ResolveItems(s, block);
            && (p.Some? <==> NamesKept(ops, q, db, final, b))
            && (p.Some? ==>
                  p == Some(MoveExprs(AllColumns(ScopeOf(q.from, db), b),
                                      BindingMoves(TablesOf(q.from, db), PlacesAfter(ops, db)))))
  {
    PlannedBindingOutputs(ops, q, db, final, b);
    PlannedBinding(ops, q, db, final, s, b,
                   if |q.from| > 1 then Some(Renaming(Mappings(ops), Qualifier(q.from[b]))) else None);
  }

  /** What a plain star was expanded to. */
  lemma PlannedStarBlock(ops: seq<Operation>, q: Query, db: Db, i: nat)
    requires IsPlanned(ops, q, db) && i < |q.items| && q.items[i].Star?
    ensures var from, schema := RenamedQuery(ops, q).from, ActiveSchema(SchemaOf(db), ops).value;
            && TablesKnown(from, SchemaNames(schema))
            && PlannedBlocks(ops, q, db)[i] == Joined(BindingBlocks(from, schema, Additions(ops)))
  {
    PlannedKnows(ops, q, db);
    var from, schema := RenamedQuery(ops, q).from, ActiveSchema(SchemaOf(db), ops).value;
    BindingsJoined(from, schema, Additions(ops), BindingBlocks(from, schema, Additions(ops)));
    assert RenamedQuery(ops, q).items[i] == Star;
  }

  lemma StarBlocksLand(ops: seq<Operation>, q: Query, db: Db, final: Db, s: Scope, blocks: seq<seq<Item>>)
    requires Fresh(ops, q, db, final) && IsPlanned(ops, q, db) && DistinctQualifiers(q.from)
    requires IsLater(ops, q, db, final, s) && TablesKnown(RenamedQuery(ops, q).from, TableNames(db))
    requires blocks == BindingBlocks(RenamedQuery(ops, q).from, ActiveSchema(SchemaOf(db), ops).value, Additions(ops))
    ensures forall b | 0 <= b < |blocks| ::
              && (ResolveItems(s, blocks[b]).Some? <==> NamesKept(ops, q, db, final, b))
              && (ResolveItems(s, blocks[b]).Some? ==>
                    ResolveItems(s, blocks[b]) ==
                    Some(MoveExprs(AllColumns(ScopeOf(q.from, db), b),
                                   BindingMoves(TablesOf(q.from, db), PlacesAfter(ops, db)))))
  {
    forall b | 0 <= b < |blocks|
      ensures ResolveItems(s, blocks[b]).Some? <==> NamesKept(ops, q, db, final, b)
      ensures ResolveItems(s, blocks[b]).Some? ==>
                ResolveItems(s, blocks[b]) ==
                Some(MoveExprs(AllColumns(ScopeOf(q.from, db), b), BindingMoves(TablesOf(q.from, db), PlacesAfter(ops, db))))
    {
      PlannedBlockLands(ops, q, db, final, s, b, blocks[b]);
    }
  }

  /** A plain star's expansion resolves exactly when every binding's table kept its names. */
  lemma PlannedStarResolves(ops: seq<Operation>, q: Query, db: Db, final: Db, s: Scope, i: nat)
    requires Fresh(ops, q, db, final) && IsPlanned(ops, q, db) && DistinctQualifiers(q.from)
    requires IsLater(ops, q, db, final, s) && i < |q.items| && q.items[i].Star?
    ensures ResolveItems(s, PlannedBlocks(ops, q, db)[i]).Some? <==>
            forall b | 0 <= b < |q.from| :: NamesKept(ops, q, db, final, b)
  {
    PlannedStarBlock(ops, q, db, i);
    var blocks := BindingBlocks(RenamedQuery(ops, q).from, ActiveSchema(SchemaOf(db), ops).value, Additions(ops));
    StarBlocksLand(ops, q, db, final, s, blocks);
    JoinedNeedsAll(s, blocks);
  }

  /** And then it stands for the columns' places. */
  lemma PlannedStar(ops: seq<Operation>, q: Query, db: Db, final: Db, s': Scope, i: nat)
    requires Fresh(ops, q, db, final) && IsPlanned(ops, q, db) && DistinctQualifiers(q.from)
    requires IsLater(ops, q, db, final, s') && i < |q.items| && q.items[i].Star?
    requires ResolveItems(s', PlannedBlocks(ops, q, db)[i]).Some?
    ensures BlockLands(ScopeOf(q.from, db), s', q.items[i], PlannedBlocks(ops, q, db)[i],
                       BindingMoves(TablesOf(q.from, db), PlacesAfter(ops, db)))
  {
    PlannedStarBlock(ops, q, db, i);
    ItemResolved(q, db, i);
    var blocks := BindingBlocks(RenamedQuery(ops, q).from, ActiveSchema(SchemaOf(db), ops).value, Additions(ops));
    StarBlocksLand(ops, q, db, final, s', blocks);
    StarOfBlocks(ScopeOf(q.from, db), s', blocks, PlannedBlocks(ops, q, db)[i],
                 BindingMoves(TablesOf(q.from, db), PlacesAfter(ops, db)));
  }

  lemma {:induction false} JoinedNeedsAll(s: Scope, blocks: seq<seq<Item>>)
    requires ScopeOk(s)
    ensures ResolveItems(s, Joined(blocks)).Some? <==> forall b | 0 <= b < |blocks| :: ResolveItems(s, blocks[b]).Some?
  {
    if blocks != [] {
      var k := |blocks| - 1;
      JoinedNeedsAll(s, blocks[..k]);
      assert forall b | 0 <= b < k :: blocks[..k][b] == blocks[b];
      var init := Joined(blocks[..k]);
      if ResolveItems(s, init).Some? && ResolveItems(s, blocks[k]).Some? {
        JoinResolved(s, init, blocks[k], ResolveItems(s, init).value, ResolveItems(s, blocks[k]).value);
      } else {
        JoinNeedsBoth(s, init, blocks[k]);
      }
    }
  }

  lemma StarOfBlocks(s: Scope, s': Scope, blocks: seq<seq<Item>>, block: seq<Item>, f: Moves)
    requires ScopeOk(s) && ScopeOk(s') && |blocks| == |s.columns| && block == Joined(blocks)
    requires forall b | 0 <= b < |blocks| ::
      ResolveItems(s', blocks[b]).Some? ==> ResolveItems(s', blocks[b]) == Some(MoveExprs(AllColumns(s, b), f))
    requires ResolveItem(s, Star).Some? && ResolveItems(s', block).Some?
    ensures BlockLands(s, s', Star, block, f)
  {
    assert blocks[..|blocks|] == blocks;
    JoinedBindings(s, s', blocks, f, |blocks|);
  }

  /** What is renamed to a name that the diff does not introduce was not renamed. */
  lemma RenamedToSource(ops: seq<Operation>, x: string, name: string)
    requires Unchained(ops) && NotNew(ops, name) && Fold(Renaming(Mappings(ops), x)) == Fold(name)
    ensures Renaming(Mappings(ops), x) == x
  {
    var i := RenamingOrigin(ops, x);
  }

  /** The dictionary entry of a renamed qualifier is of the table that the qualifier meant. */
  lemma PlannedDictionary(ops: seq<Operation>, q: Query, db: Db, final: Db, x: string, b: nat)
    requires Fresh(ops, q, db, final) && IsPlanned(ops, q, db)
    requires DistinctQualifiers(q.from) && QualifiersClear(q.from, db) && b < |q.from| && Fold(Qualifier(q.from[b])) == Fold(x)
    requires TablesKnown(RenamedQuery(ops, q).from, TableNames(db))
    requires ByQualifier(RenamedQuery(ops, q).from, TableNames(db), Renaming(Mappings(ops), x)).Some?
    ensures DictionaryTable(RenamedQuery(ops, q).from, TableNames(db), Renaming(Mappings(ops), x)) == TableOf(q.from, db, b)
  {
    var from, y := RenamedQuery(ops, q).from, Renaming(Mappings(ops), x);
    SourceIsOld(ops, q, db);
    NotNewFold(ops, Qualifier(q.from[b]), x);
    var k := ByQualifier(from, TableNames(db), y).value;
    DictionaryEntry(from, TableNames(db), y);
    PlannedTables(ops, q, db, final, k);
    var t := TableOf(q.from, db, k);
    if Fold(Qualifier(from[k])) == Fold(y) {
      RenamingKeepsApart(ops, Qualifier(q.from[k]), x);
    } else {
      RenamedToSource(ops, x, db[t].name);
    }
    ClearBindings(q.from, db, x, k, b);
  }

  /** What a qualified star was expanded to. */
  lemma PlannedQualifiedBlock(ops: seq<Operation>, q: Query, db: Db, final: Db, i: nat, b: nat)
    requires Fresh(ops, q, db, final) && IsPlanned(ops, q, db) && DistinctQualifiers(q.from) && QualifiersClear(q.from, db)
    requires i < |q.items| && q.items[i].QualifiedStar?
    requires b < |q.from| && Fold(Qualifier(q.from[b])) == Fold(q.items[i].qualifier)
    ensures PlannedBlocks(ops, q, db)[i] ==
            Outputs(ColumnNames(db[TableOf(q.from, db, b)]), Some(Renaming(Mappings(ops), q.items[i].qualifier)))
  {
    PlannedKnows(ops, q, db);
    assert RenamedQuery(ops, q).items[i] == QualifiedStar(Renaming(Mappings(ops), q.items[i].qualifier));
    PlannedDictionary(ops, q, db, final, q.items[i].qualifier, b);
    PlannedColumns(ops, q, db, final, TableOf(q.from, db, b));
  }

  lemma PlannedQualifiedStar(ops: seq<Operation>, q: Query, db: Db, final: Db, s': Scope, i: nat, b: nat)
    requires Fresh(ops, q, db, final) && IsPlanned(ops, q, db) && DistinctQualifiers(q.from) && QualifiersClear(q.from, db)
    requires IsLater(ops, q, db, final, s') && i < |q.items| && q.items[i].QualifiedStar?
    requires b < |q.from| && Fold(Qualifier(q.from[b])) == Fold(q.items[i].qualifier)
    ensures ResolveItems(s', PlannedBlocks(ops, q, db)[i]).Some? <==> NamesKept(ops, q, db, final, b)
    ensures ResolveItems(s', PlannedBlocks(ops, q, db)[i]).Some? ==>
              BlockLands(ScopeOf(q.from, db), s', q.items[i], PlannedBlocks(ops, q, db)[i],
                         BindingMoves(TablesOf(q.from, db), PlacesAfter(ops, db)))
  {
    var x := q.items[i].qualifier;
    PlannedQualifiedBlock(ops, q, db, final, i, b);
    RenamingFolds(Mappings(ops), x, Qualifier(q.from[b]));
    PlannedBinding(ops, q, db, final, s', b, Some(Renaming(Mappings(ops), x)));
    QualifiedStarColumns(q.from, ScopeOf(q.from, db), x, b);
  }

  lemma QualifiedStarColumns(from: seq<Binding>, s: Scope, x: string, b: nat)
    requires ScopeOk(s) && |s.columns| == |from| && b < |from| && DistinctQualifiers(from)
    requires forall i | 0 <= i < |from| :: s.qualifiers[i] == Qualifier(from[i])
    requires QualifierFits(s, Some(x), b)
    ensures ResolveItem(s, QualifiedStar(x)) == Some(AllColumns(s, b))
  {
    StarIsOneBinding(s, from, x, b, |from|);
  }

  // ---------------------------------------------------------------------------------
  // Nothing strays

  /** An expanded star has qualifiers that tell its bindings apart; another one has columns that stay. */
  ghost predicate StarsSteady(ops: seq<Operation>, q: Query, db: Db, final: Db)
    requires ValidDb(db) && MaterializeAll(ops, db) == Some(final) && TablesExist(q.from, db)
  {
    if IsPlanned(ops, q, db) then DistinctQualifiers(q.from) && QualifiersClear(q.from, db)
    else NoStars(q) || ColumnsStay(ops, db, final)
  }

  lemma FreshBlock(ops: seq<Operation>, q: Query, db: Db, final: Db, i: nat)
    requires Fresh(ops, q, db, final) && StarsSteady(ops, q, db, final) && i < |q.items| && !q.items[i].Output?
    requires ResolveItems(LaterScope(q, RepairPieces(ops, q, db), db, final), RepairPieces(ops, q, db).blocks[i]).Some?
    ensures BlockLands(ScopeOf(q.from, db), LaterScope(q, RepairPieces(ops, q, db), db, final), q.items[i],
                       RepairPieces(ops, q, db).blocks[i], BindingMoves(TablesOf(q.from, db), PlacesAfter(ops, db)))
  {
    var s' := LaterScope(q, RepairPieces(ops, q, db), db, final);
    LaterIsLater(ops, q, db, final);
    if !IsPlanned(ops, q, db) {
      FreshStar(ops, q, db, final, i);
    } else if q.items[i].Star? {
      PlannedStar(ops, q, db, final, s', i);
    } else {
      var b := StarBinding(q, db, i);
      PlannedQualifiedStar(ops, q, db, final, s', i, b);
    }
  }

  /** A qualified star that resolved has a binding. */
  lemma StarBinding(q: Query, db: Db, i: nat) returns (b: nat)
    requires Resolve(q, db).Some? && i < |q.items| && q.items[i].QualifiedStar?
    ensures b < |q.from| && Fold(Qualifier(q.from[b])) == Fold(q.items[i].qualifier)
  {
    ItemResolved(q, db, i);
    b :| QualifierFits(ScopeOf(q.from, db), Some(q.items[i].qualifier), b);
  }

  lemma FreshNoneAstray(ops: seq<Operation>, q: Query, db: Db, final: Db)
    requires Fresh(ops, q, db, final) && StarsSteady(ops, q, db, final) && Repairable(ops, q, db, final)
    ensures NoneAstray(q, RepairPieces(ops, q, db), db, final, PlacesAfter(ops, db))
  {
    var to, f := RepairPieces(ops, q, db), BindingMoves(TablesOf(q.from, db), PlacesAfter(ops, db));
    RepairInPieces(ops, q, db);
    forall b | 0 <= b < |q.from| && Find(TableNames(final), to.from[b].table).Some?
      ensures TableLands(q, to, db, final, b)
    {
      FreshBinding(ops, q, db, final, b);
    }
    if TablesExist(to.from, final) {
      assert TablesLand(q, to, db, final);
      LaterScopeIsScope(q, to, db, final);
      var s, s' := ScopeOf(q.from, db), LaterScope(q, to, db, final);
      forall r | r in QueryRefs(q) && ResolveRef(s', to.ref(r)).Some?
        ensures RefLands(s, s', r, to.ref(r), f)
      {
        FreshRef(ops, q, db, final, r);
      }
      forall i | 0 <= i < |q.items| && !q.items[i].Output? && ResolveItems(s', to.blocks[i]).Some?
        ensures BlockLands(s, s', q.items[i], to.blocks[i], f)
      {
        FreshBlock(ops, q, db, final, i);
      }
    }
  }

  // ---------------------------------------------------------------------------------
  // The condition, in terms of names

  /** Column `c` of table `t` is found under the name where it stands now. */
  predicate ColumnFound(ops: seq<Operation>, db: Db, final: Db, t: nat, c: nat, name: string)
    requires ValidDb(db) && MaterializeAll(ops, db) == Some(final) && t < |db|
  {
    Find(ColumnNames(final[t]), name) == Some(PlaceAfter(ops, db, t, c))
  }

  /** The renamed name of the reference is that of its column. */
  ghost predicate RefRenamed(ops: seq<Operation>, q: Query, db: Db, final: Db, r: Ref)
    requires ValidDb(db) && MaterializeAll(ops, db) == Some(final) && TablesExist(q.from, db)
  {
    var p := ResolveRef(ScopeOf(q.from, db), r);
    p.Some? && ColumnFound(ops, db, final, TableOf(q.from, db, p.value.0), p.value.1, Renaming(Mappings(ops), r.name))
  }

  lemma FreshMeetsOne(ops: seq<Operation>, q: Query, db: Db, final: Db, r: Ref)
    requires Fresh(ops, q, db, final) && r in QueryRefs(q)
    ensures var to := RepairPieces(ops, q, db);
            MeetsOne(ScopeOf(q.from, db), LaterScope(q, to, db, final), r, to.ref(r))
  {
    var to := RepairPieces(ops, q, db);
    var s, s' := ScopeOf(q.from, db), LaterScope(q, to, db, final);
    RefResolves(q, db, r);
    SourceIsOld(ops, q, db);
    var (b0, c0) := ResolveRef(s, r).value;
    NotNewFold(ops, db[TableOf(q.from, db, b0)].columns[c0].name, r.name);
    forall b: nat | Offers(s', to.ref(r), b)
      ensures b == b0
    {
      FreshFits(ops, q, db, final, r.qualifier, b);
      var t := TableOf(q.from, db, b);
      var k := Find(ColumnNames(final[t]), Renaming(Mappings(ops), r.name)).value;
      var c := FreshColumn(ops, db, final, t, k, r.name);
      FindAt(ColumnNames(db[t]), r.name, c);
      assert Offers(s, r, b);
    }
  }

  lemma FreshRefFound(ops: seq<Operation>, q: Query, db: Db, final: Db, r: Ref)
    requires Fresh(ops, q, db, final) && r in QueryRefs(q)
    ensures RefFound(ops, q, db, final, r) <==> RefRenamed(ops, q, db, final, r)
  {
    FreshMeetsOne(ops, q, db, final, r);
  }

  /** The item's wildcard covers the binding. */
  predicate CoversBinding(item: Item, from: seq<Binding>, b: nat)
    requires b < |from|
  {
    item.Star? || (item.QualifiedStar? && Fold(Qualifier(from[b])) == Fold(item.qualifier))
  }

  /** No column under an expanded wildcard has lost its name. */
  predicate StarsKeepNames(ops: seq<Operation>, q: Query, db: Db, final: Db)
    requires ValidDb(db) && MaterializeAll(ops, db) == Some(final) && TablesExist(q.from, db)
  {
    IsPlanned(ops, q, db) ==>
      forall i | 0 <= i < |q.items| && !q.items[i].Output? :: CoveredKeep(ops, q, db, final, q.items[i])
  }

  predicate CoveredKeep(ops: seq<Operation>, q: Query, db: Db, final: Db, item: Item)
    requires ValidDb(db) && MaterializeAll(ops, db) == Some(final) && TablesExist(q.from, db)
  {
    forall b | 0 <= b < |q.from| && CoversBinding(item, q.from, b) :: NamesKept(ops, q, db, final, b)
  }

  lemma PlannedStarExactly(ops: seq<Operation>, q: Query, db: Db, final: Db, s': Scope, i: nat)
    requires Fresh(ops, q, db, final) && IsPlanned(ops, q, db) && DistinctQualifiers(q.from) && QualifiersClear(q.from, db)
    requires IsLater(ops, q, db, final, s') && i < |q.items| && !q.items[i].Output?
    ensures ResolveItems(s', PlannedBlocks(ops, q, db)[i]).Some? <==>
            CoveredKeep(ops, q, db, final, q.items[i])
  {
    if q.items[i].Star? {
      PlannedStarResolves(ops, q, db, final, s', i);
    } else {
      var b := StarBinding(q, db, i);
      PlannedQualifiedStar(ops, q, db, final, s', i, b);
      OneCovered(ops, q, db, final, q.items[i], b);
    }
  }

  lemma OneCovered(ops: seq<Operation>, q: Query, db: Db, final: Db, item: Item, b: nat)
    requires ValidDb(db) && MaterializeAll(ops, db) == Some(final) && TablesExist(q.from, db)
    requires DistinctQualifiers(q.from) && b < |q.from|
    requires item.QualifiedStar? && Fold(Qualifier(q.from[b])) == Fold(item.qualifier)
    ensures CoveredKeep(ops, q, db, final, item) <==> NamesKept(ops, q, db, final, b)
  {
    assert CoversBinding(item, q.from, b);
    if NamesKept(ops, q, db, final, b) {
      forall k | 0 <= k < |q.from| && CoversBinding(item, q.from, k)
        ensures NamesKept(ops, q, db, final, k)
      {
        SameBinding(q.from, item, b, k);
      }
    }
  }

  lemma SameBinding(from: seq<Binding>, item: Item, b: nat, k: nat)
    requires DistinctQualifiers(from) && b < |from| && k < |from| && item.QualifiedStar?
    requires CoversBinding(item, from, b) && CoversBinding(item, from, k)
    ensures k == b
  {
  }

  lemma PlanResolvesExactly(ops: seq<Operation>, q: Query, db: Db, final: Db)
    requires Fresh(ops, q, db, final) && StarsSteady(ops, q, db, final)
    ensures PlanResolves(ops, q, db, final) <==> StarsKeepNames(ops, q, db, final)
  {
    if IsPlanned(ops, q, db) {
      var s' := LaterScope(q, RepairPieces(ops, q, db), db, final);
      LaterIsLater(ops, q, db, final);
      forall i | 0 <= i < |q.items| && !q.items[i].Output?
        ensures AllResolve(s', PlannedBlocks(ops, q, db)[i]) <==> CoveredKeep(ops, q, db, final, q.items[i])
      {
        EachItemResolves(s', PlannedBlocks(ops, q, db)[i]);
        PlannedStarExactly(ops, q, db, final, s', i);
      }
    }
  }

  /**
   For every diff whose new names are new, in any order: the repaired query returns on the migrated database
   what the stale one returned on the original, if and only if every table that it reads is found again under
   its renamed name, every reference's renamed name is that of its column, and no column under an
   expanded wildcard has lost its name.
   */
  lemma FreshRepairExactly(sem: Semantics, ops: seq<Operation>, q: Query, db: Db, final: Db)
    requires Repairable(ops, q, db, final) && FreshDiff(ops, q, db) && StarsSteady(ops, q, db, final)
    ensures Eval(sem, Repaired(ops, q, db).value, final) == Eval(sem, q, db) <==>
            && TablesFollow(ops, q, db, final)
            && (forall r | r in QueryRefs(q) :: RefRenamed(ops, q, db, final, r))
            && StarsKeepNames(ops, q, db, final)
  {
    FreshNoneAstray(ops, q, db, final);
    RepairExactly(sem, ops, q, db, final);
    PlanResolvesExactly(ops, q, db, final);
    forall r | r in QueryRefs(q)
      ensures RefFound(ops, q, db, final, r) <==> RefRenamed(ops, q, db, final, r)
    {
      FreshRefFound(ops, q, db, final, r);
    }
  }
}
