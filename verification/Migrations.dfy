/** Ordered diffs: queries that follow them, and the files they are materialised into. */
module Migrations {
  import opened Prelude
  import opened Strings
  import opened SchemaDiffs
  import opened Database
  import opened Queries
  import opened Resolution
  import opened ColumnRewrites
  import opened TableRewrites
  import opened NameReading
  import opened ProjectionContract
  import opened ProjectionMeaning

  // ---------------------------------------------------------------------------------
  // Each operation is a change that the rewrites understand

  function MoveOf(op: Operation, db: Db): nat -> nat
    requires op.RenameColumn? || op.ReplaceColumn?
    requires TargetTable(op, db).Some? && TargetColumn(op, db).Some?
  {
    var t, p := TargetTable(op, db).value, TargetColumn(op, db).value;
    if InPlace(op, db[t].columns[p]) then Stay else ToEnd(p, |db[t].columns|)
  }

  lemma MovedNames(t: Table, p: nat, c: Column)
    requires p < |t.columns| && ValidTable(t)
    ensures ColumnNames(MoveColumn(t, p, c)) == ColumnNames(t)[..p] + ColumnNames(t)[p + 1..] + [c.name]
  {
  }

  lemma MovedCells(db: Db, t: nat, p: nat, c: Column)
    requires t < |db| && ValidTable(db[t]) && p < |db[t].columns|
    ensures var db' := db[t := MoveColumn(db[t], p, c)];
            forall row: nat, k | 0 <= k < |db[t].columns| ::
              Cell(db', t, row, ToEnd(p, |db[t].columns|)(k)) == Cell(db, t, row, k)
  {
    var moved := MoveColumn(db[t], p, c);
    var n := |db[t].columns|;
    forall row: nat, k | row < |db[t].rows| && 0 <= k < n
      ensures moved.rows[row][ToEnd(p, n)(k)] == db[t].rows[row][k]
    {
    }
  }

  lemma InPlaceChange(db: Db, t: nat, p: nat, newName: string)
    requires ValidDb(db) && t < |db| && p < |db[t].columns| && FreshIn(ColumnNames(db[t]), newName, p)
    ensures ColumnChange(db, db[t := RenameColumnAt(db[t], p, newName)], t, p, newName, Stay)
  {
    var db' := db[t := RenameColumnAt(db[t], p, newName)];
    assert TableNames(db') == TableNames(db);
    RenamedNames(db[t], p, newName);
    RenameInPlace(ColumnNames(db[t]), p, newName);
  }

  lemma ToEndChange(db: Db, t: nat, p: nat, c: Column)
    requires ValidDb(db) && t < |db| && p < |db[t].columns| && FreshIn(ColumnNames(db[t]), c.name, -1)
    ensures ColumnChange(db, db[t := MoveColumn(db[t], p, c)], t, p, c.name, ToEnd(p, |db[t].columns|))
  {
    var db' := db[t := MoveColumn(db[t], p, c)];
    assert TableNames(db') == TableNames(db);
    MovedNames(db[t], p, c);
    RenameAtEnd(ColumnNames(db[t]), p, c.name);
    MovedCells(db, t, p, c);
  }

  /** A column rename, or a replacement by either path, is a column change. */
  lemma ColumnOperationChanges(op: Operation, db: Db)
    requires op.RenameColumn? || op.ReplaceColumn?
    requires ValidDb(db) && Materialize(op, db).Some?
    ensures var t, p := TargetTable(op, db).value, TargetColumn(op, db).value;
            ColumnChange(db, Materialize(op, db).value, t, p, op.newName, MoveOf(op, db))
  {
    var t, p := TargetTable(op, db).value, TargetColumn(op, db).value;
    if InPlace(op, db[t].columns[p]) {
      InPlaceChange(db, t, p, op.newName);
    } else {
      ToEndChange(db, t, p, Column(op.newName, Strip(DeclaredOr(op.declaredType, "TEXT"))));
    }
  }

  // ---------------------------------------------------------------------------------
  // One step and the whole chain

  /** The query after one operation, rewritten by the program. */
  function Follow(op: Operation, q: Query, db: Db): Option<Query> {
    match op
    case MetricChange => Some(q)
    case RenameTable(oldName, newName) =>
      var t := Find(TableNames(db), oldName);
      if t.None? then None else RewriteTable(q, db[t.value].name, newName)
    case RenameColumn(_, _, newName, _) =>
      var t, p := TargetTable(op, db), TargetColumn(op, db);
      if t.None? || p.None? then None else Some(RewriteColumn(q, db, t.value, p.value, newName))
    case ReplaceColumn(_, _, newName, _) =>
      var t, p := TargetTable(op, db), TargetColumn(op, db);
      if t.None? || p.None? then None else Some(RewriteColumn(q, db, t.value, p.value, newName))
    case AddColumn(_, _, _, _) =>
      (match PlanFor(q, [op], SchemaOf(db))
       case Ok(plan) => Some(plan.query)
       case Err(NoWildcard) => Some(q)
       case Err(Invalid) => None)
    case Unsupported(_) => None
  }

  /**
   When an operation that migrates can be followed: a table rename when the query reads the table, an addition unless
   the planner gives up, anything else always. Where there is nothing to rewrite the query stays.
   */
  lemma FollowsExactly(op: Operation, q: Query, db: Db)
    requires ValidDb(db) && Materialize(op, db).Some?
    ensures Follow(op, q, db).Some? <==>
              match op
              case RenameTable(oldName, _) => exists b | 0 <= b < |q.from| :: Fold(q.from[b].table) == Fold(oldName)
              case AddColumn(_, _, _, _) => PlanFor(q, [op], SchemaOf(db)) != Err(Invalid)
              case _ => true
    ensures op.MetricChange? || (op.AddColumn? && PlanFor(q, [op], SchemaOf(db)) == Err(NoWildcard)) ==>
              Follow(op, q, db) == Some(q)
  {
    if op.RenameTable? {
      var name := db[Find(TableNames(db), op.oldName).value].name;
      assert Fold(name) == Fold(op.oldName);
      assert forall b | 0 <= b < |q.from| :: Mentions(q.from[b], name) <==> Fold(q.from[b].table) == Fold(op.oldName);
    }
  }

  /** What must hold before the step; each clause can be read off the query and the schema. */
  ghost predicate Ready(op: Operation, q: Query, db: Db)
    requires ValidDb(db)
  {
    && Materialize(op, db).Some? && Follow(op, q, db).Some? && TablesExist(q.from, db)
    && match op
       case MetricChange => true
       case RenameTable(oldName, newName) =>
         NamesClear(q.from, db[Find(TableNames(db), oldName).value].name, newName)
       case RenameColumn(_, _, newName, _) => ReadyColumn(op, q, db)
       case ReplaceColumn(_, _, newName, _) => ReadyColumn(op, q, db)
       case AddColumn(_, _, _, _) => ReadyAddition(op, q, db)
       case Unsupported(_) => false
  }

  ghost predicate ReadyColumn(op: Operation, q: Query, db: Db)
    requires op.RenameColumn? || op.ReplaceColumn?
    requires TargetTable(op, db).Some? && TargetColumn(op, db).Some? && TablesExist(q.from, db)
  {
    var t, p := TargetTable(op, db).value, TargetColumn(op, db).value;
    var c := db[t].columns[p];
    && ((NamesRead(q, db, t, p) && NoNamesake(q, db, t, p, op.newName)) || Fold(c.name) == Fold(op.newName))
    && (NoStars(q) || InPlace(op, c))
  }

  /** The qualifiers tell the bindings apart, and the new name captures no reference. */
  ghost predicate ReadyAddition(op: Operation, q: Query, db: Db)
    requires TablesExist(q.from, db)
  {
    && StarsKnown(q.items, q.from, TableNames(db))
    && DistinctQualifiers(q.from) && StarsAligned(q, db) && NotCaptured(q, [op], db)
  }

  lemma {:induction false} NothingToExpand(items: seq<Item>, from: seq<Binding>, schema: Schema, ops: seq<Operation>)
    requires TablesKnown(from, SchemaNames(schema)) && StarsKnown(items, from, SchemaNames(schema)) && !HasStar(items)
    ensures ExpandItems(items, from, schema, ops) == items
  {
    if items != [] {
      var k := |items| - 1;
      StarsOfPrefix(items, k, from, SchemaNames(schema));
      assert !HasStar(items[..k]) by { assert forall i | 0 <= i < k :: items[..k][i] == items[i]; }
      NothingToExpand(items[..k], from, schema, ops);
      OneMoreItem(items[..k], items, items[k], from, schema, ops);
      assert items == items[..k] + [items[k]];
    }
  }

  /** The query after an addition is the query with its wildcards expanded. */
  lemma FollowedAddition(op: Operation, q: Query, db: Db)
    requires op.AddColumn? && TablesExist(q.from, db) && StarsKnown(q.items, q.from, TableNames(db))
    requires Follow(op, q, db).Some?
    ensures Follow(op, q, db).value == q.(items := ExpandItems(q.items, q.from, SchemaOf(db), [op]))
  {
    if PlanFor(q, [op], SchemaOf(db)).Err? {
      NoWildcardMeans(q, [op], SchemaOf(db));
      NothingToExpand(q.items, q.from, SchemaOf(db), [op]);
    }
  }

  lemma NoWildcardMeans(q: Query, ops: seq<Operation>, schema: Schema)
    requires PlanFor(q, ops, schema) == Err(NoWildcard)
    ensures !HasStar(q.items)
  {
  }

  lemma AdditionStepPreserves(sem: Semantics, op: Operation, q: Query, db: Db)
    requires op.AddColumn? && ValidDb(db) && Resolve(q, db).Some? && Ready(op, q, db)
    ensures Eval(sem, Follow(op, q, db).value, Materialize(op, db).value) == Eval(sem, q, db)
  {
    assert [op][1..] == [];
    assert MaterializeAll([op], db) == Materialize(op, db);
    AdditionsExtend([op], db);
    FollowedAddition(op, q, db);
    UncapturedPlanPreserves(sem, q, [op], db, Materialize(op, db).value);
  }

  /** One migration and its rewrite preserve the result. */
  lemma StepPreserves(sem: Semantics, op: Operation, q: Query, db: Db)
    requires ValidDb(db) && Resolve(q, db).Some? && Ready(op, q, db)
    ensures Eval(sem, Follow(op, q, db).value, Materialize(op, db).value) == Eval(sem, q, db)
  {
    match op
    case RenameTable(oldName, newName) =>
      var t := Find(TableNames(db), oldName).value;
      TableRewritePreserves(sem, q, db, Materialize(op, db).value, t, newName);
    case RenameColumn(_, _, newName, _) => ColumnStepPreserves(sem, op, q, db);
    case ReplaceColumn(_, _, newName, _) => ColumnStepPreserves(sem, op, q, db);
    case AddColumn(_, _, _, _) => AdditionStepPreserves(sem, op, q, db);
    case MetricChange =>
    case Unsupported(_) =>
  }

  lemma ColumnStepPreserves(sem: Semantics, op: Operation, q: Query, db: Db)
    requires op.RenameColumn? || op.ReplaceColumn?
    requires ValidDb(db) && Resolve(q, db).Some? && Ready(op, q, db)
    ensures Eval(sem, Follow(op, q, db).value, Materialize(op, db).value) == Eval(sem, q, db)
  {
    var t, p := TargetTable(op, db).value, TargetColumn(op, db).value;
    ColumnOperationChanges(op, db);
    CodeAgreesExactly(q, db, t, p);
    AgreeingRewritePreserves(sem, q, db, Materialize(op, db).value, t, p, op.newName, MoveOf(op, db));
  }

  /** The query rewritten for every operation in turn, each against the schema it meets. */
  function FollowAll(ops: seq<Operation>, q: Query, db: Db): Option<Query>
    requires ValidDb(db)
  {
    if ops == [] then Some(q) else
    var q', db' := Follow(ops[0], q, db), Materialize(ops[0], db);
    if q'.None? || db'.None? then None else
    MaterializeValid(ops[0], db);
    FollowAll(ops[1..], q'.value, db'.value)
  }

  ghost predicate AllReady(ops: seq<Operation>, q: Query, db: Db)
    requires ValidDb(db)
  {
    ops == [] ||
    (Ready(ops[0], q, db) &&
     (MaterializeValid(ops[0], db);
      AllReady(ops[1..], Follow(ops[0], q, db).value, Materialize(ops[0], db).value)))
  }

  /**
   For every ordered diff: the query carried through all the rewrites returns, on the fully
   migrated database, exactly the rows that the original returned on the original.
   */
  lemma {:induction false} ChainPreserves(sem: Semantics, ops: seq<Operation>, q: Query, db: Db)
    requires ValidDb(db) && Resolve(q, db).Some? && AllReady(ops, q, db)
    ensures MaterializeAll(ops, db).Some? && FollowAll(ops, q, db).Some?
    ensures Eval(sem, FollowAll(ops, q, db).value, MaterializeAll(ops, db).value) == Eval(sem, q, db)
  {
    if ops != [] {
      StepPreserves(sem, ops[0], q, db);
      MaterializeValid(ops[0], db);
      ChainPreserves(sem, ops[1..], Follow(ops[0], q, db).value, Materialize(ops[0], db).value);
    }
  }

  // ---------------------------------------------------------------------------------
  // Files

  datatype Path = Stored(name: string) | Scratch(index: nat)

  datatype FileError = FileExists | DatabaseError

  /** The files that an operation into `target` has no business with. */
  function Others(files: map<Path, Db>, target: Path): map<Path, Db> {
    map p | p in files && p.Stored? && p != target :: files[p]
  }

  /** The database files, and the scratch directory of a running chain. */
  class FileStore {
    var files: map<Path, Db>

    ghost predicate Valid()
      reads this
    {
      forall p | p in files :: ValidDb(files[p])
    }

    constructor (files: map<Path, Db>)
      requires forall p | p in files :: ValidDb(files[p])
      ensures Valid() && this.files == files
    {
      this.files := files;
    }

    /** Copy, then alter the copy; a failing statement leaves the plain copy behind. */
    method MaterializeOperation(source: Path, target: Path, op: Operation) returns (error: Option<FileError>)
      requires Valid() && source in files
      modifies this
      ensures Valid()
      ensures error.None? <==> target !in old(files) && Materialize(op, old(files)[source]).Some?
      ensures error.None? ==> files == old(files)[target := Materialize(op, old(files)[source]).value]
      ensures error.Some? ==>
                files == old(files) || (target !in old(files) && files == old(files)[target := old(files)[source]])
    {
      if op.Unsupported? {
        return Some(DatabaseError);
      }
      if target in files {
        return Some(FileExists);
      }
      files := files[target := files[source]];
      var altered := Materialize(op, files[target]);
      if altered.None? {
        return Some(DatabaseError);
      }
      MaterializeValid(op, files[target]);
      files := files[target := altered.value];
      return None;
    }

    /** Drop the scratch directory. */
    method Cleanup()
      requires Valid()
      modifies this
      ensures Valid() && files == map p | p in old(files) && p.Stored? :: old(files)[p]
    {
      files := map p | p in files && p.Stored? :: files[p];
    }

    /** Run every operation into a scratch copy, the last one into the target. */
    method RunChain(source: Path, target: Path, ops: seq<Operation>) returns (error: Option<FileError>)
      requires Valid() && source in files && source.Stored? && target.Stored? && ops != []
      requires forall p | p in files :: p.Stored?
      modifies this
      ensures Valid() && Others(files, target) == Others(old(files), target)
      ensures error.None? <==> target !in old(files) && MaterializeAll(ops, old(files)[source]).Some?
      ensures error.None? ==> target in files && files[target] == MaterializeAll(ops, old(files)[source]).value
      ensures target in old(files) ==> target in files && files[target] == old(files)[target]
    {
      var current := source;
      ghost var before := files;
      ghost var db := files[source];
      assert ops[0..] == ops;
      for index := 0 to |ops|
        invariant Valid() && ValidDb(db)
        invariant forall p | p in files && p.Scratch? :: p.index < index
        invariant current in files && files[current] == db
        invariant MaterializeAll(ops, before[source]) == MaterializeAll(ops[index..], db)
        invariant Others(files, target) == Others(before, target)
        invariant index < |ops| ==> (target in files <==> target in before)
        invariant target in before ==> target in files && files[target] == before[target]
        invariant index == |ops| ==> current == target && target !in before
      {
        var destination := if index == |ops| - 1 then target else Scratch(index);
        assert ops[index..][0] == ops[index] && ops[index..][1..] == ops[index + 1..];
        error := MaterializeOperation(current, destination, ops[index]);
        if error.Some? {
          return;
        }
        MaterializeValid(ops[index], db);
        db := Materialize(ops[index], db).value;
        current := destination;
      }
      return None;
    }

    /**
     `materialize_schema_diff`: whichever of the three paths is taken, the target receives the
     fold of all operations, and no other file changes.
     */
    method MaterializeSchemaDiff(source: Path, target: Path, ops: seq<Operation>) returns (error: Option<FileError>)
      requires Valid() && source in files && source.Stored? && target.Stored?
      requires forall p | p in files :: p.Stored?
      modifies this
      ensures Valid() && Others(files, target) == Others(old(files), target)
      ensures error.None? <==> target !in old(files) && MaterializeAll(ops, old(files)[source]).Some?
      ensures error.None? ==> target in files && files[target] == MaterializeAll(ops, old(files)[source]).value
      ensures target in old(files) ==> target in files && files[target] == old(files)[target]
      ensures forall p | p in files :: p.Stored?
    {
      if |ops| == 0 {
        if target in files {
          return Some(FileExists);
        }
        files := files[target := files[source]];
        return None;
      }
      if |ops| == 1 {
        error := MaterializeOperation(source, target, ops[0]);
        assert ops[1..] == [];
        return;
      }
      error := RunChain(source, target, ops);
      Cleanup();
    }
  }
}
