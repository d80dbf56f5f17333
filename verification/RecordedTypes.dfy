/** Which types a whole diff records, column by column, and when they are the types that the database ends up with. */
module RecordedTypes {
  import opened Prelude
  import opened Strings
  import opened SchemaDiffs
  import opened Database
  import opened SchemaReconstruction

  // ---------------------------------------------------------------------------------
  // One table

  /** A column list in any order, and a reference list in the table's order, with the same names and folded types. */
  ghost predicate Matches(columns: seq<Column>, ref: seq<Column>) {
    Unique(ListNames(columns)) && Unique(ListNames(ref)) && TypeMap(columns) == TypeMap(ref)
  }

  lemma MatchingNames(columns: seq<Column>, ref: seq<Column>)
    requires Matches(columns, ref)
    ensures forall k :: Has(columns, k) <==> Has(ref, k)
  {
    assert forall k :: k in TypeMap(columns) <==> k in TypeMap(ref);
  }

  /** The replay finds the column that stands at `p`, with its recorded type. */
  lemma MatchingLookup(columns: seq<Column>, ref: seq<Column>, target: string, p: nat) returns (q: nat)
    requires Matches(columns, ref) && Find(ListNames(ref), target) == Some(p)
    ensures q < |columns| && FindLast(ListNames(columns), target) == Some(q)
    ensures columns[q].name == ref[p].name && Fold(columns[q].declared) == Fold(ref[p].declared)
  {
    MatchingNames(columns, ref);
    var name := ref[p].name;
    assert ListNames(ref)[p] == name && Has(ref, name);
    var i :| 0 <= i < |columns| && columns[i].name == name;
    assert ListNames(columns)[i] == name;
    OnlyMatch(ListNames(columns), target, i);
    q := i;
    assert TypeMap(columns)[name] == Fold(columns[q].declared) && TypeMap(ref)[name] == Fold(ref[p].declared);
  }

  lemma MatchingFresh(columns: seq<Column>, ref: seq<Column>, name: string, p: int, q: int)
    requires Matches(columns, ref) && FreshIn(ListNames(ref), name, p)
    requires 0 <= p < |ref| ==> 0 <= q < |columns| && columns[q].name == ref[p].name
    ensures FreshIn(ListNames(columns), name, q)
  {
    MatchingNames(columns, ref);
    KeysUnique(columns);
    forall i | 0 <= i < |columns| && i != q
      ensures Fold(columns[i].name) != Fold(name)
    {
      assert Has(columns, columns[i].name);
      var j :| 0 <= j < |ref| && ref[j].name == columns[i].name;
      assert ListNames(ref)[j] == columns[i].name;
    }
  }

  /** The type that a rename or a replacement records, if it records one. */
  function Recorded(op: Operation): string
    requires op.RenameColumn? || op.ReplaceColumn?
  {
    Strip(DeclaredOr(op.declaredType, ""))
  }

  /** The reference list after a rename or a replacement that stays in place, or moves the column to the end. */
  function Put(ref: seq<Column>, p: nat, c: Column, inPlace: bool): seq<Column>
    requires p < |ref|
  {
    if inPlace then ref[p := c] else ref[..p] + ref[p + 1..] + [c]
  }

  function RecordedColumn(op: Operation, c: Column): Column
    requires op.RenameColumn? || op.ReplaceColumn?
  {
    Column(op.newName, OrElse(Recorded(op), c.declared))
  }

  lemma PutNames(ref: seq<Column>, p: nat, c: Column, inPlace: bool)
    requires p < |ref| && Unique(ListNames(ref)) && FreshIn(ListNames(ref), c.name, if inPlace then p else -1)
    ensures var names := ListNames(ref);
            ListNames(Put(ref, p, c, inPlace)) == if inPlace then names[p := c.name] else names[..p] + names[p + 1..] + [c.name]
    ensures Unique(ListNames(Put(ref, p, c, inPlace)))
    ensures TypeMap(Put(ref, p, c, inPlace)) == (TypeMap(ref) - {ref[p].name})[c.name := Fold(c.declared)]
  {
    var names, r := ListNames(ref), Put(ref, p, c, inPlace);
    if inPlace {
      assert ListNames(r) == names[p := c.name];
      FreshPut(names, p, c.name);
      PutMap(ref, r, p);
    } else {
      assert ListNames(r) == names[..p] + names[p + 1..] + [c.name];
      MovedNamesUnique(names, p, c.name);
      MovedRead(ref, r, p, c);
    }
  }

  lemma MovedNamesUnique(names: seq<string>, p: nat, name: string)
    requires Unique(names) && p < |names| && FreshIn(names, name, -1)
    ensures Unique(names[..p] + names[p + 1..] + [name])
  {
    var moved := names[..p] + names[p + 1..] + [name];
    assert forall i | 0 <= i < |names| - 1 :: moved[i] == names[if i < p then i else i + 1];
    assert moved[|names| - 1] == name;
  }

  /** Replaying a rename or a replacement records its type in the column that stands at `p`. */
  lemma ColumnRecorded(op: Operation, columns: seq<Column>, ref: seq<Column>, p: nat, inPlace: bool) returns (r: seq<Column>)
    requires op.RenameColumn? || op.ReplaceColumn?
    requires Matches(columns, ref) && Find(ListNames(ref), op.oldName) == Some(p)
    requires FreshIn(ListNames(ref), op.newName, if inPlace then p else -1)
    ensures ReplayColumn(columns, op) == Some(r) && Matches(r, Put(ref, p, RecordedColumn(op, ref[p]), inPlace))
  {
    var q := MatchingLookup(columns, ref, op.oldName, p);
    MatchingFresh(columns, ref, op.newName, p, q);
    var c := RecordedColumn(op, ref[p]);
    r := RetypedTarget(op, columns, q, c.declared);
    PutNames(ref, p, c, inPlace);
  }

  lemma AdditionRecorded(op: Operation, columns: seq<Column>, ref: seq<Column>) returns (r: seq<Column>)
    requires op.AddColumn? && Matches(columns, ref) && FreshIn(ListNames(ref), op.newName, -1)
    ensures ReplayColumn(columns, op) == Some(r)
    ensures Matches(r, ref + [Column(op.newName, DeclaredOr(op.declaredType, "TEXT"))])
  {
    var c := Column(op.newName, DeclaredOr(op.declaredType, "TEXT"));
    MatchingFresh(columns, ref, op.newName, -1, -1);
    r := Extended(columns, c);
    var also := Extended(ref, c);
  }

  // ---------------------------------------------------------------------------------
  // The whole database

  /** A reference list per table. */
  type Refs = seq<seq<Column>>

  ghost predicate RefsOf(refs: Refs, db: Db) {
    |refs| == |db| && forall t | 0 <= t < |db| :: ListNames(refs[t]) == ColumnNames(db[t])
  }

  /** The dictionary has the tables of the database with the recorded columns. */
  ghost predicate Records(tables: Tables, db: Db, refs: Refs) {
    && RefsOf(refs, db) && tables.Keys == NameSet(db)
    && forall t | 0 <= t < |db| :: db[t].name in tables && Matches(tables[db[t].name], refs[t])
  }

  /** What one operation records, column by column in the order of the database. */
  function Record(op: Operation, db: Db, refs: Refs): Refs
    requires ValidDb(db) && |refs| == |db| && Materialize(op, db).Some?
    requires forall t | 0 <= t < |db| :: |refs[t]| == |db[t].columns|
  {
    match op
    case AddColumn(_, newName, declared, _) =>
      var t := TargetTable(op, db).value;
      refs[t := refs[t] + [Column(newName, DeclaredOr(declared, "TEXT"))]]
    case RenameColumn(_, _, _, _) => RecordAt(op, db, refs)
    case ReplaceColumn(_, _, _, _) => RecordAt(op, db, refs)
    case _ => refs
  }

  function RecordAt(op: Operation, db: Db, refs: Refs): Refs
    requires op.RenameColumn? || op.ReplaceColumn?
    requires ValidDb(db) && |refs| == |db| && Materialize(op, db).Some?
    requires forall t | 0 <= t < |db| :: |refs[t]| == |db[t].columns|
  {
    var t, p := TargetTable(op, db).value, TargetColumn(op, db).value;
    refs[t := Put(refs[t], p, RecordedColumn(op, refs[t][p]), InPlace(op, db[t].columns[p]))]
  }

  lemma TargetFound(find: Finder, tables: Tables, db: Db, target: string, t: nat)
    requires FindsByFold(find) && ValidDb(db) && tables.Keys == NameSet(db) && Find(TableNames(db), target) == Some(t)
    ensures find(tables.Keys, target) == Some(db[t].name)
  {
    var k := find(tables.Keys, target);
    assert Finds(k, tables.Keys, target);
    assert db[t].name in NameSet(db) && Fold(db[t].name) == Fold(target) by {
      assert TableNames(db)[t] == db[t].name;
    }
    NameFound(db, t, k.value);
  }

  /** One table replaced on all three sides. */
  lemma TableRecorded(tables: Tables, db: Db, refs: Refs, t: nat, r: seq<Column>, ref: seq<Column>, table: Table)
    requires ValidDb(db) && Records(tables, db, refs) && t < |db| && table.name == db[t].name
    requires Matches(r, ref) && ListNames(ref) == ColumnNames(table)
    ensures Records(tables[db[t].name := r], db[t := table], refs[t := ref])
  {
    var db', tables', name := db[t := table], tables[db[t].name := r], db[t].name;
    SameNameSet(db, db');
    assert name in NameSet(db);
    assert tables'.Keys == tables.Keys;
    forall u | 0 <= u < |db| && u != t
      ensures db[u].name != name
    {
      assert Fold(TableNames(db)[u]) != Fold(TableNames(db)[t]);
    }
  }

  lemma ColumnStepRecorded(find: Finder, op: Operation, tables: Tables, db: Db, refs: Refs)
    requires op.RenameColumn? || op.ReplaceColumn?
    requires FindsByFold(find) && ValidDb(db) && Records(tables, db, refs) && Materialize(op, db).Some?
    ensures Replay(find, op, tables).Ok?
    ensures Records(Replay(find, op, tables).value, Materialize(op, db).value, RecordAt(op, db, refs))
  {
    var t, p, table' := MigratedColumn(op, db);
    TargetFound(find, tables, db, op.table, t);
    var k, inPlace := db[t].name, InPlace(op, db[t].columns[p]);
    var r := ColumnRecorded(op, tables[k], refs[t], p, inPlace);
    Replayed(find, op, tables, k, r);
    PutNames(refs[t], p, RecordedColumn(op, refs[t][p]), inPlace);
    PutColumnNames(op, db[t], p, table');
    TableRecorded(tables, db, refs, t, r, Put(refs[t], p, RecordedColumn(op, refs[t][p]), inPlace), table');
  }

  /** The names of the migrated table. */
  lemma PutColumnNames(op: Operation, table: Table, p: nat, table': Table)
    requires op.RenameColumn? || op.ReplaceColumn?
    requires ValidTable(table) && p < |table.columns|
    requires table' == if op.RenameColumn? then RenameColumnAt(table, p, op.newName)
                       else ReplaceAt(table, p, op.newName, DeclaredOr(op.declaredType, "TEXT"))
    ensures var names := ColumnNames(table);
            ColumnNames(table') ==
            if InPlace(op, table.columns[p]) then names[p := op.newName] else names[..p] + names[p + 1..] + [op.newName]
  {
  }

  lemma AdditionStepRecorded(find: Finder, op: Operation, tables: Tables, db: Db, refs: Refs)
    requires op.AddColumn?
    requires FindsByFold(find) && ValidDb(db) && Records(tables, db, refs) && Materialize(op, db).Some?
    ensures Replay(find, op, tables).Ok?
    ensures Records(Replay(find, op, tables).value, Materialize(op, db).value, Record(op, db, refs))
  {
    var t := AdditionTarget(op, db);
    TargetFound(find, tables, db, op.table, t);
    var k := db[t].name;
    var r := AdditionRecorded(op, tables[k], refs[t]);
    Replayed(find, op, tables, k, r);
    var column, v := Column(op.newName, Strip(DeclaredOr(op.declaredType, "INTEGER"))), Evaluated(DeclaredOr(op.defaultSql, "0"));
    AppendedNames(db[t], column, v);
    ListedSnoc(refs[t], Column(op.newName, DeclaredOr(op.declaredType, "TEXT")));
    MaterializedAddition(op, db, t, AppendColumn(db[t], column, v));
    TableRecorded(tables, db, refs, t, r, refs[t] + [Column(op.newName, DeclaredOr(op.declaredType, "TEXT"))],
                  AppendColumn(db[t], column, v));
  }

  lemma OtherNames(db: Db, t: nat, newName: string, u: nat)
    requires ValidDb(db) && t < |db| && u < |db| && u != t && FreshIn(TableNames(db), newName, -1)
    ensures db[u].name != db[t].name && db[u].name != newName
  {
    assert Fold(TableNames(db)[u]) != Fold(TableNames(db)[t]);
    assert TableNames(db)[u] == db[u].name;
  }

  lemma RenamedKey(tables: Tables, oldName: string, newName: string, k: string)
    requires oldName in tables && k in tables && k != oldName && k != newName
    ensures var tables' := (tables - {oldName})[newName := tables[oldName]];
            k in tables' && tables'[k] == tables[k]
  {
  }

  lemma RenamedRecords(tables: Tables, db: Db, refs: Refs, t: nat, newName: string)
    requires ValidDb(db) && Records(tables, db, refs) && t < |db| && FreshIn(TableNames(db), newName, -1)
    ensures Records((tables - {db[t].name})[newName := tables[db[t].name]], db[t := db[t].(name := newName)], refs)
  {
    var db', tables' := db[t := db[t].(name := newName)], (tables - {db[t].name})[newName := tables[db[t].name]];
    RenamedTableSet(db, t, newName);
    assert tables'.Keys == tables.Keys - {db[t].name} + {newName};
    forall u | 0 <= u < |db|
      ensures db'[u].name in tables' && tables'[db'[u].name] == tables[db[u].name]
    {
      if u != t {
        OtherNames(db, t, newName, u);
        RenamedKey(tables, db[t].name, newName, db[u].name);
      }
    }
    SameColumnNames(db, t, newName);
    RecordsMoved(tables, db, refs, tables', db');
  }

  lemma RecordsMoved(tables: Tables, db: Db, refs: Refs, tables': Tables, db': Db)
    requires ValidDb(db) && Records(tables, db, refs) && |db'| == |db| && tables'.Keys == NameSet(db')
    requires forall u | 0 <= u < |db| :: ColumnNames(db'[u]) == ColumnNames(db[u])
    requires forall u | 0 <= u < |db| :: db'[u].name in tables' && tables'[db'[u].name] == tables[db[u].name]
    ensures Records(tables', db', refs)
  {
  }

  lemma SameColumnNames(db: Db, t: nat, newName: string)
    requires t < |db|
    ensures forall u | 0 <= u < |db| :: ColumnNames(db[t := db[t].(name := newName)][u]) == ColumnNames(db[u])
  {
  }

  lemma TableRenameRecorded(find: Finder, op: Operation, tables: Tables, db: Db, refs: Refs)
    requires op.RenameTable?
    requires FindsByFold(find) && ValidDb(db) && Records(tables, db, refs) && Materialize(op, db).Some?
    ensures Replay(find, op, tables).Ok?
    ensures Records(Replay(find, op, tables).value, Materialize(op, db).value, refs)
  {
    var t := Find(TableNames(db), op.oldName).value;
    TargetFound(find, tables, db, op.oldName, t);
    RenamedRecords(tables, db, refs, t, op.newName);
  }

  lemma StepRecorded(find: Finder, op: Operation, tables: Tables, db: Db, refs: Refs)
    requires FindsByFold(find) && ValidDb(db) && Records(tables, db, refs) && Materialize(op, db).Some?
    ensures Replay(find, op, tables).Ok?
    ensures forall t | 0 <= t < |db| :: |refs[t]| == |db[t].columns|
    ensures Records(Replay(find, op, tables).value, Materialize(op, db).value, Record(op, db, refs))
  {
    RefWidths(refs, db);
    match op
    case RenameTable(_, _) => TableRenameRecorded(find, op, tables, db, refs);
    case AddColumn(_, _, _, _) => AdditionStepRecorded(find, op, tables, db, refs);
    case RenameColumn(_, _, _, _) => ColumnStepRecorded(find, op, tables, db, refs);
    case ReplaceColumn(_, _, _, _) => ColumnStepRecorded(find, op, tables, db, refs);
    case _ =>
  }

  lemma RefWidths(refs: Refs, db: Db)
    requires RefsOf(refs, db)
    ensures forall t | 0 <= t < |db| :: |refs[t]| == |db[t].columns|
  {
    forall t | 0 <= t < |db|
      ensures |refs[t]| == |db[t].columns|
    {
      assert |ListNames(refs[t])| == |ColumnNames(db[t])|;
    }
  }

  // ---------------------------------------------------------------------------------
  // Whole diffs

  predicate SameWidths(refs: Refs, db: Db) {
    |refs| == |db| && forall t | 0 <= t < |db| :: |refs[t]| == |db[t].columns|
  }

  lemma RecordWidths(op: Operation, db: Db, refs: Refs)
    requires ValidDb(db) && SameWidths(refs, db) && Materialize(op, db).Some?
    ensures SameWidths(Record(op, db, refs), Materialize(op, db).value)
  {
    MaterializeValid(op, db);
    if op.RenameColumn? || op.ReplaceColumn? {
      var t, p, table' := MigratedColumn(op, db);
      PutColumnNames(op, db[t], p, table');
      assert |ColumnNames(table')| == |table'.columns|;
    }
  }

  /** The types that a diff records, from the columns as they are read before it. */
  function RecordAll(ops: seq<Operation>, db: Db, refs: Refs): Refs
    requires ValidDb(db) && SameWidths(refs, db) && MaterializeAll(ops, db).Some?
  {
    if ops == [] then refs else
    MaterializeValid(ops[0], db);
    RecordWidths(ops[0], db, refs);
    RecordAll(ops[1..], Materialize(ops[0], db).value, Record(ops[0], db, refs))
  }

  function ReadAll(db: Db): (r: Refs)
    ensures SameWidths(r, db) && forall t | 0 <= t < |db| :: r[t] == ReadColumns(db[t].columns)
  {
    seq(|db|, t requires 0 <= t < |db| => ReadColumns(db[t].columns))
  }

  /** The replay's dictionary holds exactly what the diff records. */
  lemma {:induction false} ReplayRecords(find: Finder, ops: seq<Operation>, tables: Tables, db: Db, refs: Refs)
    requires FindsByFold(find) && ValidDb(db) && Records(tables, db, refs) && SameWidths(refs, db)
    requires MaterializeAll(ops, db).Some?
    ensures ReplayAll(find, ops, tables).Ok?
    ensures Records(ReplayAll(find, ops, tables).value, MaterializeAll(ops, db).value, RecordAll(ops, db, refs))
  {
    if ops != [] {
      StepRecorded(find, ops[0], tables, db, refs);
      MaterializeValid(ops[0], db);
      RecordWidths(ops[0], db, refs);
      ReplayRecords(find, ops[1..], Replay(find, ops[0], tables).value, Materialize(ops[0], db).value, Record(ops[0], db, refs));
    }
  }

  /** Two lists of the same names have the same map exactly when they have the same folded types. */
  lemma SameMapExactly(a: seq<Column>, b: seq<Column>)
    requires ListNames(a) == ListNames(b) && Unique(ListNames(a))
    ensures TypeMap(a) == TypeMap(b) <==> forall p | 0 <= p < |a| :: Fold(a[p].declared) == Fold(b[p].declared)
  {
    assert |a| == |ListNames(a)| == |b|;
    forall p | 0 <= p < |a|
      ensures a[p].name == b[p].name && TypeMap(a)[a[p].name] == Fold(a[p].declared) && TypeMap(b)[a[p].name] == Fold(b[p].declared)
    {
      assert ListNames(a)[p] == ListNames(b)[p];
    }
    if forall p | 0 <= p < |a| :: Fold(a[p].declared) == Fold(b[p].declared) {
      forall k | k in TypeMap(a)
        ensures Has(b, k)
      {
        var i :| 0 <= i < |a| && a[i].name == k;
        assert b[i].name == k;
      }
      MapIs(b, TypeMap(a));
    }
  }

  lemma DescribedIsRecorded(tables: Tables, db: Db)
    requires ValidDb(db) && Describes(tables, db, false)
    ensures Records(tables, db, ReadAll(db))
  {
    forall t | 0 <= t < |db|
      ensures ListNames(ReadAll(db)[t]) == ColumnNames(db[t]) && Matches(tables[db[t].name], ReadAll(db)[t])
    {
      ReadNames(db[t]);
    }
  }

  /** The types recorded for the columns are those that reading the database gives. */
  predicate TypesRead(refs: Refs, db: Db)
    requires SameWidths(refs, db)
  {
    forall t, p | 0 <= t < |db| && 0 <= p < |db[t].columns| :: Fold(refs[t][p].declared) == Fold(ReadType(db[t].columns[p].declared))
  }

  lemma TableDescribedExactly(columns: seq<Column>, table: Table, ref: seq<Column>)
    requires ValidTable(table) && Matches(columns, ref) && ListNames(ref) == ColumnNames(table)
    ensures |ref| == |table.columns|
    ensures DescribesTable(columns, table, false) <==>
            forall p | 0 <= p < |table.columns| :: Fold(ref[p].declared) == Fold(ReadType(table.columns[p].declared))
  {
    assert |ref| == |ListNames(ref)| == |ColumnNames(table)|;
    ReadNames(table);
    SameMapExactly(ref, ReadColumns(table.columns));
  }

  lemma RecordedDescribesExactly(tables: Tables, db: Db, refs: Refs)
    requires ValidDb(db) && Records(tables, db, refs)
    ensures SameWidths(refs, db) && (Describes(tables, db, false) <==> TypesRead(refs, db))
  {
    RefWidths(refs, db);
    forall t | 0 <= t < |db|
      ensures DescribesTable(tables[db[t].name], db[t], false) <==>
              forall p | 0 <= p < |db[t].columns| :: Fold(refs[t][p].declared) == Fold(ReadType(db[t].columns[p].declared))
    {
      TableDescribedExactly(tables[db[t].name], db[t], refs[t]);
    }
  }

  /**
   For every applicable diff: replaying it on the schema succeeds, and describes the migrated database if and
   only if the types that the diff records, column by column, are those that reading the database gives.
   */
  lemma WholeDiffExactly(find: Finder, ops: seq<Operation>, tables: Tables, db: Db)
    requires FindsByFold(find) && ValidDb(db) && Describes(tables, db, false) && MaterializeAll(ops, db).Some?
    ensures ReplayAll(find, ops, tables).Ok?
    ensures var final, recorded := MaterializeAll(ops, db).value, RecordAll(ops, db, ReadAll(db));
            && SameWidths(recorded, final)
            && (Describes(ReplayAll(find, ops, tables).value, final, false) <==> TypesRead(recorded, final))
  {
    DescribedIsRecorded(tables, db);
    ReplayRecords(find, ops, tables, db, ReadAll(db));
    RecordedDescribesExactly(ReplayAll(find, ops, tables).value, MaterializeAll(ops, db).value, RecordAll(ops, db, ReadAll(db)));
  }

  // ---------------------------------------------------------------------------------
  // A later type repairs

  /** The recorded types are read everywhere but at one column. */
  predicate TypesReadBut(refs: Refs, db: Db, t0: nat, p0: nat)
    requires SameWidths(refs, db)
  {
    forall t, p | 0 <= t < |db| && 0 <= p < |db[t].columns| && (t != t0 || p != p0) ::
      Fold(refs[t][p].declared) == Fold(ReadType(db[t].columns[p].declared))
  }

  /** Column by column: what stands at `i` after a column was put in place or moved to the end. */
  lemma PutAt(ref: seq<Column>, p: nat, c: Column, inPlace: bool, i: nat)
    requires p < |ref| && i < |ref|
    ensures |Put(ref, p, c, inPlace)| == |ref|
    ensures Put(ref, p, c, inPlace)[i] ==
            if inPlace then (if i == p then c else ref[i])
            else if i == |ref| - 1 then c else ref[if i < p then i else i + 1]
  {
  }

  lemma ReplacedTypesRead(table: Table, ref: seq<Column>, p: nat, op: Operation, i: nat)
    requires op.ReplaceColumn? && Recorded(op) != "" && ValidTable(table) && |ref| == |table.columns| && p < |ref| && i < |ref|
    requires forall j | 0 <= j < |ref| && j != p :: Fold(ref[j].declared) == Fold(ReadType(table.columns[j].declared))
    ensures var table' := ReplaceAt(table, p, op.newName, DeclaredOr(op.declaredType, "TEXT"));
            var ref' := Put(ref, p, RecordedColumn(op, ref[p]), InPlace(op, table.columns[p]));
            && |table'.columns| == |ref'| == |ref|
            && Fold(ref'[i].declared) == Fold(ReadType(table'.columns[i].declared))
  {
    var declared := DeclaredOr(op.declaredType, "TEXT");
    var inPlace := InPlace(op, table.columns[p]);
    PutAt(ref, p, RecordedColumn(op, ref[p]), inPlace, i);
    assert Strip("") == "" by { StripPlain(""); }
    assert declared == op.declaredType.value && ReadType(declared) == Recorded(op);
    if inPlace {
      KeptTypeReads(table.columns[p], declared);
    } else {
      StripTwice(declared);
      PutAt(table.columns, p, Column(op.newName, Strip(declared)), false, i);
    }
  }

  /** A replacement that declares a type makes the two sides agree on its column, whatever was recorded for it before. */
  lemma TypedReplacementRepairs(op: Operation, db: Db, refs: Refs)
    requires op.ReplaceColumn? && Recorded(op) != "" && ValidDb(db) && SameWidths(refs, db) && Materialize(op, db).Some?
    requires TypesReadBut(refs, db, TargetTable(op, db).value, TargetColumn(op, db).value)
    ensures SameWidths(Record(op, db, refs), Materialize(op, db).value)
    ensures TypesRead(Record(op, db, refs), Materialize(op, db).value)
  {
    RecordWidths(op, db, refs);
    var t, p, table' := MigratedColumn(op, db);
    forall i | 0 <= i < |refs[t]|
      ensures |table'.columns| == |refs[t]|
      ensures Fold(Record(op, db, refs)[t][i].declared) == Fold(ReadType(table'.columns[i].declared))
    {
      ReplacedTypesRead(db[t], refs[t], p, op, i);
    }
  }
}
