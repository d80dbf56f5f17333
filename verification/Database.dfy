/** Databases and the physical migrations that an audited diff stands for. */
module Database {
  import opened Prelude
  import opened Strings
  import opened SchemaDiffs

  /** A stored value; `Evaluated` is the value of a constant default expression. */
  datatype Value = Null | Integer(i: int) | Text(s: string) | Evaluated(sql: string)

  datatype Column = Column(name: string, declared: string)

  datatype Table = Table(name: string, columns: seq<Column>, rows: seq<seq<Value>>)

  type Db = seq<Table>

  // ---------------------------------------------------------------------------------
  // Case-insensitive names

  /** Position of the first name that folds like `name`. */
  function Find(names: seq<string>, name: string): (r: Option<nat>)
    ensures r.Some? ==> r.value < |names| && Fold(names[r.value]) == Fold(name)
    ensures r.Some? ==> forall i | 0 <= i < r.value :: Fold(names[i]) != Fold(name)
    ensures r.None? ==> forall i | 0 <= i < |names| :: Fold(names[i]) != Fold(name)
  {
    if names == [] then None
    else if Fold(names[0]) == Fold(name) then Some(0)
    else match Find(names[1..], name)
         case None =>
           assert forall i | 1 <= i < |names| :: names[i] == names[1..][i - 1];
           None
         case Some(k) =>
           assert forall i | 1 <= i < k + 1 :: names[i] == names[1..][i - 1];
           Some(k + 1)
  }

  predicate Unique(names: seq<string>) {
    forall i, j | 0 <= i < j < |names| :: Fold(names[i]) != Fold(names[j])
  }

  /** Under unique names the position is determined by the fold alone. */
  lemma FindAt(names: seq<string>, name: string, i: nat)
    requires Unique(names) && i < |names| && Fold(names[i]) == Fold(name)
    ensures Find(names, name) == Some(i)
  {
  }

  function ListNames(columns: seq<Column>): (r: seq<string>)
    ensures |r| == |columns| && forall i | 0 <= i < |r| :: r[i] == columns[i].name
  {
    seq(|columns|, i requires 0 <= i < |columns| => columns[i].name)
  }

  function ColumnNames(t: Table): (r: seq<string>)
    ensures |r| == |t.columns| && forall i | 0 <= i < |r| :: r[i] == t.columns[i].name
  {
    ListNames(t.columns)
  }

  function TableNames(db: Db): (r: seq<string>)
    ensures |r| == |db| && forall i | 0 <= i < |r| :: r[i] == db[i].name
  {
    seq(|db|, i requires 0 <= i < |db| => db[i].name)
  }

  predicate ValidTable(t: Table) {
    && Unique(ColumnNames(t))
    && forall r | 0 <= r < |t.rows| :: |t.rows[r]| == |t.columns|
  }

  predicate ValidDb(db: Db) {
    Unique(TableNames(db)) && forall t | 0 <= t < |db| :: ValidTable(db[t])
  }

  // ---------------------------------------------------------------------------------
  // Physical operations

  /** The name is not taken, except possibly at position `except`. */
  predicate FreshIn(names: seq<string>, name: string, except: int) {
    forall i | 0 <= i < |names| && i != except :: Fold(names[i]) != Fold(name)
  }

  function RenameColumnAt(t: Table, p: nat, newName: string): Table
    requires p < |t.columns|
  {
    t.(columns := t.columns[p := t.columns[p].(name := newName)])
  }

  function Appended(rows: seq<seq<Value>>, v: Value): (r: seq<seq<Value>>)
    ensures |r| == |rows| && forall i | 0 <= i < |rows| :: r[i] == rows[i] + [v]
  {
    seq(|rows|, i requires 0 <= i < |rows| => rows[i] + [v])
  }

  function AppendColumn(t: Table, c: Column, v: Value): Table {
    Table(t.name, t.columns + [c], Appended(t.rows, v))
  }

  /** Add a column, copy the old values into it, drop the old column. */
  function MoveColumn(t: Table, p: nat, c: Column): Table
    requires p < |t.columns| && ValidTable(t)
  {
    Table(t.name,
          t.columns[..p] + t.columns[p + 1..] + [c],
          seq(|t.rows|, i requires 0 <= i < |t.rows| => t.rows[i][..p] + t.rows[i][p + 1..] + [t.rows[i][p]]))
  }

  /** A replacement whose declared type is the column's own is a metadata-only rename. */
  predicate KeepsType(c: Column, declared: string) {
    Fold(Strip(c.declared)) == Fold(Strip(declared))
  }

  function ReplaceAt(t: Table, p: nat, newName: string, declared: string): Table
    requires p < |t.columns| && ValidTable(t)
  {
    if KeepsType(t.columns[p], declared) then RenameColumnAt(t, p, newName)
    else MoveColumn(t, p, Column(newName, Strip(declared)))
  }

  function DeclaredOr(declared: Option<string>, default: string): string {
    if declared.Some? then declared.value else default
  }

  /** Whether the operation leaves every column where it is. */
  predicate InPlace(op: Operation, c: Column) {
    op.RenameColumn? || (op.ReplaceColumn? && KeepsType(c, DeclaredOr(op.declaredType, "TEXT")))
  }

  /** One migration; `None` is a database error. */
  function Materialize(op: Operation, db: Db): Option<Db>
    requires ValidDb(db)
  {
    match op
    case MetricChange => Some(db)
    case Unsupported(_) => None
    case RenameTable(oldName, newName) =>
      var t := Find(TableNames(db), oldName);
      if t.None? || !FreshIn(TableNames(db), newName, -1) then None
      else Some(db[t.value := db[t.value].(name := newName)])
    case AddColumn(table, newName, declared, default) =>
      var t := Find(TableNames(db), table);
      if t.None? || !FreshIn(ColumnNames(db[t.value]), newName, -1) then None
      else
        var c := Column(newName, Strip(DeclaredOr(declared, "INTEGER")));
        Some(db[t.value := AppendColumn(db[t.value], c, Evaluated(DeclaredOr(default, "0")))])
    case RenameColumn(table, oldName, newName, _) =>
      var t := Find(TableNames(db), table);
      if t.None? then None else
      var p := Find(ColumnNames(db[t.value]), oldName);
      if p.None? || !FreshIn(ColumnNames(db[t.value]), newName, p.value) then None
      else Some(db[t.value := RenameColumnAt(db[t.value], p.value, newName)])
    case ReplaceColumn(table, oldName, newName, declared) =>
      var t := Find(TableNames(db), table);
      if t.None? then None else
      var p := Find(ColumnNames(db[t.value]), oldName);
      if p.None? then None else
      var d := DeclaredOr(declared, "TEXT");
      // The rename path may keep the spelling up to case; the add path may not.
      if !FreshIn(ColumnNames(db[t.value]), newName, if KeepsType(db[t.value].columns[p.value], d) then p.value else -1)
      then None
      else Some(db[t.value := ReplaceAt(db[t.value], p.value, newName, d)])
  }

  /** Table `t` has the name, whatever its case. */
  predicate TableNamed(db: Db, t: int, name: string) {
    0 <= t < |db| && Fold(db[t].name) == Fold(name)
  }

  predicate ColumnNamed(db: Db, t: int, c: int, name: string) {
    0 <= t < |db| && 0 <= c < |db[t].columns| && Fold(db[t].columns[c].name) == Fold(name)
  }

  lemma FindTable(db: Db, name: string)
    requires ValidDb(db)
    ensures Find(TableNames(db), name).Some? <==> exists t :: TableNamed(db, t, name)
    ensures forall t :: TableNamed(db, t, name) ==> Find(TableNames(db), name) == Some(t)
  {
    forall t | TableNamed(db, t, name)
      ensures Find(TableNames(db), name) == Some(t)
    {
      FindAt(TableNames(db), name, t);
    }
    if Find(TableNames(db), name).Some? { assert TableNamed(db, Find(TableNames(db), name).value, name); }
  }

  lemma FindColumn(db: Db, t: nat, name: string)
    requires ValidDb(db) && t < |db|
    ensures Find(ColumnNames(db[t]), name).Some? <==> exists c :: ColumnNamed(db, t, c, name)
    ensures forall c :: ColumnNamed(db, t, c, name) ==> Find(ColumnNames(db[t]), name) == Some(c)
  {
    forall c | ColumnNamed(db, t, c, name)
      ensures Find(ColumnNames(db[t]), name) == Some(c)
    {
      FindAt(ColumnNames(db[t]), name, c);
    }
    if Find(ColumnNames(db[t]), name).Some? { assert ColumnNamed(db, t, Find(ColumnNames(db[t]), name).value, name); }
  }

  /**
   When a migration succeeds: a metric change always, an unknown kind never; a table rename when the table is there
   and no table has the new name; an addition when the table is there and has no such column; a column rename or a
   replacement when the column is there and no other has the new name, where a replacement that changes the type
   counts the column itself among the others.
   */
  lemma MaterializesExactly(op: Operation, db: Db)
    requires ValidDb(db)
    ensures Materialize(op, db).Some? <==>
            match op
            case MetricChange => true
            case Unsupported(_) => false
            case RenameTable(oldName, newName) =>
              (exists t :: TableNamed(db, t, oldName)) && !exists t :: TableNamed(db, t, newName)
            case AddColumn(table, newName, _, _) =>
              exists t :: TableNamed(db, t, table) && !exists c :: ColumnNamed(db, t, c, newName)
            case RenameColumn(table, oldName, newName, _) =>
              exists t, p :: TableNamed(db, t, table) && ColumnNamed(db, t, p, oldName) &&
                             !exists c :: c != p && ColumnNamed(db, t, c, newName)
            case ReplaceColumn(table, oldName, newName, declared) =>
              exists t, p :: TableNamed(db, t, table) && ColumnNamed(db, t, p, oldName) &&
                             var keeps := Fold(Strip(db[t].columns[p].declared)) ==
                                          Fold(Strip(if declared.Some? then declared.value else "TEXT"));
                             !exists c :: !(keeps && c == p) && ColumnNamed(db, t, c, newName)
  {
    match op
    case RenameTable(oldName, newName) =>
      FindTable(db, oldName);
      FindTable(db, newName);
    case AddColumn(table, newName, _, _) =>
      FindTable(db, table);
      var t := Find(TableNames(db), table);
      if t.Some? { FindColumn(db, t.value, newName); }
    case RenameColumn(table, oldName, newName, _) =>
      ColumnOperationSucceeds(op, db);
    case ReplaceColumn(table, oldName, newName, _) =>
      ColumnOperationSucceeds(op, db);
    case _ =>
  }

  lemma ColumnOperationSucceeds(op: Operation, db: Db)
    requires ValidDb(db) && (op.RenameColumn? || op.ReplaceColumn?)
    ensures Materialize(op, db).Some? <==>
              exists t, p :: TableNamed(db, t, op.table) && ColumnNamed(db, t, p, op.oldName) &&
                             !exists c :: !(InPlace(op, db[t].columns[p]) && c == p) && ColumnNamed(db, t, c, op.newName)
  {
    FindTable(db, op.table);
    var t := Find(TableNames(db), op.table);
    if t.Some? {
      FindColumn(db, t.value, op.oldName);
      FindColumn(db, t.value, op.newName);
      var p := Find(ColumnNames(db[t.value]), op.oldName);
      if p.Some? {
        assert TableNamed(db, t.value, op.table) && ColumnNamed(db, t.value, p.value, op.oldName);
        var except := if InPlace(op, db[t.value].columns[p.value]) then p.value else -1;
        assert FreshIn(ColumnNames(db[t.value]), op.newName, except) <==>
               !exists c :: c != except && ColumnNamed(db, t.value, c, op.newName);
      }
    }
  }

  /** What an addition puts into the table: a last column of the given or the default type, and its default in every row. */
  lemma AdditionPut(op: Operation, db: Db, t: nat)
    requires ValidDb(db) && op.AddColumn? && Materialize(op, db).Some? && TableNamed(db, t, op.table)
    ensures var r := Materialize(op, db).value;
            var n := |db[t].columns|;
            && |r[t].columns| == n + 1 && |r[t].rows| == |db[t].rows|
            && r[t].columns[n] == Column(op.newName, Strip(if op.declaredType.Some? then op.declaredType.value else "INTEGER"))
            && (forall i | 0 <= i < |db[t].rows| ::
                  r[t].rows[i][..n] == db[t].rows[i] &&
                  r[t].rows[i][n..] == [Evaluated(if op.defaultSql.Some? then op.defaultSql.value else "0")])
            && r[t].columns[..n] == db[t].columns && r[t].name == db[t].name
            && forall u | 0 <= u < |db| && u != t :: r[u] == db[u]
  {
    FindTable(db, op.table);
  }

  function TargetTable(op: Operation, db: Db): Option<nat>
    requires op.RenameColumn? || op.ReplaceColumn? || op.AddColumn?
  {
    Find(TableNames(db), op.table)
  }

  function TargetColumn(op: Operation, db: Db): Option<nat>
    requires op.RenameColumn? || op.ReplaceColumn?
  {
    var t := TargetTable(op, db);
    if t.Some? then Find(ColumnNames(db[t.value]), op.oldName) else None
  }

  lemma RenamedNames(t: Table, p: nat, newName: string)
    requires p < |t.columns|
    ensures ColumnNames(RenameColumnAt(t, p, newName)) == ColumnNames(t)[p := newName]
  {
  }

  lemma AppendedNames(t: Table, c: Column, v: Value)
    ensures ColumnNames(AppendColumn(t, c, v)) == ColumnNames(t) + [c.name]
  {
  }

  lemma RenamedColumnValid(t: Table, p: nat, newName: string)
    requires p < |t.columns| && ValidTable(t) && FreshIn(ColumnNames(t), newName, p)
    ensures ValidTable(RenameColumnAt(t, p, newName))
  {
    var names, names' := ColumnNames(t), ColumnNames(RenameColumnAt(t, p, newName));
    assert forall i | 0 <= i < |names| :: names'[i] == if i == p then newName else names[i];
  }

  lemma MovedColumnValid(t: Table, p: nat, c: Column)
    requires p < |t.columns| && ValidTable(t) && FreshIn(ColumnNames(t), c.name, -1)
    ensures ValidTable(MoveColumn(t, p, c))
  {
    var names, names' := ColumnNames(t), ColumnNames(MoveColumn(t, p, c));
    var n := |t.columns| - 1;
    assert forall i | 0 <= i < n :: names'[i] == names[if i < p then i else i + 1];
    assert names'[n] == c.name;
  }

  lemma AppendedColumnValid(t: Table, c: Column, v: Value)
    requires ValidTable(t) && FreshIn(ColumnNames(t), c.name, -1)
    ensures ValidTable(AppendColumn(t, c, v))
  {
    var names, names' := ColumnNames(t), ColumnNames(AppendColumn(t, c, v));
    assert forall i | 0 <= i < |names'| :: names'[i] == if i < |names| then names[i] else c.name;
  }

  lemma TablePut(db: Db, t: nat, table: Table)
    requires ValidDb(db) && t < |db| && ValidTable(table)
    requires FreshIn(TableNames(db), table.name, t)
    ensures ValidDb(db[t := table])
  {
    var db' := db[t := table];
    assert forall i | 0 <= i < |db| && i != t :: TableNames(db')[i] == TableNames(db)[i];
  }

  /** Migrations keep names unique and rows as wide as their tables. */
  lemma MaterializeValid(op: Operation, db: Db)
    requires ValidDb(db) && Materialize(op, db).Some?
    ensures ValidDb(Materialize(op, db).value) && |Materialize(op, db).value| == |db|
  {
    if !op.MetricChange? && !op.Unsupported? {
      var name := if op.RenameTable? then op.oldName else op.table;
      var t := Find(TableNames(db), name).value;
      if op.ReplaceColumn? || op.RenameColumn? {
        var p := Find(ColumnNames(db[t]), op.oldName).value;
        var declared := DeclaredOr(op.declaredType, "TEXT");
        if op.RenameColumn? || KeepsType(db[t].columns[p], declared) {
          RenamedColumnValid(db[t], p, op.newName);
        } else {
          MovedColumnValid(db[t], p, Column(op.newName, Strip(declared)));
        }
      } else if op.AddColumn? {
        AppendedColumnValid(db[t], Column(op.newName, Strip(DeclaredOr(op.declaredType, "INTEGER"))),
                            Evaluated(DeclaredOr(op.defaultSql, "0")));
      }
      TablePut(db, t, Materialize(op, db).value[t]);
    }
  }

  /** The whole ordered diff. */
  function MaterializeAll(ops: seq<Operation>, db: Db): (r: Option<Db>)
    requires ValidDb(db)
    ensures r.Some? ==> ValidDb(r.value) && |r.value| == |db|
  {
    if ops == [] then Some(db) else
    var next := Materialize(ops[0], db);
    if next.None? then None else
    MaterializeValid(ops[0], db);
    MaterializeAll(ops[1..], next.value)
  }

  /** Materialising two diffs as one is materialising them one after the other. */
  lemma {:induction false} MaterializeConcat(ops1: seq<Operation>, ops2: seq<Operation>, db: Db)
    requires ValidDb(db)
    ensures MaterializeAll(ops1 + ops2, db) ==
            match MaterializeAll(ops1, db) case None => None case Some(mid) => MaterializeAll(ops2, mid)
  {
    if ops1 == [] {
      assert ops1 + ops2 == ops2;
    } else if Materialize(ops1[0], db).Some? {
      MaterializeValid(ops1[0], db);
      assert (ops1 + ops2)[1..] == ops1[1..] + ops2;
      MaterializeConcat(ops1[1..], ops2, Materialize(ops1[0], db).value);
    }
  }

  /** The last operation of a diff runs on the result of the others. */
  lemma MaterializeLast(init: seq<Operation>, op: Operation, db: Db)
    requires ValidDb(db)
    ensures MaterializeAll(init + [op], db) ==
            match MaterializeAll(init, db) case None => None case Some(mid) => Materialize(op, mid)
  {
    MaterializeConcat(init, [op], db);
    assert [op][1..] == [];
  }
}
