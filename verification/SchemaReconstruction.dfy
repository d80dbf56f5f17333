/** Replaying a diff on the schema alone, against migrating the database and reading its schema. */
module SchemaReconstruction {
  import opened Prelude
  import opened Strings
  import opened SchemaDiffs
  import opened Database

  /** The dictionary that the schema-only replay edits. */
  type Tables = map<string, seq<Column>>

  datatype ReplayError = KeyError | NotImplemented

  /** `find_name` over a set of table names; which of two names that fold alike wins is unspecified. */
  type Finder = (set<string>, string) -> Option<string>

  ghost predicate FindsByFold(find: Finder) {
    forall names, target :: Finds(find(names, target), names, target)
  }

  ghost predicate Finds(r: Option<string>, names: set<string>, target: string) {
    match r
    case Some(k) => k in names && Fold(k) == Fold(target)
    case None => forall k | k in names :: Fold(k) != Fold(target)
  }

  /** `find_name` over a list: a later name replaces an earlier one in the lookup. */
  function FindLast(names: seq<string>, target: string): (r: Option<nat>)
    ensures r.Some? ==> r.value < |names| && Fold(names[r.value]) == Fold(target)
    ensures r.Some? ==> forall i | r.value < i < |names| :: Fold(names[i]) != Fold(target)
    ensures r.None? ==> forall i | 0 <= i < |names| :: Fold(names[i]) != Fold(target)
  {
    if names == [] then None else
    var k := |names| - 1;
    if Fold(names[k]) == Fold(target) then Some(k) else FindLast(names[..k], target)
  }

  /** The schema that reading a table yields: declared types trimmed, TEXT when absent. */
  function ReadType(declared: string): string {
    if Strip(declared) == "" then "TEXT" else Strip(declared)
  }

  function ReadColumns(columns: seq<Column>): (r: seq<Column>)
    ensures |r| == |columns|
    ensures forall i | 0 <= i < |r| :: r[i] == Column(columns[i].name, ReadType(columns[i].declared))
  {
    seq(|columns|, i requires 0 <= i < |columns| => Column(columns[i].name, ReadType(columns[i].declared)))
  }

  // ---------------------------------------------------------------------------------
  // The replay

  function OrElse(declared: string, original: string): string {
    if declared != "" then declared else original
  }

  /** Every column spelled `oldName` renamed, and retyped when a type is declared. */
  function Retyped(columns: seq<Column>, oldName: string, newName: string, declared: string): (r: seq<Column>)
    ensures |r| == |columns|
    ensures forall i | 0 <= i < |r| ::
      (r[i] == if columns[i].name == oldName then Column(newName, OrElse(declared, columns[i].declared)) else columns[i])
  {
    seq(|columns|, i requires 0 <= i < |columns| =>
      if columns[i].name == oldName then Column(newName, OrElse(declared, columns[i].declared)) else columns[i])
  }

  function ReplayColumn(columns: seq<Column>, op: Operation): Option<seq<Column>>
    requires op.AddColumn? || op.RenameColumn? || op.ReplaceColumn?
  {
    if op.AddColumn? then
      Some(if FindLast(ListNames(columns), op.newName).Some? then columns
           else columns + [Column(op.newName, DeclaredOr(op.declaredType, "TEXT"))])
    else
      var p := FindLast(ListNames(columns), op.oldName);
      if p.None? then None
      else Some(Retyped(columns, columns[p.value].name, op.newName, Strip(DeclaredOr(op.declaredType, ""))))
  }

  /** One operation. A table is looked up before an unknown kind is rejected, but an unknown kind has none. */
  function Replay(find: Finder, op: Operation, tables: Tables): Result<Tables, ReplayError>
    requires FindsByFold(find)
  {
    match op
    case MetricChange => Ok(tables)
    case Unsupported(_) => Err(NotImplemented)
    case RenameTable(oldName, newName) =>
      var k := find(tables.Keys, oldName);
      assert Finds(k, tables.Keys, oldName);
      if k.None? then Err(KeyError) else Ok((tables - {k.value})[newName := tables[k.value]])
    case _ =>
      var k := find(tables.Keys, op.table);
      assert Finds(k, tables.Keys, op.table);
      if k.None? then Err(KeyError) else
      var columns := ReplayColumn(tables[k.value], op);
      if columns.None? then Err(KeyError) else Ok(tables[k.value := columns.value])
  }

  /** Some column folds like the name. */
  ghost predicate HasColumn(columns: seq<Column>, name: string) {
    exists c | 0 <= c < |columns| :: Fold(columns[c].name) == Fold(name)
  }

  /**
   When the replay of one operation fails, and how: an unknown kind is not implemented; otherwise a key is missing,
   the table's or the old column's. An addition of a column that is there changes nothing.
   */
  lemma ReplayFailsExactly(find: Finder, op: Operation, tables: Tables)
    requires FindsByFold(find)
    ensures Replay(find, op, tables) == Err(NotImplemented) <==> op.Unsupported?
    ensures op.RenameTable? ==>
              (Replay(find, op, tables) == Err(KeyError) <==> forall k | k in tables :: Fold(k) != Fold(op.oldName))
    ensures op.AddColumn? || op.RenameColumn? || op.ReplaceColumn? ==>
              var k := find(tables.Keys, op.table);
              && Finds(k, tables.Keys, op.table)
              && (Replay(find, op, tables) == Err(KeyError) <==>
                    k.None? || (!op.AddColumn? && !HasColumn(tables[k.value], op.oldName)))
              && (op.AddColumn? && k.Some? && HasColumn(tables[k.value], op.newName) ==>
                    Replay(find, op, tables) == Ok(tables))
  {
    if op.RenameTable? {
      assert Finds(find(tables.Keys, op.oldName), tables.Keys, op.oldName);
    } else if op.AddColumn? || op.RenameColumn? || op.ReplaceColumn? {
      var k := find(tables.Keys, op.table);
      assert Finds(k, tables.Keys, op.table);
      if k.Some? { assert tables[k.value := tables[k.value]] == tables; }
    }
  }

  function ReplayAll(find: Finder, ops: seq<Operation>, tables: Tables): Result<Tables, ReplayError>
    requires FindsByFold(find)
  {
    if ops == [] then Ok(tables) else
    var next := Replay(find, ops[0], tables);
    if next.Err? then next else ReplayAll(find, ops[1..], next.value)
  }

  /** `apply_schema_diff`: the loop that edits the dictionary. */
  method ApplySchemaDiff(find: Finder, schema: Tables, ops: seq<Operation>) returns (r: Result<Tables, ReplayError>)
    requires FindsByFold(find)
    ensures r == ReplayAll(find, ops, schema)
  {
    var tables := schema;
    assert ops[0..] == ops;
    for n := 0 to |ops|
      invariant ReplayAll(find, ops, schema) == ReplayAll(find, ops[n..], tables)
    {
      var op := ops[n];
      assert ops[n..][0] == op && ops[n..][1..] == ops[n + 1..];
      if op.MetricChange? {
        continue;
      }
      if op.Unsupported? {
        return Err(NotImplemented);
      }
      var target := if op.RenameTable? then op.oldName else op.table;
      var k := find(tables.Keys, target);
      assert Finds(k, tables.Keys, target);
      if k.None? {
        return Err(KeyError);
      }
      var columns := tables[k.value];
      if op.RenameTable? {
        tables := (tables - {k.value})[op.newName := columns];
        continue;
      }
      if op.AddColumn? {
        if FindLast(ListNames(columns), op.newName).None? {
          tables := tables[k.value := columns + [Column(op.newName, DeclaredOr(op.declaredType, "TEXT"))]];
        }
        assert tables[k.value := tables[k.value]] == tables;
        continue;
      }
      var p := FindLast(ListNames(columns), op.oldName);
      if p.None? {
        return Err(KeyError);
      }
      var declared := Strip(DeclaredOr(op.declaredType, ""));
      tables := tables[k.value := Retyped(columns, columns[p.value].name, op.newName, declared)];
    }
    return Ok(tables);
  }

  // ---------------------------------------------------------------------------------
  // What it means to describe a database

  ghost predicate Has(columns: seq<Column>, name: string) {
    exists i :: 0 <= i < |columns| && columns[i].name == name
  }

  ghost function TypeOf(columns: seq<Column>, name: string): string
    requires Has(columns, name)
  {
    var i :| 0 <= i < |columns| && columns[i].name == name;
    Fold(columns[i].declared)
  }

  /** A column list as a map from names to folded types. */
  ghost function TypeMap(columns: seq<Column>): (m: map<string, string>)
    requires Unique(ListNames(columns))
    ensures forall k :: k in m <==> Has(columns, k)
    ensures forall i | 0 <= i < |columns| :: columns[i].name in m && m[columns[i].name] == Fold(columns[i].declared)
  {
    KeysUnique(columns);
    assert forall i | 0 <= i < |columns| :: Has(columns, columns[i].name);
    var names := set i | 0 <= i < |columns| :: columns[i].name;
    map k | k in names :: TypeOf(columns, k)
  }

  lemma KeysUnique(columns: seq<Column>)
    requires Unique(ListNames(columns))
    ensures forall i, j | 0 <= i < |columns| && 0 <= j < |columns| && columns[i].name == columns[j].name :: i == j
  {
    var names := ListNames(columns);
    forall i, j | 0 <= i < |columns| && 0 <= j < |columns| && columns[i].name == columns[j].name
      ensures i == j
    {
      assert Fold(names[i]) == Fold(names[j]);
    }
  }

  lemma ReadNames(table: Table)
    ensures ListNames(ReadColumns(table.columns)) == ColumnNames(table)
  {
    var columns := ReadColumns(table.columns);
    var read, names := ListNames(columns), ColumnNames(table);
    assert |read| == |names|;
    forall i | 0 <= i < |read|
      ensures read[i] == names[i]
    {
      assert columns[i].name == table.columns[i].name;
    }
    assert read == names;
  }

  /** What reading a table's schema gives. */
  ghost function SchemaMap(table: Table): map<string, string>
    requires ValidTable(table)
  {
    ReadNames(table);
    TypeMap(ReadColumns(table.columns))
  }

  ghost predicate DescribesTable(columns: seq<Column>, table: Table, ordered: bool)
    requires ValidTable(table)
  {
    && Unique(ListNames(columns))
    && TypeMap(columns) == SchemaMap(table)
    && (ordered ==> ListNames(columns) == ColumnNames(table))
  }

  ghost function NameSet(db: Db): set<string> {
    set t | 0 <= t < |db| :: db[t].name
  }

  /** The dictionary has the database's tables, each with the same columns and folded types. */
  ghost predicate Describes(tables: Tables, db: Db, ordered: bool)
    requires ValidDb(db)
  {
    && tables.Keys == NameSet(db)
    && forall t | 0 <= t < |db| :: db[t].name in tables && DescribesTable(tables[db[t].name], db[t], ordered)
  }

  // ---------------------------------------------------------------------------------
  // Column lists

  /** Renaming and retyping one column changes that one alone. */
  lemma RetypedShape(columns: seq<Column>, p: nat, newName: string, declared: string)
    requires p < |columns| && Unique(ListNames(columns)) && FreshIn(ListNames(columns), newName, p)
    ensures var r := Retyped(columns, columns[p].name, newName, declared);
            && |r| == |columns| && ListNames(r) == ListNames(columns)[p := newName]
            && r[p] == Column(newName, OrElse(declared, columns[p].declared))
            && forall i | 0 <= i < |columns| && i != p :: r[i] == columns[i]
  {
    KeysUnique(columns);
    var r := Retyped(columns, columns[p].name, newName, declared);
    assert forall i | 0 <= i < |columns| :: ListNames(r)[i] == if i == p then newName else ListNames(columns)[i];
  }

  /** Seen as a map. */
  lemma RetypedMap(columns: seq<Column>, p: nat, newName: string, declared: string)
    requires p < |columns| && Unique(ListNames(columns)) && FreshIn(ListNames(columns), newName, p)
    ensures var r := Retyped(columns, columns[p].name, newName, declared);
            && ListNames(r) == ListNames(columns)[p := newName]
            && Unique(ListNames(r))
            && TypeMap(r) == (TypeMap(columns) - {columns[p].name})[newName := Fold(OrElse(declared, columns[p].declared))]
  {
    RetypedShape(columns, p, newName, declared);
    FreshPut(ListNames(columns), p, newName);
    PutMap(columns, Retyped(columns, columns[p].name, newName, declared), p);
  }

  lemma FreshPut(names: seq<string>, p: nat, name: string)
    requires Unique(names) && p < |names| && FreshIn(names, name, p)
    ensures Unique(names[p := name])
  {
  }

  /** A map with exactly the list's entries is the list's map. */
  lemma MapIs(columns: seq<Column>, m: map<string, string>)
    requires Unique(ListNames(columns))
    requires forall i | 0 <= i < |columns| :: columns[i].name in m && m[columns[i].name] == Fold(columns[i].declared)
    requires forall k | k in m :: Has(columns, k)
    ensures TypeMap(columns) == m
  {
    var t := TypeMap(columns);
    forall k | k in m
      ensures k in t && t[k] == m[k]
    {
      var i :| 0 <= i < |columns| && columns[i].name == k;
    }
    assert forall k | k in t :: k in m;
  }

  /** Lists that differ in one place are maps that differ in one entry. */
  lemma PutMap(a: seq<Column>, b: seq<Column>, p: nat)
    requires |a| == |b| && p < |a| && Unique(ListNames(a)) && Unique(ListNames(b))
    requires forall i | 0 <= i < |a| && i != p :: a[i] == b[i]
    ensures TypeMap(b) == (TypeMap(a) - {a[p].name})[b[p].name := Fold(b[p].declared)]
  {
    KeysUnique(a);
    KeysUnique(b);
    var m := (TypeMap(a) - {a[p].name})[b[p].name := Fold(b[p].declared)];
    forall k | k in m
      ensures Has(b, k)
    {
      if k != b[p].name {
        var i :| 0 <= i < |a| && a[i].name == k;
        assert b[i].name == k;
      }
    }
    MapIs(b, m);
  }

  lemma AppendUnique(a: seq<Column>, c: Column)
    requires Unique(ListNames(a)) && FreshIn(ListNames(a), c.name, -1)
    ensures Unique(ListNames(a + [c]))
  {
    ListedSnoc(a, c);
  }

  lemma AppendMap(a: seq<Column>, b: seq<Column>, c: Column)
    requires |b| == |a| + 1 && Unique(ListNames(a)) && Unique(ListNames(b))
    requires b[|a|] == c && forall i | 0 <= i < |a| :: a[i] == b[i]
    ensures TypeMap(b) == TypeMap(a)[c.name := Fold(c.declared)]
  {
    KeysUnique(b);
    var m := TypeMap(a)[c.name := Fold(c.declared)];
    forall k | k in m
      ensures Has(b, k)
    {
      if k == c.name {
        assert b[|a|].name == k;
      } else {
        var i :| 0 <= i < |a| && a[i].name == k;
        assert b[i].name == k;
      }
    }
    MapIs(b, m);
  }

  /** Dropping a column from the list drops its entry. */
  lemma DropMap(a: seq<Column>, b: seq<Column>, p: nat)
    requires p < |a| && |b| == |a| - 1 && Unique(ListNames(a)) && Unique(ListNames(b))
    requires forall i | 0 <= i < |b| :: b[i] == a[if i < p then i else i + 1]
    ensures TypeMap(b) == TypeMap(a) - {a[p].name}
  {
    KeysUnique(a);
    var m := TypeMap(a) - {a[p].name};
    forall k | k in m
      ensures Has(b, k)
    {
      var i :| 0 <= i < |a| && a[i].name == k;
      var j := if i < p then i else i - 1;
      assert b[j] == a[i];
    }
    MapIs(b, m);
  }

  lemma DropUnique(a: seq<Column>, p: nat)
    requires p < |a| && Unique(ListNames(a))
    ensures Unique(ListNames(a[..p] + a[p + 1..]))
  {
    var b := a[..p] + a[p + 1..];
    assert forall i | 0 <= i < |b| :: ListNames(b)[i] == ListNames(a)[if i < p then i else i + 1];
  }

  lemma StripTwice(s: string)
    ensures Strip(Strip(s)) == Strip(s)
  {
    StripPlain(Strip(s));
  }

  lemma FoldKeepsEmpty(a: string, b: string)
    requires Fold(a) == Fold(b)
    ensures a == "" <==> b == ""
  {
    assert |Fold(a)| == |a| && |Fold(b)| == |b|;
  }

  // ---------------------------------------------------------------------------------
  // One table

  /** The type that the replay gives the affected column, and the one that migration gives it. */
  function ReplayedType(op: Operation, declared: string): string
    requires op.AddColumn? || op.RenameColumn? || op.ReplaceColumn?
  {
    if op.AddColumn? then DeclaredOr(op.declaredType, "TEXT")
    else OrElse(Strip(DeclaredOr(op.declaredType, "")), ReadType(declared))
  }

  function MigratedType(op: Operation, declared: string): string
    requires op.AddColumn? || op.RenameColumn? || op.ReplaceColumn?
  {
    if op.AddColumn? then ReadType(DeclaredOr(op.declaredType, "INTEGER"))
    else if op.RenameColumn? then ReadType(declared)
    else ReadType(DeclaredOr(op.declaredType, "TEXT"))
  }

  /** Both readings give the affected column, declared `declared` so far, the same folded type. */
  predicate TypesAgree(op: Operation, declared: string)
    requires op.AddColumn? || op.RenameColumn? || op.ReplaceColumn?
  {
    Fold(ReplayedType(op, declared)) == Fold(MigratedType(op, declared))
  }

  lemma NamesAgree(columns: seq<Column>, table: Table, ordered: bool)
    requires ValidTable(table) && DescribesTable(columns, table, ordered)
    ensures forall i | 0 <= i < |columns| :: Has(table.columns, columns[i].name)
    ensures forall j | 0 <= j < |table.columns| :: Has(columns, table.columns[j].name)
  {
    ReadNames(table);
    var read := ReadColumns(table.columns);
    forall i | 0 <= i < |columns|
      ensures Has(table.columns, columns[i].name)
    {
      assert Has(read, columns[i].name);
      var j :| 0 <= j < |read| && read[j].name == columns[i].name;
      assert table.columns[j].name == columns[i].name;
    }
    forall j | 0 <= j < |table.columns|
      ensures Has(columns, table.columns[j].name)
    {
      assert read[j].name == table.columns[j].name;
      assert read[j].name in TypeMap(read);
    }
  }

  /** Columns of the same name have the same folded type on both sides. */
  lemma TypesMatch(columns: seq<Column>, table: Table, ordered: bool, i: nat, j: nat)
    requires ValidTable(table) && DescribesTable(columns, table, ordered)
    requires i < |columns| && j < |table.columns| && columns[i].name == table.columns[j].name
    ensures Fold(columns[i].declared) == Fold(ReadType(table.columns[j].declared))
  {
    ReadNames(table);
    assert TypeMap(columns)[columns[i].name] == Fold(columns[i].declared);
    var read := ReadColumns(table.columns);
    assert TypeMap(read)[read[j].name] == Fold(read[j].declared);
  }

  /** The replay finds the column that the database finds. */
  lemma LookupAgrees(columns: seq<Column>, table: Table, ordered: bool, target: string, p: nat)
    requires ValidTable(table) && DescribesTable(columns, table, ordered)
    requires Find(ColumnNames(table), target) == Some(p)
    ensures var q := FindLast(ListNames(columns), target);
            && q.Some? && columns[q.value].name == table.columns[p].name
            && (ordered ==> q.value == p)
  {
    NamesAgree(columns, table, ordered);
    var names, name := ListNames(columns), table.columns[p].name;
    assert name == ColumnNames(table)[p];
    assert Has(columns, name);
    var i :| 0 <= i < |columns| && columns[i].name == name;
    assert names[i] == name;
    OnlyMatch(names, target, i);
    if ordered {
      OnlyMatch(names, target, p);
    }
  }

  lemma OnlyMatch(names: seq<string>, target: string, i: nat)
    requires Unique(names) && i < |names| && Fold(names[i]) == Fold(target)
    ensures FindLast(names, target) == Some(i)
  {
    var q := FindLast(names, target);
    assert q.Some?;
    assert Fold(names[q.value]) == Fold(names[i]);
  }

  /** A name that is free in the database is free in the replay. */
  lemma FreshAgrees(columns: seq<Column>, table: Table, ordered: bool, name: string, p: int, q: int)
    requires ValidTable(table) && DescribesTable(columns, table, ordered)
    requires FreshIn(ColumnNames(table), name, p)
    requires 0 <= p < |table.columns| ==> 0 <= q < |columns| && columns[q].name == table.columns[p].name
    ensures FreshIn(ListNames(columns), name, q)
  {
    NamesAgree(columns, table, ordered);
    KeysUnique(columns);
    forall i | 0 <= i < |columns| && i != q
      ensures Fold(columns[i].name) != Fold(name)
    {
      var j :| 0 <= j < |table.columns| && table.columns[j].name == columns[i].name;
      assert ColumnNames(table)[j] == columns[i].name;
    }
  }

  /** Where the replay renames. */
  lemma ReplayTarget(op: Operation, columns: seq<Column>, table: Table, ordered: bool, p: nat) returns (q: nat)
    requires op.RenameColumn? || op.ReplaceColumn?
    requires ValidTable(table) && DescribesTable(columns, table, ordered)
    requires Find(ColumnNames(table), op.oldName) == Some(p) && FreshIn(ColumnNames(table), op.newName, p)
    ensures q < |columns| && columns[q].name == table.columns[p].name && (ordered ==> q == p)
    ensures Fold(columns[q].declared) == Fold(ReadType(table.columns[p].declared))
    ensures FindLast(ListNames(columns), op.oldName) == Some(q) && FreshIn(ListNames(columns), op.newName, q)
  {
    LookupAgrees(columns, table, ordered, op.oldName, p);
    q := FindLast(ListNames(columns), op.oldName).value;
    FreshAgrees(columns, table, ordered, op.newName, p, q);
    TypesMatch(columns, table, ordered, q, p);
  }

  /** The replayed list after a rename or a replacement. */
  lemma ReplayedColumn(op: Operation, columns: seq<Column>, table: Table, ordered: bool, p: nat)
    returns (r: seq<Column>)
    requires op.RenameColumn? || op.ReplaceColumn?
    requires ValidTable(table) && DescribesTable(columns, table, ordered)
    requires Find(ColumnNames(table), op.oldName) == Some(p) && FreshIn(ColumnNames(table), op.newName, p)
    ensures ReplayColumn(columns, op) == Some(r) && Unique(ListNames(r))
    ensures TypeMap(r) ==
            (SchemaMap(table) - {table.columns[p].name})[op.newName := Fold(ReplayedType(op, table.columns[p].declared))]
    ensures ordered ==> ListNames(r) == ColumnNames(table)[p := op.newName]
  {
    var q := ReplayTarget(op, columns, table, ordered, p);
    ReplayedTypeReads(op, table.columns[p].declared, columns[q].declared);
    r := RetypedTarget(op, columns, q, ReplayedType(op, table.columns[p].declared));
  }

  lemma ReplayedTypeReads(op: Operation, declared: string, original: string)
    requires op.RenameColumn? || op.ReplaceColumn?
    requires Fold(original) == Fold(ReadType(declared))
    ensures Fold(ReplayedType(op, declared)) == Fold(OrElse(Strip(DeclaredOr(op.declaredType, "")), original))
  {
  }

  lemma RetypedTarget(op: Operation, columns: seq<Column>, q: nat, replayed: string) returns (r: seq<Column>)
    requires op.RenameColumn? || op.ReplaceColumn?
    requires q < |columns| && Unique(ListNames(columns)) && FreshIn(ListNames(columns), op.newName, q)
    requires FindLast(ListNames(columns), op.oldName) == Some(q)
    requires Fold(replayed) == Fold(OrElse(Strip(DeclaredOr(op.declaredType, "")), columns[q].declared))
    ensures ReplayColumn(columns, op) == Some(r)
    ensures ListNames(r) == ListNames(columns)[q := op.newName] && Unique(ListNames(r))
    ensures TypeMap(r) ==
            (TypeMap(columns) - {columns[q].name})[op.newName := Fold(replayed)]
  {
    var d := Strip(DeclaredOr(op.declaredType, ""));
    r := Retyped(columns, columns[q].name, op.newName, d);
    RetypedMap(columns, q, op.newName, d);
  }

  /** The migrated table after a rename or a replacement. */
  lemma RenamedSchema(table: Table, p: nat, newName: string)
    requires ValidTable(table) && p < |table.columns| && FreshIn(ColumnNames(table), newName, p)
    ensures var r, c := RenameColumnAt(table, p, newName), table.columns[p];
            && ValidTable(r)
            && SchemaMap(r) == (SchemaMap(table) - {c.name})[newName := Fold(ReadType(c.declared))]
  {
    var r := RenameColumnAt(table, p, newName);
    RenamedColumnValid(table, p, newName);
    ReadNames(table);
    ReadNames(r);
    PutMap(ReadColumns(table.columns), ReadColumns(r.columns), p);
  }

  lemma MovedRead(before: seq<Column>, after: seq<Column>, p: nat, c: Column)
    requires p < |before| && |after| == |before| && Unique(ListNames(before)) && Unique(ListNames(after))
    requires forall i | 0 <= i < |before| - 1 :: after[i] == before[if i < p then i else i + 1]
    requires after[|before| - 1] == c
    ensures TypeMap(after) == (TypeMap(before) - {before[p].name})[c.name := Fold(c.declared)]
  {
    var without := before[..p] + before[p + 1..];
    DropUnique(before, p);
    DropMap(before, without, p);
    AppendMap(without, after, c);
  }

  lemma MovedReading(table: Table, p: nat, c: Column, i: nat)
    requires ValidTable(table) && p < |table.columns| && i < |table.columns|
    ensures var r := ReadColumns(MoveColumn(table, p, c).columns);
            && |r| == |table.columns|
            && r[i] == if i < |table.columns| - 1 then ReadColumns(table.columns)[if i < p then i else i + 1]
                       else Column(c.name, ReadType(c.declared))
  {
    var moved := MoveColumn(table, p, c).columns;
    assert moved[i] == if i < |table.columns| - 1 then table.columns[if i < p then i else i + 1] else c;
  }

  lemma MovedSchema(table: Table, p: nat, c: Column)
    requires ValidTable(table) && p < |table.columns| && FreshIn(ColumnNames(table), c.name, -1)
    ensures var r := MoveColumn(table, p, c);
            && ValidTable(r)
            && SchemaMap(r) == (SchemaMap(table) - {table.columns[p].name})[c.name := Fold(ReadType(c.declared))]
  {
    var r := MoveColumn(table, p, c);
    MovedColumnValid(table, p, c);
    ReadNames(table);
    ReadNames(r);
    forall i | 0 <= i < |table.columns| {
      MovedReading(table, p, c, i);
    }
    MovedRead(ReadColumns(table.columns), ReadColumns(r.columns), p, Column(c.name, ReadType(c.declared)));
  }

  lemma AppendedSchema(table: Table, c: Column, v: Value)
    requires ValidTable(table) && FreshIn(ColumnNames(table), c.name, -1)
    ensures var r := AppendColumn(table, c, v);
            && ValidTable(r)
            && SchemaMap(r) == SchemaMap(table)[c.name := Fold(ReadType(c.declared))]
  {
    var r := AppendColumn(table, c, v);
    AppendedColumnValid(table, c, v);
    ReadNames(table);
    ReadNames(r);
    AppendMap(ReadColumns(table.columns), ReadColumns(r.columns), Column(c.name, ReadType(c.declared)));
  }

  lemma PutTwice(m: map<string, string>, name: string, x: string, y: string)
    ensures m[name := x] == m[name := y] <==> x == y
  {
    assert m[name := x][name] == x && m[name := y][name] == y;
  }

  /** A same-type replacement keeps the old spelling of the type; read back, it folds alike. */
  lemma KeptTypeReads(c: Column, declared: string)
    requires KeepsType(c, declared)
    ensures Fold(ReadType(c.declared)) == Fold(ReadType(declared))
  {
    FoldKeepsEmpty(Strip(c.declared), Strip(declared));
  }

  /** The schema of the migrated table. */
  lemma MigratedSchema(op: Operation, table: Table, p: nat, table': Table)
    requires op.RenameColumn? || op.ReplaceColumn?
    requires ValidTable(table) && p < |table.columns|
    requires FreshIn(ColumnNames(table), op.newName, if InPlace(op, table.columns[p]) then p else -1)
    requires table' == if op.RenameColumn? then RenameColumnAt(table, p, op.newName)
                       else ReplaceAt(table, p, op.newName, DeclaredOr(op.declaredType, "TEXT"))
    ensures ValidTable(table')
    ensures SchemaMap(table') ==
            (SchemaMap(table) - {table.columns[p].name})[op.newName := Fold(MigratedType(op, table.columns[p].declared))]
    ensures InPlace(op, table.columns[p]) ==> ColumnNames(table') == ColumnNames(table)[p := op.newName]
  {
    var declared := DeclaredOr(op.declaredType, "TEXT");
    if InPlace(op, table.columns[p]) {
      RenamedSchema(table, p, op.newName);
      RenamedNames(table, p, op.newName);
      if op.ReplaceColumn? { KeptTypeReads(table.columns[p], declared); }
    } else {
      StripTwice(declared);
      MovedSchema(table, p, Column(op.newName, Strip(declared)));
    }
  }

  /** One rename or replacement keeps the description exactly when the types agree. */
  lemma ColumnStep(op: Operation, columns: seq<Column>, table: Table, ordered: bool, p: nat, table': Table)
    returns (r: seq<Column>)
    requires op.RenameColumn? || op.ReplaceColumn?
    requires ValidTable(table) && DescribesTable(columns, table, ordered)
    requires Find(ColumnNames(table), op.oldName) == Some(p)
    requires FreshIn(ColumnNames(table), op.newName, if InPlace(op, table.columns[p]) then p else -1)
    requires table' == if op.RenameColumn? then RenameColumnAt(table, p, op.newName)
                       else ReplaceAt(table, p, op.newName, DeclaredOr(op.declaredType, "TEXT"))
    ensures ReplayColumn(columns, op) == Some(r) && ValidTable(table')
    ensures DescribesTable(r, table', ordered && InPlace(op, table.columns[p])) <==> TypesAgree(op, table.columns[p].declared)
  {
    r := ReplayedColumn(op, columns, table, ordered, p);
    MigratedSchema(op, table, p, table');
    var declared := table.columns[p].declared;
    PutTwice(SchemaMap(table) - {table.columns[p].name}, op.newName,
             Fold(ReplayedType(op, declared)), Fold(MigratedType(op, declared)));
  }

  lemma ReplayedAddition(op: Operation, columns: seq<Column>, table: Table, ordered: bool) returns (r: seq<Column>)
    requires op.AddColumn?
    requires ValidTable(table) && DescribesTable(columns, table, ordered)
    requires FreshIn(ColumnNames(table), op.newName, -1)
    ensures ReplayColumn(columns, op) == Some(r) && Unique(ListNames(r))
    ensures TypeMap(r) == SchemaMap(table)[op.newName := Fold(ReplayedType(op, ""))]
    ensures ListNames(r) == ListNames(columns) + [op.newName]
  {
    FreshAgrees(columns, table, ordered, op.newName, -1, -1);
    r := Extended(columns, Column(op.newName, DeclaredOr(op.declaredType, "TEXT")));
  }

  lemma Extended(columns: seq<Column>, c: Column) returns (r: seq<Column>)
    requires Unique(ListNames(columns)) && FreshIn(ListNames(columns), c.name, -1)
    ensures r == columns + [c] && FindLast(ListNames(columns), c.name).None?
    ensures Unique(ListNames(r)) && TypeMap(r) == TypeMap(columns)[c.name := Fold(c.declared)]
    ensures ListNames(r) == ListNames(columns) + [c.name]
  {
    r := columns + [c];
    ListedSnoc(columns, c);
    AppendUnique(columns, c);
    AppendMap(columns, r, c);
  }

  lemma ListedSnoc(columns: seq<Column>, c: Column)
    ensures ListNames(columns + [c]) == ListNames(columns) + [c.name]
  {
  }

  lemma MigratedAddition(op: Operation, table: Table, v: Value) returns (table': Table)
    requires op.AddColumn?
    requires ValidTable(table) && FreshIn(ColumnNames(table), op.newName, -1)
    ensures table' == AppendColumn(table, Column(op.newName, Strip(DeclaredOr(op.declaredType, "INTEGER"))), v)
    ensures ValidTable(table') && SchemaMap(table') == SchemaMap(table)[op.newName := Fold(MigratedType(op, ""))]
    ensures ColumnNames(table') == ColumnNames(table) + [op.newName]
  {
    var declared := DeclaredOr(op.declaredType, "INTEGER");
    var c := Column(op.newName, Strip(declared));
    table' := AppendColumn(table, c, v);
    StripTwice(declared);
    AppendedSchema(table, c, v);
    AppendedNames(table, c, v);
  }

  /** The same for an added column. */
  lemma AddStep(op: Operation, columns: seq<Column>, table: Table, ordered: bool, v: Value)
    returns (r: seq<Column>, table': Table)
    requires op.AddColumn?
    requires ValidTable(table) && DescribesTable(columns, table, ordered)
    requires FreshIn(ColumnNames(table), op.newName, -1)
    ensures ReplayColumn(columns, op) == Some(r)
    ensures table' == AppendColumn(table, Column(op.newName, Strip(DeclaredOr(op.declaredType, "INTEGER"))), v)
    ensures ValidTable(table') && (DescribesTable(r, table', ordered) <==> TypesAgree(op, ""))
  {
    r := ReplayedAddition(op, columns, table, ordered);
    table' := MigratedAddition(op, table, v);
    PutTwice(SchemaMap(table), op.newName, Fold(ReplayedType(op, "")), Fold(MigratedType(op, "")));
  }

  // ---------------------------------------------------------------------------------
  // The whole database

  lemma SameNameSet(db: Db, db': Db)
    requires |db'| == |db| && forall u | 0 <= u < |db| :: db'[u].name == db[u].name
    ensures NameSet(db') == NameSet(db)
  {
  }

  /** Replacing one table on both sides keeps the description exactly when the new ones match. */
  lemma TablePair(tables: Tables, db: Db, t: nat, ordered: bool, ordered': bool, r: seq<Column>, table': Table)
    requires ValidDb(db) && Describes(tables, db, ordered) && t < |db| && (ordered' ==> ordered)
    requires ValidTable(table') && table'.name == db[t].name
    ensures ValidDb(db[t := table'])
    ensures Describes(tables[db[t].name := r], db[t := table'], ordered') <==> DescribesTable(r, table', ordered')
  {
    var db', tables', name := db[t := table'], tables[db[t].name := r], db[t].name;
    TablePut(db, t, table');
    SameNameSet(db, db');
    assert name in NameSet(db);
    assert tables'.Keys == tables.Keys;
    forall u | 0 <= u < |db| && u != t
      ensures db[u].name != name
    {
      assert Fold(TableNames(db)[u]) != Fold(TableNames(db)[t]);
    }
    assert db'[t] == table' && tables'[name] == r;
  }

  lemma NameFound(db: Db, t: nat, name: string)
    requires ValidDb(db) && t < |db| && name in NameSet(db) && Fold(name) == Fold(db[t].name)
    ensures name == db[t].name
  {
    var u :| 0 <= u < |db| && db[u].name == name;
    assert Fold(TableNames(db)[u]) == Fold(TableNames(db)[t]);
  }

  /** The replay finds the table that the database finds. */
  lemma TableFound(find: Finder, tables: Tables, db: Db, ordered: bool, target: string, t: nat)
    requires FindsByFold(find) && ValidDb(db) && Describes(tables, db, ordered)
    requires Find(TableNames(db), target) == Some(t)
    ensures find(tables.Keys, target) == Some(db[t].name)
  {
    var k := find(tables.Keys, target);
    assert Finds(k, tables.Keys, target);
    assert db[t].name in NameSet(db) && Fold(db[t].name) == Fold(target) by {
      assert TableNames(db)[t] == db[t].name;
    }
    NameFound(db, t, k.value);
  }

  /** The column types on which the two sides must agree. */
  predicate Agrees(op: Operation, db: Db) {
    match op
    case AddColumn(_, _, _, _) => TypesAgree(op, "")
    case RenameColumn(_, _, _, _) => AgreesAt(op, db)
    case ReplaceColumn(_, _, _, _) => AgreesAt(op, db)
    case _ => true
  }

  predicate AgreesAt(op: Operation, db: Db)
    requires op.RenameColumn? || op.ReplaceColumn?
  {
    var t, p := TargetTable(op, db), TargetColumn(op, db);
    t.Some? && p.Some? ==> TypesAgree(op, db[t.value].columns[p.value].declared)
  }

  /** No column moves to the end of its table. */
  predicate KeepsOrder(op: Operation, db: Db) {
    op.ReplaceColumn? ==>
      var t, p := TargetTable(op, db), TargetColumn(op, db);
      (t.Some? && p.Some? ==> InPlace(op, db[t.value].columns[p.value]))
  }

  /** What a successful rename or replacement does to its table. */
  lemma MigratedColumn(op: Operation, db: Db) returns (t: nat, p: nat, table': Table)
    requires op.RenameColumn? || op.ReplaceColumn?
    requires ValidDb(db) && Materialize(op, db).Some?
    ensures TargetTable(op, db) == Some(t) && t < |db| && TargetColumn(op, db) == Some(p) && p < |db[t].columns|
    ensures FreshIn(ColumnNames(db[t]), op.newName, if InPlace(op, db[t].columns[p]) then p else -1)
    ensures table' == if op.RenameColumn? then RenameColumnAt(db[t], p, op.newName)
                      else ReplaceAt(db[t], p, op.newName, DeclaredOr(op.declaredType, "TEXT"))
    ensures table'.name == db[t].name && Materialize(op, db) == Some(db[t := table'])
  {
    t, p := TargetTable(op, db).value, TargetColumn(op, db).value;
    table' := Materialize(op, db).value[t];
  }

  lemma Replayed(find: Finder, op: Operation, tables: Tables, k: string, r: seq<Column>)
    requires op.AddColumn? || op.RenameColumn? || op.ReplaceColumn?
    requires FindsByFold(find) && find(tables.Keys, op.table) == Some(k) && k in tables
    requires ReplayColumn(tables[k], op) == Some(r)
    ensures Replay(find, op, tables) == Ok(tables[k := r])
  {
  }

  lemma ColumnOperationTracks(find: Finder, op: Operation, tables: Tables, db: Db, ordered: bool)
    requires op.RenameColumn? || op.ReplaceColumn?
    requires FindsByFold(find) && ValidDb(db) && Describes(tables, db, ordered) && Materialize(op, db).Some?
    ensures Replay(find, op, tables).Ok? && ValidDb(Materialize(op, db).value)
    ensures Describes(Replay(find, op, tables).value, Materialize(op, db).value, ordered && KeepsOrder(op, db))
            <==> Agrees(op, db)
  {
    var t, p, table' := MigratedColumn(op, db);
    TableFound(find, tables, db, ordered, op.table, t);
    var k := db[t].name;
    assert k in tables && DescribesTable(tables[k], db[t], ordered);
    var r := ColumnStep(op, tables[k], db[t], ordered, p, table');
    Replayed(find, op, tables, k, r);
    TablePair(tables, db, t, ordered, ordered && KeepsOrder(op, db), r, table');
  }

  lemma AdditionTarget(op: Operation, db: Db) returns (t: nat)
    requires op.AddColumn? && ValidDb(db) && Materialize(op, db).Some?
    ensures TargetTable(op, db) == Some(t) && t < |db| && FreshIn(ColumnNames(db[t]), op.newName, -1)
  {
    t := TargetTable(op, db).value;
  }

  lemma AdditionTracks(find: Finder, op: Operation, tables: Tables, db: Db, ordered: bool)
    requires op.AddColumn?
    requires FindsByFold(find) && ValidDb(db) && Describes(tables, db, ordered) && Materialize(op, db).Some?
    ensures Replay(find, op, tables).Ok? && ValidDb(Materialize(op, db).value)
    ensures Describes(Replay(find, op, tables).value, Materialize(op, db).value, ordered) <==> Agrees(op, db)
  {
    var t := AdditionTarget(op, db);
    TableFound(find, tables, db, ordered, op.table, t);
    var k := db[t].name;
    assert k in tables && DescribesTable(tables[k], db[t], ordered);
    AddedAt(find, op, tables, db, ordered, t, k);
  }

  lemma MaterializedAddition(op: Operation, db: Db, t: nat, table': Table)
    requires op.AddColumn? && ValidDb(db)
    requires t < |db| && TargetTable(op, db) == Some(t) && FreshIn(ColumnNames(db[t]), op.newName, -1)
    requires table' == AppendColumn(db[t], Column(op.newName, Strip(DeclaredOr(op.declaredType, "INTEGER"))),
                                    Evaluated(DeclaredOr(op.defaultSql, "0")))
    ensures Materialize(op, db) == Some(db[t := table'])
  {
  }

  lemma AddedAt(find: Finder, op: Operation, tables: Tables, db: Db, ordered: bool, t: nat, k: string)
    requires op.AddColumn? && FindsByFold(find) && ValidDb(db) && Describes(tables, db, ordered)
    requires t < |db| && TargetTable(op, db) == Some(t) && FreshIn(ColumnNames(db[t]), op.newName, -1)
    requires k == db[t].name && k in tables && DescribesTable(tables[k], db[t], ordered)
    requires find(tables.Keys, op.table) == Some(k) && Materialize(op, db).Some?
    ensures Replay(find, op, tables).Ok? && ValidDb(Materialize(op, db).value)
    ensures Describes(Replay(find, op, tables).value, Materialize(op, db).value, ordered) <==> Agrees(op, db)
  {
    var r, table' := AddStep(op, tables[k], db[t], ordered, Evaluated(DeclaredOr(op.defaultSql, "0")));
    MaterializedAddition(op, db, t, table');
    Replayed(find, op, tables, k, r);
    TablePair(tables, db, t, ordered, ordered, r, table');
  }

  lemma RenamedTableSet(db: Db, t: nat, newName: string)
    requires ValidDb(db) && t < |db|
    ensures NameSet(db[t := db[t].(name := newName)]) == NameSet(db) - {db[t].name} + {newName}
  {
    var db' := db[t := db[t].(name := newName)];
    forall u | 0 <= u < |db| && u != t
      ensures db[u].name != db[t].name && db'[u].name == db[u].name
    {
      assert Fold(TableNames(db)[u]) != Fold(TableNames(db)[t]);
    }
    assert db'[t].name == newName;
    forall k | k in NameSet(db) - {db[t].name}
      ensures k in NameSet(db')
    {
      var u :| 0 <= u < |db| && db[u].name == k;
      assert db'[u].name == k;
    }
  }

  lemma TableRenameTracks(find: Finder, op: Operation, tables: Tables, db: Db, ordered: bool)
    requires op.RenameTable?
    requires FindsByFold(find) && ValidDb(db) && Describes(tables, db, ordered) && Materialize(op, db).Some?
    ensures Replay(find, op, tables).Ok? && ValidDb(Materialize(op, db).value)
    ensures Describes(Replay(find, op, tables).value, Materialize(op, db).value, ordered)
  {
    var t := Find(TableNames(db), op.oldName).value;
    TableFound(find, tables, db, ordered, op.oldName, t);
    MaterializeValid(op, db);
    RenamedTableSet(db, t, op.newName);
    var db', tables' := Materialize(op, db).value, Replay(find, op, tables).value;
    forall u | 0 <= u < |db|
      ensures db'[u].name in tables' && DescribesTable(tables'[db'[u].name], db'[u], ordered)
    {
      if u == t {
        RenamedTableDescribed(tables[db[t].name], db[t], ordered, op.newName);
      } else {
        assert Fold(TableNames(db)[u]) != Fold(TableNames(db)[t]);
        assert TableNames(db)[u] == db[u].name != op.newName;
        assert tables'[db[u].name] == tables[db[u].name];
      }
    }
  }

  lemma RenamedTableDescribed(columns: seq<Column>, table: Table, ordered: bool, newName: string)
    requires ValidTable(table) && DescribesTable(columns, table, ordered)
    ensures ValidTable(table.(name := newName)) && DescribesTable(columns, table.(name := newName), ordered)
  {
    assert ColumnNames(table.(name := newName)) == ColumnNames(table);
  }

  /**
   For every operation that migrates: the schema-only replay succeeds, and it still describes the
   database, up to the case of type names, exactly when both sides give the affected column the
   same type. The column order agrees too unless a replacement takes the add-copy-drop path.
   */
  lemma ReplayTracks(find: Finder, op: Operation, tables: Tables, db: Db, ordered: bool)
    requires FindsByFold(find) && ValidDb(db) && Describes(tables, db, ordered) && Materialize(op, db).Some?
    ensures Replay(find, op, tables).Ok? && ValidDb(Materialize(op, db).value)
    ensures Describes(Replay(find, op, tables).value, Materialize(op, db).value, ordered && KeepsOrder(op, db))
            <==> Agrees(op, db)
  {
    match op
    case RenameTable(_, _) => TableRenameTracks(find, op, tables, db, ordered);
    case AddColumn(_, _, _, _) => AdditionTracks(find, op, tables, db, ordered);
    case RenameColumn(_, _, _, _) => ColumnOperationTracks(find, op, tables, db, ordered);
    case ReplaceColumn(_, _, _, _) => ColumnOperationTracks(find, op, tables, db, ordered);
    case _ =>
  }

  /** Every step agrees with the database it meets. */
  predicate AllAgree(ops: seq<Operation>, db: Db)
    requires ValidDb(db)
  {
    ops == [] ||
    (Agrees(ops[0], db) &&
     (Materialize(ops[0], db).Some? ==>
      (MaterializeValid(ops[0], db); AllAgree(ops[1..], Materialize(ops[0], db).value))))
  }

  predicate AllKeepOrder(ops: seq<Operation>, db: Db)
    requires ValidDb(db)
  {
    ops == [] ||
    (KeepsOrder(ops[0], db) &&
     (Materialize(ops[0], db).Some? ==>
      (MaterializeValid(ops[0], db); AllKeepOrder(ops[1..], Materialize(ops[0], db).value))))
  }

  /** For every applicable diff: replaying it on the schema describes the migrated database. */
  lemma {:induction false} ReplayAllTracks(find: Finder, ops: seq<Operation>, tables: Tables, db: Db, ordered: bool)
    requires FindsByFold(find) && ValidDb(db) && Describes(tables, db, ordered)
    requires MaterializeAll(ops, db).Some? && AllAgree(ops, db)
    ensures ReplayAll(find, ops, tables).Ok?
    ensures Describes(ReplayAll(find, ops, tables).value, MaterializeAll(ops, db).value,
                      ordered && AllKeepOrder(ops, db))
  {
    if ops != [] {
      ReplayTracks(find, ops[0], tables, db, ordered);
      MaterializeValid(ops[0], db);
      ReplayAllTracks(find, ops[1..], Replay(find, ops[0], tables).value, Materialize(ops[0], db).value,
                      ordered && KeepsOrder(ops[0], db));
    }
  }

  /** What a diff's author controls: additions and replacements declare a type, renames do not change one. */
  predicate Explicit(op: Operation) {
    match op
    case AddColumn(_, _, declared, _) =>
      declared.Some? && declared.value != "" && Strip(declared.value) == declared.value
    case ReplaceColumn(_, _, _, declared) => declared.Some? && Strip(declared.value) != ""
    case RenameColumn(_, _, _, declared) => declared.None? || Strip(declared.value) == ""
    case _ => true
  }

  lemma ExplicitAgrees(op: Operation, db: Db)
    requires Explicit(op)
    ensures Agrees(op, db)
  {
  }

  lemma {:induction false} AllExplicitAgree(ops: seq<Operation>, db: Db)
    requires ValidDb(db) && forall i | 0 <= i < |ops| :: Explicit(ops[i])
    ensures AllAgree(ops, db)
  {
    if ops != [] {
      ExplicitAgrees(ops[0], db);
      if Materialize(ops[0], db).Some? {
        MaterializeValid(ops[0], db);
        AllExplicitAgree(ops[1..], Materialize(ops[0], db).value);
      }
    }
  }

  /** Diffs with explicit types need no further condition. */
  lemma ExplicitDiffsTrack(find: Finder, ops: seq<Operation>, tables: Tables, db: Db, ordered: bool)
    requires FindsByFold(find) && ValidDb(db) && Describes(tables, db, ordered)
    requires MaterializeAll(ops, db).Some? && forall i | 0 <= i < |ops| :: Explicit(ops[i])
    ensures ReplayAll(find, ops, tables).Ok?
    ensures Describes(ReplayAll(find, ops, tables).value, MaterializeAll(ops, db).value,
                      ordered && AllKeepOrder(ops, db))
  {
    AllExplicitAgree(ops, db);
    ReplayAllTracks(find, ops, tables, db, ordered);
  }

  /** The defaults differ: an added column without a type is TEXT in the replay, INTEGER on disk. */
  lemma DefaultTypesDiffer(table: string, name: string, default: Option<string>, db: Db)
    ensures !Agrees(AddColumn(table, name, None, default), db)
  {
    assert ReadType("INTEGER") == "INTEGER";
    assert Fold("TEXT")[0] == 't' && Fold("INTEGER")[0] == 'i';
  }

  lemma NothingBlank(s: string)
    requires s != "" && !IsSpace(s[0])
    ensures Strip(s) != ""
  {
    TextStartIs(s, 0, 0);
    if TextEnd(s, 0, |s|) == 0 {
      SpacesAfter(s, 0, |s|);
      assert false;
    }
  }

  /** An added column keeps its type exactly when the type is given and trimmed. */
  lemma AddedTypeAgreesExactly(declared: string)
    ensures Fold(declared) == Fold(ReadType(declared)) <==> declared != "" && Strip(declared) == declared
  {
    if Fold(declared) == Fold(ReadType(declared)) {
      assert |declared| == |Fold(declared)| == |ReadType(declared)|;
      if Strip(declared) == "" {
        assert FoldChar(declared[0]) == Fold(declared)[0] == Fold("TEXT")[0] == 't';
        NothingBlank(declared);
      }
    }
  }

  /**
   When the replay types a column as the database does, for every operation and every stored type: an
   addition must declare a trimmed type, a rename must record none or the column's own, and a
   replacement must declare one unless the column is TEXT already.
   */
  lemma TypesAgreeExactly(op: Operation, stored: string)
    requires op.AddColumn? || op.RenameColumn? || op.ReplaceColumn?
    ensures var recorded := Strip(DeclaredOr(op.declaredType, ""));
            TypesAgree(op, stored) <==>
            match op
            case AddColumn(_, _, declared, _) => recorded != "" && recorded == declared.value
            case RenameColumn(_, _, _, _) => recorded == "" || Fold(recorded) == Fold(ReadType(stored))
            case _ => recorded != "" || Fold(ReadType(stored)) == Fold("TEXT")
  {
    StripPlain("");
    StripPlain("TEXT");
    if op.AddColumn? {
      if op.declaredType.Some? {
        AddedTypeAgreesExactly(op.declaredType.value);
      } else {
        DefaultTypesDiffer(op.table, op.newName, op.defaultSql, []);
      }
    }
  }
}
