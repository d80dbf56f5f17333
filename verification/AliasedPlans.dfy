/**
 Plans whose qualifiers may also be the names of other tables: when the plan is right on every
 database of a schema.
 */
module AliasedPlans {
  import opened Prelude
  import opened Strings
  import opened SchemaDiffs
  import opened Database
  import opened Queries
  import opened Resolution
  import opened ProjectionContract
  import opened ProjectionMeaning
  import opened Blocks

  // ---------------------------------------------------------------------------------
  // Databases of one schema

  ghost predicate SameNames(db: Db, db': Db) {
    && |db'| == |db| && TableNames(db') == TableNames(db)
    && forall t | 0 <= t < |db| :: ColumnNames(db'[t]) == ColumnNames(db[t])
  }

  lemma SchemaIsNames(db: Db, db': Db)
    requires SchemaOf(db') == SchemaOf(db)
    ensures SameNames(db, db')
  {
    assert |db'| == |db|;
    forall t | 0 <= t < |db|
      ensures ColumnNames(db'[t]) == ColumnNames(db[t])
    {
      assert SchemaOf(db')[t].columns == SchemaOf(db)[t].columns;
    }
    assert TableNames(db') == SchemaNames(SchemaOf(db')) == TableNames(db);
  }

  lemma AdditionAlike(op: Operation, db: Db, db': Db)
    requires ValidDb(db) && ValidDb(db') && SameNames(db, db') && op.AddColumn?
    ensures Materialize(op, db').Some? <==> Materialize(op, db).Some?
    ensures Materialize(op, db).Some? ==> SameNames(Materialize(op, db).value, Materialize(op, db').value)
  {
    var t := Find(TableNames(db), op.table);
    if t.Some? {
      assert ColumnNames(db'[t.value]) == ColumnNames(db[t.value]);
      if Materialize(op, db).Some? {
        var c := Column(op.newName, Strip(DeclaredOr(op.declaredType, "INTEGER")));
        var v := Evaluated(DeclaredOr(op.defaultSql, "0"));
        AppendedNames(db[t.value], c, v);
        AppendedNames(db'[t.value], c, v);
        NamesPut(db, db', t.value, AppendColumn(db[t.value], c, v), AppendColumn(db'[t.value], c, v));
      }
    }
  }

  lemma NamesPut(db: Db, db': Db, t: nat, a: Table, b: Table)
    requires SameNames(db, db') && t < |db| && a.name == db[t].name && b.name == db'[t].name
    requires ColumnNames(a) == ColumnNames(b)
    ensures SameNames(db[t := a], db'[t := b])
  {
    assert TableNames(db[t := a]) == TableNames(db) == TableNames(db') == TableNames(db'[t := b]);
  }

  /** Whether the additions apply depends on the names alone. */
  lemma {:induction false} AdditionsAlike(ops: seq<Operation>, db: Db, db': Db)
    requires ValidDb(db) && ValidDb(db') && SameNames(db, db') && OnlyAdditions(ops)
    ensures MaterializeAll(ops, db').Some? <==> MaterializeAll(ops, db).Some?
  {
    if ops != [] {
      AdditionAlike(ops[0], db, db');
      if Materialize(ops[0], db).Some? {
        MaterializeValid(ops[0], db);
        MaterializeValid(ops[0], db');
        AdditionsAlike(ops[1..], Materialize(ops[0], db).value, Materialize(ops[0], db').value);
      }
    }
  }

  lemma ScopesAlike(from: seq<Binding>, db: Db, db': Db)
    requires SameNames(db, db') && TablesExist(from, db)
    ensures TablesExist(from, db') && ScopeOf(from, db') == ScopeOf(from, db) && TablesOf(from, db') == TablesOf(from, db)
  {
    forall b | 0 <= b < |from|
      ensures TableOf(from, db', b) == TableOf(from, db, b)
    {
    }
    assert ScopeOf(from, db').columns == ScopeOf(from, db).columns;
    assert ScopeOf(from, db').qualifiers == ScopeOf(from, db).qualifiers;
    assert TablesOf(from, db') == TablesOf(from, db);
  }

  lemma ResolvesAlike(q: Query, db: Db, db': Db)
    requires SameNames(db, db') && TablesExist(q.from, db)
    ensures Resolve(q, db') == Resolve(q, db)
  {
    ScopesAlike(q.from, db, db');
  }

  // ---------------------------------------------------------------------------------
  // A database of numbered rows

  /** One row per table, its cells numbered. */
  function OneRowEach(db: Db): (r: Db)
    ensures |r| == |db|
    ensures forall t | 0 <= t < |db| :: r[t] == Table(db[t].name, db[t].columns, [Numbered(|db[t].columns|)])
  {
    seq(|db|, t requires 0 <= t < |db| => Table(db[t].name, db[t].columns, [Numbered(|db[t].columns|)]))
  }

  lemma OneRowValid(db: Db)
    requires ValidDb(db)
    ensures ValidDb(OneRowEach(db)) && SchemaOf(OneRowEach(db)) == SchemaOf(db)
  {
    var w := OneRowEach(db);
    assert TableNames(w) == TableNames(db);
    forall t | 0 <= t < |db|
      ensures ColumnNames(w[t]) == ColumnNames(db[t]) && ValidTable(w[t])
    {
      assert ColumnNames(w[t]) == ColumnNames(db[t]);
    }
    assert SchemaOf(w) == SchemaOf(db);
  }

  predicate SingleRows(db: Db) {
    forall t | 0 <= t < |db| :: |db[t].rows| == 1
  }

  function Zeros(n: nat): Tuple {
    seq(n, i requires 0 <= i < n => 0)
  }

  lemma {:induction false} OneTuple(tables: seq<nat>, db: Db)
    requires SingleRows(db) && forall b | 0 <= b < |tables| :: tables[b] < |db|
    ensures Tuples(tables, db) == [Zeros(|tables|)]
  {
    if tables == [] {
      assert Zeros(0) == [];
    } else {
      var k := |tables| - 1;
      OneTuple(tables[..k], db);
      assert RowCount(db, tables[k]) == 1;
      OneExtension(Zeros(k));
      assert Zeros(k) + [0] == Zeros(k + 1);
    }
  }

  lemma OneExtension(tuple: Tuple)
    ensures ExtendAll([tuple], 1) == [tuple + [0]]
  {
    assert [tuple][1..] == [];
    assert Extend(tuple, 1) == [tuple + [0]];
  }

  /** Every row is kept, in any order. */
  function KeepAll(): Semantics {
    Semantics((op, a, b) => Null, v => true, (a, b) => false)
  }

  function Values(es: seq<RExpr>, tables: seq<nat>, db: Db): (r: seq<Value>)
    ensures |r| == |es|
    ensures forall i | 0 <= i < |es| :: r[i] == EvalExpr(KeepAll(), es[i], tables, db, Zeros(|tables|))
  {
    EvalExprs(KeepAll(), es, tables, db, Zeros(|tables|))
  }

  lemma ValuesConcat(a: seq<RExpr>, b: seq<RExpr>, tables: seq<nat>, db: Db)
    ensures Values(a + b, tables, db) == Values(a, tables, db) + Values(b, tables, db)
  {
  }

  lemma OneRecord(sem: Semantics, record: Record, limit: Option<nat>)
    requires record.keep && limit != Some(0)
    ensures Finish(sem, [record], limit) == [record.out]
  {
    assert [record][..0] == [];
    assert Arrange(sem, [record]) == [record];
  }

  lemma OneResult(rq: RQuery, db: Db)
    requires SingleRows(db) && rq.limit != Some(0) && forall b | 0 <= b < |rq.tables| :: rq.tables[b] < |db|
    ensures Exec(KeepAll(), rq, db) == [Values(rq.outs, rq.tables, db)]
  {
    OneTuple(rq.tables, db);
    var tuples := Tuples(rq.tables, db);
    var record := RecordOf(KeepAll(), rq, db, Zeros(|rq.tables|));
    assert seq(|tuples|, i requires 0 <= i < |tuples| => RecordOf(KeepAll(), rq, db, tuples[i])) == [record];
    OneRecord(KeepAll(), record, rq.limit);
  }

  lemma NoResult(sem: Semantics, q: Query, db: Db)
    requires q.limit == Some(0) && Resolve(q, db).Some?
    ensures Eval(sem, q, db) == Some([])
  {
    assert Exec(sem, Resolve(q, db).value, db) == [];
  }

  // ---------------------------------------------------------------------------------
  // Cells that were added

  ghost predicate NewCellsDefault(db: Db, db': Db) {
    && |db'| == |db|
    && forall u, row: nat, c | 0 <= u < |db| && row < |db'[u].rows| && |db[u].columns| <= c < |db'[u].columns| ::
         Cell(db', u, row, c).Evaluated?
  }

  lemma NewCellsStep(db: Db, mid: Db, t: nat, column: Column, v: Value)
    requires ValidDb(mid) && NewCellsDefault(db, mid) && t < |mid| && v.Evaluated?
    ensures NewCellsDefault(db, mid[t := AppendColumn(mid[t], column, v)])
  {
    var db' := mid[t := AppendColumn(mid[t], column, v)];
    forall u, row: nat, c | 0 <= u < |db| && row < |db'[u].rows| && |db[u].columns| <= c < |db'[u].columns|
      ensures Cell(db', u, row, c).Evaluated?
    {
      if u == t {
        assert db'[t].rows[row] == mid[t].rows[row] + [v];
        assert |mid[t].rows[row]| == |mid[t].columns| by { assert ValidTable(mid[t]); }
        if c < |mid[t].columns| { assert Cell(mid, t, row, c).Evaluated?; }
      } else {
        assert Cell(mid, u, row, c).Evaluated?;
      }
    }
  }

  lemma {:induction false} AddedCellsDefault(ops: seq<Operation>, db: Db)
    requires ValidDb(db) && OnlyAdditions(ops) && MaterializeAll(ops, db).Some?
    ensures NewCellsDefault(db, MaterializeAll(ops, db).value)
  {
    if ops != [] {
      var k := |ops| - 1;
      var init, op := ops[..k], ops[k];
      assert ops == init + [op];
      MaterializeLast(init, op, db);
      AddedCellsDefault(init, db);
      var mid := MaterializeAll(init, db).value;
      NewCellsStep(db, mid, Find(TableNames(mid), op.table).value,
                   Column(op.newName, Strip(DeclaredOr(op.declaredType, "INTEGER"))),
                   Evaluated(DeclaredOr(op.defaultSql, "0")));
    }
  }

  /** The first row of every binding: old cells are numbered, added cells hold defaults. */
  ghost predicate Marked(s: Scope, s': Scope, tables: seq<nat>, w: Db, w': Db) {
    && |tables| == |s.columns| == |s'.columns|
    && forall b | 0 <= b < |tables| ::
         && (forall c | 0 <= c < |s.columns[b]| ::
               Cell(w, tables[b], 0, c) == Integer(c) && Cell(w', tables[b], 0, c) == Integer(c))
         && (forall c | |s.columns[b]| <= c < |s'.columns[b]| :: Cell(w', tables[b], 0, c).Evaluated?)
  }

  lemma OneRowMarked(q: Query, ops: seq<Operation>, db: Db, w': Db)
    requires Prepared(q, ops, OneRowEach(db), w') && NewCellsDefault(OneRowEach(db), w')
    ensures var w := OneRowEach(db);
            SingleRows(w) && SingleRows(w') && Marked(ScopeOf(q.from, w), ScopeOf(q.from, w'), TablesOf(q.from, w), w, w')
  {
    var w := OneRowEach(db);
    PlannedScopes(q, ops, w, w');
    var tables := TablesOf(q.from, w);
    forall t | 0 <= t < |w|
      ensures |w'[t].rows| == |w[t].rows| == 1
    {
    }
    forall b, c | 0 <= b < |tables| && 0 <= c < |ScopeOf(q.from, w).columns[b]|
      ensures Cell(w, tables[b], 0, c) == Integer(c) && Cell(w', tables[b], 0, c) == Integer(c)
    {
      assert Cell(w', tables[b], 0, c) == Cell(w, tables[b], 0, c);
    }
  }

  // ---------------------------------------------------------------------------------
  // The outputs of a qualified star

  predicate AllFound(columns: seq<string>, names: seq<string>) {
    forall k | 0 <= k < |names| :: Find(columns, names[k]).Some?
  }

  function Positions(columns: seq<string>, names: seq<string>): (ps: seq<nat>)
    requires AllFound(columns, names)
    ensures |ps| == |names|
    ensures forall k | 0 <= k < |ps| :: Find(columns, names[k]) == Some(ps[k])
  {
    seq(|names|, k requires 0 <= k < |names| => Find(columns, names[k]).value)
  }

  function ColumnsAt(b: nat, ps: seq<nat>): (r: seq<RExpr>)
    ensures |r| == |ps| && forall k | 0 <= k < |r| :: r[k] == RCol(b, ps[k])
  {
    seq(|ps|, k requires 0 <= k < |ps| => RCol(b, ps[k]))
  }

  /** A qualified name means a column of the one binding that the qualifier fits. */
  lemma NameResolves(s': Scope, from: seq<Binding>, b: nat, x: string, name: string)
    requires ScopeOk(s') && |s'.columns| == |from| && DistinctQualifiers(from) && b < |from|
    requires (forall i | 0 <= i < |from| :: s'.qualifiers[i] == Qualifier(from[i])) && Fold(Qualifier(from[b])) == Fold(x)
    ensures ResolveItem(s', Output(Col(Ref(Some(x), name)))) ==
            match Find(s'.columns[b], name) case None => None case Some(c) => Some([RCol(b, c)])
  {
    var r := Ref(Some(x), name);
    forall b': nat
      ensures QualifierFits(s', Some(x), b') <==> b' == b
    {
    }
    if Find(s'.columns[b], name).Some? {
      assert Supplies(s', r, b);
      assert ResolveRef(s', r).Some?;
    }
  }

  lemma NamesResolve(s': Scope, from: seq<Binding>, b: nat, x: string, names: seq<string>)
    requires ScopeOk(s') && |s'.columns| == |from| && DistinctQualifiers(from) && b < |from|
    requires (forall i | 0 <= i < |from| :: s'.qualifiers[i] == Qualifier(from[i])) && Fold(Qualifier(from[b])) == Fold(x)
    ensures ResolveItems(s', Outputs(names, Some(x))) ==
            if AllFound(s'.columns[b], names) then Some(ColumnsAt(b, Positions(s'.columns[b], names))) else None
  {
    var items := Outputs(names, Some(x));
    if AllFound(s'.columns[b], names) {
      var columns := ColumnsAt(b, Positions(s'.columns[b], names));
      forall k | 0 <= k < |names|
        ensures ResolveItem(s', items[k]) == Some([columns[k]])
      {
        NameResolves(s', from, b, x, names[k]);
      }
      EachResolves(s', items, columns);
    } else {
      var k :| 0 <= k < |names| && Find(s'.columns[b], names[k]).None?;
      NameResolves(s', from, b, x, names[k]);
      ItemsNeedEach(s', items, k);
    }
  }

  lemma PositionsDiffer(columns: seq<string>, names: seq<string>)
    requires AllFound(columns, names) && Unique(names)
    ensures DistinctPlaces(Positions(columns, names))
  {
    var ps := Positions(columns, names);
    forall i, j | 0 <= i < j < |ps|
      ensures ps[i] != ps[j]
    {
      assert Fold(columns[ps[i]]) == Fold(names[i]) && Fold(columns[ps[j]]) == Fold(names[j]);
    }
  }

  /** What the plan puts in the place of a qualified star: the columns of the dictionary's table. */
  lemma StarOutputs(q: Query, ops: seq<Operation>, db: Db, db': Db, x: string)
    requires Prepared(q, ops, db, db') && ByQualifier(q.from, TableNames(db), x).Some?
    ensures ExpandItem(QualifiedStar(x), q.from, SchemaOf(db), ops) ==
            Outputs(ColumnNames(db[DictionaryTable(q.from, TableNames(db), x)]), Some(x))
  {
    OldColumnsRecovered(ops, db, db', DictionaryTable(q.from, TableNames(db), x));
  }

  /** Every column of the dictionary's table is found in the widened table that the scope binds. */
  ghost predicate StarCovered(x: string, from: seq<Binding>, ops: seq<Operation>, db: Db)
    requires TablesExist(from, db) && ByQualifier(from, TableNames(db), x).Some?
  {
    forall b | 0 <= b < |from| && Fold(Qualifier(from[b])) == Fold(x) ::
      AllFound(ColumnNames(db[TableOf(from, db, b)]) + Added(ops, TableNames(db), TableOf(from, db, b)),
               ColumnNames(db[DictionaryTable(from, TableNames(db), x)]))
  }

  /** The binding of a starred qualifier, and the columns it has after the additions. */
  lemma StarBinding(q: Query, ops: seq<Operation>, db: Db, db': Db, x: string) returns (b: nat)
    requires Prepared(q, ops, db, db') && ResolveItem(ScopeOf(q.from, db), QualifiedStar(x)).Some?
    ensures b < |q.from| && Fold(Qualifier(q.from[b])) == Fold(x)
    ensures forall i | 0 <= i < |q.from| && Fold(Qualifier(q.from[i])) == Fold(x) :: i == b
    ensures ResolveItem(ScopeOf(q.from, db), QualifiedStar(x)) == Some(AllColumns(ScopeOf(q.from, db), b))
    ensures ScopeOf(q.from, db').columns[b] ==
            ColumnNames(db[TableOf(q.from, db, b)]) + Added(ops, TableNames(db), TableOf(q.from, db, b))
  {
    var s := ScopeOf(q.from, db);
    PlannedScopes(q, ops, db, db');
    b :| QualifierFits(s, Some(x), b);
    StarIsOneBinding(s, q.from, x, b, |q.from|);
    var t := TableOf(q.from, db, b);
    assert ColumnNames(db'[t]) == ColumnNames(db[t]) + Added(ops, TableNames(db), t);
  }

  /** A star's outputs resolve exactly when the star is covered. */
  lemma StarResolves(q: Query, ops: seq<Operation>, db: Db, db': Db, x: string)
    requires Prepared(q, ops, db, db') && ByQualifier(q.from, TableNames(db), x).Some?
    requires ResolveItem(ScopeOf(q.from, db), QualifiedStar(x)).Some?
    ensures ResolveItems(ScopeOf(q.from, db'), ExpandItem(QualifiedStar(x), q.from, SchemaOf(db), ops)).Some? <==>
            StarCovered(x, q.from, ops, db)
  {
    var b := StarBinding(q, ops, db, db', x);
    StarOutputs(q, ops, db, db', x);
    PlannedScopes(q, ops, db, db');
    NamesResolve(ScopeOf(q.from, db'), q.from, b, x, ColumnNames(db[DictionaryTable(q.from, TableNames(db), x)]));
  }

  // ---------------------------------------------------------------------------------
  // What the outputs weigh

  lemma RowValues(s: Scope, s': Scope, tables: seq<nat>, w: Db, w': Db, b: nat)
    requires Marked(s, s', tables, w, w') && b < |tables|
    ensures Values(AllColumns(s, b), tables, w) == Numbered(|s.columns[b]|)
  {
  }

  lemma PickedValues(s: Scope, s': Scope, tables: seq<nat>, w: Db, w': Db, b: nat, names: seq<string>)
    requires Marked(s, s', tables, w, w') && b < |tables| && AllFound(s'.columns[b], names)
    ensures var ps := Positions(s'.columns[b], names);
            PickedFrom(Values(ColumnsAt(b, ps), tables, w'), ps, |s.columns[b]|)
  {
  }

  /** Equal values mean that the names are the old columns, in order. */
  lemma EqualValuesAlign(s: Scope, s': Scope, tables: seq<nat>, w: Db, w': Db, b: nat, names: seq<string>)
    requires Marked(s, s', tables, w, w') && b < |tables| && AllFound(s'.columns[b], names)
    requires s.columns[b] <= s'.columns[b]
    requires Values(ColumnsAt(b, Positions(s'.columns[b], names)), tables, w') == Values(AllColumns(s, b), tables, w)
    ensures SameFolds(names, s.columns[b])
  {
    var ps := Positions(s'.columns[b], names);
    RowValues(s, s', tables, w, w', b);
    PickedValues(s, s', tables, w, w', b, names);
    PickedInOrder(Values(ColumnsAt(b, ps), tables, w'), ps, |s.columns[b]|);
    forall k | 0 <= k < |names|
      ensures Fold(names[k]) == Fold(s.columns[b][k])
    {
      assert ps[k] == k && s'.columns[b][k] == s.columns[b][k];
    }
  }

  lemma NamesAreLighter(s: Scope, s': Scope, tables: seq<nat>, w: Db, w': Db, b: nat, names: seq<string>)
    requires Marked(s, s', tables, w, w') && b < |tables| && AllFound(s'.columns[b], names) && Unique(names)
    ensures Lighter(Values(ColumnsAt(b, Positions(s'.columns[b], names)), tables, w'), Values(AllColumns(s, b), tables, w))
  {
    var ps := Positions(s'.columns[b], names);
    RowValues(s, s', tables, w, w', b);
    PickedValues(s, s', tables, w, w', b, names);
    PositionsDiffer(s'.columns[b], names);
    PickedIsLighter(Values(ColumnsAt(b, ps), tables, w'), ps, |s.columns[b]|);
  }

  /** Both sides of an item's outputs. */
  ghost predicate BothResolve(q: Query, ops: seq<Operation>, w: Db, w': Db, item: Item)
    requires TablesExist(q.from, w) && TablesExist(q.from, w')
    requires item.QualifiedStar? ==> ByQualifier(q.from, TableNames(w), item.qualifier).Some?
  {
    && ResolveItem(ScopeOf(q.from, w), item).Some?
    && ResolveItems(ScopeOf(q.from, w'), ExpandItem(item, q.from, SchemaOf(w), ops)).Some?
  }

  ghost function OldBlock(q: Query, w: Db, item: Item): seq<Value>
    requires TablesExist(q.from, w) && ResolveItem(ScopeOf(q.from, w), item).Some?
  {
    Values(ResolveItem(ScopeOf(q.from, w), item).value, TablesOf(q.from, w), w)
  }

  ghost function NewBlock(q: Query, ops: seq<Operation>, w: Db, w': Db, item: Item): seq<Value>
    requires TablesExist(q.from, w) && TablesExist(q.from, w')
    requires item.QualifiedStar? ==> ByQualifier(q.from, TableNames(w), item.qualifier).Some?
    requires BothResolve(q, ops, w, w', item)
  {
    Values(ResolveItems(ScopeOf(q.from, w'), ExpandItem(item, q.from, SchemaOf(w), ops)).value, TablesOf(q.from, w), w')
  }

  lemma StarIsLighter(q: Query, ops: seq<Operation>, w: Db, w': Db, x: string)
    requires Prepared(q, ops, w, w') && ByQualifier(q.from, TableNames(w), x).Some?
    requires BothResolve(q, ops, w, w', QualifiedStar(x))
    requires Marked(ScopeOf(q.from, w), ScopeOf(q.from, w'), TablesOf(q.from, w), w, w')
    ensures Lighter(NewBlock(q, ops, w, w', QualifiedStar(x)), OldBlock(q, w, QualifiedStar(x)))
    ensures NewBlock(q, ops, w, w', QualifiedStar(x)) == OldBlock(q, w, QualifiedStar(x)) ==> StarAligned(x, q.from, w)
  {
    var s, s', tables := ScopeOf(q.from, w), ScopeOf(q.from, w'), TablesOf(q.from, w);
    var b := StarBinding(q, ops, w, w', x);
    var d := DictionaryTable(q.from, TableNames(w), x);
    var names := ColumnNames(w[d]);
    assert ValidTable(w[d]);
    StarOutputs(q, ops, w, w', x);
    PlannedScopes(q, ops, w, w');
    NamesResolve(s', q.from, b, x, names);
    NamesAreLighter(s, s', tables, w, w', b, names);
    if NewBlock(q, ops, w, w', QualifiedStar(x)) == OldBlock(q, w, QualifiedStar(x)) {
      EqualValuesAlign(s, s', tables, w, w', b, names);
    }
  }

  lemma StillValued(es: seq<RExpr>, tables: seq<nat>, db: Db, db': Db, ops: seq<Operation>)
    requires Extends(db, db', ops) && AllInRange(es, tables, db)
    ensures Values(es, tables, db') == Values(es, tables, db)
  {
    ExtensionSimulates(tables, db, db', ops);
    forall i | 0 <= i < |es|
      ensures Values(es, tables, db')[i] == Values(es, tables, db)[i]
    {
      SameValue(KeepAll(), es[i], tables, db, db', Same, Zeros(|tables|));
      IdMove(es[i]);
    }
  }

  lemma ItemInRange(q: Query, db: Db, item: Item)
    requires TablesExist(q.from, db) && ResolveItem(ScopeOf(q.from, db), item).Some?
    ensures AllInRange(ResolveItem(ScopeOf(q.from, db), item).value, TablesOf(q.from, db), db)
  {
    var s, tables := ScopeOf(q.from, db), TablesOf(q.from, db);
    match item
    case Star => StarInRange(s, None, |s.columns|, tables, db);
    case QualifiedStar(x) => StarInRange(s, Some(x), |s.columns|, tables, db);
    case Output(e) => ResolvedExprInRange(s, e, tables, db);
  }

  /** Any other item keeps its values. */
  lemma OtherIsSame(q: Query, ops: seq<Operation>, w: Db, w': Db, i: nat)
    requires Prepared(q, ops, w, w') && NotCaptured(q, ops, w) && i < |q.items| && !q.items[i].QualifiedStar?
    ensures BothResolve(q, ops, w, w', q.items[i])
    ensures NewBlock(q, ops, w, w', q.items[i]) == OldBlock(q, w, q.items[i])
  {
    UncapturedRefsTrack(q, ops, w, w');
    ItemResolved(q, w, i);
    assert forall r | r in ItemRefs(q.items[i]) :: r in QueryRefs(q);
    ItemMeans(q, ops, w, w', q.items[i]);
    ItemInRange(q, w, q.items[i]);
    StillValued(ResolveItem(ScopeOf(q.from, w), q.items[i]).value, TablesOf(q.from, w), w, w', ops);
  }

  // ---------------------------------------------------------------------------------
  // All items together

  ghost predicate AllResolve(q: Query, ops: seq<Operation>, w: Db, w': Db, items: seq<Item>)
    requires TablesExist(q.from, w) && TablesExist(q.from, w') && StarsKnown(items, q.from, TableNames(w))
  {
    forall i | 0 <= i < |items| :: BothResolve(q, ops, w, w', items[i])
  }

  ghost function OldBlocks(q: Query, ops: seq<Operation>, w: Db, w': Db, items: seq<Item>): (r: seq<seq<Value>>)
    requires TablesExist(q.from, w) && TablesExist(q.from, w') && StarsKnown(items, q.from, TableNames(w))
    requires AllResolve(q, ops, w, w', items)
    ensures |r| == |items| && forall i | 0 <= i < |items| :: r[i] == OldBlock(q, w, items[i])
  {
    seq(|items|, i requires 0 <= i < |items| => OldBlock(q, w, items[i]))
  }

  ghost function NewBlocks(q: Query, ops: seq<Operation>, w: Db, w': Db, items: seq<Item>): (r: seq<seq<Value>>)
    requires TablesExist(q.from, w) && TablesExist(q.from, w') && StarsKnown(items, q.from, TableNames(w))
    requires AllResolve(q, ops, w, w', items)
    ensures |r| == |items| && forall i | 0 <= i < |items| :: r[i] == NewBlock(q, ops, w, w', items[i])
  {
    seq(|items|, i requires 0 <= i < |items| => NewBlock(q, ops, w, w', items[i]))
  }

  lemma InitResolve(q: Query, ops: seq<Operation>, w: Db, w': Db, items: seq<Item>)
    requires TablesExist(q.from, w) && TablesExist(q.from, w') && StarsKnown(items, q.from, TableNames(w))
    requires AllResolve(q, ops, w, w', items) && items != []
    ensures var init := items[..|items| - 1];
            && StarsKnown(init, q.from, TableNames(w)) && AllResolve(q, ops, w, w', init)
            && OldBlocks(q, ops, w, w', items)[..|items| - 1] == OldBlocks(q, ops, w, w', init)
            && NewBlocks(q, ops, w, w', items)[..|items| - 1] == NewBlocks(q, ops, w, w', init)
  {
    var k := |items| - 1;
    StarsOfPrefix(items, k, q.from, TableNames(w));
    assert forall i | 0 <= i < k :: items[..k][i] == items[i];
    assert OldBlocks(q, ops, w, w', items)[..k] == OldBlocks(q, ops, w, w', items[..k]);
    assert NewBlocks(q, ops, w, w', items)[..k] == NewBlocks(q, ops, w, w', items[..k]);
  }

  lemma {:induction false} OldFlat(q: Query, ops: seq<Operation>, w: Db, w': Db, items: seq<Item>)
    requires TablesExist(q.from, w) && TablesExist(q.from, w') && StarsKnown(items, q.from, TableNames(w))
    requires AllResolve(q, ops, w, w', items)
    ensures ResolveItems(ScopeOf(q.from, w), items).Some?
    ensures Flat(OldBlocks(q, ops, w, w', items)) ==
            Values(ResolveItems(ScopeOf(q.from, w), items).value, TablesOf(q.from, w), w)
  {
    if items != [] {
      var k := |items| - 1;
      InitResolve(q, ops, w, w', items);
      OldFlat(q, ops, w, w', items[..k]);
      var s := ScopeOf(q.from, w);
      ValuesConcat(ResolveItems(s, items[..k]).value, ResolveItem(s, items[k]).value, TablesOf(q.from, w), w);
    }
  }

  lemma {:induction false} NewFlat(q: Query, ops: seq<Operation>, w: Db, w': Db, items: seq<Item>)
    requires TablesExist(q.from, w) && TablesExist(q.from, w') && StarsKnown(items, q.from, TableNames(w))
    requires AllResolve(q, ops, w, w', items)
    ensures ResolveItems(ScopeOf(q.from, w'), ExpandItems(items, q.from, SchemaOf(w), ops)).Some?
    ensures Flat(NewBlocks(q, ops, w, w', items)) ==
            Values(ResolveItems(ScopeOf(q.from, w'), ExpandItems(items, q.from, SchemaOf(w), ops)).value,
                   TablesOf(q.from, w), w')
  {
    if items != [] {
      var k := |items| - 1;
      InitResolve(q, ops, w, w', items);
      NewFlat(q, ops, w, w', items[..k]);
      OneMoreItem(items[..k], items, items[k], q.from, SchemaOf(w), ops);
      var s' := ScopeOf(q.from, w');
      var before, next := ExpandItems(items[..k], q.from, SchemaOf(w), ops), ExpandItem(items[k], q.from, SchemaOf(w), ops);
      JoinResolved(s', before, next, ResolveItems(s', before).value, ResolveItems(s', next).value);
      ValuesConcat(ResolveItems(s', before).value, ResolveItems(s', next).value, TablesOf(q.from, w), w');
    }
  }

  /** A list of items resolves exactly when each of its parts does. */
  lemma {:induction false} SumNeedsLeft(s: Scope, a: seq<Item>, b: seq<Item>)
    requires ScopeOk(s) && ResolveItems(s, a).None?
    ensures ResolveItems(s, a + b).None?
  {
    if b == [] {
      assert a + b == a;
    } else {
      var k := |b| - 1;
      assert (a + b)[..|a + b| - 1] == a + b[..k];
      SumNeedsLeft(s, a, b[..k]);
    }
  }

  lemma SumResolves(s: Scope, a: seq<Item>, b: seq<Item>)
    requires ScopeOk(s)
    ensures ResolveItems(s, a + b).Some? <==> ResolveItems(s, a).Some? && ResolveItems(s, b).Some?
  {
    if ResolveItems(s, a).Some? { ItemsConcat(s, a, b); } else { SumNeedsLeft(s, a, b); }
  }

  /** The plan's outputs for every item resolve. */
  ghost predicate EachExpands(items: seq<Item>, from: seq<Binding>, schema: Schema, ops: seq<Operation>, s': Scope)
    requires ScopeOk(s') && TablesKnown(from, SchemaNames(schema)) && StarsKnown(items, from, SchemaNames(schema))
  {
    forall i | 0 <= i < |items| :: ResolveItems(s', ExpandItem(items[i], from, schema, ops)).Some?
  }

  lemma OneMoreExpands(past: seq<Item>, now: seq<Item>, item: Item, from: seq<Binding>, schema: Schema,
                       ops: seq<Operation>, s': Scope)
    requires |now| == |past| + 1 && now[..|past|] == past && now[|past|] == item && ScopeOk(s')
    requires TablesKnown(from, SchemaNames(schema)) && StarsKnown(now, from, SchemaNames(schema))
    requires StarsKnown(past, from, SchemaNames(schema))
    ensures item.QualifiedStar? ==> ByQualifier(from, SchemaNames(schema), item.qualifier).Some?
    ensures EachExpands(now, from, schema, ops, s') <==>
            EachExpands(past, from, schema, ops, s') && ResolveItems(s', ExpandItem(item, from, schema, ops)).Some?
  {
    assert forall i | 0 <= i < |past| :: now[i] == past[i];
  }

  lemma {:induction false} ExpandedResolve(items: seq<Item>, from: seq<Binding>, schema: Schema, ops: seq<Operation>, s': Scope)
    requires ScopeOk(s') && TablesKnown(from, SchemaNames(schema)) && StarsKnown(items, from, SchemaNames(schema))
    ensures ResolveItems(s', ExpandItems(items, from, schema, ops)).Some? <==> EachExpands(items, from, schema, ops, s')
  {
    if items != [] {
      var k := |items| - 1;
      StarsOfPrefix(items, k, from, SchemaNames(schema));
      ExpandedResolve(items[..k], from, schema, ops, s');
      OneMoreItem(items[..k], items, items[k], from, schema, ops);
      OneMoreExpands(items[..k], items, items[k], from, schema, ops, s');
      SumResolves(s', ExpandItems(items[..k], from, schema, ops), ExpandItem(items[k], from, schema, ops));
    }
  }

  function Planned(q: Query, ops: seq<Operation>, db: Db): Query
    requires TablesExist(q.from, db) && StarsKnown(q.items, q.from, TableNames(db))
  {
    q.(items := ExpandItems(q.items, q.from, SchemaOf(db), ops))
  }

  ghost predicate StarsCovered(q: Query, ops: seq<Operation>, db: Db)
    requires TablesExist(q.from, db) && StarsKnown(q.items, q.from, TableNames(db))
  {
    forall i | 0 <= i < |q.items| && q.items[i].QualifiedStar? :: StarCovered(q.items[i].qualifier, q.from, ops, db)
  }

  lemma ItemResolvesExactly(q: Query, ops: seq<Operation>, db: Db, db': Db, i: nat)
    requires Prepared(q, ops, db, db') && NotCaptured(q, ops, db) && i < |q.items|
    ensures ResolveItem(ScopeOf(q.from, db), q.items[i]).Some?
    ensures ResolveItems(ScopeOf(q.from, db'), ExpandItem(q.items[i], q.from, SchemaOf(db), ops)).Some? <==>
            (q.items[i].QualifiedStar? ==> StarCovered(q.items[i].qualifier, q.from, ops, db))
  {
    ItemResolved(q, db, i);
    if q.items[i].QualifiedStar? {
      StarResolves(q, ops, db, db', q.items[i].qualifier);
    } else {
      OtherIsSame(q, ops, db, db', i);
    }
  }

  lemma StarsExpandExactly(q: Query, ops: seq<Operation>, db: Db, db': Db)
    requires Prepared(q, ops, db, db') && NotCaptured(q, ops, db)
    ensures EachExpands(q.items, q.from, SchemaOf(db), ops, ScopeOf(q.from, db')) <==> StarsCovered(q, ops, db)
  {
    forall i | 0 <= i < |q.items|
      ensures ResolveItems(ScopeOf(q.from, db'), ExpandItem(q.items[i], q.from, SchemaOf(db), ops)).Some? <==>
              (q.items[i].QualifiedStar? ==> StarCovered(q.items[i].qualifier, q.from, ops, db))
    {
      ItemResolvesExactly(q, ops, db, db', i);
    }
  }

  /** The plan prepares exactly when nothing is captured and every qualified star is covered. */
  lemma PlanResolvesExactly(q: Query, ops: seq<Operation>, db: Db, db': Db)
    requires Prepared(q, ops, db, db')
    ensures Resolve(Planned(q, ops, db), db').Some? <==> NotCaptured(q, ops, db) && StarsCovered(q, ops, db)
  {
    if NotCaptured(q, ops, db) {
      UncapturedRefsTrack(q, ops, db, db');
      RestTracks(q, ops, db, db');
      StarsExpandExactly(q, ops, db, db');
      ExpandedResolve(q.items, q.from, SchemaOf(db), ops, ScopeOf(q.from, db'));
    } else {
      CapturedPlanFails(q, ops, db, db');
    }
  }

  // ---------------------------------------------------------------------------------
  // The exact condition

  /** Each qualified star is read as the scope reads it; under `LIMIT 0` preparing is enough. */
  ghost predicate StarsRead(q: Query, ops: seq<Operation>, db: Db)
    requires TablesExist(q.from, db) && StarsKnown(q.items, q.from, TableNames(db))
  {
    if q.limit == Some(0) then StarsCovered(q, ops, db) else StarsAligned(q, db)
  }

  ghost predicate Preserves(sem: Semantics, q: Query, ops: seq<Operation>, db: Db)
    requires ValidDb(db)
  {
    && MaterializeAll(ops, db).Some? && PlanFor(q, ops, SchemaOf(db)).Ok?
    && Eval(sem, PlanFor(q, ops, SchemaOf(db)).value.query, MaterializeAll(ops, db).value) == Eval(sem, q, db)
  }

  /** What the theorem asks of the query and the additions. */
  ghost predicate Plannable(q: Query, ops: seq<Operation>, db: Db) {
    && ValidDb(db) && OnlyAdditions(ops) && MaterializeAll(ops, db).Some?
    && Resolve(q, db).Some? && PlanFor(q, ops, SchemaOf(db)).Ok? && DistinctQualifiers(q.from)
  }

  lemma PlannableIsPrepared(q: Query, ops: seq<Operation>, db: Db)
    requires Plannable(q, ops, db)
    ensures Prepared(q, ops, db, MaterializeAll(ops, db).value)
    ensures PlanFor(q, ops, SchemaOf(db)).value.query == Planned(q, ops, db)
  {
    AdditionsExtend(ops, db);
  }

  lemma ReadStarsPreserve(sem: Semantics, q: Query, ops: seq<Operation>, db: Db)
    requires Plannable(q, ops, db) && NotCaptured(q, ops, db) && StarsRead(q, ops, db)
    ensures Preserves(sem, q, ops, db)
  {
    var db' := MaterializeAll(ops, db).value;
    PlannableIsPrepared(q, ops, db);
    if q.limit == Some(0) {
      PlanResolvesExactly(q, ops, db, db');
      NoResult(sem, q, db);
      NoResult(sem, Planned(q, ops, db), db');
    } else {
      UncapturedPlanPreserves(sem, q, ops, db, db');
    }
  }

  /** On the numbered rows, equal results have equal output values. */
  lemma OneRowValues(q: Query, ops: seq<Operation>, w: Db, w': Db)
    requires Prepared(q, ops, w, w') && SingleRows(w) && SingleRows(w') && q.limit != Some(0)
    requires Resolve(Planned(q, ops, w), w').Some?
    requires Eval(KeepAll(), Planned(q, ops, w), w') == Eval(KeepAll(), q, w)
    ensures Values(Resolve(Planned(q, ops, w), w').value.outs, TablesOf(q.from, w), w') ==
            Values(Resolve(q, w).value.outs, TablesOf(q.from, w), w)
  {
    PlannedScopes(q, ops, w, w');
    var tables := TablesOf(q.from, w);
    var x := Values(Resolve(q, w).value.outs, tables, w);
    var y := Values(Resolve(Planned(q, ops, w), w').value.outs, tables, w');
    OneResult(Resolve(q, w).value, w);
    OneResult(Resolve(Planned(q, ops, w), w').value, w');
    assert [x][0] == [y][0];
  }

  lemma ItemIsLighter(q: Query, ops: seq<Operation>, w: Db, w': Db, i: nat)
    requires Prepared(q, ops, w, w') && NotCaptured(q, ops, w) && StarsCovered(q, ops, w) && i < |q.items|
    requires Marked(ScopeOf(q.from, w), ScopeOf(q.from, w'), TablesOf(q.from, w), w, w')
    ensures BothResolve(q, ops, w, w', q.items[i])
    ensures Lighter(NewBlock(q, ops, w, w', q.items[i]), OldBlock(q, w, q.items[i]))
    ensures q.items[i].QualifiedStar? && NewBlock(q, ops, w, w', q.items[i]) == OldBlock(q, w, q.items[i]) ==>
              StarAligned(q.items[i].qualifier, q.from, w)
  {
    ItemResolvesExactly(q, ops, w, w', i);
    if q.items[i].QualifiedStar? {
      StarIsLighter(q, ops, w, w', q.items[i].qualifier);
    } else {
      OtherIsSame(q, ops, w, w', i);
    }
  }

  /** Equal output values align every qualified star. */
  lemma EqualOutputsAlign(q: Query, ops: seq<Operation>, w: Db, w': Db)
    requires Prepared(q, ops, w, w') && NotCaptured(q, ops, w) && StarsCovered(q, ops, w)
    requires Marked(ScopeOf(q.from, w), ScopeOf(q.from, w'), TablesOf(q.from, w), w, w')
    requires Resolve(Planned(q, ops, w), w').Some?
    requires Values(Resolve(Planned(q, ops, w), w').value.outs, TablesOf(q.from, w), w') ==
             Values(Resolve(q, w).value.outs, TablesOf(q.from, w), w)
    ensures StarsAligned(q, w)
  {
    forall i | 0 <= i < |q.items|
      ensures BothResolve(q, ops, w, w', q.items[i])
    {
      ItemIsLighter(q, ops, w, w', i);
    }
    var xs, ys := OldBlocks(q, ops, w, w', q.items), NewBlocks(q, ops, w, w', q.items);
    forall i | 0 <= i < |q.items|
      ensures Lighter(ys[i], xs[i])
    {
      ItemIsLighter(q, ops, w, w', i);
    }
    OldFlat(q, ops, w, w', q.items);
    NewFlat(q, ops, w, w', q.items);
    BlocksAlign(ys, xs);
    forall i | 0 <= i < |q.items| && q.items[i].QualifiedStar?
      ensures StarAligned(q.items[i].qualifier, q.from, w)
    {
      ItemIsLighter(q, ops, w, w', i);
      assert ys[i] == xs[i];
    }
  }

  /** The one-row database already decides. */
  lemma OneRowDecides(q: Query, ops: seq<Operation>, db: Db)
    requires Plannable(q, ops, OneRowEach(db)) && Preserves(KeepAll(), q, ops, OneRowEach(db))
    ensures NotCaptured(q, ops, OneRowEach(db)) && StarsRead(q, ops, OneRowEach(db))
  {
    var w := OneRowEach(db);
    var w' := MaterializeAll(ops, w).value;
    PlannableIsPrepared(q, ops, w);
    PlanResolvesExactly(q, ops, w, w');
    if q.limit != Some(0) {
      AddedCellsDefault(ops, w);
      OneRowMarked(q, ops, db, w');
      OneRowValues(q, ops, w, w');
      EqualOutputsAlign(q, ops, w, w');
    }
  }

  lemma StarConditionsAlike(from: seq<Binding>, ops: seq<Operation>, db: Db, db': Db, x: string)
    requires SameNames(db, db') && TablesExist(from, db) && TablesExist(from, db')
    requires ByQualifier(from, TableNames(db), x).Some?
    ensures StarAligned(x, from, db') <==> StarAligned(x, from, db)
    ensures StarCovered(x, from, ops, db') <==> StarCovered(x, from, ops, db)
  {
    var d := DictionaryTable(from, TableNames(db), x);
    assert ColumnNames(db'[d]) == ColumnNames(db[d]);
    forall b | 0 <= b < |from|
      ensures ColumnNames(db'[TableOf(from, db', b)]) == ColumnNames(db[TableOf(from, db, b)])
      ensures TableOf(from, db', b) == TableOf(from, db, b)
    {
    }
  }

  lemma TablesAlike(from: seq<Binding>, db: Db, db': Db)
    requires SameNames(db, db') && TablesExist(from, db)
    ensures TablesExist(from, db') && forall b | 0 <= b < |from| :: TableOf(from, db', b) == TableOf(from, db, b)
  {
  }

  lemma CapturesAlike(q: Query, ops: seq<Operation>, db: Db, db': Db)
    requires SameNames(db, db') && TablesExist(q.from, db) && TablesExist(q.from, db')
    ensures NotCaptured(q, ops, db') <==> NotCaptured(q, ops, db)
  {
    TablesAlike(q.from, db, db');
    forall b | 0 <= b < |q.from|
      ensures Added(ops, TableNames(db'), TableOf(q.from, db', b)) == Added(ops, TableNames(db), TableOf(q.from, db, b))
    {
    }
  }

  lemma StarsReadAlike(q: Query, ops: seq<Operation>, db: Db, db': Db)
    requires SameNames(db, db') && TablesExist(q.from, db) && TablesExist(q.from, db')
    requires StarsKnown(q.items, q.from, TableNames(db)) && StarsKnown(q.items, q.from, TableNames(db'))
    ensures StarsRead(q, ops, db') <==> StarsRead(q, ops, db)
  {
    forall i | 0 <= i < |q.items| && q.items[i].QualifiedStar?
      ensures StarAligned(q.items[i].qualifier, q.from, db') <==> StarAligned(q.items[i].qualifier, q.from, db)
      ensures StarCovered(q.items[i].qualifier, q.from, ops, db') <==> StarCovered(q.items[i].qualifier, q.from, ops, db)
    {
      StarConditionsAlike(q.from, ops, db, db', q.items[i].qualifier);
    }
  }

  /** The hypotheses and the condition speak of the schema only. */
  lemma ConditionsAlike(q: Query, ops: seq<Operation>, db: Db, db': Db)
    requires ValidDb(db) && ValidDb(db') && SchemaOf(db') == SchemaOf(db) && Plannable(q, ops, db)
    ensures Plannable(q, ops, db')
    ensures NotCaptured(q, ops, db') <==> NotCaptured(q, ops, db)
    ensures StarsRead(q, ops, db') <==> StarsRead(q, ops, db)
  {
    SchemaIsNames(db, db');
    AdditionsAlike(ops, db, db');
    ResolvesAlike(q, db, db');
    TablesAlike(q.from, db, db');
    CapturesAlike(q, ops, db, db');
    StarsReadAlike(q, ops, db, db');
  }

  /**
   For every query with distinct qualifiers and every list of fresh added columns: the plan preserves
   the result on every database of the schema, under every choice of operators and orderings, if and
   only if no unqualified reference is captured and, for each starred qualifier, the table that the
   qualifier dictionary gives has the folded column list of the table that the scope binds. Under
   `LIMIT 0` it is enough that those columns are found at all.
   */
  lemma PlanPreservesEverywhereExactly(q: Query, ops: seq<Operation>, db0: Db)
    requires Plannable(q, ops, db0)
    ensures (forall sem: Semantics, db | ValidDb(db) && SchemaOf(db) == SchemaOf(db0) :: Preserves(sem, q, ops, db)) <==>
            NotCaptured(q, ops, db0) && StarsRead(q, ops, db0)
  {
    if NotCaptured(q, ops, db0) && StarsRead(q, ops, db0) {
      forall sem: Semantics, db | ValidDb(db) && SchemaOf(db) == SchemaOf(db0)
        ensures Preserves(sem, q, ops, db)
      {
        ConditionsAlike(q, ops, db0, db);
        ReadStarsPreserve(sem, q, ops, db);
      }
    }
    if forall sem: Semantics, db | ValidDb(db) && SchemaOf(db) == SchemaOf(db0) :: Preserves(sem, q, ops, db) {
      OneRowValid(db0);
      ConditionsAlike(q, ops, db0, OneRowEach(db0));
      assert Preserves(KeepAll(), q, ops, OneRowEach(db0));
      OneRowDecides(q, ops, db0);
    }
  }
}
