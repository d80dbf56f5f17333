/** Small databases on which the text rewriter, or the audited repair, does not preserve a query. */
module TextCounterexamples {
  import opened Prelude
  import opened Strings
  import opened SchemaDiffs
  import opened SqlLexer
  import opened RewriterAlgebra
  import opened SchemaRepair
  import opened Database
  import opened Queries
  import opened Resolution
  import opened ColumnRewrites
  import opened NameReading
  import opened ProjectionContract
  import opened ProjectionMeaning
  import opened Migrations
  import opened QueryNames
  import opened QueryText
  import opened NameFollowing
  import opened TextRenames
  import opened MixedRepair
  import opened Counterexamples

  /** A query of one output over `t` and `u`. */
  function OneOutput(r: Ref): Query {
    Query([Output(Col(r))], [Binding("t", None), Binding("u", None)], Lit(Null), [], None)
  }

  lemma OneOutputRefs(r: Ref)
    ensures QueryRefs(OneOutput(r)) == {r} && QueryOperators(OneOutput(r)) == {}
  {
    var q := OneOutput(r);
    assert ItemRefs(q.items[0]) == {r} && ItemOperators(q.items[0]) == {};
    assert r in QueryRefs(q);
  }

  /** The two bindings, for any database whose tables are `t` and `u`. */
  lemma OneOutputScope(r: Ref, db: Db)
    requires |db| == 2 && TableNames(db) == ["t", "u"]
    ensures TablesExist(OneOutput(r).from, db) && TablesOf(OneOutput(r).from, db) == [0, 1]
    ensures var s := ScopeOf(OneOutput(r).from, db);
            s.qualifiers == ["t", "u"] && s.columns == [ColumnNames(db[0]), ColumnNames(db[1])]
  {
    SmallNames();
    assert Find(["t", "u"], "t") == Some(0) && Find(["t", "u"], "u") == Some(1);
    var from := OneOutput(r).from;
    assert forall b | 0 <= b < 2 :: Find(TableNames(db), from[b].table) == Some(b);
    var s := ScopeOf(from, db);
    assert s.qualifiers == ["t", "u"];
    assert s.columns == [ColumnNames(db[0]), ColumnNames(db[1])];
  }

  lemma OneOutputResolves(q: Query, db: Db, r: Ref)
    requires q.items == [Output(Col(r))] && q.where.Lit? && q.order == [] && TablesExist(q.from, db)
    requires ResolveRef(ScopeOf(q.from, db), r).Some?
    ensures Resolve(q, db).Some?
  {
    var s := ScopeOf(q.from, db);
    OneItem(s, Output(Col(r)));
    assert ResolveExprs(s, []) == Some([]);
  }

  lemma OneOutputPrepares(r: Ref, db: Db, b: nat, c: nat)
    requires |db| == 2 && TableNames(db) == ["t", "u"]
    requires ResolveRef(Scope(["t", "u"], [ColumnNames(db[0]), ColumnNames(db[1])]), r) == Some((b, c))
    ensures TablesExist(OneOutput(r).from, db) && Resolve(OneOutput(r), db).Some?
  {
    OneOutputScope(r, db);
    var s := ScopeOf(OneOutput(r).from, db);
    assert s == Scope(["t", "u"], [ColumnNames(db[0]), ColumnNames(db[1])]);
    OneOutputResolves(OneOutput(r), db, r);
  }

  // ---------------------------------------------------------------------------------
  // Another table's column of the same name

  /** `u.x`. */
  function OfSecond(): Ref {
    Ref(Some("u"), "x")
  }

  lemma SecondResolves()
    ensures ResolveRef(Scope(["t", "u"], [["x"], ["x"]]), OfSecond()) == Some((1, 0))
  {
    SmallNames();
    FindFirst(["x"], "x");
    assert Supplies(Scope(["t", "u"], [["x"], ["x"]]), OfSecond(), 1);
  }

  lemma NewNameUnused()
    ensures TablesExist(OneOutput(OfSecond()).from, TwoTables()) && NameUnused(OneOutput(OfSecond()), TwoTables(), "y")
  {
    SmallNames();
    TwoTablesValid();
    OneOutputScope(OfSecond(), TwoTables());
    var q, db := OneOutput(OfSecond()), TwoTables();
    assert Find(["t", "u"], "y").None? && Find(["x"], "y").None?;
    forall b | 0 <= b < |q.from|
      ensures Find(ColumnNames(db[TableOf(q.from, db, b)]), "y").None? && Fold(Qualifier(q.from[b])) != Fold("y")
    {
      assert TableOf(q.from, db, b) == b;
    }
  }

  lemma SecondMissesFirst()
    ensures var q, db := OneOutput(OfSecond()), TwoTables();
            TablesExist(q.from, db) && !OnlyTheColumn(q, db, 0, 0) && OfSecond() in QueryRefs(q)
  {
    TwoTablesValid();
    OneOutputRefs(OfSecond());
    OneOutputScope(OfSecond(), TwoTables());
    SecondResolves();
  }

  /** Renaming `t.x` to `y` in the text of `SELECT u.x FROM t, u` writes `u.y`, which does not exist. */
  lemma TextRenameHitsNamesake(sem: Semantics)
    ensures var db, q := TwoTables(), OneOutput(OfSecond());
            && ValidDb(db) && Resolve(q, db).Some?
            && Eval(sem, RenameAll(q, "x", "y"), db[0 := RenameColumnAt(db[0], 0, "y")]) != Eval(sem, q, db)
  {
    var db, q := TwoTables(), OneOutput(OfSecond());
    TwoTablesValid();
    SmallNames();
    InPlaceChange(db, 0, 0, "y");
    SecondResolves();
    OneOutputPrepares(OfSecond(), db, 1, 0);
    NewNameUnused();
    SecondMissesFirst();
    OneOutputRefs(OfSecond());
    UnusedTextRenameExactly(sem, q, db, db[0 := RenameColumnAt(db[0], 0, "y")], 0, 0, "y", Stay);
  }

  lemma SecondIsNotTaken()
    ensures CodeResolve(TwoTables(), OneOutput(OfSecond()).from, OfSecond()) == Some((1, 0))
  {
    SmallNames();
    TwoTablesValid();
    FindFirst(["x"], "x");
    var from, db := OneOutput(OfSecond()).from, TwoTables();
    assert Find(["t", "u"], "u") == Some(1);
    assert AliasTable(from, db, "u") == Some(1);
  }

  lemma SecondAgrees()
    ensures var q, db := OneOutput(OfSecond()), TwoTables();
            TablesExist(q.from, db) && CodeAgrees(q, db, 0, 0) && NoNamesake(q, db, 0, 0, "y")
  {
    var q, db := OneOutput(OfSecond()), TwoTables();
    TwoTablesValid();
    SmallNames();
    SecondResolves();
    OneOutputScope(OfSecond(), db);
    OneOutputRefs(OfSecond());
    SecondIsNotTaken();
    assert ScopeOf(q.from, db) == Scope(["t", "u"], [["x"], ["x"]]);
    OneRefSpared(q, db, 0, 0, "y", OfSecond());
  }

  /** A query of one reference that is neither taken for the column nor means it, and is not spelled like the new name. */
  lemma OneRefSpared(q: Query, db: Db, t: nat, p: nat, newName: string, r: Ref)
    requires QueryRefs(q) == {r} && TablesExist(q.from, db) && CodeResolve(db, q.from, r) != Some((t, p))
    requires !Hits(ScopeOf(q.from, db), TablesOf(q.from, db), t, p, r) && Fold(r.name) != Fold(newName)
    ensures CodeAgrees(q, db, t, p) && NoNamesake(q, db, t, p, newName)
  {
  }

  /** The column rewriter leaves the same query alone, and it returns what it returned. */
  lemma ColumnRewriteSparesNamesake(sem: Semantics)
    ensures var db, q := TwoTables(), OneOutput(OfSecond());
            && ValidDb(db)
            && Eval(sem, RewriteColumn(q, db, 0, 0, "y"), db[0 := RenameColumnAt(db[0], 0, "y")]) == Eval(sem, q, db)
  {
    var db, q := TwoTables(), OneOutput(OfSecond());
    TwoTablesValid();
    SmallNames();
    InPlaceChange(db, 0, 0, "y");
    SecondResolves();
    OneOutputPrepares(OfSecond(), db, 1, 0);
    SecondAgrees();
    AgreeingRewritePreserves(sem, q, db, db[0 := RenameColumnAt(db[0], 0, "y")], 0, 0, "y", Stay);
  }

  // ---------------------------------------------------------------------------------
  // A new name that another table has

  lemma BareResolves()
    ensures ResolveRef(Scope(["t", "u"], [["y"], ["x"]]), Ref(None, "y")) == Some((0, 0))
  {
    PairValid();
    SmallNames();
    assert Find(["y"], "y") == Some(0) && Find(["x"], "y") == None;
    assert Supplies(Scope(["t", "u"], [["y"], ["x"]]), Ref(None, "y"), 0);
  }

  /** In `t(y)` and `u(x)` the bare `y` is the only one of its name. */
  lemma BareReadsRight()
    ensures var q, db := OneOutput(Ref(None, "y")), PairOfTables();
            && ValidDb(db) && Resolve(q, db).Some? && TablesExist(q.from, db) && NamesRead(q, db, 0, 0)
            && CodeResolve(db, q.from, Ref(None, "y")) == Some((0, 0))
  {
    var q, db := OneOutput(Ref(None, "y")), PairOfTables();
    PairValid();
    SmallNames();
    BareResolves();
    OneOutputPrepares(Ref(None, "y"), db, 0, 0);
    OneOutputRefs(Ref(None, "y"));
    assert Find(["y"], "y") == Some(0) && Find(["x"], "y") == None;
    assert SchemaMatches(db, "y", 0) == [] && SchemaMatches(db, "y", 1) == [(0, 0)];
    assert SchemaMatches(db, "y", 2) == [(0, 0)];
  }

  lemma BareScope(s: Scope, tables: seq<nat>)
    requires s == Scope(["t", "u"], [["y"], ["x"]]) && tables == [0, 1]
    ensures Hits(s, tables, 0, 0, Ref(None, "y")) && Collides(s, tables, 0, "x", None)
  {
    PairValid();
    SmallNames();
    BareResolves();
    assert QualifierFits(s, None, 0) && QualifierFits(s, None, 1);
  }

  /** A query of one reference that is taken for the column, means it, and meets a namesake. */
  lemma OneRefCollides(q: Query, db: Db, t: nat, p: nat, newName: string, r: Ref)
    requires QueryRefs(q) == {r} && TablesExist(q.from, db) && CodeResolve(db, q.from, r) == Some((t, p))
    requires Hits(ScopeOf(q.from, db), TablesOf(q.from, db), t, p, r)
    requires Collides(ScopeOf(q.from, db), TablesOf(q.from, db), t, newName, r.qualifier)
    ensures NothingAstray(q, db, t, p, newName) && !NoNamesake(q, db, t, p, newName)
  {
    assert r in QueryRefs(q);
  }

  lemma BareMeetsTwo()
    ensures var q, db := OneOutput(Ref(None, "y")), PairOfTables();
            && ValidDb(db) && TablesExist(q.from, db) && NothingAstray(q, db, 0, 0, "x") && !NoNamesake(q, db, 0, 0, "x")
  {
    var q, db, r := OneOutput(Ref(None, "y")), PairOfTables(), Ref(None, "y");
    PairValid();
    BareReadsRight();
    OneOutputScope(r, db);
    OneOutputRefs(r);
    var s := ScopeOf(q.from, db);
    assert s == Scope(["t", "u"], [["y"], ["x"]]);
    BareScope(s, TablesOf(q.from, db));
    OneRefCollides(q, db, 0, 0, "x", r);
  }

  /** Renaming `t.y` to `x`: the column rewriter reads `SELECT y FROM t, u` right, and breaks it all the same. */
  lemma NewNameMeetsNamesake(sem: Semantics)
    ensures var q, db := OneOutput(Ref(None, "y")), PairOfTables();
            && ValidDb(db) && TablesExist(q.from, db) && NamesRead(q, db, 0, 0) && FreshHere(db, 0, 0, "x")
            && Eval(sem, RewriteColumn(q, db, 0, 0, "x"), db[0 := RenameColumnAt(db[0], 0, "x")]) != Eval(sem, q, db)
  {
    var q, db := OneOutput(Ref(None, "y")), PairOfTables();
    PairValid();
    SmallNames();
    BareReadsRight();
    BareMeetsTwo();
    assert FreshIn(["y"], "x", 0);
    InPlaceChange(db, 0, 0, "x");
    ColumnRewriteByNames(sem, q, db, db[0 := RenameColumnAt(db[0], 0, "x")], 0, 0, "x", Stay);
  }

  // ---------------------------------------------------------------------------------
  // Renames and additions in one diff

  /** `t(x)`. */
  function OneTable(): Db {
    [Table("t", [Column("x", "")], [])]
  }

  /** `SELECT * FROM t`. */
  function AllOfTable(): Query {
    Query([Star], [Binding("t", None)], Lit(Null), [], None)
  }

  /** Rename `t.x` to `y`, then add `t.z`. */
  function RenameThenAdd(): seq<Operation> {
    [RenameColumn("t", "x", "y", None), AddColumn("t", "z", None, None)]
  }

  function Renamed(): Db {
    [Table("t", [Column("y", "")], [])]
  }

  function RenamedAndWidened(): Db {
    [Table("t", [Column("y", ""), Column("z", "INTEGER")], [])]
  }

  lemma OneTableNames()
    ensures ValidDb(OneTable()) && TableNames(OneTable()) == ["t"] && ColumnNames(OneTable()[0]) == ["x"]
    ensures ValidDb(Renamed()) && TableNames(Renamed()) == ["t"] && ColumnNames(Renamed()[0]) == ["y"]
    ensures TableNames(RenamedAndWidened()) == ["t"] && ColumnNames(RenamedAndWidened()[0]) == ["y", "z"]
    ensures Find(["t"], "t") == Some(0) && Find(["x"], "x") == Some(0) && Find(["y", "z"], "x") == None
    ensures Find(["t"], "u") == None && Find(["x"], "z") == None && Find(["z"], "x") == None && Find(["z"], "z") == Some(0)
    ensures Fold("z") == "z"
  {
    SmallNames();
    assert Fold("z") == "z";
    assert TableNames(OneTable()) == ["t"] && ColumnNames(OneTable()[0]) == ["x"];
    assert TableNames(Renamed()) == ["t"] && ColumnNames(Renamed()[0]) == ["y"];
    assert TableNames(RenamedAndWidened()) == ["t"] && ColumnNames(RenamedAndWidened()[0]) == ["y", "z"];
  }

  lemma RenameApplies()
    ensures ValidDb(OneTable()) && Materialize(RenameThenAdd()[0], OneTable()) == Some(Renamed())
  {
    OneTableNames();
    var db := OneTable();
    assert FreshIn(["x"], "y", 0);
    assert RenameColumnAt(db[0], 0, "y").columns == [Column("y", "")];
    assert db[0 := RenameColumnAt(db[0], 0, "y")] == Renamed();
  }

  lemma AdditionApplies()
    ensures ValidDb(Renamed()) && Materialize(RenameThenAdd()[1], Renamed()) == Some(RenamedAndWidened())
  {
    OneTableNames();
    SmallNames();
    var db := Renamed();
    assert FreshIn(["y"], "z", -1);
    StripPlain("INTEGER");
    var c, v := Column("z", Strip("INTEGER")), Evaluated("0");
    assert Appended([], v) == [];
    assert [Column("y", "")] + [c] == [Column("y", ""), c];
    assert db[0 := AppendColumn(db[0], c, v)] == RenamedAndWidened();
  }

  lemma BothApply()
    ensures ValidDb(OneTable()) && MaterializeAll(RenameThenAdd(), OneTable()) == Some(RenamedAndWidened())
  {
    RenameApplies();
    AdditionApplies();
    TwoSteps(RenameThenAdd(), OneTable());
  }

  lemma TwoSteps(ops: seq<Operation>, db: Db)
    requires |ops| == 2 && ValidDb(db) && Materialize(ops[0], db).Some?
    ensures ValidDb(Materialize(ops[0], db).value)
    ensures MaterializeAll(ops, db) == Materialize(ops[1], Materialize(ops[0], db).value)
  {
    MaterializeValid(ops[0], db);
    assert ops == [ops[0]] + [ops[1]] && [ops[0]][1..] == [];
    MaterializeLast([ops[0]], ops[1], db);
  }

  /** A mapping followed by an addition. */
  lemma MappingThenAddition(ops: seq<Operation>)
    requires |ops| == 2 && IsMapping(ops[0]) && ops[1].AddColumn?
    ensures Additions(ops) == [ops[1]] && Mappings(ops) == [MappingOf(ops[0])]
  {
    assert ops[..1] == [ops[0]] && [ops[0]][..0] == [];
    assert Additions([ops[0]]) == [] && Mappings([ops[0]]) == [] + [MappingOf(ops[0])];
    assert [] + [MappingOf(ops[0])] == [MappingOf(ops[0])] && [] + [ops[1]] == [ops[1]];
    assert Mappings(ops) == Mappings([ops[0]]) + [];
  }

  lemma RenameThenAddMeans()
    ensures Additions(RenameThenAdd()) == [RenameThenAdd()[1]] && Mappings(RenameThenAdd()) == [Mapping("x", "y")]
    ensures SafeMappings([Mapping("x", "y")])
  {
    StripPlain("x");
    StripPlain("y");
    MappingThenAddition(RenameThenAdd());
    assert IsIdentifier("x") && IsIdentifier("y");
  }

  lemma OneAdded(op: Operation, names: seq<string>, t: nat)
    requires op.AddColumn? && Find(names, op.table) == Some(t)
    ensures Added([op], names, t) == [op.newName]
  {
    assert [op][..0] == [] && [] + [op.newName] == [op.newName];
    assert Added([], names, t) == [];
  }

  lemma NamesAfterMapping()
    ensures Renaming([Mapping("x", "y")], "t") == "t"
    ensures RenamedQuery(RenameThenAdd(), AllOfTable()) == AllOfTable()
  {
    SmallNames();
    RenameThenAddMeans();
    var ms := [Mapping("x", "y")];
    assert ms[..0] == [] && Renaming([], "t") == "t";
    assert Renaming(ms, "t") == "t";
    var q := AllOfTable();
    assert RespellBindings(q.from, x => Renaming(ms, x)) == q.from;
    assert RespellItems(q.items, x => Renaming(ms, x)) == q.items;
    assert RespellExprs([], x => Renaming(ms, x)) == [];
  }

  /** What the planner is given: the source column and the added one. */
  lemma ActiveIsSourceAndAdded(op: Operation, added: Operation, schema: Schema, t: nat)
    requires !op.AddColumn? && added.AddColumn? && Find(SchemaNames(schema), added.table) == Some(t)
    requires Strip(added.newName) == added.newName != "" && Find(schema[t].columns, added.newName).None?
    ensures ActiveSchema(schema, [op, added]).Some?
    ensures ActiveSchema(schema, [op, added]).value[t].columns == schema[t].columns + [added.newName]
  {
    assert [op, added][..1] == [op] && [op][..0] == [];
    assert ActiveSchema(schema, [op]) == Some(schema);
  }

  lemma OldColumnsOfPair()
    ensures OldColumns(["x"] + ["z"], ["z"]) != []
  {
    SmallNames();
    assert Fold("z") == "z";
    assert Find(["z"], "x") == None && Find(["z"], "z") == Some(0);
    assert (["x"] + ["z"])[..1] == ["x"] && ["x"][..0] == [];
    assert OldColumns(["x"], ["z"]) == [] + ["x"];
  }

  lemma LoneStarShape(items: seq<Item>, from: seq<Binding>, names: seq<string>)
    requires items == [Star] && TablesKnown(from, names)
    ensures StarsKnown(items, from, names) && HasStar(items)
  {
    assert !items[0].Output?;
  }

  lemma LoneStarRemains(items: seq<Item>, from: seq<Binding>, schema: Schema, ops: seq<Operation>, t: nat)
    requires items == [Star] && |from| == 1 && Find(SchemaNames(schema), from[0].table) == Some(t) && Remains(schema, ops, t)
    ensures StarsKnown(items, from, SchemaNames(schema)) && ColumnsRemain(items, from, schema, ops)
  {
    assert Physical(from, SchemaNames(schema), 0) == t;
  }

  /** A lone star over one table is planned as soon as the table keeps a column. */
  lemma LoneStarPlanned(q: Query, additions: seq<Operation>, schema: Schema, t: nat)
    requires q.items == [Star] && |q.from| == 1 && Find(SchemaNames(schema), q.from[0].table) == Some(t)
    requires Additions(additions) != [] && AdditionsKnown(additions, SchemaNames(schema))
    requires Remains(schema, additions, t)
    ensures PlanFor(q, additions, schema).Ok?
  {
    LoneStarShape(q.items, q.from, SchemaNames(schema));
    LoneStarRemains(q.items, q.from, schema, additions, t);
  }

  lemma StarIsPlanned()
    ensures IsPlanned(RenameThenAdd(), AllOfTable(), OneTable())
  {
    OneTableNames();
    RenameThenAddMeans();
    NamesAfterMapping();
    StripPlain("z");
    var ops, schema := RenameThenAdd(), SchemaOf(OneTable());
    ActiveIsSourceAndAdded(ops[0], ops[1], schema, 0);
    OneAdded(ops[1], ["t"], 0);
    OldColumnsOfPair();
    OnlyAdditionsKept([ops[1]]);
    LoneStarPlanned(AllOfTable(), [ops[1]], ActiveSchema(schema, ops).value, 0);
  }

  lemma AllOfTableResolves()
    ensures Resolve(AllOfTable(), OneTable()).Some?
  {
    OneTableNames();
    var q, s := AllOfTable(), ScopeOf(AllOfTable().from, OneTable());
    OneItem(s, Star);
    assert ResolveExprs(s, []) == Some([]);
  }

  lemma StarIsRepairable()
    ensures Repairable(RenameThenAdd(), AllOfTable(), OneTable(), RenamedAndWidened())
  {
    BothApply();
    RenameThenAddMeans();
    StarIsPlanned();
    AllOfTableResolves();
    assert QueryOperators(AllOfTable()) == {};
  }

  /** The star becomes `SELECT x`, a column that the migrated table no longer has. */
  lemma RenamedColumnUnderStar(sem: Semantics)
    ensures var db, q, ops := OneTable(), AllOfTable(), RenameThenAdd();
            && ValidDb(db) && MaterializeAll(ops, db).Some? && Repaired(ops, q, db).Some?
            && Eval(sem, Repaired(ops, q, db).value, MaterializeAll(ops, db).value) != Eval(sem, q, db)
  {
    var db, q, ops := OneTable(), AllOfTable(), RenameThenAdd();
    OneTableNames();
    RenameThenAddMeans();
    NamesAfterMapping();
    StarIsPlanned();
    StarIsRepairable();
    OneAdded(ops[1], ["t"], 0);
    assert db[0].columns[0].name == "x";
    assert forall u | 0 <= u < |RenamedAndWidened()| :: Find(ColumnNames(RenamedAndWidened()[u]), "x").None?;
    RenamedColumnLosesStar(ops, q, db, RenamedAndWidened(), 0, 0, 0);
  }

  /** Rename table `t` to `u`, then add `u.z`: the diff applies, and no query at all is repaired. */
  lemma RenamedTableStopsRepair()
    ensures var ops := [RenameTable("t", "u"), AddColumn("u", "z", None, None)];
            && ValidDb(OneTable()) && MaterializeAll(ops, OneTable()).Some?
            && forall q :: Repaired(ops, q, OneTable()).None?
  {
    OneTableNames();
    SmallNames();
    var db, ops := OneTable(), [RenameTable("t", "u"), AddColumn("u", "z", None, None)];
    assert FreshIn(["t"], "u", -1) && Fold("u") == "u";
    assert Materialize(ops[0], db) == Some(db[0 := db[0].(name := "u")]);
    TwoSteps(ops, db);
    SecondStepApplies();
    forall q
      ensures Repaired(ops, q, db).None?
    {
      UnknownTableRefused(ops, q, db, 1);
    }
  }

  lemma SecondStepApplies()
    requires ValidDb(OneTable()[0 := OneTable()[0].(name := "u")])
    ensures Materialize(AddColumn("u", "z", None, None), OneTable()[0 := OneTable()[0].(name := "u")]).Some?
  {
    OneTableNames();
    SmallNames();
    var mid := OneTable()[0 := OneTable()[0].(name := "u")];
    assert TableNames(mid) == ["u"] && Find(["u"], "u") == Some(0);
    assert ColumnNames(mid[0]) == ["x"] && FreshIn(["x"], "z", -1);
  }
}
