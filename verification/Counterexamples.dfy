/** Small databases on which a rewrite does not preserve its query: the exact conditions are not idle. */
module Counterexamples {
  import opened Prelude
  import opened Strings
  import opened SchemaDiffs
  import opened Database
  import opened Queries
  import opened Resolution
  import opened ColumnRewrites
  import opened Migrations
  import opened ProjectionContract
  import opened ProjectionMeaning
  import opened Blocks
  import opened AliasedPlans

  lemma SmallNames()
    ensures Fold("t") == "t" && Fold("u") == "u" && Fold("x") == "x" && Fold("y") == "y"
  {
  }

  lemma FindFirst(names: seq<string>, name: string)
    requires names != [] && Fold(names[0]) == Fold(name)
    ensures Find(names, name) == Some(0)
  {
  }

  /** In a scope of one binding a column's bare name means that column. */
  lemma BareNameResolves(s: Scope, name: string)
    requires |s.qualifiers| == |s.columns| == 1 && Find(s.columns[0], name) == Some(0)
    ensures ResolveRef(s, Ref(None, name)) == Some((0, 0))
  {
    assert Supplies(s, Ref(None, name), 0);
  }

  function TwoTables(): Db {
    [Table("t", [Column("x", "")], []), Table("u", [Column("x", "")], [])]
  }

  /** `SELECT x FROM t`. */
  function BareQuery(): Query {
    Query([Output(Col(Ref(None, "x")))], [Binding("t", None)], Lit(Null), [], None)
  }

  lemma TwoTablesValid()
    ensures ValidDb(TwoTables()) && TableNames(TwoTables()) == ["t", "u"]
    ensures ColumnNames(TwoTables()[0]) == ["x"] && ColumnNames(TwoTables()[1]) == ["x"]
  {
    SmallNames();
    assert TableNames(TwoTables()) == ["t", "u"];
    assert ColumnNames(TwoTables()[0]) == ["x"] && ColumnNames(TwoTables()[1]) == ["x"];
  }

  lemma BareQueryResolves()
    ensures TablesExist(BareQuery().from, TwoTables()) && Resolve(BareQuery(), TwoTables()).Some?
    ensures ResolveRef(ScopeOf(BareQuery().from, TwoTables()), Ref(None, "x")) == Some((0, 0))
    ensures TablesOf(BareQuery().from, TwoTables()) == [0]
  {
    TwoTablesValid();
    FindFirst(TableNames(TwoTables()), "t");
    FindFirst(["x"], "x");
    var s := ScopeOf(BareQuery().from, TwoTables());
    assert s.columns[0] == ["x"];
    BareNameResolves(s, "x");
    assert BareQuery().items[..0] == [];
    assert ResolveItem(s, BareQuery().items[0]) == Some([RCol(0, 0)]);
  }

  /** The rewriter sees two columns called `x`, one in a table that the query does not use. */
  lemma RewriterSeesTwo()
    ensures CodeResolve(TwoTables(), BareQuery().from, Ref(None, "x")) == None
  {
    TwoTablesValid();
    FindFirst(["x"], "x");
    var db := TwoTables();
    assert SchemaMatches(db, "x", 0) == [];
    assert SchemaMatches(db, "x", 1) == [(0, 0)];
    assert SchemaMatches(db, "x", 2) == [(0, 0), (1, 0)];
  }

  /** Renaming `t.x` to `y` leaves `SELECT x FROM t` as it is, and so breaks it. */
  lemma UnusedTableHidesReference(sem: Semantics)
    ensures var db, q := TwoTables(), BareQuery();
            && ValidDb(db)
            && Eval(sem, RewriteColumn(q, db, 0, 0, "y"), db[0 := RenameColumnAt(db[0], 0, "y")]) != Eval(sem, q, db)
  {
    var db, q := TwoTables(), BareQuery();
    TwoTablesValid();
    SmallNames();
    InPlaceChange(db, 0, 0, "y");
    BareQueryResolves();
    RewriterSeesTwo();
    assert Ref(None, "x") in ItemRefs(q.items[0]);
    assert Hits(ScopeOf(q.from, db), TablesOf(q.from, db), 0, 0, Ref(None, "x"));
    assert !CodeAgrees(q, db, 0, 0);
    ColumnRewriteExactly(sem, q, db, db[0 := RenameColumnAt(db[0], 0, "y")], 0, 0, "y", Stay);
  }

  // ---------------------------------------------------------------------------------
  // A captured reference

  function PairOfTables(): Db {
    [Table("t", [Column("y", "")], []), Table("u", [Column("x", "")], [])]
  }

  /** `SELECT *, x FROM t, u`. */
  function StarQuery(): Query {
    Query([Star, Output(Col(Ref(None, "x")))], [Binding("t", None), Binding("u", None)], Lit(Null), [], None)
  }

  /** Add `t.x`. */
  function Capturing(): seq<Operation> {
    [AddColumn("t", "x", None, None)]
  }

  lemma PairValid()
    ensures ValidDb(PairOfTables()) && TableNames(PairOfTables()) == ["t", "u"]
    ensures ColumnNames(PairOfTables()[0]) == ["y"] && ColumnNames(PairOfTables()[1]) == ["x"]
    ensures Find(["t", "u"], "t") == Some(0) && Find(["t", "u"], "u") == Some(1)
    ensures Find(["y"], "x") == None && Find(["x"], "x") == Some(0)
  {
    SmallNames();
    assert TableNames(PairOfTables()) == ["t", "u"];
    assert ColumnNames(PairOfTables()[0]) == ["y"] && ColumnNames(PairOfTables()[1]) == ["x"];
  }

  lemma StarQueryResolves()
    ensures TablesExist(StarQuery().from, PairOfTables()) && Resolve(StarQuery(), PairOfTables()).Some?
    ensures TableOf(StarQuery().from, PairOfTables(), 0) == 0 && TableOf(StarQuery().from, PairOfTables(), 1) == 1
  {
    PairValid();
    var q, db := StarQuery(), PairOfTables();
    var s := ScopeOf(q.from, db);
    assert s.columns[0] == ["y"] && s.columns[1] == ["x"];
    assert Supplies(s, Ref(None, "x"), 1);
    assert q.items[..1] == [Star] && q.items[..1][..0] == [];
    assert ResolveItem(s, q.items[1]).Some?;
    assert QualifierFits(s, None, 0);
    assert ResolveItem(s, Star).Some?;
    assert ResolveItems(s, q.items[..1]).Some?;
  }

  lemma CapturingApplies()
    ensures ValidDb(PairOfTables())
    ensures MaterializeAll(Capturing(), PairOfTables()).Some? && OnlyAdditions(Capturing())
    ensures Added(Capturing(), ["t", "u"], 0) == ["x"] && Added(Capturing(), ["t", "u"], 1) == []
  {
    PairValid();
    var ops := Capturing();
    assert ops[..0] == [] && ops[1..] == [];
    assert FreshIn(["y"], "x", -1);
    assert Added([], ["t", "u"], 0) == [] && Added([], ["t", "u"], 1) == [];
  }

  lemma OldColumnsStay(column: string, added: seq<string>)
    requires Find(added, column).None?
    ensures OldColumns([column], added) == [column]
  {
    assert [column][..0] == [];
  }

  /** Both tables keep their one column. */
  lemma BothRemain()
    ensures Remains(SchemaOf(PairOfTables()), Capturing(), 0) && Remains(SchemaOf(PairOfTables()), Capturing(), 1)
  {
    PairValid();
    CapturingApplies();
    OldColumnsStay("y", ["x"]);
    OldColumnsStay("x", []);
    var schema := SchemaOf(PairOfTables());
    assert SchemaNames(schema) == ["t", "u"];
    assert schema[0].columns == ["y"] && schema[1].columns == ["x"];
  }

  lemma StarKnown()
    ensures TablesKnown(StarQuery().from, ["t", "u"]) && StarsKnown(StarQuery().items, StarQuery().from, ["t", "u"])
    ensures Physical(StarQuery().from, ["t", "u"], 0) == 0 && Physical(StarQuery().from, ["t", "u"], 1) == 1
    ensures HasStar(StarQuery().items) && AdditionsKnown(Capturing(), ["t", "u"])
  {
    PairValid();
    assert StarQuery().items[0] == Star;
  }

  lemma CapturingPlanned()
    ensures PlanFor(StarQuery(), Capturing(), SchemaOf(PairOfTables())).Ok?
  {
    PairValid();
    StarKnown();
    BothRemain();
    var q, ops, schema := StarQuery(), Capturing(), SchemaOf(PairOfTables());
    assert SchemaNames(schema) == ["t", "u"];
    assert Additions(ops) == ops by { assert ops[..0] == []; }
    assert ItemRemains(q.items[0], q.from, schema, ops);
    assert ItemRemains(q.items[1], q.from, schema, ops);
  }

  lemma NamesAreClear()
    ensures TablesExist(StarQuery().from, PairOfTables())
    ensures DistinctQualifiers(StarQuery().from) && QualifiersClear(StarQuery().from, PairOfTables())
  {
    SmallNames();
    StarQueryResolves();
  }

  lemma ReferenceIsCaptured()
    ensures TablesExist(StarQuery().from, PairOfTables())
    ensures !NotCaptured(StarQuery(), Capturing(), PairOfTables())
  {
    PairValid();
    StarQueryResolves();
    CapturingApplies();
    var q, db, r := StarQuery(), PairOfTables(), Ref(None, "x");
    assert r in ItemRefs(q.items[1]);
    assert r in QueryRefs(q);
    assert Find(Added(Capturing(), TableNames(db), TableOf(q.from, db, 0)), r.name).Some?;
  }

  /** Adding `t.x` makes the bare `x` ambiguous, and no expansion of the star can help. */
  lemma AddedColumnCapturesReference(sem: Semantics)
    ensures var db, q, ops := PairOfTables(), StarQuery(), Capturing();
            && ValidDb(db) && MaterializeAll(ops, db).Some? && PlanFor(q, ops, SchemaOf(db)).Ok?
            && Eval(sem, PlanFor(q, ops, SchemaOf(db)).value.query, MaterializeAll(ops, db).value) != Eval(sem, q, db)
  {
    CapturingApplies();
    CapturingPlanned();
    StarQueryResolves();
    NamesAreClear();
    ReferenceIsCaptured();
    PlanPreservesExactly(sem, StarQuery(), Capturing(), PairOfTables());
  }

  // ---------------------------------------------------------------------------------
  // An alias that is another table's name

  /** `t(x, y)` and `u(y, x)`, one row each. */
  function SwappedTables(): Db {
    [Table("t", [Column("x", ""), Column("y", "")], [Numbered(2)]),
     Table("u", [Column("y", ""), Column("x", "")], [Numbered(2)])]
  }

  /** `SELECT u.* FROM t AS u, u AS v`. */
  function AliasedQuery(): Query {
    Query([QualifiedStar("u")], AliasedFrom(), Lit(Null), [], None)
  }

  function AliasedFrom(): seq<Binding> {
    [Binding("t", Some("u")), Binding("u", Some("v"))]
  }

  /** Add `t.z`. */
  function Widening(): seq<Operation> {
    [AddColumn("t", "z", None, None)]
  }

  lemma SwappedNames()
    ensures TableNames(SwappedTables()) == ["t", "u"]
    ensures ColumnNames(SwappedTables()[0]) == ["x", "y"] && ColumnNames(SwappedTables()[1]) == ["y", "x"]
    ensures Fold("t") == "t" && Fold("u") == "u" && Fold("v") == "v" && Fold("x") == "x" && Fold("y") == "y" && Fold("z") == "z"
  {
    assert TableNames(SwappedTables()) == ["t", "u"];
    assert ColumnNames(SwappedTables()[0]) == ["x", "y"] && ColumnNames(SwappedTables()[1]) == ["y", "x"];
  }

  lemma SwappedValid()
    ensures ValidDb(SwappedTables()) && OneRowEach(SwappedTables()) == SwappedTables()
  {
    SwappedNames();
  }

  lemma SwappedFound()
    ensures Find(["t", "u"], "t") == Some(0) && Find(["t", "u"], "u") == Some(1)
    ensures TablesKnown(AliasedFrom(), ["t", "u"])
    ensures Physical(AliasedFrom(), ["t", "u"], 0) == 0 && Physical(AliasedFrom(), ["t", "u"], 1) == 1
    ensures DistinctQualifiers(AliasedFrom())
  {
    SwappedNames();
    FindAt(["t", "u"], "t", 0);
    FindAt(["t", "u"], "u", 1);
  }

  /** The qualifier dictionary takes `u` for the table of that name. */
  lemma DictionaryTakesTable()
    ensures TablesKnown(AliasedFrom(), ["t", "u"]) && ByQualifier(AliasedFrom(), ["t", "u"], "u") == Some(1)
    ensures DictionaryTable(AliasedFrom(), ["t", "u"], "u") == 1
    ensures StarsKnown(AliasedQuery().items, AliasedFrom(), ["t", "u"])
  {
    SwappedNames();
    SwappedFound();
  }

  lemma WideningAdds()
    ensures Added(Widening(), ["t", "u"], 0) == ["z"] && Added(Widening(), ["t", "u"], 1) == []
    ensures AdditionsKnown(Widening(), ["t", "u"]) && Additions(Widening()) == Widening()
    ensures OnlyAdditions(Widening())
  {
    SwappedFound();
    var ops := Widening();
    assert ops[..0] == [];
    assert Added([], ["t", "u"], 0) == [] && Added([], ["t", "u"], 1) == [];
  }

  lemma WideningApplies()
    requires ValidDb(SwappedTables())
    ensures MaterializeAll(Widening(), SwappedTables()).Some?
  {
    SwappedNames();
    SwappedFound();
    assert Widening()[1..] == [];
    assert FreshIn(["x", "y"], "z", -1);
  }

  lemma AliasedResolves()
    ensures TablesExist(AliasedFrom(), SwappedTables()) && Resolve(AliasedQuery(), SwappedTables()).Some?
  {
    SwappedNames();
    SwappedFound();
    var q, s := AliasedQuery(), ScopeOf(AliasedFrom(), SwappedTables());
    assert QualifierFits(s, Some("u"), 0);
    assert ResolveItem(s, q.items[0]).Some?;
    assert q.items[..0] == [];
  }

  lemma SecondRemains()
    ensures Remains(SchemaOf(SwappedTables()), Widening(), 1)
  {
    SwappedNames();
    WideningAdds();
    var schema := SchemaOf(SwappedTables());
    assert SchemaNames(schema) == ["t", "u"] && schema[1].columns == ["y", "x"];
    assert |OldColumns(["y", "x"], [])| > 0;
  }

  lemma AliasedPlanned()
    ensures PlanFor(AliasedQuery(), Widening(), SchemaOf(SwappedTables())).Ok?
  {
    SwappedNames();
    DictionaryTakesTable();
    WideningAdds();
    SecondRemains();
    var q, ops, schema := AliasedQuery(), Widening(), SchemaOf(SwappedTables());
    assert SchemaNames(schema) == ["t", "u"];
    assert ItemRemains(q.items[0], q.from, schema, ops);
    assert !q.items[0].Output?;
  }

  lemma AliasedPlannable()
    ensures Plannable(AliasedQuery(), Widening(), SwappedTables())
  {
    SwappedValid();
    SwappedFound();
    WideningAdds();
    WideningApplies();
    AliasedResolves();
    AliasedPlanned();
  }

  /** When only binding `k` has the qualifier, its table alone counts. */
  lemma OneCounts(x: string, from: seq<Binding>, ops: seq<Operation>, db: Db, k: nat)
    requires k < |from| && TablesExist(from, db) && ByQualifier(from, TableNames(db), x).Some?
    requires forall b | 0 <= b < |from| :: Fold(Qualifier(from[b])) == Fold(x) <==> b == k
    ensures var d, t := DictionaryTable(from, TableNames(db), x), TableOf(from, db, k);
            && (StarAligned(x, from, db) <==> SameFolds(ColumnNames(db[d]), ColumnNames(db[t])))
            && (StarCovered(x, from, ops, db) <==>
                  AllFound(ColumnNames(db[t]) + Added(ops, TableNames(db), t), ColumnNames(db[d])))
  {
    assert Fold(Qualifier(from[k])) == Fold(x);
  }

  lemma OrderDiffers()
    ensures !SameFolds(["y", "x"], ["x", "y"])
  {
    SwappedNames();
    assert Fold(["y", "x"][0]) != Fold(["x", "y"][0]);
  }

  /** The plan prepares: both names exist in either table. But they come in the other order. */
  lemma AliasedCoveredNotAligned()
    ensures TablesExist(AliasedFrom(), SwappedTables()) && ByQualifier(AliasedFrom(), ["t", "u"], "u") == Some(1)
    ensures StarCovered("u", AliasedFrom(), Widening(), SwappedTables())
    ensures !StarAligned("u", AliasedFrom(), SwappedTables())
  {
    SwappedNames();
    DictionaryTakesTable();
    SwappedFound();
    WideningAdds();
    NamesFound();
    OrderDiffers();
    OneCounts("u", AliasedFrom(), Widening(), SwappedTables(), 0);
  }

  lemma NamesFound()
    ensures AllFound(["x", "y"] + ["z"], ["y", "x"])
  {
    SwappedNames();
    assert ["x", "y"] + ["z"] == ["x", "y", "z"];
    FindAt(["x", "y", "z"], "y", 1);
    FindAt(["x", "y", "z"], "x", 0);
  }

  ghost function PlannedResult(q: Query, ops: seq<Operation>, db: Db): Option<seq<seq<Value>>>
    requires Plannable(q, ops, db)
  {
    Eval(KeepAll(), PlanFor(q, ops, SchemaOf(db)).value.query, MaterializeAll(ops, db).value)
  }

  /** On the one-row database a plan that prepares but is not aligned returns something else. */
  lemma UnalignedMisreads(q: Query, ops: seq<Operation>, db: Db)
    requires Plannable(q, ops, db) && OneRowEach(db) == db && q.limit != Some(0)
    requires NotCaptured(q, ops, db) && StarsCovered(q, ops, db) && !StarsAligned(q, db)
    ensures PlannedResult(q, ops, db).Some? && PlannedResult(q, ops, db) != Eval(KeepAll(), q, db)
  {
    PlannableIsPrepared(q, ops, db);
    PlanResolvesExactly(q, ops, db, MaterializeAll(ops, db).value);
    if Preserves(KeepAll(), q, ops, db) {
      OneRowDecides(q, ops, db);
    }
  }

  /** A query that is one qualified star. */
  lemma LoneStar(q: Query, x: string, ops: seq<Operation>, db: Db)
    requires q.items == [QualifiedStar(x)] && q.where.Lit? && q.order == [] && TablesExist(q.from, db)
    requires ByQualifier(q.from, TableNames(db), x).Some?
    ensures StarsKnown(q.items, q.from, TableNames(db)) && NotCaptured(q, ops, db)
    ensures StarsCovered(q, ops, db) <==> StarCovered(x, q.from, ops, db)
    ensures StarsAligned(q, db) <==> StarAligned(x, q.from, db)
  {
    assert q.items[0] == QualifiedStar(x);
    assert QueryRefs(q) == {};
  }

  /**
   Widening `t` turns `u.*` into `u.y, u.x`: the plan prepares, and returns the two values of the
   row in the wrong order.
   */
  lemma ShadowedAliasMisreads()
    ensures var db, q, ops := SwappedTables(), AliasedQuery(), Widening();
            && Plannable(q, ops, db)
            && PlannedResult(q, ops, db).Some? && PlannedResult(q, ops, db) != Eval(KeepAll(), q, db)
  {
    SwappedValid();
    AliasedPlannable();
    SwappedNames();
    AliasedCoveredNotAligned();
    LoneStar(AliasedQuery(), "u", Widening(), SwappedTables());
    UnalignedMisreads(AliasedQuery(), Widening(), SwappedTables());
  }
}
