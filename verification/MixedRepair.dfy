/**
 The audited repair of a diff in any order: every identifier of the query is renamed, then the wildcards are
 expanded from the source columns and the added names. When the result still means the old query.
 */
module MixedRepair {
  import opened Prelude
  import opened Strings
  import opened SchemaDiffs
  import opened RewriterAlgebra
  import opened SchemaRepair
  import opened Database
  import opened Queries
  import opened Resolution
  import opened ColumnRewrites
  import opened ProjectionContract
  import opened ProjectionMeaning
  import opened Migrations
  import opened QueryNames
  import opened QueryText
  import opened NameFollowing
  import opened TextRenames

  // ---------------------------------------------------------------------------------
  // The schema that the planner is given

  /** Each addition names a table of the source schema and has a name. */
  predicate AdditionsSound(ops: seq<Operation>, names: seq<string>) {
    forall i | 0 <= i < |ops| && ops[i].AddColumn? :: Find(names, ops[i].table).Some? && Strip(ops[i].newName) != ""
  }

  /** One added name, unless the table has it. */
  function WithColumn(schema: Schema, t: nat, name: string): (r: Schema)
    requires t < |schema|
    ensures |r| == |schema| && SchemaNames(r) == SchemaNames(schema)
    ensures forall u | 0 <= u < |schema| ::
      r[u].columns == schema[u].columns + if u == t && Find(schema[t].columns, name).None? then [name] else []
  {
    if Find(schema[t].columns, name).Some? then schema
    else
      var r := schema[t := schema[t].(columns := schema[t].columns + [name])];
      assert SchemaNames(r) == SchemaNames(schema);
      r
  }

  /** The source columns and the added names; renames and replacements leave no trace. */
  function ActiveSchema(schema: Schema, ops: seq<Operation>): (r: Option<Schema>)
    ensures r.Some? ==> |r.value| == |schema| && SchemaNames(r.value) == SchemaNames(schema)
    ensures r.Some? <==> AdditionsSound(ops, SchemaNames(schema))
  {
    if ops == [] then Some(schema) else
    var k := |ops| - 1;
    assert forall i | 0 <= i < k :: ops[..k][i] == ops[i];
    WithOperation(ActiveSchema(schema, ops[..k]), SchemaNames(schema), ops[k])
  }

  function WithOperation(before: Option<Schema>, names: seq<string>, op: Operation): Option<Schema>
    requires before.Some? ==> |before.value| == |names|
  {
    if before.None? || !op.AddColumn? then before else
    var t, name := Find(names, op.table), Strip(op.newName);
    if t.None? || name == "" then None else Some(WithColumn(before.value, t.value, name))
  }

  lemma ActiveSchemaNext(schema: Schema, ops: seq<Operation>, i: nat)
    requires i < |ops|
    ensures ops[..i + 1][..i] == ops[..i]
    ensures AdditionsSound(ops[..i + 1], SchemaNames(schema)) <==>
            AdditionsSound(ops[..i], SchemaNames(schema)) &&
            (ops[i].AddColumn? ==> Find(SchemaNames(schema), ops[i].table).Some? && Strip(ops[i].newName) != "")
  {
    assert forall k | 0 <= k < i :: ops[..i + 1][k] == ops[..i][k];
  }

  /** `_active_schema_for_projection`: an addition to a table that the source lacks, or without a name, is an error. */
  method ActiveSchemaForProjection(source: Schema, ops: seq<Operation>) returns (r: Option<Schema>)
    ensures r == ActiveSchema(source, ops)
  {
    var schema := source;
    for i := 0 to |ops|
      invariant ActiveSchema(source, ops[..i]) == Some(schema)
    {
      ActiveSchemaNext(source, ops, i);
      if ops[i].AddColumn? {
        var t, name := Find(SchemaNames(source), ops[i].table), Strip(ops[i].newName);
        if t.None? || name == "" {
          assert !AdditionsSound(ops, SchemaNames(source));
          return None;
        }
        if Find(schema[t.value].columns, name).None? {
          schema := schema[t.value := schema[t.value].(columns := schema[t.value].columns + [name])];
        }
      }
    }
    assert ops[..|ops|] == ops;
    return Some(schema);
  }

  // ---------------------------------------------------------------------------------
  // The repair

  /** The query after all mappings, as the text rewriter leaves it. */
  function RenamedQuery(ops: seq<Operation>, q: Query): Query {
    Respell(q, x => Renaming(Mappings(ops), x))
  }

  /** The audited repair on query values; `None` when the program refuses. */
  function Repaired(ops: seq<Operation>, q: Query, db: Db): Option<Query> {
    if !SafeMappings(Mappings(ops)) then None
    else if Additions(ops) == [] then Some(RenamedQuery(ops, q))
    else
      match ActiveSchema(SchemaOf(db), ops)
      case None => None
      case Some(schema) =>
        match PlanFor(RenamedQuery(ops, q), Additions(ops), schema)
        case Ok(plan) => Some(plan.query)
        case Err(NoWildcard) => Some(RenamedQuery(ops, q))
        case Err(Invalid) => None
  }

  lemma {:induction false} OnlyAdditionsKept(ops: seq<Operation>)
    requires OnlyAdditions(ops)
    ensures Additions(ops) == ops
  {
    if ops != [] {
      OnlyAdditionsKept(ops[..|ops| - 1]);
      assert ops == ops[..|ops| - 1] + [ops[|ops| - 1]];
    }
  }

  lemma AdditionsListed(ops: seq<Operation>)
    ensures OnlyAdditions(Additions(ops)) && Additions(Additions(ops)) == Additions(ops)
  {
    AdditionsOf(ops);
    OnlyAdditionsKept(Additions(ops));
  }

  lemma SoundAdditionsKnown(ops: seq<Operation>, names: seq<string>)
    requires AdditionsSound(ops, names)
    ensures AdditionsKnown(Additions(ops), names)
  {
    AdditionsOf(ops);
    forall op | op in Additions(ops)
      ensures Find(names, op.table).Some? && op.newName != ""
    {
      var i :| 0 <= i < |ops| && ops[i] == op;
    }
  }

  /**
   The repair is refused, whatever the query selects, when a mapping is unsafe; and, if the diff adds
   columns at all, when one goes to a table that the source lacks, when the renamed query reads such a
   table or has such a star, or when a star has no column left.
   */
  lemma RefusedExactly(ops: seq<Operation>, q: Query, db: Db)
    ensures Repaired(ops, q, db).Some? <==>
            && SafeMappings(Mappings(ops))
            && (Additions(ops) == [] ||
                var q', names := RenamedQuery(ops, q), TableNames(db);
                && AdditionsSound(ops, names) && q.from != []
                && TablesKnown(q'.from, names) && StarsKnown(q'.items, q'.from, names)
                && (HasStar(q'.items) ==>
                      ColumnsRemain(q'.items, q'.from, ActiveSchema(SchemaOf(db), ops).value, Additions(ops))))
  {
    AdditionsListed(ops);
    if AdditionsSound(ops, TableNames(db)) { SoundAdditionsKnown(ops, TableNames(db)); }
  }

  /** A query that reads a renamed table is refused as soon as the diff adds a column anywhere. */
  lemma RenamedTableRefused(ops: seq<Operation>, q: Query, db: Db, b: nat)
    requires b < |q.from| && Additions(ops) != []
    requires Find(TableNames(db), Renaming(Mappings(ops), q.from[b].table)).None?
    ensures Repaired(ops, q, db).None?
  {
    RefusedExactly(ops, q, db);
    assert RenamedQuery(ops, q).from[b].table == Renaming(Mappings(ops), q.from[b].table);
  }

  /** So is every query when a column is added to a table under a name that the source does not have. */
  lemma UnknownTableRefused(ops: seq<Operation>, q: Query, db: Db, i: nat)
    requires i < |ops| && ops[i].AddColumn? && Find(TableNames(db), ops[i].table).None?
    ensures Repaired(ops, q, db).None?
  {
    AdditionsOf(ops);
    assert ops[i] in Additions(ops);
    RefusedExactly(ops, q, db);
  }

  // ---------------------------------------------------------------------------------
  // Where the columns went

  /** Where column `c` of table `t` stands after one operation. */
  function Place(op: Operation, db: Db, t: nat, c: nat): nat
    requires ValidDb(db) && Materialize(op, db).Some?
  {
    if (op.RenameColumn? || op.ReplaceColumn?) && TargetTable(op, db) == Some(t) then MoveOf(op, db)(c) else c
  }

  function PlaceAfter(ops: seq<Operation>, db: Db, t: nat, c: nat): nat
    requires ValidDb(db) && MaterializeAll(ops, db).Some?
  {
    if ops == [] then c else
    MaterializeValid(ops[0], db);
    PlaceAfter(ops[1..], Materialize(ops[0], db).value, t, Place(ops[0], db, t, c))
  }

  function PlacesAfter(ops: seq<Operation>, db: Db): Places
    requires ValidDb(db) && MaterializeAll(ops, db).Some?
  {
    (t: nat, c: nat) => PlaceAfter(ops, db, t, c)
  }

  lemma MovesInside(op: Operation, db: Db)
    requires op.RenameColumn? || op.ReplaceColumn?
    requires ValidDb(db) && Materialize(op, db).Some?
    ensures var t := TargetTable(op, db).value;
            forall c | 0 <= c < |db[t].columns| :: MoveOf(op, db)(c) < |Materialize(op, db).value[t].columns|
  {
  }

  lemma ColumnPlaced(op: Operation, db: Db)
    requires op.RenameColumn? || op.ReplaceColumn?
    requires ValidDb(db) && Materialize(op, db).Some?
    ensures Placed(db, Materialize(op, db).value, (t: nat, c: nat) => Place(op, db, t, c))
  {
    var t, p := TargetTable(op, db).value, TargetColumn(op, db).value;
    var db' := Materialize(op, db).value;
    ColumnOperationChanges(op, db);
    MovesInside(op, db);
    ChangePlaces(db, db', t, p, op.newName, MoveOf(op, db));
    SamePlaces(db, db', InTable(t, MoveOf(op, db)), (u: nat, c: nat) => Place(op, db, u, c));
  }

  lemma SamePlaces(db: Db, db': Db, place: Places, place': Places)
    requires Placed(db, db', place) && forall t: nat, c: nat :: place'(t, c) == place(t, c)
    ensures Placed(db, db', place')
  {
  }

  lemma AdditionPlaced(op: Operation, db: Db)
    requires op.AddColumn? && ValidDb(db) && Materialize(op, db).Some?
    ensures Placed(db, Materialize(op, db).value, (t: nat, c: nat) => Place(op, db, t, c))
  {
    var t := TargetTable(op, db).value;
    AppendedCells(db, t, Column(op.newName, Strip(DeclaredOr(op.declaredType, "INTEGER"))),
                  Evaluated(DeclaredOr(op.defaultSql, "0")));
  }

  lemma StepPlaced(op: Operation, db: Db)
    requires ValidDb(db) && Materialize(op, db).Some?
    ensures Placed(db, Materialize(op, db).value, (t: nat, c: nat) => Place(op, db, t, c))
  {
    if op.RenameColumn? || op.ReplaceColumn? { ColumnPlaced(op, db); } else if op.AddColumn? { AdditionPlaced(op, db); }
  }

  lemma PlacedChain(db: Db, mid: Db, db': Db, first: Places, second: Places, both: Places)
    requires Placed(db, mid, first) && Placed(mid, db', second)
    requires forall t: nat, c: nat :: both(t, c) == second(t, first(t, c))
    ensures Placed(db, db', both)
  {
  }

  /** Every diff keeps all rows, and every old cell is found again at the column's place. */
  lemma {:induction false} DiffPlaced(ops: seq<Operation>, db: Db)
    requires ValidDb(db) && MaterializeAll(ops, db).Some?
    ensures Placed(db, MaterializeAll(ops, db).value, PlacesAfter(ops, db))
  {
    if ops != [] {
      var mid := Materialize(ops[0], db).value;
      MaterializeValid(ops[0], db);
      StepPlaced(ops[0], db);
      DiffPlaced(ops[1..], mid);
      PlacedChain(db, mid, MaterializeAll(ops, db).value, (t: nat, c: nat) => Place(ops[0], db, t, c),
                  PlacesAfter(ops[1..], mid), PlacesAfter(ops, db));
    }
  }

  // ---------------------------------------------------------------------------------
  // The repaired query, piece by piece

  /** The wildcards are expanded. */
  predicate IsPlanned(ops: seq<Operation>, q: Query, db: Db) {
    && Additions(ops) != [] && ActiveSchema(SchemaOf(db), ops).Some?
    && PlanFor(RenamedQuery(ops, q), Additions(ops), ActiveSchema(SchemaOf(db), ops).value).Ok?
  }

  lemma PlannedKnows(ops: seq<Operation>, q: Query, db: Db)
    requires IsPlanned(ops, q, db)
    ensures var q', schema := RenamedQuery(ops, q), ActiveSchema(SchemaOf(db), ops).value;
            TablesKnown(q'.from, SchemaNames(schema)) && StarsKnown(q'.items, q'.from, SchemaNames(schema))
  {
  }

  /** What stands for each item: the planned outputs of a wildcard, or the renamed item. */
  function PlannedBlocks(ops: seq<Operation>, q: Query, db: Db): (r: seq<seq<Item>>)
    requires IsPlanned(ops, q, db)
    ensures |r| == |q.items|
  {
    PlannedKnows(ops, q, db);
    var q', schema := RenamedQuery(ops, q), ActiveSchema(SchemaOf(db), ops).value;
    seq(|q.items|, i requires 0 <= i < |q.items| => ExpandItem(q'.items[i], q'.from, schema, Additions(ops)))
  }

  function RepairPieces(ops: seq<Operation>, q: Query, db: Db): Pieces {
    var to := RespellPieces(q, x => Renaming(Mappings(ops), x));
    if IsPlanned(ops, q, db) then to.(blocks := PlannedBlocks(ops, q, db)) else to
  }

  lemma {:induction false} ExpandedBlocks(items: seq<Item>, from: seq<Binding>, schema: Schema, ops: seq<Operation>,
                                          blocks: seq<seq<Item>>)
    requires TablesKnown(from, SchemaNames(schema)) && StarsKnown(items, from, SchemaNames(schema)) && |blocks| == |items|
    requires forall i | 0 <= i < |items| :: blocks[i] == ExpandItem(items[i], from, schema, ops)
    ensures ExpandItems(items, from, schema, ops) == Joined(blocks)
  {
    if items != [] {
      var k := |items| - 1;
      StarsOfPrefix(items, k, from, SchemaNames(schema));
      ExpandedBlocks(items[..k], from, schema, ops, blocks[..k]);
      OneMoreItem(items[..k], items, items[k], from, schema, ops);
    }
  }

  /** The program's query is the query replaced piece by piece, as long as no operator is renamed. */
  lemma RepairInPieces(ops: seq<Operation>, q: Query, db: Db)
    requires Repaired(ops, q, db).Some? && OperatorsKept(q, x => Renaming(Mappings(ops), x))
    ensures Fitting(q, RepairPieces(ops, q, db)) && Repaired(ops, q, db).value == Replaced(q, RepairPieces(ops, q, db))
  {
    var g := x => Renaming(Mappings(ops), x);
    if !IsPlanned(ops, q, db) {
      RespellInPieces(q, g);
    } else {
      PlannedKnows(ops, q, db);
      var q', schema := RenamedQuery(ops, q), ActiveSchema(SchemaOf(db), ops).value;
      ExpandedBlocks(q'.items, q'.from, schema, Additions(ops), PlannedBlocks(ops, q, db));
      PlannedOutputs(ops, q, db);
      RestOfRespelling(q, g);
    }
  }

  /** The outputs of the query are not expanded. */
  lemma PlannedOutputs(ops: seq<Operation>, q: Query, db: Db)
    requires IsPlanned(ops, q, db) && OperatorsKept(q, x => Renaming(Mappings(ops), x))
    ensures Fitting(q, RepairPieces(ops, q, db))
  {
    var g := x => Renaming(Mappings(ops), x);
    var to := RepairPieces(ops, q, db);
    forall i | 0 <= i < |q.items| && q.items[i].Output?
      ensures to.blocks[i] == [Output(MapRefs(q.items[i].e, to.ref))]
    {
      OutputRespelled(q, g, i);
      assert RenamedQuery(ops, q).items[i] == RespellItem(q.items[i], g);
    }
  }

  lemma OutputRespelled(q: Query, g: string -> string, i: nat)
    requires OperatorsKept(q, g) && i < |q.items| && q.items[i].Output?
    ensures RespellItem(q.items[i], g) == Output(MapRefs(q.items[i].e, r => RespellRef(r, g)))
  {
    forall op | op in Operators(q.items[i].e)
      ensures g(op) == op
    {
      assert op in ItemOperators(q.items[i]);
      assert op in QueryOperators(q);
    }
    ExprsAgree(q.items[i].e, g, r => RespellRef(r, g));
  }

  lemma RestOfRespelling(q: Query, g: string -> string)
    requires OperatorsKept(q, g)
    ensures Respell(q, g).where == MapRefs(q.where, r => RespellRef(r, g))
    ensures Respell(q, g).order == MapExprs(q.order, r => RespellRef(r, g))
  {
    RespellIsRewrite(q, g, r => RespellRef(r, g), g, RespellBindings(q.from, g));
  }

  // ---------------------------------------------------------------------------------
  // When the repair keeps the rows

  /** Every binding's table is found again under its renamed name. */
  predicate TablesFollow(ops: seq<Operation>, q: Query, db: Db, final: Db)
    requires TablesExist(q.from, db)
  {
    forall b | 0 <= b < |q.from| ::
      Find(TableNames(final), Renaming(Mappings(ops), q.from[b].table)) == Some(TableOf(q.from, db, b))
  }

  /** The reference's renamed name is that of its column, and no second binding offers it. */
  ghost predicate RefFound(ops: seq<Operation>, q: Query, db: Db, final: Db, r: Ref)
    requires ValidDb(db) && MaterializeAll(ops, db) == Some(final) && TablesExist(q.from, db)
  {
    var to := RepairPieces(ops, q, db);
    var s := ScopeOf(q.from, db);
    && ResolveRef(s, r).Some?
    && var (b, c) := ResolveRef(s, r).value;
       var t := TableOf(q.from, db, b);
       && Find(ColumnNames(final[t]), Renaming(Mappings(ops), r.name)) == Some(PlaceAfter(ops, db, t, c))
       && MeetsOne(s, LaterScope(q, to, db, final), r, to.ref(r))
  }

  /** Every planned output is still a column of exactly one binding that its qualifier fits. */
  ghost predicate PlanResolves(ops: seq<Operation>, q: Query, db: Db, final: Db)
    requires ValidDb(db) && MaterializeAll(ops, db) == Some(final) && TablesExist(q.from, db)
  {
    IsPlanned(ops, q, db) ==>
      forall i | 0 <= i < |q.items| && !q.items[i].Output? ::
        AllResolve(LaterScope(q, RepairPieces(ops, q, db), db, final), PlannedBlocks(ops, q, db)[i])
  }

  ghost predicate AllResolve(s: Scope, items: seq<Item>)
    requires ScopeOk(s)
  {
    forall j | 0 <= j < |items| :: ResolveItem(s, items[j]).Some?
  }

  lemma RenamingFolds(ms: seq<Mapping>, x: string, y: string)
    requires Fold(x) == Fold(y)
    ensures Fold(Renaming(ms, x)) == Fold(Renaming(ms, y))
  {
    if ms != [] { RenamingFolds(ms[..|ms| - 1], x, y); }
  }

  lemma {:induction false} EachItemResolves(s: Scope, items: seq<Item>)
    requires ScopeOk(s)
    ensures ResolveItems(s, items).Some? <==> AllResolve(s, items)
  {
    if items != [] {
      var k := |items| - 1;
      EachItemResolves(s, items[..k]);
      assert forall j | 0 <= j < k :: items[..k][j] == items[j];
    }
  }

  /** What the theorem speaks about: a diff that applies, and a query that it repairs. */
  ghost predicate Repairable(ops: seq<Operation>, q: Query, db: Db, final: Db) {
    && ValidDb(db) && MaterializeAll(ops, db) == Some(final)
    && Resolve(q, db).Some? && Repaired(ops, q, db).Some? && OperatorsKept(q, x => Renaming(Mappings(ops), x))
  }

  lemma RefFoundLands(ops: seq<Operation>, q: Query, db: Db, final: Db, r: Ref)
    requires Repairable(ops, q, db, final) && r in QueryRefs(q)
    ensures var to := RepairPieces(ops, q, db);
            RefLands(ScopeOf(q.from, db), LaterScope(q, to, db, final), r, to.ref(r),
                     BindingMoves(TablesOf(q.from, db), PlacesAfter(ops, db))) <==>
            RefFound(ops, q, db, final, r)
  {
    var g := x => Renaming(Mappings(ops), x);
    var to, tables := RepairPieces(ops, q, db), TablesOf(q.from, db);
    var s, s' := ScopeOf(q.from, db), LaterScope(q, to, db, final);
    RefResolves(q, db, r);
    var (b, c) := ResolveRef(s, r).value;
    LandsByName(s, s', r, to.ref(r), BindingMoves(tables, PlacesAfter(ops, db)));
    forall x, y | Fold(x) == Fold(y)
      ensures Fold(g(x)) == Fold(g(y))
    {
      RenamingFolds(Mappings(ops), x, y);
    }
    RespelledFits(q.from, s, s', g, r.qualifier, b);
  }

  lemma RepairedStars(ops: seq<Operation>, q: Query, db: Db, final: Db)
    requires Repairable(ops, q, db, final)
    ensures var to := RepairPieces(ops, q, db);
            (forall i | 0 <= i < |q.items| && !q.items[i].Output? ::
               ResolveItems(LaterScope(q, to, db, final), to.blocks[i]).Some?) <==>
            PlanResolves(ops, q, db, final)
  {
    var g := x => Renaming(Mappings(ops), x);
    var to := RepairPieces(ops, q, db);
    var s' := LaterScope(q, to, db, final);
    if IsPlanned(ops, q, db) {
      forall i | 0 <= i < |q.items|
        ensures ResolveItems(s', to.blocks[i]).Some? <==> AllResolve(s', PlannedBlocks(ops, q, db)[i])
      {
        EachItemResolves(s', PlannedBlocks(ops, q, db)[i]);
      }
    } else {
      forall x, y | Fold(x) == Fold(y)
        ensures Fold(g(x)) == Fold(g(y))
      {
        RenamingFolds(Mappings(ops), x, y);
      }
      RespelledStarsResolve(q, db, s', g);
    }
  }

  lemma TablesFollowLand(ops: seq<Operation>, q: Query, db: Db, final: Db)
    requires TablesExist(q.from, db)
    ensures TablesFollow(ops, q, db, final) <==> TablesLand(q, RepairPieces(ops, q, db), db, final)
  {
    var to := RepairPieces(ops, q, db);
    forall b | 0 <= b < |q.from|
      ensures TableLands(q, to, db, final, b) <==>
              Find(TableNames(final), Renaming(Mappings(ops), q.from[b].table)) == Some(TableOf(q.from, db, b))
    {
    }
  }

  lemma RepairLandsExactly(ops: seq<Operation>, q: Query, db: Db, final: Db)
    requires Repairable(ops, q, db, final) && NoneAstray(q, RepairPieces(ops, q, db), db, final, PlacesAfter(ops, db))
    ensures EverythingLands(q, RepairPieces(ops, q, db), db, final,
                            BindingMoves(TablesOf(q.from, db), PlacesAfter(ops, db))) <==>
            && TablesFollow(ops, q, db, final)
            && (forall r | r in QueryRefs(q) :: RefFound(ops, q, db, final, r))
            && PlanResolves(ops, q, db, final)
  {
    var to, f := RepairPieces(ops, q, db), BindingMoves(TablesOf(q.from, db), PlacesAfter(ops, db));
    TablesFollowLand(ops, q, db, final);
    if TablesFollow(ops, q, db, final) {
      LaterScopeIsScope(q, to, db, final);
      RepairedStars(ops, q, db, final);
      forall r | r in QueryRefs(q)
        ensures RefLands(ScopeOf(q.from, db), LaterScope(q, to, db, final), r, to.ref(r), f) <==>
                RefFound(ops, q, db, final, r)
      {
        RefFoundLands(ops, q, db, final, r);
      }
    }
  }

  /**
   For every diff, in any order: the repaired query returns on the migrated database what the stale one
   returned on the original, if and only if every table that it reads is found again under its renamed
   name, every reference's renamed name is that of its column and is offered once, and every output of
   an expanded wildcard is offered once; otherwise it does not prepare. Names found in a wrong place are
   excluded, because then the data decide.
   */
  lemma RepairExactly(sem: Semantics, ops: seq<Operation>, q: Query, db: Db, final: Db)
    requires Repairable(ops, q, db, final) && NoneAstray(q, RepairPieces(ops, q, db), db, final, PlacesAfter(ops, db))
    ensures Eval(sem, Repaired(ops, q, db).value, final) == Eval(sem, q, db) <==>
            && TablesFollow(ops, q, db, final)
            && (forall r | r in QueryRefs(q) :: RefFound(ops, q, db, final, r))
            && PlanResolves(ops, q, db, final)
    ensures Eval(sem, Repaired(ops, q, db).value, final) == Eval(sem, q, db) ||
            Eval(sem, Repaired(ops, q, db).value, final) == None
  {
    var to := RepairPieces(ops, q, db);
    RepairInPieces(ops, q, db);
    DiffPlaced(ops, db);
    FollowingExactly(sem, q, to, db, final, PlacesAfter(ops, db));
    RepairLandsExactly(ops, q, db, final);
  }

  /** Where every name lands, the rows are kept, whatever else could be found under the new names. */
  lemma LandedRepairPreserves(sem: Semantics, ops: seq<Operation>, q: Query, db: Db, final: Db)
    requires Repairable(ops, q, db, final) && Fitting(q, RepairPieces(ops, q, db))
    requires EverythingLands(q, RepairPieces(ops, q, db), db, final,
                             BindingMoves(TablesOf(q.from, db), PlacesAfter(ops, db)))
    ensures Eval(sem, Repaired(ops, q, db).value, final) == Eval(sem, q, db)
  {
    RepairInPieces(ops, q, db);
    DiffPlaced(ops, db);
    LandedQueryPreserves(sem, q, RepairPieces(ops, q, db), db, final, PlacesAfter(ops, db));
  }

  // ---------------------------------------------------------------------------------
  // Renamed columns under a wildcard

  lemma {:induction false} SourceColumnsStay(schema: Schema, ops: seq<Operation>, t: nat)
    requires ActiveSchema(schema, ops).Some? && t < |schema|
    ensures schema[t].columns <= ActiveSchema(schema, ops).value[t].columns
  {
    if ops != [] { SourceColumnsStay(schema, ops[..|ops| - 1], t); }
  }

  lemma {:induction false} KeptColumn(columns: seq<string>, added: seq<string>, c: nat) returns (j: nat)
    requires c < |columns| && Find(added, columns[c]).None?
    ensures j < |OldColumns(columns, added)| && OldColumns(columns, added)[j] == columns[c]
  {
    var k := |columns| - 1;
    if c < k {
      j := KeptColumn(columns[..k], added, c);
    } else {
      j := |OldColumns(columns[..k], added)|;
    }
  }

  lemma {:induction false} BindingsJoined(from: seq<Binding>, schema: Schema, ops: seq<Operation>, blocks: seq<seq<Item>>)
    requires TablesKnown(from, SchemaNames(schema)) && |blocks| <= |from|
    requires forall b | 0 <= b < |blocks| :: blocks[b] == BindingOutputs(from, schema, ops, b)
    ensures ExpandBindings(from, schema, ops, |blocks|) == Joined(blocks)
  {
    if blocks != [] {
      var k := |blocks| - 1;
      BindingsJoined(from, schema, ops, blocks[..k]);
      OneMoreBinding(from, schema, ops, k);
    }
  }

  /** The outputs of every binding, in order. */
  function BindingBlocks(from: seq<Binding>, schema: Schema, ops: seq<Operation>): (r: seq<seq<Item>>)
    requires TablesKnown(from, SchemaNames(schema))
    ensures |r| == |from| && forall b | 0 <= b < |from| :: r[b] == BindingOutputs(from, schema, ops, b)
  {
    seq(|from|, b requires 0 <= b < |from| => BindingOutputs(from, schema, ops, b))
  }

  /** A source column that was not added is among the outputs of its binding. */
  lemma SourceColumnFails(ops: seq<Operation>, q: Query, db: Db, s: Scope, b: nat, c: nat)
    requires IsPlanned(ops, q, db) && b < |q.from| && ScopeOk(s)
    requires Find(TableNames(db), Renaming(Mappings(ops), q.from[b].table)).Some?
    requires var t := Find(TableNames(db), Renaming(Mappings(ops), q.from[b].table)).value;
             && c < |db[t].columns| && Find(Added(Additions(ops), TableNames(db), t), db[t].columns[c].name).None?
             && forall b | 0 <= b < |s.columns| :: Find(s.columns[b], db[t].columns[c].name).None?
    ensures var from, schema := RenamedQuery(ops, q).from, ActiveSchema(SchemaOf(db), ops).value;
            && TablesKnown(from, SchemaNames(schema))
            && ResolveItems(s, BindingOutputs(from, schema, Additions(ops), b)).None?
  {
    PlannedKnows(ops, q, db);
    var from, schema := RenamedQuery(ops, q).from, ActiveSchema(SchemaOf(db), ops).value;
    var t := Physical(from, SchemaNames(schema), b);
    SourceColumnsStay(SchemaOf(db), ops, t);
    assert schema[t].columns[c] == db[t].columns[c].name;
    var j := KeptColumn(schema[t].columns, Added(Additions(ops), SchemaNames(schema), t), c);
    var items := BindingOutputs(from, schema, Additions(ops), b);
    UnofferedFails(s, db[t].columns[c].name, if |from| > 1 then Some(Qualifier(from[b])) else None);
    EachItemResolves(s, items);
    assert ResolveItem(s, items[j]).None?;
  }

  lemma UnofferedFails(s: Scope, x: string, qualifier: Option<string>)
    requires ScopeOk(s) && forall b | 0 <= b < |s.columns| :: Find(s.columns[b], x).None?
    ensures ResolveItem(s, Output(Col(Ref(qualifier, x)))).None?
  {
    var r := Ref(qualifier, x);
    assert forall b: nat :: !Offers(s, r, b);
  }

  /**
   The expansion writes the names of the source. Whenever a diff that adds columns leaves a column of a
   table under a plain star without its name, and no other table in reach has that name, the repaired
   query does not prepare.
   */
  lemma RenamedColumnLosesStar(ops: seq<Operation>, q: Query, db: Db, final: Db, i: nat, b: nat, c: nat)
    requires Repairable(ops, q, db, final) && IsPlanned(ops, q, db) && i < |q.items| && q.items[i].Star? && b < |q.from|
    requires Find(TableNames(db), Renaming(Mappings(ops), q.from[b].table)).Some?
    requires var t := Find(TableNames(db), Renaming(Mappings(ops), q.from[b].table)).value;
             && c < |db[t].columns| && Find(Added(Additions(ops), TableNames(db), t), db[t].columns[c].name).None?
             && forall u | 0 <= u < |final| :: Find(ColumnNames(final[u]), db[t].columns[c].name).None?
    ensures Resolve(Repaired(ops, q, db).value, final).None?
  {
    var to := RepairPieces(ops, q, db);
    RepairInPieces(ops, q, db);
    if TablesExist(to.from, final) {
      var s' := ScopeOf(to.from, final);
      SourceColumnFails(ops, q, db, s', b, c);
      var from, schema := RenamedQuery(ops, q).from, ActiveSchema(SchemaOf(db), ops).value;
      BindingsJoined(from, schema, Additions(ops), BindingBlocks(from, schema, Additions(ops)));
      JoinNeedsEach(s', BindingBlocks(from, schema, Additions(ops)), b);
      assert RenamedQuery(ops, q).items[i] == Star;
      JoinNeedsEach(s', to.blocks, i);
    }
  }
}
