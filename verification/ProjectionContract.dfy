/** Expanding wildcards to the columns they stood for before columns were added. */
module ProjectionContract {
  import opened Prelude
  import opened Strings
  import opened SchemaDiffs
  import opened Database
  import opened Queries

  /** One table of the ordered active schema. */
  datatype TableSchema = TableSchema(name: string, columns: seq<string>)

  type Schema = seq<TableSchema>

  function SchemaNames(schema: Schema): (r: seq<string>)
    ensures |r| == |schema| && forall i | 0 <= i < |r| :: r[i] == schema[i].name
  {
    seq(|schema|, i requires 0 <= i < |schema| => schema[i].name)
  }

  function SchemaOf(db: Db): (r: Schema)
    ensures |r| == |db| && SchemaNames(r) == TableNames(db)
    ensures forall i | 0 <= i < |r| :: r[i].columns == ColumnNames(db[i])
  {
    seq(|db|, i requires 0 <= i < |db| => TableSchema(db[i].name, ColumnNames(db[i])))
  }

  datatype Plan = Plan(query: Query, expandedColumns: nat)

  // ---------------------------------------------------------------------------------
  // What the plan should be

  /** The qualifier dictionary: each binding enters under both its names, and the last entry wins. */
  function ByQualifier(from: seq<Binding>, names: seq<string>, x: string): (b: Option<nat>)
    requires TablesKnown(from, names)
    ensures b.Some? ==> b.value < |from|
    ensures b.None? ==> forall i | 0 <= i < |from| :: Fold(Qualifier(from[i])) != Fold(x)
  {
    if from == [] then None else
    var k := |from| - 1;
    var init := from[..k];
    assert forall b | 0 <= b < k :: init[b] == from[b];
    if Fold(Qualifier(from[k])) == Fold(x) || Fold(names[Physical(from, names, k)]) == Fold(x) then Some(k)
    else ByQualifier(init, names, x)
  }

  /** The table that the qualifier dictionary gives for `x`. */
  function DictionaryTable(from: seq<Binding>, names: seq<string>, x: string): nat
    requires TablesKnown(from, names) && ByQualifier(from, names, x).Some?
  {
    Physical(from, names, ByQualifier(from, names, x).value)
  }

  predicate StarsKnown(items: seq<Item>, from: seq<Binding>, names: seq<string>)
    requires TablesKnown(from, names)
  {
    forall i | 0 <= i < |items| && items[i].QualifiedStar? :: ByQualifier(from, names, items[i].qualifier).Some?
  }

  predicate HasStar(items: seq<Item>) {
    exists i | 0 <= i < |items| :: !items[i].Output?
  }

  /** The names that the operations add to table `t`, in order. */
  function Added(ops: seq<Operation>, names: seq<string>, t: nat): seq<string> {
    if ops == [] then [] else
    var k := |ops| - 1;
    Added(ops[..k], names, t) +
    if ops[k].AddColumn? && Find(names, ops[k].table) == Some(t) then [ops[k].newName] else []
  }

  predicate AdditionsKnown(ops: seq<Operation>, names: seq<string>) {
    forall i | 0 <= i < |ops| && ops[i].AddColumn? :: Find(names, ops[i].table).Some? && ops[i].newName != ""
  }

  /** The columns that are not among the added ones. */
  function OldColumns(columns: seq<string>, added: seq<string>): seq<string> {
    if columns == [] then [] else
    var k := |columns| - 1;
    OldColumns(columns[..k], added) + if Find(added, columns[k]).None? then [columns[k]] else []
  }

  function Outputs(columns: seq<string>, qualifier: Option<string>): (r: seq<Item>)
    ensures |r| == |columns|
    ensures forall i | 0 <= i < |r| :: r[i] == Output(Col(Ref(qualifier, columns[i])))
  {
    seq(|columns|, i requires 0 <= i < |columns| => Output(Col(Ref(qualifier, columns[i]))))
  }

  /** The outputs that stand for one binding under a plain star, qualified when there are several. */
  function BindingOutputs(from: seq<Binding>, schema: Schema, ops: seq<Operation>, b: nat): seq<Item>
    requires TablesKnown(from, SchemaNames(schema)) && b < |from|
  {
    var t := Physical(from, SchemaNames(schema), b);
    Outputs(OldColumns(schema[t].columns, Added(ops, SchemaNames(schema), t)),
            if |from| > 1 then Some(Qualifier(from[b])) else None)
  }

  function ExpandBindings(from: seq<Binding>, schema: Schema, ops: seq<Operation>, n: nat): seq<Item>
    requires TablesKnown(from, SchemaNames(schema)) && n <= |from|
  {
    if n == 0 then []
    else ExpandBindings(from, schema, ops, n - 1) + BindingOutputs(from, schema, ops, n - 1)
  }

  function ExpandItem(item: Item, from: seq<Binding>, schema: Schema, ops: seq<Operation>): seq<Item>
    requires TablesKnown(from, SchemaNames(schema))
    requires item.QualifiedStar? ==> ByQualifier(from, SchemaNames(schema), item.qualifier).Some?
  {
    match item
    case Star => ExpandBindings(from, schema, ops, |from|)
    case QualifiedStar(x) =>
      var t := Physical(from, SchemaNames(schema), ByQualifier(from, SchemaNames(schema), x).value);
      Outputs(OldColumns(schema[t].columns, Added(ops, SchemaNames(schema), t)), Some(x))
    case Output(_) => [item]
  }

  function ExpandItems(items: seq<Item>, from: seq<Binding>, schema: Schema, ops: seq<Operation>): seq<Item>
    requires TablesKnown(from, SchemaNames(schema)) && StarsKnown(items, from, SchemaNames(schema))
  {
    if items == [] then [] else
    var k := |items| - 1;
    ExpandItems(items[..k], from, schema, ops) + ExpandItem(items[k], from, schema, ops)
  }

  /** How many outputs come from wildcards. */
  function ExpandedCount(items: seq<Item>, from: seq<Binding>, schema: Schema, ops: seq<Operation>): nat
    requires TablesKnown(from, SchemaNames(schema)) && StarsKnown(items, from, SchemaNames(schema))
  {
    if items == [] then 0 else
    var k := |items| - 1;
    ExpandedCount(items[..k], from, schema, ops) +
    if items[k].Output? then 0 else |ExpandItem(items[k], from, schema, ops)|
  }

  /** Every table that a wildcard covers keeps at least one column. */
  predicate ItemRemains(item: Item, from: seq<Binding>, schema: Schema, ops: seq<Operation>)
    requires TablesKnown(from, SchemaNames(schema))
    requires item.QualifiedStar? ==> ByQualifier(from, SchemaNames(schema), item.qualifier).Some?
  {
    var names := SchemaNames(schema);
    match item
    case Star => forall b | 0 <= b < |from| :: Remains(schema, ops, Physical(from, names, b))
    case QualifiedStar(x) => Remains(schema, ops, Physical(from, names, ByQualifier(from, names, x).value))
    case Output(_) => true
  }

  predicate ColumnsRemain(items: seq<Item>, from: seq<Binding>, schema: Schema, ops: seq<Operation>)
    requires TablesKnown(from, SchemaNames(schema)) && StarsKnown(items, from, SchemaNames(schema))
  {
    forall i | 0 <= i < |items| :: ItemRemains(items[i], from, schema, ops)
  }

  predicate Remains(schema: Schema, ops: seq<Operation>, t: nat)
    requires t < |schema|
  {
    OldColumns(schema[t].columns, Added(ops, SchemaNames(schema), t)) != []
  }

  function PlanFor(q: Query, ops: seq<Operation>, schema: Schema): Result<Plan, PlannerError> {
    var names := SchemaNames(schema);
    if q.from == [] || !TablesKnown(q.from, names) || !StarsKnown(q.items, q.from, names) then Err(Invalid)
    else if !HasStar(q.items) then Err(NoWildcard)
    else if !AdditionsKnown(ops, names) || Additions(ops) == [] || !ColumnsRemain(q.items, q.from, schema, ops)
    then Err(Invalid)
    else Ok(Plan(q.(items := ExpandItems(q.items, q.from, schema, ops)),
                 ExpandedCount(q.items, q.from, schema, ops)))
  }

  /** A column stays unless an added name differs from it in case at most; the order stays. */
  lemma ColumnsOneByOne(before: seq<string>, c: string, after: seq<string>, added: seq<string>)
    ensures OldColumns(before + [c] + after, added) ==
            OldColumns(before, added) +
            (if exists a | 0 <= a < |added| :: Fold(added[a]) == Fold(c) then [] else [c]) +
            OldColumns(after, added)
  {
    ColumnsConcat(before + [c], after, added);
    assert (before + [c])[..|before|] == before;
  }

  lemma {:induction false} ColumnsConcat(before: seq<string>, after: seq<string>, added: seq<string>)
    ensures OldColumns(before + after, added) == OldColumns(before, added) + OldColumns(after, added)
  {
    if after == [] {
      assert before + after == before;
    } else {
      var k := |after| - 1;
      ColumnsConcat(before, after[..k], added);
      assert (before + after)[..|before| + k] == before + after[..k];
      Regroup(OldColumns(before, added), OldColumns(after[..k], added),
              if Find(added, after[k]).None? then [after[k]] else []);
    }
  }

  /** A column of some name, written with the given qualifier or bare. */
  predicate WrittenWith(item: Item, qualifier: Option<string>) {
    item.Output? && item.e.Col? && item.e.ref.qualifier == qualifier
  }

  /** How an expanded column is written: bare under a plain star over one binding, otherwise with the qualifier. */
  lemma ExpansionWritten(from: seq<Binding>, schema: Schema, ops: seq<Operation>, b: nat, x: string, i: nat)
    requires TablesKnown(from, SchemaNames(schema)) && b < |from|
    requires ByQualifier(from, SchemaNames(schema), x).Some?
    ensures var outputs := BindingOutputs(from, schema, ops, b);
            i < |outputs| ==> WrittenWith(outputs[i], if |from| == 1 then None else
              Some(if from[b].alias.Some? then from[b].alias.value else from[b].table))
    ensures var outputs := ExpandItem(QualifiedStar(x), from, schema, ops);
            i < |outputs| ==> WrittenWith(outputs[i], Some(x))
  {
  }

  /** No table of the schema has the name. */
  ghost predicate Missing(schema: Schema, x: string) {
    forall t | 0 <= t < |schema| :: Fold(schema[t].name) != Fold(x)
  }

  /** One of the additions goes to an unknown table or has no name. */
  ghost predicate AdditionAstray(ops: seq<Operation>, schema: Schema) {
    exists op | op in ops && op.AddColumn? ::
      op.newName == "" || Missing(schema, op.table)
  }

  ghost predicate TableMissing(from: seq<Binding>, schema: Schema) {
    exists b | 0 <= b < |from| :: Missing(schema, from[b].table)
  }

  lemma NameMissing(schema: Schema, x: string)
    ensures Find(SchemaNames(schema), x).None? <==> Missing(schema, x)
  {
    var names := SchemaNames(schema);
    assert forall t | 0 <= t < |schema| :: names[t] == schema[t].name;
  }

  lemma MissingIs(from: seq<Binding>, schema: Schema)
    ensures TableMissing(from, schema) <==> !TablesKnown(from, SchemaNames(schema))
  {
    forall b | 0 <= b < |from|
      ensures Find(SchemaNames(schema), from[b].table).None? <==> Missing(schema, from[b].table)
    {
      NameMissing(schema, from[b].table);
    }
  }

  lemma AstrayIs(ops: seq<Operation>, schema: Schema)
    ensures AdditionAstray(ops, schema) <==> !AdditionsKnown(ops, SchemaNames(schema))
  {
    forall op: Operation | op.AddColumn?
      ensures Find(SchemaNames(schema), op.table).None? <==> Missing(schema, op.table)
    {
      NameMissing(schema, op.table);
    }
    if AdditionAstray(ops, schema) {
      var op :| op in ops && op.AddColumn? && (op.newName == "" || Missing(schema, op.table));
      var i :| 0 <= i < |ops| && ops[i] == op;
      assert Find(SchemaNames(schema), ops[i].table).None? || ops[i].newName == "";
    }
    if !AdditionsKnown(ops, SchemaNames(schema)) {
      var i :| 0 <= i < |ops| && ops[i].AddColumn? &&
               (Find(SchemaNames(schema), ops[i].table).None? || ops[i].newName == "");
      assert ops[i] in ops;
    }
  }

  lemma {:induction false} NoAdditionsIs(ops: seq<Operation>)
    ensures Additions(ops) == [] <==> forall op | op in ops :: !op.AddColumn?
  {
    if ops != [] {
      var k := |ops| - 1;
      NoAdditionsIs(ops[..k]);
      assert ops == ops[..k] + [ops[k]];
    }
  }

  /**
   When the planner gives up. The harmless way: tables are known and there is no wildcard at all. The other way: no
   table, an unknown table, an unknown qualifier before a star; or, with a wildcard, no addition, an addition to an
   unknown table or without a name, or a table that keeps no column.
   */
  lemma PlanErrorsExactly(q: Query, ops: seq<Operation>, schema: Schema)
    ensures var names := SchemaNames(schema);
            var readable := q.from != [] && !TableMissing(q.from, schema);
            var starry := exists i | 0 <= i < |q.items| :: !q.items[i].Output?;
            && (PlanFor(q, ops, schema) == Err(NoWildcard) <==> readable && !starry)
            && (PlanFor(q, ops, schema) == Err(Invalid) <==>
                  || !readable
                  || (TablesKnown(q.from, names) && !StarsKnown(q.items, q.from, names))
                  || (starry && (AdditionAstray(ops, schema) || forall op | op in ops :: !op.AddColumn?))
                  || (starry && TablesKnown(q.from, names) && StarsKnown(q.items, q.from, names) &&
                      !ColumnsRemain(q.items, q.from, schema, ops)))
  {
    MissingIs(q.from, schema);
    AstrayIs(ops, schema);
    NoAdditionsIs(ops);
  }

  // ---------------------------------------------------------------------------------
  // The planner

  /** `_table_bindings`: fails when a table is unknown or there is none. */
  method TableBindings(from: seq<Binding>, schema: Schema) returns (ordered: Option<seq<nat>>)
    ensures ordered.Some? <==> from != [] && TablesKnown(from, SchemaNames(schema))
    ensures ordered.Some? ==>
              && |ordered.value| == |from|
              && forall b | 0 <= b < |from| :: ordered.value[b] == Physical(from, SchemaNames(schema), b)
  {
    var names := SchemaNames(schema);
    var found: seq<nat> := [];
    for b := 0 to |from|
      invariant |found| == b
      invariant forall i | 0 <= i < b :: Find(names, from[i].table) == Some(found[i])
    {
      var physical := Find(names, from[b].table);
      if physical.None? {
        return None;
      }
      found := found + [physical.value];
    }
    return if found == [] then None else Some(found);
  }

  // The analysis of the wildcards

  datatype Profile = SingleTablePlain | SingleTableQualified | MultiTablePlain | MultiTableQualified

  datatype Analysis = Analysis(profile: Profile, referenced: seq<nat>, wildcard: seq<nat>, plain: nat, qualified: nat)

  function PlainStars(items: seq<Item>): set<nat> {
    set i: nat | i < |items| && items[i].Star?
  }

  function QualifiedStars(items: seq<Item>): set<nat> {
    set i: nat | i < |items| && items[i].QualifiedStar?
  }

  /** The tables of all bindings, in order. */
  function BoundTables(from: seq<Binding>, names: seq<string>): (r: seq<nat>)
    requires TablesKnown(from, names)
    ensures |r| == |from| && forall b | 0 <= b < |from| :: r[b] == Physical(from, names, b)
  {
    seq(|from|, b requires 0 <= b < |from| => Physical(from, names, b))
  }

  /** The tables that one item's wildcard covers. */
  function ItemTables(item: Item, from: seq<Binding>, names: seq<string>): seq<nat>
    requires TablesKnown(from, names)
    requires item.QualifiedStar? ==> ByQualifier(from, names, item.qualifier).Some?
  {
    match item
    case Star => BoundTables(from, names)
    case QualifiedStar(x) => [DictionaryTable(from, names, x)]
    case Output(_) => []
  }

  /** The tables that the wildcards cover, one after the other. */
  function StarTables(items: seq<Item>, from: seq<Binding>, names: seq<string>): seq<nat>
    requires TablesKnown(from, names) && StarsKnown(items, from, names)
  {
    if items == [] then [] else
    var k := |items| - 1;
    StarTables(items[..k], from, names) + ItemTables(items[k], from, names)
  }

  /** The distinct values in the order in which they first occur. */
  function FirstUses(s: seq<nat>): seq<nat> {
    if s == [] then [] else
    var k := |s| - 1;
    FirstUses(s[..k]) + if s[k] in s[..k] then [] else [s[k]]
  }

  /** Value `v` occurs in `s` before `w` does. */
  ghost predicate UsedBefore(s: seq<nat>, v: nat, w: nat) {
    exists i | 0 <= i < |s| :: s[i] == v && w !in s[..i + 1]
  }

  /** What first uses are: the same values, each once, by their first occurrence. */
  lemma {:induction false} FirstUsesMeans(s: seq<nat>)
    ensures forall v :: v in FirstUses(s) <==> v in s
    ensures forall i, j | 0 <= i < j < |FirstUses(s)| :: UsedBefore(s, FirstUses(s)[i], FirstUses(s)[j])
  {
    if s != [] {
      var k := |s| - 1;
      var past, r := FirstUses(s[..k]), FirstUses(s);
      FirstUsesMeans(s[..k]);
      assert s == s[..k] + [s[k]];
      forall i, j | 0 <= i < j < |r|
        ensures UsedBefore(s, r[i], r[j])
      {
        if j < |past| {
          UsedEarlier(s, k, past[i], past[j]);
        } else {
          UsedInPrefix(s, k, past[i]);
        }
      }
    }
  }

  lemma UsedEarlier(s: seq<nat>, k: nat, v: nat, w: nat)
    requires k <= |s| && UsedBefore(s[..k], v, w)
    ensures UsedBefore(s, v, w)
  {
    var i :| 0 <= i < k && s[..k][i] == v && w !in s[..k][..i + 1];
    assert s[..k][..i + 1] == s[..i + 1];
  }

  lemma UsedInPrefix(s: seq<nat>, k: nat, v: nat)
    requires k < |s| && v in s[..k] && s[k] !in s[..k]
    ensures UsedBefore(s, v, s[k])
  {
    var i :| 0 <= i < k && s[..k][i] == v;
    assert forall m | 0 <= m < i + 1 :: s[..i + 1][m] == s[..k][m];
  }

  /** A plain star covers the table of every binding, a qualified one that of its qualifier. */
  ghost predicate CoversTable(item: Item, from: seq<Binding>, names: seq<string>, t: nat)
    requires TablesKnown(from, names)
    requires item.QualifiedStar? ==> ByQualifier(from, names, item.qualifier).Some?
  {
    || (item.Star? && exists b | 0 <= b < |from| :: Physical(from, names, b) == t)
    || (item.QualifiedStar? && DictionaryTable(from, names, item.qualifier) == t)
  }

  lemma ItemTablesAre(item: Item, from: seq<Binding>, names: seq<string>, t: nat)
    requires TablesKnown(from, names)
    requires item.QualifiedStar? ==> ByQualifier(from, names, item.qualifier).Some?
    ensures t in ItemTables(item, from, names) <==> CoversTable(item, from, names, t)
  {
    if item.Star? {
      var all := BoundTables(from, names);
      if b :| 0 <= b < |from| && Physical(from, names, b) == t { assert all[b] == t; }
      if t in all {
        var b :| 0 <= b < |all| && all[b] == t;
        assert Physical(from, names, b) == t;
      }
    }
  }

  /** The tables that the wildcards cover. */
  lemma {:induction false} StarTablesAre(items: seq<Item>, from: seq<Binding>, names: seq<string>, t: nat)
    requires TablesKnown(from, names) && StarsKnown(items, from, names)
    ensures t in StarTables(items, from, names) <==>
            exists i | 0 <= i < |items| :: CoversTable(items[i], from, names, t)
  {
    if items != [] {
      var k := |items| - 1;
      assert forall i | 0 <= i < k :: items[..k][i] == items[i];
      StarTablesAre(items[..k], from, names, t);
      ItemTablesAre(items[k], from, names, t);
    }
  }

  function KeptItems(items: seq<Item>): set<int> {
    set i | 0 <= i < |items| && items[i].Output?
  }

  lemma KeptSnoc(items: seq<Item>)
    requires items != []
    ensures var k := |items| - 1;
            |KeptItems(items)| == |KeptItems(items[..k])| + if items[k].Output? then 1 else 0
  {
    var k := |items| - 1;
    assert KeptItems(items) == KeptItems(items[..k]) + if items[k].Output? then {k} else {};
  }

  /** The count is that of the outputs which were not there before. */
  lemma {:induction false} ExpandedCountIs(items: seq<Item>, from: seq<Binding>, schema: Schema, ops: seq<Operation>)
    requires TablesKnown(from, SchemaNames(schema)) && StarsKnown(items, from, SchemaNames(schema))
    ensures ExpandedCount(items, from, schema, ops) + |KeptItems(items)| == |ExpandItems(items, from, schema, ops)|
  {
    if items == [] {
      assert KeptItems(items) == {};
    } else {
      var k := |items| - 1;
      KeptSnoc(items);
      ExpandedCountIs(items[..k], from, schema, ops);
    }
  }

  /** One more item of the projection list. */
  lemma OneMoreStar(items: seq<Item>, i: nat)
    requires i < |items|
    ensures var past, now := items[..i], items[..i + 1];
            && now[..i] == past
            && (PlainStars(now) == PlainStars(past) + if items[i].Star? then {i} else {}) && i !in PlainStars(past)
            && (QualifiedStars(now) == QualifiedStars(past) + if items[i].QualifiedStar? then {i} else {})
            && i !in QualifiedStars(past)
            && (HasStar(now) <==> HasStar(past) || !items[i].Output?)
  {
    var past, now := items[..i], items[..i + 1];
    assert now == past + [items[i]];
    StarSeen(past, items[i]);
  }

  /** What the analysis knows of the items so far. */
  ghost predicate Counted(items: seq<Item>, from: seq<Binding>, names: seq<string>, tables: seq<nat>, plain: nat, qualified: nat)
    requires TablesKnown(from, names)
  {
    && StarsKnown(items, from, names) && tables == StarTables(items, from, names)
    && plain == |PlainStars(items)| && qualified == |QualifiedStars(items)|
    && (HasStar(items) <==> tables != [])
  }

  lemma OneMoreKnown(items: seq<Item>, i: nat, from: seq<Binding>, names: seq<string>)
    requires i < |items| && TablesKnown(from, names) && StarsKnown(items[..i], from, names)
    requires items[i].QualifiedStar? ==> ByQualifier(from, names, items[i].qualifier).Some?
    ensures StarsKnown(items[..i + 1], from, names)
    ensures StarTables(items[..i + 1], from, names) == StarTables(items[..i], from, names) + ItemTables(items[i], from, names)
  {
    assert items[..i + 1][..i] == items[..i];
    assert forall k | 0 <= k < i :: items[..i + 1][k] == items[..i][k];
  }

  lemma CountedNext(items: seq<Item>, i: nat, from: seq<Binding>, names: seq<string>,
                    tables: seq<nat>, plain: nat, qualified: nat)
    requires i < |items| && from != [] && TablesKnown(from, names)
    requires Counted(items[..i], from, names, tables, plain, qualified)
    requires items[i].QualifiedStar? ==> ByQualifier(from, names, items[i].qualifier).Some?
    ensures Counted(items[..i + 1], from, names, tables + ItemTables(items[i], from, names),
                    plain + (if items[i].Star? then 1 else 0), qualified + (if items[i].QualifiedStar? then 1 else 0))
  {
    OneMoreStar(items, i);
    OneMoreKnown(items, i, from, names);
    assert items[i].Output? <==> ItemTables(items[i], from, names) == [];
  }

  /** The counting loop. */
  method CountStars(items: seq<Item>, from: seq<Binding>, names: seq<string>, ordered: seq<nat>)
    returns (r: Option<(seq<nat>, nat, nat)>)
    requires from != [] && TablesKnown(from, names) && ordered == BoundTables(from, names)
    ensures r.Some? <==> StarsKnown(items, from, names)
    ensures r.Some? ==> Counted(items, from, names, r.value.0, r.value.1, r.value.2)
  {
    var tables: seq<nat> := [];
    var plain, qualified := 0, 0;
    for i := 0 to |items|
      invariant Counted(items[..i], from, names, tables, plain, qualified)
    {
      var item := items[i];
      if item.QualifiedStar? && ByQualifier(from, names, item.qualifier).None? {
        return None;
      }
      CountedNext(items, i, from, names, tables, plain, qualified);
      if item.Star? {
        plain := plain + 1;
        tables := tables + ordered;
      } else if item.QualifiedStar? {
        qualified := qualified + 1;
        tables := tables + [DictionaryTable(from, names, item.qualifier)];
      } else {
        assert tables + [] == tables;
      }
    }
    assert items[..|items|] == items;
    return Some((tables, plain, qualified));
  }

  /** The distinct tables, as an insertion-ordered dictionary keeps them. */
  method DistinctTables(tables: seq<nat>) returns (r: seq<nat>)
    ensures r == FirstUses(tables)
  {
    r := [];
    for i := 0 to |tables|
      invariant r == FirstUses(tables[..i])
    {
      FirstUsesMeans(tables[..i]);
      assert tables[..i + 1][..i] == tables[..i];
      if tables[i] !in r {
        r := r + [tables[i]];
      }
    }
    assert tables[..|tables|] == tables;
  }

  /** `analyze_wildcard_projection`: counts and tables of the wildcards; unknown qualifiers are refused. */
  method AnalyzeWildcardProjection(q: Query, schema: Schema) returns (r: Result<Analysis, PlannerError>)
    ensures var names := SchemaNames(schema);
            && (r == Err(Invalid) <==>
                  q.from == [] || !TablesKnown(q.from, names) || !StarsKnown(q.items, q.from, names))
            && (r == Err(NoWildcard) <==> r != Err(Invalid) && !HasStar(q.items))
            && (r.Ok? ==>
                  && r.value.profile ==
                       (var star := exists i | 0 <= i < |q.items| :: q.items[i].Star?;
                        if |q.from| > 1 then (if star then MultiTablePlain else MultiTableQualified)
                        else if star then SingleTablePlain else SingleTableQualified)
                  && r.value.referenced == BoundTables(q.from, names)
                  && r.value.wildcard == FirstUses(StarTables(q.items, q.from, names))
                  && r.value.plain == |set i: nat | i < |q.items| && q.items[i].Star?|
                  && r.value.qualified == |set i: nat | i < |q.items| && q.items[i].QualifiedStar?|)
  {
    var names := SchemaNames(schema);
    var ordered := TableBindings(q.from, schema);
    if ordered.None? {
      return Err(Invalid);
    }
    assert ordered.value == BoundTables(q.from, names);
    var counted := CountStars(q.items, q.from, names, ordered.value);
    if counted.None? {
      return Err(Invalid);
    }
    var (tables, plain, qualified) := counted.value;
    if tables == [] {
      return Err(NoWildcard);
    }
    var distinct := DistinctTables(tables);
    assert PlainStars(q.items) == set i: nat | i < |q.items| && q.items[i].Star?;
    assert QualifiedStars(q.items) == set i: nat | i < |q.items| && q.items[i].QualifiedStar?;
    if i :| 0 <= i < |q.items| && q.items[i].Star? { assert i in PlainStars(q.items); }
    assert plain > 0 <==> PlainStars(q.items) != {};
    var profile := if |ordered.value| > 1 then (if plain > 0 then MultiTablePlain else MultiTableQualified)
                   else if plain > 0 then SingleTablePlain else SingleTableQualified;
    return Ok(Analysis(profile, ordered.value, distinct, plain, qualified));
  }

  lemma StarSeen(items: seq<Item>, item: Item)
    ensures HasStar(items + [item]) <==> HasStar(items) || !item.Output?
  {
    var all := items + [item];
    assert all[|items|] == item;
    if HasStar(items) {
      var i :| 0 <= i < |items| && !items[i].Output?;
      assert all[i] == items[i];
    }
  }

  /** A dictionary that holds what the operations add. */
  ghost predicate Holds(found: map<nat, seq<string>>, ops: seq<Operation>, names: seq<string>) {
    forall t: nat :: Added(ops, names, t) == if t in found then found[t] else []
  }

  lemma HoldsMore(found: map<nat, seq<string>>, ops: seq<Operation>, more: seq<Operation>, names: seq<string>, t: nat)
    requires |more| == |ops| + 1 && more[..|ops|] == ops && Holds(found, ops, names)
    requires more[|ops|].AddColumn? && Find(names, more[|ops|].table) == Some(t)
    ensures Holds(found[t := (if t in found then found[t] else []) + [more[|ops|].newName]], more, names)
  {
    var found' := found[t := (if t in found then found[t] else []) + [more[|ops|].newName]];
    forall u: nat
      ensures Added(more, names, u) == if u in found' then found'[u] else []
    {
      assert Added(ops, names, u) + [] == Added(ops, names, u);
    }
  }

  lemma HoldsSame(found: map<nat, seq<string>>, ops: seq<Operation>, more: seq<Operation>, names: seq<string>)
    requires |more| == |ops| + 1 && more[..|ops|] == ops && Holds(found, ops, names) && !more[|ops|].AddColumn?
    ensures Holds(found, more, names)
  {
    forall u: nat
      ensures Added(more, names, u) == if u in found then found[u] else []
    {
      assert Added(ops, names, u) + [] == Added(ops, names, u);
    }
  }

  lemma KnownMore(ops: seq<Operation>, more: seq<Operation>, names: seq<string>)
    requires |more| == |ops| + 1 && more[..|ops|] == ops
    ensures Additions(more) == [] <==> Additions(ops) == [] && !more[|ops|].AddColumn?
    ensures AdditionsKnown(more, names) <==>
            AdditionsKnown(ops, names) &&
            (more[|ops|].AddColumn? ==> Find(names, more[|ops|].table).Some? && more[|ops|].newName != "")
  {
    assert forall i | 0 <= i < |ops| :: more[i] == ops[i];
  }

  /** The additions, read into a dictionary from table to folded names. */
  method CollectAdditions(ops: seq<Operation>, names: seq<string>) returns (additions: Option<map<nat, seq<string>>>)
    ensures additions.Some? <==> AdditionsKnown(ops, names) && Additions(ops) != []
    ensures additions.Some? ==> Holds(additions.value, ops, names)
  {
    var found: map<nat, seq<string>> := map[];
    for i := 0 to |ops|
      invariant AdditionsKnown(ops[..i], names)
      invariant found == map[] <==> Additions(ops[..i]) == []
      invariant Holds(found, ops[..i], names)
    {
      var op := ops[i];
      ghost var past, now := ops[..i], ops[..i + 1];
      assert now[..i] == past;
      KnownMore(past, now, names);
      if !op.AddColumn? {
        HoldsSame(found, past, now, names);
        continue;
      }
      var t := Find(names, op.table);
      if t.None? || op.newName == "" {
        return None;
      }
      HoldsMore(found, past, now, names, t.value);
      found := found[t.value := (if t.value in found then found[t.value] else []) + [op.newName]];
      assert t.value in found;
    }
    assert ops[..|ops|] == ops;
    return if found == map[] then None else Some(found);
  }

  ghost predicate Reads(from: seq<Binding>, schema: Schema, ops: seq<Operation>, ordered: seq<nat>,
                        additions: map<nat, seq<string>>)
  {
    && TablesKnown(from, SchemaNames(schema)) && |ordered| == |from|
    && (forall b | 0 <= b < |from| :: ordered[b] == Physical(from, SchemaNames(schema), b))
    && Holds(additions, ops, SchemaNames(schema))
  }

  /** The columns a table had before the additions; having none is an error. */
  method OldColumnsOf(t: nat, from: seq<Binding>, schema: Schema, ghost ops: seq<Operation>, ordered: seq<nat>,
                      additions: map<nat, seq<string>>)
    returns (columns: Option<seq<string>>)
    requires Reads(from, schema, ops, ordered, additions) && t < |schema|
    ensures columns.Some? <==> Remains(schema, ops, t)
    ensures columns.Some? ==> columns.value == OldColumns(schema[t].columns, Added(ops, SchemaNames(schema), t))
  {
    var found := OldColumns(schema[t].columns, if t in additions then additions[t] else []);
    return if found == [] then None else Some(found);
  }

  /** The first `n` tables all keep an old column. */
  ghost predicate FirstRemain(schema: Schema, ops: seq<Operation>, ordered: seq<nat>, n: nat)
    requires n <= |ordered| && forall b | 0 <= b < |ordered| :: ordered[b] < |schema|
  {
    n == 0 || (FirstRemain(schema, ops, ordered, n - 1) && Remains(schema, ops, ordered[n - 1]))
  }

  lemma {:induction false} FirstRemainAll(schema: Schema, ops: seq<Operation>, ordered: seq<nat>, n: nat)
    requires n <= |ordered| && forall b | 0 <= b < |ordered| :: ordered[b] < |schema|
    ensures FirstRemain(schema, ops, ordered, n) <==> forall b | 0 <= b < n :: Remains(schema, ops, ordered[b])
  {
    if n > 0 { FirstRemainAll(schema, ops, ordered, n - 1); }
  }

  lemma FirstStops(schema: Schema, ops: seq<Operation>, ordered: seq<nat>, b: nat)
    requires b < |ordered| && forall i | 0 <= i < |ordered| :: ordered[i] < |schema|
    requires !Remains(schema, ops, ordered[b])
    ensures !FirstRemain(schema, ops, ordered, |ordered|)
  {
    FirstRemainAll(schema, ops, ordered, |ordered|);
  }

  lemma OneMoreBinding(from: seq<Binding>, schema: Schema, ops: seq<Operation>, b: nat)
    requires TablesKnown(from, SchemaNames(schema)) && b < |from|
    ensures ExpandBindings(from, schema, ops, b + 1) ==
            ExpandBindings(from, schema, ops, b) + BindingOutputs(from, schema, ops, b)
  {
  }

  /** One binding under a plain star. */
  method ExpandBinding(b: nat, from: seq<Binding>, schema: Schema, ghost ops: seq<Operation>, ordered: seq<nat>,
                       additions: map<nat, seq<string>>)
    returns (outputs: Option<seq<Item>>)
    requires Reads(from, schema, ops, ordered, additions) && b < |from|
    ensures outputs.Some? <==> Remains(schema, ops, ordered[b])
    ensures outputs.Some? ==> outputs.value == BindingOutputs(from, schema, ops, b)
  {
    var columns := OldColumnsOf(ordered[b], from, schema, ops, ordered, additions);
    if columns.None? {
      return None;
    }
    return Some(Outputs(columns.value, if |from| > 1 then Some(Qualifier(from[b])) else None));
  }

  /** A plain star over all bindings, unless some table has no old column. */
  method ExpandStar(from: seq<Binding>, schema: Schema, ghost ops: seq<Operation>, ordered: seq<nat>,
                    additions: map<nat, seq<string>>)
    returns (expanded: Option<seq<Item>>)
    requires Reads(from, schema, ops, ordered, additions)
    ensures expanded.Some? <==> FirstRemain(schema, ops, ordered, |ordered|)
    ensures expanded.Some? ==> expanded.value == ExpandBindings(from, schema, ops, |from|)
  {
    var items: seq<Item> := [];
    for b := 0 to |from|
      invariant FirstRemain(schema, ops, ordered, b)
      invariant items == ExpandBindings(from, schema, ops, b)
    {
      var outputs := ExpandBinding(b, from, schema, ops, ordered, additions);
      if outputs.None? {
        FirstStops(schema, ops, ordered, b);
        return None;
      }
      OneMoreBinding(from, schema, ops, b);
      items := items + outputs.value;
    }
    return Some(items);
  }

  /** One projection item. */
  method ExpandOne(item: Item, from: seq<Binding>, schema: Schema, ghost ops: seq<Operation>, ordered: seq<nat>,
                   additions: map<nat, seq<string>>)
    returns (expanded: Option<seq<Item>>)
    requires Reads(from, schema, ops, ordered, additions)
    requires item.QualifiedStar? ==> ByQualifier(from, SchemaNames(schema), item.qualifier).Some?
    ensures expanded.Some? <==> ItemRemains(item, from, schema, ops)
    ensures expanded.Some? ==> expanded.value == ExpandItem(item, from, schema, ops)
  {
    match item {
      case Star =>
        FirstRemainAll(schema, ops, ordered, |ordered|);
        expanded := ExpandStar(from, schema, ops, ordered, additions);
      case QualifiedStar(x) =>
        var t := ordered[ByQualifier(from, SchemaNames(schema), x).value];
        var columns := OldColumnsOf(t, from, schema, ops, ordered, additions);
        expanded := if columns.None? then None else Some(Outputs(columns.value, Some(x)));
      case Output(_) =>
        expanded := Some([item]);
    }
  }

  lemma StarsOfPrefix(items: seq<Item>, n: nat, from: seq<Binding>, names: seq<string>)
    requires n <= |items| && TablesKnown(from, names) && StarsKnown(items, from, names)
    ensures StarsKnown(items[..n], from, names)
  {
    assert forall k | 0 <= k < n :: items[..n][k] == items[k];
  }

  lemma OneMoreItem(past: seq<Item>, now: seq<Item>, item: Item, from: seq<Binding>, schema: Schema, ops: seq<Operation>)
    requires |now| == |past| + 1 && now[..|past|] == past && now[|past|] == item
    requires TablesKnown(from, SchemaNames(schema)) && StarsKnown(now, from, SchemaNames(schema))
    requires StarsKnown(past, from, SchemaNames(schema))
    ensures item.QualifiedStar? ==> ByQualifier(from, SchemaNames(schema), item.qualifier).Some?
    ensures ExpandItems(now, from, schema, ops) ==
            ExpandItems(past, from, schema, ops) + ExpandItem(item, from, schema, ops)
    ensures ExpandedCount(now, from, schema, ops) == ExpandedCount(past, from, schema, ops) +
            (if item.Output? then 0 else |ExpandItem(item, from, schema, ops)|)
  {
  }

  lemma OneMoreRemains(past: seq<Item>, now: seq<Item>, item: Item, from: seq<Binding>, schema: Schema, ops: seq<Operation>)
    requires |now| == |past| + 1 && now[..|past|] == past && now[|past|] == item
    requires TablesKnown(from, SchemaNames(schema)) && StarsKnown(now, from, SchemaNames(schema))
    requires StarsKnown(past, from, SchemaNames(schema))
    ensures item.QualifiedStar? ==> ByQualifier(from, SchemaNames(schema), item.qualifier).Some?
    ensures ColumnsRemain(now, from, schema, ops) <==>
            ColumnsRemain(past, from, schema, ops) && ItemRemains(item, from, schema, ops)
  {
    assert now == past + [item];
    if ColumnsRemain(now, from, schema, ops) {
      forall k | 0 <= k < |past|
        ensures ItemRemains(past[k], from, schema, ops)
      {
        assert now[k] == past[k];
      }
    }
  }

  /** One round of the expansion loop. */
  lemma OneMoreOf(items: seq<Item>, i: nat, from: seq<Binding>, schema: Schema, ops: seq<Operation>)
    requires i < |items| && TablesKnown(from, SchemaNames(schema)) && StarsKnown(items, from, SchemaNames(schema))
    ensures var past, now := items[..i], items[..i + 1];
            && StarsKnown(past, from, SchemaNames(schema)) && StarsKnown(now, from, SchemaNames(schema))
            && (items[i].QualifiedStar? ==> ByQualifier(from, SchemaNames(schema), items[i].qualifier).Some?)
            && ExpandItems(now, from, schema, ops) ==
               ExpandItems(past, from, schema, ops) + ExpandItem(items[i], from, schema, ops)
            && ExpandedCount(now, from, schema, ops) == ExpandedCount(past, from, schema, ops) +
               (if items[i].Output? then 0 else |ExpandItem(items[i], from, schema, ops)|)
            && (ColumnsRemain(now, from, schema, ops) <==>
                  ColumnsRemain(past, from, schema, ops) && ItemRemains(items[i], from, schema, ops))
  {
    var past, now := items[..i], items[..i + 1];
    assert now[..i] == past;
    StarsOfPrefix(items, i, from, SchemaNames(schema));
    StarsOfPrefix(items, i + 1, from, SchemaNames(schema));
    OneMoreItem(past, now, items[i], from, schema, ops);
    OneMoreRemains(past, now, items[i], from, schema, ops);
  }

  /** The expansion loop. */
  method ExpandAll(items: seq<Item>, from: seq<Binding>, schema: Schema, ghost ops: seq<Operation>, ordered: seq<nat>,
                   additions: map<nat, seq<string>>)
    returns (r: Option<(seq<Item>, nat)>)
    requires Reads(from, schema, ops, ordered, additions) && StarsKnown(items, from, SchemaNames(schema))
    ensures r.Some? <==> ColumnsRemain(items, from, schema, ops)
    ensures r.Some? ==> r.value == (ExpandItems(items, from, schema, ops), ExpandedCount(items, from, schema, ops))
  {
    var expanded: seq<Item> := [];
    var count := 0;
    for i := 0 to |items|
      invariant StarsKnown(items[..i], from, SchemaNames(schema))
      invariant ColumnsRemain(items[..i], from, schema, ops)
      invariant expanded == ExpandItems(items[..i], from, schema, ops)
      invariant count == ExpandedCount(items[..i], from, schema, ops)
    {
      OneMoreOf(items, i, from, schema, ops);
      var columns := ExpandOne(items[i], from, schema, ops, ordered, additions);
      if columns.None? {
        return None;
      }
      expanded := expanded + columns.value;
      count := count + if items[i].Output? then 0 else |columns.value|;
    }
    assert items[..|items|] == items;
    return Some((expanded, count));
  }

  /** `plan_projection_contract`. */
  method PlanProjectionContract(q: Query, ops: seq<Operation>, schema: Schema) returns (r: Result<Plan, PlannerError>)
    ensures r == PlanFor(q, ops, schema)
  {
    var analysis := AnalyzeWildcardProjection(q, schema);
    if analysis.Err? {
      assert analysis.error == NoWildcard || analysis.error == Invalid;
      return Err(analysis.error);
    }
    var additions := CollectAdditions(ops, SchemaNames(schema));
    if additions.None? {
      return Err(Invalid);
    }
    var ordered := TableBindings(q.from, schema);
    var expanded := ExpandAll(q.items, q.from, schema, ops, ordered.value, additions.value);
    if expanded.None? {
      return Err(Invalid);
    }
    return Ok(Plan(q.(items := expanded.value.0), expanded.value.1));
  }
}
