/** The planned query returns, on the extended database, what the wildcard query returned before. */
module ProjectionMeaning {
  import opened Prelude
  import opened Strings
  import opened SchemaDiffs
  import opened Database
  import opened Queries
  import opened Resolution
  import opened ProjectionContract

  predicate OnlyAdditions(ops: seq<Operation>) {
    forall i | 0 <= i < |ops| :: ops[i].AddColumn?
  }

  // ---------------------------------------------------------------------------------
  // What the additions do to the database

  /** Table by table, the added columns stand after the old ones. */
  ghost predicate Wider(db: Db, db': Db, ops: seq<Operation>) {
    && |db'| == |db| && TableNames(db') == TableNames(db)
    && forall t | 0 <= t < |db| ::
         && |db'[t].rows| == |db[t].rows|
         && ColumnNames(db'[t]) == ColumnNames(db[t]) + Added(ops, TableNames(db), t)
  }

  /** Columns are only added at the end, and old cells are unchanged. */
  ghost predicate Extends(db: Db, db': Db, ops: seq<Operation>) {
    Wider(db, db', ops) && SameCells(db, db')
  }

  ghost predicate SameCells(db: Db, db': Db) {
    && |db'| == |db|
    && forall u, row: nat, k | 0 <= u < |db| && 0 <= k < |db[u].columns| :: Cell(db', u, row, k) == Cell(db, u, row, k)
  }

  lemma AppendedCells(db: Db, t: nat, c: Column, v: Value)
    requires t < |db| && ValidDb(db)
    ensures SameCells(db, db[t := AppendColumn(db[t], c, v)])
  {
    var db' := db[t := AppendColumn(db[t], c, v)];
    forall u, row: nat, k | 0 <= u < |db| && 0 <= k < |db[u].columns|
      ensures Cell(db', u, row, k) == Cell(db, u, row, k)
    {
      if u == t && row < |db[t].rows| {
        assert db'[t].rows[row] == db[t].rows[row] + [v];
        assert |db[t].rows[row]| == |db[t].columns| by { assert ValidTable(db[t]); }
      }
    }
  }

  /** One more addition: names and row counts, table by table. */
  lemma AppendedShape(db: Db, t: nat, c: Column, v: Value)
    requires t < |db|
    ensures var db' := db[t := AppendColumn(db[t], c, v)];
            && TableNames(db') == TableNames(db)
            && forall u | 0 <= u < |db| ::
                 && |db'[u].rows| == |db[u].rows|
                 && ColumnNames(db'[u]) == ColumnNames(db[u]) + if u == t then [c.name] else []
  {
  }

  lemma AddedSnoc(init: seq<Operation>, op: Operation, names: seq<string>, t: nat)
    requires op.AddColumn?
    ensures Added(init + [op], names, t) ==
            Added(init, names, t) + if Find(names, op.table) == Some(t) then [op.newName] else []
  {
    assert (init + [op])[..|init|] == init;
  }

  lemma WiderStep(init: seq<Operation>, op: Operation, db: Db, mid: Db, t: nat, c: Column, v: Value)
    requires Wider(db, mid, init)
    requires op.AddColumn? && Find(TableNames(mid), op.table) == Some(t) && c.name == op.newName
    ensures Wider(db, mid[t := AppendColumn(mid[t], c, v)], init + [op])
  {
    var db' := mid[t := AppendColumn(mid[t], c, v)];
    AppendedShape(mid, t, c, v);
    forall u | 0 <= u < |db|
      ensures |db'[u].rows| == |db[u].rows|
      ensures ColumnNames(db'[u]) == ColumnNames(db[u]) + Added(init + [op], TableNames(db), u)
    {
      AddedSnoc(init, op, TableNames(db), u);
      Regroup(ColumnNames(db[u]), Added(init, TableNames(db), u), if u == t then [c.name] else []);
    }
  }

  lemma AdditionExtends(init: seq<Operation>, op: Operation, db: Db, mid: Db, t: nat, c: Column, v: Value)
    requires ValidDb(mid) && Extends(db, mid, init)
    requires op.AddColumn? && Find(TableNames(mid), op.table) == Some(t) && c.name == op.newName
    ensures Extends(db, mid[t := AppendColumn(mid[t], c, v)], init + [op])
  {
    WiderStep(init, op, db, mid, t, c, v);
    AppendedCells(mid, t, c, v);
    forall u | 0 <= u < |db|
      ensures |db[u].columns| <= |mid[u].columns|
    {
      assert |ColumnNames(mid[u])| == |ColumnNames(db[u]) + Added(init, TableNames(db), u)|;
    }
    CellsChain(db, mid, mid[t := AppendColumn(mid[t], c, v)]);
  }

  lemma CellsChain(db: Db, mid: Db, db': Db)
    requires SameCells(db, mid) && SameCells(mid, db')
    requires forall u | 0 <= u < |db| :: |db[u].columns| <= |mid[u].columns|
    ensures SameCells(db, db')
  {
  }

  lemma LastAdditionExtends(init: seq<Operation>, op: Operation, db: Db, mid: Db)
    requires ValidDb(mid) && Extends(db, mid, init) && op.AddColumn? && Materialize(op, mid).Some?
    ensures Extends(db, Materialize(op, mid).value, init + [op])
  {
    AdditionExtends(init, op, db, mid, Find(TableNames(mid), op.table).value,
                    Column(op.newName, Strip(DeclaredOr(op.declaredType, "INTEGER"))),
                    Evaluated(DeclaredOr(op.defaultSql, "0")));
  }

  lemma {:induction false} AdditionsExtend(ops: seq<Operation>, db: Db)
    requires ValidDb(db) && OnlyAdditions(ops) && MaterializeAll(ops, db).Some?
    ensures Extends(db, MaterializeAll(ops, db).value, ops)
  {
    if ops != [] {
      var k := |ops| - 1;
      assert ops == ops[..k] + [ops[k]];
      MaterializeLast(ops[..k], ops[k], db);
      AdditionsExtend(ops[..k], db);
      LastAdditionExtends(ops[..k], ops[k], db, MaterializeAll(ops[..k], db).value);
    }
  }

  /** Dropping the added names recovers the old columns, from either schema. */
  lemma {:induction false} OldColumnsKept(columns: seq<string>, added: seq<string>)
    requires Unique(columns + added)
    ensures OldColumns(columns, added) == columns
  {
    if columns != [] {
      var k := |columns| - 1;
      var all := columns + added;
      assert Unique(columns[..k] + added) by {
        assert forall i | 0 <= i < k + |added| :: (columns[..k] + added)[i] == all[if i < k then i else i + 1];
      }
      OldColumnsKept(columns[..k], added);
      assert all[k] == columns[k];
      forall i | 0 <= i < |added|
        ensures Fold(added[i]) != Fold(columns[k])
      {
        assert all[k + 1 + i] == added[i];
      }
    }
  }

  lemma {:induction false} AddedDropped(columns: seq<string>, added: seq<string>, extra: seq<string>)
    requires extra <= added
    ensures OldColumns(columns + extra, added) == OldColumns(columns, added)
  {
    if extra == [] {
      assert columns + extra == columns;
    } else {
      var k := |extra| - 1;
      AddedDropped(columns, added, extra[..k]);
      assert (columns + extra)[..|columns + extra| - 1] == columns + extra[..k];
      assert added[k] == extra[k];
    }
  }

  /** Under either schema, the old columns of a table are the columns it had. */
  lemma OldColumnsRecovered(ops: seq<Operation>, db: Db, db': Db, t: nat)
    requires ValidDb(db) && ValidDb(db') && Extends(db, db', ops) && t < |db|
    ensures var added := Added(ops, TableNames(db), t);
            OldColumns(ColumnNames(db[t]), added) == OldColumns(ColumnNames(db'[t]), added) == ColumnNames(db[t])
  {
    var added := Added(ops, TableNames(db), t);
    OldColumnsKept(ColumnNames(db[t]), added);
    AddedDropped(ColumnNames(db[t]), added, added);
  }

  // ---------------------------------------------------------------------------------
  // The plan does not care which schema it is given

  lemma SameBinding(from: seq<Binding>, ops: seq<Operation>, db: Db, db': Db, b: nat)
    requires ValidDb(db) && ValidDb(db') && Extends(db, db', ops)
    requires TablesKnown(from, TableNames(db)) && b < |from|
    ensures BindingOutputs(from, SchemaOf(db'), ops, b) == BindingOutputs(from, SchemaOf(db), ops, b)
  {
    OldColumnsRecovered(ops, db, db', Physical(from, TableNames(db), b));
  }

  lemma SameNext(from: seq<Binding>, ops: seq<Operation>, schema: Schema, schema': Schema, n: nat)
    requires TablesKnown(from, SchemaNames(schema)) && TablesKnown(from, SchemaNames(schema')) && n < |from|
    requires BindingOutputs(from, schema', ops, n) == BindingOutputs(from, schema, ops, n)
    requires ExpandBindings(from, schema', ops, n) == ExpandBindings(from, schema, ops, n)
    ensures ExpandBindings(from, schema', ops, n + 1) == ExpandBindings(from, schema, ops, n + 1)
  {
    OneMoreBinding(from, schema, ops, n);
    OneMoreBinding(from, schema', ops, n);
  }

  lemma {:induction false} SameOutputs(from: seq<Binding>, ops: seq<Operation>, schema: Schema, schema': Schema, n: nat)
    requires SchemaNames(schema) == SchemaNames(schema') && TablesKnown(from, SchemaNames(schema)) && n <= |from|
    requires forall b | 0 <= b < |from| :: BindingOutputs(from, schema', ops, b) == BindingOutputs(from, schema, ops, b)
    ensures ExpandBindings(from, schema', ops, n) == ExpandBindings(from, schema, ops, n)
  {
    if n > 0 {
      SameOutputs(from, ops, schema, schema', n - 1);
      SameNext(from, ops, schema, schema', n - 1);
    }
  }

  lemma SameBindings(from: seq<Binding>, ops: seq<Operation>, db: Db, db': Db)
    requires ValidDb(db) && ValidDb(db') && Extends(db, db', ops)
    requires TablesKnown(from, TableNames(db))
    ensures ExpandBindings(from, SchemaOf(db'), ops, |from|) == ExpandBindings(from, SchemaOf(db), ops, |from|)
  {
    forall b | 0 <= b < |from| {
      SameBinding(from, ops, db, db', b);
    }
    SameOutputs(from, ops, SchemaOf(db), SchemaOf(db'), |from|);
  }

  lemma SameItem(item: Item, from: seq<Binding>, ops: seq<Operation>, db: Db, db': Db)
    requires ValidDb(db) && ValidDb(db') && Extends(db, db', ops) && TablesKnown(from, TableNames(db))
    requires item.QualifiedStar? ==> ByQualifier(from, TableNames(db), item.qualifier).Some?
    ensures ExpandItem(item, from, SchemaOf(db'), ops) == ExpandItem(item, from, SchemaOf(db), ops)
    ensures ItemRemains(item, from, SchemaOf(db'), ops) == ItemRemains(item, from, SchemaOf(db), ops)
  {
    forall t | 0 <= t < |db|
      ensures Remains(SchemaOf(db'), ops, t) == Remains(SchemaOf(db), ops, t)
    {
      OldColumnsRecovered(ops, db, db', t);
    }
    match item
    case Star => SameBindings(from, ops, db, db');
    case QualifiedStar(x) =>
      OldColumnsRecovered(ops, db, db', Physical(from, TableNames(db), ByQualifier(from, TableNames(db), x).value));
    case Output(_) =>
  }

  lemma {:induction false} SameItems(items: seq<Item>, from: seq<Binding>, ops: seq<Operation>, db: Db, db': Db)
    requires ValidDb(db) && ValidDb(db') && Extends(db, db', ops)
    requires TablesKnown(from, TableNames(db)) && StarsKnown(items, from, TableNames(db))
    ensures ExpandItems(items, from, SchemaOf(db'), ops) == ExpandItems(items, from, SchemaOf(db), ops)
    ensures ExpandedCount(items, from, SchemaOf(db'), ops) == ExpandedCount(items, from, SchemaOf(db), ops)
    ensures ColumnsRemain(items, from, SchemaOf(db'), ops) == ColumnsRemain(items, from, SchemaOf(db), ops)
  {
    if items != [] {
      var k := |items| - 1;
      StarsOfPrefix(items, k, from, TableNames(db));
      OneMoreItem(items[..k], items, items[k], from, SchemaOf(db), ops);
      OneMoreItem(items[..k], items, items[k], from, SchemaOf(db'), ops);
      OneMoreRemains(items[..k], items, items[k], from, SchemaOf(db), ops);
      OneMoreRemains(items[..k], items, items[k], from, SchemaOf(db'), ops);
      SameItems(items[..k], from, ops, db, db');
      SameItem(items[k], from, ops, db, db');
    }
  }

  /** The plan is the same whether it is given the schema before or after the additions. */
  lemma PlanIgnoresAdditions(q: Query, ops: seq<Operation>, db: Db)
    requires ValidDb(db) && OnlyAdditions(ops) && MaterializeAll(ops, db).Some?
    ensures PlanFor(q, ops, SchemaOf(MaterializeAll(ops, db).value)) == PlanFor(q, ops, SchemaOf(db))
  {
    var db' := MaterializeAll(ops, db).value;
    AdditionsExtend(ops, db);
    if TablesKnown(q.from, TableNames(db)) && StarsKnown(q.items, q.from, TableNames(db)) {
      SameItems(q.items, q.from, ops, db, db');
    }
  }

  // ---------------------------------------------------------------------------------
  // The plan means the old query

  /** No two bindings share a qualifier. */
  predicate DistinctQualifiers(from: seq<Binding>) {
    forall i, j | 0 <= i < j < |from| :: Fold(Qualifier(from[i])) != Fold(Qualifier(from[j]))
  }

  /** No qualifier is the name of another binding's table, unless it is the same table. */
  ghost predicate QualifiersClear(from: seq<Binding>, db: Db)
    requires TablesExist(from, db)
  {
    forall i, j | 0 <= i < |from| && 0 <= j < |from| ::
      Fold(Qualifier(from[i])) == Fold(db[TableOf(from, db, j)].name) ==>
      TableOf(from, db, i) == TableOf(from, db, j)
  }

  /** No unqualified reference is also the name of an added column. */
  ghost predicate NotCaptured(q: Query, ops: seq<Operation>, db: Db)
    requires TablesExist(q.from, db)
  {
    forall r, b | r in QueryRefs(q) && r.qualifier.None? && 0 <= b < |q.from| ::
      Find(Added(ops, TableNames(db), TableOf(q.from, db, b)), r.name).None?
  }

  /** Two scopes of the same bindings, the second offering further columns. */
  ghost predicate Widened(s: Scope, s': Scope, from: seq<Binding>) {
    && ScopeOk(s) && ScopeOk(s') && s'.qualifiers == s.qualifiers && |s.columns| == |from|
    && (forall b | 0 <= b < |from| :: s.qualifiers[b] == Qualifier(from[b]))
    && (forall b | 0 <= b < |from| :: s.columns[b] <= s'.columns[b] && Unique(s'.columns[b]))
  }

  lemma FindWidened(names: seq<string>, names': seq<string>, x: string)
    requires names <= names' && Unique(names')
    ensures Find(names, x).Some? ==> Find(names', x) == Find(names, x)
    ensures Find(names, x).None? ==>
              (Find(names', x) ==
               match Find(names'[|names|..], x) case None => None case Some(k) => Some(|names| + k))
  {
    if Find(names, x).Some? {
      FindAt(names', x, Find(names, x).value);
    } else {
      FindBeyond(names, names', x);
    }
  }

  lemma FindBeyond(names: seq<string>, names': seq<string>, x: string)
    requires names <= names' && Unique(names') && Find(names, x).None?
    ensures Find(names', x) == match Find(names'[|names|..], x) case None => None case Some(k) => Some(|names| + k)
  {
    var more := names'[|names|..];
    if Find(more, x).Some? {
      var k := Find(more, x).value;
      assert names'[|names| + k] == more[k];
      FindAt(names', x, |names| + k);
    } else {
      forall i | 0 <= i < |names'|
        ensures Fold(names'[i]) != Fold(x)
      {
        if i < |names| { assert names'[i] == names[i]; } else { assert names'[i] == more[i - |names|]; }
      }
    }
  }

  /** A reference that no added column captures still means what it meant. */
  lemma RefStays(s: Scope, s': Scope, from: seq<Binding>, r: Ref)
    requires Widened(s, s', from) && DistinctQualifiers(from)
    requires r.qualifier.None? ==> (forall b | 0 <= b < |from| :: Find(s'.columns[b][|s.columns[b]|..], r.name).None?)
    requires ResolveRef(s, r).Some?
    ensures ResolveRef(s', r) == ResolveRef(s, r)
  {
    var (b0, c0) := ResolveRef(s, r).value;
    forall b: nat
      ensures Offers(s', r, b) <==> b == b0
    {
      if b < |from| {
        FindWidened(s.columns[b], s'.columns[b], r.name);
        assert Offers(s, r, b) <==> b == b0;
        if b < b0 || b0 < b { assert r.qualifier.Some? ==> !QualifierFits(s, r.qualifier, b); }
      }
    }
    FindWidened(s.columns[b0], s'.columns[b0], r.name);
    assert Supplies(s', r, b0);
    assert ResolveRef(s', r).Some?;
  }

  /** A captured reference becomes ambiguous. */
  lemma RefCaptured(s: Scope, s': Scope, from: seq<Binding>, r: Ref, b: nat)
    requires Widened(s, s', from) && r.qualifier.None? && b < |from|
    requires Find(s'.columns[b][|s.columns[b]|..], r.name).Some?
    requires ResolveRef(s, r).Some?
    ensures ResolveRef(s', r).None?
  {
    var (b0, _) := ResolveRef(s, r).value;
    FindWidened(s.columns[b0], s'.columns[b0], r.name);
    FindWidened(s.columns[b], s'.columns[b], r.name);
    assert Offers(s', r, b0);
    assert Offers(s', r, b);
  }

  predicate SameFolds(a: seq<string>, b: seq<string>) {
    |a| == |b| && forall i | 0 <= i < |a| :: Fold(a[i]) == Fold(b[i])
  }

  /** The explicit output for one old column resolves to that column. */
  lemma OutputResolves(s: Scope, s': Scope, from: seq<Binding>, b: nat, c: nat, name: string, qualifier: Option<string>)
    requires Widened(s, s', from) && DistinctQualifiers(from) && b < |from|
    requires c < |s.columns[b]| && Fold(name) == Fold(s.columns[b][c])
    requires if qualifier.Some? then Fold(qualifier.value) == Fold(s.qualifiers[b]) else |from| == 1
    ensures ResolveItem(s', Output(Col(Ref(qualifier, name)))) == Some([RCol(b, c)])
  {
    var r := Ref(qualifier, name);
    assert s'.columns[b][c] == s.columns[b][c];
    FindAt(s'.columns[b], name, c);
    forall b': nat
      ensures QualifierFits(s', qualifier, b') <==> b' == b
    {
    }
    assert Supplies(s', r, b);
    assert ResolveRef(s', r).Some?;
  }

  lemma {:induction false} ItemsConcat(s: Scope, a: seq<Item>, b: seq<Item>)
    requires ScopeOk(s) && ResolveItems(s, a).Some?
    ensures ResolveItems(s, a + b) ==
            if ResolveItems(s, b).None? then None else Some(ResolveItems(s, a).value + ResolveItems(s, b).value)
  {
    if b == [] {
      assert a + b == a;
      assert ResolveItems(s, a).value + [] == ResolveItems(s, a).value;
    } else {
      var k := |b| - 1;
      ItemsConcat(s, a, b[..k]);
      assert (a + b)[..|a + b| - 1] == a + b[..k];
      var init, last := ResolveItems(s, b[..k]), ResolveItem(s, b[k]);
      if init.Some? && last.Some? {
        var x := ResolveItems(s, a).value;
        assert (x + init.value) + last.value == x + (init.value + last.value);
      }
    }
  }

  lemma JoinResolved(s: Scope, a: seq<Item>, b: seq<Item>, x: seq<RExpr>, y: seq<RExpr>)
    requires ScopeOk(s) && ResolveItems(s, a) == Some(x) && ResolveItems(s, b) == Some(y)
    ensures ResolveItems(s, a + b) == Some(x + y)
  {
    ItemsConcat(s, a, b);
  }

  lemma {:induction false} EachResolves(s: Scope, items: seq<Item>, columns: seq<RExpr>)
    requires ScopeOk(s) && |items| == |columns|
    requires forall i | 0 <= i < |items| :: ResolveItem(s, items[i]) == Some([columns[i]])
    ensures ResolveItems(s, items) == Some(columns)
  {
    if items != [] {
      var k := |items| - 1;
      assert forall i | 0 <= i < k :: items[..k][i] == items[i] && columns[..k][i] == columns[i];
      EachResolves(s, items[..k], columns[..k]);
      assert columns == columns[..k] + [columns[k]];
    }
  }

  /** Names that fold like the old columns of a binding stand for those columns. */
  lemma AllOutputsResolve(s: Scope, s': Scope, from: seq<Binding>, b: nat, names: seq<string>, qualifier: Option<string>)
    requires Widened(s, s', from) && DistinctQualifiers(from) && b < |from| && SameFolds(names, s.columns[b])
    requires if qualifier.Some? then Fold(qualifier.value) == Fold(s.qualifiers[b]) else |from| == 1
    ensures ResolveItems(s', Outputs(names, qualifier)) == Some(AllColumns(s, b))
  {
    var items, columns := Outputs(names, qualifier), AllColumns(s, b);
    forall c | 0 <= c < |items|
      ensures ResolveItem(s', items[c]) == Some([columns[c]])
    {
      OutputResolves(s, s', from, b, c, names[c], qualifier);
    }
    EachResolves(s', items, columns);
  }

  /** A qualified star covers the one binding with that qualifier. */
  lemma StarIsOneBinding(s: Scope, from: seq<Binding>, x: string, b: nat, n: nat)
    requires ScopeOk(s) && |s.columns| == |from| && b < |from| && n <= |from| && DistinctQualifiers(from)
    requires forall i | 0 <= i < |from| :: s.qualifiers[i] == Qualifier(from[i])
    requires Fold(Qualifier(from[b])) == Fold(x)
    ensures StarColumns(s, Some(x), n) == if b < n then AllColumns(s, b) else []
  {
    forall i | 0 <= i < |from|
      ensures QualifierFits(s, Some(x), i) <==> i == b
    {
      OneFits(s, from, x, b, i);
    }
    FittingColumns(s, Some(x), b, n);
  }

  lemma {:induction false} FittingColumns(s: Scope, qualifier: Option<string>, b: nat, n: nat)
    requires ScopeOk(s) && b < |s.columns| && n <= |s.columns|
    requires forall i | 0 <= i < |s.columns| :: QualifierFits(s, qualifier, i) <==> i == b
    ensures StarColumns(s, qualifier, n) == if b < n then AllColumns(s, b) else []
  {
    if n > 0 {
      FittingColumns(s, qualifier, b, n - 1);
      if n - 1 == b { FittingNext(s, qualifier, b); } else { OtherNext(s, qualifier, n - 1); }
    }
  }

  lemma FittingNext(s: Scope, qualifier: Option<string>, n: nat)
    requires ScopeOk(s) && n < |s.columns| && QualifierFits(s, qualifier, n) && StarColumns(s, qualifier, n) == []
    ensures StarColumns(s, qualifier, n + 1) == AllColumns(s, n)
  {
    var columns := AllColumns(s, n);
    assert [] + columns == columns;
  }

  lemma OtherNext(s: Scope, qualifier: Option<string>, n: nat)
    requires ScopeOk(s) && n < |s.columns| && !QualifierFits(s, qualifier, n)
    ensures StarColumns(s, qualifier, n + 1) == StarColumns(s, qualifier, n)
  {
    var before := StarColumns(s, qualifier, n);
    assert before + [] == before;
  }

  lemma OneFits(s: Scope, from: seq<Binding>, x: string, b: nat, i: nat)
    requires ScopeOk(s) && |s.columns| == |from| && b < |from| && i < |from| && DistinctQualifiers(from)
    requires forall i | 0 <= i < |from| :: s.qualifiers[i] == Qualifier(from[i])
    requires Fold(Qualifier(from[b])) == Fold(x)
    ensures QualifierFits(s, Some(x), i) <==> i == b
  {
  }

  lemma {:induction false} DictionaryEntry(from: seq<Binding>, names: seq<string>, x: string)
    requires TablesKnown(from, names) && ByQualifier(from, names, x).Some?
    ensures var b := ByQualifier(from, names, x).value;
            Fold(Qualifier(from[b])) == Fold(x) || Fold(names[Physical(from, names, b)]) == Fold(x)
  {
    var k := |from| - 1;
    if ByQualifier(from, names, x).value != k {
      assert forall i | 0 <= i < k :: from[..k][i] == from[i];
      DictionaryEntry(from[..k], names, x);
    }
  }

  /** The dictionary's table has the columns of the table that the scope binds. */
  ghost predicate StarAligned(x: string, from: seq<Binding>, db: Db)
    requires TablesExist(from, db) && ByQualifier(from, TableNames(db), x).Some?
  {
    forall b | 0 <= b < |from| && Fold(Qualifier(from[b])) == Fold(x) ::
      SameFolds(ColumnNames(db[DictionaryTable(from, TableNames(db), x)]), ColumnNames(db[TableOf(from, db, b)]))
  }

  ghost predicate StarsAligned(q: Query, db: Db)
    requires TablesExist(q.from, db) && StarsKnown(q.items, q.from, TableNames(db))
  {
    forall i | 0 <= i < |q.items| && q.items[i].QualifiedStar? :: StarAligned(q.items[i].qualifier, q.from, db)
  }

  /** Two bindings that a name reaches, one of them as its qualifier, are of one table. */
  lemma ClearBindings(from: seq<Binding>, db: Db, x: string, k: nat, b: nat)
    requires TablesExist(from, db) && QualifiersClear(from, db) && DistinctQualifiers(from) && k < |from| && b < |from|
    requires Fold(Qualifier(from[b])) == Fold(x)
    requires Fold(Qualifier(from[k])) == Fold(x) || Fold(db[TableOf(from, db, k)].name) == Fold(x)
    ensures TableOf(from, db, k) == TableOf(from, db, b)
  {
    if Fold(Qualifier(from[k])) == Fold(x) {
      assert k == b;
    } else {
      assert Fold(Qualifier(from[b])) == Fold(db[TableOf(from, db, k)].name);
    }
  }

  /** Under clear qualifiers the dictionary finds the table that the scope binds. */
  lemma DictionaryFindsTable(from: seq<Binding>, db: Db, x: string, b: nat)
    requires TablesExist(from, db) && ByQualifier(from, TableNames(db), x).Some?
    requires DistinctQualifiers(from) && QualifiersClear(from, db) && b < |from| && Fold(Qualifier(from[b])) == Fold(x)
    ensures DictionaryTable(from, TableNames(db), x) == TableOf(from, db, b)
  {
    DictionaryEntry(from, TableNames(db), x);
    ClearBindings(from, db, x, ByQualifier(from, TableNames(db), x).value, b);
  }

  lemma ClearStarAligned(from: seq<Binding>, db: Db, x: string)
    requires TablesExist(from, db) && ByQualifier(from, TableNames(db), x).Some?
    requires DistinctQualifiers(from) && QualifiersClear(from, db)
    ensures StarAligned(x, from, db)
  {
    forall b | 0 <= b < |from| && Fold(Qualifier(from[b])) == Fold(x)
      ensures DictionaryTable(from, TableNames(db), x) == TableOf(from, db, b)
    {
      DictionaryFindsTable(from, db, x, b);
    }
  }

  /** The facts that the whole argument shares. */
  ghost predicate Prepared(q: Query, ops: seq<Operation>, db: Db, db': Db) {
    && ValidDb(db) && ValidDb(db') && Extends(db, db', ops)
    && Resolve(q, db).Some?
    && DistinctQualifiers(q.from)
    && StarsKnown(q.items, q.from, TableNames(db))
    && TablesExist(q.from, db')
  }

  lemma PlannedScopes(q: Query, ops: seq<Operation>, db: Db, db': Db)
    requires Prepared(q, ops, db, db')
    ensures TablesOf(q.from, db') == TablesOf(q.from, db)
    ensures Widened(ScopeOf(q.from, db), ScopeOf(q.from, db'), q.from)
    ensures forall b | 0 <= b < |q.from| ::
      var n := |ScopeOf(q.from, db).columns[b]|;
      ScopeOf(q.from, db').columns[b][n..] == Added(ops, TableNames(db), TableOf(q.from, db, b))
  {
    forall b | 0 <= b < |q.from|
      ensures TableOf(q.from, db', b) == TableOf(q.from, db, b)
    {
    }
  }

  lemma {:induction false} BindingsMean(from: seq<Binding>, schema: Schema, ops: seq<Operation>, s: Scope, s': Scope, n: nat)
    requires TablesKnown(from, SchemaNames(schema)) && n <= |from| == |s.columns|
    requires ScopeOk(s) && ScopeOk(s')
    requires forall b | 0 <= b < |from| ::
      ResolveItems(s', BindingOutputs(from, schema, ops, b)) == Some(AllColumns(s, b))
    ensures ResolveItems(s', ExpandBindings(from, schema, ops, n)) == Some(StarColumns(s, None, n))
  {
    if n > 0 {
      BindingsMean(from, schema, ops, s, s', n - 1);
      var init, last := ExpandBindings(from, schema, ops, n - 1), BindingOutputs(from, schema, ops, n - 1);
      JoinResolved(s', init, last, StarColumns(s, None, n - 1), AllColumns(s, n - 1));
      assert StarColumns(s, None, n) == StarColumns(s, None, n - 1) + AllColumns(s, n - 1);
    }
  }

  lemma BindingMeans(q: Query, ops: seq<Operation>, db: Db, db': Db, b: nat)
    requires Prepared(q, ops, db, db') && b < |q.from|
    ensures var s, s' := ScopeOf(q.from, db), ScopeOf(q.from, db');
            ResolveItems(s', BindingOutputs(q.from, SchemaOf(db), ops, b)) == Some(AllColumns(s, b))
  {
    var s, s' := ScopeOf(q.from, db), ScopeOf(q.from, db');
    PlannedScopes(q, ops, db, db');
    var t := Physical(q.from, TableNames(db), b);
    assert t == TableOf(q.from, db, b);
    OldColumnsRecovered(ops, db, db', t);
    AllOutputsResolve(s, s', q.from, b, s.columns[b], if |q.from| > 1 then Some(Qualifier(q.from[b])) else None);
  }

  lemma StarMeans(q: Query, ops: seq<Operation>, db: Db, db': Db)
    requires Prepared(q, ops, db, db')
    ensures ResolveItems(ScopeOf(q.from, db'), ExpandBindings(q.from, SchemaOf(db), ops, |q.from|)) ==
            Some(StarColumns(ScopeOf(q.from, db), None, |q.from|))
  {
    var s, s' := ScopeOf(q.from, db), ScopeOf(q.from, db');
    forall b | 0 <= b < |q.from|
      ensures ResolveItems(s', BindingOutputs(q.from, SchemaOf(db), ops, b)) == Some(AllColumns(s, b))
    {
      BindingMeans(q, ops, db, db', b);
    }
    BindingsMean(q.from, SchemaOf(db), ops, s, s', |q.from|);
  }

  lemma QualifiedStarMeans(q: Query, ops: seq<Operation>, db: Db, db': Db, x: string)
    requires Prepared(q, ops, db, db') && ByQualifier(q.from, TableNames(db), x).Some? && StarAligned(x, q.from, db)
    requires ResolveItem(ScopeOf(q.from, db), QualifiedStar(x)).Some?
    ensures ResolveItems(ScopeOf(q.from, db'), ExpandItem(QualifiedStar(x), q.from, SchemaOf(db), ops)) ==
            ResolveItem(ScopeOf(q.from, db), QualifiedStar(x))
  {
    var s, s' := ScopeOf(q.from, db), ScopeOf(q.from, db');
    PlannedScopes(q, ops, db, db');
    var b: nat :| QualifierFits(s, Some(x), b);
    var t := DictionaryTable(q.from, TableNames(db), x);
    OldColumnsRecovered(ops, db, db', t);
    AllOutputsResolve(s, s', q.from, b, ColumnNames(db[t]), Some(x));
    StarIsOneBinding(s, q.from, x, b, |q.from|);
  }

  lemma ItemMeans(q: Query, ops: seq<Operation>, db: Db, db': Db, item: Item)
    requires Prepared(q, ops, db, db')
    requires item.QualifiedStar? ==>
               ByQualifier(q.from, TableNames(db), item.qualifier).Some? && StarAligned(item.qualifier, q.from, db)
    requires ResolveItem(ScopeOf(q.from, db), item).Some?
    requires item.Output? ==> forall r | r in Refs(item.e) ::
               Tracks(ScopeOf(q.from, db), ScopeOf(q.from, db'), r, r, Same)
    ensures ResolveItems(ScopeOf(q.from, db'), ExpandItem(item, q.from, SchemaOf(db), ops)) ==
            ResolveItem(ScopeOf(q.from, db), item)
  {
    var s, s' := ScopeOf(q.from, db), ScopeOf(q.from, db');
    match item
    case Star => StarMeans(q, ops, db, db');
    case QualifiedStar(x) => QualifiedStarMeans(q, ops, db, db', x);
    case Output(e) =>
      ExprStays(s, s', e);
      assert [item][..0] == [];
      assert [] + [ResolveExpr(s, e).value] == [ResolveExpr(s, e).value];
  }

  function Id(r: Ref): Ref { r }

  lemma {:induction false} IdMap(e: Expr)
    ensures MapRefs(e, Id) == e
  {
    match e
    case Lit(_) =>
    case Col(_) =>
    case Apply(_, left, right) => IdMap(left); IdMap(right);
  }

  lemma {:induction false} IdMove(e: RExpr)
    ensures MoveExpr(e, Same) == e
  {
    match e
    case RLit(_) =>
    case RCol(_, _) =>
    case RApply(_, l, r) => IdMove(l); IdMove(r);
  }

  lemma IdMoveAll(es: seq<RExpr>)
    ensures MoveExprs(es, Same) == es
  {
    forall i | 0 <= i < |es|
      ensures MoveExpr(es[i], Same) == es[i]
    {
      IdMove(es[i]);
    }
  }

  lemma ExprStays(s: Scope, s': Scope, e: Expr)
    requires ScopeOk(s) && ScopeOk(s') && ResolveExpr(s, e).Some?
    requires forall r | r in Refs(e) :: Tracks(s, s', r, r, Same)
    ensures ResolveExpr(s', e) == ResolveExpr(s, e)
  {
    ExprTracks(s, s', e, Id, Same);
    IdMap(e);
    IdMove(ResolveExpr(s, e).value);
  }

  lemma ExprsStay(s: Scope, s': Scope, es: seq<Expr>)
    requires ScopeOk(s) && ScopeOk(s') && ResolveExprs(s, es).Some?
    requires forall i, r | 0 <= i < |es| && r in Refs(es[i]) :: Tracks(s, s', r, r, Same)
    ensures ResolveExprs(s', es) == ResolveExprs(s, es)
  {
    ExprsTrack(s, s', es, Id, Same);
    forall i | 0 <= i < |es|
      ensures MapExprs(es, Id)[i] == es[i]
    {
      IdMap(es[i]);
    }
    assert MapExprs(es, Id) == es;
    IdMoveAll(ResolveExprs(s, es).value);
  }

  /** Every reference of the query means what it meant. */
  ghost predicate RefsTrack(q: Query, s: Scope, s': Scope)
    requires ScopeOk(s) && ScopeOk(s')
  {
    forall r | r in QueryRefs(q) :: Tracks(s, s', r, r, Same)
  }

  lemma ItemResolved(q: Query, db: Db, n: nat)
    requires Resolve(q, db).Some? && n < |q.items|
    ensures ResolveItem(ScopeOf(q.from, db), q.items[n]).Some?
  {
    if ResolveItem(ScopeOf(q.from, db), q.items[n]).None? { ItemsNeedEach(ScopeOf(q.from, db), q.items, n); }
  }

  lemma ItemAtMeans(q: Query, ops: seq<Operation>, db: Db, db': Db, n: nat)
    requires Prepared(q, ops, db, db') && StarsAligned(q, db) && n < |q.items|
    requires RefsTrack(q, ScopeOf(q.from, db), ScopeOf(q.from, db'))
    ensures ResolveItem(ScopeOf(q.from, db), q.items[n]).Some?
    ensures ResolveItems(ScopeOf(q.from, db'), ExpandItem(q.items[n], q.from, SchemaOf(db), ops)) ==
            ResolveItem(ScopeOf(q.from, db), q.items[n])
  {
    ItemResolved(q, db, n);
    assert forall r | r in ItemRefs(q.items[n]) :: r in QueryRefs(q);
    ItemMeans(q, ops, db, db', q.items[n]);
  }

  /** The plan's outputs for an item stand for what the item stood for. */
  ghost predicate ItemKept(item: Item, from: seq<Binding>, schema: Schema, ops: seq<Operation>, s: Scope, s': Scope)
    requires ScopeOk(s) && ScopeOk(s') && TablesKnown(from, SchemaNames(schema))
    requires item.QualifiedStar? ==> ByQualifier(from, SchemaNames(schema), item.qualifier).Some?
  {
    ResolveItem(s, item).Some? && ResolveItems(s', ExpandItem(item, from, schema, ops)) == ResolveItem(s, item)
  }

  lemma {:induction false} ItemsMean(items: seq<Item>, from: seq<Binding>, schema: Schema, ops: seq<Operation>,
                                     s: Scope, s': Scope)
    requires ScopeOk(s) && ScopeOk(s')
    requires TablesKnown(from, SchemaNames(schema)) && StarsKnown(items, from, SchemaNames(schema))
    requires forall i | 0 <= i < |items| :: ItemKept(items[i], from, schema, ops, s, s')
    ensures ResolveItems(s, items).Some?
    ensures ResolveItems(s', ExpandItems(items, from, schema, ops)) == ResolveItems(s, items)
  {
    if items != [] {
      var k := |items| - 1;
      StarsOfPrefix(items, k, from, SchemaNames(schema));
      assert forall i | 0 <= i < k :: items[..k][i] == items[i];
      ItemsMean(items[..k], from, schema, ops, s, s');
      OneMoreItem(items[..k], items, items[k], from, schema, ops);
      JoinResolved(s', ExpandItems(items[..k], from, schema, ops), ExpandItem(items[k], from, schema, ops),
                   ResolveItems(s, items[..k]).value, ResolveItem(s, items[k]).value);
    }
  }

  lemma ExtensionSimulates(tables: seq<nat>, db: Db, db': Db, ops: seq<Operation>)
    requires Extends(db, db', ops)
    ensures Simulates(tables, db, db', Same)
  {
  }

  lemma UncapturedRefsTrack(q: Query, ops: seq<Operation>, db: Db, db': Db)
    requires Prepared(q, ops, db, db') && NotCaptured(q, ops, db)
    ensures RefsTrack(q, ScopeOf(q.from, db), ScopeOf(q.from, db'))
  {
    var s, s' := ScopeOf(q.from, db), ScopeOf(q.from, db');
    PlannedScopes(q, ops, db, db');
    forall r | r in QueryRefs(q)
      ensures Tracks(s, s', r, r, Same)
    {
      if ResolveRef(s, r).Some? { RefStays(s, s', q.from, r); }
    }
  }

  /** The filter and the ordering of the query mean what they meant. */
  lemma RestTracks(q: Query, ops: seq<Operation>, db: Db, db': Db)
    requires Prepared(q, ops, db, db') && RefsTrack(q, ScopeOf(q.from, db), ScopeOf(q.from, db'))
    ensures ResolveExpr(ScopeOf(q.from, db'), q.where) == ResolveExpr(ScopeOf(q.from, db), q.where)
    ensures ResolveExprs(ScopeOf(q.from, db'), q.order) == ResolveExprs(ScopeOf(q.from, db), q.order)
  {
    var s, s' := ScopeOf(q.from, db), ScopeOf(q.from, db');
    ExprStays(s, s', q.where);
    ExprsStay(s, s', q.order);
  }

  /** The plan resolves to the very positions of the query. */
  lemma UncapturedPlanResolves(q: Query, ops: seq<Operation>, db: Db, db': Db)
    requires Prepared(q, ops, db, db') && StarsAligned(q, db) && NotCaptured(q, ops, db)
    ensures Resolve(q.(items := ExpandItems(q.items, q.from, SchemaOf(db), ops)), db') == Resolve(q, db)
  {
    UncapturedRefsTrack(q, ops, db, db');
    forall i | 0 <= i < |q.items|
      ensures ItemKept(q.items[i], q.from, SchemaOf(db), ops, ScopeOf(q.from, db), ScopeOf(q.from, db'))
    {
      ItemAtMeans(q, ops, db, db', i);
    }
    ItemsMean(q.items, q.from, SchemaOf(db), ops, ScopeOf(q.from, db), ScopeOf(q.from, db'));
    RestTracks(q, ops, db, db');
    PlannedScopes(q, ops, db, db');
  }

  /** A prepared query sees nothing of what was added. */
  lemma ExtensionIsInvisible(sem: Semantics, rq: RQuery, ops: seq<Operation>, db: Db, db': Db)
    requires Extends(db, db', ops) && QueryInRange(rq, db)
    ensures Exec(sem, rq, db') == Exec(sem, rq, db)
  {
    ExtensionSimulates(rq.tables, db, db', ops);
    SimulationPreservesResults(sem, rq, db, db', Same);
    IdMoveAll(rq.outs);
    IdMoveAll(rq.order);
    IdMove(rq.where);
  }

  lemma UncapturedPlanPreserves(sem: Semantics, q: Query, ops: seq<Operation>, db: Db, db': Db)
    requires Prepared(q, ops, db, db') && StarsAligned(q, db) && NotCaptured(q, ops, db)
    ensures Eval(sem, q.(items := ExpandItems(q.items, q.from, SchemaOf(db), ops)), db') == Eval(sem, q, db)
  {
    UncapturedPlanResolves(q, ops, db, db');
    ResolvedInRange(q, db);
    ExtensionIsInvisible(sem, Resolve(q, db).value, ops, db, db');
  }

  lemma {:induction false} OutputKept(items: seq<Item>, from: seq<Binding>, schema: Schema, ops: seq<Operation>, i: nat)
    returns (j: nat)
    requires TablesKnown(from, SchemaNames(schema)) && StarsKnown(items, from, SchemaNames(schema))
    requires i < |items| && items[i].Output?
    ensures j < |ExpandItems(items, from, schema, ops)| && ExpandItems(items, from, schema, ops)[j] == items[i]
  {
    var k := |items| - 1;
    StarsOfPrefix(items, k, from, SchemaNames(schema));
    if i < k {
      j := OutputKept(items[..k], from, schema, ops, i);
      KeptEarlier(items, from, schema, ops, j);
    } else {
      j := |ExpandItems(items[..k], from, schema, ops)|;
      KeptLast(items, from, schema, ops);
    }
  }

  lemma KeptEarlier(items: seq<Item>, from: seq<Binding>, schema: Schema, ops: seq<Operation>, j: nat)
    requires items != [] && TablesKnown(from, SchemaNames(schema)) && StarsKnown(items, from, SchemaNames(schema))
    requires StarsKnown(items[..|items| - 1], from, SchemaNames(schema))
    requires j < |ExpandItems(items[..|items| - 1], from, schema, ops)|
    ensures j < |ExpandItems(items, from, schema, ops)|
    ensures ExpandItems(items, from, schema, ops)[j] == ExpandItems(items[..|items| - 1], from, schema, ops)[j]
  {
    ExpandsLast(items, from, schema, ops);
  }

  lemma KeptLast(items: seq<Item>, from: seq<Binding>, schema: Schema, ops: seq<Operation>)
    requires items != [] && TablesKnown(from, SchemaNames(schema)) && StarsKnown(items, from, SchemaNames(schema))
    requires StarsKnown(items[..|items| - 1], from, SchemaNames(schema)) && items[|items| - 1].Output?
    ensures var j := |ExpandItems(items[..|items| - 1], from, schema, ops)|;
            j < |ExpandItems(items, from, schema, ops)| && ExpandItems(items, from, schema, ops)[j] == items[|items| - 1]
  {
    ExpandsLast(items, from, schema, ops);
  }

  lemma ExpandsLast(items: seq<Item>, from: seq<Binding>, schema: Schema, ops: seq<Operation>)
    requires items != [] && TablesKnown(from, SchemaNames(schema)) && StarsKnown(items, from, SchemaNames(schema))
    ensures var k := |items| - 1;
            && StarsKnown(items[..k], from, SchemaNames(schema))
            && (items[k].QualifiedStar? ==> ByQualifier(from, SchemaNames(schema), items[k].qualifier).Some?)
            && ExpandItems(items, from, schema, ops) ==
               ExpandItems(items[..k], from, schema, ops) + ExpandItem(items[k], from, schema, ops)
  {
    var k := |items| - 1;
    StarsOfPrefix(items, k, from, SchemaNames(schema));
    OneMoreItem(items[..k], items, items[k], from, schema, ops);
  }

  lemma RefKeptInPlan(q: Query, schema: Schema, ops: seq<Operation>, r: Ref)
    requires TablesKnown(q.from, SchemaNames(schema)) && StarsKnown(q.items, q.from, SchemaNames(schema))
    requires r in QueryRefs(q)
    ensures r in QueryRefs(q.(items := ExpandItems(q.items, q.from, schema, ops)))
  {
    if i :| 0 <= i < |q.items| && r in ItemRefs(q.items[i]) {
      var j := OutputKept(q.items, q.from, schema, ops, i);
      var items := ExpandItems(q.items, q.from, schema, ops);
      assert r in ItemRefs(items[j]);
    }
  }

  /** A captured reference stops the plan from preparing. */
  lemma CapturedPlanFails(q: Query, ops: seq<Operation>, db: Db, db': Db)
    requires Prepared(q, ops, db, db') && !NotCaptured(q, ops, db)
    ensures Resolve(q.(items := ExpandItems(q.items, q.from, SchemaOf(db), ops)), db').None?
  {
    var r, b :| r in QueryRefs(q) && r.qualifier.None? && 0 <= b < |q.from| &&
      Find(Added(ops, TableNames(db), TableOf(q.from, db, b)), r.name).Some?;
    PlannedScopes(q, ops, db, db');
    var s, s' := ScopeOf(q.from, db), ScopeOf(q.from, db');
    if ResolveRef(s, r).None? { QueryNeedsRefs(q, db, r); }
    RefCaptured(s, s', q.from, r, b);
    RefKeptInPlan(q, SchemaOf(db), ops, r);
    QueryNeedsRefs(q.(items := ExpandItems(q.items, q.from, SchemaOf(db), ops)), db', r);
  }

  /**
   For every database and every list of fresh added columns: the planned query on the extended
   database returns exactly the rows of the wildcard query on the old one, precisely when no
   unqualified reference of the query is the name of an added column.
   */
  lemma PlanPreservesExactly(sem: Semantics, q: Query, ops: seq<Operation>, db: Db)
    requires ValidDb(db) && OnlyAdditions(ops) && MaterializeAll(ops, db).Some?
    requires Resolve(q, db).Some? && PlanFor(q, ops, SchemaOf(db)).Ok?
    requires DistinctQualifiers(q.from) && QualifiersClear(q.from, db)
    ensures Eval(sem, PlanFor(q, ops, SchemaOf(db)).value.query, MaterializeAll(ops, db).value) == Eval(sem, q, db)
            <==> NotCaptured(q, ops, db)
  {
    var db' := MaterializeAll(ops, db).value;
    AdditionsExtend(ops, db);
    assert TablesExist(q.from, db');
    if NotCaptured(q, ops, db) {
      forall i | 0 <= i < |q.items| && q.items[i].QualifiedStar?
        ensures StarAligned(q.items[i].qualifier, q.from, db)
      {
        ClearStarAligned(q.from, db, q.items[i].qualifier);
      }
      UncapturedPlanPreserves(sem, q, ops, db, db');
    } else {
      CapturedPlanFails(q, ops, db, db');
    }
  }
}
