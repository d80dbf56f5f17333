/**
 One SELECT scope over ordered bindings: name resolution, then evaluation.

 Resolution turns names into (binding, column) positions and fails as the database does;
 evaluation only sees positions.
 */
module Queries {
  import opened Prelude
  import opened Strings
  import opened Database

  datatype Ref = Ref(qualifier: Option<string>, name: string)

  datatype Expr = Lit(v: Value) | Col(ref: Ref) | Apply(op: string, left: Expr, right: Expr)

  datatype Item = Star | QualifiedStar(qualifier: string) | Output(e: Expr)

  datatype Binding = Binding(table: string, alias: Option<string>)

  datatype Query = Query(items: seq<Item>, from: seq<Binding>, where: Expr, order: seq<Expr>, limit: Option<nat>)

  function Qualifier(b: Binding): string {
    if b.alias.Some? then b.alias.value else b.table
  }

  // ---------------------------------------------------------------------------------
  // References

  function Refs(e: Expr): set<Ref> {
    match e
    case Lit(_) => {}
    case Col(ref) => {ref}
    case Apply(_, left, right) => Refs(left) + Refs(right)
  }

  function ItemRefs(item: Item): set<Ref> {
    if item.Output? then Refs(item.e) else {}
  }

  function QueryRefs(q: Query): set<Ref> {
    (set i, r | 0 <= i < |q.items| && r in ItemRefs(q.items[i]) :: r) +
    Refs(q.where) +
    (set i, r | 0 <= i < |q.order| && r in Refs(q.order[i]) :: r)
  }

  function MapRefs(e: Expr, g: Ref -> Ref): Expr {
    match e
    case Lit(_) => e
    case Col(ref) => Col(g(ref))
    case Apply(op, left, right) => Apply(op, MapRefs(left, g), MapRefs(right, g))
  }

  function MapExprs(es: seq<Expr>, g: Ref -> Ref): seq<Expr> {
    seq(|es|, i requires 0 <= i < |es| => MapRefs(es[i], g))
  }

  // ---------------------------------------------------------------------------------
  // Resolution

  /** A reference or output as positions. */
  datatype RExpr = RLit(v: Value) | RCol(binding: nat, column: nat) | RApply(op: string, left: RExpr, right: RExpr)

  datatype RQuery = RQuery(tables: seq<nat>, outs: seq<RExpr>, where: RExpr, order: seq<RExpr>, limit: Option<nat>)

  /** Per binding: the name that qualifies it and the columns it offers. */
  datatype Scope = Scope(qualifiers: seq<string>, columns: seq<seq<string>>)

  ghost predicate ScopeOk(s: Scope) {
    |s.qualifiers| == |s.columns|
  }

  ghost predicate QualifierFits(s: Scope, qualifier: Option<string>, b: nat)
    requires ScopeOk(s)
  {
    b < |s.qualifiers| && (qualifier.None? || Fold(s.qualifiers[b]) == Fold(qualifier.value))
  }

  /** Binding `b` can supply the reference. */
  ghost predicate Offers(s: Scope, r: Ref, b: nat)
    requires ScopeOk(s)
  {
    QualifierFits(s, r.qualifier, b) && Find(s.columns[b], r.name).Some?
  }

  /** Binding `b` is the only one that can. */
  ghost predicate Supplies(s: Scope, r: Ref, b: nat)
    requires ScopeOk(s)
  {
    Offers(s, r, b) && forall b' | Offers(s, r, b') :: b' == b
  }

  ghost function ResolveRef(s: Scope, r: Ref): (p: Option<(nat, nat)>)
    requires ScopeOk(s)
    ensures p.Some? ==> Supplies(s, r, p.value.0) && Find(s.columns[p.value.0], r.name) == Some(p.value.1)
    ensures p.None? ==> forall b: nat :: !Supplies(s, r, b)
  {
    if exists b: nat :: Supplies(s, r, b) then
      var b: nat :| Supplies(s, r, b);
      Some((b, Find(s.columns[b], r.name).value))
    else None
  }

  ghost function ResolveExpr(s: Scope, e: Expr): Option<RExpr>
    requires ScopeOk(s)
  {
    match e
    case Lit(v) => Some(RLit(v))
    case Col(ref) =>
      var p := ResolveRef(s, ref);
      if p.None? then None else Some(RCol(p.value.0, p.value.1))
    case Apply(op, left, right) =>
      var l, r := ResolveExpr(s, left), ResolveExpr(s, right);
      if l.None? || r.None? then None else Some(RApply(op, l.value, r.value))
  }

  ghost function ResolveExprs(s: Scope, es: seq<Expr>): Option<seq<RExpr>>
    requires ScopeOk(s)
  {
    if es == [] then Some([]) else
    var init, last := ResolveExprs(s, es[..|es| - 1]), ResolveExpr(s, es[|es| - 1]);
    if init.None? || last.None? then None else Some(init.value + [last.value])
  }

  /** All columns of one binding, in order. */
  function AllColumns(s: Scope, b: nat): (r: seq<RExpr>)
    requires b < |s.columns|
    ensures |r| == |s.columns[b]| && forall c | 0 <= c < |r| :: r[c] == RCol(b, c)
  {
    seq(|s.columns[b]|, c requires 0 <= c < |s.columns[b]| => RCol(b, c))
  }

  /** The columns of the first `n` bindings that the qualifier fits. */
  ghost function StarColumns(s: Scope, qualifier: Option<string>, n: nat): seq<RExpr>
    requires ScopeOk(s) && n <= |s.columns|
  {
    if n == 0 then [] else
    StarColumns(s, qualifier, n - 1) + if QualifierFits(s, qualifier, n - 1) then AllColumns(s, n - 1) else []
  }

  ghost function ResolveItem(s: Scope, item: Item): Option<seq<RExpr>>
    requires ScopeOk(s)
  {
    match item
    case Star => if |s.columns| == 0 then None else Some(StarColumns(s, None, |s.columns|))
    case QualifiedStar(q) =>
      if exists b: nat :: QualifierFits(s, Some(q), b) then Some(StarColumns(s, Some(q), |s.columns|)) else None
    case Output(e) => var r := ResolveExpr(s, e); if r.None? then None else Some([r.value])
  }

  ghost function ResolveItems(s: Scope, items: seq<Item>): Option<seq<RExpr>>
    requires ScopeOk(s)
  {
    if items == [] then Some([]) else
    var init, last := ResolveItems(s, items[..|items| - 1]), ResolveItem(s, items[|items| - 1]);
    if init.None? || last.None? then None else Some(init.value + last.value)
  }

  predicate TablesKnown(from: seq<Binding>, names: seq<string>) {
    forall b | 0 <= b < |from| :: Find(names, from[b].table).Some?
  }

  /** The position of a binding's table among the table names. */
  function Physical(from: seq<Binding>, names: seq<string>, b: nat): (t: nat)
    requires TablesKnown(from, names) && b < |from|
    ensures t < |names| && Find(names, from[b].table) == Some(t)
  {
    assert Find(names, from[b].table).Some?;
    Find(names, from[b].table).value
  }

  predicate TablesExist(from: seq<Binding>, db: Db) {
    TablesKnown(from, TableNames(db))
  }

  function TableOf(from: seq<Binding>, db: Db, b: nat): (t: nat)
    requires TablesExist(from, db) && b < |from|
    ensures t < |db| && Find(TableNames(db), from[b].table) == Some(t)
  {
    Physical(from, TableNames(db), b)
  }

  function TablesOf(from: seq<Binding>, db: Db): (r: seq<nat>)
    requires TablesExist(from, db)
    ensures |r| == |from| && forall b | 0 <= b < |from| :: r[b] == TableOf(from, db, b) < |db|
  {
    seq(|from|, b requires 0 <= b < |from| => TableOf(from, db, b))
  }

  function ScopeOf(from: seq<Binding>, db: Db): (s: Scope)
    requires TablesExist(from, db)
    ensures |s.qualifiers| == |s.columns| == |from|
    ensures forall b | 0 <= b < |from| ::
      s.qualifiers[b] == Qualifier(from[b]) && s.columns[b] == ColumnNames(db[TableOf(from, db, b)])
  {
    Scope(seq(|from|, b requires 0 <= b < |from| => Qualifier(from[b])),
          seq(|from|, b requires 0 <= b < |from| => ColumnNames(db[TableOf(from, db, b)])))
  }

  /** The prepared query, or the error that preparing it raises. */
  ghost function Resolve(q: Query, db: Db): Option<RQuery> {
    if !TablesExist(q.from, db) then None else
    var s := ScopeOf(q.from, db);
    var outs, where, order := ResolveItems(s, q.items), ResolveExpr(s, q.where), ResolveExprs(s, q.order);
    if outs.None? || where.None? || order.None? then None
    else Some(RQuery(TablesOf(q.from, db), outs.value, where.value, order.value, q.limit))
  }

  // ---------------------------------------------------------------------------------
  // Evaluation

  /** The database's operators, truth test, and row ordering. */
  datatype Semantics = Semantics(
    apply: (string, Value, Value) -> Value,
    truth: Value -> bool,
    precedes: (seq<Value>, seq<Value>) -> bool)

  /** One row of the joined bindings, as a row number per binding. */
  type Tuple = seq<nat>

  /** A stored value; positions of a resolved query are always in range. */
  function Cell(db: Db, t: nat, row: nat, c: nat): Value {
    if t < |db| && row < |db[t].rows| && c < |db[t].rows[row]| then db[t].rows[row][c] else Null
  }

  function EvalExpr(sem: Semantics, e: RExpr, tables: seq<nat>, db: Db, tuple: Tuple): Value {
    match e
    case RLit(v) => v
    case RCol(b, c) => if b < |tables| && b < |tuple| then Cell(db, tables[b], tuple[b], c) else Null
    case RApply(op, l, r) => sem.apply(op, EvalExpr(sem, l, tables, db, tuple), EvalExpr(sem, r, tables, db, tuple))
  }

  function EvalExprs(sem: Semantics, es: seq<RExpr>, tables: seq<nat>, db: Db, tuple: Tuple): seq<Value> {
    seq(|es|, i requires 0 <= i < |es| => EvalExpr(sem, es[i], tables, db, tuple))
  }

  function RowCount(db: Db, t: nat): nat {
    if t < |db| then |db[t].rows| else 0
  }

  /** Every extension of one tuple by the first `n` rows. */
  function Extend(tuple: Tuple, n: nat): seq<Tuple> {
    seq(n, i requires 0 <= i < n => tuple + [i])
  }

  function ExtendAll(tuples: seq<Tuple>, n: nat): seq<Tuple> {
    if tuples == [] then [] else Extend(tuples[0], n) + ExtendAll(tuples[1..], n)
  }

  /** The join, in binding order. */
  function Tuples(tables: seq<nat>, db: Db): seq<Tuple> {
    if tables == [] then [[]] else
    var k := |tables| - 1;
    ExtendAll(Tuples(tables[..k], db), RowCount(db, tables[k]))
  }

  datatype Record = Record(keep: bool, key: seq<Value>, out: seq<Value>)

  function RecordOf(sem: Semantics, q: RQuery, db: Db, tuple: Tuple): Record {
    Record(sem.truth(EvalExpr(sem, q.where, q.tables, db, tuple)),
           EvalExprs(sem, q.order, q.tables, db, tuple),
           EvalExprs(sem, q.outs, q.tables, db, tuple))
  }

  /** Stable insertion by sort key. */
  function InsertRecord(sem: Semantics, rs: seq<Record>, r: Record): seq<Record> {
    if rs != [] && sem.precedes(r.key, rs[|rs| - 1].key)
    then InsertRecord(sem, rs[..|rs| - 1], r) + [rs[|rs| - 1]]
    else rs + [r]
  }

  /** Filter and order the records. */
  function Arrange(sem: Semantics, records: seq<Record>): seq<Record> {
    if records == [] then [] else
    var k := |records| - 1;
    var init := Arrange(sem, records[..k]);
    if records[k].keep then InsertRecord(sem, init, records[k]) else init
  }

  function Finish(sem: Semantics, records: seq<Record>, limit: Option<nat>): seq<seq<Value>> {
    var arranged := Arrange(sem, records);
    var n := if limit.Some? then Min(limit.value, |arranged|) else |arranged|;
    seq(n, i requires 0 <= i < n => arranged[i].out)
  }

  function Exec(sem: Semantics, q: RQuery, db: Db): seq<seq<Value>> {
    var tuples := Tuples(q.tables, db);
    Finish(sem, seq(|tuples|, i requires 0 <= i < |tuples| => RecordOf(sem, q, db, tuples[i])), q.limit)
  }

  /** The ordered result rows, or `None` when the query does not prepare. */
  ghost function Eval(sem: Semantics, q: Query, db: Db): Option<seq<seq<Value>>> {
    var r := Resolve(q, db);
    if r.None? then None else Some(Exec(sem, r.value, db))
  }

  // ---------------------------------------------------------------------------------
  // Simulation

  /** Where column `c` of binding `b` went. */
  type Moves = (nat, nat) -> nat

  function Same(b: nat, c: nat): nat { c }

  function MoveExpr(e: RExpr, f: Moves): RExpr {
    match e
    case RLit(_) => e
    case RCol(b, c) => RCol(b, f(b, c))
    case RApply(op, l, r) => RApply(op, MoveExpr(l, f), MoveExpr(r, f))
  }

  function MoveExprs(es: seq<RExpr>, f: Moves): seq<RExpr> {
    seq(|es|, i requires 0 <= i < |es| => MoveExpr(es[i], f))
  }

  function MoveQuery(q: RQuery, f: Moves): RQuery {
    RQuery(q.tables, MoveExprs(q.outs, f), MoveExpr(q.where, f), MoveExprs(q.order, f), q.limit)
  }

  ghost predicate InRange(e: RExpr, tables: seq<nat>, db: Db) {
    match e
    case RLit(_) => true
    case RCol(b, c) => b < |tables| && tables[b] < |db| && c < |db[tables[b]].columns|
    case RApply(_, l, r) => InRange(l, tables, db) && InRange(r, tables, db)
  }

  ghost predicate AllInRange(es: seq<RExpr>, tables: seq<nat>, db: Db) {
    forall i | 0 <= i < |es| :: InRange(es[i], tables, db)
  }

  ghost predicate QueryInRange(q: RQuery, db: Db) {
    InRange(q.where, q.tables, db) && AllInRange(q.outs, q.tables, db) && AllInRange(q.order, q.tables, db)
  }

  /** Same rows, with every column of every binding found again where `f` says. */
  ghost predicate Simulates(tables: seq<nat>, db: Db, db': Db, f: Moves) {
    && |db'| == |db|
    && (forall t | 0 <= t < |db| :: |db'[t].rows| == |db[t].rows|)
    && forall b, row: nat, c | 0 <= b < |tables| && tables[b] < |db| && 0 <= c < |db[tables[b]].columns| ::
         Cell(db', tables[b], row, f(b, c)) == Cell(db, tables[b], row, c)
  }

  lemma {:induction false} SameTuples(tables: seq<nat>, db: Db, db': Db)
    requires |db'| == |db| && forall t | 0 <= t < |db| :: |db'[t].rows| == |db[t].rows|
    ensures Tuples(tables, db') == Tuples(tables, db)
  {
    if tables != [] { SameTuples(tables[..|tables| - 1], db, db'); }
  }

  lemma {:induction false} SameValue(sem: Semantics, e: RExpr, tables: seq<nat>, db: Db, db': Db, f: Moves, tuple: Tuple)
    requires Simulates(tables, db, db', f) && InRange(e, tables, db)
    ensures EvalExpr(sem, MoveExpr(e, f), tables, db', tuple) == EvalExpr(sem, e, tables, db, tuple)
  {
    match e
    case RLit(_) =>
    case RCol(b, c) =>
    case RApply(_, l, r) =>
      SameValue(sem, l, tables, db, db', f, tuple);
      SameValue(sem, r, tables, db, db', f, tuple);
  }

  lemma SameRecord(sem: Semantics, q: RQuery, db: Db, db': Db, f: Moves, tuple: Tuple)
    requires Simulates(q.tables, db, db', f) && QueryInRange(q, db)
    ensures RecordOf(sem, MoveQuery(q, f), db', tuple) == RecordOf(sem, q, db, tuple)
  {
    SameValue(sem, q.where, q.tables, db, db', f, tuple);
    forall i | 0 <= i < |q.outs|
      ensures EvalExprs(sem, MoveExprs(q.outs, f), q.tables, db', tuple)[i] == EvalExprs(sem, q.outs, q.tables, db, tuple)[i]
    {
      SameValue(sem, q.outs[i], q.tables, db, db', f, tuple);
    }
    forall i | 0 <= i < |q.order|
      ensures EvalExprs(sem, MoveExprs(q.order, f), q.tables, db', tuple)[i] == EvalExprs(sem, q.order, q.tables, db, tuple)[i]
    {
      SameValue(sem, q.order[i], q.tables, db, db', f, tuple);
    }
    assert EvalExprs(sem, MoveExprs(q.outs, f), q.tables, db', tuple) == EvalExprs(sem, q.outs, q.tables, db, tuple);
    assert EvalExprs(sem, MoveExprs(q.order, f), q.tables, db', tuple) == EvalExprs(sem, q.order, q.tables, db, tuple);
  }

  /** A query whose columns moved along with the data returns the same rows in the same order. */
  lemma SimulationPreservesResults(sem: Semantics, q: RQuery, db: Db, db': Db, f: Moves)
    requires Simulates(q.tables, db, db', f) && QueryInRange(q, db)
    ensures Exec(sem, MoveQuery(q, f), db') == Exec(sem, q, db)
  {
    SameTuples(q.tables, db, db');
    var tuples := Tuples(q.tables, db);
    forall i | 0 <= i < |tuples|
      ensures RecordOf(sem, MoveQuery(q, f), db', tuples[i]) == RecordOf(sem, q, db, tuples[i])
    {
      SameRecord(sem, q, db, db', f, tuples[i]);
    }
    assert seq(|tuples|, i requires 0 <= i < |tuples| => RecordOf(sem, MoveQuery(q, f), db', tuples[i])) ==
           seq(|tuples|, i requires 0 <= i < |tuples| => RecordOf(sem, q, db, tuples[i]));
  }

  // ---------------------------------------------------------------------------------
  // Resolution facts

  lemma {:induction false} ResolvedExprInRange(s: Scope, e: Expr, tables: seq<nat>, db: Db)
    requires ScopeOk(s) && ResolveExpr(s, e).Some?
    requires |tables| == |s.columns|
    requires forall b | 0 <= b < |tables| :: tables[b] < |db| && |s.columns[b]| == |db[tables[b]].columns|
    ensures InRange(ResolveExpr(s, e).value, tables, db)
  {
    match e
    case Lit(_) =>
    case Col(_) =>
    case Apply(_, left, right) =>
      ResolvedExprInRange(s, left, tables, db);
      ResolvedExprInRange(s, right, tables, db);
  }

  lemma {:induction false} ResolvedExprsInRange(s: Scope, es: seq<Expr>, tables: seq<nat>, db: Db)
    requires ScopeOk(s) && ResolveExprs(s, es).Some?
    requires |tables| == |s.columns|
    requires forall b | 0 <= b < |tables| :: tables[b] < |db| && |s.columns[b]| == |db[tables[b]].columns|
    ensures AllInRange(ResolveExprs(s, es).value, tables, db)
  {
    if es != [] {
      ResolvedExprsInRange(s, es[..|es| - 1], tables, db);
      ResolvedExprInRange(s, es[|es| - 1], tables, db);
      var init, last := ResolveExprs(s, es[..|es| - 1]).value, ResolveExpr(s, es[|es| - 1]).value;
      assert ResolveExprs(s, es).value == init + [last];
    }
  }

  lemma {:induction false} StarInRange(s: Scope, qualifier: Option<string>, n: nat, tables: seq<nat>, db: Db)
    requires ScopeOk(s) && n <= |s.columns| == |tables|
    requires forall b | 0 <= b < |tables| :: tables[b] < |db| && |s.columns[b]| == |db[tables[b]].columns|
    ensures AllInRange(StarColumns(s, qualifier, n), tables, db)
  {
    if n > 0 { StarInRange(s, qualifier, n - 1, tables, db); }
  }

  lemma {:induction false} ResolvedItemsInRange(s: Scope, items: seq<Item>, tables: seq<nat>, db: Db)
    requires ScopeOk(s) && ResolveItems(s, items).Some?
    requires |tables| == |s.columns|
    requires forall b | 0 <= b < |tables| :: tables[b] < |db| && |s.columns[b]| == |db[tables[b]].columns|
    ensures AllInRange(ResolveItems(s, items).value, tables, db)
  {
    if items != [] {
      var item := items[|items| - 1];
      ResolvedItemsInRange(s, items[..|items| - 1], tables, db);
      match item
      case Star => StarInRange(s, None, |s.columns|, tables, db);
      case QualifiedStar(q) => StarInRange(s, Some(q), |s.columns|, tables, db);
      case Output(e) => ResolvedExprInRange(s, e, tables, db);
      assert AllInRange(ResolveItem(s, item).value, tables, db);
      assert ResolveItems(s, items).value == ResolveItems(s, items[..|items| - 1]).value + ResolveItem(s, item).value;
    }
  }

  /** Resolved positions exist. */
  lemma ResolvedInRange(q: Query, db: Db)
    requires Resolve(q, db).Some?
    ensures QueryInRange(Resolve(q, db).value, db)
  {
    var s, tables := ScopeOf(q.from, db), TablesOf(q.from, db);
    ResolvedItemsInRange(s, q.items, tables, db);
    ResolvedExprInRange(s, q.where, tables, db);
    ResolvedExprsInRange(s, q.order, tables, db);
  }
}
