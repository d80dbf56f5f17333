/**
 Queries whose bindings, references and stars were replaced one by one: they mean what they meant on a
 database whose columns moved, or no longer prepare, unless a name is found again somewhere else.
 */
module NameFollowing {
  import opened Prelude
  import opened Strings
  import opened Database
  import opened Queries
  import opened Resolution
  import opened ProjectionMeaning

  /** Where column `c` of table `t` stands later. */
  type Places = (nat, nat) -> nat

  /** Every table kept its rows, and every column is found again at its place. */
  ghost predicate Placed(db: Db, db': Db, place: Places) {
    && |db'| == |db|
    && (forall t | 0 <= t < |db| :: |db'[t].rows| == |db[t].rows|)
    && (forall t, c | 0 <= t < |db| && 0 <= c < |db[t].columns| :: place(t, c) < |db'[t].columns|)
    && forall t, row: nat, c | 0 <= t < |db| && 0 <= c < |db[t].columns| ::
         Cell(db', t, row, place(t, c)) == Cell(db, t, row, c)
  }

  /** Where column `c` of binding `b` stands later. */
  function BindingMoves(tables: seq<nat>, place: Places): Moves {
    (b: nat, c: nat) => if b < |tables| then place(tables[b], c) else c
  }

  lemma PlacedSimulates(tables: seq<nat>, db: Db, db': Db, place: Places)
    requires Placed(db, db', place)
    ensures Simulates(tables, db, db', BindingMoves(tables, place))
  {
  }

  // ---------------------------------------------------------------------------------
  // The new query, piece by piece

  /** What replaces the names of a query: bindings, references, and a list of items for each item. */
  datatype Pieces = Pieces(from: seq<Binding>, ref: Ref -> Ref, blocks: seq<seq<Item>>)

  function Joined(blocks: seq<seq<Item>>): seq<Item> {
    if blocks == [] then [] else Joined(blocks[..|blocks| - 1]) + blocks[|blocks| - 1]
  }

  function Replaced(q: Query, to: Pieces): Query {
    Query(Joined(to.blocks), to.from, MapRefs(q.where, to.ref), MapExprs(q.order, to.ref), q.limit)
  }

  /** One block per item; outputs keep their shape. */
  ghost predicate Fitting(q: Query, to: Pieces) {
    && |to.from| == |q.from| && |to.blocks| == |q.items|
    && forall i | 0 <= i < |q.items| && q.items[i].Output? :: to.blocks[i] == [Output(MapRefs(q.items[i].e, to.ref))]
  }

  /** Binding `b` is still of its table. */
  ghost predicate TableLands(q: Query, to: Pieces, db: Db, db': Db, b: nat)
    requires TablesExist(q.from, db) && b < |q.from| == |to.from|
  {
    Find(TableNames(db'), to.from[b].table) == Some(TableOf(q.from, db, b))
  }

  /** The reference means the place of the column that it meant. */
  ghost predicate RefLands(s: Scope, s': Scope, r: Ref, r': Ref, f: Moves)
    requires ScopeOk(s) && ScopeOk(s')
  {
    var p := ResolveRef(s, r);
    p.Some? && ResolveRef(s', r') == Some((p.value.0, f(p.value.0, p.value.1)))
  }

  /** The block stands for the places of the columns that the item stood for. */
  ghost predicate BlockLands(s: Scope, s': Scope, item: Item, block: seq<Item>, f: Moves)
    requires ScopeOk(s) && ScopeOk(s')
  {
    var p := ResolveItem(s, item);
    p.Some? && ResolveItems(s', block) == Some(MoveExprs(p.value, f))
  }

  ghost predicate TablesLand(q: Query, to: Pieces, db: Db, db': Db)
    requires TablesExist(q.from, db) && |q.from| == |to.from|
  {
    forall b | 0 <= b < |q.from| :: TableLands(q, to, db, db', b)
  }

  ghost predicate RefsLand(q: Query, to: Pieces, s: Scope, s': Scope, f: Moves)
    requires ScopeOk(s) && ScopeOk(s')
  {
    forall r | r in QueryRefs(q) :: RefLands(s, s', r, to.ref(r), f)
  }

  ghost predicate StarsLand(q: Query, to: Pieces, s: Scope, s': Scope, f: Moves)
    requires ScopeOk(s) && ScopeOk(s') && |q.items| == |to.blocks|
  {
    forall i | 0 <= i < |q.items| && !q.items[i].Output? :: BlockLands(s, s', q.items[i], to.blocks[i], f)
  }

  lemma LandedTables(q: Query, to: Pieces, db: Db, db': Db)
    requires TablesExist(q.from, db) && |to.from| == |q.from| && TablesLand(q, to, db, db')
    ensures TablesExist(to.from, db') && TablesOf(to.from, db') == TablesOf(q.from, db)
  {
    forall b | 0 <= b < |q.from|
      ensures Find(TableNames(db'), to.from[b].table) == Some(TableOf(q.from, db, b))
    {
      assert TableLands(q, to, db, db', b);
    }
    assert TablesExist(to.from, db');
  }

  /** Every name of the query still means what it meant. */
  ghost predicate EverythingLands(q: Query, to: Pieces, db: Db, db': Db, f: Moves)
    requires TablesExist(q.from, db) && Fitting(q, to)
  {
    && TablesLand(q, to, db, db')
    && TablesExist(to.from, db')
    && RefsLand(q, to, ScopeOf(q.from, db), ScopeOf(to.from, db'), f)
    && StarsLand(q, to, ScopeOf(q.from, db), ScopeOf(to.from, db'), f)
  }

  /** A name that is found at all after the change is found where it should be. */
  ghost predicate NothingStrays(q: Query, to: Pieces, db: Db, db': Db, f: Moves)
    requires TablesExist(q.from, db) && Fitting(q, to)
  {
    && (forall b | 0 <= b < |q.from| :: Find(TableNames(db'), to.from[b].table).Some? ==> TableLands(q, to, db, db', b))
    && (TablesExist(to.from, db') ==>
          var s, s' := ScopeOf(q.from, db), ScopeOf(to.from, db');
          && (forall r | r in QueryRefs(q) :: ResolveRef(s', to.ref(r)).Some? ==> RefLands(s, s', r, to.ref(r), f))
          && (forall i | 0 <= i < |q.items| && !q.items[i].Output? ::
                ResolveItems(s', to.blocks[i]).Some? ==> BlockLands(s, s', q.items[i], to.blocks[i], f)))
  }

  // ---------------------------------------------------------------------------------
  // Everything lands

  lemma OneItem(s: Scope, item: Item)
    requires ScopeOk(s)
    ensures ResolveItems(s, [item]) == ResolveItem(s, item)
  {
    assert [item][..0] == [];
    if ResolveItem(s, item).Some? { assert [] + ResolveItem(s, item).value == ResolveItem(s, item).value; }
  }

  lemma OutputLands(s: Scope, s': Scope, e: Expr, h: Ref -> Ref, f: Moves)
    requires ScopeOk(s) && ScopeOk(s') && ResolveItem(s, Output(e)).Some?
    requires forall r | r in Refs(e) :: RefLands(s, s', r, h(r), f)
    ensures BlockLands(s, s', Output(e), [Output(MapRefs(e, h))], f)
  {
    ExprTracks(s, s', e, h, f);
    OneItem(s', Output(MapRefs(e, h)));
    assert MoveExprs([ResolveExpr(s, e).value], f) == [MoveExpr(ResolveExpr(s, e).value, f)];
  }

  lemma {:induction false} BlocksLand(s: Scope, s': Scope, items: seq<Item>, blocks: seq<seq<Item>>, f: Moves)
    requires ScopeOk(s) && ScopeOk(s') && |items| == |blocks| && ResolveItems(s, items).Some?
    requires forall i | 0 <= i < |items| :: BlockLands(s, s', items[i], blocks[i], f)
    ensures ResolveItems(s', Joined(blocks)) == Some(MoveExprs(ResolveItems(s, items).value, f))
  {
    if items == [] {
      assert MoveExprs([], f) == [];
    } else {
      var k := |items| - 1;
      BlocksLand(s, s', items[..k], blocks[..k], f);
      var init, last := ResolveItems(s, items[..k]).value, ResolveItem(s, items[k]).value;
      assert BlockLands(s, s', items[k], blocks[k], f);
      JoinResolved(s', Joined(blocks[..k]), blocks[k], MoveExprs(init, f), MoveExprs(last, f));
      MoveConcat(init, last, f);
    }
  }

  lemma AllBlocksLand(q: Query, to: Pieces, db: Db, s: Scope, s': Scope, f: Moves)
    requires Resolve(q, db).Some? && s == ScopeOf(q.from, db) && ScopeOk(s') && Fitting(q, to)
    requires RefsLand(q, to, s, s', f) && StarsLand(q, to, s, s', f)
    ensures forall i | 0 <= i < |q.items| :: BlockLands(s, s', q.items[i], to.blocks[i], f)
  {
    forall i | 0 <= i < |q.items|
      ensures BlockLands(s, s', q.items[i], to.blocks[i], f)
    {
      ItemResolved(q, db, i);
      if q.items[i].Output? {
        forall r | r in Refs(q.items[i].e)
          ensures RefLands(s, s', r, to.ref(r), f)
        {
          assert r in ItemRefs(q.items[i]);
          assert r in QueryRefs(q);
        }
        OutputLands(s, s', q.items[i].e, to.ref, f);
      }
    }
  }

  /** Where everything lands, the new query is the old one with its columns moved. */
  lemma LandedQueryResolves(q: Query, to: Pieces, db: Db, db': Db, f: Moves)
    requires Resolve(q, db).Some? && Fitting(q, to) && EverythingLands(q, to, db, db', f)
    ensures Resolve(Replaced(q, to), db') == Some(MoveQuery(Resolve(q, db).value, f))
  {
    var s, s' := ScopeOf(q.from, db), ScopeOf(to.from, db');
    LandedTables(q, to, db, db');
    AllBlocksLand(q, to, db, s, s', f);
    BlocksLand(s, s', q.items, to.blocks, f);
    forall r | r in Refs(q.where)
      ensures Tracks(s, s', r, to.ref(r), f)
    {
      assert r in QueryRefs(q) && RefLands(s, s', r, to.ref(r), f);
    }
    ExprTracks(s, s', q.where, to.ref, f);
    forall i, r | 0 <= i < |q.order| && r in Refs(q.order[i])
      ensures Tracks(s, s', r, to.ref(r), f)
    {
      assert r in QueryRefs(q) && RefLands(s, s', r, to.ref(r), f);
    }
    ExprsTrack(s, s', q.order, to.ref, f);
  }

  lemma LandedQueryPreserves(sem: Semantics, q: Query, to: Pieces, db: Db, db': Db, place: Places)
    requires Placed(db, db', place) && Resolve(q, db).Some? && Fitting(q, to)
    requires EverythingLands(q, to, db, db', BindingMoves(TablesOf(q.from, db), place))
    ensures Eval(sem, Replaced(q, to), db') == Eval(sem, q, db)
  {
    var tables := TablesOf(q.from, db);
    var f := BindingMoves(tables, place);
    LandedQueryResolves(q, to, db, db', f);
    PlacedSimulates(tables, db, db', place);
    ResolvedInRange(q, db);
    SimulationPreservesResults(sem, Resolve(q, db).value, db, db', f);
  }

  // ---------------------------------------------------------------------------------
  // Something is lost

  lemma {:induction false} JoinNeedsBoth(s: Scope, a: seq<Item>, b: seq<Item>)
    requires ScopeOk(s) && (ResolveItems(s, a).None? || ResolveItems(s, b).None?)
    ensures ResolveItems(s, a + b).None?
  {
    if b == [] {
      assert a + b == a;
    } else if ResolveItems(s, a).Some? {
      ItemsConcat(s, a, b);
    } else {
      var k := |b| - 1;
      assert (a + b)[..|a + b| - 1] == a + b[..k];
      JoinNeedsBoth(s, a, b[..k]);
    }
  }

  lemma {:induction false} JoinNeedsEach(s: Scope, blocks: seq<seq<Item>>, i: nat)
    requires ScopeOk(s) && i < |blocks| && ResolveItems(s, blocks[i]).None?
    ensures ResolveItems(s, Joined(blocks)).None?
  {
    var k := |blocks| - 1;
    if i < k { JoinNeedsEach(s, blocks[..k], i); }
    JoinNeedsBoth(s, Joined(blocks[..k]), blocks[k]);
  }

  /** A reference that no longer resolves. */
  lemma LostRefFails(q: Query, to: Pieces, db': Db, r: Ref)
    requires Fitting(q, to) && TablesExist(to.from, db') && r in QueryRefs(q)
    requires ResolveRef(ScopeOf(to.from, db'), to.ref(r)).None?
    ensures Resolve(Replaced(q, to), db').None?
  {
    var s', r' := ScopeOf(to.from, db'), to.ref(r);
    if r in Refs(q.where) {
      RefsMapped(q.where, to.ref);
      ExprNeedsRef(s', MapRefs(q.where, to.ref), r');
    } else if i :| 0 <= i < |q.order| && r in Refs(q.order[i]) {
      RefsMapped(q.order[i], to.ref);
      ExprNeedsRef(s', MapRefs(q.order[i], to.ref), r');
      ExprsNeedEach(s', MapExprs(q.order, to.ref), i);
    } else {
      var i :| 0 <= i < |q.items| && r in ItemRefs(q.items[i]);
      RefsMapped(q.items[i].e, to.ref);
      ExprNeedsRef(s', MapRefs(q.items[i].e, to.ref), r');
      OneItem(s', Output(MapRefs(q.items[i].e, to.ref)));
      JoinNeedsEach(s', to.blocks, i);
    }
  }

  lemma LostQueryFails(q: Query, to: Pieces, db: Db, db': Db, f: Moves)
    requires Resolve(q, db).Some? && Fitting(q, to)
    requires NothingStrays(q, to, db, db', f) && !EverythingLands(q, to, db, db', f)
    ensures Resolve(Replaced(q, to), db').None?
  {
    if TablesExist(to.from, db') {
      assert forall b | 0 <= b < |q.from| :: Find(TableNames(db'), to.from[b].table).Some?;
      assert TablesLand(q, to, db, db');
      var s, s' := ScopeOf(q.from, db), ScopeOf(to.from, db');
      if r :| r in QueryRefs(q) && !RefLands(s, s', r, to.ref(r), f) {
        LostRefFails(q, to, db', r);
      } else {
        assert !StarsLand(q, to, s, s', f);
        var i :| 0 <= i < |q.items| && !q.items[i].Output? && !BlockLands(s, s', q.items[i], to.blocks[i], f);
        JoinNeedsEach(s', to.blocks, i);
      }
    }
  }

  /**
   For every change that keeps rows and cells: the new query returns what the old one returned, on all
   data and under every semantics of the operators, exactly when each of its names still means what it
   meant; otherwise it does not prepare. Names that are found somewhere else are excluded, because
   then it depends on the data whether the results agree.
   */
  lemma FollowingExactly(sem: Semantics, q: Query, to: Pieces, db: Db, db': Db, place: Places)
    requires Placed(db, db', place) && Resolve(q, db).Some? && Fitting(q, to)
    requires NothingStrays(q, to, db, db', BindingMoves(TablesOf(q.from, db), place))
    ensures Eval(sem, Replaced(q, to), db') == Eval(sem, q, db) <==>
            EverythingLands(q, to, db, db', BindingMoves(TablesOf(q.from, db), place))
    ensures Eval(sem, Replaced(q, to), db') == Eval(sem, q, db) || Eval(sem, Replaced(q, to), db') == None
  {
    var f := BindingMoves(TablesOf(q.from, db), place);
    if EverythingLands(q, to, db, db', f) {
      LandedQueryPreserves(sem, q, to, db, db', place);
    } else {
      LostQueryFails(q, to, db, db', f);
    }
  }
}
