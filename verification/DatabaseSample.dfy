/** Sampling tasks evenly over their databases, in an order that a digest fixes. */
module DatabaseSample {
  import opened Prelude
  import opened Sampling

  datatype Row = Row(db: string, index: int, question: string)

  type Order<!T> = (T, T) -> bool

  /** A strict order up to ties. */
  ghost predicate Ranks<T(!new)>(before: Order<T>) {
    && (forall a, b :: before(a, b) ==> !before(b, a))
    && (forall a, b, c :: before(a, c) ==> before(a, b) || before(b, c))
  }

  // ---------------------------------------------------------------------------------
  // Stable sorting

  function Insert<T>(s: seq<T>, x: T, before: Order<T>): (r: seq<T>)
    ensures multiset(r) == multiset(s) + multiset{x} && |r| == |s| + 1
  {
    if s != [] && before(x, s[|s| - 1]) then
      assert s == s[..|s| - 1] + [s[|s| - 1]];
      Insert(s[..|s| - 1], x, before) + [s[|s| - 1]]
    else s + [x]
  }

  function Sorted<T>(s: seq<T>, before: Order<T>): (r: seq<T>)
    ensures multiset(r) == multiset(s) && |r| == |s|
  {
    if s == [] then [] else
    assert s == s[..|s| - 1] + [s[|s| - 1]];
    Insert(Sorted(s[..|s| - 1], before), s[|s| - 1], before)
  }

  predicate InOrder<T>(s: seq<T>, before: Order<T>) {
    forall i, j | 0 <= i < j < |s| :: !before(s[j], s[i])
  }

  /** Nothing in `s` comes after `x`. */
  predicate NoneAfter<T>(s: seq<T>, x: T, before: Order<T>) {
    forall i | 0 <= i < |s| :: !before(x, s[i])
  }

  lemma OrderSnoc<T>(s: seq<T>, x: T, before: Order<T>)
    requires InOrder(s, before) && NoneAfter(s, x, before)
    ensures InOrder(s + [x], before)
  {
  }

  lemma NoneAfterInsert<T>(s: seq<T>, x: T, y: T, before: Order<T>)
    requires NoneAfter(s, y, before) && !before(y, x)
    ensures NoneAfter(Insert(s, x, before), y, before)
  {
    var r := Insert(s, x, before);
    forall i | 0 <= i < |r|
      ensures !before(y, r[i])
    {
      assert r[i] in multiset(r);
      assert r[i] in multiset(s) || r[i] == x;
    }
  }

  lemma Between<T(!new)>(a: T, b: T, c: T, before: Order<T>)
    requires Ranks(before) && !before(a, b) && !before(b, c)
    ensures !before(a, c)
  {
  }

  lemma {:induction false} InsertOrders<T(!new)>(s: seq<T>, x: T, before: Order<T>)
    requires Ranks(before) && InOrder(s, before)
    ensures InOrder(Insert(s, x, before), before)
  {
    if s != [] {
      var k := |s| - 1;
      if before(x, s[k]) {
        InsertOrders(s[..k], x, before);
        NoneAfterInsert(s[..k], x, s[k], before);
        OrderSnoc(Insert(s[..k], x, before), s[k], before);
      } else {
        forall i | 0 <= i < |s|
          ensures !before(x, s[i])
        {
          if i < k { Between(x, s[k], s[i], before); }
        }
        OrderSnoc(s, x, before);
      }
    }
  }

  lemma {:induction false} SortedInOrder<T(!new)>(s: seq<T>, before: Order<T>)
    requires Ranks(before)
    ensures InOrder(Sorted(s, before), before)
  {
    if s != [] {
      SortedInOrder(s[..|s| - 1], before);
      InsertOrders(Sorted(s[..|s| - 1], before), s[|s| - 1], before);
    }
  }

  // ---------------------------------------------------------------------------------
  // Grouping

  function RowsOf(rows: seq<Row>, id: string): (r: seq<Row>)
    ensures forall i | 0 <= i < |r| :: r[i].db == id
  {
    if rows == [] then [] else
    var k := |rows| - 1;
    RowsOf(rows[..k], id) + if rows[k].db == id then [rows[k]] else []
  }

  /** The databases in the order in which they first occur. */
  function Databases(rows: seq<Row>): (ids: seq<string>)
    ensures forall id :: id in ids <==> exists i :: 0 <= i < |rows| && rows[i].db == id
    ensures forall i, j | 0 <= i < j < |ids| :: ids[i] != ids[j]
  {
    if rows == [] then [] else
    var k := |rows| - 1;
    var init := Databases(rows[..k]);
    assert forall i | 0 <= i < k :: rows[..k][i] == rows[i];
    if rows[k].db in init then init else init + [rows[k].db]
  }

  /** The databases in their own order. */
  function Ids(rows: seq<Row>, idBefore: Order<string>): (ids: seq<string>)
    ensures |ids| == |Databases(rows)| && multiset(ids) == multiset(Databases(rows))
  {
    Sorted(Databases(rows), idBefore)
  }

  function Buckets(rows: seq<Row>, ids: seq<string>, scoreBefore: Order<Row>): (r: seq<seq<Row>>)
    ensures |r| == |ids| && forall i | 0 <= i < |r| :: r[i] == Sorted(RowsOf(rows, ids[i]), scoreBefore)
  {
    seq(|ids|, i requires 0 <= i < |ids| => Sorted(RowsOf(rows, ids[i]), scoreBefore))
  }

  predicate NoneTwice(ids: seq<string>) {
    forall i, j | 0 <= i < j < |ids| :: ids[i] != ids[j]
  }

  lemma {:induction false} CountOfEach(ids: seq<string>)
    requires NoneTwice(ids)
    ensures forall id :: multiset(ids)[id] == if id in ids then 1 else 0
  {
    if ids != [] {
      var k := |ids| - 1;
      CountOfEach(ids[..k]);
      assert ids == ids[..k] + [ids[k]];
      assert ids[k] !in ids[..k];
    }
  }

  lemma TwiceCounts(ids: seq<string>, i: nat, j: nat)
    requires i < j < |ids| && ids[i] == ids[j]
    ensures multiset(ids)[ids[i]] >= 2
  {
    var a, b := ids[..i + 1], ids[i + 1..];
    assert ids == a + b;
    assert a[i] == ids[i] && b[j - i - 1] == ids[i];
    assert ids[i] in multiset(a) && ids[i] in multiset(b);
  }

  /** The sorted databases are the databases, each once. */
  /** The rounds visit the databases in their own order. */
  lemma IdsInOrder(rows: seq<Row>, idBefore: Order<string>)
    requires Ranks(idBefore)
    ensures forall i, j | 0 <= i < j < |Ids(rows, idBefore)| :: !idBefore(Ids(rows, idBefore)[j], Ids(rows, idBefore)[i])
  {
    SortedInOrder(Databases(rows), idBefore);
  }

  lemma IdsAreDatabases(rows: seq<Row>, idBefore: Order<string>)
    ensures NoneTwice(Ids(rows, idBefore))
    ensures forall i | 0 <= i < |rows| :: rows[i].db in Ids(rows, idBefore)
    ensures forall i | 0 <= i < |Ids(rows, idBefore)| :: Ids(rows, idBefore)[i] in Databases(rows)
  {
    var ids, found := Ids(rows, idBefore), Databases(rows);
    CountOfEach(found);
    forall i, j | 0 <= i < j < |ids|
      ensures ids[i] != ids[j]
    {
      if ids[i] == ids[j] { TwiceCounts(ids, i, j); }
    }
    forall i | 0 <= i < |rows|
      ensures rows[i].db in ids
    {
      assert rows[i].db in multiset(found);
      assert rows[i].db in multiset(ids);
    }
    forall i | 0 <= i < |ids|
      ensures ids[i] in found
    {
      assert ids[i] in multiset(ids);
      assert ids[i] in multiset(found);
    }
  }

  // ---------------------------------------------------------------------------------
  // No row is lost

  function RowCount(rows: seq<Row>, ids: seq<string>, n: nat): nat
    requires n <= |ids|
  {
    if n == 0 then 0 else RowCount(rows, ids, n - 1) + |RowsOf(rows, ids[n - 1])|
  }

  lemma {:induction false} TotalCounts(buckets: seq<seq<Row>>, rows: seq<Row>, ids: seq<string>, n: nat)
    requires n <= |ids| == |buckets| && forall i | 0 <= i < |ids| :: |buckets[i]| == |RowsOf(rows, ids[i])|
    ensures Total(buckets, n) == RowCount(rows, ids, n)
  {
    if n > 0 { TotalCounts(buckets, rows, ids, n - 1); }
  }

  predicate Among(id: string, ids: seq<string>, n: nat)
    requires n <= |ids|
  {
    exists i | 0 <= i < n :: ids[i] == id
  }

  /** One more row belongs to one bucket. */
  lemma {:induction false} CountGrows(init: seq<Row>, row: Row, ids: seq<string>, n: nat)
    requires n <= |ids| && NoneTwice(ids)
    ensures RowCount(init + [row], ids, n) == RowCount(init, ids, n) + if Among(row.db, ids, n) then 1 else 0
  {
    if n > 0 {
      CountGrows(init, row, ids, n - 1);
      assert (init + [row])[..|init|] == init;
      if ids[n - 1] == row.db { assert Among(row.db, ids, n); }
    }
  }

  lemma {:induction false} CountIsRows(rows: seq<Row>, ids: seq<string>)
    requires NoneTwice(ids) && forall i | 0 <= i < |rows| :: rows[i].db in ids
    ensures RowCount(rows, ids, |ids|) == |rows|
  {
    if rows == [] {
      NoRows(ids, |ids|);
    } else {
      var k := |rows| - 1;
      assert forall i | 0 <= i < k :: rows[..k][i] == rows[i];
      CountIsRows(rows[..k], ids);
      CountGrows(rows[..k], rows[k], ids, |ids|);
      assert rows == rows[..k] + [rows[k]];
    }
  }

  lemma {:induction false} NoRows(ids: seq<string>, n: nat)
    requires n <= |ids|
    ensures RowCount([], ids, n) == 0
  {
    if n > 0 { NoRows(ids, n - 1); }
  }

  // ---------------------------------------------------------------------------------
  // What a database contributes

  /** The rows of one database among rows that are known as a bag. */
  lemma {:induction false} BagOfDatabase(rows: seq<Row>, id: string, x: Row)
    ensures multiset(RowsOf(rows, id))[x] == if x.db == id then multiset(rows)[x] else 0
  {
    if rows != [] {
      var k := |rows| - 1;
      BagOfDatabase(rows[..k], id, x);
      assert rows == rows[..k] + [rows[k]];
    }
  }

  predicate OfDatabases(buckets: seq<seq<Row>>, ids: seq<string>) {
    |buckets| == |ids| && forall i, j | 0 <= i < |ids| && 0 <= j < |buckets[i]| :: buckets[i][j].db == ids[i]
  }

  lemma BucketsOfDatabases(rows: seq<Row>, ids: seq<string>, scoreBefore: Order<Row>)
    ensures OfDatabases(Buckets(rows, ids, scoreBefore), ids)
  {
    var buckets: seq<seq<Row>> := Buckets(rows, ids, scoreBefore);
    forall i: nat, j: nat | 0 <= i < |ids| && 0 <= j < |buckets[i]|
      ensures buckets[i][j].db == ids[i]
    {
      assert buckets[i][j] in multiset(buckets[i]);
      assert buckets[i][j] in multiset(RowsOf(rows, ids[i]));
    }
  }

  function Taken(buckets: seq<seq<Row>>, level: nat, cut: nat, i: nat): multiset<Row>
    requires i < |buckets|
  {
    multiset(buckets[i][..TakenAt(buckets, level, cut, i)])
  }

  /** A row that only bucket `i` has given was picked as often as bucket `i` gave it. */
  lemma {:induction false} PickedOnce(buckets: seq<seq<Row>>, level: nat, cut: nat, n: nat, i: nat, x: Row)
    requires n <= |buckets| && i < |buckets|
    requires forall k | 0 <= k < n && k != i :: Taken(buckets, level, cut, k)[x] == 0
    ensures Picked(buckets, level, cut, n)[x] == if i < n then Taken(buckets, level, cut, i)[x] else 0
  {
    if n > 0 {
      PickedOnce(buckets, level, cut, n - 1, i, x);
      assert Picked(buckets, level, cut, n) == Picked(buckets, level, cut, n - 1) + Taken(buckets, level, cut, n - 1);
    }
  }

  lemma ForeignTaken(buckets: seq<seq<Row>>, ids: seq<string>, level: nat, cut: nat, i: nat, x: Row)
    requires OfDatabases(buckets, ids) && i < |ids| && x.db != ids[i]
    ensures Taken(buckets, level, cut, i)[x] == 0
  {
    ForeignRow(buckets[i][..TakenAt(buckets, level, cut, i)], ids[i], x);
  }

  /** What was picked of one database comes from its own bucket. */
  lemma PickedOfDatabase(buckets: seq<seq<Row>>, ids: seq<string>, level: nat, cut: nat, i: nat, x: Row)
    requires OfDatabases(buckets, ids) && NoneTwice(ids) && i < |ids| && x.db == ids[i]
    ensures Picked(buckets, level, cut, |ids|)[x] == Taken(buckets, level, cut, i)[x]
  {
    forall k | 0 <= k < |ids| && k != i
      ensures Taken(buckets, level, cut, k)[x] == 0
    {
      ForeignTaken(buckets, ids, level, cut, k, x);
    }
    PickedOnce(buckets, level, cut, |ids|, i, x);
  }

  lemma ForeignRow(rows: seq<Row>, id: string, x: Row)
    requires x.db != id && forall j | 0 <= j < |rows| :: rows[j].db == id
    ensures multiset(rows)[x] == 0
  {
    assert x !in rows;
  }

  lemma SelectedRow(buckets: seq<seq<Row>>, ids: seq<string>, selected: seq<Row>, level: nat, cut: nat, i: nat, x: Row)
    requires OfDatabases(buckets, ids) && NoneTwice(ids) && i < |ids|
    requires multiset(selected) == Picked(buckets, level, cut, |ids|)
    ensures multiset(RowsOf(selected, ids[i]))[x] == Taken(buckets, level, cut, i)[x]
  {
    BagOfDatabase(selected, ids[i], x);
    if x.db == ids[i] {
      PickedOfDatabase(buckets, ids, level, cut, i, x);
    } else {
      ForeignTaken(buckets, ids, level, cut, i, x);
    }
  }

  /** A selection takes of every database exactly a prefix of its bucket. */
  lemma SelectedOfDatabase(buckets: seq<seq<Row>>, ids: seq<string>, selected: seq<Row>, level: nat, cut: nat, i: nat)
    requires OfDatabases(buckets, ids) && NoneTwice(ids) && i < |ids|
    requires multiset(selected) == Picked(buckets, level, cut, |ids|)
    ensures multiset(RowsOf(selected, ids[i])) == Taken(buckets, level, cut, i)
  {
    var given, taken := multiset(RowsOf(selected, ids[i])), Taken(buckets, level, cut, i);
    forall x: Row
      ensures given[x] == taken[x]
    {
      SelectedRow(buckets, ids, selected, level, cut, i, x);
    }
  }

  // ---------------------------------------------------------------------------------
  // The sample

  predicate IndexBefore(a: Row, b: Row) {
    a.index < b.index
  }

  /** Water filling over the buckets of all databases, put into source order. */
  ghost predicate IsSample(rows: seq<Row>, sample: seq<Row>, ids: seq<string>, scoreBefore: Order<Row>, level: nat, cut: nat) {
    && cut <= |ids| && NoneTwice(ids) && (forall i | 0 <= i < |rows| :: rows[i].db in ids)
    && multiset(sample) == Picked(Buckets(rows, ids, scoreBefore), level, cut, |ids|)
  }

  /** The dictionary from database to rows, in the order of its keys. */
  method GroupRows(rows: seq<Row>) returns (groups: map<string, seq<Row>>, keys: seq<string>)
    ensures keys == Databases(rows) && (forall id: string :: id in groups <==> id in keys)
    ensures forall id: string | id in groups :: groups[id] == RowsOf(rows, id)
  {
    groups, keys := map[], [];
    for i := 0 to |rows|
      invariant keys == Databases(rows[..i]) && (forall id: string :: id in groups <==> id in keys)
      invariant forall id: string | id in groups :: groups[id] == RowsOf(rows[..i], id)
    {
      var row := rows[i];
      assert rows[..i + 1][..i] == rows[..i];
      if row.db in groups {
        groups := groups[row.db := groups[row.db] + [row]];
      } else {
        NotYetGrouped(rows[..i], row.db);
        groups := groups[row.db := [row]];
        keys := keys + [row.db];
      }
    }
    assert rows[..|rows|] == rows;
  }

  lemma {:induction false} NotYetGrouped(rows: seq<Row>, id: string)
    requires forall i | 0 <= i < |rows| :: rows[i].db != id
    ensures RowsOf(rows, id) == []
  {
    if rows != [] { NotYetGrouped(rows[..|rows| - 1], id); }
  }

  /** `stratified_database_sample`; a size below one raises. */
  method StratifiedDatabaseSample(rows: seq<Row>, size: int, idBefore: Order<string>, scoreBefore: Order<Row>)
    returns (r: Result<seq<Row>, string>)
    ensures r.Ok? <==> size > 0
    ensures r.Ok? ==> |r.value| == Min(size, |rows|)
    ensures r.Ok? ==> forall i, j | 0 <= i < j < |r.value| :: r.value[i].index <= r.value[j].index
    ensures r.Ok? ==> exists level: nat, cut: nat :: IsSample(rows, r.value, Ids(rows, idBefore), scoreBefore, level, cut)
  {
    if size <= 0 {
      return Err("size must be positive");
    }
    var groups, keys := GroupRows(rows);
    var ids := Sorted(keys, idBefore);
    IdsAreDatabases(rows, idBefore);
    var buckets := SortedGroups(groups, ids, rows, scoreBefore);
    TotalCounts(buckets, rows, ids, |ids|);
    CountIsRows(rows, ids);
    var selected := RoundRobin(buckets, size);
    ghost var level: nat, cut: nat :| Filled(buckets, selected, level, cut);
    assert IsSample(rows, Sorted(selected, IndexBefore), Ids(rows, idBefore), scoreBefore, level, cut);
    SortedInOrder(selected, IndexBefore);
    return Ok(Sorted(selected, IndexBefore));
  }

  /** Every group in digest order. */
  method SortedGroups(groups: map<string, seq<Row>>, ids: seq<string>, ghost rows: seq<Row>, scoreBefore: Order<Row>)
    returns (buckets: seq<seq<Row>>)
    requires forall i | 0 <= i < |ids| :: ids[i] in groups && groups[ids[i]] == RowsOf(rows, ids[i])
    ensures buckets == Buckets(rows, ids, scoreBefore)
  {
    buckets := [];
    for i := 0 to |ids|
      invariant buckets == Buckets(rows, ids[..i], scoreBefore)
    {
      OneMoreBucket(rows, ids, i, scoreBefore);
      buckets := buckets + [Sorted(groups[ids[i]], scoreBefore)];
    }
    assert ids[..|ids|] == ids;
  }

  lemma OneMoreBucket(rows: seq<Row>, ids: seq<string>, i: nat, scoreBefore: Order<Row>)
    requires i < |ids|
    ensures Buckets(rows, ids[..i + 1], scoreBefore) ==
            Buckets(rows, ids[..i], scoreBefore) + [Sorted(RowsOf(rows, ids[i]), scoreBefore)]
  {
    assert ids[..i + 1] == ids[..i] + [ids[i]];
  }

  /**
   Stratified: a database that gives at least two rows fewer than another has given all its rows. So
   the counts of databases with rows to spare differ by at most one.
   */
  lemma SampleIsStratified(rows: seq<Row>, sample: seq<Row>, ids: seq<string>, scoreBefore: Order<Row>,
                           level: nat, cut: nat, i: nat, j: nat)
    requires IsSample(rows, sample, ids, scoreBefore, level, cut) && i < |ids| && j < |ids|
    requires |RowsOf(sample, ids[i])| + 1 < |RowsOf(sample, ids[j])|
    ensures multiset(RowsOf(sample, ids[i])) == multiset(RowsOf(rows, ids[i]))
  {
    var buckets := Buckets(rows, ids, scoreBefore);
    BucketsOfDatabases(rows, ids, scoreBefore);
    SelectedOfDatabase(buckets, ids, sample, level, cut, i);
    SelectedOfDatabase(buckets, ids, sample, level, cut, j);
    TakenSize(buckets, RowsOf(sample, ids[i]), level, cut, i);
    TakenSize(buckets, RowsOf(sample, ids[j]), level, cut, j);
    WholeBucket(buckets[i], RowsOf(rows, ids[i]), RowsOf(sample, ids[i]), TakenAt(buckets, level, cut, i));
  }

  lemma WholeBucket(bucket: seq<Row>, rows: seq<Row>, taken: seq<Row>, n: nat)
    requires n == |bucket| && multiset(taken) == multiset(bucket[..n]) && multiset(bucket) == multiset(rows)
    ensures multiset(taken) == multiset(rows)
  {
    assert bucket[..n] == bucket;
  }

  lemma TakenSize(buckets: seq<seq<Row>>, taken: seq<Row>, level: nat, cut: nat, i: nat)
    requires i < |buckets| && multiset(taken) == multiset(buckets[i][..TakenAt(buckets, level, cut, i)])
    ensures |taken| == TakenAt(buckets, level, cut, i)
  {
    assert |multiset(taken)| == |taken|;
  }

  /** Within a database the digest decides: no row that was left out comes before one that was taken. */
  lemma SampleFollowsDigest(rows: seq<Row>, sample: seq<Row>, ids: seq<string>, scoreBefore: Order<Row>,
                            level: nat, cut: nat, taken: Row, left: Row)
    requires IsSample(rows, sample, ids, scoreBefore, level, cut) && Ranks(scoreBefore)
    requires taken in sample && left in rows && left !in sample && left.db == taken.db && taken.db in ids
    ensures !scoreBefore(left, taken)
  {
    var i :| 0 <= i < |ids| && ids[i] == taken.db;
    var buckets := Buckets(rows, ids, scoreBefore);
    BucketsOfDatabases(rows, ids, scoreBefore);
    SelectedOfDatabase(buckets, ids, sample, level, cut, i);
    SortedInOrder(RowsOf(rows, ids[i]), scoreBefore);
    FollowsDigest(rows, sample, ids[i], buckets[i], TakenAt(buckets, level, cut, i), scoreBefore, taken, left);
  }

  lemma FollowsDigest(rows: seq<Row>, sample: seq<Row>, id: string, bucket: seq<Row>, n: nat, before: Order<Row>,
                      taken: Row, left: Row)
    requires n <= |bucket| && InOrder(bucket, before)
    requires multiset(RowsOf(rows, id)) == multiset(bucket) && multiset(RowsOf(sample, id)) == multiset(bucket[..n])
    requires taken in sample && left in rows && left !in sample && left.db == taken.db == id
    ensures !before(left, taken)
  {
    InBag(sample, id, multiset(bucket[..n]), taken);
    InBag(sample, id, multiset(bucket[..n]), left);
    InBag(rows, id, multiset(bucket), left);
    TakenBefore(bucket, n, taken, left, before);
  }

  lemma InBag(rows: seq<Row>, id: string, bag: multiset<Row>, x: Row)
    requires multiset(RowsOf(rows, id)) == bag && x.db == id
    ensures x in bag <==> x in rows
  {
    BagOfDatabase(rows, id, x);
    assert x in rows <==> x in multiset(rows);
  }

  lemma TakenBefore(bucket: seq<Row>, n: nat, taken: Row, left: Row, before: Order<Row>)
    requires n <= |bucket| && InOrder(bucket, before)
    requires taken in multiset(bucket[..n]) && left in multiset(bucket) && left !in multiset(bucket[..n])
    ensures !before(left, taken)
  {
    assert taken in bucket[..n] && left in bucket && left !in bucket[..n];
    assert forall k | 0 <= k < n :: bucket[..n][k] == bucket[k] != left;
    var a :| 0 <= a < n && bucket[..n][a] == taken;
    var b :| 0 <= b < |bucket| && bucket[b] == left;
  }
}
