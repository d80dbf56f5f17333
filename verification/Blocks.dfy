/** Lists of value blocks, and when their concatenation determines them. */
module Blocks {
  import opened Prelude
  import opened Database

  function Flat(blocks: seq<seq<Value>>): seq<Value> {
    if blocks == [] then [] else Flat(blocks[..|blocks| - 1]) + blocks[|blocks| - 1]
  }

  function Unit(v: Value): int {
    if v.Evaluated? then -1 else 1
  }

  /** Stored values count for, default values count against. */
  function Weight(values: seq<Value>): int {
    if values == [] then 0 else Weight(values[..|values| - 1]) + Unit(values[|values| - 1])
  }

  lemma {:induction false} WeightConcat(a: seq<Value>, b: seq<Value>)
    ensures Weight(a + b) == Weight(a) + Weight(b)
  {
    if b == [] {
      assert a + b == a;
    } else {
      var k := |b| - 1;
      assert (a + b)[..|a + b| - 1] == a + b[..k];
      WeightConcat(a, b[..k]);
    }
  }

  /** `y` weighs no more than `x`, and has its length when it weighs as much. */
  predicate Lighter(y: seq<Value>, x: seq<Value>) {
    Weight(y) <= Weight(x) && (Weight(y) == Weight(x) ==> |y| == |x|)
  }

  ghost predicate AllLighter(ys: seq<seq<Value>>, xs: seq<seq<Value>>) {
    |ys| == |xs| && forall i | 0 <= i < |xs| :: Lighter(ys[i], xs[i])
  }

  lemma LighterInit(ys: seq<seq<Value>>, xs: seq<seq<Value>>)
    requires AllLighter(ys, xs) && xs != []
    ensures AllLighter(ys[..|ys| - 1], xs[..|xs| - 1])
  {
  }

  lemma {:induction false} FlatIsLighter(ys: seq<seq<Value>>, xs: seq<seq<Value>>)
    requires AllLighter(ys, xs)
    ensures Weight(Flat(ys)) <= Weight(Flat(xs))
  {
    if xs != [] {
      var k := |xs| - 1;
      LighterInit(ys, xs);
      FlatIsLighter(ys[..k], xs[..k]);
      WeightConcat(Flat(ys[..k]), ys[k]);
      WeightConcat(Flat(xs[..k]), xs[k]);
    }
  }

  lemma CutAlike(a: seq<Value>, b: seq<Value>, c: seq<Value>, d: seq<Value>)
    requires a + b == c + d && |b| == |d|
    ensures a == c && b == d
  {
    assert |a| == |c|;
    assert a == (a + b)[..|a|] && c == (c + d)[..|c|];
    assert b == (a + b)[|a|..] && d == (c + d)[|c|..];
  }

  /** When no block is heavier than its counterpart, equal concatenations have equal blocks. */
  lemma {:induction false} BlocksAlign(ys: seq<seq<Value>>, xs: seq<seq<Value>>)
    requires AllLighter(ys, xs) && Flat(ys) == Flat(xs)
    ensures ys == xs
  {
    if xs != [] {
      var k := |xs| - 1;
      LighterInit(ys, xs);
      FlatIsLighter(ys[..k], xs[..k]);
      WeightConcat(Flat(ys[..k]), ys[k]);
      WeightConcat(Flat(xs[..k]), xs[k]);
      CutAlike(Flat(ys[..k]), ys[k], Flat(xs[..k]), xs[k]);
      BlocksAlign(ys[..k], xs[..k]);
      assert ys == ys[..k] + [ys[k]] && xs == xs[..k] + [xs[k]];
    }
  }

  // ---------------------------------------------------------------------------------
  // Cells picked from a numbered row

  function Numbered(n: nat): (r: seq<Value>)
    ensures |r| == n && forall c | 0 <= c < n :: r[c] == Integer(c)
  {
    seq(n, c requires 0 <= c < n => Integer(c))
  }

  lemma {:induction false} NumberedWeight(n: nat)
    ensures Weight(Numbered(n)) == n
  {
    if n > 0 {
      assert Numbered(n)[..n - 1] == Numbered(n - 1);
      NumberedWeight(n - 1);
    }
  }

  predicate DistinctPlaces(ps: seq<nat>) {
    forall i, j | 0 <= i < j < |ps| :: ps[i] != ps[j]
  }

  /** The values picked at `ps` from a row whose first `n` cells are numbered and whose others are defaults. */
  ghost predicate PickedFrom(values: seq<Value>, ps: seq<nat>, n: nat) {
    && |values| == |ps|
    && forall k | 0 <= k < |ps| :: if ps[k] < n then values[k] == Integer(ps[k]) else values[k].Evaluated?
  }

  /** The positions below `n`. */
  function Stored(ps: seq<nat>, n: nat): (r: set<nat>)
    ensures forall p: nat :: p in r <==> p in ps && p < n
  {
    if ps == [] then {} else
    var k := |ps| - 1;
    assert ps == ps[..k] + [ps[k]];
    Stored(ps[..k], n) + if ps[k] < n then {ps[k]} else {}
  }

  function UpTo(n: nat): (r: set<nat>)
    ensures |r| == n && forall p: nat :: p in r <==> p < n
  {
    if n == 0 then {} else UpTo(n - 1) + {n - 1}
  }

  lemma {:induction false} PickedWeight(values: seq<Value>, ps: seq<nat>, n: nat)
    requires PickedFrom(values, ps, n) && DistinctPlaces(ps)
    ensures |Stored(ps, n)| <= |ps| && Weight(values) == 2 * |Stored(ps, n)| - |ps|
  {
    if ps != [] {
      var k := |ps| - 1;
      PickedWeight(values[..k], ps[..k], n);
      assert ps[k] !in ps[..k];
      assert ps[k] !in Stored(ps[..k], n);
    }
  }

  lemma PickedIsLighter(values: seq<Value>, ps: seq<nat>, n: nat)
    requires PickedFrom(values, ps, n) && DistinctPlaces(ps)
    ensures Lighter(values, Numbered(n))
  {
    PickedWeight(values, ps, n);
    NumberedWeight(n);
    SubsetIsSmaller(Stored(ps, n), UpTo(n));
  }

  /** Picking the whole numbered row picks it in order. */
  lemma PickedInOrder(values: seq<Value>, ps: seq<nat>, n: nat)
    requires PickedFrom(values, ps, n) && values == Numbered(n)
    ensures |ps| == n && forall k | 0 <= k < n :: ps[k] == k
  {
    forall k | 0 <= k < n
      ensures ps[k] == k
    {
      assert values[k] == Integer(k);
    }
  }
}
