/** Round-robin sampling over databases, which fills them like water up to a common level. */
module Sampling {
  import opened Prelude

  /** How many items bucket `i` has given when the level is `level` and the first `cut` are one higher. */
  function TakenAt<T>(buckets: seq<seq<T>>, level: nat, cut: nat, i: nat): nat
    requires i < |buckets|
  {
    Min(|buckets[i]|, if i < cut then level + 1 else level)
  }

  /** Everything that the first `n` buckets have given: a prefix of each. */
  function Picked<T>(buckets: seq<seq<T>>, level: nat, cut: nat, n: nat): multiset<T>
    requires n <= |buckets|
  {
    if n == 0 then multiset{} else
    Picked(buckets, level, cut, n - 1) + multiset(buckets[n - 1][..TakenAt(buckets, level, cut, n - 1)])
  }

  function Total<T>(buckets: seq<seq<T>>, n: nat): nat
    requires n <= |buckets|
  {
    if n == 0 then 0 else Total(buckets, n - 1) + |buckets[n - 1]|
  }

  /** The selection is what water filling gives, whatever its order. */
  ghost predicate Filled<T>(buckets: seq<seq<T>>, selected: seq<T>, level: nat, cut: nat) {
    cut <= |buckets| && multiset(selected) == Picked(buckets, level, cut, |buckets|)
  }

  lemma Swap<T>(a: multiset<T>, m: multiset<T>, p: multiset<T>)
    ensures a + m + p == a + p + m
  {
  }

  /** What bucket `cut` gives when its turn comes. */
  function Gift<T>(buckets: seq<seq<T>>, level: nat, cut: nat): multiset<T>
    requires cut < |buckets|
  {
    if level < |buckets[cut]| then multiset{buckets[cut][level]} else multiset{}
  }

  lemma GiftExtends<T>(buckets: seq<seq<T>>, level: nat, cut: nat)
    requires cut < |buckets|
    ensures multiset(buckets[cut][..Min(|buckets[cut]|, level + 1)]) ==
            multiset(buckets[cut][..Min(|buckets[cut]|, level)]) + Gift(buckets, level, cut)
  {
    if level < |buckets[cut]| {
      assert buckets[cut][..level + 1] == buckets[cut][..level] + [buckets[cut][level]];
    }
  }

  lemma {:induction false} CutBeyond<T>(buckets: seq<seq<T>>, level: nat, cut: nat, n: nat)
    requires n <= cut < |buckets|
    ensures Picked(buckets, level, cut + 1, n) == Picked(buckets, level, cut, n)
  {
    if n > 0 { CutBeyond(buckets, level, cut, n - 1); }
  }

  lemma {:induction false} CutMoves<T>(buckets: seq<seq<T>>, level: nat, cut: nat, n: nat)
    requires cut < n <= |buckets|
    ensures Picked(buckets, level, cut + 1, n) == Picked(buckets, level, cut, n) + Gift(buckets, level, cut)
  {
    var gift := Gift(buckets, level, cut);
    var init, last := Picked(buckets, level, cut, n - 1), multiset(buckets[n - 1][..TakenAt(buckets, level, cut, n - 1)]);
    if n - 1 == cut {
      CutBeyond(buckets, level, cut, cut);
      GiftExtends(buckets, level, cut);
      Reassociate(init, last, gift);
    } else {
      CutMoves(buckets, level, cut, n - 1);
      assert TakenAt(buckets, level, cut + 1, n - 1) == TakenAt(buckets, level, cut, n - 1);
      Swap(init, gift, last);
    }
  }

  lemma Reassociate<T>(a: multiset<T>, m: multiset<T>, p: multiset<T>)
    ensures a + (m + p) == a + m + p
  {
  }

  lemma {:induction false} LevelRises<T>(buckets: seq<seq<T>>, level: nat, n: nat)
    requires n <= |buckets|
    ensures Picked(buckets, level, |buckets|, n) == Picked(buckets, level + 1, 0, n)
  {
    if n > 0 { LevelRises(buckets, level, n - 1); }
  }

  lemma {:induction false} PickedSize<T>(buckets: seq<seq<T>>, level: nat, cut: nat, n: nat)
    requires n <= |buckets|
    ensures |Picked(buckets, level, cut, n)| <= Total(buckets, n)
    ensures (forall i | 0 <= i < n :: |buckets[i]| <= level) ==> |Picked(buckets, level, cut, n)| == Total(buckets, n)
  {
    if n > 0 { PickedSize(buckets, level, cut, n - 1); }
  }

  lemma {:induction false} NothingPicked<T>(buckets: seq<seq<T>>, n: nat)
    requires n <= |buckets|
    ensures Picked(buckets, 0, 0, n) == multiset{}
  {
    if n > 0 {
      NothingPicked(buckets, n - 1);
      assert buckets[n - 1][..0] == [];
    }
  }

  /** What is left in every bucket. */
  ghost predicate Leaves<T>(buckets: seq<seq<T>>, rest: seq<seq<T>>, level: nat, cut: nat) {
    |rest| == |buckets| && forall i | 0 <= i < |buckets| :: rest[i] == buckets[i][TakenAt(buckets, level, cut, i)..]
  }

  lemma LeavesAtCut<T>(buckets: seq<seq<T>>, rest: seq<seq<T>>, level: nat, cut: nat)
    requires Leaves(buckets, rest, level, cut) && cut < |buckets|
    ensures rest[cut] == [] <==> |buckets[cut]| <= level
    ensures rest[cut] == [] ==> Gift(buckets, level, cut) == multiset{} && Leaves(buckets, rest, level, cut + 1)
    ensures rest[cut] != [] ==>
              && Gift(buckets, level, cut) == multiset{rest[cut][0]}
              && Leaves(buckets, rest[cut := rest[cut][1..]], level, cut + 1)
  {
    if rest[cut] != [] {
      assert buckets[cut][level..][1..] == buckets[cut][level + 1..];
    }
  }

  lemma FilledNext<T>(buckets: seq<seq<T>>, selected: seq<T>, more: seq<T>, level: nat, cut: nat)
    requires Filled(buckets, selected, level, cut) && cut < |buckets|
    requires multiset(more) == Gift(buckets, level, cut)
    ensures Filled(buckets, selected + more, level, cut + 1)
  {
    CutMoves(buckets, level, cut, |buckets|);
  }

  /** One pass over the databases: everyone gives one, until the size is reached. */
  method OneRound<T>(ghost buckets: seq<seq<T>>, rest0: seq<seq<T>>, selected0: seq<T>, size: nat, ghost level: nat)
    returns (rest: seq<seq<T>>, selected: seq<T>, progressed: bool, ghost cut: nat)
    requires Leaves(buckets, rest0, level, 0) && Filled(buckets, selected0, level, 0) && |selected0| < size
    ensures Leaves(buckets, rest, level, cut) && Filled(buckets, selected, level, cut)
    ensures cut == |buckets| || |selected| == size
    ensures |selected0| <= |selected| <= size
    ensures progressed <==> |selected| > |selected0|
    ensures !progressed ==> forall i | 0 <= i < |buckets| :: |buckets[i]| <= level
  {
    rest, selected, progressed, cut := rest0, selected0, false, 0;
    for d := 0 to |rest0|
      invariant cut <= d && (cut == d || |selected| == size)
      invariant Leaves(buckets, rest, level, cut) && Filled(buckets, selected, level, cut)
      invariant |selected0| <= |selected| <= size && (progressed <==> |selected| > |selected0|)
      invariant !progressed ==> forall i | 0 <= i < d :: |buckets[i]| <= level
    {
      if |selected| < size {
        LeavesAtCut(buckets, rest, level, cut);
        if rest[d] != [] {
          FilledNext(buckets, selected, [rest[d][0]], level, cut);
          selected := selected + [rest[d][0]];
          rest := rest[d := rest[d][1..]];
          progressed := true;
        } else {
          FilledNext(buckets, selected, [], level, cut);
          assert selected + [] == selected;
        }
        cut := cut + 1;
      }
    }
  }

  /** The rounds, until the size is reached or nothing is left. */
  method RoundRobin<T>(buckets: seq<seq<T>>, size: nat) returns (selected: seq<T>)
    requires size > 0
    ensures |selected| == Min(size, Total(buckets, |buckets|))
    ensures exists level: nat, cut: nat :: Filled(buckets, selected, level, cut)
  {
    var rest := buckets;
    selected := [];
    ghost var level, cut := 0, 0;
    NothingPicked(buckets, |buckets|);
    var rows := Total(buckets, |buckets|);
    while |selected| < Min(size, rows)
      invariant Leaves(buckets, rest, level, cut) && Filled(buckets, selected, level, cut)
      invariant |selected| < size ==> cut == 0
      invariant |selected| <= size
      decreases rows - |selected|
    {
      var progressed;
      ghost var before := |selected|;
      rest, selected, progressed, cut := OneRound(buckets, rest, selected, size, level);
      if !progressed {
        break;
      }
      if cut == |buckets| {
        LevelRises(buckets, level, |buckets|);
        level, cut := level + 1, 0;
      }
    }
    PickedSize(buckets, level, cut, |buckets|);
  }
}
