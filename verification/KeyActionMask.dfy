/** The response mask of agentic training: loss is kept only on the suffixes of key actions. */
module KeyActionMask {
  import opened Prelude
  import opened StatePolicy

  /** A logged call with the token span that selected it. */
  datatype Call = Call(tool: Tool, masked: bool, start: int, end: int)

  predicate SeesDiff(calls: seq<Call>) {
    exists k | 0 <= k < |calls| :: calls[k].tool == InspectSchemaDiff && !calls[k].masked
  }

  /** Clarification and submission always count, an execution when unmasked, anything unmasked after a diff. */
  predicate IsKey(calls: seq<Call>, k: nat)
    requires k < |calls|
  {
    var c := calls[k];
    c.tool in {AskUser, SubmitSolution} || (SeesDiff(calls[..k]) && !c.masked) || (c.tool == ExecuteSql && !c.masked)
  }

  function SpanEnd(c: Call, length: nat): int {
    Min(length, c.end)
  }

  function SpanStart(c: Call, length: nat, suffix: int): int {
    Max(Max(0, c.start), SpanEnd(c, length) - suffix)
  }

  predicate InSpan(c: Call, length: nat, suffix: int, i: int) {
    SpanStart(c, length, suffix) <= i < SpanEnd(c, length)
  }

  /** Position `i` carries loss and lies in the suffix of one of the first `n` calls that is key. */
  predicate Kept(mask: seq<int>, calls: seq<Call>, n: nat, suffix: int, i: nat)
    requires n <= |calls| && i < |mask|
  {
    mask[i] != 0 && exists k | 0 <= k < n :: IsKey(calls, k) && InSpan(calls[k], |mask|, suffix, i)
  }

  /** The positions that carry loss, in order. */
  function ActivePositions(mask: seq<int>): (r: seq<nat>)
    ensures forall i: int :: i in r <==> 0 <= i < |mask| && mask[i] != 0
  {
    if mask == [] then [] else
    var k := |mask| - 1;
    assert forall i | 0 <= i < k :: mask[..k][i] == mask[i];
    ActivePositions(mask[..k]) + if mask[k] != 0 then [k] else []
  }

  function LastOf(s: seq<nat>, n: nat): seq<nat> {
    s[Max(0, |s| - n)..]
  }

  predicate AnyKept(mask: seq<int>, calls: seq<Call>, suffix: int) {
    exists i | 0 <= i < |mask| :: Kept(mask, calls, |calls|, suffix, i)
  }

  function MaskFor(mask: seq<int>, calls: seq<Call>, suffix: nat): (r: seq<int>)
    ensures |r| == |mask|
  {
    if AnyKept(mask, calls, suffix)
    then seq(|mask|, i requires 0 <= i < |mask| => if Kept(mask, calls, |calls|, suffix, i) then 1 else 0)
    else seq(|mask|, i requires 0 <= i < |mask| => if i in LastOf(ActivePositions(mask), suffix) then 1 else 0)
  }

  // ---------------------------------------------------------------------------------
  // The program

  /** The inner loop: marks the active positions of one span. */
  method MarkSpan(mask: seq<int>, output: array<int>, c: Call, suffix: int)
    requires output.Length == |mask|
    modifies output
    ensures forall i | 0 <= i < |mask| ::
      output[i] == if mask[i] != 0 && InSpan(c, |mask|, suffix, i) then 1 else old(output[i])
  {
    var start := Max(0, c.start);
    var end := Min(|mask|, c.end);
    start := Max(start, end - suffix);
    var index := start;
    while index < end
      invariant start <= index
      invariant forall i | 0 <= i < |mask| ::
        output[i] == if mask[i] != 0 && start <= i < index && i < end then 1 else old(output[i])
    {
      if mask[index] != 0 {
        output[index] := 1;
      }
      index := index + 1;
    }
  }

  /** The loop over the calls. */
  method MarkCalls(mask: seq<int>, calls: seq<Call>, suffix: int, output: array<int>)
    requires output.Length == |mask| && forall i | 0 <= i < |mask| :: output[i] == 0
    modifies output
    ensures forall i | 0 <= i < |mask| :: output[i] == if Kept(mask, calls, |calls|, suffix, i) then 1 else 0
  {
    var sawDiff := false;
    for k := 0 to |calls|
      invariant sawDiff == SeesDiff(calls[..k])
      invariant forall i | 0 <= i < |mask| :: output[i] == if Kept(mask, calls, k, suffix, i) then 1 else 0
    {
      var c := calls[k];
      var isPostDiff := sawDiff;
      DiffSeen(calls, k);
      if c.tool == InspectSchemaDiff && !c.masked {
        sawDiff := true;
      }
      if c.tool in {AskUser, SubmitSolution} || (isPostDiff && !c.masked) || (c.tool == ExecuteSql && !c.masked) {
        MarkSpan(mask, output, c, suffix);
      }
    }
  }

  lemma DiffSeen(calls: seq<Call>, k: nat)
    requires k < |calls|
    ensures SeesDiff(calls[..k + 1]) <==> SeesDiff(calls[..k]) || (calls[k].tool == InspectSchemaDiff && !calls[k].masked)
  {
    var past, now := calls[..k], calls[..k + 1];
    assert now == past + [calls[k]];
    if SeesDiff(past) {
      var j :| 0 <= j < |past| && past[j].tool == InspectSchemaDiff && !past[j].masked;
      assert now[j] == past[j];
    }
  }

  /** `key_action_response_mask`. */
  method KeyActionResponseMask(mask: seq<int>, calls: seq<Call>, suffix: int) returns (r: Result<seq<int>, string>)
    ensures r.Ok? <==> suffix > 0
    ensures r.Ok? ==> r.value == MaskFor(mask, calls, suffix)
  {
    if suffix <= 0 {
      return Err("suffix_tokens must be positive");
    }
    var output := new int[|mask|](_ => 0);
    MarkCalls(mask, calls, suffix, output);
    if exists i | 0 <= i < |mask| :: output[i] != 0 {
      assert AnyKept(mask, calls, suffix);
      return Ok(output[..]);
    }
    var tail := LastOf(ActivePositions(mask), suffix);
    for n := 0 to |tail|
      invariant forall i | 0 <= i < |mask| :: output[i] == if i in tail[..n] then 1 else 0
    {
      assert tail[n] in ActivePositions(mask);
      output[tail[n]] := 1;
    }
    assert tail[..|tail|] == tail;
    return Ok(output[..]);
  }

  // ---------------------------------------------------------------------------------
  // What the mask guarantees

  function Sum(mask: seq<int>): int {
    if mask == [] then 0 else Sum(mask[..|mask| - 1]) + mask[|mask| - 1]
  }

  function KeyCount(calls: seq<Call>, n: nat): nat
    requires n <= |calls|
  {
    if n == 0 then 0 else KeyCount(calls, n - 1) + if IsKey(calls, n - 1) then 1 else 0
  }

  /** A restriction of the input: zeros and ones, and ones only where the input carries loss. */
  lemma MaskRestricts(mask: seq<int>, calls: seq<Call>, suffix: nat, i: nat)
    requires i < |mask|
    ensures MaskFor(mask, calls, suffix)[i] in {0, 1}
    ensures MaskFor(mask, calls, suffix)[i] != 0 ==> mask[i] != 0
  {
    if !AnyKept(mask, calls, suffix) && i in LastOf(ActivePositions(mask), suffix) {
      assert i in ActivePositions(mask);
    }
  }

  lemma FallbackTrains(mask: seq<int>, suffix: nat, i: nat) returns (last: nat)
    requires suffix > 0 && i < |mask| && mask[i] != 0
    ensures last < |mask| && last in LastOf(ActivePositions(mask), suffix)
  {
    var active := ActivePositions(mask);
    assert i in active;
    last := active[|active| - 1];
    assert last == LastOf(active, suffix)[|LastOf(active, suffix)| - 1];
    assert last in active;
  }

  /** Nothing is trained exactly when the input trains nothing. */
  lemma MaskVanishesExactly(mask: seq<int>, calls: seq<Call>, suffix: nat)
    requires suffix > 0
    ensures (forall i | 0 <= i < |mask| :: MaskFor(mask, calls, suffix)[i] == 0) <==>
            (forall i | 0 <= i < |mask| :: mask[i] == 0)
  {
    var r := MaskFor(mask, calls, suffix);
    if i :| 0 <= i < |mask| && mask[i] != 0 {
      if AnyKept(mask, calls, suffix) {
        var j :| 0 <= j < |mask| && Kept(mask, calls, |calls|, suffix, j);
        assert r[j] == 1;
      } else {
        var last := FallbackTrains(mask, suffix, i);
        assert r[last] == 1;
      }
    } else {
      forall i | 0 <= i < |mask|
        ensures r[i] == 0
      {
        MaskRestricts(mask, calls, suffix, i);
      }
    }
  }

  /** Masking again changes nothing. */
  lemma MaskIsIdempotent(mask: seq<int>, calls: seq<Call>, suffix: nat)
    ensures MaskFor(MaskFor(mask, calls, suffix), calls, suffix) == MaskFor(mask, calls, suffix)
  {
    var r := MaskFor(mask, calls, suffix);
    if AnyKept(mask, calls, suffix) {
      forall i | 0 <= i < |mask|
        ensures Kept(r, calls, |calls|, suffix, i) == Kept(mask, calls, |calls|, suffix, i)
      {
      }
      var i :| 0 <= i < |mask| && Kept(mask, calls, |calls|, suffix, i);
      assert Kept(r, calls, |calls|, suffix, i);
      assert AnyKept(r, calls, suffix);
    } else {
      forall i | 0 <= i < |mask|
        ensures !Kept(r, calls, |calls|, suffix, i)
      {
        MaskRestricts(mask, calls, suffix, i);
        assert !Kept(mask, calls, |calls|, suffix, i);
      }
      assert !AnyKept(r, calls, suffix);
      FallbackAgain(mask, r, suffix);
    }
  }

  /** The active positions of the fallback mask are the tail it was built from. */
  lemma FallbackAgain(mask: seq<int>, r: seq<int>, suffix: nat)
    requires |r| == |mask|
    requires forall i | 0 <= i < |mask| :: r[i] == if i in LastOf(ActivePositions(mask), suffix) then 1 else 0
    ensures LastOf(ActivePositions(r), suffix) == LastOf(ActivePositions(mask), suffix)
  {
    var active, tail := ActivePositions(mask), LastOf(ActivePositions(mask), suffix);
    ActiveRise(mask);
    ActiveRise(r);
    forall i: int
      ensures i in ActivePositions(r) <==> i in tail
    {
      if i in tail { assert i in active; }
    }
    SortedSame(ActivePositions(r), tail);
  }

  predicate Rising(s: seq<nat>) {
    forall i, j | 0 <= i < j < |s| :: s[i] < s[j]
  }

  lemma {:induction false} ActiveRise(mask: seq<int>)
    ensures Rising(ActivePositions(mask))
  {
    if mask != [] {
      var k := |mask| - 1;
      ActiveRise(mask[..k]);
      forall i | 0 <= i < |ActivePositions(mask[..k])|
        ensures ActivePositions(mask[..k])[i] < k
      {
        assert ActivePositions(mask[..k])[i] in ActivePositions(mask[..k]);
      }
    }
  }

  lemma {:induction false} SortedSame(a: seq<nat>, b: seq<nat>)
    requires Rising(a) && Rising(b) && forall i: int :: i in a <==> i in b
    ensures a == b
  {
    assert a != [] ==> a[0] in a;
    assert b != [] ==> b[0] in b;
    if a != [] && b != [] {
      var m, n := |a| - 1, |b| - 1;
      assert a[m] in a && b[n] in b;
      assert a[m] == b[n];
      forall i: int
        ensures i in a[..m] <==> i in b[..n]
      {
        assert i in a <==> i in a[..m] || i == a[m];
        assert i in b <==> i in b[..n] || i == b[n];
      }
      SortedSame(a[..m], b[..n]);
      assert a == a[..m] + [a[m]] && b == b[..n] + [b[n]];
    }
  }

  // ---------------------------------------------------------------------------------
  // Which positions are trained

  /** Call `k` is a clarification or a submission; or unmasked, and an execution or later than an unmasked diff. */
  ghost predicate KeyAction(calls: seq<Call>, k: int) {
    && 0 <= k < |calls|
    && (calls[k].tool == AskUser || calls[k].tool == SubmitSolution ||
        (!calls[k].masked && (calls[k].tool == ExecuteSql ||
           exists j | 0 <= j < k :: calls[j].tool == InspectSchemaDiff && !calls[j].masked)))
  }

  /** Position `i` is among the last `suffix` positions of the call's span, cut at the end of the mask. */
  predicate InLastOfSpan(c: Call, length: nat, suffix: nat, i: int) {
    c.start <= i < c.end && (c.end <= i + suffix || length <= i + suffix)
  }

  ghost predicate KeyPosition(mask: seq<int>, calls: seq<Call>, suffix: nat, i: int) {
    && 0 <= i < |mask| && mask[i] != 0
    && exists k | KeyAction(calls, k) :: InLastOfSpan(calls[k], |mask|, suffix, i)
  }

  /** The positions after `i` that carry loss. */
  ghost function ActiveAfter(mask: seq<int>, i: int): set<int> {
    set j | i < j < |mask| && 0 <= j && mask[j] != 0
  }

  lemma KeyIs(calls: seq<Call>, k: nat)
    requires k < |calls|
    ensures IsKey(calls, k) <==> KeyAction(calls, k)
  {
    assert forall j | 0 <= j < k :: calls[..k][j] == calls[j];
    if j :| 0 <= j < k && calls[j].tool == InspectSchemaDiff && !calls[j].masked {
      assert calls[..k][j].tool == InspectSchemaDiff;
    }
  }

  lemma KeptIs(mask: seq<int>, calls: seq<Call>, suffix: nat, i: nat)
    requires i < |mask|
    ensures Kept(mask, calls, |calls|, suffix, i) <==> KeyPosition(mask, calls, suffix, i)
  {
    forall k | 0 <= k < |calls|
      ensures IsKey(calls, k) <==> KeyAction(calls, k)
      ensures InSpan(calls[k], |mask|, suffix, i) <==> InLastOfSpan(calls[k], |mask|, suffix, i)
    {
      KeyIs(calls, k);
    }
  }

  lemma {:induction false} RisingSize(s: seq<nat>)
    requires Rising(s)
    ensures |Elements(s)| == |s|
  {
    if s != [] {
      var k := |s| - 1;
      RisingSize(s[..k]);
      assert s[k] !in s[..k];
    }
  }

  /** Among rising values, those after position `k` are the greater ones. */
  lemma LaterIsGreater(s: seq<nat>, k: nat, j: int)
    requires Rising(s) && k < |s|
    ensures j in s[k + 1..] <==> j in s && s[k] < j
  {
    if j in s && s[k] < j {
      var m :| 0 <= m < |s| && s[m] == j;
      assert s[k + 1..][m - k - 1] == j;
    }
  }

  /** The last `n` of the positions are those with fewer than `n` after them. */
  lemma LastByRank(mask: seq<int>, active: seq<nat>, n: nat, i: nat, k: nat)
    requires Rising(active) && (forall j: int :: j in active <==> 0 <= j < |mask| && mask[j] != 0)
    requires k < |active| && active[k] == i
    ensures i in LastOf(active, n) <==> |ActiveAfter(mask, i)| < n
  {
    var later := active[k + 1..];
    forall j: int
      ensures j in ActiveAfter(mask, i) <==> j in Elements(later)
    {
      LaterIsGreater(active, k, j);
    }
    assert ActiveAfter(mask, i) == Elements(later);
    RisingSize(later);
    LastIndex(active, n, k);
  }

  lemma LastIndex(s: seq<nat>, n: nat, k: nat)
    requires Rising(s) && k < |s|
    ensures s[k] in LastOf(s, n) <==> |s| - n <= k
  {
    var from := Max(0, |s| - n);
    if from <= k { assert s[from..][k - from] == s[k]; }
  }

  /**
   Position by position: what carries loss is kept when it is among the last tokens of a key action's span; when
   no such position carries loss, when fewer than `suffix` positions after it do.
   */
  lemma TrainedExactly(mask: seq<int>, calls: seq<Call>, suffix: nat, i: nat)
    requires i < |mask|
    ensures MaskFor(mask, calls, suffix)[i] == 1 <==>
            if exists j :: KeyPosition(mask, calls, suffix, j) then KeyPosition(mask, calls, suffix, i)
            else mask[i] != 0 && |ActiveAfter(mask, i)| < suffix
  {
    forall j | 0 <= j < |mask|
      ensures Kept(mask, calls, |calls|, suffix, j) <==> KeyPosition(mask, calls, suffix, j)
    {
      KeptIs(mask, calls, suffix, j);
    }
    ActiveRise(mask);
    if mask[i] != 0 {
      var active := ActivePositions(mask);
      assert i in active;
      var k :| 0 <= k < |active| && active[k] == i;
      LastByRank(mask, active, suffix, i, k);
    } else {
      MaskRestricts(mask, calls, suffix, i);
    }
  }

  // ---------------------------------------------------------------------------------
  // How much is trained

  function Support(mask: seq<int>): set<int> {
    set i | 0 <= i < |mask| && mask[i] != 0
  }

  lemma {:induction false} SumIsSupport(mask: seq<int>)
    requires forall i | 0 <= i < |mask| :: mask[i] in {0, 1}
    ensures Sum(mask) == |Support(mask)|
  {
    if mask != [] {
      var k := |mask| - 1;
      SumIsSupport(mask[..k]);
      assert Support(mask) == Support(mask[..k]) + if mask[k] != 0 then {k} else {};
    } else {
      assert Support(mask) == {};
    }
  }

  function Range(lo: int, hi: int): (r: set<int>)
    ensures |r| == Max(0, hi - lo) && forall i :: i in r <==> lo <= i < hi
    decreases hi - lo
  {
    if lo < hi then Range(lo, hi - 1) + {hi - 1} else {}
  }

  /** The union of the spans of the first `n` calls that are key. */
  function Cover(length: nat, calls: seq<Call>, n: nat, suffix: nat): set<int>
    requires n <= |calls|
  {
    if n == 0 then {} else
    Cover(length, calls, n - 1, suffix) +
    if IsKey(calls, n - 1)
    then Range(SpanStart(calls[n - 1], length, suffix), SpanEnd(calls[n - 1], length))
    else {}
  }

  lemma ScaleNext(suffix: nat, n: nat)
    ensures suffix * (n + 1) == suffix * n + suffix
  {
  }

  lemma CoverStep(length: nat, calls: seq<Call>, n: nat, suffix: nat)
    requires 0 < n <= |calls|
    ensures |Cover(length, calls, n, suffix)| <=
            |Cover(length, calls, n - 1, suffix)| + if IsKey(calls, n - 1) then suffix else 0
  {
    var past := Cover(length, calls, n - 1, suffix);
    var span := Range(SpanStart(calls[n - 1], length, suffix), SpanEnd(calls[n - 1], length));
    assert |past + span| <= |past| + |span|;
    assert past + {} == past;
  }

  /** `suffix` for every key call. */
  function Allowance(calls: seq<Call>, n: nat, suffix: nat): nat
    requires n <= |calls|
  {
    if n == 0 then 0 else Allowance(calls, n - 1, suffix) + if IsKey(calls, n - 1) then suffix else 0
  }

  lemma {:induction false} CoverIsSmall(length: nat, calls: seq<Call>, n: nat, suffix: nat)
    requires n <= |calls|
    ensures |Cover(length, calls, n, suffix)| <= Allowance(calls, n, suffix)
  {
    if n > 0 {
      CoverIsSmall(length, calls, n - 1, suffix);
      CoverStep(length, calls, n, suffix);
    }
  }

  lemma {:induction false} AllowanceIsProduct(calls: seq<Call>, n: nat, suffix: nat)
    requires n <= |calls|
    ensures Allowance(calls, n, suffix) == suffix * KeyCount(calls, n)
  {
    if n > 0 {
      AllowanceIsProduct(calls, n - 1, suffix);
      if IsKey(calls, n - 1) { ScaleNext(suffix, KeyCount(calls, n - 1)); }
    }
  }

  lemma {:induction false} KeptIsCovered(mask: seq<int>, calls: seq<Call>, n: nat, suffix: nat, i: nat)
    requires n <= |calls| && i < |mask| && Kept(mask, calls, n, suffix, i)
    ensures i in Cover(|mask|, calls, n, suffix)
  {
    var k :| 0 <= k < n && IsKey(calls, k) && InSpan(calls[k], |mask|, suffix, i);
    if k < n - 1 { KeptIsCovered(mask, calls, n - 1, suffix, i); }
  }

  function Elements(s: seq<nat>): (r: set<int>)
    ensures |r| <= |s| && forall i: int :: i in r <==> i in s
  {
    if s == [] then {} else Elements(s[..|s| - 1]) + {s[|s| - 1] as int}
  }

  /** At most `suffix` positions are trained per key call, and at most `suffix` when there is none. */
  lemma MaskIsSmall(mask: seq<int>, calls: seq<Call>, suffix: nat)
    ensures Sum(MaskFor(mask, calls, suffix)) <= suffix * Max(1, KeyCount(calls, |calls|))
  {
    var r := MaskFor(mask, calls, suffix);
    SumIsSupport(r);
    if AnyKept(mask, calls, suffix) {
      var cover := Cover(|mask|, calls, |calls|, suffix);
      forall i | i in Support(r)
        ensures i in cover
      {
        KeptIsCovered(mask, calls, |calls|, suffix, i);
      }
      SubsetIsSmaller(Support(r), cover);
      CoverIsSmall(|mask|, calls, |calls|, suffix);
      AllowanceIsProduct(calls, |calls|, suffix);
      ScaleMax(suffix, KeyCount(calls, |calls|));
    } else {
      var tail := LastOf(ActivePositions(mask), suffix);
      SubsetIsSmaller(Support(r), Elements(tail));
      ScaleMax(suffix, KeyCount(calls, |calls|));
    }
  }

  lemma ScaleMax(suffix: nat, n: nat)
    ensures suffix * n <= suffix * Max(1, n) && suffix <= suffix * Max(1, n)
  {
    if n > 1 { assert suffix * n == suffix + suffix * (n - 1); }
  }
}
