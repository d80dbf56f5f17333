/** Choosing a replacement column name that no existing name matches case-insensitively. */
module FreshNames {
  import opened Prelude
  import opened Strings

  function Digit(d: nat): char
    requires d < 10
  {
    (('0' as int) + d) as char
  }

  function Decimal(n: nat): string {
    if n < 10 then [Digit(n)] else Decimal(n / 10) + [Digit(n % 10)]
  }

  /** The names in the order in which they are tried: base, base_2, base_3, and so on. */
  function Candidate(base: string, k: nat): string {
    if k == 0 then base else base + "_" + Decimal(k + 1)
  }

  lemma FoldConcat(a: string, b: string)
    ensures Fold(a + b) == Fold(a) + Fold(b)
  {
  }

  predicate IsDecimal(s: string) {
    forall i | 0 <= i < |s| :: '0' <= s[i] <= '9'
  }

  lemma {:induction false} DecimalDigits(n: nat)
    ensures Decimal(n) != "" && IsDecimal(Decimal(n)) && (|Decimal(n)| == 1 <==> n < 10)
  {
    if n >= 10 { DecimalDigits(n / 10); }
  }

  lemma {:induction false} DecimalInjective(m: nat, n: nat)
    requires Decimal(m) == Decimal(n)
    ensures m == n
  {
    DecimalDigits(m);
    DecimalDigits(n);
    var s, t := Decimal(m), Decimal(n);
    if m < 10 {
      assert s[0] == t[0];
    } else {
      assert s[..|s| - 1] == Decimal(m / 10) && t[..|t| - 1] == Decimal(n / 10);
      assert s[|s| - 1] == Digit(m % 10) && t[|t| - 1] == Digit(n % 10);
      DecimalInjective(m / 10, n / 10);
    }
  }

  lemma FoldKeepsDecimal(s: string)
    requires IsDecimal(s)
    ensures Fold(s) == s
  {
  }

  lemma FoldedCandidate(base: string, k: nat)
    requires k > 0
    ensures Fold(Candidate(base, k)) == Fold(base) + "_" + Decimal(k + 1)
  {
    DecimalDigits(k + 1);
    FoldKeepsDecimal(Decimal(k + 1));
    FoldConcat(base + "_", Decimal(k + 1));
    FoldConcat(base, "_");
    assert Fold("_") == "_";
  }

  lemma CancelPrefix(p: string, a: string, b: string)
    requires p + a == p + b
    ensures a == b
  {
    assert (p + a)[|p|..] == a && (p + b)[|p|..] == b;
  }

  /** No two candidates match each other, so each uses up an existing name of its own. */
  lemma CandidatesDiffer(base: string, j: nat, k: nat)
    requires j < k
    ensures Fold(Candidate(base, j)) != Fold(Candidate(base, k))
  {
    FoldedCandidate(base, k);
    if j == 0 {
      assert |Fold(Candidate(base, 0))| < |Fold(Candidate(base, k))|;
    } else if Fold(Candidate(base, j)) == Fold(Candidate(base, k)) {
      FoldedCandidate(base, j);
      CancelPrefix(Fold(base) + "_", Decimal(j + 1), Decimal(k + 1));
      DecimalInjective(j + 1, k + 1);
    }
  }

  function Folded(names: set<string>): (r: set<string>) {
    set x | x in names :: Fold(x)
  }

  lemma {:induction false} FoldedIsSmaller(names: set<string>)
    ensures |Folded(names)| <= |names|
  {
    if names != {} {
      var x :| x in names;
      FoldedIsSmaller(names - {x});
      assert Folded(names) == Folded(names - {x}) + {Fold(x)};
    }
  }

  predicate Free(name: string, existing: set<string>) {
    forall x | x in existing :: Fold(x) != Fold(name)
  }

  /** The first candidate that is free, at position `k`. */
  ghost predicate FirstFree(base: string, existing: set<string>, k: nat, name: string) {
    && name == Candidate(base, k) && Free(name, existing)
    && forall j | 0 <= j < k :: !Free(Candidate(base, j), existing)
  }

  /** The folds of the first `k` candidates: `k` different strings. */
  function Tried(base: string, k: nat): set<string> {
    if k == 0 then {} else Tried(base, k - 1) + {Fold(Candidate(base, k - 1))}
  }

  lemma {:induction false} NotYetTried(base: string, k: nat, n: nat)
    requires k <= n
    ensures Fold(Candidate(base, n)) !in Tried(base, k)
  {
    if k > 0 {
      NotYetTried(base, k - 1, n);
      CandidatesDiffer(base, k - 1, n);
    }
  }

  lemma {:induction false} TriedSize(base: string, k: nat)
    ensures |Tried(base, k)| == k
  {
    if k > 0 {
      TriedSize(base, k - 1);
      NotYetTried(base, k - 1, k - 1);
    }
  }

  lemma TriedFits(base: string, k: nat, names: set<string>)
    requires Tried(base, k) <= names
    ensures k <= |names|
  {
    TriedSize(base, k);
    assert names == Tried(base, k) + (names - Tried(base, k));
  }

  lemma TakenIsNotFree(name: string, existing: set<string>)
    ensures Fold(name) in Folded(existing) <==> !Free(name, existing)
  {
  }

  /**
   The suffix loop of `_new_column_name`. It ends, after trying at most one name more than exist,
   with the first candidate that no existing name matches.
   */
  method NewColumnName(base: string, existing: set<string>) returns (candidate: string)
    ensures exists k: nat :: k <= |existing| && FirstFree(base, existing, k, candidate)
  {
    var existingFolded := Folded(existing);
    FoldedIsSmaller(existing);
    candidate := base;
    var suffix := 2;
    while Fold(candidate) in existingFolded
      invariant suffix >= 2 && candidate == Candidate(base, suffix - 2)
      invariant Tried(base, suffix - 2) <= existingFolded
      invariant forall j | 0 <= j < suffix - 2 :: !Free(Candidate(base, j), existing)
      decreases |existingFolded| + 2 - suffix
    {
      TakenIsNotFree(candidate, existing);
      TriedFits(base, suffix - 1, existingFolded);
      candidate := base + "_" + Decimal(suffix);
      suffix := suffix + 1;
    }
    TakenIsNotFree(candidate, existing);
    TriedFits(base, suffix - 2, existingFolded);
    assert FirstFree(base, existing, suffix - 2, candidate);
  }
}
