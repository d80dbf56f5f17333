/** Trimming and case folding of plain text. */
module Strings {

  /** The ASCII characters that Python's `strip` drops. */
  predicate IsSpace(c: char) {
    c == ' ' || '\t' <= c <= '\r' || 28 as char <= c <= 31 as char
  }

  /** The first position from `i` on that does not hold a space. */
  function TextStart(s: string, i: nat): (r: nat)
    requires i <= |s|
    ensures i <= r <= |s| && (r < |s| ==> !IsSpace(s[r]))
    decreases |s| - i
  {
    if i < |s| && IsSpace(s[i]) then TextStart(s, i + 1) else i
  }

  /** The end of the text in `s[lo..i]` once trailing spaces are dropped. */
  function TextEnd(s: string, lo: nat, i: nat): (r: nat)
    requires lo <= i <= |s|
    ensures lo <= r <= i && (lo < r ==> !IsSpace(s[r - 1]))
  {
    if lo < i && IsSpace(s[i - 1]) then TextEnd(s, lo, i - 1) else i
  }

  function Strip(s: string): (r: string)
    ensures r != "" ==> !IsSpace(r[0]) && !IsSpace(r[|r| - 1])
  {
    var start := TextStart(s, 0);
    s[start..TextEnd(s, start, |s|)]
  }

  /** Python's `rstrip`. */
  function RStrip(s: string): (r: string)
    ensures r <= s && (r != "" ==> !IsSpace(r[|r| - 1]))
  {
    s[..TextEnd(s, 0, |s|)]
  }

  lemma {:induction false} TextStartIs(s: string, i: nat, k: nat)
    requires i <= k <= |s| && (k < |s| ==> !IsSpace(s[k])) && forall j | i <= j < k :: IsSpace(s[j])
    ensures TextStart(s, i) == k
    decreases k - i
  {
    if i < k { TextStartIs(s, i + 1, k); }
  }

  lemma {:induction false} TextEndIs(s: string, lo: nat, i: nat, k: nat)
    requires lo <= k <= i <= |s| && (lo < k ==> !IsSpace(s[k - 1])) && forall j | k <= j < i :: IsSpace(s[j])
    ensures TextEnd(s, lo, i) == k
    decreases i - k
  {
    if k < i { TextEndIs(s, lo, i - 1, k); }
  }

  lemma {:induction false} SpacesBefore(s: string, i: nat)
    requires i <= |s|
    ensures forall j | i <= j < TextStart(s, i) :: IsSpace(s[j])
    decreases |s| - i
  {
    if i < |s| && IsSpace(s[i]) { SpacesBefore(s, i + 1); }
  }

  lemma {:induction false} SpacesAfter(s: string, lo: nat, i: nat)
    requires lo <= i <= |s|
    ensures forall j | TextEnd(s, lo, i) <= j < i :: IsSpace(s[j])
  {
    if lo < i && IsSpace(s[i - 1]) { SpacesAfter(s, lo, i - 1); }
  }

  /** Stripping does not see which spaces followed the text. */
  lemma StripAfterRStrip(s: string)
    ensures Strip(RStrip(s) + "\n") == Strip(s)
  {
    var n := TextEnd(s, 0, |s|);
    var lead := RStrip(s) + "\n";
    SpacesAfter(s, 0, |s|);
    if n == 0 {
      TextStartIs(s, 0, |s|);
      TextStartIs(lead, 0, 1);
    } else {
      SpacesBefore(s, 0);
      var start := TextStart(s, 0);
      assert start < n;
      TextStartIs(lead, 0, start);
      TextEndIs(s, start, |s|, n);
      TextEndIs(lead, start, n + 1, n);
      assert lead[start..n] == s[start..n];
    }
  }

  const SPACES := "\t\n\U{000B}\U{000C}\r\U{001C}\U{001D}\U{001E}\U{001F} "

  lemma SpacesAre(c: char)
    ensures IsSpace(c) <==> c in SPACES
  {
    if IsSpace(c) {
      var n := c as int;
      assert SPACES[if n == 32 then 9 else if n < 14 then n - 9 else n - 23] == c;
    }
  }

  /** Stripping takes the spaces on both sides and nothing else. */
  lemma StripAround(core: string, lead: string, tail: string)
    requires core != "" ==> core[0] !in SPACES && core[|core| - 1] !in SPACES
    requires (forall i | 0 <= i < |lead| :: lead[i] in SPACES) && (forall i | 0 <= i < |tail| :: tail[i] in SPACES)
    ensures Strip(lead + core + tail) == core
  {
    forall c: char
      ensures IsSpace(c) <==> c in SPACES
    {
      SpacesAre(c);
    }
    var s, n := lead + core + tail, |lead|;
    if core == "" {
      TextStartIs(s, 0, |s|);
    } else {
      TextStartIs(s, 0, n);
      TextEndIs(s, n, |s|, n + |core|);
      assert s[n..n + |core|] == core;
    }
  }

  lemma StripPlain(s: string)
    requires s != "" ==> !IsSpace(s[0]) && !IsSpace(s[|s| - 1])
    ensures Strip(s) == s
  {
  }

  /** Drops trailing semicolons. */
  function DropSemicolons(s: string): string {
    if s != "" && s[|s| - 1] == ';' then DropSemicolons(s[..|s| - 1]) else s
  }

  /** ASCII case folding, character by character. */
  function FoldChar(c: char): char {
    if 'A' <= c <= 'Z' then ((c as int) + 32) as char else c
  }

  function Fold(s: string): (r: string)
    ensures |r| == |s|
  {
    seq(|s|, i requires 0 <= i < |s| => FoldChar(s[i]))
  }

  /** The same letter in two cases. */
  predicate CasePair(upper: char, lower: char) {
    'A' <= upper <= 'Z' && lower as int == upper as int + 32
  }

  /** Two texts fold alike when they differ in the case of ASCII letters at most. */
  lemma FoldsAlike(s: string, r: string)
    ensures Fold(s) == Fold(r) <==>
              |s| == |r| && forall i | 0 <= i < |s| :: s[i] == r[i] || CasePair(s[i], r[i]) || CasePair(r[i], s[i])
  {
    if |s| == |r| {
      forall i | 0 <= i < |s|
        ensures Fold(s)[i] == Fold(r)[i] <==> s[i] == r[i] || CasePair(s[i], r[i]) || CasePair(r[i], s[i])
      {
        var x, y := s[i] as int, r[i] as int;
        assert s[i] == x as char && r[i] == y as char;
      }
      assert Fold(s) == Fold(r) <==> forall i | 0 <= i < |s| :: Fold(s)[i] == Fold(r)[i];
    }
  }
}
