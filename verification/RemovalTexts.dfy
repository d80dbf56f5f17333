/** What the removal of calls takes out of a text besides the calls: tool-call tags and empty fences. */
module RemovalTexts {
  import opened Prelude
  import opened Strings
  import opened Json
  import opened JsonTexts
  import opened ToolCalls
  import opened ActionText

  // ---------------------------------------------------------------------------------
  // The two patterns

  /** `<tool_call>` or `</tool_call>`, in any case, stands at `i` and ends before `end`. */
  predicate TagHere(text: string, i: nat, end: nat) {
    && i <= end <= |text|
    && (Fold(text[i..end]) == "<tool_call>" || Fold(text[i..end]) == "</tool_call>")
  }

  lemma ToolTagExactly(text: string, i: nat, end: nat)
    ensures ToolTag(text, i) == Some(end) <==> TagHere(text, i, end)
  {
    assert |"<tool_call>"| == 11 && |"</tool_call>"| == 12;
    OneTagOnly(text, i);
  }

  lemma OneTagOnly(text: string, i: nat)
    ensures !(At(text, i, "<tool_call>") && At(text, i, "</tool_call>"))
  {
    if i + 12 <= |text| { assert Fold(text[i..i + 11])[1] == Fold(text[i..i + 12])[1]; }
  }

  /** Three backticks, perhaps `json` in any case, spaces, and three backticks, from `i` up to `end`. */
  predicate FenceHere(text: string, i: nat, end: nat) {
    && i + 6 <= end <= |text| && text[i..i + 3] == "```" && text[end - 3..end] == "```"
    && (AllSpaces(text, i + 3, end - 3) ||
        (i + 10 <= end && Fold(text[i + 3..i + 7]) == "json" && AllSpaces(text, i + 7, end - 3)))
  }

  predicate AllSpaces(text: string, from: nat, upTo: nat)
    requires upTo <= |text|
  {
    forall k | from <= k < upTo :: text[k] in SPACES
  }

  lemma {:induction false} FoldsToTicks(s: string)
    ensures Fold(s) == "```" <==> s == "```"
  {
    FoldsAlike(s, "```");
    assert Fold("```") == "```";
  }

  lemma SpacesEverywhere()
    ensures forall c :: IsSpace(c) <==> c in SPACES
  {
    forall c: char
      ensures IsSpace(c) <==> c in SPACES
    {
      SpacesAre(c);
    }
  }

  /** Where the spaces from `from` on end in a fence. */
  lemma FenceAfterSpaces(text: string, from: nat, end: nat)
    requires from <= |text|
    ensures (var k := TextStart(text, from); At(text, k, "```") && end == k + 3) <==>
            (from + 3 <= end <= |text| && text[end - 3..end] == "```" && AllSpaces(text, from, end - 3))
  {
    SpacesEverywhere();
    SpacesBefore(text, from);
    var k := TextStart(text, from);
    if k + 3 <= |text| { FoldsToTicks(text[k..k + 3]); }
    if from + 3 <= end <= |text| && text[end - 3..end] == "```" && AllSpaces(text, from, end - 3) {
      assert text[end - 3..end][0] == '`' && !IsSpace('`');
      TextStartIs(text, from, end - 3);
    }
  }

  lemma JsonFence(text: string, i: nat, end: nat)
    requires i + 7 <= |text| && Fold(text[i + 3..i + 7]) == "json" && text[i..i + 3] == "```"
    ensures EmptyFence(text, i) == Some(end) <==> FenceHere(text, i, end)
  {
    FoldsToTicks(text[i..i + 3]);
    JsonIsNoSpace(text, i + 3);
    FenceAfterSpaces(text, i + 7, end);
  }

  lemma BareFence(text: string, i: nat, end: nat)
    requires i + 3 <= |text| && text[i..i + 3] == "```"
    requires i + 7 <= |text| ==> Fold(text[i + 3..i + 7]) != "json"
    ensures EmptyFence(text, i) == Some(end) <==> FenceHere(text, i, end)
  {
    FoldsToTicks(text[i..i + 3]);
    FenceAfterSpaces(text, i + 3, end);
  }

  lemma EmptyFenceExactly(text: string, i: nat, end: nat)
    ensures EmptyFence(text, i) == Some(end) <==> FenceHere(text, i, end)
  {
    if i + 3 <= |text| {
      if text[i..i + 3] != "```" {
        FoldsToTicks(text[i..i + 3]);
      } else if i + 7 <= |text| && Fold(text[i + 3..i + 7]) == "json" {
        JsonFence(text, i, end);
      } else {
        BareFence(text, i, end);
      }
    }
  }

  lemma JsonIsNoSpace(text: string, i: nat)
    requires i + 4 <= |text| && Fold(text[i..i + 4]) == "json"
    ensures text[i] !in SPACES && text[i] != '`'
  {
    assert Fold(text[i..i + 4])[0] == FoldChar(text[i]);
    SpacesAre(text[i]);
  }

  // ---------------------------------------------------------------------------------
  // Taking matches out

  /** The text from `i` on, minus the given stretches. */
  function Gaps(text: string, cuts: seq<(nat, nat)>, i: nat): string
    requires i <= |text| && CutsOk(text, cuts, i)
    decreases |cuts|
  {
    if cuts == [] then text[i..]
    else text[i..cuts[0].0] + Gaps(text, cuts[1..], cuts[0].1)
  }

  /** Stretches of the text from `i` on, one after the other. */
  predicate CutsOk(text: string, cuts: seq<(nat, nat)>, i: nat) {
    cuts == [] || (i <= cuts[0].0 < cuts[0].1 <= |text| && CutsOk(text, cuts[1..], cuts[0].1))
  }

  /** The stretches are matches, and before each of them, and after the last, the pattern matches nowhere. */
  ghost predicate Leftmost(p: Pattern, text: string, cuts: seq<(nat, nat)>, i: nat)
    requires CutsOk(text, cuts, i)
    decreases |cuts|
  {
    if cuts == [] then NoMatch(p, text, i, |text|)
    else
      && NoMatch(p, text, i, cuts[0].0) && p(text, cuts[0].0) == Some(cuts[0].1)
      && Leftmost(p, text, cuts[1..], cuts[0].1)
  }

  ghost predicate NoMatch(p: Pattern, text: string, from: nat, upTo: nat) {
    forall k | from <= k < upTo && p(text, k).Some? :: p(text, k).value <= k
  }

  lemma {:induction false} WithoutMatches(p: Pattern, text: string, i: nat) returns (cuts: seq<(nat, nat)>)
    requires i <= |text| && forall k | p(text, k).Some? :: p(text, k).value <= |text|
    ensures CutsOk(text, cuts, i) && Leftmost(p, text, cuts, i) && Without(p, text, i) == Gaps(text, cuts, i)
    decreases |text| - i
  {
    if i >= |text| {
      cuts := [];
    } else if p(text, i).Some? && i < p(text, i).value {
      var rest := WithoutMatches(p, text, p(text, i).value);
      cuts := [(i, p(text, i).value)] + rest;
      assert cuts[1..] == rest;
    } else {
      cuts := WithoutMatches(p, text, i + 1);
      OneMoreKept(p, text, cuts, i);
    }
  }

  lemma OneMoreSliced(text: string, i: nat, k: nat, rest: string)
    requires i < k <= |text|
    ensures text[i..k] + rest == [text[i]] + (text[i + 1..k] + rest)
  {
    assert text[i..k] == [text[i]] + text[i + 1..k];
  }

  lemma OneMoreKept(p: Pattern, text: string, cuts: seq<(nat, nat)>, i: nat)
    requires i < |text| && CutsOk(text, cuts, i + 1) && Leftmost(p, text, cuts, i + 1)
    requires p(text, i).Some? ==> p(text, i).value <= i
    ensures CutsOk(text, cuts, i) && Leftmost(p, text, cuts, i) && Gaps(text, cuts, i) == [text[i]] + Gaps(text, cuts, i + 1)
  {
    if cuts == [] {
      assert text[i..] == [text[i]] + text[i + 1..];
    } else {
      OneMoreSliced(text, i, cuts[0].0, Gaps(text, cuts[1..], cuts[0].1));
    }
  }

  /**
   The removal of at least one call: the calls' spans are sliced out, then every tool-call tag, leftmost first, then
   every empty fence, and the spaces at both ends.
   */
  lemma RemovedExactly(text: string, calls: seq<ParsedCall>)
    returns (sliced: string, tags: seq<(nat, nat)>, untagged: string, fences: seq<(nat, nat)>)
    requires calls != []
    ensures sliced == Chunks(text, calls, 0)
    ensures CutsOk(sliced, tags, 0) && Leftmost(ToolTag, sliced, tags, 0) && untagged == Gaps(sliced, tags, 0)
    ensures CutsOk(untagged, fences, 0) && Leftmost(EmptyFence, untagged, fences, 0)
    ensures Removed(text, calls) == Strip(Gaps(untagged, fences, 0))
  {
    sliced := Chunks(text, calls, 0);
    forall k, e | ToolTag(sliced, k) == Some(e)
      ensures e <= |sliced|
    {
      ToolTagExactly(sliced, k, e);
    }
    tags := WithoutMatches(ToolTag, sliced, 0);
    untagged := Gaps(sliced, tags, 0);
    forall k, e | EmptyFence(untagged, k) == Some(e)
      ensures e <= |untagged|
    {
      EmptyFenceExactly(untagged, k, e);
    }
    fences := WithoutMatches(EmptyFence, untagged, 0);
  }

  // ---------------------------------------------------------------------------------
  // The printed action

  /** The text that the printer appends: a line break and one object with the name and the arguments, in this order. */
  lemma PrintedText(content: string, name: string, arguments: Json)
    ensures Printed(content, name, arguments) ==
            RStrip(content) + "\n" +
            ("{" + (PlainMember(Member("name", Str(name))) + ", " + PlainMember(Member("arguments", arguments))) + "}")
  {
    var first, second := Member("name", Str(name)), Member("arguments", arguments);
    PrintIsPlain(Payload(name, arguments));
    TwoMembers(first, second);
  }

  lemma TwoMembers(first: Member, second: Member)
    ensures PlainMembers([first, second]) == PlainMember(first) + ", " + PlainMember(second)
  {
    assert [first, second][1..] == [second];
    assert PlainMembers([second]) == PlainMember(second);
  }
}
