/** Which characters removal really removes: all the calls that were found, or some come back. */
module Removal {
  import opened Prelude
  import opened Strings
  import opened Json
  import opened ToolCalls
  import opened ActionText

  // ---------------------------------------------------------------------------------
  // The text without the positions of the calls

  predicate Covered(calls: seq<ParsedCall>, i: int) {
    exists k | 0 <= k < |calls| :: calls[k].start <= i < calls[k].end
  }

  /** The text from `i` on without exactly the positions that some call covers. */
  function Uncovered(text: string, calls: seq<ParsedCall>, i: nat): string
    decreases |text| - i
  {
    if i >= |text| then ""
    else if Covered(calls, i) then Uncovered(text, calls, i + 1)
    else [text[i]] + Uncovered(text, calls, i + 1)
  }

  lemma {:induction false} UncoveredRun(text: string, calls: seq<ParsedCall>, a: nat, b: nat)
    requires a <= b <= |text| && forall i | a <= i < b :: !Covered(calls, i)
    ensures Uncovered(text, calls, a) == text[a..b] + Uncovered(text, calls, b)
    decreases b - a
  {
    if a < b {
      UncoveredRun(text, calls, a + 1, b);
      assert text[a..b] == [text[a]] + text[a + 1..b];
      Regroup([text[a]], text[a + 1..b], Uncovered(text, calls, b));
    } else {
      assert text[a..b] == "";
    }
  }

  lemma {:induction false} CoveredRun(text: string, calls: seq<ParsedCall>, a: nat, b: nat)
    requires a <= b <= |text| && forall i | a <= i < b :: Covered(calls, i)
    ensures Uncovered(text, calls, a) == Uncovered(text, calls, b)
    decreases b - a
  {
    if a < b { CoveredRun(text, calls, a + 1, b); }
  }

  // ---------------------------------------------------------------------------------
  // What comes back

  ghost predicate Listed(text: string, calls: seq<ParsedCall>) {
    Ascending(calls) && forall i | 0 <= i < |calls| :: InBounds(text, calls[i])
  }

  /** Nothing before call `k` ends beyond `m`. */
  ghost predicate EndsBy(calls: seq<ParsedCall>, k: nat, m: nat)
    requires k <= |calls|
  {
    forall i | 0 <= i < k :: calls[i].end <= m
  }

  /** How many covered characters the chunks from call `k` on repeat, when the cursor is at `e` and all is covered up to `m`. */
  function Repeats(text: string, calls: seq<ParsedCall>, k: nat, e: nat, m: nat): nat
    requires k <= |calls| && e <= m
    decreases |calls| - k
  {
    if k == |calls| then m - e
    else Max(0, Min(m, calls[k].start) - e) + Repeats(text, calls, k + 1, calls[k].end, Max(m, calls[k].end))
  }

  /** The uncovered text from `m` on, when call `k` comes next. */
  lemma UncoveredNext(text: string, calls: seq<ParsedCall>, k: nat, m: nat)
    requires Listed(text, calls) && k < |calls| && EndsBy(calls, k, m) && m <= |text|
    ensures var c := calls[k];
            Uncovered(text, calls, m) ==
            (if m <= c.start then text[m..c.start] else "") + Uncovered(text, calls, Max(m, c.end))
  {
    var c := calls[k];
    if m <= c.start {
      forall i | m <= i < c.start
        ensures !Covered(calls, i)
      {
      }
      UncoveredRun(text, calls, m, c.start);
      CoveredRun(text, calls, c.start, c.end);
    } else if m < c.end {
      CoveredRun(text, calls, m, c.end);
    }
  }

  lemma UncoveredEnd(text: string, calls: seq<ParsedCall>, m: nat)
    requires Listed(text, calls) && EndsBy(calls, |calls|, m) && m <= |text|
    ensures Uncovered(text, calls, m) == text[m..]
  {
    UncoveredRun(text, calls, m, |text|);
    assert text[m..|text|] == text[m..];
  }

  /** One chunk, from the cursor `e` to the next call, against the text that is uncovered from `m` on. */
  lemma ChunkRepeats(text: string, e: nat, m: nat, start: nat, chunks: string, uncovered: string, repeats: nat)
    requires e <= m <= |text| && start <= |text| && |chunks| == |uncovered| + repeats
    requires repeats == 0 ==> chunks == uncovered
    ensures var x := Slice(text, e, start) + chunks;
            var y := (if m <= start then text[m..start] else "") + uncovered;
            var n := Max(0, Min(m, start) - e) + repeats;
            |x| == |y| + n && (n == 0 ==> x == y)
  {
  }

  /** The chunks are the uncovered text, with the repeated characters on top. */
  lemma {:induction false} ChunksRepeat(text: string, calls: seq<ParsedCall>, k: nat, e: nat, m: nat)
    requires Listed(text, calls) && k <= |calls| && EndsBy(calls, k, m) && e <= m <= |text|
    ensures |Chunks(text, calls[k..], e)| == |Uncovered(text, calls, m)| + Repeats(text, calls, k, e, m)
    ensures Repeats(text, calls, k, e, m) == 0 ==> Chunks(text, calls[k..], e) == Uncovered(text, calls, m)
    decreases |calls| - k
  {
    if k == |calls| {
      UncoveredEnd(text, calls, m);
    } else {
      var c := calls[k];
      assert calls[k..][0] == c && calls[k..][1..] == calls[k + 1..];
      UncoveredNext(text, calls, k, m);
      ChunksRepeat(text, calls, k + 1, c.end, Max(m, c.end));
      ChunkRepeats(text, e, m, c.start, Chunks(text, calls[k + 1..], c.end), Uncovered(text, calls, Max(m, c.end)),
                   Repeats(text, calls, k + 1, c.end, Max(m, c.end)));
    }
  }

  /** Call `j` lasts longest so far, or the next call follows it at once. */
  predicate ResumesAfter(calls: seq<ParsedCall>, j: nat)
    requires j < |calls|
  {
    (forall i | 0 <= i < j :: calls[i].end <= calls[j].end) ||
    (j + 1 < |calls| && calls[j + 1].start <= calls[j].end)
  }

  predicate Resumed(calls: seq<ParsedCall>) {
    forall j | 0 <= j < |calls| :: ResumesAfter(calls, j)
  }

  /** The same from the call before `k` on. */
  predicate ResumedFrom(calls: seq<ParsedCall>, k: nat)
    requires k <= |calls|
    decreases |calls| - k
  {
    (k == 0 || ResumesAfter(calls, k - 1)) && (k < |calls| ==> ResumedFrom(calls, k + 1))
  }

  lemma {:induction false} ResumedFromMeans(calls: seq<ParsedCall>, k: nat)
    requires k <= |calls|
    ensures ResumedFrom(calls, k) <==> forall j | 0 <= j < |calls| && k <= j + 1 :: ResumesAfter(calls, j)
    decreases |calls| - k
  {
    if k < |calls| { ResumedFromMeans(calls, k + 1); }
  }

  /** `m` is where the first `k` calls end at the latest, and `e` where the last of them ends. */
  ghost predicate Reached(calls: seq<ParsedCall>, k: nat, e: nat, m: nat)
    requires k <= |calls|
  {
    && EndsBy(calls, k, m) && e <= m
    && (if k == 0 then e == m == 0 else e == calls[k - 1].end && exists i :: 0 <= i < k && calls[i].end == m)
  }

  lemma ReachedNext(calls: seq<ParsedCall>, k: nat, e: nat, m: nat)
    requires k < |calls| && Reached(calls, k, e, m)
    ensures Reached(calls, k + 1, calls[k].end, Max(m, calls[k].end))
  {
    if k > 0 && m > calls[k].end {
      var i :| 0 <= i < k && calls[i].end == m;
    } else {
      assert calls[k].end == Max(m, calls[k].end);
    }
  }

  lemma ResumesAfterLast(calls: seq<ParsedCall>, k: nat, e: nat, m: nat)
    requires 0 < k <= |calls| && Reached(calls, k, e, m)
    ensures ResumesAfter(calls, k - 1) <==> m <= e || (k < |calls| && calls[k].start <= e)
  {
    if m > e {
      var i :| 0 <= i < k && calls[i].end == m;
    }
  }

  lemma {:induction false} RepeatsExactly(text: string, calls: seq<ParsedCall>, k: nat, e: nat, m: nat)
    requires k <= |calls| && Reached(calls, k, e, m)
    ensures Repeats(text, calls, k, e, m) == 0 <==> ResumedFrom(calls, k)
    decreases |calls| - k
  {
    if k > 0 { ResumesAfterLast(calls, k, e, m); }
    if k < |calls| {
      ReachedNext(calls, k, e, m);
      RepeatsExactly(text, calls, k + 1, calls[k].end, Max(m, calls[k].end));
    }
  }

  lemma ChunksExactly(text: string, calls: seq<ParsedCall>)
    requires Listed(text, calls)
    ensures Chunks(text, calls, 0) == Uncovered(text, calls, 0) <==> Resumed(calls)
  {
    assert calls[0..] == calls;
    ChunksRepeat(text, calls, 0, 0, 0);
    RepeatsExactly(text, calls, 0, 0, 0);
    ResumedFromMeans(calls, 0);
  }

  // ---------------------------------------------------------------------------------
  // The condition on the calls of a text

  /** Every tag call that ends inside an object call is followed at once by another tag call. */
  predicate TagsResume(tags: seq<ParsedCall>, objects: seq<ParsedCall>) {
    forall i, j | 0 <= i < |tags| && 0 <= j < |objects|
                  && objects[j].start < tags[i].start && tags[i].end < objects[j].end ::
      exists k | 0 <= k < |tags| :: tags[k].start == tags[i].end
  }

  predicate StartsApart(a: ParsedCall, b: ParsedCall) {
    a.start != b.start
  }

  predicate AllStartApart(s: seq<ParsedCall>) {
    forall i, j | 0 <= i < j < |s| :: StartsApart(s[i], s[j])
  }

  lemma SortStarts(s: seq<ParsedCall>)
    ensures AllStartApart(ByStart(s)) <==> AllStartApart(s)
  {
    SortKeepsPairs(StartsApart, s);
  }

  /** What a scan's tag and object calls have in common. */
  ghost predicate Scanned(spans: seq<Span>, tags: seq<ParsedCall>, objects: seq<ParsedCall>) {
    && AllApart(tags) && AllApart(objects)
    && (forall i | 0 <= i < |tags| :: IsTagged(spans, tags[i]) && tags[i].start < tags[i].end)
    && (forall j | 0 <= j < |objects| ::
          objects[j].start < objects[j].end && Containing(spans, objects[j].start).None?)
  }

  /** An object starts outside every tag call. */
  lemma ObjectOutsideTag(spans: seq<Span>, tag: ParsedCall, found: ParsedCall)
    requires IsTagged(spans, tag) && Containing(spans, found.start).None?
    ensures !(tag.start <= found.start < tag.end)
  {
    var k :| 0 <= k < |spans| && tag.start == spans[k].start && tag.end == spans[k].end;
    assert !(spans[k].start <= found.start < spans[k].end);
  }

  lemma StartsDiffer(spans: seq<Span>, tags: seq<ParsedCall>, objects: seq<ParsedCall>)
    requires Scanned(spans, tags, objects)
    ensures AllStartApart(tags + objects)
  {
    var all := tags + objects;
    forall i, j | 0 <= i < j < |all|
      ensures StartsApart(all[i], all[j])
    {
      if j < |tags| {
        assert Apart(tags[i], tags[j]);
      } else if i < |tags| {
        ObjectOutsideTag(spans, tags[i], objects[j - |tags|]);
      } else {
        assert Apart(objects[i - |tags|], objects[j - |tags|]);
      }
    }
  }

  /** Of two calls that start at different places, the tag ends before the later one starts. */
  lemma AfterTag(spans: seq<Span>, tags: seq<ParsedCall>, objects: seq<ParsedCall>, tag: ParsedCall, later: ParsedCall)
    requires Scanned(spans, tags, objects) && tag in tags && (later in tags || later in objects)
    requires tag.start < later.start
    ensures tag.end <= later.start
  {
    var i :| 0 <= i < |tags| && tags[i] == tag;
    if k :| 0 <= k < |tags| && tags[k] == later {
      assert i != k;
      assert if i < k then Apart(tags[i], tags[k]) else Apart(tags[k], tags[i]);
    } else {
      var k :| 0 <= k < |objects| && objects[k] == later;
      ObjectOutsideTag(spans, tag, later);
    }
  }

  /** Likewise an object ends before a later object starts. */
  lemma AfterObject(objects: seq<ParsedCall>, found: ParsedCall, later: ParsedCall)
    requires AllApart(objects) && found in objects && later in objects
    requires found.start < later.start < later.end
    ensures found.end <= later.start
  {
    var i :| 0 <= i < |objects| && objects[i] == found;
    var k :| 0 <= k < |objects| && objects[k] == later;
    assert i != k;
    assert if i < k then Apart(objects[i], objects[k]) else Apart(objects[k], objects[i]);
  }

  lemma PositiveLength(spans: seq<Span>, tags: seq<ParsedCall>, objects: seq<ParsedCall>, c: ParsedCall)
    requires Scanned(spans, tags, objects) && (c in tags || c in objects)
    ensures c.start < c.end
  {
  }

  /** Of two nested calls the inner one is a tag and the outer one an object. */
  lemma NestedKinds(spans: seq<Span>, tags: seq<ParsedCall>, objects: seq<ParsedCall>, outer: ParsedCall, inner: ParsedCall)
    requires Scanned(spans, tags, objects)
    requires (outer in tags || outer in objects) && (inner in tags || inner in objects)
    requires outer.start < inner.start < outer.end
    ensures outer in objects && inner in tags
  {
    PositiveLength(spans, tags, objects, inner);
    if outer in tags {
      AfterTag(spans, tags, objects, outer, inner);
    } else if inner in objects {
      AfterObject(objects, outer, inner);
    }
  }

  /** The sorted calls are the tag and object calls. */
  lemma SortedMembers(all: seq<ParsedCall>, c: ParsedCall)
    ensures c in ByStart(all) <==> c in all
  {
    assert c in ByStart(all) <==> c in multiset(ByStart(all));
    assert c in all <==> c in multiset(all);
  }

  ghost predicate StrictlyAscending(s: seq<ParsedCall>) {
    forall i, j | 0 <= i < j < |s| :: s[i].start < s[j].start
  }

  lemma SortIsStrict(spans: seq<Span>, tags: seq<ParsedCall>, objects: seq<ParsedCall>)
    requires Scanned(spans, tags, objects)
    ensures StrictlyAscending(ByStart(tags + objects))
  {
    var calls := ByStart(tags + objects);
    StartsDiffer(spans, tags, objects);
    SortStarts(tags + objects);
    SortAscends(tags + objects);
    forall i, j | 0 <= i < j < |calls|
      ensures calls[i].start < calls[j].start
    {
      assert StartsApart(calls[i], calls[j]);
    }
  }

  ghost predicate SameCalls(calls: seq<ParsedCall>, tags: seq<ParsedCall>, objects: seq<ParsedCall>) {
    forall c :: c in calls <==> c in tags || c in objects
  }

  /** If the calls resume, the tag that ends inside an object is followed at once by a tag. */
  lemma NextTag(spans: seq<Span>, tags: seq<ParsedCall>, objects: seq<ParsedCall>, calls: seq<ParsedCall>,
                outer: ParsedCall, inner: ParsedCall) returns (next: ParsedCall)
    requires Scanned(spans, tags, objects) && StrictlyAscending(calls) && Resumed(calls)
    requires SameCalls(calls, tags, objects) && outer in objects && inner in tags
    requires outer.start < inner.start && inner.end < outer.end
    ensures next in tags && next.start == inner.end
  {
    assert outer in calls && inner in calls;
    var a :| 0 <= a < |calls| && calls[a] == outer;
    var b :| 0 <= b < |calls| && calls[b] == inner;
    assert a < b && ResumesAfter(calls, b);
    next := calls[b + 1];
    assert next in calls;
    AfterTag(spans, tags, objects, inner, next);
    PositiveLength(spans, tags, objects, inner);
    NestedKinds(spans, tags, objects, outer, next);
  }

  lemma ResumedThenTags(spans: seq<Span>, tags: seq<ParsedCall>, objects: seq<ParsedCall>, calls: seq<ParsedCall>)
    requires Scanned(spans, tags, objects) && StrictlyAscending(calls) && Resumed(calls)
    requires SameCalls(calls, tags, objects)
    ensures TagsResume(tags, objects)
  {
    forall i, j | 0 <= i < |tags| && 0 <= j < |objects|
                  && objects[j].start < tags[i].start && tags[i].end < objects[j].end
      ensures exists k :: 0 <= k < |tags| && tags[k].start == tags[i].end
    {
      var next := NextTag(spans, tags, objects, calls, objects[j], tags[i]);
      var k :| 0 <= k < |tags| && tags[k] == next;
    }
  }

  /** If the tags resume, a call that an earlier one outlasts is followed at once. */
  lemma NextCall(spans: seq<Span>, tags: seq<ParsedCall>, objects: seq<ParsedCall>, calls: seq<ParsedCall>, a: nat, b: nat)
    requires Scanned(spans, tags, objects) && StrictlyAscending(calls) && TagsResume(tags, objects)
    requires SameCalls(calls, tags, objects) && a < b < |calls| && calls[a].end > calls[b].end
    ensures b + 1 < |calls| && calls[b + 1].start <= calls[b].end
  {
    var outer, inner := calls[a], calls[b];
    assert outer in calls && inner in calls;
    PositiveLength(spans, tags, objects, inner);
    NestedKinds(spans, tags, objects, outer, inner);
    var next := TagAfter(tags, objects, outer, inner);
    assert next in calls;
    var d :| 0 <= d < |calls| && calls[d] == next;
    assert d > b;
  }

  lemma TagAfter(tags: seq<ParsedCall>, objects: seq<ParsedCall>, outer: ParsedCall, inner: ParsedCall)
    returns (next: ParsedCall)
    requires TagsResume(tags, objects) && outer in objects && inner in tags
    requires outer.start < inner.start && inner.end < outer.end
    ensures next in tags && next.start == inner.end
  {
    var i :| 0 <= i < |tags| && tags[i] == inner;
    var j :| 0 <= j < |objects| && objects[j] == outer;
    var k :| 0 <= k < |tags| && tags[k].start == tags[i].end;
    next := tags[k];
  }

  lemma TagsThenResumed(spans: seq<Span>, tags: seq<ParsedCall>, objects: seq<ParsedCall>, calls: seq<ParsedCall>)
    requires Scanned(spans, tags, objects) && StrictlyAscending(calls) && TagsResume(tags, objects)
    requires SameCalls(calls, tags, objects)
    ensures Resumed(calls)
  {
    forall b | 0 <= b < |calls|
      ensures ResumesAfter(calls, b)
    {
      if a :| 0 <= a < b && calls[a].end > calls[b].end {
        NextCall(spans, tags, objects, calls, a, b);
      }
    }
  }

  lemma CallsAreScanned(t: Tools, text: string)
    requires Sane(t)
    ensures SpansOk(text, Tags(text, 0))
    ensures Scanned(Tags(text, 0), TagCalls(t, text, Tags(text, 0)), ObjectCalls(t, text, Tags(text, 0), 0))
  {
    TagsAreSpans(text, 0);
    TagCallSpans(t, text, Tags(text, 0));
    ObjectCallSpans(t, text, Tags(text, 0), 0);
    var tags := TagCalls(t, text, Tags(text, 0));
    forall i | 0 <= i < |tags|
      ensures IsTagged(Tags(text, 0), tags[i]) && tags[i].start < tags[i].end
    {
      assert InBounds(text, tags[i]);
    }
  }

  /**
   For every text and decoder: removal deletes exactly the calls that were found if and only if every
   tag call that ends inside an object call is followed at once by another tag call. Otherwise
   characters of that object come back.
   */
  lemma RemovalExactly(t: Tools, text: string)
    requires Sane(t)
    ensures SpansOk(text, Tags(text, 0))
    ensures Chunks(text, Calls(t, text), 0) == Uncovered(text, Calls(t, text), 0) <==>
            TagsResume(TagCalls(t, text, Tags(text, 0)), ObjectCalls(t, text, Tags(text, 0), 0))
  {
    CallsAreScanned(t, text);
    var spans := Tags(text, 0);
    var tags, objects := TagCalls(t, text, spans), ObjectCalls(t, text, spans, 0);
    var calls := Calls(t, text);
    SpansAreSorted(t, text);
    ChunksExactly(text, calls);
    SortIsStrict(spans, tags, objects);
    forall c
      ensures c in calls <==> c in tags || c in objects
    {
      SortedMembers(tags + objects, c);
    }
    if Resumed(calls) {
      ResumedThenTags(spans, tags, objects, calls);
    }
    if TagsResume(tags, objects) {
      TagsThenResumed(spans, tags, objects, calls);
    }
  }

  // ---------------------------------------------------------------------------------
  // A text whose calls nest

  const ATTRIBUTES := " name='b' arguments='{}'"
  const TAG := "<function" + ATTRIBUTES + "/>"
  const NAME_MEMBER := "\"name\": \"a\", "
  const ARGUMENTS_KEY := "\"arguments\": "
  const X_KEY := "\"x\": "
  const INNER_KEY := "{" + X_KEY + "\""
  const LEAD := "{" + NAME_MEMBER + ARGUMENTS_KEY + INNER_KEY
  const REST := "\"}}"

  /** A printed call of `a` whose one argument is the text of a function tag. */
  function NestedPayload(): Json {
    Payload("a", Obj([Member("x", Str(TAG))]))
  }

  lemma {:induction false} EscapePlain(s: string, rest: string)
    requires forall i | 0 <= i < |s| :: EscapeChar(s[i]) == [s[i]]
    ensures EscapeOnto(s, rest) == s + rest
  {
    if s != "" {
      EscapePlain(s[1..], rest);
      assert s + rest == [s[0]] + (s[1..] + rest);
    } else {
      assert "" + rest == rest;
    }
  }

  lemma WordOnto(word: string, rest: string)
    requires forall i | 0 <= i < |word| :: EscapeChar(word[i]) == [word[i]]
    ensures PrintOnto(Str(word), rest) == "\"" + word + "\"" + rest
  {
    EscapePlain(word, "\"" + rest);
  }

  lemma MemberText(key: string, v: Json, rest: string)
    requires forall i | 0 <= i < |key| :: EscapeChar(key[i]) == [key[i]]
    ensures MemberOnto(Member(key, v), rest) == "\"" + key + "\": " + PrintOnto(v, rest)
  {
    EscapePlain(key, "\": " + PrintOnto(v, rest));
  }

  lemma PlainTag()
    ensures forall i | 0 <= i < |TAG| :: EscapeChar(TAG[i]) == [TAG[i]]
  {
  }

  lemma InnerMember(word: string, rest: string)
    requires forall i | 0 <= i < |word| :: EscapeChar(word[i]) == [word[i]]
    ensures MemberOnto(Member("x", Str(word)), rest) == X_KEY + ("\"" + word + "\"" + rest)
  {
    WordOnto(word, rest);
    MemberText("x", Str(word), rest);
    assert "\"" + "x" + "\": " == X_KEY;
  }

  lemma InnerObject(word: string, rest: string)
    requires forall i | 0 <= i < |word| :: EscapeChar(word[i]) == [word[i]]
    ensures PrintOnto(Obj([Member("x", Str(word))]), rest) == "{" + (X_KEY + ("\"" + word + "\"" + ("}" + rest)))
  {
    InnerMember(word, "}" + rest);
  }

  lemma Brackets(brace: string, key: string, quote: string, word: string, close: string, rest: string)
    ensures brace + (key + (quote + word + quote + (close + rest))) == brace + key + quote + word + (quote + close) + rest
  {
  }

  lemma ArgumentsText(rest: string)
    ensures PrintOnto(Obj([Member("x", Str(TAG))]), rest) == INNER_KEY + TAG + "\"}" + rest
  {
    PlainTag();
    InnerObject(TAG, rest);
    Brackets("{", X_KEY, "\"", TAG, "}", rest);
    assert "\"" + "}" == "\"}";
  }

  lemma TwoMembers(first: Member, second: Member, rest: string)
    ensures MembersOnto([first, second], rest) == MemberOnto(first, ", " + MemberOnto(second, rest))
  {
    assert [first, second][1..] == [second];
    assert MembersOnto([second], rest) == MemberOnto(second, rest);
  }

  lemma NameText(tail: string)
    ensures MemberOnto(Member("name", Str("a")), ", " + tail) == NAME_MEMBER + tail
  {
    WordOnto("a", ", " + tail);
    MemberText("name", Str("a"), ", " + tail);
    var a := "\"" + "name" + "\": ";
    var b := "\"" + "a" + "\"";
    assert a == "\"name\": " && b == "\"a\"";
    Regroup(a, b, ", " + tail);
    Regroup(a + b, ", ", tail);
  }

  lemma ArgumentsMember(arguments: Json)
    ensures MemberOnto(Member("arguments", arguments), "}") == ARGUMENTS_KEY + PrintOnto(arguments, "}")
  {
    MemberText("arguments", arguments, "}");
    assert "\"" + "arguments" + "\": " == ARGUMENTS_KEY;
  }

  lemma PayloadMembers(arguments: Json)
    ensures Print(Payload("a", arguments)) ==
            "{" + MemberOnto(Member("name", Str("a")), ", " + MemberOnto(Member("arguments", arguments), "}"))
  {
    assert "}" + "" == "}";
    TwoMembers(Member("name", Str("a")), Member("arguments", arguments), "}");
  }

  lemma FourJoined(a: string, b: string, c: string, d: string)
    ensures a + (b + (c + d)) == a + b + c + d
  {
  }

  /** The text of a payload, up to its arguments. */
  lemma PayloadText(arguments: Json)
    ensures Print(Payload("a", arguments)) == "{" + NAME_MEMBER + ARGUMENTS_KEY + PrintOnto(arguments, "}")
  {
    PayloadMembers(arguments);
    ArgumentsMember(arguments);
    NameText(ARGUMENTS_KEY + PrintOnto(arguments, "}"));
    FourJoined("{", NAME_MEMBER, ARGUMENTS_KEY, PrintOnto(arguments, "}"));
  }

  lemma Joined(a: string, b: string, c: string, d: string, e: string)
    ensures a + (b + c + d + e) == (a + b) + c + (d + e)
  {
  }

  lemma NestedText()
    ensures Print(NestedPayload()) == LEAD + TAG + REST
  {
    PayloadText(Obj([Member("x", Str(TAG))]));
    ArgumentsText("}");
    Joined("{" + NAME_MEMBER + ARGUMENTS_KEY, INNER_KEY, TAG, "\"}", "}");
    assert "\"}" + "}" == REST;
  }

  lemma NoTagHere(text: string, i: nat)
    requires i < |text| && text[i] != '<'
    ensures TagAt(text, i).None?
  {
    if i + 9 <= |text| { assert Fold(text[i..i + 9])[0] == FoldChar(text[i]); }
  }

  lemma {:induction false} SkipToTag(text: string, from: nat, at: nat)
    requires from <= at <= |text| && forall i | from <= i < at :: text[i] != '<'
    ensures Tags(text, from) == Tags(text, at)
    decreases at - from
  {
    if from < at {
      NoTagHere(text, from);
      SkipToTag(text, from + 1, at);
    }
  }

  lemma {:induction false} CloseFound(text: string, j: nat, slash: nat)
    requires j <= slash < |text| && CloseAt(text, slash).Some? && forall i | j <= i < slash :: text[i] != '/'
    ensures FirstClose(text, j) == Some((slash, CloseAt(text, slash).value))
    decreases slash - j
  {
    if j < slash { CloseFound(text, j + 1, slash); }
  }

  /** A tag that opens at `p` and closes at `end`, with no other bracket around it, is the only one. */
  lemma TagFound(text: string, p: nat, slash: nat, end: nat)
    requires p + 9 <= slash < end <= |text| && OpensTag(text, p) && CloseAt(text, slash) == Some(end)
    requires forall i | p + 9 <= i < slash :: text[i] != '/'
    requires forall i | 0 <= i < p || end <= i < |text| :: text[i] != '<'
    ensures Tags(text, 0) == [Span(p, slash, end)]
  {
    SkipToTag(text, 0, p);
    CloseFound(text, p + 9, slash);
    SkipToTag(text, end, |text|);
  }

  lemma OutsideTag(lead: string, tag: string, rest: string)
    requires '<' !in lead && '<' !in rest
    ensures var text := lead + tag + rest;
            && text[|lead|..] == tag + rest
            && forall i | 0 <= i < |lead| || |lead| + |tag| <= i < |text| :: text[i] != '<'
  {
    var text := lead + tag + rest;
    forall i | 0 <= i < |lead| || |lead| + |tag| <= i < |text|
      ensures text[i] != '<'
    {
      assert if i < |lead| then text[i] == lead[i] else text[i] == rest[i - |lead| - |tag|];
    }
  }

  lemma TagOpens(text: string, p: nat, rest: string)
    requires p + |TAG| <= |text| && text[p..] == TAG + rest
    ensures OpensTag(text, p) && CloseAt(text, p + |TAG| - 2) == Some(p + |TAG|)
    ensures forall i | p + 9 <= i < p + |TAG| - 2 :: text[i] != '/'
  {
    assert forall i | 0 <= i < |TAG| :: text[p + i] == text[p..][i] == TAG[i];
    assert text[p..p + 9] == "<function";
    assert Fold("<function") == "<function";
    assert text[p + 9] == ' ' && text[p + |TAG| - 2] == '/' && text[p + |TAG| - 1] == '>';
    assert forall i | 9 <= i < |TAG| - 2 :: TAG[i] != '/';
    forall i | p + 9 <= i < p + |TAG| - 2
      ensures text[i] != '/'
    {
      assert text[p + (i - p)] == TAG[i - p];
    }
  }

  lemma LeadAndRest()
    ensures '<' !in LEAD && '<' !in REST
    ensures |LEAD| > 0 && |TAG| > 11 && |REST| == 3
  {
  }

  lemma NestedNormalizes(t: Tools)
    ensures Normalize(t, NestedPayload()) == Some(("a", ARGUMENTS))
  {
    StripPlain("a");
    PayloadNormalizes(t, "a", Obj([Member("x", Str(TAG))]));
  }

  const ARGUMENTS: seq<Member> := [Member("x", Str(TAG))]

  /** A text that is one printed call is its own object call. */
  lemma WholeObjectFound(t: Tools, payload: Json, text: string, spans: seq<Span>, name: string, arguments: seq<Member>)
    requires Sane(t) && DecodesPrinted(t) && Printable(payload) && payload.Obj? && text == Print(payload)
    requires Normalize(t, payload) == Some((name, arguments)) && Containing(spans, 0).None?
    ensures ObjectCalls(t, text, spans, 0) == [ParsedCall(name, arguments, 0, |text|)]
  {
    ScanFindsPayload(t, "", payload, text, spans, name, arguments);
    assert "" + text == text;
  }

  lemma NotAtStart(span: Span)
    requires span.start > 0
    ensures Containing([span], 0).None?
  {
    assert [span][1..] == [];
  }

  lemma NestedPrints()
    ensures Printable(NestedPayload()) && NestedPayload().Obj?
  {
    assert Printable(Str(TAG));
    assert Printable(Obj(ARGUMENTS));
    PayloadPrints("a", Obj(ARGUMENTS));
  }

  lemma OuterFound(t: Tools, text: string, span: Span)
    requires Sane(t) && DecodesPrinted(t) && text == Print(NestedPayload()) && span.start > 0
    ensures ObjectCalls(t, text, [span], 0) == [ParsedCall("a", ARGUMENTS, 0, |text|)]
  {
    NestedNormalizes(t);
    NestedPrints();
    NotAtStart(span);
    WholeObjectFound(t, NestedPayload(), text, [span], "a", ARGUMENTS);
  }

  lemma OneTagCall(t: Tools, text: string, span: Span, name: string, arguments: seq<Member>)
    requires span.start + 9 <= span.slash < span.end <= |text|
    requires t.attributes(text[span.start + 9..span.slash]) == Some((name, arguments)) && Strip(name) == name
    ensures SpansOk(text, [span]) && TagCalls(t, text, [span]) == [ParsedCall(name, arguments, span.start, span.end)]
  {
    var c := ParsedCall(name, arguments, span.start, span.end);
    assert TagCall(t, text, span) == Some(c);
    assert [span][..0] == [];
    assert TagCalls(t, text, []) == [];
    assert [] + [c] == [c];
  }

  lemma SliceInside(lead: string, tag: string, rest: string, a: nat, b: nat)
    requires a <= b <= |tag|
    ensures (lead + tag + rest)[|lead| + a..|lead| + b] == tag[a..b]
  {
  }

  lemma TagAttributes()
    ensures 11 < |TAG| && TAG[9..|TAG| - 2] == ATTRIBUTES
  {
  }

  /** The tag call is the tag inside it. */
  lemma InnerFound(t: Tools, text: string, span: Span)
    requires t.attributes(ATTRIBUTES) == Some(("b", [])) && text == LEAD + TAG + REST
    requires span == Span(|LEAD|, |LEAD| + |TAG| - 2, |LEAD| + |TAG|)
    ensures SpansOk(text, [span]) && TagCalls(t, text, [span]) == [ParsedCall("b", [], span.start, span.end)]
  {
    StripPlain("b");
    TagAttributes();
    SliceInside(LEAD, TAG, REST, 9, |TAG| - 2);
    OneTagCall(t, text, span, "b", []);
  }

  lemma TwoSorted(inner: ParsedCall, outer: ParsedCall)
    requires outer.start < inner.start
    ensures ByStart([inner, outer]) == [outer, inner]
  {
    assert [inner, outer][..1] == [inner] && [inner][..0] == [];
    assert ByStart([inner]) == [inner];
    assert [inner][..0] == [] && InsertCall(outer, []) == [outer];
  }

  lemma TwoCalls(t: Tools, text: string, span: Span, outer: ParsedCall, inner: ParsedCall)
    requires Sane(t) && Tags(text, 0) == [span] && SpansOk(text, [span]) && outer.start < inner.start
    requires TagCalls(t, text, [span]) == [inner] && ObjectCalls(t, text, [span], 0) == [outer]
    ensures Calls(t, text) == [outer, inner]
  {
    TwoSorted(inner, outer);
    assert [inner] + [outer] == [inner, outer];
  }

  lemma NestedTag(text: string, span: Span)
    requires text == LEAD + TAG + REST && span == Span(|LEAD|, |LEAD| + |TAG| - 2, |LEAD| + |TAG|)
    ensures Tags(text, 0) == [span]
  {
    LeadAndRest();
    OutsideTag(LEAD, TAG, REST);
    TagOpens(text, |LEAD|, REST);
    TagFound(text, span.start, span.slash, span.end);
  }

  /** The scan of that text returns both calls, one inside the other. */
  lemma CallsNest(t: Tools, text: string, span: Span, outer: ParsedCall, inner: ParsedCall)
    requires Sane(t) && DecodesPrinted(t) && t.attributes(ATTRIBUTES) == Some(("b", []))
    requires text == Print(NestedPayload()) == LEAD + TAG + REST
    requires 0 < |LEAD| && 11 < |TAG| && span == Span(|LEAD|, |LEAD| + |TAG| - 2, |LEAD| + |TAG|)
    requires outer == ParsedCall("a", ARGUMENTS, 0, |text|) && inner == ParsedCall("b", [], span.start, span.end)
    ensures Calls(t, text) == [outer, inner]
  {
    NestedTag(text, span);
    OuterFound(t, text, span);
    InnerFound(t, text, span);
    TwoCalls(t, text, span, outer, inner);
  }

  lemma RestIsPlain()
    ensures Without(ToolTag, REST, 0) == REST && Without(EmptyFence, REST, 0) == REST && Strip(REST) == REST
  {
    forall i | 0 <= i < |REST|
      ensures ToolTag(REST, i) == None && EmptyFence(REST, i) == None
    {
    }
    WithoutNothing(ToolTag, REST, 0);
    WithoutNothing(EmptyFence, REST, 0);
    StripPlain(REST);
  }

  /** An outer call that is the whole text, and an inner one: the text after the inner one comes back. */
  lemma NestedChunks(text: string, outer: ParsedCall, inner: ParsedCall)
    requires outer.start == 0 < inner.start < inner.end < outer.end == |text|
    ensures Chunks(text, [outer, inner], 0) == text[inner.end..] && Uncovered(text, [outer, inner], 0) == ""
  {
    var calls := [outer, inner];
    assert calls[0] == outer;
    CoveredRun(text, calls, 0, |text|);
    assert calls[1..] == [inner] && [inner][1..] == [];
    assert Chunks(text, [], inner.end) == text[inner.end..];
    assert Chunks(text, [inner], |text|) == text[inner.end..];
  }

  lemma NestedRemoved(text: string, outer: ParsedCall, inner: ParsedCall)
    requires outer.start == 0 < inner.start < inner.end < outer.end == |text| && text[inner.end..] == REST
    ensures Removed(text, [outer, inner]) == REST
  {
    NestedChunks(text, outer, inner);
    RestIsPlain();
  }

  lemma RestStays(lead: string, tag: string, rest: string)
    ensures (lead + tag + rest)[|lead| + |tag|..] == rest
  {
  }

  /**
   For every decoder that reads printed JSON and the tag's attributes: both calls are found in a
   printed call whose argument mentions a function tag, and removing them leaves the end of the payload
   standing.
   */
  lemma OverlapRestoresText(t: Tools)
    requires Sane(t) && DecodesPrinted(t) && t.attributes(ATTRIBUTES) == Some(("b", []))
    ensures var text := Print(NestedPayload());
            var calls := Calls(t, text);
            && |calls| == 2 && calls[0].start < calls[1].start && calls[1].end < calls[0].end == |text|
            && Uncovered(text, calls, 0) == "" && Removed(text, calls) == REST
  {
    NestedText();
    LeadAndRest();
    var text := Print(NestedPayload());
    var span := Span(|LEAD|, |LEAD| + |TAG| - 2, |LEAD| + |TAG|);
    CallsNest(t, text, span, ParsedCall("a", ARGUMENTS, 0, |text|), ParsedCall("b", [], span.start, span.end));
    RestStays(LEAD, TAG, REST);
    NestedChunks(text, Calls(t, text)[0], Calls(t, text)[1]);
    NestedRemoved(text, Calls(t, text)[0], Calls(t, text)[1]);
  }
}
