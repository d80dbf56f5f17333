/** Finding tool calls in model output, removing them again, and printing the action that is found. */
module ToolCalls {
  import opened Prelude
  import opened Strings
  import opened Json

  /** A normalized call and its character span. */
  datatype ParsedCall = ParsedCall(name: string, arguments: seq<Member>, start: nat, end: nat)

  datatype Span = Span(start: nat, slash: nat, end: nat)

  /**
   What the scanner asks of the standard library: `raw_decode` with the number of characters it
   consumes, `loads`, and the reading of a function tag's attributes.
   */
  datatype Tools = Tools(decode: string -> Option<(Json, nat)>, loads: string -> Option<Json>,
                         attributes: string -> Option<(string, seq<Member>)>)

  /** The decoder reads something and stays inside the text. */
  ghost predicate Sane(t: Tools) {
    forall s :: t.decode(s).Some? ==> 0 < t.decode(s).value.1 <= |s|
  }

  // ---------------------------------------------------------------------------------
  // Function tags

  predicate IsWordChar(c: char) {
    'a' <= c <= 'z' || 'A' <= c <= 'Z' || '0' <= c <= '9' || c == '_'
  }

  predicate OpensTag(text: string, i: nat) {
    i + 9 <= |text| && Fold(text[i..i + 9]) == "<function" && (i + 9 < |text| ==> !IsWordChar(text[i + 9]))
  }

  /** The end of a closing `/>` whose slash stands at `j`; spaces may separate the two. */
  function CloseAt(text: string, j: nat): (r: Option<nat>)
    requires j < |text|
    ensures r.Some? ==> j < r.value <= |text|
  {
    if text[j] != '/' then None else
    var k := TextStart(text, j + 1);
    if k < |text| && text[k] == '>' then Some(k + 1) else None
  }

  /** The first closing from `j` on: its slash and its end. */
  function FirstClose(text: string, j: nat): (r: Option<(nat, nat)>)
    ensures r.Some? ==> j <= r.value.0 < r.value.1 <= |text|
    decreases |text| - j
  {
    if j >= |text| then None
    else if CloseAt(text, j).Some? then Some((j, CloseAt(text, j).value))
    else FirstClose(text, j + 1)
  }

  function TagAt(text: string, i: nat): (r: Option<Span>)
    ensures r.Some? ==> r.value.start == i && i + 9 <= r.value.slash < r.value.end <= |text|
  {
    if !OpensTag(text, i) then None else
    var close := FirstClose(text, i + 9);
    if close.None? then None else Some(Span(i, close.value.0, close.value.1))
  }

  /** The matches of the tag pattern from `from` on, left to right. */
  function Tags(text: string, from: nat): seq<Span>
    decreases |text| - from
  {
    if from >= |text| then []
    else match TagAt(text, from)
         case Some(span) => [span] + Tags(text, span.end)
         case None => Tags(text, from + 1)
  }

  function TagCall(t: Tools, text: string, span: Span): Option<ParsedCall>
    requires span.start + 9 <= span.slash < span.end <= |text|
  {
    var read := t.attributes(text[span.start + 9..span.slash]);
    if read.None? then None else Some(ParsedCall(Strip(read.value.0), read.value.1, span.start, span.end))
  }

  predicate SpansOk(text: string, spans: seq<Span>) {
    && (forall i | 0 <= i < |spans| :: spans[i].start + 9 <= spans[i].slash < spans[i].end <= |text|)
    && (forall i, j | 0 <= i < j < |spans| :: spans[i].end <= spans[j].start)
  }

  lemma {:induction false} TagsAreSpans(text: string, from: nat)
    ensures SpansOk(text, Tags(text, from))
    ensures forall i | 0 <= i < |Tags(text, from)| :: from <= Tags(text, from)[i].start
    decreases |text| - from
  {
    if from < |text| {
      if TagAt(text, from).Some? { TagsAreSpans(text, TagAt(text, from).value.end); } else { TagsAreSpans(text, from + 1); }
    }
  }

  function TagCalls(t: Tools, text: string, spans: seq<Span>): seq<ParsedCall>
    requires SpansOk(text, spans)
  {
    if spans == [] then [] else
    var k := |spans| - 1;
    var call, before := TagCall(t, text, spans[k]), TagCalls(t, text, spans[..k]);
    if call.Some? then before + [call.value] else before
  }

  // ---------------------------------------------------------------------------------
  // Objects

  /** `_normalize_payload`. */
  function Normalize(t: Tools, payload: Json): Option<(string, seq<Member>)> {
    if !payload.Obj? then None else
    var inner := Get(payload.members, "function");
    var members := if inner.Some? && inner.value.Obj? then inner.value.members else payload.members;
    var name := Get(members, "name");
    if name.None? || !name.value.Str? || Strip(name.value.s) == "" then None else
    var given := Get(members, "arguments");
    var raw := if given.None? then Some(Obj([])) else if given.value.Str? then t.loads(given.value.s) else given;
    if raw.None? then None else
    var arguments := if raw.value.Null? then Obj([]) else raw.value;
    if arguments.Obj? then Some((Strip(name.value.s), arguments.members)) else None
  }

  function FindBrace(text: string, from: nat): (r: Option<nat>)
    ensures r.Some? ==> from <= r.value < |text| && text[r.value] == '{'
    ensures r.Some? ==> forall i | from <= i < r.value :: text[i] != '{'
    ensures r.None? ==> forall i | from <= i < |text| :: text[i] != '{'
    decreases |text| - from
  {
    if from >= |text| then None else if text[from] == '{' then Some(from) else FindBrace(text, from + 1)
  }

  /** The first span that covers a position. */
  function Containing(spans: seq<Span>, at: nat): (r: Option<Span>)
    ensures r.Some? ==> r.value in spans && r.value.start <= at < r.value.end
    ensures r.None? ==> forall i | 0 <= i < |spans| :: !(spans[i].start <= at < spans[i].end)
  {
    if spans == [] then None
    else if spans[0].start <= at < spans[0].end then Some(spans[0])
    else
      var r := Containing(spans[1..], at);
      assert r.None? ==> forall i | 1 <= i < |spans| :: spans[i] == spans[1..][i - 1];
      r
  }

  /** One round of the scan: what it finds, and where the cursor goes. */
  function Step(t: Tools, text: string, spans: seq<Span>, cursor: nat): (r: (Option<ParsedCall>, nat))
    requires Sane(t) && cursor < |text|
    ensures cursor < r.1
    ensures r.0.Some? ==> cursor <= r.0.value.start < r.0.value.end == r.1 <= |text|
    ensures r.0.Some? ==> Containing(spans, r.0.value.start).None?
  {
    var brace := FindBrace(text, cursor);
    if brace.None? then (None, |text|) else
    var start := brace.value;
    var tag := Containing(spans, start);
    if tag.Some? then (None, tag.value.end) else
    var decoded := t.decode(text[start..]);
    if decoded.None? then (None, start + 1) else
    var end := start + decoded.value.1;
    var call := Normalize(t, decoded.value.0);
    (if call.Some? then Some(ParsedCall(call.value.0, call.value.1, start, end)) else None, Max(end, start + 1))
  }

  /** The object calls from `cursor` on. */
  function ObjectCalls(t: Tools, text: string, spans: seq<Span>, cursor: nat): seq<ParsedCall>
    requires Sane(t)
    decreases |text| - cursor
  {
    if cursor >= |text| then [] else
    var (call, next) := Step(t, text, spans, cursor);
    (if call.Some? then [call.value] else []) + ObjectCalls(t, text, spans, next)
  }

  // ---------------------------------------------------------------------------------
  // Sorting by position

  function InsertCall(c: ParsedCall, s: seq<ParsedCall>): (r: seq<ParsedCall>)
    ensures multiset(r) == multiset(s) + multiset{c} && |r| == |s| + 1
  {
    if s == [] then [c]
    else if c.start < s[|s| - 1].start then
      assert s == s[..|s| - 1] + [s[|s| - 1]];
      InsertCall(c, s[..|s| - 1]) + [s[|s| - 1]]
    else s + [c]
  }

  /** A stable sort by start. */
  function ByStart(s: seq<ParsedCall>): (r: seq<ParsedCall>)
    ensures multiset(r) == multiset(s) && |r| == |s|
  {
    if s == [] then [] else
    assert s == s[..|s| - 1] + [s[|s| - 1]];
    InsertCall(s[|s| - 1], ByStart(s[..|s| - 1]))
  }

  function Calls(t: Tools, text: string): seq<ParsedCall>
    requires Sane(t)
  {
    TagsAreSpans(text, 0);
    ByStart(TagCalls(t, text, Tags(text, 0)) + ObjectCalls(t, text, Tags(text, 0), 0))
  }

  // ---------------------------------------------------------------------------------
  // The scanner

  method FindTags(text: string) returns (spans: seq<Span>)
    ensures spans == Tags(text, 0)
  {
    spans := [];
    var i := 0;
    while i < |text|
      invariant spans + Tags(text, i) == Tags(text, 0)
      decreases |text| - i
    {
      var tag := TagAt(text, i);
      if tag.Some? {
        assert spans + ([tag.value] + Tags(text, tag.value.end)) == (spans + [tag.value]) + Tags(text, tag.value.end);
        spans := spans + [tag.value];
        i := tag.value.end;
      } else {
        i := i + 1;
      }
    }
    assert spans + [] == spans;
  }

  /** The body of the object loop. */
  method NextObject(t: Tools, text: string, spans: seq<Span>, cursor: nat) returns (call: Option<ParsedCall>, next: nat)
    requires Sane(t) && cursor < |text|
    ensures (call, next) == Step(t, text, spans, cursor)
  {
    var brace := FindBrace(text, cursor);
    if brace.None? {
      return None, |text|;
    }
    var start := brace.value;
    var tag := Containing(spans, start);
    if tag.Some? {
      return None, tag.value.end;
    }
    var decoded := t.decode(text[start..]);
    if decoded.None? {
      return None, start + 1;
    }
    var end := start + decoded.value.1;
    var payload := Normalize(t, decoded.value.0);
    call := if payload.Some? then Some(ParsedCall(payload.value.0, payload.value.1, start, end)) else None;
    next := Max(end, start + 1);
  }

  method FindObjects(t: Tools, text: string, spans: seq<Span>) returns (calls: seq<ParsedCall>)
    requires Sane(t)
    ensures calls == ObjectCalls(t, text, spans, 0)
  {
    calls := [];
    var cursor := 0;
    while cursor < |text|
      invariant calls + ObjectCalls(t, text, spans, cursor) == ObjectCalls(t, text, spans, 0)
      decreases |text| - cursor
    {
      var call, next := NextObject(t, text, spans, cursor);
      OneMoreObject(t, text, spans, cursor, calls);
      if call.Some? {
        calls := calls + [call.value];
      }
      cursor := next;
    }
    assert calls + [] == calls;
  }

  lemma OneMoreObject(t: Tools, text: string, spans: seq<Span>, cursor: nat, calls: seq<ParsedCall>)
    requires Sane(t) && cursor < |text|
    ensures var (call, next) := Step(t, text, spans, cursor);
            calls + ObjectCalls(t, text, spans, cursor) ==
            (if call.Some? then calls + [call.value] else calls) + ObjectCalls(t, text, spans, next)
  {
    var (call, next) := Step(t, text, spans, cursor);
    var rest := ObjectCalls(t, text, spans, next);
    if call.Some? {
      assert calls + ([call.value] + rest) == calls + [call.value] + rest;
    } else {
      assert [] + rest == rest;
    }
  }

  method ReadTags(t: Tools, text: string, spans: seq<Span>) returns (calls: seq<ParsedCall>)
    requires SpansOk(text, spans)
    ensures calls == TagCalls(t, text, spans)
  {
    calls := [];
    for n := 0 to |spans|
      invariant calls == TagCalls(t, text, spans[..n])
    {
      assert spans[..n + 1][..n] == spans[..n];
      var call := TagCall(t, text, spans[n]);
      if call.Some? {
        calls := calls + [call.value];
      }
    }
    assert spans[..|spans|] == spans;
  }

  /** `find_tool_calls`. */
  method FindToolCalls(t: Tools, text: string) returns (calls: seq<ParsedCall>)
    requires Sane(t)
    ensures calls == Calls(t, text)
  {
    var spans := FindTags(text);
    TagsAreSpans(text, 0);
    calls := ReadTags(t, text, spans);
    var objects := FindObjects(t, text, spans);
    calls := ByStart(calls + objects);
  }

  // ---------------------------------------------------------------------------------
  // Spans

  predicate InBounds(text: string, c: ParsedCall) {
    c.start < c.end <= |text|
  }

  predicate Apart(a: ParsedCall, b: ParsedCall) {
    a.end <= b.start || b.end <= a.start
  }

  predicate AllApart(s: seq<ParsedCall>) {
    forall i, j | 0 <= i < j < |s| :: Apart(s[i], s[j])
  }

  predicate Ascending(s: seq<ParsedCall>) {
    forall i, j | 0 <= i < j < |s| :: s[i].start <= s[j].start
  }

  /** Call `c` starts where one of the tags does. */
  predicate IsTagged(spans: seq<Span>, c: ParsedCall) {
    exists k | 0 <= k < |spans| :: c.start == spans[k].start && c.end == spans[k].end
  }

  /** A call of an earlier tag ends before the last tag starts. */
  lemma EarlierTag(text: string, spans: seq<Span>, c: ParsedCall)
    requires SpansOk(text, spans) && spans != [] && IsTagged(spans[..|spans| - 1], c)
    ensures IsTagged(spans, c) && c.end <= spans[|spans| - 1].start
  {
    var k := |spans| - 1;
    var m :| 0 <= m < k && c.start == spans[..k][m].start && c.end == spans[..k][m].end;
    assert spans[m].end <= spans[k].start;
  }

  predicate EndBy(calls: seq<ParsedCall>, bound: nat) {
    forall i | 0 <= i < |calls| :: calls[i].end <= bound
  }

  predicate AllTagged(text: string, spans: seq<Span>, calls: seq<ParsedCall>) {
    forall i | 0 <= i < |calls| :: InBounds(text, calls[i]) && IsTagged(spans, calls[i])
  }

  lemma EarlierTags(text: string, spans: seq<Span>, calls: seq<ParsedCall>)
    requires SpansOk(text, spans) && spans != [] && AllTagged(text, spans[..|spans| - 1], calls)
    ensures AllTagged(text, spans, calls) && EndBy(calls, spans[|spans| - 1].start)
  {
    forall i | 0 <= i < |calls|
      ensures IsTagged(spans, calls[i]) && calls[i].end <= spans[|spans| - 1].start
    {
      EarlierTag(text, spans, calls[i]);
    }
  }

  lemma ApartSnoc(calls: seq<ParsedCall>, c: ParsedCall)
    requires AllApart(calls) && EndBy(calls, c.start)
    ensures AllApart(calls + [c])
  {
  }

  lemma {:induction false} TagCallSpans(t: Tools, text: string, spans: seq<Span>)
    requires SpansOk(text, spans)
    ensures AllApart(TagCalls(t, text, spans)) && AllTagged(text, spans, TagCalls(t, text, spans))
  {
    if spans != [] {
      var k := |spans| - 1;
      TagCallSpans(t, text, spans[..k]);
      var init := TagCalls(t, text, spans[..k]);
      EarlierTags(text, spans, init);
      var call := TagCall(t, text, spans[k]);
      if call.Some? {
        ApartSnoc(init, call.value);
        assert IsTagged(spans, call.value);
      }
    }
  }

  lemma {:induction false} ObjectCallSpans(t: Tools, text: string, spans: seq<Span>, cursor: nat)
    requires Sane(t)
    ensures var calls := ObjectCalls(t, text, spans, cursor);
            && AllApart(calls)
            && forall i | 0 <= i < |calls| ::
                 cursor <= calls[i].start && InBounds(text, calls[i]) && Containing(spans, calls[i].start).None?
    decreases |text| - cursor
  {
    if cursor < |text| {
      ObjectCallSpans(t, text, spans, Step(t, text, spans, cursor).1);
    }
  }

  /** A tag starts strictly inside an object that was taken for a call. */
  predicate TagInside(tags: seq<ParsedCall>, objects: seq<ParsedCall>) {
    exists i, j | 0 <= i < |tags| && 0 <= j < |objects| :: objects[j].start < tags[i].start < objects[j].end
  }

  lemma CrossApart(spans: seq<Span>, tag: ParsedCall, found: ParsedCall)
    requires IsTagged(spans, tag) && Containing(spans, found.start).None?
    requires tag.start < tag.end && found.start < found.end
    ensures Apart(tag, found) <==> !(found.start < tag.start < found.end)
  {
    var k :| 0 <= k < |spans| && tag.start == spans[k].start && tag.end == spans[k].end;
    assert !(spans[k].start <= found.start < spans[k].end);
  }

  lemma BothApart(a: seq<ParsedCall>, b: seq<ParsedCall>)
    requires AllApart(a) && AllApart(b)
    ensures AllApart(a + b) <==> forall i, j | 0 <= i < |a| && 0 <= j < |b| :: Apart(a[i], b[j])
  {
    var all := a + b;
    if AllApart(all) {
      forall i, j | 0 <= i < |a| && 0 <= j < |b|
        ensures Apart(a[i], b[j])
      {
        assert Apart(all[i], all[|a| + j]);
      }
    }
  }

  // A symmetric relation between all calls of a list, one call at a time, as sorting needs it.

  type Relation = (ParsedCall, ParsedCall) -> bool

  ghost predicate Symmetric(r: Relation) {
    forall c, d :: r(c, d) == r(d, c)
  }

  predicate Clear(r: Relation, s: seq<ParsedCall>, c: ParsedCall) {
    s == [] || (Clear(r, s[..|s| - 1], c) && r(s[|s| - 1], c))
  }

  predicate Scattered(r: Relation, s: seq<ParsedCall>) {
    s == [] || (Scattered(r, s[..|s| - 1]) && Clear(r, s[..|s| - 1], s[|s| - 1]))
  }

  lemma Snoc(r: Relation, s: seq<ParsedCall>, c: ParsedCall, d: ParsedCall)
    ensures Clear(r, s + [c], d) <==> Clear(r, s, d) && r(c, d)
    ensures Scattered(r, s + [c]) <==> Scattered(r, s) && Clear(r, s, c)
  {
    assert (s + [c])[..|s|] == s;
  }

  lemma {:induction false} ClearMeans(r: Relation, s: seq<ParsedCall>, c: ParsedCall)
    ensures Clear(r, s, c) <==> forall i | 0 <= i < |s| :: r(s[i], c)
  {
    if s != [] {
      var k := |s| - 1;
      ClearMeans(r, s[..k], c);
      assert forall i | 0 <= i < k :: s[..k][i] == s[i];
    }
  }

  lemma {:induction false} ScatteredMeans(r: Relation, s: seq<ParsedCall>)
    ensures Scattered(r, s) <==> forall i, j | 0 <= i < j < |s| :: r(s[i], s[j])
  {
    if s != [] {
      var k := |s| - 1;
      ScatteredMeans(r, s[..k]);
      ClearMeans(r, s[..k], s[k]);
      assert forall i | 0 <= i < k :: s[..k][i] == s[i];
    }
  }

  lemma {:induction false} InsertClear(r: Relation, c: ParsedCall, s: seq<ParsedCall>, d: ParsedCall)
    ensures Clear(r, InsertCall(c, s), d) <==> Clear(r, s, d) && r(c, d)
  {
    if s != [] && c.start < s[|s| - 1].start {
      var k := |s| - 1;
      InsertClear(r, c, s[..k], d);
      Snoc(r, InsertCall(c, s[..k]), s[k], d);
    } else {
      Snoc(r, s, c, d);
      assert s == [] ==> s + [c] == [c];
    }
  }

  lemma {:induction false} InsertScatters(r: Relation, c: ParsedCall, s: seq<ParsedCall>)
    requires Symmetric(r)
    ensures Scattered(r, InsertCall(c, s)) <==> Scattered(r, s) && Clear(r, s, c)
  {
    if s != [] && c.start < s[|s| - 1].start {
      var k := |s| - 1;
      InsertScatters(r, c, s[..k]);
      InsertClear(r, c, s[..k], s[k]);
      Snoc(r, InsertCall(c, s[..k]), s[k], c);
      assert r(c, s[k]) == r(s[k], c);
    } else {
      Snoc(r, s, c, c);
      assert s == [] ==> s + [c] == [c];
    }
  }

  lemma {:induction false} SortClear(r: Relation, s: seq<ParsedCall>, d: ParsedCall)
    ensures Clear(r, ByStart(s), d) <==> Clear(r, s, d)
  {
    if s != [] {
      var k := |s| - 1;
      SortClear(r, s[..k], d);
      InsertClear(r, s[k], ByStart(s[..k]), d);
    }
  }

  lemma {:induction false} SortScatters(r: Relation, s: seq<ParsedCall>)
    requires Symmetric(r)
    ensures Scattered(r, ByStart(s)) <==> Scattered(r, s)
  {
    if s != [] {
      var k := |s| - 1;
      SortScatters(r, s[..k]);
      SortClear(r, s[..k], s[k]);
      InsertScatters(r, s[k], ByStart(s[..k]));
    }
  }

  /** Sorting does not change which symmetric relations hold between all pairs. */
  lemma SortKeepsPairs(r: Relation, s: seq<ParsedCall>)
    requires Symmetric(r)
    ensures (forall i, j | 0 <= i < j < |s| :: r(s[i], s[j])) <==>
            (forall i, j | 0 <= i < j < |s| :: r(ByStart(s)[i], ByStart(s)[j]))
  {
    ScatteredMeans(r, s);
    ScatteredMeans(r, ByStart(s));
    SortScatters(r, s);
  }

  lemma SortApart(s: seq<ParsedCall>)
    ensures AllApart(ByStart(s)) <==> AllApart(s)
  {
    SortKeepsPairs(Apart, s);
  }

  predicate Below(s: seq<ParsedCall>, bound: nat) {
    forall i | 0 <= i < |s| :: s[i].start <= bound
  }

  lemma AscendsSnoc(s: seq<ParsedCall>, c: ParsedCall)
    ensures Ascending(s + [c]) <==> Ascending(s) && Below(s, c.start)
    ensures forall bound: nat :: Below(s + [c], bound) <==> Below(s, bound) && c.start <= bound
  {
    var all := s + [c];
    assert all[|s|] == c && forall i | 0 <= i < |s| :: all[i] == s[i];
    if Ascending(all) {
      forall i | 0 <= i < |s|
        ensures s[i].start <= c.start
      {
        assert all[i].start <= all[|s|].start;
      }
    }
  }

  lemma {:induction false} InsertAscends(c: ParsedCall, s: seq<ParsedCall>, bound: nat)
    requires Ascending(s)
    ensures Ascending(InsertCall(c, s))
    ensures Below(s, bound) && c.start <= bound ==> Below(InsertCall(c, s), bound)
  {
    if s != [] && c.start < s[|s| - 1].start {
      var k := |s| - 1;
      assert s == s[..k] + [s[k]];
      AscendsSnoc(s[..k], s[k]);
      InsertAscends(c, s[..k], s[k].start);
      InsertAscends(c, s[..k], bound);
      AscendsSnoc(InsertCall(c, s[..k]), s[k]);
    } else {
      AscendsSnoc(s, c);
      assert s == [] ==> s + [c] == [c];
    }
  }

  lemma {:induction false} SortAscends(s: seq<ParsedCall>)
    ensures Ascending(ByStart(s))
  {
    if s != [] {
      SortAscends(s[..|s| - 1]);
      InsertAscends(s[|s| - 1], ByStart(s[..|s| - 1]), 0);
    }
  }

  lemma SortKeepsBounds(text: string, s: seq<ParsedCall>)
    requires forall i | 0 <= i < |s| :: InBounds(text, s[i])
    ensures forall i | 0 <= i < |s| :: InBounds(text, ByStart(s)[i])
  {
    forall i | 0 <= i < |s|
      ensures InBounds(text, ByStart(s)[i])
    {
      var c := ByStart(s)[i];
      assert c in multiset(ByStart(s));
      assert c in multiset(s);
    }
  }

  /** For any text and any decoder: the spans are in bounds and sorted. */
  lemma SpansAreSorted(t: Tools, text: string)
    requires Sane(t)
    ensures Ascending(Calls(t, text)) && forall i | 0 <= i < |Calls(t, text)| :: InBounds(text, Calls(t, text)[i])
  {
    TagsAreSpans(text, 0);
    TagCallSpans(t, text, Tags(text, 0));
    ObjectCallSpans(t, text, Tags(text, 0), 0);
    var all := TagCalls(t, text, Tags(text, 0)) + ObjectCalls(t, text, Tags(text, 0), 0);
    SortAscends(all);
    SortKeepsBounds(text, all);
  }

  lemma CrossesApart(spans: seq<Span>, tags: seq<ParsedCall>, objects: seq<ParsedCall>)
    requires forall i | 0 <= i < |tags| :: IsTagged(spans, tags[i]) && tags[i].start < tags[i].end
    requires forall j | 0 <= j < |objects| ::
      Containing(spans, objects[j].start).None? && objects[j].start < objects[j].end
    ensures (forall i, j | 0 <= i < |tags| && 0 <= j < |objects| :: Apart(tags[i], objects[j])) <==> !TagInside(tags, objects)
  {
    forall i, j | 0 <= i < |tags| && 0 <= j < |objects|
      ensures Apart(tags[i], objects[j]) <==> !(objects[j].start < tags[i].start < objects[j].end)
    {
      CrossApart(spans, tags[i], objects[j]);
    }
  }

  lemma AllApartExactly(t: Tools, text: string)
    requires Sane(t)
    ensures SpansOk(text, Tags(text, 0))
    ensures AllApart(Calls(t, text)) <==>
            !TagInside(TagCalls(t, text, Tags(text, 0)), ObjectCalls(t, text, Tags(text, 0), 0))
  {
    TagsAreSpans(text, 0);
    var spans := Tags(text, 0);
    var tags, objects := TagCalls(t, text, spans), ObjectCalls(t, text, spans, 0);
    TagCallSpans(t, text, spans);
    ObjectCallSpans(t, text, spans, 0);
    CrossesApart(spans, tags, objects);
    BothApart(tags, objects);
    SortApart(tags + objects);
  }

  /** Each span ends before the next begins exactly when no tag call starts inside an object call. */
  lemma SpansDisjointExactly(t: Tools, text: string)
    requires Sane(t)
    ensures SpansOk(text, Tags(text, 0))
    ensures (forall i, j | 0 <= i < j < |Calls(t, text)| :: Calls(t, text)[i].end <= Calls(t, text)[j].start) <==>
            !TagInside(TagCalls(t, text, Tags(text, 0)), ObjectCalls(t, text, Tags(text, 0), 0))
  {
    AllApartExactly(t, text);
    SpansAreSorted(t, text);
    DisjointIsApart(text, Calls(t, text));
  }

  lemma DisjointIsApart(text: string, s: seq<ParsedCall>)
    requires Ascending(s) && forall i | 0 <= i < |s| :: InBounds(text, s[i])
    ensures (forall i, j | 0 <= i < j < |s| :: s[i].end <= s[j].start) <==> AllApart(s)
  {
    if AllApart(s) {
      forall i, j | 0 <= i < j < |s|
        ensures s[i].end <= s[j].start
      {
        assert Apart(s[i], s[j]) && InBounds(text, s[i]) && InBounds(text, s[j]);
      }
    }
  }
}
