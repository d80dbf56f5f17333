/** What counts as a call in a text: the shape of a payload, of a function tag, and the order of the scan. */
module CallTexts {
  import opened Prelude
  import opened Strings
  import opened Json
  import opened ToolCalls

  // ---------------------------------------------------------------------------------
  // Payloads

  /** The last member with the key has this value. */
  ghost predicate Field(members: seq<Member>, key: string, v: Json) {
    exists k | 0 <= k < |members| ::
      members[k] == Member(key, v) && forall j | k < j < |members| :: members[j].key != key
  }

  ghost predicate NoField(members: seq<Member>, key: string) {
    forall j | 0 <= j < |members| :: members[j].key != key
  }

  lemma {:induction false} GetIs(members: seq<Member>, key: string)
    ensures Get(members, key).None? <==> NoField(members, key)
    ensures forall v :: Get(members, key) == Some(v) <==> Field(members, key, v)
  {
    if members != [] {
      var k := |members| - 1;
      GetIs(members[..k], key);
      forall v
        ensures Get(members, key) == Some(v) <==> Field(members, key, v)
      {
        FieldSnoc(members[..k], members[k], key, v);
        assert members == members[..k] + [members[k]];
      }
    }
  }

  lemma FieldSnoc(members: seq<Member>, last: Member, key: string, v: Json)
    ensures Field(members + [last], key, v) <==> if last.key == key then last.value == v else Field(members, key, v)
  {
    var all := members + [last];
    assert all[|members|] == last;
    if last.key != key && Field(members, key, v) {
      var k :| 0 <= k < |members| && members[k] == Member(key, v) && forall j | k < j < |members| :: members[j].key != key;
      assert all[k] == Member(key, v);
      assert forall j | k < j < |all| :: all[j].key != key;
    }
    if Field(all, key, v) {
      var k :| 0 <= k < |all| && all[k] == Member(key, v) && forall j | k < j < |all| :: all[j].key != key;
      if k < |members| {
        assert members[k] == all[k] && forall j | k < j < |members| :: members[j] == all[j];
      }
    }
  }

  /** The members that describe the call: those of an object under `function`, or else the payload's own. */
  ghost predicate Describes(payload: Json, members: seq<Member>) {
    && payload.Obj?
    && if exists inner :: Field(payload.members, "function", Obj(inner))
       then Field(payload.members, "function", Obj(members)) else members == payload.members
  }

  /** The arguments: an object, or a text that decodes to one; nothing and null stand for the empty object. */
  ghost predicate Passes(t: Tools, members: seq<Member>, arguments: seq<Member>) {
    || Field(members, "arguments", Obj(arguments))
    || (exists x :: Field(members, "arguments", Str(x)) && t.loads(x) == Some(Obj(arguments)))
    || (arguments == [] &&
        (|| NoField(members, "arguments") || Field(members, "arguments", Null)
         || exists x :: Field(members, "arguments", Str(x)) && t.loads(x) == Some(Null)))
  }

  ghost predicate IsCall(t: Tools, payload: Json, name: string, arguments: seq<Member>) {
    exists members, raw ::
      Describes(payload, members) && Field(members, "name", Str(raw)) &&
      name == Strip(raw) && name != "" && Passes(t, members, arguments)
  }

  /** The members that `_normalize_payload` looks at, and what it takes for the arguments. */
  function Chosen(payload: Json): seq<Member>
    requires payload.Obj?
  {
    var inner := Get(payload.members, "function");
    if inner.Some? && inner.value.Obj? then inner.value.members else payload.members
  }

  function Raw(t: Tools, members: seq<Member>): Option<Json> {
    var given := Get(members, "arguments");
    if given.None? then Some(Obj([])) else if given.value.Str? then t.loads(given.value.s) else given
  }

  lemma DescribesIs(payload: Json, members: seq<Member>)
    requires payload.Obj?
    ensures Describes(payload, members) <==> members == Chosen(payload)
  {
    GetIs(payload.members, "function");
    var inner := Get(payload.members, "function");
    if inner.Some? { assert Field(payload.members, "function", inner.value); }
    if inner.Some? && inner.value.Obj? {
      assert inner.value == Obj(inner.value.members);
    }
  }

  lemma PassesIs(t: Tools, members: seq<Member>, arguments: seq<Member>)
    ensures var raw := Raw(t, members);
            Passes(t, members, arguments) <==>
            raw.Some? && (raw.value == Obj(arguments) || (raw.value.Null? && arguments == []))
  {
    GetIs(members, "arguments");
    var given := Get(members, "arguments");
    if given.Some? { assert Field(members, "arguments", given.value); }
  }

  lemma NameIs(t: Tools, payload: Json, members: seq<Member>, name: string, arguments: seq<Member>)
    requires payload.Obj? && Describes(payload, members)
    ensures var given := Get(members, "name");
            IsCall(t, payload, name, arguments) <==>
            given.Some? && given.value.Str? && name == Strip(given.value.s) && name != "" && Passes(t, members, arguments)
  {
    GetIs(members, "name");
    forall other | Describes(payload, other)
      ensures other == members
    {
      DescribesIs(payload, members);
      DescribesIs(payload, other);
    }
    var given := Get(members, "name");
    if given.Some? && given.value.Str? {
      assert given.value == Str(given.value.s);
      assert Field(members, "name", Str(given.value.s));
    }
  }

  lemma NormalizeIs(t: Tools, payload: Json, name: string, arguments: seq<Member>)
    requires payload.Obj?
    ensures var given, raw := Get(Chosen(payload), "name"), Raw(t, Chosen(payload));
            Normalize(t, payload) == Some((name, arguments)) <==>
            && given.Some? && given.value.Str? && name == Strip(given.value.s) && name != ""
            && raw.Some? && (raw.value == Obj(arguments) || (raw.value.Null? && arguments == []))
  {
  }

  /** `_normalize_payload` accepts exactly the calls. */
  lemma NormalizeExactly(t: Tools, payload: Json, name: string, arguments: seq<Member>)
    ensures Normalize(t, payload) == Some((name, arguments)) <==> IsCall(t, payload, name, arguments)
  {
    if payload.Obj? {
      NormalizeIs(t, payload, name, arguments);
      DescribesIs(payload, Chosen(payload));
      NameIs(t, payload, Chosen(payload), name, arguments);
      PassesIs(t, Chosen(payload), arguments);
    }
  }

  // ---------------------------------------------------------------------------------
  // Function tags

  /** A slash at `j`, spaces, and a `>` that ends before `end`. */
  predicate ClosesAt(text: string, j: int, end: int) {
    && 0 <= j < end - 1 < |text| && text[j] == '/' && text[end - 1] == '>'
    && forall k | j < k < end - 1 :: text[k] in SPACES
  }

  lemma CloseAtExactly(text: string, j: nat, end: nat)
    requires j < |text|
    ensures CloseAt(text, j) == Some(end) <==> ClosesAt(text, j, end)
  {
    forall c: char
      ensures IsSpace(c) <==> c in SPACES
    {
      SpacesAre(c);
    }
    SpacesBefore(text, j + 1);
    if ClosesAt(text, j, end) { TextStartIs(text, j + 1, end - 1); }
  }

  /** No closing starts from `from` on before `slash`. */
  ghost predicate NoClosing(text: string, from: int, slash: int) {
    forall j, e | from <= j < slash :: !ClosesAt(text, j, e)
  }

  lemma {:induction false} FirstCloseExactly(text: string, from: nat, slash: nat, end: nat)
    ensures FirstClose(text, from) == Some((slash, end)) <==>
            from <= slash && ClosesAt(text, slash, end) && NoClosing(text, from, slash)
    decreases |text| - from
  {
    if from < |text| {
      forall e: nat
        ensures CloseAt(text, from) == Some(e) <==> ClosesAt(text, from, e)
      {
        CloseAtExactly(text, from, e);
      }
      var close := CloseAt(text, from);
      if close.Some? {
        assert ClosesAt(text, from, close.value);
      } else {
        FirstCloseExactly(text, from + 1, slash, end);
        assert forall e :: !ClosesAt(text, from, e);
      }
    }
  }

  /** `<function` in any case, no word character right after it, and the first closing that follows. */
  ghost predicate TagText(text: string, i: int, slash: int, end: int) {
    && 0 <= i && i + 9 <= slash < end <= |text| && Fold(text[i..i + 9]) == "<function"
    && !('a' <= text[i + 9] <= 'z' || 'A' <= text[i + 9] <= 'Z' || '0' <= text[i + 9] <= '9' || text[i + 9] == '_')
    && ClosesAt(text, slash, end) && NoClosing(text, i + 9, slash)
  }

  lemma TagAtExactly(text: string, i: nat, slash: nat, end: nat)
    ensures TagAt(text, i) == Some(Span(i, slash, end)) <==> TagText(text, i, slash, end)
  {
    if OpensTag(text, i) { FirstCloseExactly(text, i + 9, slash, end); }
  }

  /** The spans are matches of the tag pattern. */
  lemma {:induction false} TagsMatch(text: string, from: nat)
    ensures forall span | span in Tags(text, from) :: TagText(text, span.start, span.slash, span.end)
    decreases |text| - from
  {
    if from < |text| {
      var tag := TagAt(text, from);
      if tag.Some? {
        TagsMatch(text, tag.value.end);
        TagAtExactly(text, from, tag.value.slash, tag.value.end);
      } else {
        TagsMatch(text, from + 1);
      }
    }
  }

  ghost predicate InsideOne(spans: seq<Span>, i: int) {
    exists span :: span in spans && span.start <= i < span.end
  }

  /** And every match starts inside one of them. */
  lemma {:induction false} TagsCover(text: string, from: nat, i: nat, slash: nat, end: nat)
    requires from <= i && TagText(text, i, slash, end)
    ensures InsideOne(Tags(text, from), i)
    decreases |text| - from
  {
    TagAtExactly(text, i, slash, end);
    var tag := TagAt(text, from);
    if tag.None? {
      TagsCover(text, from + 1, i, slash, end);
    } else if i < tag.value.end {
      assert tag.value in Tags(text, from);
    } else {
      TagsCover(text, tag.value.end, i, slash, end);
      var span :| span in Tags(text, tag.value.end) && span.start <= i < span.end;
      assert span in Tags(text, from);
    }
  }

  /** The attributes of the tag are read, and its name is stripped. */
  ghost predicate ReadsTag(t: Tools, text: string, span: Span, c: ParsedCall)
    requires span.start + 9 <= span.slash < span.end <= |text|
  {
    exists name ::
      t.attributes(text[span.start + 9..span.slash]) == Some((name, c.arguments)) &&
      c == ParsedCall(Strip(name), c.arguments, span.start, span.end)
  }

  lemma TagCallIs(t: Tools, text: string, span: Span, c: ParsedCall)
    requires span.start + 9 <= span.slash < span.end <= |text|
    ensures TagCall(t, text, span) == Some(c) <==> ReadsTag(t, text, span, c)
  {
    var read := t.attributes(text[span.start + 9..span.slash]);
    if read.Some? { assert read == Some((read.value.0, read.value.1)); }
  }

  ghost predicate ReadsSome(t: Tools, text: string, spans: seq<Span>, c: ParsedCall)
    requires SpansOk(text, spans)
  {
    exists i | 0 <= i < |spans| :: ReadsTag(t, text, spans[i], c)
  }

  lemma ReadsSnoc(t: Tools, text: string, spans: seq<Span>, k: nat, c: ParsedCall)
    requires SpansOk(text, spans) && |spans| == k + 1
    ensures ReadsSome(t, text, spans, c) <==> ReadsSome(t, text, spans[..k], c) || ReadsTag(t, text, spans[k], c)
  {
    assert forall i | 0 <= i < k :: spans[..k][i] == spans[i];
  }

  /** The calls of the tags. */
  lemma {:induction false} TagCallsExactly(t: Tools, text: string, spans: seq<Span>, c: ParsedCall)
    requires SpansOk(text, spans)
    ensures c in TagCalls(t, text, spans) <==> ReadsSome(t, text, spans, c)
  {
    if spans != [] {
      var k := |spans| - 1;
      TagCallsExactly(t, text, spans[..k], c);
      TagCallIs(t, text, spans[k], c);
      ReadsSnoc(t, text, spans, k, c);
    }
  }

  // ---------------------------------------------------------------------------------
  // The scan

  /** Without a further brace there is no further object call. */
  lemma NothingToScan(t: Tools, text: string, spans: seq<Span>, cursor: nat)
    requires Sane(t) && forall k | cursor <= k < |text| :: text[k] != '{'
    ensures ObjectCalls(t, text, spans, cursor) == []
  {
    if cursor < |text| { assert ObjectCalls(t, text, spans, |text|) == []; }
  }

  /** A brace inside a function tag: the scan goes on after the tag. */
  lemma BraceInTag(t: Tools, text: string, spans: seq<Span>, cursor: nat, at: nat, i: nat)
    requires Sane(t) && SpansOk(text, spans)
    requires cursor <= at < |text| && text[at] == '{' && forall k | cursor <= k < at :: text[k] != '{'
    requires i < |spans| && spans[i].start <= at < spans[i].end
    ensures ObjectCalls(t, text, spans, cursor) == ObjectCalls(t, text, spans, spans[i].end)
  {
    assert FindBrace(text, cursor) == Some(at);
    var span := Containing(spans, at);
    assert span.Some?;
    var j :| 0 <= j < |spans| && spans[j] == span.value;
    assert i == j;
  }

  /** The first brace from `cursor` on stands at `at`, in no function tag. */
  ghost predicate FreeBrace(text: string, spans: seq<Span>, cursor: nat, at: nat) {
    && cursor <= at < |text| && text[at] == '{' && (forall k | cursor <= k < at :: text[k] != '{')
    && forall i | 0 <= i < |spans| :: !(spans[i].start <= at < spans[i].end)
  }

  lemma FreeBraceFound(text: string, spans: seq<Span>, cursor: nat, at: nat)
    requires FreeBrace(text, spans, cursor, at)
    ensures FindBrace(text, cursor) == Some(at) && Containing(spans, at).None?
  {
  }

  lemma OneStep(t: Tools, text: string, spans: seq<Span>, cursor: nat, call: Option<ParsedCall>, next: nat)
    requires Sane(t) && cursor < |text| && Step(t, text, spans, cursor) == (call, next)
    ensures ObjectCalls(t, text, spans, cursor) ==
            if call.None? then ObjectCalls(t, text, spans, next) else [call.value] + ObjectCalls(t, text, spans, next)
  {
  }

  /** Where no value can be decoded, the scan goes on one character later. */
  lemma BraceUndecoded(t: Tools, text: string, spans: seq<Span>, cursor: nat, at: nat)
    requires Sane(t) && FreeBrace(text, spans, cursor, at) && t.decode(text[at..]).None?
    ensures ObjectCalls(t, text, spans, cursor) == ObjectCalls(t, text, spans, at + 1)
  {
    FreeBraceFound(text, spans, cursor, at);
    OneStep(t, text, spans, cursor, None, at + 1);
  }

  /** What one round of the scan makes of a decoded value. */
  lemma DecodedStep(t: Tools, text: string, spans: seq<Span>, cursor: nat, at: nat, payload: Json, length: nat,
                    call: Option<ParsedCall>)
    requires Sane(t) && cursor <= at < |text| && FindBrace(text, cursor) == Some(at) && Containing(spans, at).None?
    requires t.decode(text[at..]) == Some((payload, length))
    requires match Normalize(t, payload)
             case None => call == None
             case Some(c) => call == Some(ParsedCall(c.0, c.1, at, at + length))
    ensures Step(t, text, spans, cursor) == (call, at + length)
  {
  }

  /** A value that is a call is found, and the scan goes on after it. */
  lemma BraceCalls(t: Tools, text: string, spans: seq<Span>, cursor: nat, at: nat, payload: Json, length: nat,
                   name: string, arguments: seq<Member>)
    requires Sane(t) && FreeBrace(text, spans, cursor, at) && t.decode(text[at..]) == Some((payload, length))
    requires IsCall(t, payload, name, arguments)
    ensures ObjectCalls(t, text, spans, cursor) ==
            [ParsedCall(name, arguments, at, at + length)] + ObjectCalls(t, text, spans, at + length)
  {
    FreeBraceFound(text, spans, cursor, at);
    NormalizeExactly(t, payload, name, arguments);
    DecodedScan(t, text, spans, cursor, at, payload, length, Some(ParsedCall(name, arguments, at, at + length)));
  }

  lemma DecodedScan(t: Tools, text: string, spans: seq<Span>, cursor: nat, at: nat, payload: Json, length: nat,
                    call: Option<ParsedCall>)
    requires Sane(t) && cursor <= at < |text| && FindBrace(text, cursor) == Some(at) && Containing(spans, at).None?
    requires t.decode(text[at..]) == Some((payload, length))
    requires match Normalize(t, payload)
             case None => call == None
             case Some(c) => call == Some(ParsedCall(c.0, c.1, at, at + length))
    ensures ObjectCalls(t, text, spans, cursor) ==
            if call.None? then ObjectCalls(t, text, spans, at + length)
            else [call.value] + ObjectCalls(t, text, spans, at + length)
  {
    DecodedStep(t, text, spans, cursor, at, payload, length, call);
    OneStep(t, text, spans, cursor, call, at + length);
  }

  /** Any other value is skipped. */
  lemma BraceSkipped(t: Tools, text: string, spans: seq<Span>, cursor: nat, at: nat, payload: Json, length: nat)
    requires Sane(t) && FreeBrace(text, spans, cursor, at) && t.decode(text[at..]) == Some((payload, length))
    requires forall name, arguments :: !IsCall(t, payload, name, arguments)
    ensures ObjectCalls(t, text, spans, cursor) == ObjectCalls(t, text, spans, at + length)
  {
    FreeBraceFound(text, spans, cursor, at);
    NeverNormalized(t, payload);
    DecodedScan(t, text, spans, cursor, at, payload, length, None);
  }

  lemma NeverNormalized(t: Tools, payload: Json)
    requires forall name, arguments :: !IsCall(t, payload, name, arguments)
    ensures Normalize(t, payload).None?
  {
    var call := Normalize(t, payload);
    if call.Some? { NormalizeExactly(t, payload, call.value.0, call.value.1); }
  }

  /** All calls: those of the tags and those of the objects, in the order of their starts. */
  lemma CallsAre(t: Tools, text: string)
    requires Sane(t)
    ensures SpansOk(text, Tags(text, 0))
    ensures multiset(Calls(t, text)) ==
            multiset(TagCalls(t, text, Tags(text, 0))) + multiset(ObjectCalls(t, text, Tags(text, 0), 0))
    ensures Ascending(Calls(t, text))
  {
    TagsAreSpans(text, 0);
    SpansAreSorted(t, text);
  }
}
