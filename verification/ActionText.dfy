/** The printed action: appended to the assistant's text, found again, and removed again. */
module ActionText {
  import opened Prelude
  import opened Strings
  import opened Json
  import opened ToolCalls

  // ---------------------------------------------------------------------------------
  // Removing calls

  /** Python's slice: empty when the bounds cross. */
  function Slice(text: string, a: nat, b: nat): (r: string)
    ensures |r| == Max(0, Min(b, |text|) - a) && forall k | 0 <= k < |r| :: r[k] == text[a + k]
  {
    if a <= b <= |text| then text[a..b] else if a <= |text| <= b then text[a..] else ""
  }

  function Chunks(text: string, calls: seq<ParsedCall>, cursor: nat): string {
    if calls == [] then Slice(text, cursor, |text|)
    else Slice(text, cursor, calls[0].start) + Chunks(text, calls[1..], calls[0].end)
  }

  /** A pattern: the end of its match at a position, if it matches there. */
  type Pattern = (string, nat) -> Option<nat>

  /** The text from `i` on, without the matches of a pattern, left to right. */
  function Without(p: Pattern, text: string, i: nat): string
    decreases |text| - i
  {
    if i >= |text| then ""
    else if p(text, i).Some? && i < p(text, i).value then Without(p, text, p(text, i).value)
    else [text[i]] + Without(p, text, i + 1)
  }

  predicate At(text: string, i: nat, word: string) {
    i + |word| <= |text| && Fold(text[i..i + |word|]) == word
  }

  /** An opening or closing tool-call tag, in any case. */
  function ToolTag(text: string, i: nat): Option<nat> {
    if At(text, i, "<tool_call>") then Some(i + 11)
    else if At(text, i, "</tool_call>") then Some(i + 12)
    else None
  }

  /** A code fence with nothing in it. */
  function EmptyFence(text: string, i: nat): Option<nat> {
    if !At(text, i, "```") then None else
    var inner := if At(text, i + 3, "json") then i + 7 else i + 3;
    var k := TextStart(text, inner);
    if At(text, k, "```") then Some(k + 3) else None
  }

  function Removed(text: string, calls: seq<ParsedCall>): string {
    if calls == [] then text
    else
      var content := Without(ToolTag, Chunks(text, calls, 0), 0);
      Strip(Without(EmptyFence, content, 0))
  }

  method Substitute(p: Pattern, text: string) returns (r: string)
    ensures r == Without(p, text, 0)
  {
    r := "";
    var i := 0;
    while i < |text|
      invariant r + Without(p, text, i) == Without(p, text, 0)
      decreases |text| - i
    {
      var end := p(text, i);
      if end.Some? && i < end.value {
        i := end.value;
      } else {
        assert r + ([text[i]] + Without(p, text, i + 1)) == r + [text[i]] + Without(p, text, i + 1);
        r := r + [text[i]];
        i := i + 1;
      }
    }
    assert r + "" == r;
  }

  /** `remove_tool_call_payloads`. */
  method RemoveToolCallPayloads(text: string, calls: seq<ParsedCall>) returns (r: string)
    ensures r == Removed(text, calls)
  {
    if calls == [] {
      return text;
    }
    var content, cursor := "", 0;
    assert calls[0..] == calls;
    for n := 0 to |calls|
      invariant content + Chunks(text, calls[n..], cursor) == Chunks(text, calls, 0)
    {
      var piece := Slice(text, cursor, calls[n].start);
      assert calls[n..][0] == calls[n] && calls[n..][1..] == calls[n + 1..];
      assert content + (piece + Chunks(text, calls[n + 1..], calls[n].end)) ==
             content + piece + Chunks(text, calls[n + 1..], calls[n].end);
      content := content + piece;
      cursor := calls[n].end;
    }
    content := content + Slice(text, cursor, |text|);
    content := Substitute(ToolTag, content);
    content := Substitute(EmptyFence, content);
    return Strip(content);
  }

  /** A pattern that matches nowhere removes nothing. */
  predicate Nowhere(p: Pattern, text: string) {
    forall i | 0 <= i < |text| :: p(text, i) == None
  }

  lemma {:induction false} WithoutNothing(p: Pattern, text: string, i: nat)
    requires Nowhere(p, text) && i <= |text|
    ensures Without(p, text, i) == text[i..]
    decreases |text| - i
  {
    if i < |text| {
      assert p(text, i) == None;
      WithoutNothing(p, text, i + 1);
      assert text[i..] == [text[i]] + text[i + 1..];
    }
  }

  // ---------------------------------------------------------------------------------
  // Printing the action

  datatype Action = Action(name: string, arguments: Json)

  /** A chat message; the actions are absent once they are printed. */
  datatype Message = Message(role: string, content: string, actions: Option<seq<Action>>)

  function Payload(name: string, arguments: Json): Json {
    Obj([Member("name", Str(name)), Member("arguments", arguments)])
  }

  function Printed(content: string, name: string, arguments: Json): string {
    RStrip(content) + "\n" + Print(Payload(name, arguments))
  }

  /** The arguments, decoded when they arrive as text. */
  function ArgumentsOf(t: Tools, a: Action): Option<Json> {
    if a.arguments.Str? then t.loads(a.arguments.s) else Some(a.arguments)
  }

  /** `use_plain_json_for_last_action`: a copy whose last message spells its one action out. */
  method UsePlainJsonForLastAction(t: Tools, messages: seq<Message>) returns (r: Result<seq<Message>, string>)
    ensures r.Ok? <==>
              && messages != []
              && messages[|messages| - 1].role == "assistant"
              && messages[|messages| - 1].actions.Some? && |messages[|messages| - 1].actions.value| == 1
              && var arguments := messages[|messages| - 1].actions.value[0].arguments;
                 (arguments.Str? ==> t.loads(arguments.s).Some?)
    ensures r.Ok? ==>
              var target := messages[|messages| - 1];
              var action := target.actions.value[0];
              r.value == messages[|messages| - 1 :=
                Message(target.role, Printed(target.content, action.name, ArgumentsOf(t, action).value), None)]
  {
    if messages == [] {
      return Err("list index out of range");
    }
    var target := messages[|messages| - 1];
    if target.role != "assistant" || target.actions.None? || |target.actions.value| != 1 {
      return Err("Expected the conversation prefix to end in one assistant tool call");
    }
    var call := target.actions.value[0];
    var arguments := call.arguments;
    if arguments.Str? {
      var decoded := t.loads(arguments.s);
      if decoded.None? {
        return Err("arguments are not JSON");
      }
      arguments := decoded.value;
    }
    var payload := Payload(call.name, arguments);
    target := target.(content := RStrip(target.content) + "\n" + Print(payload));
    target := target.(actions := None);
    return Ok(messages[|messages| - 1 := target]);
  }

  // ---------------------------------------------------------------------------------
  // Round trip

  /** The decoder reads what was printed, and no more than that. */
  ghost predicate DecodesPrinted(t: Tools) {
    forall v, rest {:trigger t.decode(Print(v) + rest)} | Printable(v) && Separate(v, rest) ::
      t.decode(Print(v) + rest) == Some((v, |Print(v)|))
  }

  /** The decoder that this model defines. */
  function RawDecode(s: string): Option<(Json, nat)> {
    var r := ParseValue(s);
    if r.None? then None else Some((r.value.0, |s| - |r.value.1|))
  }

  /** Our parser is such a decoder. */
  lemma RawDecodeIsFaithful(t: Tools)
    requires t.decode == RawDecode
    ensures Sane(t) && DecodesPrinted(t)
  {
    forall v, rest | Printable(v) && Separate(v, rest)
      ensures t.decode(Print(v) + rest) == Some((v, |Print(v)|))
    {
      PrintThenParse(v, rest);
    }
  }

  /** Arguments that arrive as text, as the native messages carry them, are printed like the object itself. */
  lemma NativeArgumentsPrintAlike(t: Tools, name: string, arguments: Json)
    requires t.loads == Loads && Printable(arguments)
    ensures ArgumentsOf(t, Action(name, Str(Print(arguments)))) == Some(arguments)
  {
    LoadsPrinted(arguments);
  }

  /** Neither substitution changes the text. */
  predicate Untouched(text: string) {
    Without(ToolTag, text, 0) == text && Without(EmptyFence, text, 0) == text
  }

  /** What must hold around the action: the lead-in carries no brace, tag or empty fence; the text carries no function tag. */
  predicate Quiet(lead: string, text: string) {
    '{' !in lead && Untouched(lead) && Tags(text, 0) == []
  }

  lemma {:induction false} BraceAt(text: string, from: nat, at: nat)
    requires from <= at < |text| && text[at] == '{' && forall i | from <= i < at :: text[i] != '{'
    ensures FindBrace(text, from) == Some(at)
    decreases at - from
  {
    if from < at { BraceAt(text, from + 1, at); }
  }

  lemma PayloadNormalizes(t: Tools, name: string, arguments: Json)
    requires arguments.Obj? && Strip(name) == name != ""
    ensures Normalize(t, Payload(name, arguments)) == Some((name, arguments.members))
  {
    var members := Payload(name, arguments).members;
    var first := [Member("name", Str(name))];
    assert members[..1] == first && first[..0] == [];
    assert |"name"| == 4 && |"arguments"| == 9 && |"function"| == 8;
    assert Get([], "function") == None;
    assert Get(first, "function") == None && Get(first, "name") == Some(Str(name));
    assert Get(members, "function") == None;
    assert Get(members, "name") == Some(Str(name));
    assert Get(members, "arguments") == Some(arguments);
  }

  lemma PrintsBrace(v: Json)
    requires v.Obj?
    ensures Print(v) != "" && Print(v)[0] == '{'
  {
  }

  /** A printed value is decoded where it stands at the end of a text. */
  lemma DecodedAtEnd(t: Tools, lead: string, v: Json, printed: string)
    requires DecodesPrinted(t) && Printable(v) && printed == Print(v)
    ensures t.decode((lead + printed)[|lead|..]) == Some((v, |printed|))
  {
    assert (lead + printed)[|lead|..] == printed == printed + "";
    assert Separate(v, "");
  }

  /** A decoded call at the next brace is what the scan finds. */
  lemma StepFinds(t: Tools, text: string, spans: seq<Span>, from: nat, at: nat, payload: Json, n: nat, c: ParsedCall)
    requires Sane(t) && from < |text| && FindBrace(text, from) == Some(at) && Containing(spans, at).None?
    requires t.decode(text[at..]) == Some((payload, n)) && Normalize(t, payload) == Some((c.name, c.arguments))
    requires c.start == at && c.end == at + n
    ensures Step(t, text, spans, from) == (Some(c), at + n)
  {
  }

  lemma LastObject(t: Tools, text: string, spans: seq<Span>, from: nat, c: ParsedCall)
    requires Sane(t) && from < |text| && Step(t, text, spans, from) == (Some(c), |text|)
    ensures ObjectCalls(t, text, spans, from) == [c]
  {
    assert ObjectCalls(t, text, spans, |text|) == [];
  }

  lemma BraceAfter(lead: string, printed: string)
    requires printed != "" && printed[0] == '{' && '{' !in lead
    ensures FindBrace(lead + printed, 0) == Some(|lead|)
  {
    BraceAt(lead + printed, 0, |lead|);
  }

  /** The scan of a lead-in without braces and one printed payload outside every tag. */
  lemma ScanFindsPayload(t: Tools, lead: string, payload: Json, printed: string, spans: seq<Span>,
                         name: string, arguments: seq<Member>)
    requires Sane(t) && DecodesPrinted(t) && Printable(payload) && payload.Obj? && printed == Print(payload)
    requires Normalize(t, payload) == Some((name, arguments)) && Containing(spans, |lead|).None?
    requires '{' !in lead
    ensures ObjectCalls(t, lead + printed, spans, 0) == [ParsedCall(name, arguments, |lead|, |lead + printed|)]
  {
    var text := lead + printed;
    var c := ParsedCall(name, arguments, |lead|, |text|);
    PrintsBrace(payload);
    BraceAfter(lead, printed);
    DecodedAtEnd(t, lead, payload, printed);
    StepFinds(t, text, spans, 0, |lead|, payload, |printed|, c);
    LastObject(t, text, spans, 0, c);
  }

  lemma SingletonSorted(c: ParsedCall)
    ensures ByStart([c]) == [c]
  {
    assert [c][..0] == [];
    assert ByStart([]) == [];
  }

  lemma LoneObject(t: Tools, text: string, c: ParsedCall)
    requires Sane(t) && Tags(text, 0) == [] && ObjectCalls(t, text, [], 0) == [c]
    ensures Calls(t, text) == [c]
  {
    assert [] + [c] == [c];
    SingletonSorted(c);
  }

  lemma PayloadPrints(name: string, arguments: Json)
    requires Printable(arguments)
    ensures Printable(Payload(name, arguments))
  {
  }

  /** A printed call after a quiet lead-in is the only call of the text. */
  lemma PayloadIsFound(t: Tools, lead: string, payload: Json, printed: string, name: string, arguments: seq<Member>)
    requires Sane(t) && DecodesPrinted(t) && Printable(payload) && payload.Obj? && printed == Print(payload)
    requires Normalize(t, payload) == Some((name, arguments)) && Quiet(lead, lead + printed)
    ensures Calls(t, lead + printed) == [ParsedCall(name, arguments, |lead|, |lead + printed|)]
  {
    var text := lead + printed;
    ScanFindsPayload(t, lead, payload, printed, [], name, arguments);
    LoneObject(t, text, ParsedCall(name, arguments, |lead|, |text|));
  }

  lemma CallIsFound(t: Tools, lead: string, name: string, arguments: Json)
    requires Sane(t) && DecodesPrinted(t) && Printable(arguments) && arguments.Obj? && Strip(name) == name != ""
    requires Quiet(lead, lead + Print(Payload(name, arguments)))
    ensures var text := lead + Print(Payload(name, arguments));
            Calls(t, text) == [ParsedCall(name, arguments.members, |lead|, |text|)]
  {
    var payload := Payload(name, arguments);
    PayloadPrints(name, arguments);
    PayloadNormalizes(t, name, arguments);
    PayloadIsFound(t, lead, payload, Print(payload), name, arguments.members);
  }

  /** The appended action is found as exactly one call, with its own name, arguments and span. */
  lemma PrintedActionIsFound(t: Tools, content: string, name: string, arguments: Json)
    requires Sane(t) && DecodesPrinted(t) && Printable(arguments) && arguments.Obj? && Strip(name) == name != ""
    requires Quiet(RStrip(content) + "\n", Printed(content, name, arguments))
    ensures var text := Printed(content, name, arguments);
            Calls(t, text) == [ParsedCall(name, arguments.members, |RStrip(content) + "\n"|, |text|)]
  {
    CallIsFound(t, RStrip(content) + "\n", name, arguments);
  }

  /** Removing that call gives back the stripped text. */
  lemma RemovalRestoresText(content: string, name: string, arguments: Json)
    requires Untouched(RStrip(content) + "\n")
    ensures var text := Printed(content, name, arguments);
            var c := ParsedCall(name, if arguments.Obj? then arguments.members else [], |RStrip(content) + "\n"|, |text|);
            Removed(text, [c]) == Strip(content)
  {
    var lead := RStrip(content) + "\n";
    var text := Printed(content, name, arguments);
    var c := ParsedCall(name, if arguments.Obj? then arguments.members else [], |lead|, |text|);
    assert text[..|lead|] == lead && [c][1..] == [];
    assert Chunks(text, [], |text|) == "";
    assert Chunks(text, [c], 0) == lead + "" == lead;
    StripAfterRStrip(content);
  }

  /** Print, find and remove: the whole round trip, for the message that the printer produced. */
  lemma ActionRoundTrip(t: Tools, content: string, name: string, arguments: Json)
    requires Sane(t) && DecodesPrinted(t) && Printable(arguments) && arguments.Obj? && Strip(name) == name != ""
    requires Quiet(RStrip(content) + "\n", Printed(content, name, arguments))
    ensures var text := Printed(content, name, arguments);
            var calls := Calls(t, text);
            && |calls| == 1 && calls[0].name == name && Obj(calls[0].arguments) == arguments
            && Removed(text, calls) == Strip(content)
  {
    PrintedActionIsFound(t, content, name, arguments);
    RemovalRestoresText(content, name, arguments);
  }
}
