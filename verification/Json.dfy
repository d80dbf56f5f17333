/**
 JSON text as the action printer writes it and the scanner reads it: objects, arrays, strings and
 the three literals of RFC 8259 (sections 3 to 5 and 7). A number is kept as the text that spells it
 (section 6), or as one of the three constants that Python's codec adds.
 */
module Json {
  import opened Prelude

  /** Objects keep their members in order; looking a name up takes the last one. */
  datatype Json =
    | Null
    | Bool(b: bool)
    | Num(text: string)
    | Str(s: string)
    | Arr(items: seq<Json>)
    | Obj(members: seq<Member>)

  datatype Member = Member(key: string, value: Json)

  function Get(members: seq<Member>, key: string): Option<Json> {
    if members == [] then None else
    var k := |members| - 1;
    if members[k].key == key then Some(members[k].value) else Get(members[..k], key)
  }

  // ---------------------------------------------------------------------------------
  // Printing

  function Hex(d: nat): char
    requires d < 16
  {
    if d < 10 then (('0' as int) + d) as char else (('a' as int) + d - 10) as char
  }

  function EscapeChar(c: char): (r: string)
    ensures r != ""
  {
    if c == '"' then "\\\""
    else if c == '\\' then "\\\\"
    else if c == '\n' then "\\n"
    else if c == '\r' then "\\r"
    else if c == '\t' then "\\t"
    else if c == 12 as char then "\\f"
    else if c == 8 as char then "\\b"
    else if c < ' ' then ['\\', 'u', '0', '0', Hex(c as int / 16), Hex(c as int % 16)]
    else [c]
  }

  /** The escaped text of `s`, followed by `rest`. */
  function EscapeOnto(s: string, rest: string): string {
    if s == "" then rest else EscapeChar(s[0]) + EscapeOnto(s[1..], rest)
  }

  /** The text of a value, followed by `rest`. */
  function PrintOnto(v: Json, rest: string): string
    decreases v
  {
    match v
    case Null => "null" + rest
    case Bool(b) => (if b then "true" else "false") + rest
    case Num(text) => text + rest
    case Str(s) => "\"" + EscapeOnto(s, "\"" + rest)
    case Arr(items) => "[" + ItemsOnto(items, "]" + rest)
    case Obj(members) => "{" + MembersOnto(members, "}" + rest)
  }

  function ItemsOnto(items: seq<Json>, rest: string): string
    decreases items
  {
    if items == [] then rest
    else PrintOnto(items[0], if |items| == 1 then rest else ", " + ItemsOnto(items[1..], rest))
  }

  function MembersOnto(members: seq<Member>, rest: string): string
    decreases members
  {
    if members == [] then rest
    else MemberOnto(members[0], if |members| == 1 then rest else ", " + MembersOnto(members[1..], rest))
  }

  function MemberOnto(m: Member, rest: string): string
    decreases m
  {
    "\"" + EscapeOnto(m.key, "\": " + PrintOnto(m.value, rest))
  }

  /** `json.dumps` with its default separators and without ASCII escaping. */
  function Print(v: Json): string {
    PrintOnto(v, "")
  }

  // ---------------------------------------------------------------------------------
  // Parsing

  predicate IsBlank(c: char) {
    c == ' ' || c == '\t' || c == '\n' || c == '\r'
  }

  function SkipBlanks(s: string): (r: string)
    ensures |r| <= |s|
  {
    if s != "" && IsBlank(s[0]) then SkipBlanks(s[1..]) else s
  }

  function HexValue(c: char): Option<nat> {
    if '0' <= c <= '9' then Some(c as int - '0' as int)
    else if 'a' <= c <= 'f' then Some(c as int - 'a' as int + 10)
    else if 'A' <= c <= 'F' then Some(c as int - 'A' as int + 10)
    else None
  }

  /** The character that a four-digit escape stands for; surrogates are not modelled. */
  function UnicodeEscape(s: string): Option<char>
    requires |s| >= 4
  {
    var a, b, c, d := HexValue(s[0]), HexValue(s[1]), HexValue(s[2]), HexValue(s[3]);
    if a.None? || b.None? || c.None? || d.None? then None else
    var code := ((a.value * 16 + b.value) * 16 + c.value) * 16 + d.value;
    if code < 0xD800 || 0xE000 <= code < 0x10000 then Some(code as char) else None
  }

  function SimpleEscape(c: char): Option<char> {
    if c == '"' || c == '\\' || c == '/' then Some(c)
    else if c == 'n' then Some('\n')
    else if c == 'r' then Some('\r')
    else if c == 't' then Some('\t')
    else if c == 'f' then Some(12 as char)
    else if c == 'b' then Some(8 as char)
    else None
  }

  /** One character of a string body, and what follows it. */
  function ParseChar(s: string): (r: Option<(char, string)>)
    requires s != "" && s[0] != '"'
    ensures r.Some? ==> |r.value.1| < |s|
  {
    if s[0] != '\\' then (if s[0] < ' ' then None else Some((s[0], s[1..])))
    else if |s| < 2 then None
    else if s[1] == 'u' then
      if |s| < 6 then None else
      var c := UnicodeEscape(s[2..6]);
      if c.None? then None else Some((c.value, s[6..]))
    else
      var c := SimpleEscape(s[1]);
      if c.None? then None else Some((c.value, s[2..]))
  }

  /** A string body up to its closing quote. */
  function ParseChars(s: string): (r: Option<(string, string)>)
    ensures r.Some? ==> |r.value.1| < |s|
  {
    if s == "" then None
    else if s[0] == '"' then Some(("", s[1..]))
    else
      var c := ParseChar(s);
      if c.None? then None else
      var tail := ParseChars(c.value.1);
      if tail.None? then None else Some(([c.value.0] + tail.value.0, tail.value.1))
  }

  predicate IsDigit(c: char) {
    '0' <= c <= '9'
  }

  /** Where the digits from `i` on end. */
  function DigitsEnd(s: string, i: nat): (r: nat)
    requires i <= |s|
    ensures i <= r <= |s| && (i < |s| && IsDigit(s[i]) ==> i < r)
    decreases |s| - i
  {
    if i < |s| && IsDigit(s[i]) then DigitsEnd(s, i + 1) else i
  }

  /** The end of the whole part from `i` on: a zero, or digits that do not start with one. */
  function WholeEnd(s: string, i: nat): (r: Option<nat>)
    requires i <= |s|
    ensures r.Some? ==> i < r.value <= |s|
  {
    if i == |s| || !IsDigit(s[i]) then None
    else if s[i] == '0' then Some(i + 1)
    else Some(DigitsEnd(s, i))
  }

  /** The end of the fraction from `i` on, if there is one. */
  function FractionEnd(s: string, i: nat): (r: nat)
    requires i <= |s|
    ensures i <= r <= |s|
  {
    if i + 1 < |s| && s[i] == '.' && IsDigit(s[i + 1]) then DigitsEnd(s, i + 1) else i
  }

  /** The end of the exponent from `i` on, if there is one. */
  function ExponentEnd(s: string, i: nat): (r: nat)
    requires i <= |s|
    ensures i <= r <= |s|
  {
    if i == |s| || s[i] !in {'e', 'E'} then i else
    var j := if i + 1 < |s| && s[i + 1] in {'+', '-'} then i + 2 else i + 1;
    if j < |s| && IsDigit(s[j]) then DigitsEnd(s, j) else i
  }

  /** The end of the longest number that `s` starts with. */
  function NumberEnd(s: string): (r: Option<nat>)
    ensures r.Some? ==> 0 < r.value <= |s|
  {
    var whole := WholeEnd(s, if s != "" && s[0] == '-' then 1 else 0);
    if whole.None? then None else Some(ExponentEnd(s, FractionEnd(s, whole.value)))
  }

  const CONSTANTS := ["NaN", "Infinity", "-Infinity"]

  /** A number, or one of the constants that Python's decoder knows. */
  function ParseNumber(s: string): (r: Option<(Json, string)>)
    ensures r.Some? ==> |r.value.1| < |s|
  {
    var end := NumberEnd(s);
    if end.Some? then Some((Num(s[..end.value]), s[end.value..]))
    else if "NaN" <= s then Some((Num("NaN"), s[3..]))
    else if "Infinity" <= s then Some((Num("Infinity"), s[8..]))
    else if "-Infinity" <= s then Some((Num("-Infinity"), s[9..]))
    else None
  }

  /** A value and what follows it. */
  function ParseValue(s: string): (r: Option<(Json, string)>)
    ensures r.Some? ==> |r.value.1| < |s|
    decreases |s|, 0
  {
    if s == "" then None
    else if s[0] == '"' then
      var r := ParseChars(s[1..]);
      if r.None? then None else Some((Str(r.value.0), r.value.1))
    else if s[0] == '[' then
      var r := ParseArray(SkipBlanks(s[1..]));
      if r.None? then None else Some((Arr(r.value.0), r.value.1))
    else if s[0] == '{' then
      var r := ParseObject(SkipBlanks(s[1..]));
      if r.None? then None else Some((Obj(r.value.0), r.value.1))
    else if "null" <= s then Some((Null, s[4..]))
    else if "true" <= s then Some((Bool(true), s[4..]))
    else if "false" <= s then Some((Bool(false), s[5..]))
    else ParseNumber(s)
  }

  function ParseArray(s: string): (r: Option<(seq<Json>, string)>)
    ensures r.Some? ==> |r.value.1| < |s|
    decreases |s|, 2
  {
    if s == "" then None else if s[0] == ']' then Some(([], s[1..])) else ParseItems(s)
  }

  function ParseItems(s: string): (r: Option<(seq<Json>, string)>)
    ensures r.Some? ==> |r.value.1| < |s|
    decreases |s|, 1
  {
    var v := ParseValue(s);
    if v.None? then None else
    var after := SkipBlanks(v.value.1);
    if after == "" then None
    else if after[0] == ']' then Some(([v.value.0], after[1..]))
    else if after[0] != ',' then None
    else
      var tail := ParseItems(SkipBlanks(after[1..]));
      if tail.None? then None else Some(([v.value.0] + tail.value.0, tail.value.1))
  }

  function ParseObject(s: string): (r: Option<(seq<Member>, string)>)
    ensures r.Some? ==> |r.value.1| < |s|
    decreases |s|, 2
  {
    if s == "" then None else if s[0] == '}' then Some(([], s[1..])) else ParseMembers(s)
  }

  /** The value after a member's key. */
  function ParseAfterKey(s: string): (r: Option<(Json, string)>)
    ensures r.Some? ==> |r.value.1| < |s|
    decreases |s|, 1
  {
    var colon := SkipBlanks(s);
    if colon == "" || colon[0] != ':' then None else ParseValue(SkipBlanks(colon[1..]))
  }

  function ParseMembers(s: string): (r: Option<(seq<Member>, string)>)
    ensures r.Some? ==> |r.value.1| < |s|
    decreases |s|, 1
  {
    if s == "" || s[0] != '"' then None else
    var key := ParseChars(s[1..]);
    if key.None? then None else
    var v := ParseAfterKey(key.value.1);
    if v.None? then None else
    var after := SkipBlanks(v.value.1);
    if after == "" then None
    else if after[0] == '}' then Some(([Member(key.value.0, v.value.0)], after[1..]))
    else if after[0] != ',' then None
    else
      var tail := ParseMembers(SkipBlanks(after[1..]));
      if tail.None? then None else Some(([Member(key.value.0, v.value.0)] + tail.value.0, tail.value.1))
  }

  /** A whole text that is one value: `json.loads`. */
  function Loads(s: string): Option<Json> {
    var v := ParseValue(SkipBlanks(s));
    if v.None? || SkipBlanks(v.value.1) != "" then None else Some(v.value.0)
  }

  // ---------------------------------------------------------------------------------
  // Round trip

  /** The text of one number, as both ends of the codec spell it. */
  predicate NumberText(text: string) {
    NumberEnd(text) == Some(|text|) || text in CONSTANTS
  }

  /** Values whose numbers are spelled as numbers. */
  predicate Printable(v: Json)
    decreases v
  {
    match v
    case Num(text) => NumberText(text)
    case Arr(items) => forall i | 0 <= i < |items| :: Printable(items[i])
    case Obj(members) => forall i | 0 <= i < |members| :: Printable(members[i].value)
    case _ => true
  }

  /** Nothing that a number could go on with. */
  predicate Stops(rest: string) {
    rest == "" || !(IsDigit(rest[0]) || rest[0] in {'.', 'e', 'E'})
  }

  /** A number at the very end of what was printed must not run into what follows. */
  predicate Separate(v: Json, rest: string) {
    v.Num? ==> Stops(rest)
  }

  lemma {:induction false} DigitsStop(text: string, rest: string, i: nat)
    requires i <= |text| && Stops(rest)
    ensures DigitsEnd(text + rest, i) == DigitsEnd(text, i)
    decreases |text| - i
  {
    if i < |text| && IsDigit(text[i]) { DigitsStop(text, rest, i + 1); }
  }

  lemma WholeStops(text: string, rest: string, i: nat)
    requires i <= |text| && Stops(rest) && WholeEnd(text, i).Some?
    ensures WholeEnd(text + rest, i) == WholeEnd(text, i)
  {
    DigitsStop(text, rest, i);
  }

  lemma FractionStops(text: string, rest: string, i: nat)
    requires i <= |text| && Stops(rest)
    ensures FractionEnd(text + rest, i) == FractionEnd(text, i)
  {
    if i + 1 < |text| { DigitsStop(text, rest, i + 1); }
  }

  lemma ExponentStops(text: string, rest: string, i: nat)
    requires i <= |text| && Stops(rest) && ExponentEnd(text, i) == |text|
    ensures ExponentEnd(text + rest, i) == |text|
  {
    if i < |text| {
      DigitsStop(text, rest, if i + 1 < |text| && text[i + 1] in {'+', '-'} then i + 2 else i + 1);
    }
  }

  /** A number is read back whole when nothing after it continues it. */
  lemma NumberStops(text: string, rest: string)
    requires NumberEnd(text) == Some(|text|) && Stops(rest)
    ensures NumberEnd(text + rest) == Some(|text|)
  {
    var start := if text[0] == '-' then 1 else 0;
    WholeStops(text, rest, start);
    FractionStops(text, rest, WholeEnd(text, start).value);
    ExponentStops(text, rest, FractionEnd(text, WholeEnd(text, start).value));
  }

  lemma NumberStarts(text: string)
    requires NumberText(text)
    ensures text != "" && (IsDigit(text[0]) || text[0] in {'-', 'N', 'I'})
  {
  }

  lemma ConstantReads(text: string, rest: string)
    requires text in CONSTANTS
    ensures ParseNumber(text + rest) == Some((Num(text), rest))
  {
    var s := text + rest;
    assert s[..|text|] == text && s[|text|..] == rest;
    assert NumberEnd(s).None?;
  }

  lemma NumberIsLast(s: string)
    requires s != "" && (IsDigit(s[0]) || s[0] in {'-', 'N', 'I'})
    ensures ParseValue(s) == ParseNumber(s)
  {
    assert s[0] !in {'"', '[', '{'} && !("null" <= s) && !("true" <= s) && !("false" <= s);
  }

  lemma DigitsRead(text: string, rest: string)
    requires NumberEnd(text) == Some(|text|) && Stops(rest)
    ensures ParseNumber(text + rest) == Some((Num(text), rest))
  {
    var s := text + rest;
    NumberStops(text, rest);
    assert s[..|text|] == text && s[|text|..] == rest;
  }

  lemma NumberReads(text: string, rest: string)
    requires NumberText(text) && Stops(rest)
    ensures ParseValue(text + rest) == Some((Num(text), rest))
  {
    NumberStarts(text);
    NumberIsLast(text + rest);
    if text in CONSTANTS {
      ConstantReads(text, rest);
    } else {
      DigitsRead(text, rest);
    }
  }

  lemma HexReads(d: nat)
    requires d < 16
    ensures HexValue(Hex(d)) == Some(d)
  {
  }

  lemma ControlReads(c: char, tail: string)
    requires c < ' '
    ensures ParseChar(['\\', 'u', '0', '0', Hex(c as int / 16), Hex(c as int % 16)] + tail) == Some((c, tail))
  {
    var hi, lo := c as int / 16, c as int % 16;
    HexReads(hi);
    HexReads(lo);
    var s := ['\\', 'u', '0', '0', Hex(hi), Hex(lo)] + tail;
    assert s[2..6] == ['0', '0', Hex(hi), Hex(lo)];
    assert s[6..] == tail;
    assert UnicodeEscape(s[2..6]) == Some((hi * 16 + lo) as char);
  }

  lemma CharReads(c: char, tail: string)
    ensures var s := EscapeChar(c) + tail;
            s[0] != '"' && ParseChar(s) == Some((c, tail))
  {
    var s := EscapeChar(c) + tail;
    if |EscapeChar(c)| == 1 {
      assert s[1..] == tail;
    } else if |EscapeChar(c)| == 2 {
      assert s[2..] == tail;
    } else {
      ControlReads(c, tail);
    }
  }

  lemma {:induction false} CharsRead(s: string, rest: string)
    ensures ParseChars(EscapeOnto(s, "\"" + rest)) == Some((s, rest))
  {
    if s == "" {
      assert ("\"" + rest)[1..] == rest;
    } else {
      CharReads(s[0], EscapeOnto(s[1..], "\"" + rest));
      CharsRead(s[1..], rest);
      assert s == [s[0]] + s[1..];
    }
  }

  /** No value starts with a blank, so blanks are never skipped inside one. */
  lemma PrintStarts(v: Json, rest: string)
    requires Printable(v)
    ensures var s := PrintOnto(v, rest); s != "" && !IsBlank(s[0]) && s[0] !in {']', '}', ','}
  {
    if v.Num? { NumberStarts(v.text); }
  }

  lemma LiteralReads(v: Json, rest: string)
    requires v.Null? || v.Bool?
    ensures ParseValue(PrintOnto(v, rest)) == Some((v, rest))
  {
    var s := PrintOnto(v, rest);
    var word := if v.Null? then "null" else if v.b then "true" else "false";
    assert s == word + rest && s[..|word|] == word && s[|word|..] == rest;
    assert s[0] == word[0];
  }

  /** Reading what was printed gives the value back and stops exactly where it ended. */
  lemma {:induction false} ParsePrinted(v: Json, rest: string)
    requires Printable(v) && Separate(v, rest)
    ensures ParseValue(PrintOnto(v, rest)) == Some((v, rest))
    decreases v
  {
    match v
    case Str(s) =>
      CharsRead(s, rest);
      assert PrintOnto(v, rest)[1..] == EscapeOnto(s, "\"" + rest);
    case Arr(items) =>
      ArrayReads(items, rest);
      assert PrintOnto(v, rest)[1..] == ItemsOnto(items, "]" + rest);
    case Obj(members) =>
      ObjectReads(members, rest);
      assert PrintOnto(v, rest)[1..] == MembersOnto(members, "}" + rest);
    case Num(text) => NumberReads(text, rest);
    case _ => LiteralReads(v, rest);
  }

  lemma {:induction false} ArrayReads(items: seq<Json>, rest: string)
    requires forall i | 0 <= i < |items| :: Printable(items[i])
    ensures ParseArray(SkipBlanks(ItemsOnto(items, "]" + rest))) == Some((items, rest))
    decreases items, 1
  {
    if items == [] {
      assert ("]" + rest)[1..] == rest;
    } else {
      PrintStarts(items[0], if |items| == 1 then "]" + rest else ", " + ItemsOnto(items[1..], "]" + rest));
      ItemsRead(items, rest);
    }
  }

  lemma {:induction false} ItemsRead(items: seq<Json>, rest: string)
    requires items != [] && forall i | 0 <= i < |items| :: Printable(items[i])
    ensures ParseItems(ItemsOnto(items, "]" + rest)) == Some((items, rest))
    decreases items, 0
  {
    if |items| == 1 {
      ParsePrinted(items[0], "]" + rest);
      assert ("]" + rest)[1..] == rest;
      assert items == [items[0]];
    } else {
      var more := ItemsOnto(items[1..], "]" + rest);
      ParsePrinted(items[0], ", " + more);
      CommaReads(more);
      PrintStarts(items[1], if |items| == 2 then "]" + rest else ", " + ItemsOnto(items[2..], "]" + rest));
      assert items[1..][1..] == items[2..] && items[1..][0] == items[1];
      ItemsRead(items[1..], rest);
      assert items == [items[0]] + items[1..];
    }
  }

  lemma CommaReads(more: string)
    ensures SkipBlanks(", " + more) == ", " + more && (", " + more)[1..] == " " + more
    ensures more != "" && !IsBlank(more[0]) ==> SkipBlanks(" " + more) == more
  {
    SkipNone(", " + more);
    SkipOne(" " + more);
    assert (" " + more)[1..] == more;
    if more != "" && !IsBlank(more[0]) { SkipNone(more); }
  }

  lemma SkipNone(s: string)
    requires s != "" && !IsBlank(s[0])
    ensures SkipBlanks(s) == s
  {
  }

  lemma SkipOne(s: string)
    requires s != "" && IsBlank(s[0])
    ensures SkipBlanks(s) == SkipBlanks(s[1..])
  {
  }

  lemma {:induction false} ObjectReads(members: seq<Member>, rest: string)
    requires forall i | 0 <= i < |members| :: Printable(members[i].value)
    ensures ParseObject(SkipBlanks(MembersOnto(members, "}" + rest))) == Some((members, rest))
    decreases members, 1
  {
    if members == [] {
      assert ("}" + rest)[1..] == rest;
    } else {
      MembersRead(members, rest);
    }
  }

  /** `s` starts with a member, which is read up to `rest`. */
  predicate MemberLeads(s: string, m: Member, rest: string) {
    && s != "" && s[0] == '"' && ParseChars(s[1..]).Some? && ParseChars(s[1..]).value.0 == m.key
    && ParseAfterKey(ParseChars(s[1..]).value.1) == Some((m.value, rest))
  }

  lemma {:induction false} LastMember(m: Member, rest: string)
    requires Printable(m.value)
    ensures ParseMembers(MemberOnto(m, "}" + rest)) == Some(([m], rest))
    decreases m, 1
  {
    MemberReads(m, "}" + rest);
    assert ("}" + rest)[1..] == rest;
  }

  lemma {:induction false} NextMember(m: Member, more: string)
    requires Printable(m.value) && more != "" && more[0] == '"' && ParseMembers(more).Some?
    ensures ParseMembers(MemberOnto(m, ", " + more)) ==
            Some(([m] + ParseMembers(more).value.0, ParseMembers(more).value.1))
    decreases m, 1
  {
    MemberReads(m, ", " + more);
    CommaReads(more);
  }

  lemma {:induction false} MembersRead(members: seq<Member>, rest: string)
    requires members != [] && forall i | 0 <= i < |members| :: Printable(members[i].value)
    ensures ParseMembers(MembersOnto(members, "}" + rest)) == Some((members, rest))
    ensures MembersOnto(members, "}" + rest) != "" && MembersOnto(members, "}" + rest)[0] == '"'
    decreases members, 0
  {
    if |members| == 1 {
      LastMember(members[0], rest);
      assert members == [members[0]];
    } else {
      MembersRead(members[1..], rest);
      NextMember(members[0], MembersOnto(members[1..], "}" + rest));
      assert members == [members[0]] + members[1..];
    }
  }

  /** The key, the colon and the value of one member. */
  lemma {:induction false} MemberReads(m: Member, rest: string)
    requires Printable(m.value) && Separate(m.value, rest)
    ensures MemberLeads(MemberOnto(m, rest), m, rest)
    decreases m, 0
  {
    var value := PrintOnto(m.value, rest);
    var s := MemberOnto(m, rest);
    assert "\": " + value == "\"" + (": " + value);
    assert s[1..] == EscapeOnto(m.key, "\"" + (": " + value));
    CharsRead(m.key, ": " + value);
    PrintStarts(m.value, rest);
    ColonReads(value);
    ParsePrinted(m.value, rest);
  }

  lemma ColonReads(value: string)
    requires value != "" && !IsBlank(value[0])
    ensures ParseAfterKey(": " + value) == ParseValue(value)
  {
    SkipNone(": " + value);
    assert (": " + value)[1..] == " " + value && (" " + value)[1..] == value;
    SkipOne(" " + value);
    SkipNone(value);
  }

  /** What follows a value is untouched by printing it. */
  lemma {:induction false} PrintAppends(v: Json, a: string, b: string)
    ensures PrintOnto(v, a + b) == PrintOnto(v, a) + b
    decreases v
  {
    match v
    case Str(s) =>
      EscapeAppends(s, "\"" + a, b);
      assert "\"" + (a + b) == ("\"" + a) + b;
    case Arr(items) =>
      assert "]" + (a + b) == ("]" + a) + b;
      ItemsAppend(items, "]" + a, b);
    case Obj(members) =>
      assert "}" + (a + b) == ("}" + a) + b;
      MembersAppend(members, "}" + a, b);
    case _ =>
  }

  lemma {:induction false} EscapeAppends(s: string, a: string, b: string)
    ensures EscapeOnto(s, a + b) == EscapeOnto(s, a) + b
  {
    if s != "" { EscapeAppends(s[1..], a, b); }
  }

  lemma {:induction false} ItemsAppend(items: seq<Json>, a: string, b: string)
    ensures ItemsOnto(items, a + b) == ItemsOnto(items, a) + b
    decreases items
  {
    if |items| == 1 {
      PrintAppends(items[0], a, b);
    } else if |items| > 1 {
      ItemsAppend(items[1..], a, b);
      PrintAppends(items[0], ", " + ItemsOnto(items[1..], a), b);
      assert ", " + (ItemsOnto(items[1..], a) + b) == (", " + ItemsOnto(items[1..], a)) + b;
    }
  }

  lemma {:induction false} MembersAppend(members: seq<Member>, a: string, b: string)
    ensures MembersOnto(members, a + b) == MembersOnto(members, a) + b
    decreases members
  {
    if |members| == 1 {
      MemberAppends(members[0], a, b);
    } else if |members| > 1 {
      MembersAppend(members[1..], a, b);
      MemberAppends(members[0], ", " + MembersOnto(members[1..], a), b);
      assert ", " + (MembersOnto(members[1..], a) + b) == (", " + MembersOnto(members[1..], a)) + b;
    }
  }

  lemma {:induction false} MemberAppends(m: Member, a: string, b: string)
    ensures MemberOnto(m, a + b) == MemberOnto(m, a) + b
    decreases m
  {
    PrintAppends(m.value, a, b);
    var value := PrintOnto(m.value, a);
    assert "\": " + (value + b) == ("\": " + value) + b;
    EscapeAppends(m.key, "\": " + value, b);
  }

  /** `json.dumps` then `raw_decode`: the value, and exactly its own text, whatever follows. */
  lemma PrintThenParse(v: Json, rest: string)
    requires Printable(v) && Separate(v, rest)
    ensures ParseValue(Print(v) + rest) == Some((v, rest))
  {
    PrintAppends(v, "", rest);
    assert "" + rest == rest;
    ParsePrinted(v, rest);
  }

  /** `json.loads` undoes `json.dumps`. */
  lemma LoadsPrinted(v: Json)
    requires Printable(v)
    ensures Loads(Print(v)) == Some(v)
  {
    PrintStarts(v, "");
    SkipNone(Print(v));
    ParsePrinted(v, "");
  }
}
