/** The texts of the JSON printer and reader, spelled out: separators, escapes, blanks and numbers. */
module JsonTexts {
  import opened Prelude
  import opened Json

  // ---------------------------------------------------------------------------------
  // Printing

  const LOWER := "0123456789abcdef"

  /** One character of a string: short escapes for seven, a hexadecimal one for the other controls. */
  function Spelled(c: char): string {
    var n := c as int;
    if n == 8 then "\\b" else if n == 9 then "\\t" else if n == 10 then "\\n" else if n == 12 then "\\f"
    else if n == 13 then "\\r" else if n == 34 then "\\\"" else if n == 92 then "\\\\"
    else if n < 32 then "\\u00" + [LOWER[n / 16], LOWER[n % 16]]
    else [c]
  }

  function SpelledAll(s: string): string {
    if s == "" then "" else Spelled(s[0]) + SpelledAll(s[1..])
  }

  function Quote(s: string): string {
    "\"" + SpelledAll(s) + "\""
  }

  /** The text of a value, its parts one after the other. */
  function Plain(v: Json): string
    decreases v
  {
    match v
    case Null => "null"
    case Bool(b) => if b then "true" else "false"
    case Num(text) => text
    case Str(s) => Quote(s)
    case Arr(items) => "[" + PlainItems(items) + "]"
    case Obj(members) => "{" + PlainMembers(members) + "}"
  }

  function PlainItems(items: seq<Json>): string
    decreases items
  {
    if items == [] then ""
    else if |items| == 1 then Plain(items[0])
    else Plain(items[0]) + ", " + PlainItems(items[1..])
  }

  function PlainMembers(members: seq<Member>): string
    decreases members
  {
    if members == [] then ""
    else if |members| == 1 then PlainMember(members[0])
    else PlainMember(members[0]) + ", " + PlainMembers(members[1..])
  }

  function PlainMember(m: Member): string
    decreases m
  {
    Quote(m.key) + ": " + Plain(m.value)
  }

  lemma HexIs(d: nat)
    requires d < 16
    ensures Hex(d) == LOWER[d]
  {
  }

  lemma EscapeIs(c: char)
    ensures EscapeChar(c) == Spelled(c)
  {
    var n := c as int;
    assert c == n as char;
    if n < 32 {
      HexIs(n / 16);
      HexIs(n % 16);
    }
  }

  lemma {:induction false} EscapeOntoIs(s: string, rest: string)
    ensures EscapeOnto(s, rest) == SpelledAll(s) + rest
  {
    if s == "" {
      assert "" + rest == rest;
    } else {
      EscapeIs(s[0]);
      EscapeOntoIs(s[1..], rest);
      Regroup(Spelled(s[0]), SpelledAll(s[1..]), rest);
    }
  }

  lemma Wrapped(open: string, body: string, close: string, rest: string)
    ensures open + (body + (close + rest)) == open + body + close + rest
  {
  }

  lemma KeyWrapped(key: string, value: string, rest: string)
    ensures "\"" + (key + ("\": " + (value + rest))) == ("\"" + key + "\"") + ": " + value + rest
  {
    assert "\": " == "\"" + ": ";
    Regroup("\"" + key, "\": ", value + rest);
  }

  /** The printer, which carries the rest of the text along, writes the parts one after the other. */
  lemma {:induction false} PrintOntoIs(v: Json, rest: string)
    ensures PrintOnto(v, rest) == Plain(v) + rest
    decreases v
  {
    match v
    case Str(s) =>
      EscapeOntoIs(s, "\"" + rest);
      Wrapped("\"", SpelledAll(s), "\"", rest);
    case Arr(items) =>
      ItemsOntoIs(items, "]" + rest);
      Wrapped("[", PlainItems(items), "]", rest);
    case Obj(members) =>
      MembersOntoIs(members, "}" + rest);
      Wrapped("{", PlainMembers(members), "}", rest);
    case _ =>
  }

  lemma {:induction false} ItemsOntoIs(items: seq<Json>, rest: string)
    ensures ItemsOnto(items, rest) == PlainItems(items) + rest
    decreases items
  {
    if items == [] {
      assert "" + rest == rest;
    } else if |items| == 1 {
      PrintOntoIs(items[0], rest);
    } else {
      ItemsOntoIs(items[1..], rest);
      var more := ", " + ItemsOnto(items[1..], rest);
      PrintOntoIs(items[0], more);
      assert Plain(items[0]) + more == (Plain(items[0]) + ", " + PlainItems(items[1..])) + rest;
    }
  }

  lemma {:induction false} MembersOntoIs(members: seq<Member>, rest: string)
    ensures MembersOnto(members, rest) == PlainMembers(members) + rest
    decreases members
  {
    if members == [] {
      assert "" + rest == rest;
    } else if |members| == 1 {
      MemberOntoIs(members[0], rest);
    } else {
      MembersOntoIs(members[1..], rest);
      var more := ", " + MembersOnto(members[1..], rest);
      MemberOntoIs(members[0], more);
      assert PlainMember(members[0]) + more == (PlainMember(members[0]) + ", " + PlainMembers(members[1..])) + rest;
    }
  }

  lemma {:induction false} MemberOntoIs(m: Member, rest: string)
    ensures MemberOnto(m, rest) == PlainMember(m) + rest
    decreases m
  {
    PrintOntoIs(m.value, rest);
    EscapeOntoIs(m.key, "\": " + PrintOnto(m.value, rest));
    KeyWrapped(SpelledAll(m.key), Plain(m.value), rest);
  }

  /** `json.dumps` as the source calls it. */
  lemma PrintIsPlain(v: Json)
    ensures Print(v) == Plain(v)
  {
    PrintOntoIs(v, "");
    assert Plain(v) + "" == Plain(v);
  }

  // ---------------------------------------------------------------------------------
  // Reading

  predicate Blanks(s: string) {
    forall i | 0 <= i < |s| :: s[i] == ' ' || s[i] == '\t' || s[i] == '\n' || s[i] == '\r'
  }

  lemma {:induction false} BlanksSkipped(lead: string, rest: string)
    requires Blanks(lead)
    ensures SkipBlanks(lead + rest) == SkipBlanks(rest)
  {
    if lead == "" {
      assert lead + rest == rest;
    } else {
      assert (lead + rest)[1..] == lead[1..] + rest;
      BlanksSkipped(lead[1..], rest);
    }
  }

  /** Blanks around a value are skipped. */
  lemma LoadsAmongBlanks(v: Json, lead: string, tail: string)
    requires Printable(v) && Blanks(lead) && Blanks(tail)
    ensures Loads(lead + Print(v) + tail) == Some(v)
  {
    assert lead + Print(v) + tail == lead + (Print(v) + tail);
    BlanksSkipped(lead, Print(v) + tail);
    PrintThenParse(v, tail);
    PrintStarts(v, "");
    SkipNone(Print(v) + tail);
    BlanksSkipped(tail, "");
    assert tail + "" == tail;
  }

  lemma LoneChar(s: string, c: char, tail: string)
    requires s != "" && s[0] != '"' && ParseChar(s) == Some((c, "\"" + tail))
    ensures ParseChars(s) == Some(([c], tail))
  {
    assert ("\"" + tail)[1..] == tail;
    assert ParseChars("\"" + tail) == Some(("", tail));
    assert [c] + "" == [c];
  }

  lemma LoneString(s: string, c: char)
    requires s != "" && s[0] != '"' && ParseChar(s) == Some((c, "\""))
    ensures Loads("\"" + s) == Some(Str([c]))
  {
    assert "\"" + "" == "\"";
    LoneChar(s, c, "");
    var text := "\"" + s;
    assert text[1..] == s;
    SkipNone(text);
  }

  const UPPER := "0123456789ABCDEF"

  predicate IsHex(c: char, n: nat) {
    n < 16 && (c == LOWER[n] || c == UPPER[n])
  }

  lemma HexRead(c: char, n: nat)
    requires IsHex(c, n)
    ensures HexValue(c) == Some(n)
  {
  }

  /** A four-digit escape stands for the character with that code, in digits of either case; surrogates do not. */
  lemma UnicodeRead(p: char, q: char, r: char, s: char, a: nat, b: nat, c: nat, d: nat)
    requires IsHex(p, a) && IsHex(q, b) && IsHex(r, c) && IsHex(s, d)
    ensures var code := a * 4096 + b * 256 + c * 16 + d;
            code < 0xD800 || 0xE000 <= code < 0x10000 ==>
              Loads("\"" + ['\\', 'u', p, q, r, s, '"']) == Some(Str([code as char]))
  {
    var code := a * 4096 + b * 256 + c * 16 + d;
    if code < 0xD800 || 0xE000 <= code < 0x10000 {
      HexRead(p, a);
      HexRead(q, b);
      HexRead(r, c);
      HexRead(s, d);
      var text := ['\\', 'u', p, q, r, s, '"'];
      assert text[2..6] == [p, q, r, s] && text[6..] == "\"";
      assert UnicodeEscape([p, q, r, s]) == Some(code as char);
      LoneString(text, code as char);
    }
  }

  /** An escaped slash is a slash; a bare control character is refused. */
  lemma SlashAndControls(c: char)
    ensures Loads("\"\\/\"") == Some(Str("/"))
    ensures c < ' ' ==> Loads(['"', c, '"']) == None
  {
    var text := "\\/\"";
    assert text[2..] == "\"";
    LoneString(text, '/');
    assert "\"" + text == "\"\\/\"";
    if c < ' ' {
      var s := ['"', c, '"'];
      SkipNone(s);
      assert s[1..][0] == c;
      assert ParseChars(s[1..]).None?;
    }
  }

  // ---------------------------------------------------------------------------------
  // Numbers

  predicate Digits(s: string, from: int, to: int) {
    0 <= from < to <= |s| && forall i | from <= i < to :: '0' <= s[i] <= '9'
  }

  /** An optional minus before `i`; a zero, or digits that start with another, up to `j`. */
  predicate Whole(s: string, i: int, j: int) {
    && (i == 0 || (i == 1 && s != "" && s[0] == '-'))
    && Digits(s, i, j) && (s[i] == '0' ==> j == i + 1)
  }

  /** Nothing, or a point and digits. */
  predicate Fraction(s: string, j: int, k: int) {
    0 <= j && (k == j || (j < |s| && s[j] == '.' && Digits(s, j + 1, k)))
  }

  /** Nothing, or an `e` of either case, perhaps a sign, and digits. */
  predicate Exponent(s: string, k: int, n: int) {
    && 0 <= k
    && (n == k || (k < |s| && (s[k] == 'e' || s[k] == 'E') &&
        (Digits(s, k + 1, n) || (k + 1 < |s| && (s[k + 1] == '+' || s[k + 1] == '-') && Digits(s, k + 2, n)))))
  }

  lemma {:induction false} DigitsEndIs(s: string, i: nat, k: nat)
    requires i <= k <= |s| && (forall m | i <= m < k :: IsDigit(s[m])) && (k < |s| ==> !IsDigit(s[k]))
    ensures DigitsEnd(s, i) == k
    decreases k - i
  {
    if i < k { DigitsEndIs(s, i + 1, k); }
  }

  lemma {:induction false} DigitsBefore(s: string, i: nat)
    requires i <= |s|
    ensures forall m | i <= m < DigitsEnd(s, i) :: IsDigit(s[m])
    ensures DigitsEnd(s, i) < |s| ==> !IsDigit(s[DigitsEnd(s, i)])
    decreases |s| - i
  {
    if i < |s| && IsDigit(s[i]) { DigitsBefore(s, i + 1); }
  }

  /** A whole text is a number exactly when it has the three parts. */
  lemma NumberExactly(s: string)
    ensures NumberEnd(s) == Some(|s|) <==> exists i, j, k :: Whole(s, i, j) && Fraction(s, j, k) && Exponent(s, k, |s|)
  {
    if NumberEnd(s) == Some(|s|) {
      NumberParts(s);
    }
    if i, j, k :| Whole(s, i, j) && Fraction(s, j, k) && Exponent(s, k, |s|) {
      PartsNumber(s, i, j, k);
    }
  }

  lemma WholeRead(s: string, i: nat)
    requires i == (if s != "" && s[0] == '-' then 1 else 0) && WholeEnd(s, i).Some?
    ensures Whole(s, i, WholeEnd(s, i).value)
  {
    DigitsBefore(s, i);
  }

  lemma FractionRead(s: string, j: nat)
    requires j <= |s|
    ensures Fraction(s, j, FractionEnd(s, j))
  {
    if j < |s| { DigitsBefore(s, j + 1); }
  }

  lemma ExponentRead(s: string, k: nat)
    requires k <= |s|
    ensures Exponent(s, k, ExponentEnd(s, k))
  {
    if k < |s| { DigitsBefore(s, k + 1); }
    if k + 1 < |s| { DigitsBefore(s, k + 2); }
  }

  lemma NumberParts(s: string)
    requires NumberEnd(s) == Some(|s|)
    ensures exists i, j, k :: Whole(s, i, j) && Fraction(s, j, k) && Exponent(s, k, |s|)
  {
    var i := if s != "" && s[0] == '-' then 1 else 0;
    var j := WholeEnd(s, i).value;
    WholeRead(s, i);
    FractionRead(s, j);
    ExponentRead(s, FractionEnd(s, j));
  }

  lemma WholePart(s: string, i: nat, j: nat)
    requires Whole(s, i, j) && (j < |s| ==> !IsDigit(s[j]))
    ensures i == (if s != "" && s[0] == '-' then 1 else 0) && WholeEnd(s, i) == Some(j)
  {
    DigitsEndIs(s, i, j);
  }

  lemma FractionPart(s: string, j: nat, k: nat)
    requires Fraction(s, j, k) && j <= |s| && (k < |s| ==> s[k] == 'e' || s[k] == 'E')
    ensures FractionEnd(s, j) == k
  {
    if k > j { DigitsEndIs(s, j + 1, k); }
  }

  lemma ExponentPart(s: string, k: nat)
    requires Exponent(s, k, |s|)
    ensures ExponentEnd(s, k) == |s|
  {
    if k < |s| {
      if Digits(s, k + 1, |s|) { DigitsEndIs(s, k + 1, |s|); } else { DigitsEndIs(s, k + 2, |s|); }
    }
  }

  lemma PartsNumber(s: string, i: int, j: int, k: int)
    requires Whole(s, i, j) && Fraction(s, j, k) && Exponent(s, k, |s|)
    ensures NumberEnd(s) == Some(|s|)
  {
    assert 0 <= i < j <= k <= |s|;
    ExponentPart(s, k);
    FractionPart(s, j, k);
    WholePart(s, i, j);
  }
}
