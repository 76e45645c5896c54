/** JSON: the printing side of src/output.c against the repository's own parser
    (tests/ndjson_validator.c).  A string is a sequence of bytes. */
module Json {
  import opened Bits

  // ----- strings

  function HexDigit(n: nat): char
    requires n < 16
  {
    if n < 10 then '0' + n as char else 'a' + (n - 10) as char
  }

  function HexValue(c: char): Option<nat> {
    if '0' <= c <= '9' then Some(c as nat - '0' as nat)
    else if 'a' <= c <= 'f' then Some(c as nat - 'a' as nat + 10)
    else if 'A' <= c <= 'F' then Some(c as nat - 'A' as nat + 10)
    else None
  }

  const BACKSPACE := 8 as char
  const FORMFEED := 12 as char

  /** One byte inside a JSON string. */
  function Escape(c: char): string {
    if c == '"' || c == '\\' then ['\\', c]
    else if c == BACKSPACE then "\\b"
    else if c == FORMFEED then "\\f"
    else if c == '\n' then "\\n"
    else if c == '\r' then "\\r"
    else if c == '\t' then "\\t"
    else if c < ' ' then ['\\', 'u', '0', '0', HexDigit(c as nat / 16), HexDigit(c as nat % 16)]
    else [c]
  }

  function EscapeAll(text: string): string {
    if text == [] then [] else Escape(text[0]) + EscapeAll(text[1..])
  }

  function Quoted(text: string): string { "\"" + EscapeAll(text) + "\"" }

  lemma {:induction false} EscapeAppends(text: string, c: char)
    ensures EscapeAll(text + [c]) == EscapeAll(text) + Escape(c)
  {
    if text == [] {
      assert text + [c] == [c] && EscapeAll([]) == [];
      assert EscapeAll([c]) == Escape(c) + EscapeAll([c][1..]);
    } else {
      EscapeAppends(text[1..], c);
      assert (text + [c])[1..] == text[1..] + [c];
    }
  }

  method AppendByte(buffer: string, byte: char) returns (r: string)
    ensures r == buffer + Escape(byte)
  {
    if byte == '"' || byte == '\\' {
      r := buffer + ['\\', byte];
    } else if byte == BACKSPACE {
      r := buffer + "\\b";
    } else if byte == FORMFEED {
      r := buffer + "\\f";
    } else if byte == '\n' {
      r := buffer + "\\n";
    } else if byte == '\r' {
      r := buffer + "\\r";
    } else if byte == '\t' {
      r := buffer + "\\t";
    } else if byte < ' ' {
      r := buffer + ['\\', 'u', '0', '0', HexDigit(byte as nat / 16), HexDigit(byte as nat % 16)];
    } else {
      r := buffer + [byte];
    }
  }

  /** append_json_string. */
  method AppendJsonString(buffer: string, value: string) returns (r: string)
    ensures r == buffer + Quoted(value)
  {
    var start := buffer + "\"";
    r := start;
    for i := 0 to |value|
      invariant r == start + EscapeAll(value[..i])
    {
      assert value[..i + 1] == value[..i] + [value[i]];
      EscapeAppends(value[..i], value[i]);
      r := AppendByte(r, value[i]);
      Associate(start, EscapeAll(value[..i]), Escape(value[i]));
    }
    assert value[..|value|] == value;
    r := r + "\"";
    assert r == buffer + Quoted(value);
  }

  lemma Associate(a: string, b: string, c: string)
    ensures (a + b) + c == a + (b + c)
  {
  }

  /** What the contents of a JSON string stand for, section 7 of RFC 8259, on bytes. */
  function Unescape(text: string): Option<string> {
    if text == [] then Some([])
    else if text[0] != '\\' then Prepend(text[0], Unescape(text[1..]))
    else if |text| < 2 then None
    else if text[1] == 'u' then
      if |text| < 6 then None
      else
        var a, b, c, d := HexValue(text[2]), HexValue(text[3]), HexValue(text[4]), HexValue(text[5]);
        if a == Some(0) && b == Some(0) && c.Some? && d.Some? then Prepend((16 * c.value + d.value) as char, Unescape(text[6..]))
        else None
    else
      if ShortEscape(text[1]) then Prepend(Meant(text[1]), Unescape(text[2..])) else None
  }

  /** The characters that may follow a backslash, besides u. */
  predicate ShortEscape(c: char) {
    c == '"' || c == '\\' || c == '/' || c == 'b' || c == 'f' || c == 'n' || c == 'r' || c == 't'
  }

  /** The byte that a backslash and `c` stand for. */
  function Meant(c: char): char {
    match c
    case 'b' => BACKSPACE
    case 'f' => FORMFEED
    case 'n' => '\n'
    case 'r' => '\r'
    case 't' => '\t'
    case _ => c
  }

  function Prepend(c: char, rest: Option<string>): Option<string> {
    match rest case Some(s) => Some([c] + s) case None => None
  }

  lemma HexDigitReads(n: nat)
    requires n < 16
    ensures HexValue(HexDigit(n)) == Some(n)
  {
  }

  /** A control byte written as \u00XX. */
  lemma UnescapeHex(high: nat, low: nat, rest: string)
    requires high < 16 && low < 16
    ensures Unescape(['\\', 'u', '0', '0', HexDigit(high), HexDigit(low)] + rest) ==
            Prepend((16 * high + low) as char, Unescape(rest))
  {
    var all := ['\\', 'u', '0', '0', HexDigit(high), HexDigit(low)] + rest;
    assert all[6..] == rest;
    HexDigitReads(high);
    HexDigitReads(low);
  }

  lemma UnescapeShort(c: char, rest: string)
    requires ShortEscape(c)
    ensures Unescape(['\\', c] + rest) == Prepend(Meant(c), Unescape(rest))
  {
    assert (['\\', c] + rest)[2..] == rest;
  }

  lemma UnescapeOne(c: char, rest: string)
    ensures Unescape(Escape(c) + rest) == Prepend(c, Unescape(rest))
  {
    var e := Escape(c);
    if |e| == 1 {
      assert (e + rest)[1..] == rest;
    } else if |e| == 2 {
      assert Meant(e[1]) == c && e == ['\\', e[1]];
      UnescapeShort(e[1], rest);
    } else {
      UnescapeHex(c as nat / 16, c as nat % 16, rest);
    }
  }

  /** Unescaping gives every byte string back. */
  lemma {:induction false} StringRoundTrip(text: string)
    ensures Unescape(EscapeAll(text)) == Some(text)
  {
    if text != [] {
      UnescapeOne(text[0], EscapeAll(text[1..]));
      StringRoundTrip(text[1..]);
      assert [text[0]] + text[1..] == text;
    }
  }

  // ----- the parser, on the text from the cursor on

  function Head(t: string): char { if t == [] then 0 as char else t[0] }

  predicate IsSpace(c: char) { c == ' ' || c == '\t' || c == '\r' || c == '\n' }

  predicate IsDigit(c: char) { '0' <= c <= '9' }

  function SkipSpace(t: string): (r: string)
    ensures |r| <= |t|
  {
    if t != [] && IsSpace(t[0]) then SkipSpace(t[1..]) else t
  }

  function SkipDigits(t: string): (r: string)
    ensures |r| <= |t|
  {
    if t != [] && IsDigit(t[0]) then SkipDigits(t[1..]) else t
  }

  predicate FourHex(t: string)
    requires |t| >= 6
  {
    HexValue(t[2]).Some? && HexValue(t[3]).Some? && HexValue(t[4]).Some? && HexValue(t[5]).Some?
  }

  /** The loop of parse_string, after the opening quote. */
  function StringBody(t: string): (r: Option<string>)
    ensures r.Some? ==> |r.value| < |t|
  {
    if t == [] then None
    else if t[0] == '"' then Some(t[1..])
    else if t[0] < ' ' then None
    else if t[0] == '\\' then
      if |t| < 2 then None
      else if t[1] == 'u' then if |t| >= 6 && FourHex(t) then StringBody(t[6..]) else None
      else if ShortEscape(t[1]) then StringBody(t[2..])
      else None
    else StringBody(t[1..])
  }

  function ParseString(t: string): (r: Option<string>)
    ensures r.Some? ==> |r.value| < |t|
  {
    if Head(t) == '"' && t != [] then StringBody(t[1..]) else None
  }

  /** A run of digits, at least one. */
  function ParseDigits(t: string): (r: Option<string>)
    ensures r.Some? ==> |r.value| < |t|
  {
    if t != [] && IsDigit(t[0]) then Some(SkipDigits(t)) else None
  }

  function ParseFraction(t: string): (r: Option<string>)
    ensures r.Some? ==> |r.value| <= |t|
  {
    if t != [] && t[0] == '.' then ParseDigits(t[1..]) else Some(t)
  }

  function ParseExponent(t: string): (r: Option<string>)
    ensures r.Some? ==> |r.value| <= |t|
  {
    if t != [] && (t[0] == 'e' || t[0] == 'E') then
      var u := t[1..];
      ParseDigits(if u != [] && (u[0] == '+' || u[0] == '-') then u[1..] else u)
    else Some(t)
  }

  function ParseNumber(t: string): (r: Option<string>)
    ensures r.Some? ==> |r.value| < |t|
  {
    var u := if t != [] && t[0] == '-' then t[1..] else t;
    var whole := if u != [] && u[0] == '0' then Some(u[1..]) else ParseDigits(u);
    if whole.None? then None
    else
      var fraction := ParseFraction(whole.value);
      if fraction.None? then None else ParseExponent(fraction.value)
  }

  const DEPTH_LIMIT := 64

  function ParseValue(t: string, depth: nat): (r: Option<string>)
    ensures r.Some? ==> |r.value| < |t|
    decreases |t|, 2
  {
    if depth + 1 > DEPTH_LIMIT || t == [] then None
    else if t[0] == '"' then ParseString(t)
    else if t[0] == '{' then
      var u := SkipSpace(t[1..]);
      if u != [] && u[0] == '}' then Some(u[1..]) else ParseMembers(u, depth + 1)
    else if t[0] == '[' then
      var u := SkipSpace(t[1..]);
      if u != [] && u[0] == ']' then Some(u[1..]) else ParseItems(u, depth + 1)
    else if "true" <= t then Some(t[4..])
    else if "false" <= t then Some(t[5..])
    else if "null" <= t then Some(t[4..])
    else ParseNumber(t)
  }

  /** The loop of parse_array. */
  function ParseItems(t: string, depth: nat): (r: Option<string>)
    ensures r.Some? ==> |r.value| < |t|
    decreases |t|, 3
  {
    match ParseValue(t, depth)
    case None => None
    case Some(after) =>
      var u := SkipSpace(after);
      if u == [] then None
      else if u[0] == ']' then Some(u[1..])
      else if u[0] == ',' then ParseItems(SkipSpace(u[1..]), depth)
      else None
  }

  /** The loop of parse_object. */
  function ParseMembers(t: string, depth: nat): (r: Option<string>)
    ensures r.Some? ==> |r.value| < |t|
    decreases |t|, 3
  {
    match ParseString(t)
    case None => None
    case Some(afterKey) =>
      var colon := SkipSpace(afterKey);
      if colon == [] || colon[0] != ':' then None
      else
        match ParseValue(SkipSpace(colon[1..]), depth)
        case None => None
        case Some(after) =>
          var u := SkipSpace(after);
          if u == [] then None
          else if u[0] == '}' then Some(u[1..])
          else if u[0] == ',' then ParseMembers(SkipSpace(u[1..]), depth)
          else None
  }

  /** valid_json_line. */
  predicate ValidJsonLine(line: string) {
    match ParseValue(SkipSpace(line), 0)
    case None => false
    case Some(rest) => SkipSpace(rest) == []
  }

  // ----- structured values and their text

  datatype Value =
    | Str(text: string)
    | Number(n: int)
    | Word(word: string)
    | Items(items: seq<Value>)
    | Members(members: seq<Member>)

  datatype Member = Member(key: string, value: Value)

  function Digits(n: nat): string {
    if n < 10 then ['0' + n as char] else Digits(n / 10) + ['0' + (n % 10) as char]
  }

  /** %ld. */
  function Decimal(n: int): string {
    if n < 0 then "-" + Digits(-n) else Digits(n)
  }

  function Hex(n: nat): string {
    if n < 16 then [HexDigit(n)] else Hex(n / 16) + [HexDigit(n % 16)]
  }

  function Print(v: Value): string
    decreases v, 1
  {
    match v
    case Str(text) => Quoted(text)
    case Number(n) => Decimal(n)
    case Word(word) => word
    case Items(items) => "[" + PrintItems(items) + "]"
    case Members(members) => "{" + PrintMembers(members) + "}"
  }

  function PrintItems(items: seq<Value>): string
    decreases items, 0
  {
    if items == [] then [] else
    Print(items[0]) + (if |items| == 1 then [] else "," + PrintItems(items[1..]))
  }

  function PrintMember(m: Member): string
    decreases m, 2
  {
    "\"" + m.key + "\":" + Print(m.value)
  }

  function PrintMembers(members: seq<Member>): string
    decreases members, 0
  {
    if members == [] then [] else
    PrintMember(members[0]) + (if |members| == 1 then [] else "," + PrintMembers(members[1..]))
  }

  /** Printable bytes that need no escape. */
  predicate PlainText(text: string) {
    forall i :: 0 <= i < |text| ==> ' ' <= text[i] && text[i] != '"' && text[i] != '\\'
  }

  /** A well-formed value that nests at most `levels` deep. */
  ghost predicate Fits(v: Value, levels: nat)
    decreases v, 1
  {
    levels > 0 &&
    match v
    case Str(_) => true
    case Number(_) => true
    case Word(word) => word == "true" || word == "false" || word == "null"
    case Items(items) => forall i :: 0 <= i < |items| ==> Fits(items[i], levels - 1)
    case Members(members) =>
      forall i :: 0 <= i < |members| ==> PlainText(members[i].key) && Fits(members[i].value, levels - 1)
  }

  // ----- the parser accepts what the printer prints

  lemma {:induction false} PlainParses(text: string, rest: string)
    requires PlainText(text)
    ensures StringBody(text + "\"" + rest) == Some(rest)
  {
    var t := text + "\"" + rest;
    if text != [] {
      PlainParses(text[1..], rest);
      assert t[1..] == text[1..] + "\"" + rest;
    } else {
      assert t[1..] == rest;
    }
  }

  lemma {:induction false} EscapedParses(text: string, rest: string)
    ensures StringBody(EscapeAll(text) + "\"" + rest) == Some(rest)
  {
    var t := EscapeAll(text) + "\"" + rest;
    if text == [] {
      assert t[1..] == rest;
    } else {
      var more := EscapeAll(text[1..]) + "\"" + rest;
      EscapedParses(text[1..], rest);
      assert t == Escape(text[0]) + more;
      EscapeParses(text[0], more);
    }
  }

  lemma EscapeParses(c: char, more: string)
    ensures StringBody(Escape(c) + more) == StringBody(more)
  {
    var t := Escape(c) + more;
    assert t[|Escape(c)|..] == more;
    if c < ' ' { assert c as nat / 16 < 16; }
  }

  lemma QuotedParses(inner: string, rest: string)
    requires StringBody(inner + "\"" + rest) == Some(rest)
    ensures ParseString("\"" + inner + "\"" + rest) == Some(rest)
  {
    assert ("\"" + inner + "\"" + rest)[1..] == inner + "\"" + rest;
  }

  /** What may follow a number. */
  ghost predicate Delimits(rest: string) {
    rest == [] || rest[0] == ',' || rest[0] == ']' || rest[0] == '}'
  }

  lemma {:induction false} DigitsParse(n: nat, rest: string)
    ensures |Digits(n)| > 0 && IsDigit(Digits(n)[0]) && (Digits(n)[0] == '0' <==> n == 0)
    ensures n == 0 ==> Digits(n) == "0"
    ensures SkipDigits(Digits(n) + rest) == SkipDigits(rest)
  {
    if n < 10 {
      assert (Digits(n) + rest)[1..] == rest;
    } else {
      var last := ['0' + (n % 10) as char];
      DigitsParse(n / 10, last + rest);
      assert Digits(n) + rest == Digits(n / 10) + (last + rest);
      assert (last + rest)[1..] == rest;
    }
  }

  lemma NumberParses(n: int, rest: string)
    requires Delimits(rest)
    ensures ParseNumber(Decimal(n) + rest) == Some(rest)
    ensures Head(Decimal(n)) == '-' || IsDigit(Head(Decimal(n)))
    ensures Decimal(n) != []
  {
    var m := if n < 0 then -n else n;
    DigitsParse(m, rest);
    var t := Decimal(n) + rest;
    var u := Digits(m) + rest;
    assert n < 0 ==> t[1..] == u;
    if m == 0 { assert u[1..] == rest; }
  }

  ghost predicate StartsValue(t: string) {
    t != [] && !IsSpace(t[0]) && t[0] != ']' && t[0] != '}'
  }

  lemma QuoteValueParses(inner: string, rest: string, depth: nat)
    requires StringBody(inner + "\"" + rest) == Some(rest) && depth < DEPTH_LIMIT
    ensures ParseValue("\"" + inner + "\"" + rest, depth) == Some(rest)
  {
    QuotedParses(inner, rest);
  }

  lemma NumberValueParses(n: int, rest: string, depth: nat)
    requires Delimits(rest) && depth < DEPTH_LIMIT
    ensures ParseValue(Decimal(n) + rest, depth) == Some(rest) && StartsValue(Decimal(n))
  {
    NumberParses(n, rest);
    assert (Decimal(n) + rest)[0] == Decimal(n)[0];
  }

  lemma WordValueParses(word: string, rest: string, depth: nat)
    requires (word == "true" || word == "false" || word == "null") && depth < DEPTH_LIMIT
    ensures ParseValue(word + rest, depth) == Some(rest)
  {
    var t := word + rest;
    assert word <= t && t[|word|..] == rest;
  }

  lemma LeafParses(v: Value, rest: string, depth: nat)
    requires depth < DEPTH_LIMIT && Fits(v, DEPTH_LIMIT - depth) && Delimits(rest) && !v.Items? && !v.Members?
    ensures ParseValue(Print(v) + rest, depth) == Some(rest)
    ensures StartsValue(Print(v))
  {
    match v
    case Str(text) =>
      EscapedParses(text, rest);
      QuoteValueParses(EscapeAll(text), rest, depth);
      assert Print(v) + rest == "\"" + EscapeAll(text) + "\"" + rest;
    case Number(n) => NumberValueParses(n, rest, depth);
    case Word(word) => WordValueParses(word, rest, depth);
  }

  lemma {:induction false} ValueParses(v: Value, rest: string, depth: nat)
    requires depth < DEPTH_LIMIT && Fits(v, DEPTH_LIMIT - depth) && Delimits(rest)
    ensures ParseValue(Print(v) + rest, depth) == Some(rest)
    ensures StartsValue(Print(v))
    decreases v, 1
  {
    match v
    case Items(items) => ArrayParses(items, rest, depth);
    case Members(members) => ObjectParses(members, rest, depth);
    case _ => LeafParses(v, rest, depth);
  }

  lemma {:induction false} ArrayParses(items: seq<Value>, rest: string, depth: nat)
    requires depth < DEPTH_LIMIT && forall i :: 0 <= i < |items| ==> Fits(items[i], DEPTH_LIMIT - depth - 1)
    ensures ParseValue("[" + PrintItems(items) + "]" + rest, depth) == Some(rest)
    decreases items, 1
  {
    if items != [] { ItemsParse(items, rest, depth + 1); }
    BracketParses(PrintItems(items), rest, depth);
  }

  lemma {:induction false} ObjectParses(members: seq<Member>, rest: string, depth: nat)
    requires depth < DEPTH_LIMIT
    requires forall i :: 0 <= i < |members| ==> PlainText(members[i].key) && Fits(members[i].value, DEPTH_LIMIT - depth - 1)
    ensures ParseValue("{" + PrintMembers(members) + "}" + rest, depth) == Some(rest)
    decreases members, 1
  {
    if members != [] { MembersParse(members, rest, depth + 1); }
    BraceParses(PrintMembers(members), rest, depth);
  }

  lemma Regroup(a: string, b: string, c: string, d: string)
    ensures (a + b + c) + d == a + (b + (c + d))
  {
  }

  lemma BracketParses(inner: string, rest: string, depth: nat)
    requires depth < DEPTH_LIMIT
    requires inner != [] ==> StartsValue(inner) && ParseItems(inner + ("]" + rest), depth + 1) == Some(rest)
    ensures ParseValue("[" + inner + "]" + rest, depth) == Some(rest)
  {
    var body := inner + ("]" + rest);
    Regroup("[", inner, "]", rest);
    assert ("[" + body)[1..] == body;
    assert inner != [] ==> body[0] == inner[0];
    assert inner == [] ==> body == "]" + rest && body[1..] == rest;
  }

  lemma BraceParses(inner: string, rest: string, depth: nat)
    requires depth < DEPTH_LIMIT
    requires inner != [] ==> StartsValue(inner) && ParseMembers(inner + ("}" + rest), depth + 1) == Some(rest)
    ensures ParseValue("{" + inner + "}" + rest, depth) == Some(rest)
  {
    var body := inner + ("}" + rest);
    Regroup("{", inner, "}", rest);
    assert ("{" + body)[1..] == body;
    assert inner != [] ==> body[0] == inner[0];
    assert inner == [] ==> body == "}" + rest && body[1..] == rest;
  }

  lemma {:induction false} ItemsParse(items: seq<Value>, rest: string, depth: nat)
    requires items != [] && depth <= DEPTH_LIMIT
    requires forall i :: 0 <= i < |items| ==> Fits(items[i], DEPTH_LIMIT - depth)
    ensures ParseItems(PrintItems(items) + ("]" + rest), depth) == Some(rest)
    ensures StartsValue(PrintItems(items))
    decreases items, 0
  {
    assert Fits(items[0], DEPTH_LIMIT - depth);
    var first, tail := Print(items[0]), "]" + rest;
    if |items| == 1 {
      ValueParses(items[0], tail, depth);
      ItemThen(first, tail, depth);
      assert tail[1..] == rest;
      assert first + [] == first;
    } else {
      var others := PrintItems(items[1..]);
      var more := others + tail;
      ItemsParse(items[1..], rest, depth);
      ValueParses(items[0], "," + more, depth);
      ItemThen(first, "," + more, depth);
      Associate(first, "," + others, tail);
      Associate(",", others, tail);
      NextItem(more, others, tail);
    }
  }

  lemma NextItem(more: string, others: string, tail: string)
    requires more == others + tail && StartsValue(others)
    ensures ("," + more)[1..] == more && SkipSpace(more) == more
  {
    assert more[0] == others[0];
  }

  /** After an item the loop of the array goes on with what follows. */
  lemma ItemThen(first: string, rest: string, depth: nat)
    requires rest != [] && (rest[0] == ',' || rest[0] == ']') && ParseValue(first + rest, depth) == Some(rest)
    ensures ParseItems(first + rest, depth) ==
            if rest[0] == ']' then Some(rest[1..]) else ParseItems(SkipSpace(rest[1..]), depth)
  {
  }

  lemma {:induction false} MembersParse(members: seq<Member>, rest: string, depth: nat)
    requires members != [] && depth <= DEPTH_LIMIT
    requires forall i :: 0 <= i < |members| ==> PlainText(members[i].key) && Fits(members[i].value, DEPTH_LIMIT - depth)
    ensures ParseMembers(PrintMembers(members) + ("}" + rest), depth) == Some(rest)
    ensures PrintMembers(members) != [] && PrintMembers(members)[0] == '"'
    decreases members, 0
  {
    var m, tail := members[0], "}" + rest;
    assert Fits(m.value, DEPTH_LIMIT - depth);
    if |members| == 1 {
      MemberParses(m, tail, depth);
      MemberThen(m, tail, depth);
      assert PrintMember(m) + [] == PrintMember(m);
      assert tail[1..] == rest;
    } else {
      var others := PrintMembers(members[1..]);
      MembersParse(members[1..], rest, depth);
      MemberParses(m, "," + (others + tail), depth);
      MemberThen(m, "," + (others + tail), depth);
      NextMember(PrintMember(m), others, tail);
    }
  }

  lemma NextMember(first: string, others: string, tail: string)
    requires others != [] && others[0] == '"'
    ensures (first + ("," + others)) + tail == first + ("," + (others + tail))
    ensures SkipSpace(("," + (others + tail))[1..]) == others + tail
  {
    Associate(first, "," + others, tail);
    Associate(",", others, tail);
    assert ("," + (others + tail))[1..] == others + tail;
  }

  /** After a member the loop of the object goes on with what follows. */
  lemma MemberThen(m: Member, rest: string, depth: nat)
    requires rest != [] && (rest[0] == ',' || rest[0] == '}')
    requires ParseString(PrintMember(m) + rest) == Some(":" + (Print(m.value) + rest))
    requires ParseValue(Print(m.value) + rest, depth) == Some(rest) && StartsValue(Print(m.value))
    ensures ParseMembers(PrintMember(m) + rest, depth) ==
            if rest[0] == '}' then Some(rest[1..]) else ParseMembers(SkipSpace(rest[1..]), depth)
  {
    var after := Print(m.value) + rest;
    assert (":" + after)[1..] == after && after[0] == Print(m.value)[0];
  }

  /** One member, up to what follows its value. */
  lemma {:induction false} MemberParses(m: Member, rest: string, depth: nat)
    requires PlainText(m.key) && depth < DEPTH_LIMIT && Fits(m.value, DEPTH_LIMIT - depth) && Delimits(rest)
    ensures var t := PrintMember(m) + rest;
            && t != [] && t[0] == '"'
            && ParseString(t) == Some(":" + (Print(m.value) + rest))
            && ParseValue(Print(m.value) + rest, depth) == Some(rest)
            && StartsValue(Print(m.value))
    decreases m, 2
  {
    ValueParses(m.value, rest, depth);
    var after := ":" + (Print(m.value) + rest);
    PlainParses(m.key, after);
    QuotedParses(m.key, after);
    assert PrintMember(m) + rest == "\"" + m.key + "\"" + after;
  }

  /** The validator accepts every printed value that nests at most 64 deep. */
  lemma PrintedIsValid(v: Value)
    requires Fits(v, DEPTH_LIMIT)
    ensures ValidJsonLine(Print(v))
  {
    ValueParses(v, [], 0);
    assert Print(v) + [] == Print(v);
  }

  // ----- the text determines the value

  /** Inverse of `Digits`. */
  function ReadDigits(t: string): int {
    if t == [] then 0 else 10 * ReadDigits(t[..|t| - 1]) + (t[|t| - 1] as int - '0' as int)
  }

  lemma {:induction false} DigitsRead(n: nat)
    ensures ReadDigits(Digits(n)) == n
  {
    if n < 10 {
      assert ReadDigits([]) == 0;
      assert Digits(n)[..0] == [];
    } else {
      DigitsRead(n / 10);
      assert Digits(n)[..|Digits(n)| - 1] == Digits(n / 10);
    }
  }

  /** Inverse of `Hex`. */
  function ReadHex(t: string): nat {
    if t == [] then 0
    else 16 * ReadHex(t[..|t| - 1]) + (match HexValue(t[|t| - 1]) case Some(d) => d case None => 0)
  }

  lemma {:induction false} HexRead(n: nat)
    ensures ReadHex(Hex(n)) == n && Hex(n) != []
  {
    if n < 16 {
      assert Hex(n)[..0] == [] && ReadHex([]) == 0;
    } else {
      HexRead(n / 16);
      assert Hex(n)[..|Hex(n)| - 1] == Hex(n / 16);
    }
  }

  /** Decimal text determines the number. */
  lemma DecimalInjective(m: int, n: int)
    requires Decimal(m) == Decimal(n)
    ensures m == n
  {
    var a, b := if m < 0 then -m else m, if n < 0 then -n else n;
    DigitsParse(a, []);
    DigitsParse(b, []);
    DigitsRead(a);
    DigitsRead(b);
    assert m < 0 ==> Decimal(m)[1..] == Digits(a);
    assert n < 0 ==> Decimal(n)[1..] == Digits(b);
  }

  lemma QuotedInjective(a: string, b: string)
    requires Quoted(a) == Quoted(b)
    ensures a == b
  {
    StringRoundTrip(a);
    StringRoundTrip(b);
    assert Quoted(a)[1..|Quoted(a)| - 1] == EscapeAll(a);
    assert Quoted(b)[1..|Quoted(b)| - 1] == EscapeAll(b);
  }

  lemma LeafInjective(v: Value, w: Value)
    requires Fits(v, DEPTH_LIMIT) && Fits(w, DEPTH_LIMIT) && Print(v) == Print(w)
    requires !v.Items? && !v.Members? && !w.Items? && !w.Members?
    ensures v == w
  {
    LeafStarts(v);
    LeafStarts(w);
    if v.Str? { QuotedInjective(v.text, w.text); }
    if v.Number? { DecimalInjective(v.n, w.n); }
  }

  /** The first byte tells the kinds of value apart. */
  lemma LeafStarts(v: Value)
    requires Fits(v, DEPTH_LIMIT)
    ensures Print(v) != []
    ensures match v
            case Str(_) => Print(v)[0] == '"'
            case Number(_) => Print(v)[0] == '-' || IsDigit(Print(v)[0])
            case Word(_) => Print(v)[0] == 't' || Print(v)[0] == 'f' || Print(v)[0] == 'n'
            case Items(_) => Print(v)[0] == '['
            case Members(_) => Print(v)[0] == '{'
  {
    if v.Number? { NumberParses(v.n, []); }
  }

  lemma {:induction false} FitsMore(v: Value, levels: nat, more: nat)
    requires Fits(v, levels) && levels <= more
    ensures Fits(v, more)
    decreases v
  {
    match v
    case Items(items) =>
      forall i | 0 <= i < |items| ensures Fits(items[i], more - 1) { FitsMore(items[i], levels - 1, more - 1); }
    case Members(members) =>
      forall i | 0 <= i < |members| ensures PlainText(members[i].key) && Fits(members[i].value, more - 1) {
        FitsMore(members[i].value, levels - 1, more - 1);
      }
    case _ =>
  }

  /** Two values in the same place, each followed by something that ends it, are equal if the whole
      texts are. */
  lemma SplitValue(v: Value, a: string, w: Value, b: string, depth: nat)
    requires depth < DEPTH_LIMIT && Fits(v, DEPTH_LIMIT - depth) && Fits(w, DEPTH_LIMIT - depth)
    requires Delimits(a) && Delimits(b) && Print(v) + a == Print(w) + b
    ensures Print(v) == Print(w) && a == b
  {
    ValueParses(v, a, depth);
    ValueParses(w, b, depth);
    SameEnds(Print(v), Print(w), a);
  }

  lemma SameEnds(x: string, y: string, rest: string)
    requires x + rest == y + rest
    ensures x == y
  {
    assert |x| == |y|;
    assert (x + rest)[..|x|] == x && (y + rest)[..|y|] == y;
  }

  /** No two well-formed values are printed alike: a reader can get the value back. */
  lemma {:induction false} PrintInjective(v: Value, w: Value, depth: nat)
    requires depth < DEPTH_LIMIT && Fits(v, DEPTH_LIMIT - depth) && Fits(w, DEPTH_LIMIT - depth)
    requires Print(v) == Print(w)
    ensures v == w
    decreases v, 1
  {
    FitsMore(v, DEPTH_LIMIT - depth, DEPTH_LIMIT);
    FitsMore(w, DEPTH_LIMIT - depth, DEPTH_LIMIT);
    LeafStarts(v);
    LeafStarts(w);
    match v
    case Items(items) =>
      SameInner("[", PrintItems(items), PrintItems(w.items), "]");
      ItemsInjective(items, w.items, depth + 1);
    case Members(members) =>
      SameInner("{", PrintMembers(members), PrintMembers(w.members), "}");
      MembersInjective(members, w.members, depth + 1);
    case _ => LeafInjective(v, w);
  }

  lemma SameInner(left: string, x: string, y: string, right: string)
    requires left + x + right == left + y + right
    ensures x == y
  {
    SameEnds(left + x, left + y, right);
    assert (left + x)[|left|..] == x && (left + y)[|left|..] == y;
  }

  lemma {:induction false} ItemsInjective(a: seq<Value>, b: seq<Value>, depth: nat)
    requires depth <= DEPTH_LIMIT
    requires forall i :: 0 <= i < |a| ==> Fits(a[i], DEPTH_LIMIT - depth)
    requires forall i :: 0 <= i < |b| ==> Fits(b[i], DEPTH_LIMIT - depth)
    requires PrintItems(a) == PrintItems(b)
    ensures a == b
    decreases a, 0
  {
    if a != [] { ItemsParse(a, [], depth); }
    if b != [] { ItemsParse(b, [], depth); }
    if a != [] {
      assert Fits(a[0], DEPTH_LIMIT - depth) && Fits(b[0], DEPTH_LIMIT - depth);
      var restA := if |a| == 1 then [] else "," + PrintItems(a[1..]);
      var restB := if |b| == 1 then [] else "," + PrintItems(b[1..]);
      SplitValue(a[0], restA, b[0], restB, depth);
      PrintInjective(a[0], b[0], depth);
      if |a| > 1 {
        assert restA[1..] == PrintItems(a[1..]) && restB[1..] == PrintItems(b[1..]);
        ItemsInjective(a[1..], b[1..], depth);
        assert a == [a[0]] + a[1..] && b == [b[0]] + b[1..];
      } else {
        assert a == [a[0]] && b == [b[0]];
      }
    }
  }

  lemma SameTails(first: string, x: string, y: string)
    requires first + x == first + y
    ensures x == y
  {
    assert (first + x)[|first|..] == x && (first + y)[|first|..] == y;
  }

  /** Members with the same text, up to what ends them, have the same key and the same value. */
  lemma SplitMember(m: Member, a: string, n: Member, b: string, depth: nat)
    requires PlainText(m.key) && PlainText(n.key) && depth < DEPTH_LIMIT
    requires Fits(m.value, DEPTH_LIMIT - depth) && Fits(n.value, DEPTH_LIMIT - depth)
    requires Delimits(a) && Delimits(b) && PrintMember(m) + a == PrintMember(n) + b
    ensures m.key == n.key && Print(m.value) == Print(n.value) && a == b
  {
    MemberParses(m, a, depth);
    MemberParses(n, b, depth);
    SameTails(":", Print(m.value) + a, Print(n.value) + b);
    SplitValue(m.value, a, n.value, b, depth);
    SameEnds(PrintMember(m), PrintMember(n), a);
    SameKeys(m.key, n.key, Print(m.value));
  }

  lemma SameKeys(x: string, y: string, value: string)
    requires "\"" + x + "\":" + value == "\"" + y + "\":" + value
    ensures x == y
  {
    SameEnds("\"" + x + "\":", "\"" + y + "\":", value);
    SameInner("\"", x, y, "\":");
  }

  lemma {:induction false} MembersInjective(a: seq<Member>, b: seq<Member>, depth: nat)
    requires depth <= DEPTH_LIMIT
    requires forall i :: 0 <= i < |a| ==> PlainText(a[i].key) && Fits(a[i].value, DEPTH_LIMIT - depth)
    requires forall i :: 0 <= i < |b| ==> PlainText(b[i].key) && Fits(b[i].value, DEPTH_LIMIT - depth)
    requires PrintMembers(a) == PrintMembers(b)
    ensures a == b
    decreases a, 0
  {
    if a != [] { MembersParse(a, [], depth); }
    if b != [] { MembersParse(b, [], depth); }
    if a != [] {
      assert Fits(a[0].value, DEPTH_LIMIT - depth) && Fits(b[0].value, DEPTH_LIMIT - depth);
      var restA := if |a| == 1 then [] else "," + PrintMembers(a[1..]);
      var restB := if |b| == 1 then [] else "," + PrintMembers(b[1..]);
      SplitMember(a[0], restA, b[0], restB, depth);
      PrintInjective(a[0].value, b[0].value, depth);
      if |a| > 1 {
        assert restA[1..] == PrintMembers(a[1..]) && restB[1..] == PrintMembers(b[1..]);
        MembersInjective(a[1..], b[1..], depth);
        assert a == [a[0]] + a[1..] && b == [b[0]] + b[1..];
      } else {
        assert a == [a[0]] && b == [b[0]];
      }
    }
  }

  // ----- one line

  /** No control byte, so in particular no newline. */
  ghost predicate OneLine(text: string) {
    forall i :: 0 <= i < |text| ==> ' ' <= text[i]
  }

  lemma {:induction false} EscapedOneLine(text: string)
    ensures OneLine(EscapeAll(text))
  {
    if text != [] { EscapedOneLine(text[1..]); }
  }

  lemma {:induction false} DigitsOneLine(n: nat)
    ensures OneLine(Digits(n))
  {
    if n >= 10 { DigitsOneLine(n / 10); }
  }

  /** A printed value never contains a raw newline. */
  lemma {:induction false} PrintedOneLine(v: Value, levels: nat)
    requires Fits(v, levels)
    ensures OneLine(Print(v))
    decreases v, 1
  {
    match v
    case Str(text) => EscapedOneLine(text);
    case Number(n) => DigitsOneLine(if n < 0 then -n else n);
    case Items(items) => ItemsOneLine(items, levels - 1);
    case Members(members) => MembersOneLine(members, levels - 1);
    case _ =>
  }

  lemma {:induction false} ItemsOneLine(items: seq<Value>, levels: nat)
    requires forall i :: 0 <= i < |items| ==> Fits(items[i], levels)
    ensures OneLine(PrintItems(items))
    decreases items, 0
  {
    if items != [] {
      PrintedOneLine(items[0], levels);
      ItemsOneLine(items[1..], levels);
    }
  }

  lemma {:induction false} MembersOneLine(members: seq<Member>, levels: nat)
    requires forall i :: 0 <= i < |members| ==> PlainText(members[i].key) && Fits(members[i].value, levels)
    ensures OneLine(PrintMembers(members))
    decreases members, 0
  {
    if members != [] {
      PrintedOneLine(members[0].value, levels);
      MembersOneLine(members[1..], levels);
    }
  }
}
