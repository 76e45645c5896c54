/** The recursive-descent validator over a cursor (tests/ndjson_validator.c). */
module Validator {
  import opened Bits
  import Json

  ghost predicate AllHex(t: string, n: nat)
    requires n <= |t|
  {
    forall i :: 0 <= i < n ==> Json.HexValue(t[i]).Some?
  }

  /** One escape inside a string, seen from behind its backslash. */
  lemma EscapeStep(t: string)
    ensures Json.StringBody("\\" + t) ==
            if t == [] then None
            else if t[0] == 'u' then if |t[1..]| >= 4 && AllHex(t[1..], 4) then Json.StringBody(t[1..][4..]) else None
            else if Json.ShortEscape(t[0]) then Json.StringBody(t[1..])
            else None
  {
    if t != [] && t[0] == 'u' {
      HexStep(t[1..]);
      assert "\\" + t == "\\u" + t[1..];
    } else if t != [] {
      assert ("\\" + t)[2..] == t[1..];
    }
  }

  /** The same from behind a backslash and a u. */
  lemma HexStep(t: string)
    ensures Json.StringBody("\\u" + t) == if |t| >= 4 && AllHex(t, 4) then Json.StringBody(t[4..]) else None
  {
    var all := "\\u" + t;
    assert all[0] == '\\' && all[1] == 'u';
    if |t| >= 4 {
      assert all[6..] == t[4..];
      FourDigits(all, t);
    }
  }

  lemma FourDigits(all: string, t: string)
    requires |t| >= 4 && |all| >= 6 && all[2] == t[0] && all[3] == t[1] && all[4] == t[2] && all[5] == t[3]
    ensures Json.FourHex(all) <==> AllHex(t, 4)
  {
    if Json.FourHex(all) {
      forall i | 0 <= i < 4 ensures Json.HexValue(t[i]).Some? {}
    }
  }

  class Parser {
    const text: string
    var cursor: nat
    var depth: nat

    ghost predicate Valid()
      reads this
    {
      cursor <= |text| && 0 as char !in text
    }

    /** What is left to read. */
    ghost function Rest(): string
      reads this
      requires Valid()
    {
      text[cursor..]
    }

    constructor (line: string)
      requires 0 as char !in line
      ensures Valid() && Rest() == line && depth == 0 && text == line
    {
      text, cursor, depth := line, 0, 0;
    }

    /** The byte under the cursor; the text ends with a NUL. */
    function Current(): (c: char)
      reads this
      requires Valid()
      ensures c == Json.Head(Rest())
      ensures c == 0 as char <==> cursor == |text|
    {
      if cursor < |text| then text[cursor] else 0 as char
    }

    method Advance()
      requires Valid() && cursor < |text|
      modifies `cursor
      ensures Valid() && cursor == old(cursor) + 1 && Rest() == old(Rest())[1..]
    {
      cursor := cursor + 1;
    }

    /** skip_space. */
    method SkipSpace()
      requires Valid()
      modifies `cursor
      ensures Valid() && cursor >= old(cursor)
      ensures Rest() == Json.SkipSpace(old(Rest()))
    {
      while Json.IsSpace(Current())
        invariant Valid() && cursor >= old(cursor)
        invariant Json.SkipSpace(Rest()) == Json.SkipSpace(old(Rest()))
        decreases |text| - cursor
      {
        Advance();
      }
    }

    /** The four digits after a backslash and a u. */
    method ParseHex() returns (ok: bool)
      requires Valid()
      modifies `cursor
      ensures Valid() && cursor >= old(cursor)
      ensures ok <==> |old(Rest())| >= 4 && AllHex(old(Rest()), 4)
      ensures ok ==> Rest() == old(Rest())[4..]
    {
      ghost var was := Rest();
      var index := 0;
      while index < 4
        invariant Valid() && cursor >= old(cursor) && index <= 4 && |was| >= index
        invariant Rest() == was[index..] && AllHex(was, index)
      {
        if Json.HexValue(Current()).None? {
          assert |was| > index ==> Current() == was[index];
          return false;
        }
        Advance();
        index := index + 1;
      }
      ok := true;
    }

    /** The part of parse_string after a backslash. */
    method ParseEscape() returns (ok: bool)
      requires Valid()
      modifies `cursor
      ensures Valid() && cursor >= old(cursor)
      ensures Json.StringBody("\\" + old(Rest())) == if ok then Json.StringBody(Rest()) else None
    {
      EscapeStep(Rest());
      if cursor == |text| {
        return false;
      }
      var escape := Current();
      Advance();
      if escape == 'u' {
        ok := ParseHex();
      } else {
        ok := Json.ShortEscape(escape);
      }
    }

    /** parse_string. */
    method ParseString() returns (ok: bool)
      requires Valid()
      modifies `cursor
      ensures Valid() && cursor >= old(cursor)
      ensures Json.ParseString(old(Rest())) == if ok then Some(Rest()) else None
    {
      if Current() != '"' {
        return false;
      }
      Advance();
      ghost var body := Json.StringBody(Rest());
      while Current() != 0 as char && Current() != '"'
        invariant Valid() && cursor >= old(cursor)
        invariant Json.StringBody(Rest()) == body
        decreases |text| - cursor
      {
        ghost var was := Rest();
        var byte := Current();
        Advance();
        if byte < ' ' {
          return false;
        }
        if byte == '\\' {
          assert was == "\\" + Rest();
          ok := ParseEscape();
          if !ok {
            return false;
          }
        }
      }
      if Current() != '"' {
        return false;
      }
      Advance();
      ok := true;
    }

    method SkipDigits()
      requires Valid()
      modifies `cursor
      ensures Valid() && cursor >= old(cursor)
      ensures Rest() == Json.SkipDigits(old(Rest()))
    {
      while Json.IsDigit(Current())
        invariant Valid() && cursor >= old(cursor)
        invariant Json.SkipDigits(Rest()) == Json.SkipDigits(old(Rest()))
        decreases |text| - cursor
      {
        Advance();
      }
    }

    /** At least one digit. */
    method ParseDigits() returns (ok: bool)
      requires Valid()
      modifies `cursor
      ensures Valid() && cursor >= old(cursor)
      ensures Json.ParseDigits(old(Rest())) == if ok then Some(Rest()) else None
    {
      ok := Json.IsDigit(Current());
      if ok {
        SkipDigits();
      }
    }

    method ParseFraction() returns (ok: bool)
      requires Valid()
      modifies `cursor
      ensures Valid() && cursor >= old(cursor)
      ensures Json.ParseFraction(old(Rest())) == if ok then Some(Rest()) else None
    {
      ok := true;
      if Current() == '.' {
        Advance();
        ok := ParseDigits();
      }
    }

    method ParseExponent() returns (ok: bool)
      requires Valid()
      modifies `cursor
      ensures Valid() && cursor >= old(cursor)
      ensures Json.ParseExponent(old(Rest())) == if ok then Some(Rest()) else None
    {
      ok := true;
      if Current() == 'e' || Current() == 'E' {
        Advance();
        if Current() == '+' || Current() == '-' {
          Advance();
        }
        ok := ParseDigits();
      }
    }

    /** parse_number. */
    method ParseNumber() returns (ok: bool)
      requires Valid()
      modifies `cursor
      ensures Valid() && cursor >= old(cursor)
      ensures Json.ParseNumber(old(Rest())) == if ok then Some(Rest()) else None
    {
      if Current() == '-' {
        Advance();
      }
      if Current() == '0' {
        Advance();
      } else {
        ok := ParseDigits();
        if !ok {
          return;
        }
      }
      ok := ParseFraction();
      if ok {
        ok := ParseExponent();
      }
    }

    /** parse_array. */
    method ParseArray() returns (ok: bool)
      requires Valid() && Current() == '[' && 0 < depth <= Json.DEPTH_LIMIT
      modifies this
      ensures Valid() && cursor >= old(cursor)
      ensures Json.ParseValue(old(Rest()), old(depth) - 1) == if ok then Some(Rest()) else None
      ensures ok ==> depth == old(depth)
      ensures depth >= old(depth)
      decreases |text| - cursor, 0
    {
      Advance();
      SkipSpace();
      if Current() == ']' {
        Advance();
        return true;
      }
      ghost var items := Json.ParseItems(Rest(), depth);
      while true
        invariant Valid() && cursor > old(cursor) && depth == old(depth)
        invariant Json.ParseItems(Rest(), depth) == items
        decreases |text| - cursor
      {
        ok := ParseValue();
        if !ok {
          return;
        }
        SkipSpace();
        if Current() == ']' {
          Advance();
          return true;
        }
        if Current() != ',' {
          return false;
        }
        Advance();
        SkipSpace();
      }
    }

    /** The part of parse_object up to the value of a member. */
    method ParseKey() returns (ok: bool)
      requires Valid()
      modifies `cursor
      ensures Valid() && cursor >= old(cursor)
      ensures ok ==> cursor > old(cursor)
      ensures var key := Json.ParseString(old(Rest()));
              if key.None? then !ok
              else var colon := Json.SkipSpace(key.value);
                   && (ok <==> Json.Head(colon) == ':')
                   && (ok ==> colon != [] && Rest() == Json.SkipSpace(colon[1..]))
    {
      ok := ParseString();
      if !ok {
        return;
      }
      SkipSpace();
      if Current() != ':' {
        return false;
      }
      Advance();
      SkipSpace();
    }

    /** parse_object. */
    method ParseObject() returns (ok: bool)
      requires Valid() && Current() == '{' && 0 < depth <= Json.DEPTH_LIMIT
      modifies this
      ensures Valid() && cursor >= old(cursor)
      ensures Json.ParseValue(old(Rest()), old(depth) - 1) == if ok then Some(Rest()) else None
      ensures ok ==> depth == old(depth)
      ensures depth >= old(depth)
      decreases |text| - cursor, 0
    {
      Advance();
      SkipSpace();
      if Current() == '}' {
        Advance();
        return true;
      }
      ghost var members := Json.ParseMembers(Rest(), depth);
      while true
        invariant Valid() && cursor > old(cursor) && depth == old(depth)
        invariant Json.ParseMembers(Rest(), depth) == members
        decreases |text| - cursor
      {
        ok := ParseKey();
        if !ok {
          return;
        }
        ok := ParseValue();
        if !ok {
          return;
        }
        SkipSpace();
        if Current() == '}' {
          Advance();
          return true;
        }
        if Current() != ',' {
          return false;
        }
        Advance();
        SkipSpace();
      }
    }

    /** strncmp with a literal, and the step over it. */
    method Skip(word: string) returns (ok: bool)
      requires Valid()
      modifies `cursor
      ensures Valid() && cursor >= old(cursor)
      ensures ok <==> word <= old(Rest())
      ensures Rest() == if ok then old(Rest())[|word|..] else old(Rest())
    {
      ok := word <= text[cursor..];
      if ok {
        cursor := cursor + |word|;
      }
    }

    /** parse_value. */
    method ParseValue() returns (ok: bool)
      requires Valid()
      modifies this
      ensures Valid() && cursor >= old(cursor)
      ensures Json.ParseValue(old(Rest()), old(depth)) == if ok then Some(Rest()) else None
      ensures ok ==> depth == old(depth) && cursor > old(cursor)
      ensures depth >= old(depth)
      decreases |text| - cursor, 1
    {
      depth := depth + 1;
      if depth > Json.DEPTH_LIMIT {
        return false;
      }
      if Current() == '"' {
        ok := ParseString();
      } else if Current() == '{' {
        ok := ParseObject();
      } else if Current() == '[' {
        ok := ParseArray();
      } else {
        ok := Skip("true");
        if !ok { ok := Skip("false"); }
        if !ok { ok := Skip("null"); }
        if !ok { ok := ParseNumber(); }
      }
      depth := depth - 1;
    }
  }

  /** valid_json_line. */
  method Validate(line: string) returns (ok: bool)
    requires 0 as char !in line
    ensures ok == Json.ValidJsonLine(line)
  {
    var parser := new Parser(line);
    parser.SkipSpace();
    ok := parser.ParseValue();
    if ok {
      parser.SkipSpace();
      ok := parser.Current() == 0 as char;
    }
  }
}
