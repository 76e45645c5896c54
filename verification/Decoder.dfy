/** Escaping and flag decomposition of the decoder (src/decoder.c). */
module Decoder {
  import opened Bits
  import Json

  // ----- escaped byte strings

  ghost predicate Bytes(data: string) {
    forall i :: 0 <= i < |data| ==> data[i] as int < 256
  }

  /** One byte inside the quotes; printable means 0x20 to 0x7e. */
  function Escape(c: char): string
    requires c as int < 256
  {
    if c == '\\' then "\\\\"
    else if c == '"' then "\\\""
    else if c == '\n' then "\\n"
    else if c == '\r' then "\\r"
    else if c == '\t' then "\\t"
    else if c == 0 as char then "\\0"
    else if ' ' <= c <= '~' then [c]
    else ['\\', 'x', Json.HexDigit(c as nat / 16), Json.HexDigit(c as nat % 16)]
  }

  function EscapeAll(data: string): string
    requires Bytes(data)
  {
    if data == [] then [] else Escape(data[0]) + EscapeAll(data[1..])
  }

  lemma {:induction false} EscapeAppends(data: string, c: char)
    requires Bytes(data) && c as int < 256
    ensures Bytes(data + [c]) && EscapeAll(data + [c]) == EscapeAll(data) + Escape(c)
  {
    if data == [] {
      assert data + [c] == [c];
      assert [c][1..] == [];
    } else {
      EscapeAppends(data[1..], c);
      assert (data + [c])[1..] == data[1..] + [c];
    }
  }

  /** append_escaped. */
  method AppendEscaped(buffer: string, data: string) returns (r: string)
    requires Bytes(data)
    ensures r == buffer + Rendered(data)
  {
    var start := buffer + "\"";
    r := start;
    for i := 0 to |data|
      invariant r == start + EscapeAll(data[..i])
    {
      EscapeAppends(data[..i], data[i]);
      assert data[..i + 1] == data[..i] + [data[i]];
      var piece := Escape(data[i]);
      Json.Associate(start, EscapeAll(data[..i]), piece);
      r := r + piece;
    }
    assert data[..|data|] == data;
    r := r + "\"";
    assert r == buffer + Rendered(data);
  }

  datatype Reading = Reading(data: string, rest: string)

  function Cons(c: char, r: Option<Reading>): Option<Reading> {
    match r case Some(x) => Some(Reading([c] + x.data, x.rest)) case None => None
  }

  /** Reads an escaped string from behind its opening quote, up to and including the closing one. */
  function Read(t: string): Option<Reading> {
    if t == [] then None
    else if t[0] == '"' then Some(Reading([], t[1..]))
    else if t[0] != '\\' then Cons(t[0], Read(t[1..]))
    else if |t| < 2 then None
    else if t[1] == 'x' then
      if |t| < 4 then None
      else
        var a, b := Json.HexValue(t[2]), Json.HexValue(t[3]);
        if a.Some? && b.Some? then Cons((16 * a.value + b.value) as char, Read(t[4..])) else None
    else if t[1] in "\\\"nrt0" then Cons(Meant(t[1]), Read(t[2..]))
    else None
  }

  /** The byte that a backslash and `c` stand for. */
  function Meant(c: char): char {
    match c
    case 'n' => '\n'
    case 'r' => '\r'
    case 't' => '\t'
    case '0' => 0 as char
    case _ => c
  }

  lemma ReadHexByte(high: nat, low: nat, more: string)
    requires high < 16 && low < 16
    ensures Read(['\\', 'x', Json.HexDigit(high), Json.HexDigit(low)] + more) ==
            Cons((16 * high + low) as char, Read(more))
  {
    var t := ['\\', 'x', Json.HexDigit(high), Json.HexDigit(low)] + more;
    assert t[4..] == more;
    Json.HexDigitReads(high);
    Json.HexDigitReads(low);
  }

  lemma ReadShort(c: char, more: string)
    requires c in "\\\"nrt0"
    ensures Read(['\\', c] + more) == Cons(Meant(c), Read(more))
  {
    assert (['\\', c] + more)[2..] == more;
  }

  /** The letter that stands for a byte with a short escape. */
  function Name(c: char): (n: char)
    ensures c in "\\\"\n\r\t" || c == 0 as char ==> n in "\\\"nrt0" && Meant(n) == c
  {
    if c == '\n' then 'n' else if c == '\r' then 'r' else if c == '\t' then 't' else if c == 0 as char then '0' else c
  }

  lemma ReadOne(c: char, more: string)
    requires c as int < 256
    ensures Read(Escape(c) + more) == Cons(c, Read(more))
  {
    var e := Escape(c);
    if c in "\\\"\n\r\t" || c == 0 as char {
      var name := Name(c);
      assert e == ['\\', name];
      ReadShort(name, more);
    } else if ' ' <= c <= '~' {
      assert e == [c] && (e + more)[1..] == more;
    } else {
      ReadHexByte(c as nat / 16, c as nat % 16, more);
    }
  }

  /** Escaping is a uniquely decodable code: whatever follows, reading gives the bytes back and stops
      at the closing quote. */
  lemma {:induction false} EscapedReadsBack(data: string, rest: string)
    requires Bytes(data)
    ensures Read(EscapeAll(data) + ("\"" + rest)) == Some(Reading(data, rest))
  {
    var tail := "\"" + rest;
    if data == [] {
      assert EscapeAll(data) + tail == tail && tail[1..] == rest;
    } else {
      EscapedReadsBack(data[1..], rest);
      Json.Associate(Escape(data[0]), EscapeAll(data[1..]), tail);
      ReadOne(data[0], EscapeAll(data[1..]) + tail);
      assert [data[0]] + data[1..] == data;
    }
  }

  /** The rendering, quotes included. */
  function Rendered(data: string): string
    requires Bytes(data)
  {
    "\"" + EscapeAll(data) + "\""
  }

  function ReadQuoted(t: string): Option<Reading> {
    if t != [] && t[0] == '"' then Read(t[1..]) else None
  }

  lemma RenderedReadsBack(data: string, rest: string)
    requires Bytes(data)
    ensures ReadQuoted(Rendered(data) + rest) == Some(Reading(data, rest))
  {
    EscapedReadsBack(data, rest);
    assert (Rendered(data) + rest)[1..] == EscapeAll(data) + ("\"" + rest);
  }

  /** Out of the text of a JSON string. */
  function ReadFromJson(t: string): Option<Reading> {
    match Json.Unescape(t) case Some(text) => ReadQuoted(text) case None => None
  }

  /** The same through a JSON string: undoing the JSON escapes and then the decoder's gives the
      bytes back. */
  lemma RenderedReadsBackFromJson(data: string, rest: string)
    requires Bytes(data)
    ensures ReadFromJson(Json.EscapeAll(Rendered(data) + rest)) == Some(Reading(data, rest))
  {
    RenderedReadsBack(data, rest);
    Json.StringRoundTrip(Rendered(data) + rest);
  }

  // ----- flags

  datatype Flag = Flag(value: nat, name: string)

  /** The named flags found in a word, and the bits no name covers. */
  datatype Parts = Parts(flags: seq<Flag>, residual: nat)

  function Peel(remaining: nat, names: seq<Flag>): Parts {
    if names == [] then Parts([], remaining)
    else
      var f := names[0];
      if f.value != 0 && And(remaining, f.value) == f.value then
        var p := Peel(AndNot(remaining, f.value), names[1..]);
        Parts([f] + p.flags, p.residual)
      else Peel(remaining, names[1..])
  }

  /** All bits of `x` are in `y`. */
  ghost predicate Within(x: nat, y: nat) { And(y, x) == x }

  ghost predicate Disjoint(x: nat, y: nat) { And(x, y) == 0 }

  function Union(flags: seq<Flag>, residual: nat): nat {
    if flags == [] then residual else Or(flags[0].value, Union(flags[1..], residual))
  }

  lemma WithinBit(x: nat, y: nat, i: nat)
    requires Within(x, y) && Bit(x, i)
    ensures Bit(y, i)
  {
    AndBits(y, x, i);
  }

  lemma WithinFromBits(x: nat, y: nat)
    requires forall i: nat :: Bit(x, i) ==> Bit(y, i)
    ensures Within(x, y)
  {
    forall i: nat ensures Bit(And(y, x), i) == Bit(x, i) { AndBits(y, x, i); }
    SameBits(And(y, x), x);
  }

  lemma DisjointFromBits(x: nat, y: nat)
    requires forall i: nat :: !(Bit(x, i) && Bit(y, i))
    ensures Disjoint(x, y)
  {
    forall i: nat ensures Bit(And(x, y), i) == Bit(0, i) {
      AndBits(x, y, i);
      ZeroHasNoBits(i);
    }
    SameBits(And(x, y), 0);
  }

  lemma WithinTransitive(x: nat, y: nat, z: nat)
    requires Within(x, y) && Within(y, z)
    ensures Within(x, z)
  {
    forall i: nat ensures Bit(x, i) ==> Bit(z, i) {
      if Bit(x, i) {
        WithinBit(x, y, i);
        WithinBit(y, z, i);
      }
    }
    WithinFromBits(x, z);
  }

  lemma WithinItself(x: nat)
    ensures Within(x, x)
  {
    AndSelf(x);
  }

  /** Clearing a flag that is there splits the word in two. */
  lemma ClearSplits(word: nat, flag: nat)
    requires Within(flag, word)
    ensures Within(AndNot(word, flag), word) && Or(flag, AndNot(word, flag)) == word
  {
    var rest := AndNot(word, flag);
    forall i: nat ensures (Bit(rest, i) <==> Bit(word, i) && !Bit(flag, i)) && (Bit(flag, i) ==> Bit(word, i)) {
      AndNotBits(word, flag, i);
      if Bit(flag, i) { WithinBit(flag, word, i); }
    }
    WithinFromBits(rest, word);
    forall i: nat ensures Bit(Or(flag, rest), i) == Bit(word, i) { OrBits(flag, rest, i); }
    SameBits(Or(flag, rest), word);
  }

  /** What lies within the cleared word does not meet the flag. */
  lemma ClearedDisjoint(word: nat, flag: nat, x: nat)
    requires Within(x, AndNot(word, flag))
    ensures Disjoint(flag, x)
  {
    forall i: nat ensures !(Bit(flag, i) && Bit(x, i)) {
      AndNotBits(word, flag, i);
      if Bit(x, i) { WithinBit(x, AndNot(word, flag), i); }
    }
    DisjointFromBits(flag, x);
  }

  lemma {:induction false} PeelWithin(word: nat, names: seq<Flag>)
    ensures var p := Peel(word, names);
            && Within(p.residual, word)
            && forall k :: 0 <= k < |p.flags| ==> p.flags[k] in names && p.flags[k].value != 0 && Within(p.flags[k].value, word)
  {
    if names == [] {
      WithinItself(word);
    } else {
      var f, p := names[0], Peel(word, names);
      if f.value != 0 && And(word, f.value) == f.value {
        var rest := AndNot(word, f.value);
        ClearSplits(word, f.value);
        PeelWithin(rest, names[1..]);
        var q := Peel(rest, names[1..]);
        WithinTransitive(q.residual, rest, word);
        forall k | 0 <= k < |p.flags|
          ensures p.flags[k] in names && p.flags[k].value != 0 && Within(p.flags[k].value, word)
        {
          if k > 0 {
            assert p.flags[k] == q.flags[k - 1];
            WithinTransitive(q.flags[k - 1].value, rest, word);
          }
        }
      } else {
        PeelWithin(word, names[1..]);
      }
    }
  }

  /** Nothing is lost: the flags and the residual together are the word. */
  lemma {:induction false} PeelExact(word: nat, names: seq<Flag>)
    ensures var p := Peel(word, names); Union(p.flags, p.residual) == word
  {
    if names != [] {
      var f := names[0];
      if f.value != 0 && And(word, f.value) == f.value {
        var q := Peel(AndNot(word, f.value), names[1..]);
        PeelExact(AndNot(word, f.value), names[1..]);
        ClearSplits(word, f.value);
        assert ([f] + q.flags)[1..] == q.flags;
      } else {
        PeelExact(word, names[1..]);
      }
    }
  }

  ghost predicate PartsDisjoint(p: Parts) {
    && (forall j, k :: 0 <= j < k < |p.flags| ==> Disjoint(p.flags[j].value, p.flags[k].value))
    && (forall j :: 0 <= j < |p.flags| ==> Disjoint(p.flags[j].value, p.residual))
  }

  /** Nothing is said twice: no two parts share a bit. */
  lemma {:induction false} PeelDisjoint(word: nat, names: seq<Flag>)
    ensures PartsDisjoint(Peel(word, names))
  {
    if names != [] {
      var f, p := names[0], Peel(word, names);
      if f.value != 0 && And(word, f.value) == f.value {
        var rest := AndNot(word, f.value);
        var q := Peel(rest, names[1..]);
        PeelDisjoint(rest, names[1..]);
        PeelWithin(rest, names[1..]);
        assert p.flags[0] == f && forall k :: 1 <= k < |p.flags| ==> p.flags[k] == q.flags[k - 1];
        forall k | 1 <= k < |p.flags| ensures Disjoint(f.value, p.flags[k].value) {
          ClearedDisjoint(word, f.value, q.flags[k - 1].value);
        }
        ClearedDisjoint(word, f.value, p.residual);
      } else {
        PeelDisjoint(word, names[1..]);
        assert p == Peel(word, names[1..]);
      }
    }
  }

  /** Nothing nameable is left over: the residual contains no flag of the table whole. */
  lemma {:induction false} PeelMaximal(word: nat, names: seq<Flag>, k: nat)
    requires k < |names| && names[k].value != 0
    ensures !Within(names[k].value, Peel(word, names).residual)
  {
    var f, p := names[0], Peel(word, names);
    var taken := f.value != 0 && And(word, f.value) == f.value;
    var rest := if taken then AndNot(word, f.value) else word;
    if k > 0 {
      PeelMaximal(rest, names[1..], k - 1);
    } else if Within(f.value, p.residual) {
      PeelWithin(rest, names[1..]);
      WithinTransitive(f.value, p.residual, rest);
      if taken { ClearedDisjoint(word, f.value, f.value); }
      AndSelf(f.value);
      assert false;
    }
  }

  // ----- the text of a set of flags

  function Names(flags: seq<Flag>): seq<string> {
    if flags == [] then [] else Names(flags[..|flags| - 1]) + [flags[|flags| - 1].name]
  }

  /** The pieces with bars in between. */
  function Join(parts: seq<string>): string {
    if parts == [] then [] else if |parts| == 1 then parts[0]
    else Join(parts[..|parts| - 1]) + "|" + parts[|parts| - 1]
  }

  function Pieces(p: Parts): seq<string> {
    Names(p.flags) + (if p.residual != 0 || p.flags == [] then ["0x" + Json.Hex(p.residual)] else [])
  }

  function FlagsText(value: nat, names: seq<Flag>, zero: Option<string>): string {
    if value == 0 && zero.Some? then zero.value else Join(Pieces(Peel(value, names)))
  }

  lemma NamesLength(flags: seq<Flag>)
    ensures |Names(flags)| == |flags|
  {
  }

  /** One more piece. */
  lemma JoinAppends(parts: seq<string>, part: string)
    ensures Join(parts + [part]) == Join(parts) + (if parts == [] then [] else "|") + part
  {
    var all := parts + [part];
    assert all[..|all| - 1] == parts;
    if parts == [] { assert Join(parts) + [] + part == part; }
  }

  lemma NamesAppend(flags: seq<Flag>, f: Flag)
    ensures Names(flags + [f]) == Names(flags) + [f.name]
  {
    assert (flags + [f])[..|flags|] == flags;
  }

  lemma PeelStep(remaining: nat, names: seq<Flag>, i: nat)
    requires i < |names|
    ensures var f := names[i];
            Peel(remaining, names[i..]) ==
            if f.value != 0 && And(remaining, f.value) == f.value then
              var p := Peel(AndNot(remaining, f.value), names[i + 1..]); Parts([f] + p.flags, p.residual)
            else Peel(remaining, names[i + 1..])
  {
    assert names[i..][0] == names[i] && names[i..][1..] == names[i + 1..];
  }

  lemma Regroup(a: seq<Flag>, f: Flag, b: seq<Flag>)
    ensures a + ([f] + b) == (a + [f]) + b
  {
  }

  /** append_flags. */
  method AppendFlags(buffer: string, value: nat, names: seq<Flag>, zero: Option<string>) returns (r: string)
    ensures r == buffer + FlagsText(value, names, zero)
  {
    if value == 0 && zero.Some? {
      return buffer + zero.value;
    }
    var remaining, wrote, text := value, false, "";
    ghost var chosen: seq<Flag> := [];
    for index := 0 to |names|
      invariant wrote <==> chosen != []
      invariant text == Join(Names(chosen))
      invariant Peel(value, names) ==
              Parts(chosen + Peel(remaining, names[index..]).flags, Peel(remaining, names[index..]).residual)
    {
      var f := names[index];
      PeelStep(remaining, names, index);
      if f.value != 0 && And(remaining, f.value) == f.value {
        NamesAppend(chosen, f);
        NamesLength(chosen);
        JoinAppends(Names(chosen), f.name);
        Regroup(chosen, f, Peel(AndNot(remaining, f.value), names[index + 1..]).flags);
        text := text + (if wrote then "|" else "") + f.name;
        remaining, wrote := AndNot(remaining, f.value), true;
        chosen := chosen + [f];
      }
    }
    assert chosen + [] == chosen;
    NamesLength(chosen);
    if remaining != 0 || !wrote {
      JoinAppends(Names(chosen), "0x" + Json.Hex(remaining));
      text := text + (if wrote then "|" else "") + ("0x" + Json.Hex(remaining));
    } else {
      assert Names(chosen) + [] == Names(chosen);
    }
    r := buffer + text;
  }

  // ----- reading the text back

  ghost predicate BarFree(part: string) { '|' !in part }

  /** The pieces between the bars. */
  function Split(text: string): (parts: seq<string>)
    ensures |parts| > 0
  {
    if text == [] then [[]]
    else
      var n := |text| - 1;
      var front := Split(text[..n]);
      if text[n] == '|' then front + [[]]
      else front[..|front| - 1] + [front[|front| - 1] + [text[n]]]
  }

  lemma {:induction false} SplitPiece(text: string, part: string)
    requires BarFree(part)
    ensures var front := Split(text);
            Split(text + part) == front[..|front| - 1] + [front[|front| - 1] + part]
  {
    var all, front := text + part, Split(text);
    if part == [] {
      assert all == text && front[|front| - 1] + [] == front[|front| - 1];
    } else {
      var n := |part| - 1;
      assert BarFree(part[..n]);
      SplitPiece(text, part[..n]);
      assert all[..|all| - 1] == text + part[..n] && all[|all| - 1] == part[n];
      assert part[..n] + [part[n]] == part;
      Json.Associate(front[|front| - 1], part[..n], [part[n]]);
    }
  }

  lemma AfterBar(text: string)
    ensures Split(text + "|") == Split(text) + [[]]
  {
    assert (text + "|")[..|text|] == text;
  }

  lemma LastPiece(parts: seq<string>, front: seq<string>, last: string)
    requires parts != [] && last == parts[|parts| - 1] && front == parts[..|parts| - 1] + [[]]
    ensures front[..|front| - 1] + [front[|front| - 1] + last] == parts
  {
    assert front[|front| - 1] + last == last;
  }

  lemma {:induction false} SplitJoin(parts: seq<string>)
    requires parts != [] && forall k :: 0 <= k < |parts| ==> BarFree(parts[k])
    ensures Split(Join(parts)) == parts
  {
    var n := |parts| - 1;
    var last := parts[n];
    if n == 0 {
      SplitPiece([], last);
      assert [] + last == last && Split([]) == [[]];
      assert parts == [last];
    } else {
      SplitJoin(parts[..n]);
      var t := Join(parts[..n]) + "|";
      AfterBar(Join(parts[..n]));
      SplitPiece(t, last);
      LastPiece(parts, Split(t), last);
    }
  }

  /** The value a name stands for. */
  function Lookup(names: seq<Flag>, name: string): nat {
    if names == [] then 0 else if names[0].name == name then names[0].value else Lookup(names[1..], name)
  }

  function ReadPiece(names: seq<Flag>, piece: string): nat {
    if "0x" <= piece then Json.ReadHex(piece[2..]) else Lookup(names, piece)
  }

  function ReadPieces(names: seq<Flag>, pieces: seq<string>): nat {
    if pieces == [] then 0 else Or(ReadPiece(names, pieces[0]), ReadPieces(names, pieces[1..]))
  }

  function ReadFlags(text: string, names: seq<Flag>, zero: Option<string>): nat {
    if zero == Some(text) then 0 else ReadPieces(names, Split(text))
  }

  ghost predicate ReadableName(name: string) { BarFree(name) && !("0x" <= name) }

  /** A table a reader can work with, as all the decoder's tables are: distinct names without a bar
      that do not look like a number, the name for zero among them. */
  ghost predicate Readable(names: seq<Flag>, zero: Option<string>) {
    && (forall k :: 0 <= k < |names| ==> ReadableName(names[k].name) && zero != Some(names[k].name))
    && (forall j, k :: 0 <= j < k < |names| ==> names[j].name != names[k].name)
    && (zero.Some? ==> ReadableName(zero.value))
  }

  lemma {:induction false} LookupFinds(names: seq<Flag>, f: Flag)
    requires f in names && forall j, k :: 0 <= j < k < |names| ==> names[j].name != names[k].name
    ensures Lookup(names, f.name) == f.value
  {
    var k :| 0 <= k < |names| && names[k] == f;
    if k > 0 {
      assert names[1..][k - 1] == f;
      LookupFinds(names[1..], f);
    }
  }

  lemma {:induction false} NamesAt(flags: seq<Flag>, k: nat)
    requires k < |flags|
    ensures |Names(flags)| == |flags| && Names(flags)[k] == flags[k].name
  {
    NamesLength(flags[..|flags| - 1]);
    if k < |flags| - 1 { NamesAt(flags[..|flags| - 1], k); }
  }

  /** Reading the pieces is taking the union. */
  lemma {:induction false} PiecesRead(names: seq<Flag>, flags: seq<Flag>, pieces: seq<string>, residual: nat)
    requires |flags| <= |pieces| && ReadPieces(names, pieces[|flags|..]) == residual
    requires forall k :: 0 <= k < |flags| ==> ReadPiece(names, pieces[k]) == flags[k].value
    ensures ReadPieces(names, pieces) == Union(flags, residual)
  {
    if flags != [] {
      assert pieces[1..][|flags[1..]|..] == pieces[|flags|..];
      PiecesRead(names, flags[1..], pieces[1..], residual);
    } else {
      assert pieces[0..] == pieces;
    }
  }

  lemma {:induction false} HexBarFree(n: nat)
    ensures BarFree(Json.Hex(n))
  {
    if n >= 16 { HexBarFree(n / 16); }
  }

  lemma ResidualReads(names: seq<Flag>, n: nat)
    ensures ReadPiece(names, "0x" + Json.Hex(n)) == n && BarFree("0x" + Json.Hex(n))
  {
    Json.HexRead(n);
    HexBarFree(n);
    assert ("0x" + Json.Hex(n))[2..] == Json.Hex(n);
  }

  lemma PieceReads(names: seq<Flag>, zero: Option<string>, f: Flag)
    requires Readable(names, zero) && f in names
    ensures ReadPiece(names, f.name) == f.value && ReadableName(f.name) && zero != Some(f.name)
  {
    LookupFinds(names, f);
  }

  /** What the pieces of a decomposition are, and what they read as; `end` shows the residual, or
      nothing if there is none. */
  lemma PartsRead(word: nat, names: seq<Flag>, zero: Option<string>, end: seq<string>)
    requires Readable(names, zero)
    requires var n := Peel(word, names).residual; end == ["0x" + Json.Hex(n)] || (n == 0 && end == [])
    ensures var pieces := Names(Peel(word, names).flags) + end;
            && (forall k :: 0 <= k < |pieces| ==> BarFree(pieces[k]) && zero != Some(pieces[k]))
            && ReadPieces(names, pieces) == word
  {
    var p := Peel(word, names);
    var pieces := Names(p.flags) + end;
    PeelWithin(word, names);
    NamesLength(p.flags);
    forall k | 0 <= k < |p.flags|
      ensures BarFree(pieces[k]) && zero != Some(pieces[k]) && ReadPiece(names, pieces[k]) == p.flags[k].value
    {
      NamesAt(p.flags, k);
      PieceReads(names, zero, p.flags[k]);
    }
    ResidualReads(names, p.residual);
    assert pieces[|p.flags|..] == end;
    TailReads(names, end, p.residual);
    PiecesRead(names, p.flags, pieces, p.residual);
    PeelExact(word, names);
  }

  lemma TailReads(names: seq<Flag>, tail: seq<string>, residual: nat)
    requires if tail == [] then residual == 0 else |tail| == 1 && ReadPiece(names, tail[0]) == residual
    ensures ReadPieces(names, tail) == residual
  {
    if tail != [] { assert tail[1..] == []; }
  }

  lemma {:induction false} JoinHasBar(parts: seq<string>)
    requires |parts| > 1
    ensures '|' in Join(parts)
  {
    var t := Join(parts[..|parts| - 1]);
    assert (t + "|" + parts[|parts| - 1])[|t|] == '|';
  }

  /** Rendering flags loses nothing: for every word and every readable table the text reads back as
      the word. */
  lemma FlagsReadBack(value: nat, names: seq<Flag>, zero: Option<string>)
    requires Readable(names, zero)
    ensures ReadFlags(FlagsText(value, names, zero), names, zero) == value
  {
    if value != 0 || zero.None? {
      var pieces := Pieces(Peel(value, names));
      var p := Peel(value, names);
      PartsRead(value, names, zero, if p.residual != 0 || p.flags == [] then ["0x" + Json.Hex(p.residual)] else []);
      NamesLength(p.flags);
      SplitJoin(pieces);
      if |pieces| > 1 { JoinHasBar(pieces); }
      assert zero != Some(Join(pieces));
    }
  }

  // ----- socket types

  const SOCK_NONBLOCK := 2048
  const SOCK_CLOEXEC := 524288

  /** The type proper: the low four bits of the low word. */
  function BaseOf(value: nat): nat { And(value % 0x1_0000_0000, 15) }

  function BaseName(base: nat): string {
    if base == 1 then "SOCK_STREAM" else if base == 2 then "SOCK_DGRAM" else if base == 3 then "SOCK_RAW"
    else if base == 5 then "SOCK_SEQPACKET" else Json.Digits(base)
  }

  function SocketFlags(): seq<Flag> { [Flag(SOCK_NONBLOCK, "SOCK_NONBLOCK"), Flag(SOCK_CLOEXEC, "SOCK_CLOEXEC")] }

  function SocketParts(value: nat): Parts { Peel(AndNot(value, 15), SocketFlags()) }

  function SocketPieces(value: nat): seq<string> {
    var p := SocketParts(value);
    [BaseName(BaseOf(value))] + Names(p.flags) + (if p.residual != 0 then ["0x" + Json.Hex(p.residual)] else [])
  }

  lemma SingleBits()
    ensures Pow2(11) == SOCK_NONBLOCK && Pow2(19) == SOCK_CLOEXEC && Pow2(4) == 16
  {
    Pow2Sum(8, 3);
    Pow2Sum(8, 11);
  }

  /** A test for any bit of a single-bit flag is a test for the whole flag. */
  lemma SingleBitTest(word: nat, n: nat)
    ensures And(word, Pow2(n)) != 0 <==> And(word, Pow2(n)) == Pow2(n)
  {
    if And(word, Pow2(n)) != 0 {
      TestBit(word, n);
      forall i: nat ensures Bit(And(word, Pow2(n)), i) == Bit(Pow2(n), i) {
        AndBits(word, Pow2(n), i);
        Pow2Bits(n, i);
      }
      SameBits(And(word, Pow2(n)), Pow2(n));
    }
  }

  /** The text so far shows the base and the `chosen` flags; `flags` and the `rest` of the table make
      up what is to come. */
  ghost predicate Progress(value: nat, text: string, flags: nat, chosen: seq<Flag>, rest: seq<Flag>) {
    && text == Join([BaseName(BaseOf(value))] + Names(chosen))
    && SocketParts(value) == Parts(chosen + Peel(flags, rest).flags, Peel(flags, rest).residual)
  }

  lemma ProgressMore(value: nat, text: string, flags: nat, chosen: seq<Flag>, f: Flag, rest: seq<Flag>)
    requires Progress(value, text, flags, chosen, [f] + rest) && f.value != 0 && And(flags, f.value) == f.value
    ensures Progress(value, text + "|" + f.name, AndNot(flags, f.value), chosen + [f], rest)
  {
    var base := [BaseName(BaseOf(value))];
    JoinAppends(base + Names(chosen), f.name);
    NamesAppend(chosen, f);
    assert base + Names(chosen) + [f.name] == base + Names(chosen + [f]);
    PeelStep(flags, [f] + rest, 0);
    assert ([f] + rest)[0..] == [f] + rest && ([f] + rest)[1..] == rest;
    Regroup(chosen, f, Peel(AndNot(flags, f.value), rest).flags);
  }

  /** The step for one single-bit flag. */
  method AppendSingle(text: string, flags: nat, f: Flag, ghost n: nat, ghost value: nat, ghost chosen: seq<Flag>,
                      ghost rest: seq<Flag>)
    returns (longer: string, fewer: nat, ghost more: seq<Flag>)
    requires f.value == Pow2(n) && Progress(value, text, flags, chosen, [f] + rest)
    ensures Progress(value, longer, fewer, more, rest)
  {
    SingleBitTest(flags, n);
    if And(flags, f.value) != 0 {
      ProgressMore(value, text, flags, chosen, f, rest);
      longer, fewer, more := text + "|" + f.name, AndNot(flags, f.value), chosen + [f];
    } else {
      assert ([f] + rest)[1..] == rest;
      longer, fewer, more := text, flags, chosen;
    }
  }

  /** append_socket_type. */
  method AppendSocketType(buffer: string, value: nat) returns (r: string)
    ensures r == buffer + Join(SocketPieces(value))
  {
    SingleBits();
    var nonblock, cloexec := Flag(SOCK_NONBLOCK, "SOCK_NONBLOCK"), Flag(SOCK_CLOEXEC, "SOCK_CLOEXEC");
    var flags, text := AndNot(value, 15), BaseName(BaseOf(value));
    assert SocketFlags() == [nonblock] + [cloexec];
    assert [BaseName(BaseOf(value))] + Names([]) == [BaseName(BaseOf(value))];
    ghost var chosen;
    text, flags, chosen := AppendSingle(text, flags, nonblock, 11, value, [], [cloexec]);
    assert [cloexec] + [] == [cloexec];
    text, flags, chosen := AppendSingle(text, flags, cloexec, 19, value, chosen, []);
    assert chosen + [] == chosen;
    ghost var shown := [BaseName(BaseOf(value))] + Names(chosen);
    if flags != 0 {
      JoinAppends(shown, "0x" + Json.Hex(flags));
      text := text + "|" + ("0x" + Json.Hex(flags));
    } else {
      assert shown + [] == shown;
    }
    r := buffer + text;
  }

  function ReadBase(piece: string): int {
    if piece == "SOCK_STREAM" then 1 else if piece == "SOCK_DGRAM" then 2 else if piece == "SOCK_RAW" then 3
    else if piece == "SOCK_SEQPACKET" then 5 else Json.ReadDigits(piece)
  }

  function ReadSocketType(text: string): nat {
    var pieces := Split(text);
    var base := ReadBase(pieces[0]);
    Or(if base < 0 then 0 else base, ReadPieces(SocketFlags(), pieces[1..]))
  }

  lemma AndOdd(x: nat, y: nat)
    requires y % 2 == 1
    ensures And(x, y) == 2 * And(x / 2, y / 2) + x % 2
  {
  }

  lemma Remainder(n: nat, q: nat, r: nat)
    requires n == 16 * q + r && r < 16
    ensures n % 16 == r
  {
  }

  /** The low four bits. */
  lemma LowNibble(n: nat)
    ensures And(n, 15) == n % 16
  {
    var a, b, c := n / 2, n / 2 / 2, n / 2 / 2 / 2;
    AndOdd(n, 15);
    AndOdd(a, 7);
    AndOdd(b, 3);
    AndOdd(c, 1);
    assert And(c / 2, 0) == 0;
    Remainder(n, c / 2, 8 * (c % 2) + 4 * (b % 2) + 2 * (a % 2) + n % 2);
  }

  lemma BaseIsNibble(value: nat)
    ensures BaseOf(value) == And(value, 15) < 16
  {
    LowNibble(value);
    LowNibble(value % 0x1_0000_0000);
    NibbleOfLow(value);
  }

  lemma NibbleOfLow(n: nat)
    ensures n % 0x1_0000_0000 % 16 == n % 16
  {
    var q, r := n / 0x1_0000_0000, n % 0x1_0000_0000;
    assert n == 16 * (0x1000_0000 * q) + r;
  }

  /** The type and the flags together are the word, and share no bit. */
  lemma SocketSplit(value: nat)
    ensures Or(BaseOf(value), AndNot(value, 15)) == value && Disjoint(BaseOf(value), AndNot(value, 15))
  {
    var base, flags := BaseOf(value), AndNot(value, 15);
    BaseIsNibble(value);
    forall i: nat ensures Bit(Or(base, flags), i) == Bit(value, i) && !(Bit(base, i) && Bit(flags, i)) {
      AndBits(value, 15, i);
      AndNotBits(value, 15, i);
      OrBits(base, flags, i);
    }
    SameBits(Or(base, flags), value);
    DisjointFromBits(base, flags);
  }

  lemma BaseReads(base: nat)
    requires base < 16
    ensures ReadBase(BaseName(base)) == base && BarFree(BaseName(base))
  {
    Json.DigitsRead(base);
    Json.DigitsParse(base, []);
    assert BarFree(Json.Digits(base)) by { if base >= 10 { assert Json.Digits(base / 10) == "1"; } }
  }

  lemma SocketTableReadable()
    ensures Readable(SocketFlags(), None)
  {
    assert "SOCK_NONBLOCK"[5] == 'N' && "SOCK_CLOEXEC"[5] == 'C';
    assert "SOCK_NONBLOCK"[0] == 'S' && "SOCK_CLOEXEC"[0] == 'S' && "0x"[0] == '0';
  }

  /** The pieces behind the first one. */
  lemma SocketTail(value: nat)
    ensures var tail := SocketPieces(value)[1..];
            && (forall k :: 0 <= k < |tail| ==> BarFree(tail[k]))
            && ReadPieces(SocketFlags(), tail) == AndNot(value, 15)
  {
    var p := SocketParts(value);
    var end := if p.residual != 0 then ["0x" + Json.Hex(p.residual)] else [];
    SocketTableReadable();
    PartsRead(AndNot(value, 15), SocketFlags(), None, end);
    assert SocketPieces(value)[1..] == Names(p.flags) + end;
  }

  /** Rendering a socket type loses nothing. */
  lemma SocketTypeReadsBack(value: nat)
    ensures ReadSocketType(Join(SocketPieces(value))) == value
  {
    var pieces := SocketPieces(value);
    BaseIsNibble(value);
    BaseReads(BaseOf(value));
    SocketTail(value);
    forall k | 0 <= k < |pieces| ensures BarFree(pieces[k]) {
      if k > 0 { assert pieces[k] == pieces[1..][k - 1]; }
    }
    SplitJoin(pieces);
    SocketSplit(value);
  }
}
