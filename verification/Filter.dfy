/** The syscall filter: a bit set over the syscall numbers, and its parser (src/filter.c). */
module Filters {
  import opened Bits
  import opened Catalog

  const WORD_BITS: nat := 64
  const WORDS: nat := 8

  ghost predicate ValidWords(words: seq<nat>) {
    |words| == WORDS && forall i :: 0 <= i < WORDS ==> words[i] < TWO_64
  }

  /** sg_filter_contains. */
  predicate Contains(words: seq<nat>, number: int)
    requires |words| == WORDS
  {
    if number < 0 || number >= SYSCALL_LIMIT then false
    else And(words[number / WORD_BITS], Pow2(number % WORD_BITS)) != 0
  }

  /** The numbers a filter selects. */
  ghost function Numbers(words: seq<nat>): set<int>
    requires |words| == WORDS
  {
    set n | 0 <= n < SYSCALL_LIMIT && Contains(words, n)
  }

  lemma ContainsBit(words: seq<nat>, number: int)
    requires |words| == WORDS && 0 <= number < SYSCALL_LIMIT
    ensures Contains(words, number) <==> Bit(words[number / WORD_BITS], number % WORD_BITS)
  {
    TestBit(words[number / WORD_BITS], number % WORD_BITS);
  }

  /** set_number on the bit set: membership of one number changes, nothing else. */
  lemma SetBitEffect(words: seq<nat>, number: int, after: seq<nat>, enabled: bool)
    requires ValidWords(words) && 0 <= number < SYSCALL_LIMIT
    requires var i, mask := number / WORD_BITS, Pow2(number % WORD_BITS);
             after == words[i := if enabled then Or(words[i], mask) else AndNot(words[i], mask)]
    ensures ValidWords(after)
    ensures Numbers(after) == if enabled then Numbers(words) + {number} else Numbers(words) - {number}
  {
    var i, offset := number / WORD_BITS, number % WORD_BITS;
    Pow2Of64();
    Pow2Monotone(offset + 1, 64);
    OrBound(words[i], Pow2(offset), 64);
    forall n | 0 <= n < SYSCALL_LIMIT
      ensures Contains(after, n) <==> if n == number then enabled else Contains(words, n)
    {
      ContainsBit(words, n);
      ContainsBit(after, n);
      if n / WORD_BITS == i {
        OrBits(words[i], Pow2(offset), n % WORD_BITS);
        AndNotBits(words[i], Pow2(offset), n % WORD_BITS);
        Pow2Bits(offset, n % WORD_BITS);
      }
    }
  }

  // ----- counting

  ghost function Below(words: seq<nat>, limit: nat): set<int>
    requires |words| == WORDS
  {
    set n | 0 <= n < limit && n in Numbers(words)
  }

  lemma ShiftedPositions(x: nat, base: nat, up: set<int>, n: int)
    requires up == (set p | p in Positions(x, 64) :: p + base)
    ensures n in up <==> base <= n < base + 64 && Bit(x, n - base)
  {
    if base <= n < base + 64 && Bit(x, n - base) { assert n - base in Positions(x, 64); }
  }

  lemma WordMembers(words: seq<nat>, i: nat, base: nat, n: int)
    requires ValidWords(words) && i < WORDS && base == 64 * i && base <= n < base + 64
    ensures n in Numbers(words) <==> Bit(words[i], n - base)
  {
    ContainsBit(words, n);
    assert n / 64 == i && n % 64 == n - base;
  }

  lemma WordCount(words: seq<nat>, i: nat, base: nat)
    requires ValidWords(words) && i < WORDS && base == 64 * i
    ensures |Below(words, base + 64)| == |Below(words, base)| + Popcount(words[i])
  {
    var low := Positions(words[i], 64);
    var up := set p | p in low :: p + base;
    var more, less := Below(words, base + 64), Below(words, base);
    forall n ensures n in more <==> n in less + up {
      ShiftedPositions(words[i], base, up, n);
      if base <= n < base + 64 { WordMembers(words, i, base, n); }
    }
    assert more == less + up;
    forall n | n in up ensures n !in less { ShiftedPositions(words[i], base, up, n); }
    Pow2Of64();
    PopcountIsCardinality(words[i], 64);
    ShiftedCardinality(low, up, 64, base);
  }

  // ----- the meaning of an expression

  function Split(text: string): (terms: seq<string>)
    ensures |terms| > 0
  {
    if text == [] then [[]]
    else
      var rest := Split(text[1..]);
      if text[0] == ',' then [[]] + rest else [[text[0]] + rest[0]] + rest[1..]
  }

  predicate Negative(term: string) { term != [] && term[0] == '!' }

  function Body(term: string): string { if Negative(term) then term[1..] else term }

  /** A term that names a class or a syscall of the catalogue. */
  ghost predicate KnownTerm(catalog: seq<Descriptor>, term: string) {
    var body := Body(term);
    && 0 < |body| < 128
    && (if body[0] == '%' then body[1..] in CLASS_NAMES else exists d :: d in catalog && d.name == body)
  }

  ghost predicate InClass(catalog: seq<Descriptor>, name: string, number: int) {
    exists d, bit :: d in catalog && d.number == number && 0 <= bit < 6 && CLASS_NAMES[bit] == name && Bit(d.classes, bit)
  }

  ghost predicate HasName(catalog: seq<Descriptor>, name: string, number: int) {
    exists d :: d in catalog && d.number == number && d.name == name
  }

  ghost predicate Matches(catalog: seq<Descriptor>, term: string, number: int) {
    var body := Body(term);
    body != [] && if body[0] == '%' then InClass(catalog, body[1..], number) else HasName(catalog, body, number)
  }

  /** The last matching term decides; without one, `default` does. */
  ghost predicate Chosen(catalog: seq<Descriptor>, terms: seq<string>, number: int, default: bool) {
    if terms == [] then default
    else
      var last := terms[|terms| - 1];
      if Matches(catalog, last, number) then !Negative(last)
      else Chosen(catalog, terms[..|terms| - 1], number, default)
  }

  ghost predicate HasPositive(terms: seq<string>) {
    exists i :: 0 <= i < |terms| && !Negative(terms[i])
  }

  ghost predicate AllKnown(catalog: seq<Descriptor>, terms: seq<string>) {
    forall i :: 0 <= i < |terms| ==> KnownTerm(catalog, terms[i])
  }

  ghost predicate Selects(catalog: seq<Descriptor>, words: seq<nat>, terms: seq<string>, default: bool)
    requires |words| == WORDS
  {
    forall n :: 0 <= n < SYSCALL_LIMIT ==> (n in Numbers(words) <==> Chosen(catalog, terms, n, default))
  }

  ghost predicate Accepted(catalog: seq<Descriptor>, spec: string) {
    && "trace=" <= spec && |spec| > 6
    && AllKnown(catalog, Split(spec[6..]))
  }

  /** What an accepted specification selects. */
  ghost predicate Meaning(catalog: seq<Descriptor>, spec: string, number: int)
    requires |spec| >= 6
  {
    && 0 <= number < SYSCALL_LIMIT
    && var terms := Split(spec[6..]); Chosen(catalog, terms, number, !HasPositive(terms))
  }

  /** When every positive term precedes every negative one, the meaning is the union of the positive
      terms (of everything, if there is none) minus the negative ones. */
  lemma {:induction false} SubtractiveMeaning(catalog: seq<Descriptor>, terms: seq<string>, split: nat, number: int,
                                              default: bool)
    requires split <= |terms|
    requires forall i :: 0 <= i < |terms| ==> (Negative(terms[i]) <==> split <= i)
    ensures Chosen(catalog, terms, number, default) <==>
            && (default || exists i :: 0 <= i < split && Matches(catalog, terms[i], number))
            && !exists i :: split <= i < |terms| && Matches(catalog, terms[i], number)
  {
    if terms != [] {
      var n := |terms| - 1;
      var front := terms[..n];
      SubtractiveMeaning(catalog, front, if split <= n then split else n, number, default);
      assert forall i :: 0 <= i < n ==> front[i] == terms[i];
    }
  }

  ghost predicate Adds(catalog: seq<Descriptor>, term: string, number: int) {
    !Negative(term) && Matches(catalog, term, number)
  }

  ghost predicate Subtracts(catalog: seq<Descriptor>, term: string, number: int) {
    Negative(term) && Matches(catalog, term, number)
  }

  /** The documented meaning: the positive terms form the set, the negative ones subtract from it. */
  ghost predicate Documented(catalog: seq<Descriptor>, terms: seq<string>, number: int, default: bool) {
    && (default || exists i :: 0 <= i < |terms| && Adds(catalog, terms[i], number))
    && !exists i :: 0 <= i < |terms| && Subtracts(catalog, terms[i], number)
  }

  ghost predicate BringsBack(catalog: seq<Descriptor>, terms: seq<string>, number: int, i: int, j: int) {
    && 0 <= i < j < |terms| && Subtracts(catalog, terms[i], number) && Adds(catalog, terms[j], number)
    && forall k :: j < k < |terms| ==> !Subtracts(catalog, terms[k], number)
  }

  /** A term adds the number after one that subtracts it, and no later one subtracts it again. */
  ghost predicate BroughtBack(catalog: seq<Descriptor>, terms: seq<string>, number: int) {
    exists i, j :: BringsBack(catalog, terms, number, i, j)
  }

  /** The order of the terms matters exactly for the numbers that are brought back: on all others, and
      only on those, the code selects what is documented. */
  lemma {:induction false} DocumentedExactly(catalog: seq<Descriptor>, terms: seq<string>, number: int, default: bool)
    ensures (Chosen(catalog, terms, number, default) <==> Documented(catalog, terms, number, default)) <==>
            !BroughtBack(catalog, terms, number)
  {
    if terms != [] {
      var n := |terms| - 1;
      var front, last := terms[..n], terms[n];
      if !Matches(catalog, last, number) {
        DocumentedExactly(catalog, front, number, default);
        assert forall i :: 0 <= i < n ==> front[i] == terms[i];
        forall i, j ensures BringsBack(catalog, terms, number, i, j) <==> BringsBack(catalog, front, number, i, j) {
          UnmatchedLast(catalog, terms, number, i, j);
        }
      } else if Negative(last) {
        assert Subtracts(catalog, terms[n], number);
      } else {
        assert Adds(catalog, terms[n], number);
        assert forall i :: 0 <= i < n && Subtracts(catalog, terms[i], number) ==> BringsBack(catalog, terms, number, i, n);
      }
    }
  }

  lemma UnmatchedLast(catalog: seq<Descriptor>, terms: seq<string>, number: int, i: int, j: int)
    requires terms != [] && !Matches(catalog, terms[|terms| - 1], number)
    ensures BringsBack(catalog, terms, number, i, j) <==> BringsBack(catalog, terms[..|terms| - 1], number, i, j)
  {
    var n := |terms| - 1;
    assert forall k :: 0 <= k < n ==> terms[..n][k] == terms[k];
  }

  /** Set difference is not the meaning in general: a positive term after a negative one brings its
      numbers back. */
  lemma LaterPositiveWins(catalog: seq<Descriptor>, d: Descriptor)
    requires d in catalog && d.name == "read"
    ensures Chosen(catalog, ["!read", "read"], d.number, false)
    ensures !Documented(catalog, ["!read", "read"], d.number, false)
    ensures !Chosen(catalog, ["read", "!read"], d.number, false)
  {
    assert HasName(catalog, "read", d.number);
    assert "!read"[1..] == "read";
    assert Matches(catalog, "!read", d.number) && Matches(catalog, "read", d.number);
    assert Subtracts(catalog, ["!read", "read"][0], d.number);
  }

  // ----- the C structure

  /** The first comma of `text`, or its length. */
  function CommaAt(text: string): (i: nat)
    ensures i <= |text|
    ensures forall j :: 0 <= j < i ==> text[j] != ','
    ensures i < |text| ==> text[i] == ','
  {
    if text == [] || text[0] == ',' then 0
    else
      var i := CommaAt(text[1..]);
      assert forall j :: 0 < j < 1 + i ==> text[j] == text[1..][j - 1];
      1 + i
  }

  /** Cutting at the first comma peels off the first term. */
  lemma {:induction false} SplitAtComma(text: string)
    ensures var i := CommaAt(text);
            Split(text) == [text[..i]] + (if i < |text| then Split(text[i + 1..]) else [])
  {
    if text == [] {
    } else if text[0] == ',' {
      assert text[..0] == [];
    } else {
      SplitAtComma(text[1..]);
      var i := CommaAt(text);
      assert text[..i] == [text[0]] + text[1..][..i - 1];
      if i < |text| { assert text[i + 1..] == text[1..][i..]; }
    }
  }

  lemma PeelTerm(terms: seq<string>, done: seq<string>, cursor: string)
    requires terms == done + Split(cursor)
    ensures var i := CommaAt(cursor);
            && terms[|done|] == cursor[..i]
            && terms == (done + [cursor[..i]]) + (if i < |cursor| then Split(cursor[i + 1..]) else [])
  {
    SplitAtComma(cursor);
    var i := CommaAt(cursor);
    FrontFirst(done, cursor[..i], if i < |cursor| then Split(cursor[i + 1..]) else []);
  }

  lemma FrontFirst(done: seq<string>, term: string, rest: seq<string>)
    ensures (done + ([term] + rest))[|done|] == term && done + ([term] + rest) == (done + [term]) + rest
  {
  }

  ghost predicate StartsPositive(terms: seq<string>) {
    exists i :: 0 <= i < |terms| && terms[i] != [] && !Negative(terms[i])
  }

  lemma StartsCons(term: string, rest: seq<string>)
    ensures StartsPositive([term] + rest) <==> (term != [] && !Negative(term)) || StartsPositive(rest)
  {
    var all := [term] + rest;
    assert all[0] == term && forall i :: 0 <= i < |rest| ==> all[i + 1] == rest[i];
    if StartsPositive(rest) {
      var i :| 0 <= i < |rest| && rest[i] != [] && !Negative(rest[i]);
      assert all[i + 1] == rest[i];
    }
  }

  /** has_positive_term. */
  method HasPositiveTerm(expression: string) returns (positive: bool)
    ensures positive <==> StartsPositive(Split(expression))
  {
    var cursor := expression;
    while cursor != []
      invariant StartsPositive(Split(expression)) <==> StartsPositive(Split(cursor))
      decreases |cursor|
    {
      var comma := CommaAt(cursor);
      SplitAtComma(cursor);
      ghost var term := cursor[..comma];
      ghost var rest := if comma < |cursor| then Split(cursor[comma + 1..]) else [];
      StartsCons(term, rest);
      assert term != [] ==> term[0] == cursor[0];
      if cursor[0] != '!' && cursor[0] != ',' {
        assert term != [];
        return true;
      }
      if comma == |cursor| {
        return false;
      }
      cursor := cursor[comma + 1..];
    }
    return false;
  }

  lemma ClassGrows(catalog: seq<Descriptor>, index: nat, name: string, bit: nat)
    requires index < |catalog| && bit < 6 && CLASS_NAMES[bit] == name
    ensures forall n :: InClass(catalog[..index + 1], name, n) <==>
              InClass(catalog[..index], name, n) || (catalog[index].number == n && Bit(catalog[index].classes, bit))
  {
    assert forall i :: 0 <= i < 6 && CLASS_NAMES[i] == name ==> i == bit;
    var less, more := catalog[..index], catalog[..index + 1];
    assert more == less + [catalog[index]];
    forall n
      ensures InClass(more, name, n) <==> InClass(less, name, n) || (catalog[index].number == n && Bit(catalog[index].classes, bit))
    {
      if InClass(less, name, n) {
        var d, b :| d in less && d.number == n && 0 <= b < 6 && CLASS_NAMES[b] == name && Bit(d.classes, b);
        assert d in more;
      }
      if catalog[index].number == n && Bit(catalog[index].classes, bit) {
        assert catalog[index] in more;
      }
    }
  }

  lemma OnlyName(catalog: seq<Descriptor>, d: Descriptor, name: string)
    requires Catalog.Valid(catalog) && d in catalog && d.name == name
    ensures forall n :: HasName(catalog, name, n) <==> n == d.number
  {
    forall n | HasName(catalog, name, n) ensures n == d.number {
      var e :| e in catalog && e.number == n && e.name == name;
      var i :| 0 <= i < |catalog| && catalog[i] == d;
      var j :| 0 <= j < |catalog| && catalog[j] == e;
    }
  }

  lemma KnownTermsPositive(catalog: seq<Descriptor>, terms: seq<string>)
    requires AllKnown(catalog, terms)
    ensures StartsPositive(terms) <==> HasPositive(terms)
  {
    if HasPositive(terms) {
      var i :| 0 <= i < |terms| && !Negative(terms[i]);
      assert KnownTerm(catalog, terms[i]);
    }
  }

  lemma TermSelects(catalog: seq<Descriptor>, was: seq<nat>, now: seq<nat>, done: seq<string>, term: string,
                    default: bool)
    requires |was| == |now| == WORDS && Selects(catalog, was, done, default)
    requires AllKnown(catalog, done) && KnownTerm(catalog, term)
    requires forall n :: 0 <= n < SYSCALL_LIMIT ==>
               (n in Numbers(now) <==> if Matches(catalog, term, n) then !Negative(term) else n in Numbers(was))
    ensures Selects(catalog, now, done + [term], default) && AllKnown(catalog, done + [term])
  {
    assert (done + [term])[..|done|] == done;
  }

  class Filter {
    const words: array<nat>
    var active: bool

    ghost predicate Valid()
      reads this, words
    {
      ValidWords(words[..])
    }

    /** sg_filter_clear or sg_filter_fill on a fresh structure. */
    constructor (full: bool)
      ensures Valid() && fresh(words) && active == full
      ensures forall n :: n in Numbers(words[..]) <==> full && 0 <= n < SYSCALL_LIMIT
    {
      words := new nat[WORDS](_ => if full then UINT64_MAX else 0);
      active := full;
      new;
      Pow2Of64();
      forall n | 0 <= n < SYSCALL_LIMIT ensures Contains(words[..], n) == full {
        ContainsBit(words[..], n);
        OnesBits(64, n % WORD_BITS);
        ZeroHasNoBits(n % WORD_BITS);
      }
    }

    /** set_number; a number out of range is ignored. */
    method SetNumber(number: int, enabled: bool)
      requires Valid()
      modifies words
      ensures Valid()
      ensures var was := old(Numbers(words[..]));
              Numbers(words[..]) ==
                if number < 0 || number >= SYSCALL_LIMIT then was
                else if enabled then was + {number} else was - {number}
    {
      if number < 0 || number >= SYSCALL_LIMIT {
        return;
      }
      var index, mask := number / WORD_BITS, Pow2(number % WORD_BITS);
      ghost var was := words[..];
      words[index] := if enabled then Or(words[index], mask) else AndNot(words[index], mask);
      SetBitEffect(was, number, words[..], enabled);
    }

    /** sg_filter_count: the number of selected numbers. */
    method Count() returns (count: nat)
      requires Valid()
      ensures count == |Numbers(words[..])|
    {
      count := 0;
      ghost var w := words[..];
      assert Below(w, 0) == {};
      for index := 0 to WORDS
        invariant count == |Below(w, 64 * index)|
      {
        var word := words[index];
        while word != 0
          invariant count + Popcount(word) == |Below(w, 64 * index)| + Popcount(words[index])
        {
          ClearLowest(word);
          word := And(word, word - 1);
          count := count + 1;
        }
        WordCount(w, index, 64 * index);
      }
      assert Below(w, SYSCALL_LIMIT) == Numbers(w);
    }

    /** apply_class. */
    method ApplyClass(catalog: seq<Descriptor>, mask: nat, enabled: bool, ghost name: string, ghost bit: nat)
      requires Valid() && Catalog.Valid(catalog)
      requires bit < 6 && CLASS_NAMES[bit] == name && mask == Pow2(bit)
      modifies words
      ensures Valid()
      ensures forall n :: 0 <= n < SYSCALL_LIMIT ==>
                (n in Numbers(words[..]) <==>
                   if InClass(catalog, name, n) then enabled else n in old(Numbers(words[..])))
    {
      ghost var was := Numbers(words[..]);
      for index := 0 to |catalog|
        invariant Valid()
        invariant forall n :: 0 <= n < SYSCALL_LIMIT ==>
                    (n in Numbers(words[..]) <==>
                       if InClass(catalog[..index], name, n) then enabled else n in was)
      {
        ClassGrows(catalog, index, name, bit);
        TestBit(catalog[index].classes, bit);
        if And(catalog[index].classes, mask) != 0 {
          SetNumber(catalog[index].number, enabled);
        }
      }
      assert catalog[..|catalog|] == catalog;
    }

    /** One term of the expression. */
    method ApplyTerm(catalog: seq<Descriptor>, term: string) returns (ok: bool)
      requires Valid() && Catalog.Valid(catalog)
      modifies words
      ensures Valid()
      ensures ok <==> KnownTerm(catalog, term)
      ensures ok ==> forall n :: 0 <= n < SYSCALL_LIMIT ==>
                (n in Numbers(words[..]) <==>
                   if Matches(catalog, term, n) then !Negative(term) else n in old(Numbers(words[..])))
    {
      var enabled := !(term != [] && term[0] == '!');
      var name := if enabled then term else term[1..];
      if |name| == 0 || |name| >= 128 {
        return false;
      }
      if name[0] == '%' {
        var mask := ClassByName(name[1..]);
        if mask.None? {
          return false;
        }
        ghost var bit :| 0 <= bit < 6 && CLASS_NAMES[bit] == name[1..] && mask.value == Pow2(bit);
        ApplyClass(catalog, mask.value, enabled, name[1..], bit);
        ok := true;
      } else {
        var descriptor := ByName(catalog, name);
        if descriptor.None? {
          return false;
        }
        OnlyName(catalog, descriptor.value, name);
        SetNumber(descriptor.value.number, enabled);
        ok := true;
      }
    }

    /** The term loop of sg_filter_parse. */
    method ApplyTerms(catalog: seq<Descriptor>, expression: string, ghost default: bool) returns (ok: bool)
      requires Valid() && Catalog.Valid(catalog)
      requires forall n :: 0 <= n < SYSCALL_LIMIT ==> (n in Numbers(words[..]) <==> default)
      modifies words
      ensures Valid()
      ensures ok <==> AllKnown(catalog, Split(expression))
      ensures ok ==> Selects(catalog, words[..], Split(expression), default)
    {
      ghost var terms := Split(expression);
      var cursor := expression;
      ghost var done := [];
      while true
        invariant Valid()
        invariant terms == done + Split(cursor)
        invariant AllKnown(catalog, done)
        invariant Selects(catalog, words[..], done, default)
        decreases |cursor|
      {
        var comma := CommaAt(cursor);
        var term := cursor[..comma];
        PeelTerm(terms, done, cursor);
        ghost var was := words[..];
        var known := ApplyTerm(catalog, term);
        if !known {
          return false;
        }
        TermSelects(catalog, was, words[..], done, term, default);
        done := done + [term];
        if comma == |cursor| {
          return true;
        }
        cursor := cursor[comma + 1..];
        if cursor == [] {
          assert terms[|done|] == [] && !KnownTerm(catalog, []);
          return false;
        }
      }
    }

    /** sg_filter_parse: accepted specifications get their meaning, rejected ones change nothing. */
    method Parse(catalog: seq<Descriptor>, spec: string) returns (ok: bool)
      requires Valid() && Catalog.Valid(catalog)
      modifies this, words
      ensures Valid()
      ensures ok <==> Accepted(catalog, spec)
      ensures ok ==> active && forall n :: n in Numbers(words[..]) <==> Meaning(catalog, spec, n)
      ensures !ok ==> active == old(active) && words[..] == old(words[..])
    {
      if !("trace=" <= spec) || |spec| == 6 {
        return false;
      }
      var expression := spec[6..];
      var positive := HasPositiveTerm(expression);
      var candidate := new Filter(!positive);
      var known := candidate.ApplyTerms(catalog, expression, !positive);
      if !known {
        return false;
      }
      KnownTermsPositive(catalog, Split(expression));
      active := true;
      forall i | 0 <= i < WORDS { words[i] := candidate.words[i]; }
      assert words[..] == candidate.words[..];
      ok := true;
    }
  }
}
