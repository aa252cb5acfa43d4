/** A parsed filter, printed, parses back to itself. */
module FilterRoundTrip {
  import opened Wrappers
  import opened Ascii
  import opened Filter

  /** The printed form of `v` is one plain field that reads back as `v`. */
  ghost predicate Reads(n: Numerals, v: real) {
    n.parse(n.show(v)) == Some(v) && Plain(n.show(v))
  }

  /** Printing undoes reading: every value read from some text prints as a text that reads the same. */
  ghost predicate Faithful(n: Numerals) {
    forall s :: n.parse(s).Some? ==> Reads(n, n.parse(s).value)
  }

  predicate PlainCall(s: string) {
    Plain(s) && Upper(s) == s
  }

  predicate ListItems(items: seq<string>) {
    && 0 < |items| <= MAX_LIST_ENTRIES
    && forall k :: 0 <= k < |items| ==> items[k] != "" && PlainCall(items[k])
  }

  /** What parsing establishes about a filter. */
  ghost predicate Canonical(n: Numerals, f: Filter) {
    match f
    case Range(lat, lon, km) =>
      && Reads(n, lat) && Reads(n, lon) && Reads(n, km)
      && -90.0 <= lat <= 90.0 && -180.0 <= lon <= 180.0 && km > 0.0
    case Prefix(items) => ListItems(items)
    case Budlist(items) => ListItems(items)
    case Object(items) => ListItems(items)
    case Digipeater(items) => ListItems(items)
    case Entry(items) => ListItems(items)
    case Group(items) => ListItems(items)
    case Unproto(items) => ListItems(items)
    case Type(types, near) =>
      && types != {} && (forall c :: c in types ==> c in TYPE_LETTERS)
      && (near.Some? ==> PlainCall(near.value.callsign) && Reads(n, near.value.km) && near.value.km > 0.0)
    case Symbol(primary, alternate, overlay) => Plain(primary) && Plain(alternate) && Plain(overlay)
    case Area(north, west, south, east) =>
      && Reads(n, north) && Reads(n, west) && Reads(n, south) && Reads(n, east)
      && -90.0 <= north <= 90.0 && -180.0 <= west <= 180.0 && -90.0 <= south <= 90.0 && -180.0 <= east <= 180.0
    case QConstruct(constructs, _) => Plain(constructs)
    case MyRange(km) => Reads(n, km) && km > 0.0
    case FriendRange(callsign, km) => PlainCall(callsign) && Reads(n, km) && km > 0.0
  }

  // ----- Lists -----

  lemma UpperPlain(s: string)
    requires Plain(s)
    ensures PlainCall(Upper(s))
  {
  }

  lemma {:induction false} EntriesCanonical(args: seq<string>)
    requires AllPlain(args)
    ensures forall k :: 0 <= k < |Entries(args)| ==> PlainCall(Entries(args)[k])
  {
    if args != [] {
      UpperPlain(args[0]);
      EntriesCanonical(args[1..]);
    }
  }

  lemma {:induction false} EntriesFixed(items: seq<string>)
    requires forall k :: 0 <= k < |items| ==> items[k] != "" && PlainCall(items[k])
    ensures Entries(items) == items
  {
    if items != [] {
      EntriesFixed(items[1..]);
    }
  }

  // ----- Category letters -----

  lemma {:induction false} TypesAreLetters(letters: string)
    requires TypesOf(letters).Some?
    ensures forall c :: c in TypesOf(letters).value ==> c in TYPE_LETTERS
    ensures letters != "" ==> TypesOf(letters).value != {}
  {
    if letters != "" {
      TypesAreLetters(letters[1..]);
    }
  }

  /** The categories of the set from the `i`th letter on. */
  ghost function Late(types: set<char>, i: nat): set<char>
    requires i <= |TYPE_LETTERS|
    decreases |TYPE_LETTERS| - i, types
  {
    if i == |TYPE_LETTERS| then {}
    else if TYPE_LETTERS[i] in types then {TYPE_LETTERS[i]} + Late(types, i + 1)
    else Late(types, i + 1)
  }

  lemma {:induction false} LateHolds(types: set<char>, i: nat, c: char)
    requires i <= |TYPE_LETTERS|
    ensures c in Late(types, i) <==> c in types && exists k :: i <= k < |TYPE_LETTERS| && TYPE_LETTERS[k] == c
    decreases |TYPE_LETTERS| - i
  {
    if i < |TYPE_LETTERS| {
      LateHolds(types, i + 1, c);
    }
  }

  lemma {:induction false} LettersNameTypes(types: set<char>, i: nat)
    requires i <= |TYPE_LETTERS|
    ensures TypesOf(LettersFrom(types, i)) == Some(Late(types, i)) && Plain(LettersFrom(types, i))
    decreases |TYPE_LETTERS| - i
  {
    if i < |TYPE_LETTERS| {
      LettersNameTypes(types, i + 1);
      if TYPE_LETTERS[i] in types {
        TypesCons(TYPE_LETTERS[i], LettersFrom(types, i + 1));
      }
    }
  }

  lemma TypesCons(c: char, s: string)
    requires c in TYPE_LETTERS && TypesOf(s).Some?
    ensures TypesOf([c] + s) == Some({c} + TypesOf(s).value)
    ensures Plain(s) ==> Plain([c] + s)
  {
    assert ([c] + s)[1..] == s;
    assert 'a' <= c <= 'z';
  }

  // ----- Parsing yields canonical filters -----

  lemma ListCanonical(code: string, args: seq<string>)
    requires AllPlain(args) && List(code, args).Ok?
    ensures ListItems(List(code, args).value)
  {
    EntriesCanonical(args);
  }

  lemma TypeCanonical(n: Numerals, args: seq<string>)
    requires Faithful(n) && AllPlain(args) && ParseType(n, args).Ok?
    ensures Canonical(n, ParseType(n, args).value)
  {
    TypesAreLetters(args[0]);
    if |args| > 2 {
      UpperPlain(args[1]);
      assert Reads(n, n.parse(args[2]).value);
    }
  }

  lemma RangeCanonical(n: Numerals, args: seq<string>)
    requires Faithful(n) && ParseRange(n, args).Ok?
    ensures Canonical(n, ParseRange(n, args).value)
  {
    forall k | 0 <= k < 3
      ensures n.parse(args[k]).Some? ==> Reads(n, n.parse(args[k]).value)
    {
    }
  }

  lemma AreaCanonical(n: Numerals, args: seq<string>)
    requires Faithful(n) && ParseArea(n, args).Ok?
    ensures Canonical(n, ParseArea(n, args).value)
  {
    forall k | 0 <= k < 4
      ensures n.parse(args[k]).Some? ==> Reads(n, n.parse(args[k]).value)
    {
    }
  }

  lemma FriendCanonical(n: Numerals, args: seq<string>)
    requires Faithful(n) && AllPlain(args) && ParseFriend(n, args).Ok?
    ensures Canonical(n, ParseFriend(n, args).value)
  {
    UpperPlain(args[0]);
    assert Reads(n, n.parse(args[1]).value);
  }

  lemma LetterIsCanonical(n: Numerals, letter: char, args: seq<string>)
    requires Faithful(n) && AllPlain(args) && ParseLetter(n, letter, args).Ok?
    ensures Canonical(n, ParseLetter(n, letter, args).value)
  {
    if IsListLetter(letter) {
      ListCanonical([letter], args);
    } else {
      match letter
      case 'r' => RangeCanonical(n, args);
      case 't' => TypeCanonical(n, args);
      case 'a' => AreaCanonical(n, args);
      case 'f' => FriendCanonical(n, args);
      case 'm' => assert Reads(n, n.parse(args[0]).value);
      case _ =>
    }
  }

  lemma ParsedIsCanonical(n: Numerals, code: string, args: seq<string>)
    requires Faithful(n) && AllPlain(args) && ParseFields(n, code, args).Ok?
    ensures Canonical(n, ParseFields(n, code, args).value)
  {
    LetterIsCanonical(n, code[0], args);
  }

  // ----- Canonical filters read back -----

  /** The printed fields of `f` are plain and parse to `f`. */
  ghost predicate ReadsAsItself(n: Numerals, f: Filter) {
    AllPlain(Fields(n, f)) && ParseFields(n, Fields(n, f)[0], Fields(n, f)[1..]) == Ok(f)
  }

  lemma FieldsRead(n: Numerals, f: Filter, letter: char, args: seq<string>)
    requires Fields(n, f) == [[letter]] + args && letter != '/' && !IsAsciiSpace(letter) && AllPlain(args)
    requires ParseLetter(n, letter, args) == Ok(f)
    ensures ReadsAsItself(n, f)
  {
    assert Fields(n, f)[1..] == args;
  }

  lemma ListReads(n: Numerals, f: Filter, letter: char, items: seq<string>)
    requires IsListLetter(letter) && ListItems(items) && f == ListFilter(letter, items)
    requires Fields(n, f) == [[letter]] + items
    ensures ReadsAsItself(n, f)
  {
    EntriesFixed(items);
    FieldsRead(n, f, letter, items);
  }

  lemma LettersOfSet(types: set<char>)
    requires types != {} && forall c :: c in types ==> c in TYPE_LETTERS
    ensures var s := LettersFrom(types, 0);
      s != "" && Plain(s) && TypesOf(s) == Some(types)
  {
    LettersNameTypes(types, 0);
    forall c
      ensures c in Late(types, 0) <==> c in types
    {
      LateHolds(types, 0, c);
    }
    assert Late(types, 0) == types;
  }

  lemma TypeReads(n: Numerals, types: set<char>, letters: string)
    requires letters != "" && TypesOf(letters) == Some(types)
    ensures ParseLetter(n, 't', [letters]) == Ok(Type(types, None))
  {
  }

  lemma TypeNearReads(n: Numerals, types: set<char>, letters: string, near: Near)
    requires letters != "" && TypesOf(letters) == Some(types)
    requires PlainCall(near.callsign) && Reads(n, near.km) && near.km > 0.0
    ensures ParseLetter(n, 't', [letters, near.callsign, n.show(near.km)]) == Ok(Type(types, Some(near)))
  {
  }

  lemma ScalarReads(n: Numerals, f: Filter)
    requires Canonical(n, f)
    requires f.Range? || f.Area? || f.MyRange? || f.FriendRange?
    ensures ReadsAsItself(n, f)
  {
    match f
    case Range(lat, lon, km) => FieldsRead(n, f, 'r', [n.show(lat), n.show(lon), n.show(km)]);
    case Area(a, b, c, d) => FieldsRead(n, f, 'a', [n.show(a), n.show(b), n.show(c), n.show(d)]);
    case MyRange(km) => FieldsRead(n, f, 'm', [n.show(km)]);
    case FriendRange(callsign, km) => FieldsRead(n, f, 'f', [callsign, n.show(km)]);
  }

  lemma TextReads(n: Numerals, f: Filter)
    requires Canonical(n, f)
    requires f.Symbol? || f.QConstruct?
    ensures ReadsAsItself(n, f)
  {
    match f
    case Symbol(p, a, o) =>
      if o == "" && a == "" {
        FieldsRead(n, f, 's', [p]);
      } else {
        FieldsRead(n, f, 's', if o == "" then [p, a] else [p, a, o]);
      }
    case QConstruct(constructs, igatePositions) =>
      FieldsRead(n, f, 'q', if igatePositions then [constructs, "I"] else [constructs]);
  }

  lemma ListFilterReads(n: Numerals, f: Filter)
    requires Canonical(n, f) && !f.Type? && !f.Symbol? && !f.QConstruct?
    requires !f.Range? && !f.Area? && !f.MyRange? && !f.FriendRange?
    ensures ReadsAsItself(n, f)
  {
    match f
    case Prefix(items) => ListReads(n, f, 'p', items);
    case Budlist(items) => ListReads(n, f, 'b', items);
    case Object(items) => ListReads(n, f, 'o', items);
    case Digipeater(items) => ListReads(n, f, 'd', items);
    case Entry(items) => ListReads(n, f, 'e', items);
    case Group(items) => ListReads(n, f, 'g', items);
    case Unproto(items) => ListReads(n, f, 'u', items);
  }

  lemma PlainTypeReads(n: Numerals, f: Filter, letters: string)
    requires f.Type? && f.near.None? && letters == LettersFrom(f.types, 0)
    requires letters != "" && Plain(letters) && TypesOf(letters) == Some(f.types)
    ensures ReadsAsItself(n, f)
  {
    TypeReads(n, f.types, letters);
    FieldsRead(n, f, 't', [letters]);
  }

  lemma NearTypeFields(n: Numerals, f: Filter, letters: string, near: Near)
    requires f.Type? && f.near == Some(near) && letters == LettersFrom(f.types, 0)
    ensures Fields(n, f) == [['t']] + [letters, near.callsign, n.show(near.km)]
  {
  }

  lemma NearTypeReads(n: Numerals, f: Filter, letters: string, near: Near)
    requires f.Type? && f.near == Some(near) && letters == LettersFrom(f.types, 0)
    requires letters != "" && Plain(letters) && TypesOf(letters) == Some(f.types)
    requires PlainCall(near.callsign) && Reads(n, near.km) && near.km > 0.0
    ensures ReadsAsItself(n, f)
  {
    TypeNearReads(n, f.types, letters, near);
    NearTypeFields(n, f, letters, near);
    FieldsRead(n, f, 't', [letters, near.callsign, n.show(near.km)]);
  }

  lemma TypeFilterReads(n: Numerals, f: Filter)
    requires Canonical(n, f) && f.Type?
    ensures ReadsAsItself(n, f)
  {
    LettersOfSet(f.types);
    if f.near.None? {
      PlainTypeReads(n, f, LettersFrom(f.types, 0));
    } else {
      NearTypeReads(n, f, LettersFrom(f.types, 0), f.near.value);
    }
  }

  /** A canonical filter, printed as fields, parses to itself. */
  lemma ReadsBack(n: Numerals, f: Filter)
    requires Canonical(n, f)
    ensures ReadsAsItself(n, f)
  {
    if f.Type? {
      TypeFilterReads(n, f);
    } else if f.Symbol? || f.QConstruct? {
      TextReads(n, f);
    } else if f.Range? || f.Area? || f.MyRange? || f.FriendRange? {
      ScalarReads(n, f);
    } else {
      ListFilterReads(n, f);
    }
  }

  // ----- As text -----

  lemma {:induction false} JoinNoSpace(parts: seq<string>)
    requires AllPlain(parts)
    ensures NoSpace(Join(parts, '/'))
  {
    if |parts| > 1 {
      JoinNoSpace(parts[1..]);
    }
  }

  lemma JoinStart(parts: seq<string>, c: char)
    requires parts != [] && parts[0] != ""
    ensures Join(parts, c) != "" && Join(parts, c)[0] == parts[0][0]
  {
  }

  /** A canonical filter renders to one word, not beginning with `-`, that parses to it. */
  lemma RenderParses(n: Numerals, f: Filter)
    requires Canonical(n, f)
    ensures ParseFilter(n, Render(n, f)) == Ok(f)
    ensures Render(n, f) != "" && Render(n, f)[0] != '-' && NoSpace(Render(n, f))
  {
    var fields := Fields(n, f);
    ReadsBack(n, f);
    SplitJoin(fields, '/');
    JoinNoSpace(fields);
    FirstFieldIsLetter(n, f);
    JoinStart(fields, '/');
  }

  lemma FirstFieldIsLetter(n: Numerals, f: Filter)
    ensures Fields(n, f)[0] != "" && Fields(n, f)[0][0] != '-'
  {
  }

  lemma EntryParses(n: Numerals, e: FilterEntry)
    requires Canonical(n, e.filter)
    ensures ParseEntry(n, RenderEntry(n, e)) == Ok(e)
    ensures RenderEntry(n, e) != "" && NoSpace(RenderEntry(n, e))
  {
    var text := Render(n, e.filter);
    RenderParses(n, e.filter);
    if e.negated {
      assert ("-" + text)[1..] == text;
    } else {
      assert "" + text == text;
    }
  }

  lemma {:induction false} WordEndIs(s: string, e: nat)
    requires e <= |s| && NoSpace(s[..e]) && (e < |s| ==> IsAsciiSpace(s[e]))
    ensures WordEnd(s) == e
  {
    if e > 0 {
      assert s[..e][0] == s[0];
      assert s[1..][..e - 1] == s[..e][1..];
      WordEndIs(s[1..], e - 1);
    }
  }

  lemma {:induction false} WordsJoin(words: seq<string>)
    requires forall k :: 0 <= k < |words| ==> words[k] != "" && NoSpace(words[k])
    ensures Words(Join(words, ' ')) == words
  {
    if words != [] {
      var s, first := Join(words, ' '), words[0];
      assert s[0] == first[0];
      assert s[..|first|] == first;
      WordEndIs(s, |first|);
      if |words| == 1 {
        assert s[|first|..] == "";
      } else {
        var rest := Join(words[1..], ' ');
        assert s[|first|..] == " " + rest;
        assert (" " + rest)[1..] == rest;
        WordsJoin(words[1..]);
      }
    }
  }

  // ----- The whole chain -----

  /** The bounds and contents every parsed chain obeys. */
  ghost predicate CanonicalChain(n: Numerals, chain: FilterChain) {
    && |chain| <= MAX_FILTERS && Areas(chain) <= MAX_AREA_FILTERS
    && forall k :: 0 <= k < |chain| ==> Canonical(n, chain[k].filter)
  }

  lemma EntryIsCanonical(n: Numerals, word: string)
    requires Faithful(n) && NoSpace(word) && ParseEntry(n, word).Ok?
    ensures Canonical(n, ParseEntry(n, word).value.filter)
  {
    var body := if word[0] == '-' then word[1..] else word;
    SplitPlain(body);
    ParsedIsCanonical(n, Split(body, '/')[0], Split(body, '/')[1..]);
  }

  lemma {:induction false} WordsGiveCanonicalChain(n: Numerals, words: seq<string>, chain: FilterChain)
    requires Faithful(n) && CanonicalChain(n, chain) && ParseWords(n, words, chain).Ok?
    requires forall k :: 0 <= k < |words| ==> NoSpace(words[k])
    ensures CanonicalChain(n, ParseWords(n, words, chain).value)
    decreases |words|
  {
    if words != [] {
      EntryIsCanonical(n, words[0]);
      var more := chain + [ParseEntry(n, words[0]).value];
      assert more[..|chain|] == chain;
      WordsGiveCanonicalChain(n, words[1..], more);
    }
  }

  lemma {:induction false} AreasOfPrefix(chain: FilterChain, i: nat)
    requires i <= |chain|
    ensures Areas(chain[..i]) <= Areas(chain)
    decreases |chain| - i
  {
    if i < |chain| {
      AreasOfPrefix(chain, i + 1);
      assert chain[..i + 1][..i] == chain[..i];
    } else {
      assert chain[..i] == chain;
    }
  }

  lemma ParseStep(n: Numerals, words: seq<string>, rest: seq<string>, chain: FilterChain, e: FilterEntry)
    requires words == [RenderEntry(n, e)] + rest && Canonical(n, e.filter) && |chain| < MAX_FILTERS
    requires Areas(chain + [e]) <= MAX_AREA_FILTERS
    ensures ParseWords(n, words, chain) == ParseWords(n, rest, chain + [e])
  {
    EntryParses(n, e);
    assert words[1..] == rest;
    assert (chain + [e])[..|chain|] == chain;
  }

  lemma RenderWordsCons(n: Numerals, chain: FilterChain)
    requires chain != []
    ensures RenderWords(n, chain) == [RenderEntry(n, chain[0])] + RenderWords(n, chain[1..])
  {
  }

  lemma {:induction false} RenderedWordsParse(n: Numerals, before: FilterChain, after: FilterChain)
    requires CanonicalChain(n, before + after)
    ensures ParseWords(n, RenderWords(n, after), before) == Ok(before + after)
    decreases |after|
  {
    var chain := before + after;
    if after == [] {
      assert chain == before;
    } else {
      var e, rest := after[0], after[1..];
      var i := |before|;
      assert chain[i] == e && chain[..i + 1] == before + [e] && (before + [e]) + rest == chain;
      AreasOfPrefix(chain, i + 1);
      RenderWordsCons(n, after);
      ParseStep(n, RenderWords(n, after), RenderWords(n, rest), before, e);
      RenderedWordsParse(n, before + [e], rest);
    }
  }

  /** Every chain the server accepts renders to an expression that parses back to the same chain. */
  lemma ChainRoundTrip(n: Numerals, expression: string)
    requires Faithful(n) && ParseExpression(n, expression).Ok?
    ensures var chain := ParseExpression(n, expression).value;
      ParseExpression(n, RenderChain(n, chain)) == Ok(chain)
  {
    var chain := ParseExpression(n, expression).value;
    WordsGiveCanonicalChain(n, Words(expression), []);
    forall k | 0 <= k < |chain|
      ensures RenderWords(n, chain)[k] != "" && NoSpace(RenderWords(n, chain)[k])
    {
      EntryParses(n, chain[k]);
    }
    WordsJoin(RenderWords(n, chain));
    assert [] + chain == chain;
    RenderedWordsParse(n, [], chain);
  }

  /** The order of the filters in an expression does not matter. */
  lemma OrderIrrelevant(a: FilterChain, b: FilterChain, hit: Filter -> bool)
    requires multiset(a) == multiset(b)
    ensures ChainMatches(a, hit) == ChainMatches(b, hit)
  {
    forall k | 0 <= k < |a|
      ensures a[k] in b
    {
      assert a[k] in multiset(a);
    }
    forall k | 0 <= k < |b|
      ensures b[k] in a
    {
      assert b[k] in multiset(b);
    }
  }
}
