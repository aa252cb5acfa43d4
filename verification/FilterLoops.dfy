/** The filter parser's and printers' loops, against the functions that specify them. */
module FilterLoops {
  import opened Wrappers
  import opened Ascii
  import opened Filter

  /** Accumulate the categories letter by letter; an unknown letter stops it. */
  method ReadTypes(letters: string) returns (types: Option<set<char>>)
    ensures types == TypesOf(letters)
  {
    var found: set<char> := {};
    assert letters[0..] == letters;
    JoinedNothing(TypesOf(letters));
    for i := 0 to |letters|
      invariant TypesOf(letters) == Joined(found, TypesOf(letters[i..]))
    {
      var letter := LowerChar(letters[i]);
      assert letters[i..][0] == letters[i] && letters[i..][1..] == letters[i + 1..];
      if letter !in TYPE_LETTERS {
        return None;
      }
      JoinedOne(found, letter, TypesOf(letters[i + 1..]));
      found := found + {letter};
    }
    assert found + {} == found;
    return Some(found);
  }

  /** What was found in front, together with what the rest names. */
  function Joined(found: set<char>, rest: Option<set<char>>): Option<set<char>> {
    if rest.None? then None else Some(found + rest.value)
  }

  lemma JoinedNothing(rest: Option<set<char>>)
    ensures Joined({}, rest) == rest
  {
    if rest.Some? {
      assert {} + rest.value == rest.value;
    }
  }

  lemma JoinedOne(found: set<char>, letter: char, rest: Option<set<char>>)
    ensures Joined(found, if rest.None? then None else Some({letter} + rest.value)) == Joined(found + {letter}, rest)
  {
    if rest.Some? {
      assert found + ({letter} + rest.value) == (found + {letter}) + rest.value;
    }
  }

  lemma {:induction false} JoinSnoc(parts: seq<string>, last: string, c: char)
    requires parts != []
    ensures Join(parts + [last], c) == Join(parts, c) + [c] + last
  {
    var all := parts + [last];
    if |parts| == 1 {
      assert all[1..] == [last];
    } else {
      JoinSnoc(parts[1..], last, c);
      assert all[1..] == parts[1..] + [last];
    }
  }

  /** Print parts one after another, a separator in front of all but the first. */
  method PrintJoined(first: string, rest: seq<string>, c: char) returns (out: string)
    ensures out == Join([first] + rest, c)
  {
    out := first;
    for i := 0 to |rest|
      invariant out == Join([first] + rest[..i], c)
    {
      JoinSnoc([first] + rest[..i], rest[i], c);
      assert [first] + rest[..i + 1] == ([first] + rest[..i]) + [rest[i]];
      out := out + [c] + rest[i];
    }
    assert rest[..|rest|] == rest;
  }

  method PrintFilter(n: Numerals, f: Filter) returns (out: string)
    ensures out == Render(n, f)
  {
    var fields := Fields(n, f);
    assert fields == [fields[0]] + fields[1..];
    out := PrintJoined(fields[0], fields[1..], '/');
  }

  method PrintEntry(n: Numerals, e: FilterEntry) returns (out: string)
    ensures out == RenderEntry(n, e)
  {
    out := "";
    if e.negated {
      out := out + "-";
    }
    var text := PrintFilter(n, e.filter);
    out := out + text;
  }

  /** One more word: a separator in front of it, unless it is the first. */
  lemma JoinMore(words: seq<string>, word: string, c: char)
    ensures Join(words + [word], c) == if words == [] then word else Join(words, c) + [c] + word
  {
    if words == [] {
      assert words + [word] == [word];
    } else {
      JoinSnoc(words, word, c);
    }
  }

  lemma WordsMore(n: Numerals, chain: FilterChain, i: nat)
    requires i < |chain|
    ensures RenderWords(n, chain[..i + 1]) == RenderWords(n, chain[..i]) + [RenderEntry(n, chain[i])]
  {
  }

  /** Print a chain entry by entry. */
  method PrintChain(n: Numerals, chain: FilterChain) returns (out: string)
    ensures out == RenderChain(n, chain)
  {
    out := "";
    for i := 0 to |chain|
      invariant out == Join(RenderWords(n, chain[..i]), ' ')
    {
      WordsMore(n, chain, i);
      JoinMore(RenderWords(n, chain[..i]), RenderEntry(n, chain[i]), ' ');
      if i > 0 {
        out := out + " ";
      }
      var word := PrintEntry(n, chain[i]);
      out := out + word;
    }
    assert chain[..|chain|] == chain;
  }
}
