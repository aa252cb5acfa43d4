/** The configuration tokenizer: double quotes group, `#` outside quotes starts a comment. */
module Tokenizer {
  import opened Unicode
  import opened Wrappers

  datatype TokenError = UnterminatedQuote(line: nat)

  /** The loop's variables; `stopped` once a comment has begun. */
  datatype State = State(tokens: seq<string>, current: string, hasToken: bool, inQuotes: bool, stopped: bool)

  const START: State := State([], "", false, false, false)

  function Step(s: State, c: char): State {
    if s.stopped then s
    else if c == '"' then s.(inQuotes := !s.inQuotes, hasToken := true)
    else if c == '#' && !s.inQuotes then s.(stopped := true)
    else if IsWhitespace(c) && !s.inQuotes then
      if s.hasToken then s.(tokens := s.tokens + [s.current], current := "", hasToken := false) else s
    else s.(current := s.current + [c], hasToken := true)
  }

  function Feed(s: State, text: string): State {
    if text == "" then s else Step(Feed(s, text[..|text| - 1]), text[|text| - 1])
  }

  function Finish(s: State, line: nat): Result<seq<string>, TokenError> {
    if s.inQuotes then Err(UnterminatedQuote(line))
    else Ok(if s.hasToken then s.tokens + [s.current] else s.tokens)
  }

  function Tokens(raw: string, line: nat): Result<seq<string>, TokenError> {
    Finish(Feed(START, raw), line)
  }

  method Tokenize(raw: string, line: nat) returns (r: Result<seq<string>, TokenError>)
    ensures r == Tokens(raw, line)
  {
    var tokens: seq<string> := [];
    var current := "";
    var hasToken, inQuotes := false, false;
    var i := 0;
    while i < |raw|
      invariant i <= |raw| && Feed(START, raw[..i]) == State(tokens, current, hasToken, inQuotes, false)
    {
      var ch := raw[i];
      FeedNext(START, raw, i);
      i := i + 1;
      if ch == '"' {
        inQuotes := !inQuotes;
        hasToken := true;
      } else if ch == '#' && !inQuotes {
        break;
      } else if IsWhitespace(ch) && !inQuotes {
        if hasToken {
          tokens := tokens + [current];
          current := "";
          hasToken := false;
        }
      } else {
        current := current + [ch];
        hasToken := true;
      }
    }
    FeedAppend(START, raw[..i], raw[i..]);
    assert raw[..i] + raw[i..] == raw;
    FeedStopped(Feed(START, raw[..i]), raw[i..]);
    if inQuotes {
      return Err(UnterminatedQuote(line));
    }
    if hasToken {
      tokens := tokens + [current];
    }
    return Ok(tokens);
  }

  lemma FeedNext(s: State, text: string, i: nat)
    requires i < |text|
    ensures Feed(s, text[..i + 1]) == Step(Feed(s, text[..i]), text[i])
  {
    assert text[..i + 1][..i] == text[..i];
  }

  lemma {:induction false} FeedAppend(s: State, a: string, b: string)
    ensures Feed(s, a + b) == Feed(Feed(s, a), b)
    decreases |b|
  {
    if b == "" {
      assert a + b == a;
    } else {
      var n := |b| - 1;
      assert (a + b)[..|a| + n] == a + b[..n];
      FeedAppend(s, a, b[..n]);
    }
  }

  lemma {:induction false} FeedStopped(s: State, text: string)
    ensures s.stopped ==> Feed(s, text) == s
    ensures text == "" ==> Feed(s, text) == s
  {
    if text != "" {
      FeedStopped(s, text[..|text| - 1]);
    }
  }

  lemma FeedOne(s: State, c: char)
    ensures Feed(s, [c]) == Step(s, c)
  {
    assert [c][..0] == "";
  }

  // ----- Quotes and comments -----

  function Quotes(text: string): nat {
    if text == "" then 0 else Quotes(text[..|text| - 1]) + if text[|text| - 1] == '"' then 1 else 0
  }

  /** A `#` behind an even number of quotes. */
  predicate CommentAt(raw: string, i: nat) {
    i < |raw| && raw[i] == '#' && Quotes(raw[..i]) % 2 == 0
  }

  lemma {:induction false} QuotesOpen(raw: string, n: nat)
    requires n <= |raw| && forall i :: 0 <= i < n ==> !CommentAt(raw, i)
    ensures !Feed(START, raw[..n]).stopped && (Feed(START, raw[..n]).inQuotes <==> Quotes(raw[..n]) % 2 == 1)
  {
    if n > 0 {
      QuotesOpen(raw, n - 1);
      assert raw[..n][..n - 1] == raw[..n - 1];
      assert !CommentAt(raw, n - 1);
    } else {
      assert raw[..0] == "";
    }
  }

  /** A line without a comment is refused exactly when it holds an odd number of quotes. */
  lemma OddQuotesRefused(raw: string, line: nat)
    requires forall i :: 0 <= i < |raw| ==> !CommentAt(raw, i)
    ensures Tokens(raw, line).Err? <==> Quotes(raw) % 2 == 1
    ensures Tokens(raw, line).Err? ==> Tokens(raw, line).error == UnterminatedQuote(line)
  {
    QuotesOpen(raw, |raw|);
    assert raw[..|raw|] == raw;
  }

  /** What stands behind the first comment sign, itself included, does not matter. */
  lemma CommentStarts(raw: string, i: nat, line: nat)
    requires CommentAt(raw, i) && forall j :: 0 <= j < i ==> !CommentAt(raw, j)
    ensures Tokens(raw, line) == Tokens(raw[..i], line)
  {
    QuotesOpen(raw, i);
    var s := Feed(START, raw[..i]);
    assert raw == raw[..i] + ['#'] + raw[i + 1..];
    FeedAppend(START, raw[..i], ['#']);
    FeedOne(s, '#');
    FeedAppend(START, raw[..i] + ['#'], raw[i + 1..]);
    FeedStopped(Step(s, '#'), raw[i + 1..]);
  }

  /** A comment sign behind a separating space starts one. */
  lemma CommentIgnored(raw: string, comment: string, line: nat)
    requires Tokens(raw, line).Ok?
    ensures Tokens(raw + " #" + comment, line) == Tokens(raw, line)
  {
    var s := Feed(START, raw);
    assert raw + " #" == (raw + " ") + "#";
    FeedAppend(START, raw, " ");
    FeedOne(s, ' ');
    FeedAppend(START, raw + " ", "#");
    FeedOne(Step(s, ' '), '#');
    FeedAppend(START, raw + " #", comment);
    FeedStopped(Feed(START, raw + " #"), comment);
  }

  // ----- Writing tokens -----

  /** A stretch of a token as written on a line: in quotes, or bare. */
  datatype Piece = Piece(text: string, quoted: bool)

  /** A quoted piece may hold anything but a quote; a bare one also no space and no `#`, and it is not empty. */
  predicate Writable(p: Piece) {
    && '"' !in p.text
    && (!p.quoted ==> p.text != "" && forall k :: 0 <= k < |p.text| ==> p.text[k] != '#' && !IsWhitespace(p.text[k]))
  }

  function Written(p: Piece): string {
    if p.quoted then "\"" + p.text + "\"" else p.text
  }

  function Spelled(pieces: seq<Piece>): string {
    if pieces == [] then "" else Spelled(pieces[..|pieces| - 1]) + Written(pieces[|pieces| - 1])
  }

  /** The token the pieces make up: their texts, one behind the other. */
  function TokenOf(pieces: seq<Piece>): string {
    if pieces == [] then "" else TokenOf(pieces[..|pieces| - 1]) + pieces[|pieces| - 1].text
  }

  /** White space, and a token behind it. */
  datatype Item = Item(gap: string, pieces: seq<Piece>)

  predicate Blank(s: string) {
    forall k :: 0 <= k < |s| ==> IsWhitespace(s[k])
  }

  /** Tokens are kept apart by white space, whatever their pieces. */
  predicate WellSpaced(items: seq<Item>) {
    && (forall k :: 0 <= k < |items| ==> Blank(items[k].gap) && items[k].pieces != [])
    && (forall k, m :: 0 <= k < |items| && 0 <= m < |items[k].pieces| ==> Writable(items[k].pieces[m]))
    && (forall k :: 0 < k < |items| ==> items[k].gap != "")
  }

  function Line(items: seq<Item>): string {
    if items == [] then ""
    else
      var n := |items| - 1;
      Line(items[..n]) + items[n].gap + Spelled(items[n].pieces)
  }

  function TokensOf(items: seq<Item>): (r: seq<string>)
    ensures |r| == |items| && forall i :: 0 <= i < |r| ==> r[i] == TokenOf(items[i].pieces)
  {
    seq(|items|, i requires 0 <= i < |items| => TokenOf(items[i].pieces))
  }

  /** Characters that are taken literally extend the current token. */
  lemma {:induction false} FeedLiteral(s: State, text: string)
    requires !s.stopped && '"' !in text
    requires s.inQuotes || forall k :: 0 <= k < |text| ==> text[k] != '#' && !IsWhitespace(text[k])
    ensures Feed(s, text) == s.(current := s.current + text, hasToken := s.hasToken || text != "")
  {
    if text == "" {
      assert s.current + text == s.current;
    } else {
      var n := |text| - 1;
      FeedLiteral(s, text[..n]);
      assert s.current + text[..n] + [text[n]] == s.current + text;
    }
  }

  lemma FeedPiece(s: State, p: Piece)
    requires Writable(p) && !s.inQuotes && !s.stopped
    ensures Feed(s, Written(p)) == s.(current := s.current + p.text, hasToken := true)
  {
    if p.quoted {
      FeedOne(s, '"');
      var open := Step(s, '"');
      FeedLiteral(open, p.text);
      FeedAppend(s, "\"", p.text);
      FeedAppend(s, "\"" + p.text, "\"");
      FeedOne(Feed(open, p.text), '"');
    } else {
      FeedLiteral(s, p.text);
    }
  }

  lemma {:induction false} FeedPieces(tokens: seq<string>, pieces: seq<Piece>)
    requires forall m :: 0 <= m < |pieces| ==> Writable(pieces[m])
    ensures Feed(State(tokens, "", false, false, false), Spelled(pieces)) ==
            State(tokens, TokenOf(pieces), pieces != [], false, false)
  {
    if pieces != [] {
      var n := |pieces| - 1;
      FeedPieces(tokens, pieces[..n]);
      FeedAppend(State(tokens, "", false, false, false), Spelled(pieces[..n]), Written(pieces[n]));
      FeedPiece(State(tokens, TokenOf(pieces[..n]), pieces[..n] != [], false, false), pieces[n]);
    }
  }

  /** The tokens, the last one included. */
  function Completed(s: State): seq<string> {
    if s.hasToken then s.tokens + [s.current] else s.tokens
  }

  /** White space completes the current token. */
  lemma {:induction false} FeedGap(s: State, gap: string)
    requires Blank(gap) && gap != "" && !s.inQuotes && !s.stopped && (s.current == "" || s.hasToken)
    ensures Feed(s, gap) == State(Completed(s), "", false, false, false)
  {
    var n := |gap| - 1;
    SpaceIsNoSign(gap[n]);
    if n > 0 {
      FeedGap(s, gap[..n]);
    } else {
      assert gap[..n] == "";
    }
  }

  lemma SpaceIsNoSign(c: char)
    requires IsWhitespace(c)
    ensures c != '"' && c != '#'
  {
  }

  lemma FeedItem(s: State, item: Item)
    requires Blank(item.gap) && (item.gap != "" || s == START) && !s.inQuotes && !s.stopped && (s.current == "" || s.hasToken)
    requires item.pieces != [] && forall m :: 0 <= m < |item.pieces| ==> Writable(item.pieces[m])
    ensures Feed(s, item.gap + Spelled(item.pieces)) == State(Completed(s), TokenOf(item.pieces), true, false, false)
  {
    FeedAppend(s, item.gap, Spelled(item.pieces));
    if item.gap != "" {
      FeedGap(s, item.gap);
    }
    FeedPieces(Completed(s), item.pieces);
  }

  /** One more token on the line. */
  lemma FeedMore(line: string, s: State, item: Item)
    requires Feed(START, line) == s && !s.inQuotes && !s.stopped && (s.current == "" || s.hasToken)
    requires Blank(item.gap) && (item.gap != "" || s == START)
    requires item.pieces != [] && forall m :: 0 <= m < |item.pieces| ==> Writable(item.pieces[m])
    ensures Feed(START, line + item.gap + Spelled(item.pieces)) ==
            State(Completed(s), TokenOf(item.pieces), true, false, false)
  {
    assert line + item.gap + Spelled(item.pieces) == line + (item.gap + Spelled(item.pieces));
    FeedAppend(START, line, item.gap + Spelled(item.pieces));
    FeedItem(s, item);
  }

  lemma SpacedFront(items: seq<Item>, n: nat)
    requires WellSpaced(items) && n < |items|
    ensures WellSpaced(items[..n]) && Blank(items[n].gap) && items[n].pieces != [] && (n > 0 ==> items[n].gap != "")
    ensures forall m :: 0 <= m < |items[n].pieces| ==> Writable(items[n].pieces[m])
  {
    forall k, m | 0 <= k < n && 0 <= m < |items[..n][k].pieces|
      ensures Writable(items[..n][k].pieces[m])
    {
      assert items[..n][k] == items[k];
    }
  }

  /** The state after the leading `n` items. */
  function After(items: seq<Item>, n: nat): State
    requires n <= |items|
  {
    if n == 0 then START else State(TokensOf(items[..n - 1]), TokenOf(items[n - 1].pieces), true, false, false)
  }

  lemma FeedNextItem(items: seq<Item>, n: nat)
    requires WellSpaced(items) && n < |items| && Feed(START, Line(items[..n])) == After(items, n)
    ensures Feed(START, Line(items[..n + 1])) == After(items, n + 1)
  {
    SpacedFront(items, n);
    CompletedAfter(items, n);
    assert items[..n + 1][..n] == items[..n];
    FeedMore(Line(items[..n]), After(items, n), items[n]);
  }

  lemma CompletedAfter(items: seq<Item>, n: nat)
    requires n <= |items|
    ensures Completed(After(items, n)) == TokensOf(items[..n])
  {
    if n > 0 {
      TokensCompleted(items[..n]);
      assert items[..n][..n - 1] == items[..n - 1];
    }
  }

  lemma {:induction false} FeedLine(items: seq<Item>, n: nat)
    requires WellSpaced(items) && n <= |items|
    ensures Feed(START, Line(items[..n])) == After(items, n)
  {
    if n > 0 {
      FeedLine(items, n - 1);
      FeedNextItem(items, n - 1);
    }
  }

  lemma TokensCompleted(items: seq<Item>)
    requires items != []
    ensures TokensOf(items) == TokensOf(items[..|items| - 1]) + [TokenOf(items[|items| - 1].pieces)]
  {
  }

  /** Tokenizing a line of written tokens, white space around them, gives the tokens back. */
  lemma LineRoundTrip(items: seq<Item>, tail: string, line: nat)
    requires WellSpaced(items) && Blank(tail)
    ensures Tokens(Line(items) + tail, line) == Ok(TokensOf(items))
  {
    FeedLine(items, |items|);
    assert items[..|items|] == items;
    FeedAppend(START, Line(items), tail);
    if tail != "" {
      FeedGap(Feed(START, Line(items)), tail);
    }
    CompletedAfter(items, |items|);
  }

  /** So every list of quote-free tokens, empty ones included, can be written down and read back, comment or not. */
  lemma QuotedRoundTrip(tokens: seq<string>, comment: string, line: nat) returns (items: seq<Item>)
    requires forall k :: 0 <= k < |tokens| ==> '"' !in tokens[k]
    ensures |items| == |tokens| && forall k :: 0 <= k < |items| ==> items[k] == Item(" ", [Piece(tokens[k], true)])
    ensures Tokens(Line(items), line) == Ok(tokens) == Tokens(Line(items) + " #" + comment, line)
  {
    items := seq(|tokens|, i requires 0 <= i < |tokens| => Item(" ", [Piece(tokens[i], true)]));
    forall k, m | 0 <= k < |items| && 0 <= m < |items[k].pieces|
      ensures Writable(items[k].pieces[m])
    {
      assert items[k].pieces[m] == Piece(tokens[k], true);
    }
    LineRoundTrip(items, "", line);
    assert Line(items) + "" == Line(items);
    CommentIgnored(Line(items), comment, line);
    forall k | 0 <= k < |tokens|
      ensures TokenOf(items[k].pieces) == tokens[k]
    {
      assert items[k].pieces[..0] == [];
    }
    assert TokensOf(items) == tokens;
  }
}
