/** What an expression means, word by word and field by field, and which part of it is at fault. */
module FilterReading {
  import opened Wrappers
  import opened Ascii
  import opened Filter

  // ----- Words -----

  /** Tab, line feed, form feed, carriage return, space. */
  predicate Blank(c: char) {
    c as int in {9, 10, 12, 13, 32}
  }

  /** A longest stretch of `s` without blanks. */
  ghost predicate IsWord(s: string, from: nat, to: nat) {
    && from < to <= |s| && (forall i :: from <= i < to ==> !Blank(s[i]))
    && (from > 0 ==> Blank(s[from - 1])) && (to < |s| ==> Blank(s[to]))
  }

  ghost predicate InPlace(s: string, start: nat, words: seq<string>, from: seq<nat>, to: seq<nat>) {
    && |words| == |from| == |to|
    && forall k :: 0 <= k < |words| ==> start <= from[k] && IsWord(s, from[k], to[k]) && words[k] == s[from[k]..to[k]]
  }

  predicate InOrder(from: seq<nat>, to: seq<nat>) {
    forall k, m :: 0 <= k < m < |from| && k < |to| ==> to[k] < from[m]
  }

  predicate Within(i: nat, from: seq<nat>, to: seq<nat>) {
    exists k :: 0 <= k < |from| && k < |to| && from[k] <= i < to[k]
  }

  /** The words of `s` from `start` on: they stand at the places named, in order, and leave out blanks alone. */
  ghost predicate WordsLie(s: string, start: nat, words: seq<string>, from: seq<nat>, to: seq<nat>) {
    && InPlace(s, start, words, from, to) && InOrder(from, to)
    && forall i :: start <= i < |s| && !Blank(s[i]) ==> Within(i, from, to)
  }

  lemma BlankIsSpace(c: char)
    ensures Blank(c) <==> IsAsciiSpace(c)
  {
  }

  lemma WordsLieLater(s: string, start: nat, words: seq<string>, from: seq<nat>, to: seq<nat>)
    requires start < |s| && Blank(s[start]) && WordsLie(s, start + 1, words, from, to)
    ensures WordsLie(s, start, words, from, to)
  {
  }

  lemma WithinMore(start: nat, end: nat, i: nat, from: seq<nat>, to: seq<nat>)
    requires start <= i < end || Within(i, from, to)
    ensures Within(i, [start] + from, [end] + to)
  {
    if start <= i < end {
      assert ([start] + from)[0] <= i < ([end] + to)[0];
    } else {
      var k :| 0 <= k < |from| && k < |to| && from[k] <= i < to[k];
      assert ([start] + from)[k + 1] <= i < ([end] + to)[k + 1];
    }
  }

  lemma Behind(s: string, start: nat, end: nat, words: seq<string>, from: seq<nat>, to: seq<nat>)
    requires IsWord(s, start, end) && InPlace(s, end, words, from, to)
    ensures InPlace(s, start, [s[start..end]] + words, [start] + from, [end] + to)
    ensures forall m :: 0 <= m < |from| ==> end < from[m]
  {
    forall m | 0 <= m < |from|
      ensures end < from[m]
    {
      assert IsWord(s, from[m], to[m]);
    }
  }

  lemma WordsLieMore(s: string, start: nat, end: nat, words: seq<string>, from: seq<nat>, to: seq<nat>)
    requires IsWord(s, start, end) && WordsLie(s, end, words, from, to)
    ensures WordsLie(s, start, [s[start..end]] + words, [start] + from, [end] + to)
  {
    Behind(s, start, end, words, from, to);
    forall i | start <= i < |s| && !Blank(s[i])
      ensures Within(i, [start] + from, [end] + to)
    {
      WithinMore(start, end, i, from, to);
    }
  }

  /** The words of an expression are exactly its longest stretches without blanks. */
  lemma {:induction false} WordsAre(s: string, start: nat) returns (from: seq<nat>, to: seq<nat>)
    requires start <= |s| && (0 < start < |s| ==> Blank(s[start]) || Blank(s[start - 1]))
    ensures WordsLie(s, start, Words(s[start..]), from, to)
    decreases |s| - start
  {
    from, to := [], [];
    if start < |s| {
      BlankIsSpace(s[start]);
      if Blank(s[start]) {
        assert s[start..][1..] == s[start + 1..];
        from, to := WordsAre(s, start + 1);
        WordsLieLater(s, start, Words(s[start + 1..]), from, to);
      } else {
        var length := WordEnd(s[start..]);
        var end := start + length;
        WordIs(s, start, end);
        assert s[start..][..length] == s[start..end] && s[start..][length..] == s[end..];
        from, to := WordsAre(s, end);
        WordsLieMore(s, start, end, Words(s[end..]), from, to);
        from, to := [start] + from, [end] + to;
      }
    }
  }

  lemma WordIs(s: string, start: nat, end: nat)
    requires start < |s| && !Blank(s[start]) && (start > 0 ==> Blank(s[start - 1]))
    requires end == start + WordEnd(s[start..])
    ensures IsWord(s, start, end)
  {
    BlankIsSpace(s[start]);
    forall i | start <= i < end
      ensures !Blank(s[i])
    {
      BlankIsSpace(s[i]);
      assert s[start..][..end - start][i - start] == s[i];
    }
    if end < |s| {
      BlankIsSpace(s[end]);
    }
  }

  // ----- Chains -----

  type Answer = Result<FilterEntry, FilterError>

  /** Each word as a filter, or what is wrong with it. */
  function Answers(n: Numerals, words: seq<string>): (answers: seq<Answer>)
    ensures |answers| == |words| && forall k :: 0 <= k < |words| ==> answers[k] == ParseEntry(n, words[k])
  {
    seq(|words|, k requires 0 <= k < |words| => ParseEntry(n, words[k]))
  }

  predicate IsArea(a: Answer) {
    a.Ok? && a.value.filter.Area?
  }

  /** The areas among the leading `k` answers. */
  function AreaCount(answers: seq<Answer>, k: nat): nat
    requires k <= |answers|
  {
    if k == 0 then 0 else AreaCount(answers, k - 1) + if IsArea(answers[k - 1]) then 1 else 0
  }

  /** The leading `k` answers are filters, at most 64 in all and at most nine of them areas. */
  ghost predicate Fine(answers: seq<Answer>, k: nat)
    requires k <= |answers|
  {
    k <= 64 && AreaCount(answers, k) <= 9 && forall j :: 0 <= j < k ==> answers[j].Ok?
  }

  ghost function EntriesOf(answers: seq<Answer>, k: nat): (chain: FilterChain)
    requires k <= |answers| && Fine(answers, k)
    ensures |chain| == k && forall j :: 0 <= j < k ==> answers[j] == Ok(chain[j])
  {
    seq(k, j requires 0 <= j < k => answers[j].value)
  }

  lemma FineBefore(answers: seq<Answer>, k: nat)
    requires 0 < k <= |answers| && Fine(answers, k)
    ensures Fine(answers, k - 1)
    ensures EntriesOf(answers, k) == EntriesOf(answers, k - 1) + [answers[k - 1].value]
  {
  }

  lemma AreasMore(chain: FilterChain, e: FilterEntry)
    ensures Areas(chain + [e]) == Areas(chain) + if e.filter.Area? then 1 else 0
  {
    assert (chain + [e])[..|chain|] == chain;
  }

  lemma {:induction false} AreasCounted(answers: seq<Answer>, k: nat)
    requires k <= |answers| && Fine(answers, k)
    ensures Areas(EntriesOf(answers, k)) == AreaCount(answers, k)
  {
    if k > 0 {
      FineBefore(answers, k);
      AreasCounted(answers, k - 1);
      AreasMore(EntriesOf(answers, k - 1), answers[k - 1].value);
    }
  }

  lemma ReadOne(n: Numerals, words: seq<string>, chain: FilterChain, e: FilterEntry)
    requires words != [] && ParseEntry(n, words[0]) == Ok(e) && |chain| < 64 && (e.filter.Area? ==> Areas(chain) < 9)
    ensures ParseWords(n, words, chain) == ParseWords(n, words[1..], chain + [e])
  {
  }

  /** What becomes of the words from `k` on, behind the entries so far. */
  ghost function Rest(n: Numerals, words: seq<string>, k: nat, answers: seq<Answer>): Result<FilterChain, FilterError>
    requires k <= |words| == |answers| && Fine(answers, k)
  {
    ParseWords(n, words[k..], EntriesOf(answers, k))
  }

  lemma ReadNext(n: Numerals, words: seq<string>, k: nat, answers: seq<Answer>)
    requires answers == Answers(n, words) && k < |words| && Fine(answers, k + 1) && Fine(answers, k)
    ensures Rest(n, words, k, answers) == Rest(n, words, k + 1, answers)
  {
    FineBefore(answers, k + 1);
    AreasCounted(answers, k);
    ReadOne(n, words[k..], EntriesOf(answers, k), answers[k].value);
    assert words[k..][1..] == words[k + 1..];
  }

  lemma {:induction false} FineEarlier(answers: seq<Answer>, k: nat, j: nat)
    requires j <= k <= |answers| && Fine(answers, k)
    ensures Fine(answers, j)
  {
    if j < k {
      FineBefore(answers, k);
      FineEarlier(answers, k - 1, j);
    }
  }

  lemma {:induction false} Constant<T>(s: seq<T>, k: nat)
    requires k < |s| && forall j :: 0 < j < |s| ==> s[j] == s[j - 1]
    ensures s[k] == s[0]
  {
    if k > 0 {
      Constant(s, k - 1);
    }
  }

  lemma ReadSoFar(n: Numerals, words: seq<string>, k: nat, answers: seq<Answer>)
    requires answers == Answers(n, words) && k <= |words| && Fine(answers, k)
    ensures Fine(answers, 0) && Rest(n, words, 0, answers) == Rest(n, words, k, answers)
  {
    forall j | 0 <= j <= k
      ensures Fine(answers, j)
    {
      FineEarlier(answers, k, j);
    }
    var rests := seq(k + 1, j requires 0 <= j <= k => Rest(n, words, j, answers));
    forall j | 0 < j <= k
      ensures rests[j] == rests[j - 1]
    {
      ReadNext(n, words, j - 1, answers);
    }
    Constant(rests, k);
  }

  /** Why word `k` is the first that does not fit. */
  function Fault(answers: seq<Answer>, k: nat): FilterError
    requires k < |answers|
  {
    if k == 64 then TooManyFilters else if answers[k].Err? then answers[k].error else TooManyAreaFilters
  }

  lemma StopAt(n: Numerals, words: seq<string>, chain: FilterChain)
    requires words != [] && |chain| <= 64
    ensures |chain| == 64 ==> ParseWords(n, words, chain) == Err(TooManyFilters)
    ensures |chain| < 64 && ParseEntry(n, words[0]).Err? ==>
      ParseWords(n, words, chain) == Err(ParseEntry(n, words[0]).error)
    ensures |chain| < 64 && IsArea(ParseEntry(n, words[0])) && Areas(chain) >= 9 ==>
      ParseWords(n, words, chain) == Err(TooManyAreaFilters)
  {
  }

  /** An expression is accepted, one entry a word, when all its words are fine; if not, the first that is not says why. */
  lemma ChainReads(n: Numerals, expression: string, k: nat)
    requires k <= |Words(expression)| && Fine(Answers(n, Words(expression)), k)
    ensures var words, answers := Words(expression), Answers(n, Words(expression));
      && (k == |words| ==> ParseExpression(n, expression) == Ok(EntriesOf(answers, k)))
      && (k < |words| && !Fine(answers, k + 1) ==> ParseExpression(n, expression) == Err(Fault(answers, k)))
  {
    var words, answers := Words(expression), Answers(n, Words(expression));
    ReadSoFar(n, words, k, answers);
    AreasCounted(answers, k);
    assert words[0..] == words && EntriesOf(answers, 0) == [];
    if k < |words| {
      StopAt(n, words[k..], EntriesOf(answers, k));
    }
  }

  // ----- Lists of names -----

  /** `items` are the texts of `args` that are not empty, in order and upper-cased; `at` says where they stand. */
  ghost predicate Listed(items: seq<string>, args: seq<string>, at: seq<nat>) {
    && |at| == |items|
    && (forall k :: 0 <= k < |at| ==> at[k] < |args| && args[at[k]] != "" && items[k] == Upper(args[at[k]]))
    && (forall k, m :: 0 <= k < m < |at| ==> at[k] < at[m])
    && forall j :: 0 <= j < |args| && args[j] != "" ==> exists k :: 0 <= k < |at| && at[k] == j
  }

  lemma ListedMore(items: seq<string>, args: seq<string>, at: seq<nat>, next: string)
    requires Listed(items, args, at)
    ensures next == "" ==> Listed(items, args + [next], at)
    ensures next != "" ==> Listed(items + [Upper(next)], args + [next], at + [|args|])
  {
    forall j | 0 <= j < |args| && args[j] != ""
      ensures exists k :: 0 <= k < |at| && (at + [|args|])[k] == at[k] == j
    {
    }
    if next != "" {
      assert (at + [|args|])[|at|] == |args|;
    }
  }

  lemma {:induction false} EntriesSnoc(args: seq<string>, next: string)
    ensures Entries(args + [next]) == Entries(args) + if next == "" then [] else [Upper(next)]
  {
    if args == [] {
      assert args + [next] == [next];
    } else {
      assert (args + [next])[1..] == args[1..] + [next];
      EntriesSnoc(args[1..], next);
    }
  }

  lemma {:induction false} EntriesAre(args: seq<string>) returns (at: seq<nat>)
    ensures Listed(Entries(args), args, at)
  {
    at := [];
    if args != [] {
      var n := |args| - 1;
      at := EntriesAre(args[..n]);
      assert args == args[..n] + [args[n]];
      EntriesSnoc(args[..n], args[n]);
      ListedMore(Entries(args[..n]), args[..n], at, args[n]);
      assert Entries(args[..n]) + [] == Entries(args[..n]);
      if args[n] != "" {
        at := at + [n];
      }
    }
  }

  /** The filter of this letter with these names. */
  predicate Holds(f: Filter, letter: char, items: seq<string>) {
    || (letter == 'p' && f == Prefix(items)) || (letter == 'b' && f == Budlist(items)) || (letter == 'o' && f == Object(items))
    || (letter == 'd' && f == Digipeater(items)) || (letter == 'e' && f == Entry(items))
    || (letter == 'g' && f == Group(items)) || (letter == 'u' && f == Unproto(items))
  }

  /** A list filter holds every name it was given, upper-cased; no name at all, or more than 64 fields, is a fault. */
  lemma NamesRead(n: Numerals, letter: char, args: seq<string>) returns (at: seq<nat>, items: seq<string>)
    requires letter in "pbodegu"
    ensures Listed(items, args, at)
    ensures items == [] ==> ParseFields(n, [letter], args) == Err(EmptyArgumentList([letter]))
    ensures items != [] && |args| > 64 ==> ParseFields(n, [letter], args) == Err(TooManyEntries([letter]))
    ensures items != [] && |args| <= 64 ==>
      ParseFields(n, [letter], args).Ok? && Holds(ParseFields(n, [letter], args).value, letter, items)
  {
    items := Entries(args);
    at := EntriesAre(args);
  }

  // ----- Categories -----

  /** The lower-case letter `c` occurs among `letters`, in either case. */
  ghost predicate Occurs(c: char, letters: string) {
    exists k :: 0 <= k < |letters| && SameLetter(c, letters[k])
  }

  /** A letter of one of the ten categories, in either case. */
  ghost predicate Names(letter: char) {
    exists c :: c in "poimqstunw" && SameLetter(c, letter)
  }

  lemma CategoryIs(letter: char)
    ensures Names(letter) <==> LowerChar(letter) in TYPE_LETTERS
    ensures forall c :: c in "poimqstunw" ==> (SameLetter(c, letter) <==> c == LowerChar(letter))
  {
    assert SameLetter(LowerChar(letter), letter);
  }

  lemma OccursFirst(c: char, letters: string)
    requires letters != ""
    ensures Occurs(c, letters) <==> SameLetter(c, letters[0]) || Occurs(c, letters[1..])
  {
    if Occurs(c, letters[1..]) {
      var k :| 0 <= k < |letters| - 1 && SameLetter(c, letters[1..][k]);
      assert SameLetter(c, letters[k + 1]);
    }
    if Occurs(c, letters) && !SameLetter(c, letters[0]) {
      var k :| 0 <= k < |letters| && SameLetter(c, letters[k]);
      assert SameLetter(c, letters[1..][k - 1]);
    }
  }

  /** Every letter has to name a category. */
  lemma {:induction false} CategoriesKnown(letters: string)
    ensures TypesOf(letters).Some? <==> forall k :: 0 <= k < |letters| ==> Names(letters[k])
  {
    if letters != "" {
      CategoriesKnown(letters[1..]);
      CategoryIs(letters[0]);
      assert forall k :: 0 < k < |letters| ==> letters[1..][k - 1] == letters[k];
      assert forall k :: 0 <= k < |letters| - 1 ==> letters[k + 1] == letters[1..][k];
    }
  }

  /** And the categories are those whose letters occur. */
  lemma {:induction false} CategoriesRead(letters: string, c: char)
    requires TypesOf(letters).Some?
    ensures c in TypesOf(letters).value <==> c in "poimqstunw" && Occurs(c, letters)
  {
    if letters != "" {
      CategoriesRead(letters[1..], c);
      CategoryIs(letters[0]);
      OccursFirst(c, letters);
    }
  }

  // ----- Numbers -----

  datatype Quantity = Latitude | Longitude | Distance

  /** The field holds a number fit for its place. */
  predicate Fits(n: Numerals, quantity: Quantity, text: string, v: real) {
    && n.parse(text) == Some(v)
    && match quantity
       case Latitude => -90.0 <= v <= 90.0
       case Longitude => -180.0 <= v <= 180.0
       case Distance => v > 0.0
  }

  /** What is wrong with a field that does not. */
  function Unfit(n: Numerals, quantity: Quantity, text: string): FilterError {
    match (quantity, n.parse(text))
    case (Latitude, None) => NotANumber("latitude", text)
    case (Longitude, None) => NotANumber("longitude", text)
    case (Distance, None) => NotANumber("distance", text)
    case (Latitude, Some(v)) => LatitudeOutOfRange(v)
    case (Longitude, Some(v)) => LongitudeOutOfRange(v)
    case (Distance, Some(v)) => DistanceOutOfRange(v)
  }

  /** What the fields of a numeric filter measure. */
  function Quantities(code: string): seq<Quantity>
    requires code in ["r", "a", "m"]
  {
    if code == "r" then [Latitude, Longitude, Distance]
    else if code == "a" then [Latitude, Longitude, Latitude, Longitude]
    else [Distance]
  }

  /** The filter of these numbers, in the order of its fields. */
  predicate Measures(f: Filter, code: string, v: seq<real>) {
    || (code == "r" && |v| == 3 && f == Range(v[0], v[1], v[2]))
    || (code == "a" && |v| == 4 && f == Area(v[0], v[1], v[2], v[3]))
    || (code == "m" && |v| == 1 && f == MyRange(v[0]))
  }

  /** A numeric filter holds the numbers of its fields when all of them fit; otherwise the first that does not is at fault. */
  lemma NumbersRead(n: Numerals, code: string, args: seq<string>, v: seq<real>)
    requires code in ["r", "a", "m"] && |v| <= |args| == |Quantities(code)|
    requires forall k :: 0 <= k < |v| ==> Fits(n, Quantities(code)[k], args[k], v[k])
    ensures |v| == |args| ==> ParseFields(n, code, args).Ok? && Measures(ParseFields(n, code, args).value, code, v)
    ensures |v| < |args| && (forall x :: !Fits(n, Quantities(code)[|v|], args[|v|], x)) ==>
      ParseFields(n, code, args) == Err(Unfit(n, Quantities(code)[|v|], args[|v|]))
  {
    if |v| < |args| && n.parse(args[|v|]).Some? {
      assert Fits(n, Quantities(code)[|v|], args[|v|], n.parse(args[|v|]).value) ||
             !Fits(n, Quantities(code)[|v|], args[|v|], n.parse(args[|v|]).value);
    }
  }

  /** A number of fields none of them takes is reported with what was expected. */
  lemma FieldsCounted(n: Numerals, code: string, args: seq<string>)
    requires code in ["r", "a", "m"] && |args| != |Quantities(code)|
    ensures ParseFields(n, code, args) ==
            Err(WrongArgumentCount(code, if code == "r" then "3" else if code == "a" then "4" else "1", |args|))
  {
  }

  // ----- Other filters -----

  /** The construct filter asks for IGate positions when its second field holds an `I`. */
  lemma ConstructRead(n: Numerals, args: seq<string>)
    ensures ParseFields(n, "q", args) ==
      if |args| == 1 then Ok(QConstruct(args[0], false))
      else if |args| == 2 then Ok(QConstruct(args[0], exists k :: 0 <= k < |args[1]| && args[1][k] == 'I'))
      else Err(WrongArgumentCount("q", "1 or 2", |args|))
  {
  }

  /** A friend's callsign is upper-cased, and so is that of a station to be near; the distance has to fit. */
  lemma CallsRead(n: Numerals, letters: string, call: string, text: string, types: set<char>)
    requires letters != "" && TypesOf(letters) == Some(types)
    ensures match n.parse(text)
      case None =>
        && ParseFields(n, "f", [call, text]) == Err(NotANumber("distance", text))
        && ParseFields(n, "t", [letters, call, text]) == Err(NotANumber("distance", text))
      case Some(km) =>
        if km > 0.0 then
          && ParseFields(n, "f", [call, text]) == Ok(FriendRange(Upper(call), km))
          && ParseFields(n, "t", [letters, call, text]) == Ok(Type(types, Some(Near(Upper(call), km))))
        else
          && ParseFields(n, "f", [call, text]) == Err(DistanceOutOfRange(km))
          && ParseFields(n, "t", [letters, call, text]) == Err(DistanceOutOfRange(km))
  {
  }

  /** No filter is named by anything but the fourteen letters. */
  lemma UnknownRead(n: Numerals, code: string, args: seq<string>)
    requires |code| != 1 || code[0] !in "rpbodegutsaqmf"
    ensures ParseFields(n, code, args) == Err(UnknownType(code))
  {
    if |code| == 1 {
      assert [code[0]] == code;
    }
  }

  /** A leading `-` negates the filter behind it; on its own it is no filter. */
  lemma MinusRead(n: Numerals, word: string)
    requires word != ""
    ensures word[0] != '-' && ParseFilter(n, word).Ok? ==>
      ParseEntry(n, word) == Ok(FilterEntry(false, ParseFilter(n, word).value))
    ensures word[0] == '-' && |word| > 1 && ParseFilter(n, word[1..]).Ok? ==>
      ParseEntry(n, word) == Ok(FilterEntry(true, ParseFilter(n, word[1..]).value))
    ensures word == "-" ==> ParseEntry(n, word) == Err(Empty)
  {
  }
}
