/**
  Server-side filters: the expression a client sends, parsed into a chain and rendered back.
  Numerals are read and printed by a pair of functions the chain is given.
*/
module Filter {
  import opened Wrappers
  import opened Ascii

  const MAX_FILTERS: nat := 64
  const MAX_LIST_ENTRIES: nat := 64
  const MAX_AREA_FILTERS: nat := 9
  const TYPE_LETTERS: string := "poimqstunw"

  datatype FilterError =
    | Empty
    | TooManyFilters
    | TooManyAreaFilters
    | TooManyEntries(list: string)
    | UnknownType(code: string)
    | WrongArgumentCount(argCode: string, expected: string, found: nat)
    | EmptyArgumentList(listCode: string)
    | NotANumber(what: string, text: string)
    | LatitudeOutOfRange(latitude: real)
    | LongitudeOutOfRange(longitude: real)
    | DistanceOutOfRange(distance: real)
    | UnknownTypeLetter(letters: string)

  datatype Near = Near(callsign: string, km: real)

  datatype Filter =
    | Range(latitude: real, longitude: real, distanceKm: real)
    | Prefix(prefixes: seq<string>)
    | Budlist(calls: seq<string>)
    | Object(names: seq<string>)
    | Digipeater(digis: seq<string>)
    | Entry(entries: seq<string>)
    | Group(groups: seq<string>)
    | Unproto(dests: seq<string>)
    | Type(types: set<char>, near: Option<Near>)
    | Symbol(primary: string, alternate: string, overlay: string)
    | Area(latNorth: real, lonWest: real, latSouth: real, lonEast: real)
    | QConstruct(constructs: string, igatePositions: bool)
    | MyRange(km: real)
    | FriendRange(friend: string, friendKm: real)

  datatype FilterEntry = FilterEntry(negated: bool, filter: Filter)

  type FilterChain = seq<FilterEntry>

  /** Reading and printing of numbers; `parse` yields finite values only. */
  datatype Numerals = Numerals(parse: string -> Option<real>, show: real -> string)

  // ----- Splitting and joining -----

  function Split(s: string, c: char): (r: seq<string>)
    ensures r != []
    decreases |s|
  {
    var i := IndexFrom(s, c, 0);
    if i == |s| then [s] else [s[..i]] + Split(s[i + 1..], c)
  }

  function Join(parts: seq<string>, c: char): string {
    if parts == [] then ""
    else if |parts| == 1 then parts[0]
    else parts[0] + [c] + Join(parts[1..], c)
  }

  /** The first part of a joined text is what a split finds first. */
  lemma SplitFirst(s: string, part: string, c: char, rest: string)
    requires s == part + [c] + rest && Lacks(part, c)
    ensures Split(s, c) == [part] + Split(rest, c)
  {
    assert forall k :: 0 <= k < |part| ==> s[k] == part[k];
    IndexIs(s, c, 0, |part|);
    assert s[..|part|] == part && s[|part| + 1..] == rest;
  }

  lemma SplitOnly(part: string, c: char)
    requires Lacks(part, c)
    ensures Split(part, c) == [part]
  {
    IndexIs(part, c, 0, |part|);
  }

  lemma {:induction false} SplitJoin(parts: seq<string>, c: char)
    requires parts != [] && forall k :: 0 <= k < |parts| ==> Lacks(parts[k], c)
    ensures Split(Join(parts, c), c) == parts
  {
    if |parts| == 1 {
      SplitOnly(parts[0], c);
    } else {
      SplitJoin(parts[1..], c);
      SplitFirst(Join(parts, c), parts[0], c, Join(parts[1..], c));
    }
  }

  /** A text that neither splits at a slash nor at whitespace. */
  predicate Plain(s: string) {
    forall k :: 0 <= k < |s| ==> s[k] != '/' && !IsAsciiSpace(s[k])
  }

  predicate IsAsciiSpace(c: char) {
    c == ' ' || c == '\t' || c == '\n' || c == '\U{000C}' || c == '\r'
  }

  predicate NoSpace(s: string) {
    forall k :: 0 <= k < |s| ==> !IsAsciiSpace(s[k])
  }

  predicate AllPlain(parts: seq<string>) {
    forall k :: 0 <= k < |parts| ==> Plain(parts[k])
  }

  lemma {:induction false} SplitPlain(s: string)
    requires NoSpace(s)
    ensures AllPlain(Split(s, '/'))
    decreases |s|
  {
    var i := IndexFrom(s, '/', 0);
    NoneBefore(s, '/', 0);
    if i < |s| {
      SplitPlain(s[i + 1..]);
    }
  }

  // ----- One filter -----

  /** The entries of a list argument: upper-cased, empty ones dropped. */
  function Entries(args: seq<string>): (r: seq<string>)
    ensures |r| <= |args|
    ensures forall k :: 0 <= k < |r| ==> r[k] != ""
  {
    if args == [] then []
    else (if args[0] == "" then [] else [Upper(args[0])]) + Entries(args[1..])
  }

  function List(code: string, args: seq<string>): Result<seq<string>, FilterError> {
    if Entries(args) == [] then Err(EmptyArgumentList(code))
    else if |args| > MAX_LIST_ENTRIES then Err(TooManyEntries(code))
    else Ok(Entries(args))
  }

  function Number(n: Numerals, what: string, text: string): Result<real, FilterError> {
    match n.parse(text)
    case Some(v) => Ok(v)
    case None => Err(NotANumber(what, text))
  }

  function Latitude(n: Numerals, text: string): Result<real, FilterError> {
    match Number(n, "latitude", text)
    case Ok(v) => if -90.0 <= v <= 90.0 then Ok(v) else Err(LatitudeOutOfRange(v))
    case Err(e) => Err(e)
  }

  function Longitude(n: Numerals, text: string): Result<real, FilterError> {
    match Number(n, "longitude", text)
    case Ok(v) => if -180.0 <= v <= 180.0 then Ok(v) else Err(LongitudeOutOfRange(v))
    case Err(e) => Err(e)
  }

  function Distance(n: Numerals, text: string): Result<real, FilterError> {
    match Number(n, "distance", text)
    case Ok(v) => if v > 0.0 then Ok(v) else Err(DistanceOutOfRange(v))
    case Err(e) => Err(e)
  }

  /** The categories named by the letters, or none when a letter is unknown. */
  function TypesOf(letters: string): Option<set<char>> {
    if letters == "" then Some({})
    else if LowerChar(letters[0]) !in TYPE_LETTERS then None
    else match TypesOf(letters[1..])
      case Some(types) => Some({LowerChar(letters[0])} + types)
      case None => None
  }

  function ParseType(n: Numerals, args: seq<string>): Result<Filter, FilterError> {
    var letters := if |args| > 0 then args[0] else "";
    if letters == "" then Err(EmptyArgumentList("t"))
    else match TypesOf(letters)
      case None => Err(UnknownTypeLetter(letters))
      case Some(types) =>
        if |args| == 1 then Ok(Type(types, None))
        else if |args| == 2 then Err(WrongArgumentCount("t", "1 or 3", 2))
        else match Distance(n, args[2])
          case Ok(km) => Ok(Type(types, Some(Near(Upper(args[1]), km))))
          case Err(e) => Err(e)
  }

  function ParseRange(n: Numerals, args: seq<string>): Result<Filter, FilterError> {
    if |args| != 3 then Err(WrongArgumentCount("r", "3", |args|))
    else match (Latitude(n, args[0]), Longitude(n, args[1]), Distance(n, args[2]))
      case (Err(e), _, _) => Err(e)
      case (_, Err(e), _) => Err(e)
      case (_, _, Err(e)) => Err(e)
      case (Ok(lat), Ok(lon), Ok(km)) => Ok(Range(lat, lon, km))
  }

  function ParseArea(n: Numerals, args: seq<string>): Result<Filter, FilterError> {
    if |args| != 4 then Err(WrongArgumentCount("a", "4", |args|))
    else match (Latitude(n, args[0]), Longitude(n, args[1]), Latitude(n, args[2]), Longitude(n, args[3]))
      case (Err(e), _, _, _) => Err(e)
      case (_, Err(e), _, _) => Err(e)
      case (_, _, Err(e), _) => Err(e)
      case (_, _, _, Err(e)) => Err(e)
      case (Ok(north), Ok(west), Ok(south), Ok(east)) => Ok(Area(north, west, south, east))
  }

  function ParseSymbol(args: seq<string>): Result<Filter, FilterError> {
    if args == [] || |args| > 3 then Err(WrongArgumentCount("s", "1 to 3", |args|))
    else Ok(Symbol(args[0], if |args| > 1 then args[1] else "", if |args| > 2 then args[2] else ""))
  }

  function ParseQ(args: seq<string>): Result<Filter, FilterError> {
    if args == [] || |args| > 2 then Err(WrongArgumentCount("q", "1 or 2", |args|))
    else Ok(QConstruct(args[0], |args| > 1 && 'I' in args[1]))
  }

  function ParseMy(n: Numerals, args: seq<string>): Result<Filter, FilterError> {
    if |args| != 1 then Err(WrongArgumentCount("m", "1", |args|))
    else match Distance(n, args[0])
      case Ok(km) => Ok(MyRange(km))
      case Err(e) => Err(e)
  }

  function ParseFriend(n: Numerals, args: seq<string>): Result<Filter, FilterError> {
    if |args| != 2 then Err(WrongArgumentCount("f", "2", |args|))
    else match Distance(n, args[1])
      case Ok(km) => Ok(FriendRange(Upper(args[0]), km))
      case Err(e) => Err(e)
  }

  /** The list-valued filters, by their letter. */
  function ListFilter(letter: char, items: seq<string>): Filter {
    match letter
    case 'p' => Prefix(items)
    case 'b' => Budlist(items)
    case 'o' => Object(items)
    case 'd' => Digipeater(items)
    case 'e' => Entry(items)
    case 'g' => Group(items)
    case _ => Unproto(items)
  }

  predicate IsListLetter(letter: char) {
    || letter == 'p' || letter == 'b' || letter == 'o' || letter == 'd'
    || letter == 'e' || letter == 'g' || letter == 'u'
  }

  function ParseList(letter: char, args: seq<string>): Result<Filter, FilterError> {
    match List([letter], args)
    case Ok(items) => Ok(ListFilter(letter, items))
    case Err(e) => Err(e)
  }

  /** One filter from its letter and the fields behind it. */
  function ParseLetter(n: Numerals, letter: char, args: seq<string>): Result<Filter, FilterError> {
    if IsListLetter(letter) then ParseList(letter, args)
    else match letter
      case 'r' => ParseRange(n, args)
      case 't' => ParseType(n, args)
      case 's' => ParseSymbol(args)
      case 'a' => ParseArea(n, args)
      case 'q' => ParseQ(args)
      case 'm' => ParseMy(n, args)
      case 'f' => ParseFriend(n, args)
      case _ => Err(UnknownType([letter]))
  }

  /** Every filter type is named by a single letter. */
  function ParseFields(n: Numerals, code: string, args: seq<string>): Result<Filter, FilterError> {
    if |code| == 1 then ParseLetter(n, code[0], args) else Err(UnknownType(code))
  }

  function ParseFilter(n: Numerals, text: string): Result<Filter, FilterError> {
    var fields := Split(text, '/');
    ParseFields(n, fields[0], fields[1..])
  }

  // ----- Printing one filter -----

  /** The letters of a category set, in the order the protocol lists them, from the `i`th on. */
  function LettersFrom(types: set<char>, i: nat): string
    requires i <= |TYPE_LETTERS|
    decreases |TYPE_LETTERS| - i, types
  {
    if i == |TYPE_LETTERS| then ""
    else
      var c, rest := TYPE_LETTERS[i], LettersFrom(types, i + 1);
      if c in types then [c] + rest else rest
  }

  /** The fields a filter is printed as, slashes between them. */
  function Fields(n: Numerals, f: Filter): (r: seq<string>)
    ensures r != []
  {
    match f
    case Range(lat, lon, km) => ["r", n.show(lat), n.show(lon), n.show(km)]
    case Prefix(items) => ["p"] + items
    case Budlist(items) => ["b"] + items
    case Object(items) => ["o"] + items
    case Digipeater(items) => ["d"] + items
    case Entry(items) => ["e"] + items
    case Group(items) => ["g"] + items
    case Unproto(items) => ["u"] + items
    case Type(types, None) => ["t", LettersFrom(types, 0)]
    case Type(types, Some(near)) => ["t", LettersFrom(types, 0), near.callsign, n.show(near.km)]
    case Symbol(primary, alternate, overlay) =>
      if overlay == "" && alternate == "" then ["s", primary]
      else if overlay == "" then ["s", primary, alternate]
      else ["s", primary, alternate, overlay]
    case Area(north, west, south, east) => ["a", n.show(north), n.show(west), n.show(south), n.show(east)]
    case QConstruct(constructs, igatePositions) =>
      if igatePositions then ["q", constructs, "I"] else ["q", constructs]
    case MyRange(km) => ["m", n.show(km)]
    case FriendRange(callsign, km) => ["f", callsign, n.show(km)]
  }

  function Render(n: Numerals, f: Filter): string {
    Join(Fields(n, f), '/')
  }

  // ----- Chains -----

  /** The end of the word `s` begins with. */
  function WordEnd(s: string): (e: nat)
    ensures e <= |s| && NoSpace(s[..e]) && (e < |s| ==> IsAsciiSpace(s[e]))
  {
    if s == "" || IsAsciiSpace(s[0]) then 0
    else
      assert s[..WordEnd(s[1..]) + 1] == [s[0]] + s[1..][..WordEnd(s[1..])];
      WordEnd(s[1..]) + 1
  }

  /** Split on runs of ASCII whitespace. */
  function Words(s: string): (r: seq<string>)
    ensures forall k :: 0 <= k < |r| ==> r[k] != "" && NoSpace(r[k])
    decreases |s|
  {
    if s == "" then []
    else if IsAsciiSpace(s[0]) then Words(s[1..])
    else [s[..WordEnd(s)]] + Words(s[WordEnd(s)..])
  }

  /** One word of an expression: a filter, perhaps negated. */
  function ParseEntry(n: Numerals, word: string): Result<FilterEntry, FilterError> {
    var negated := word != "" && word[0] == '-';
    var body := if negated then word[1..] else word;
    if body == "" then Err(Empty)
    else match ParseFilter(n, body)
      case Ok(filter) => Ok(FilterEntry(negated, filter))
      case Err(e) => Err(e)
  }

  function Areas(chain: FilterChain): nat {
    if chain == [] then 0
    else Areas(chain[..|chain| - 1]) + if chain[|chain| - 1].filter.Area? then 1 else 0
  }

  /** The rest of the words, added to the entries so far. */
  function ParseWords(n: Numerals, words: seq<string>, chain: FilterChain): Result<FilterChain, FilterError>
    decreases |words|
  {
    if words == [] then Ok(chain)
    else if |chain| >= MAX_FILTERS then Err(TooManyFilters)
    else match ParseEntry(n, words[0])
      case Err(e) => Err(e)
      case Ok(entry) =>
        if entry.filter.Area? && Areas(chain) + 1 > MAX_AREA_FILTERS then Err(TooManyAreaFilters)
        else ParseWords(n, words[1..], chain + [entry])
  }

  function ParseExpression(n: Numerals, expression: string): Result<FilterChain, FilterError> {
    ParseWords(n, Words(expression), [])
  }

  /** The chain as the server builds it, entry by entry. */
  method ParseChain(n: Numerals, expression: string) returns (r: Result<FilterChain, FilterError>)
    ensures r == ParseExpression(n, expression)
  {
    var words := Words(expression);
    var chain: FilterChain := [];
    var areas := 0;
    for i := 0 to |words|
      invariant areas == Areas(chain)
      invariant ParseWords(n, words[i..], chain) == ParseExpression(n, expression)
    {
      if |chain| >= MAX_FILTERS {
        return Err(TooManyFilters);
      }
      assert words[i..][0] == words[i] && words[i..][1..] == words[i + 1..];
      var entry := ParseEntry(n, words[i]);
      if entry.Err? {
        return Err(entry.error);
      }
      if entry.value.filter.Area? {
        areas := areas + 1;
        if areas > MAX_AREA_FILTERS {
          return Err(TooManyAreaFilters);
        }
      }
      chain := chain + [entry.value];
    }
    return Ok(chain);
  }

  function RenderEntry(n: Numerals, e: FilterEntry): string {
    (if e.negated then "-" else "") + Render(n, e.filter)
  }

  function RenderWords(n: Numerals, chain: FilterChain): (r: seq<string>)
    ensures |r| == |chain| && forall i :: 0 <= i < |r| ==> r[i] == RenderEntry(n, chain[i])
  {
    seq(|chain|, i requires 0 <= i < |chain| => RenderEntry(n, chain[i]))
  }

  function RenderChain(n: Numerals, chain: FilterChain): string {
    Join(RenderWords(n, chain), ' ')
  }

  // ----- Matching -----

  /** The verdict on a packet, given which filters it hits: negation wins wherever it stands. */
  method Matches(chain: FilterChain, hit: Filter -> bool) returns (passed: bool)
    ensures passed <==> ChainMatches(chain, hit)
  {
    passed := false;
    for i := 0 to |chain|
      invariant forall k :: 0 <= k < i ==> !(chain[k].negated && hit(chain[k].filter))
      invariant passed <==> exists k :: 0 <= k < i && hit(chain[k].filter)
    {
      if hit(chain[i].filter) {
        if chain[i].negated {
          return false;
        }
        passed := true;
      }
    }
  }

  predicate ChainMatches(chain: FilterChain, hit: Filter -> bool) {
    && (exists k :: 0 <= k < |chain| && !chain[k].negated && hit(chain[k].filter))
    && (forall k :: 0 <= k < |chain| ==> !(chain[k].negated && hit(chain[k].filter)))
  }
}
