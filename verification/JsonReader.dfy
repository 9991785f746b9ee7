/** Reading JSON text as the standard library's scanner does: white space between tokens, every number and escape of
    RFC 8259, the names `NaN`, `Infinity` and `-Infinity`, unpaired surrogates, a limit on nesting and one on digits. */
module JsonReader {
  import opened Kernel
  import opened Text
  import opened JsonNumbers

  /** A string of the language: code points, surrogates among them. */
  type Points = seq<int>

  /** What is read; a number is kept as its text, and a repeated name as often as it occurs. */
  datatype Loaded =
    | Nothing
    | Truth(flag: bool)
    | Number(text: string)
    | Chars(points: Points)
    | List(items: seq<Loaded>)
    | Dict(members: seq<Named>)

  datatype Named = Named(name: Points, value: Loaded)

  /** `Malformed` is a refusal; `TooDeep` is the interpreter's recursion error. */
  datatype Failure = Malformed | TooDeep

  /** How many containers may be open at once, and how many digits an integer may have. */
  datatype Limits = Limits(depth: nat, digits: nat)

  type Read<+T> = Result<(T, string), Failure>

  predicate BlankChar(c: char) {
    c == ' ' || c == '\t' || c == '\n' || c == '\r'
  }

  function SkipBlanks(s: string): (r: string)
    ensures |r| <= |s| && (r == "" || !BlankChar(r[0]))
  {
    if s != "" && BlankChar(s[0]) then SkipBlanks(s[1..]) else s
  }

  /** An integer longer than the limit is refused. */
  predicate ShortEnough(text: string, limits: Limits) {
    IsFloatText(text) || |text| - SignRun(text) <= limits.digits
  }

  function ReadNumber(s: string, limits: Limits): (r: Read<Loaded>)
    ensures r.Ok? ==> |r.value.1| < |s|
  {
    var k := NumberRun(s);
    if k == 0 || !ShortEnough(s[..k], limits) then Err(Malformed) else Ok((Number(s[..k]), s[k..]))
  }

  // ----- Strings --------------------------------------------------------------------

  predicate High(n: int) {
    0xD800 <= n < 0xDC00
  }

  predicate Low(n: int) {
    0xDC00 <= n < 0xE000
  }

  function Paired(high: int, low: int): int {
    0x10000 + (high - 0xD800) * 0x400 + (low - 0xDC00)
  }

  /** Four hexadecimal digits at the front. */
  function Hex(s: string): (r: Option<nat>) {
    if |s| < 4 then None else FixedValue(16, s[..4])
  }

  /** `\u` and four digits at the front. */
  function UnitAt(s: string): (r: Option<nat>)
    ensures r.Some? ==> |s| >= 6
  {
    if |s| >= 2 && s[0] == '\\' && s[1] == 'u' then Hex(s[2..]) else None
  }

  /** What a character after a backslash stands for, other than `u`. */
  function ShortMeaning(c: char): (r: Option<int>) {
    if c == '\"' || c == '\\' || c == '/' then Some(c as int)
    else if c == 'b' then Some(8)
    else if c == 'f' then Some(12)
    else if c == 'n' then Some(10)
    else if c == 'r' then Some(13)
    else if c == 't' then Some(9)
    else None
  }

  /** The code point an escape at the front stands for, and what follows. */
  function ReadEscape(s: string): (r: Option<(int, string)>)
    requires s != "" && s[0] == '\\'
    ensures r.Some? ==> |r.value.1| < |s|
  {
    if |s| >= 2 && s[1] == 'u' then
      match UnitAt(s)
      case None => None
      case Some(high) =>
        var low := UnitAt(s[6..]);
        if High(high) && low.Some? && Low(low.value) then Some((Paired(high, low.value), s[12..])) else Some((high, s[6..]))
    else if |s| >= 2 && ShortMeaning(s[1]).Some? then Some((ShortMeaning(s[1]).value, s[2..]))
    else None
  }

  /** The rest of a string, and what follows its closing quote. */
  function ReadChars(s: string): (r: Option<(Points, string)>)
    ensures r.Some? ==> |r.value.1| < |s|
    decreases |s|
  {
    if s == "" || s[0] < ' ' then None
    else if s[0] == '\"' then Some(([], s[1..]))
    else if s[0] == '\\' then
      match ReadEscape(s)
      case None => None
      case Some((point, rest)) => Before(point, ReadChars(rest))
    else Before(s[0] as int, ReadChars(s[1..]))
  }

  function Before(point: int, r: Option<(Points, string)>): Option<(Points, string)> {
    if r.None? then None else Some(([point] + r.value.0, r.value.1))
  }

  // ----- Values ---------------------------------------------------------------------

  function ReadValue(s: string, limits: Limits): (r: Read<Loaded>)
    ensures r.Ok? ==> |r.value.1| < |s|
    decreases |s|, 0
  {
    if s == "" then Err(Malformed)
    else if s[0] == '\"' then
      match ReadChars(s[1..])
      case None => Err(Malformed)
      case Some((points, rest)) => Ok((Chars(points), rest))
    else if s[0] == '[' then
      if limits.depth == 0 then Err(TooDeep) else
        var inside := SkipBlanks(s[1..]);
        if inside != "" && inside[0] == ']' then Ok((List([]), inside[1..])) else
          match ReadItems(inside, limits.(depth := limits.depth - 1))
          case Err(e) => Err(e)
          case Ok((items, rest)) => Ok((List(items), rest))
    else if s[0] == '{' then
      if limits.depth == 0 then Err(TooDeep) else
        var inside := SkipBlanks(s[1..]);
        if inside != "" && inside[0] == '}' then Ok((Dict([]), inside[1..])) else
          match ReadMembers(inside, limits.(depth := limits.depth - 1))
          case Err(e) => Err(e)
          case Ok((members, rest)) => Ok((Dict(members), rest))
    else ReadScalar(s, limits)
  }

  /** The word that the front of a text can only be. */
  function WordAt(s: string): (r: Option<string>)
    requires s != ""
    ensures r.Some? ==> WordMeaning(r.value).Some? && r.value != ""
  {
    if s[0] == 'n' then Some("null")
    else if s[0] == 't' then Some("true")
    else if s[0] == 'f' then Some("false")
    else if s[0] == 'N' then Some("NaN")
    else if s[0] == 'I' then Some("Infinity")
    else if s[0] == '-' && |s| > 1 && s[1] == 'I' then Some("-Infinity")
    else None
  }

  function WordMeaning(word: string): (r: Option<Loaded>) {
    if word == "null" then Some(Nothing)
    else if word == "true" then Some(Truth(true))
    else if word == "false" then Some(Truth(false))
    else if word in {"NaN", "Infinity", "-Infinity"} then Some(Number(word))
    else None
  }

  function ReadScalar(s: string, limits: Limits): (r: Read<Loaded>)
    requires s != ""
    ensures r.Ok? ==> |r.value.1| < |s|
  {
    match WordAt(s)
    case None => ReadNumber(s, limits)
    case Some(word) => if word <= s then Ok((WordMeaning(word).value, s[|word|..])) else Err(Malformed)
  }

  function ReadItems(s: string, limits: Limits): (r: Read<seq<Loaded>>)
    ensures r.Ok? ==> |r.value.1| < |s|
    decreases |s|, 1
  {
    match ReadValue(s, limits)
    case Err(e) => Err(e)
    case Ok((item, after)) =>
      var rest := SkipBlanks(after);
      if rest != "" && rest[0] == ']' then Ok(([item], rest[1..]))
      else if rest != "" && rest[0] == ',' then
        match ReadItems(SkipBlanks(rest[1..]), limits)
        case Err(e) => Err(e)
        case Ok((items, end)) => Ok(([item] + items, end))
      else Err(Malformed)
  }

  function ReadMembers(s: string, limits: Limits): (r: Read<seq<Named>>)
    ensures r.Ok? ==> |r.value.1| < |s|
    decreases |s|, 1
  {
    match ReadName(s)
    case None => Err(Malformed)
    case Some((name, tail)) =>
      match ReadValue(tail, limits)
      case Err(e) => Err(e)
      case Ok((value, after)) =>
        var rest := SkipBlanks(after);
        if rest != "" && rest[0] == '}' then Ok(([Named(name, value)], rest[1..]))
        else if rest != "" && rest[0] == ',' then
          match ReadMembers(SkipBlanks(rest[1..]), limits)
          case Err(e) => Err(e)
          case Ok((members, end)) => Ok(([Named(name, value)] + members, end))
        else Err(Malformed)
  }

  /** A member's name and colon, and where its value begins. */
  function ReadName(s: string): (r: Option<(Points, string)>)
    ensures r.Some? ==> |r.value.1| < |s|
  {
    if s == "" || s[0] != '\"' then None else
      match ReadChars(s[1..])
      case None => None
      case Some((name, tail)) =>
        var colon := SkipBlanks(tail);
        if colon == "" || colon[0] != ':' then None else Some((name, SkipBlanks(colon[1..])))
  }

  /** A whole text: one value, white space around it. */
  function Loads(s: string, limits: Limits): (r: Result<Loaded, Failure>) {
    match ReadValue(SkipBlanks(s), limits)
    case Err(e) => Err(e)
    case Ok((v, rest)) => if SkipBlanks(rest) == "" then Ok(v) else Err(Malformed)
  }

  // ----- The grammar ------------------------------------------------------------------

  /** Text between the quotes of a string: characters as they are, short escapes, and `\u` units. */
  datatype Piece = Plain(c: char) | Short(c: char) | Unit(hex: string)

  /** A value as it is written, and a value with the white space around it. */
  datatype Tree =
    | Word(word: string)
    | Numeral(text: string)
    | Quote(pieces: seq<Piece>)
    | Brackets(gap: string, items: seq<Item>)
    | Braces(gap: string, entries: seq<Entry>)

  datatype Item = Item(before: string, tree: Tree, after: string)

  datatype Entry = Entry(before: string, name: seq<Piece>, colon: string, item: Item)

  predicate Blanks(s: string) {
    forall i :: 0 <= i < |s| ==> BlankChar(s[i])
  }

  predicate ValidPiece(p: Piece) {
    match p
    case Plain(c) => c >= ' ' && c != '\"' && c != '\\'
    case Short(c) => ShortMeaning(c).Some?
    case Unit(hex) => |hex| == 4 && FixedValue(16, hex).Some?
  }

  predicate ValidPieces(pieces: seq<Piece>) {
    forall i :: 0 <= i < |pieces| ==> ValidPiece(pieces[i])
  }

  predicate ValidTree(t: Tree, limits: Limits)
    decreases t, 0
  {
    match t
    case Word(word) => WordMeaning(word).Some?
    case Numeral(text) => IsNumberText(text) && ShortEnough(text, limits)
    case Quote(pieces) => ValidPieces(pieces)
    case Brackets(gap, items) =>
      limits.depth > 0 && Blanks(gap)
      && forall i :: 0 <= i < |items| ==> ValidItem(items[i], limits.(depth := limits.depth - 1))
    case Braces(gap, entries) =>
      limits.depth > 0 && Blanks(gap)
      && forall i :: 0 <= i < |entries| ==> ValidEntry(entries[i], limits.(depth := limits.depth - 1))
  }

  predicate ValidItem(item: Item, limits: Limits)
    decreases item, 0
  {
    Blanks(item.before) && Blanks(item.after) && ValidTree(item.tree, limits)
  }

  predicate ValidEntry(entry: Entry, limits: Limits)
    decreases entry, 0
  {
    Blanks(entry.before) && ValidPieces(entry.name) && Blanks(entry.colon) && ValidItem(entry.item, limits)
  }

  function PieceText(p: Piece): string {
    match p
    case Plain(c) => [c]
    case Short(c) => ['\\', c]
    case Unit(hex) => "\\u" + hex
  }

  function PiecesText(pieces: seq<Piece>): string {
    if pieces == [] then "" else PieceText(pieces[0]) + PiecesText(pieces[1..])
  }

  function QuoteText(pieces: seq<Piece>): string {
    "\"" + (PiecesText(pieces) + "\"")
  }

  function TreeText(t: Tree): string
    decreases t, 0
  {
    match t
    case Word(word) => word
    case Numeral(text) => text
    case Quote(pieces) => QuoteText(pieces)
    case Brackets(gap, items) => "[" + ((if items == [] then gap else ItemsText(items)) + "]")
    case Braces(gap, entries) => "{" + ((if entries == [] then gap else EntriesText(entries)) + "}")
  }

  function ItemText(item: Item): string
    decreases item, 0
  {
    item.before + (TreeText(item.tree) + item.after)
  }

  function ItemsText(items: seq<Item>): string
    decreases items, 1
  {
    if items == [] then "" else ItemText(items[0]) + (if |items| == 1 then "" else "," + ItemsText(items[1..]))
  }

  function EntryText(entry: Entry): string
    decreases entry, 0
  {
    entry.before + (QuoteText(entry.name) + (entry.colon + (":" + ItemText(entry.item))))
  }

  function EntriesText(entries: seq<Entry>): string
    decreases entries, 1
  {
    if entries == [] then "" else EntryText(entries[0]) + (if |entries| == 1 then "" else "," + EntriesText(entries[1..]))
  }

  function UnitValue(hex: string): nat {
    match FixedValue(16, hex) case Some(n) => n case None => 0
  }

  predicate Joins(pieces: seq<Piece>) {
    |pieces| >= 2 && pieces[0].Unit? && pieces[1].Unit? && High(UnitValue(pieces[0].hex)) && Low(UnitValue(pieces[1].hex))
  }

  function PieceMeaning(p: Piece): int {
    match p
    case Plain(c) => c as int
    case Short(c) => (match ShortMeaning(c) case Some(n) => n case None => 0)
    case Unit(hex) => UnitValue(hex)
  }

  /** A high surrogate and a low one after it are one code point. */
  function PiecesMeaning(pieces: seq<Piece>): Points {
    if pieces == [] then []
    else if Joins(pieces) then [Paired(UnitValue(pieces[0].hex), UnitValue(pieces[1].hex))] + PiecesMeaning(pieces[2..])
    else [PieceMeaning(pieces[0])] + PiecesMeaning(pieces[1..])
  }

  function TreeMeaning(t: Tree): Loaded
    decreases t, 0
  {
    match t
    case Word(word) => (match WordMeaning(word) case Some(v) => v case None => Nothing)
    case Numeral(text) => Number(text)
    case Quote(pieces) => Chars(PiecesMeaning(pieces))
    case Brackets(_, items) => List(ItemsMeaning(items))
    case Braces(_, entries) => Dict(EntriesMeaning(entries))
  }

  function ItemsMeaning(items: seq<Item>): seq<Loaded>
    decreases items, 1
  {
    if items == [] then [] else [TreeMeaning(items[0].tree)] + ItemsMeaning(items[1..])
  }

  function EntriesMeaning(entries: seq<Entry>): seq<Named>
    decreases entries, 1
  {
    if entries == [] then []
    else [Named(PiecesMeaning(entries[0].name), TreeMeaning(entries[0].item.tree))] + EntriesMeaning(entries[1..])
  }
  // ----- What is written is read ------------------------------------------------------

  lemma Associate(a: string, b: string, c: string)
    ensures (a + b) + c == a + (b + c)
  {
  }

  lemma {:induction false} SkipsBlanks(gap: string, rest: string)
    requires Blanks(gap) && (rest == "" || !BlankChar(rest[0]))
    ensures SkipBlanks(gap + rest) == rest
  {
    if gap == "" {
      assert gap + rest == rest;
    } else {
      assert (gap + rest)[1..] == gap[1..] + rest;
      SkipsBlanks(gap[1..], rest);
    }
  }

  lemma UnitStands(hex: string, rest: string)
    requires ValidPiece(Unit(hex))
    ensures UnitAt(PieceText(Unit(hex)) + rest) == Some(UnitValue(hex))
    ensures |PieceText(Unit(hex))| == 6 && (PieceText(Unit(hex)) + rest)[6..] == rest
  {
    var s := PieceText(Unit(hex)) + rest;
    assert s[2..] == hex + rest && (hex + rest)[..4] == hex;
  }

  /** Whether a `\u` unit stands at the front shows in the first piece. */
  lemma UnitAhead(pieces: seq<Piece>, rest: string)
    requires ValidPieces(pieces)
    ensures UnitAt(PiecesText(pieces) + ("\"" + rest)) ==
            if pieces != [] && pieces[0].Unit? then Some(UnitValue(pieces[0].hex)) else None
  {
    if pieces != [] {
      Associate(PieceText(pieces[0]), PiecesText(pieces[1..]), "\"" + rest);
      if pieces[0].Unit? {
        UnitStands(pieces[0].hex, PiecesText(pieces[1..]) + ("\"" + rest));
      }
    }
  }

  lemma PlainRead(c: char, rest: string)
    requires ValidPiece(Plain(c))
    ensures ReadChars(PieceText(Plain(c)) + rest) == Before(c as int, ReadChars(rest))
  {
    assert ([c] + rest)[1..] == rest;
  }

  lemma ShortRead(c: char, rest: string)
    requires ValidPiece(Short(c))
    ensures ReadChars(PieceText(Short(c)) + rest) == Before(PieceMeaning(Short(c)), ReadChars(rest))
  {
    var s := ['\\', c] + rest;
    assert s[2..] == rest;
    assert ReadEscape(s) == Some((ShortMeaning(c).value, rest));
  }

  lemma UnitRead(hex: string, rest: string)
    requires ValidPiece(Unit(hex))
    ensures var s, low := PieceText(Unit(hex)) + rest, UnitAt(rest);
            ReadChars(s) == if High(UnitValue(hex)) && low.Some? && Low(low.value)
                            then Before(Paired(UnitValue(hex), low.value), ReadChars(rest[6..]))
                            else Before(UnitValue(hex), ReadChars(rest))
  {
    var s := PieceText(Unit(hex)) + rest;
    UnitStands(hex, rest);
    assert s[0] == '\\' && s[1] == 'u' && s[6..] == rest;
    assert |rest| >= 6 ==> s[12..] == rest[6..];
  }

  lemma {:induction false} PiecesRead(pieces: seq<Piece>, rest: string)
    requires ValidPieces(pieces)
    ensures ReadChars(PiecesText(pieces) + ("\"" + rest)) == Some((PiecesMeaning(pieces), rest))
    decreases |pieces|
  {
    if pieces == [] {
      assert PiecesText(pieces) + ("\"" + rest) == "\"" + rest;
      assert ("\"" + rest)[1..] == rest;
    } else {
      var after := PiecesText(pieces[1..]) + ("\"" + rest);
      Associate(PieceText(pieces[0]), PiecesText(pieces[1..]), "\"" + rest);
      match pieces[0]
      case Plain(c) =>
        PlainRead(c, after);
        PiecesRead(pieces[1..], rest);
      case Short(c) =>
        ShortRead(c, after);
        PiecesRead(pieces[1..], rest);
      case Unit(hex) =>
        UnitRead(hex, after);
        UnitAhead(pieces[1..], rest);
        if Joins(pieces) {
          var tail := PiecesText(pieces[2..]) + ("\"" + rest);
          assert pieces[1..][1..] == pieces[2..];
          Associate(PieceText(pieces[1]), PiecesText(pieces[2..]), "\"" + rest);
          UnitStands(pieces[1].hex, tail);
          PiecesRead(pieces[2..], rest);
        } else {
          PiecesRead(pieces[1..], rest);
        }
    }
  }

  lemma QuoteRead(pieces: seq<Piece>, rest: string)
    requires ValidPieces(pieces)
    ensures var s := QuoteText(pieces) + rest;
            s[0] == '\"' && ReadChars(s[1..]) == Some((PiecesMeaning(pieces), rest))
  {
    Associate("\"", PiecesText(pieces) + "\"", rest);
    Associate(PiecesText(pieces), "\"", rest);
    assert (QuoteText(pieces) + rest)[1..] == PiecesText(pieces) + ("\"" + rest);
    PiecesRead(pieces, rest);
  }

  /** What is no string and no container is a scalar. */
  lemma ScalarRead(s: string, limits: Limits)
    requires s != "" && s[0] != '\"' && s[0] != '[' && s[0] != '{'
    ensures ReadValue(s, limits) == ReadScalar(s, limits)
  {
  }

  /** A number is no word. */
  lemma NumberIsNoWord(s: string, limits: Limits)
    requires s != "" && (Digit(s[0]) || (s[0] == '-' && |s| > 1 && Digit(s[1])))
    ensures ReadScalar(s, limits) == ReadNumber(s, limits)
  {
    assert WordAt(s) == None;
  }

  lemma NumeralRead(text: string, limits: Limits, rest: string)
    requires IsNumberText(text) && ShortEnough(text, limits) && Delimited(rest)
    ensures ReadValue(text + rest, limits) == Ok((Number(text), rest))
  {
    NumberStarts(text);
    var s := text + rest;
    assert s[0] == text[0] && (text[0] == '-' ==> s[1] == text[1]);
    ScalarRead(s, limits);
    NumberIsNoWord(s, limits);
    NumberRunOn(text, rest);
  }

  lemma WordFound(word: string, rest: string)
    requires WordMeaning(word).Some?
    ensures word != "" && word[0] != '\"' && word[0] != '[' && word[0] != '{' && WordAt(word + rest) == Some(word)
  {
    assert (word + rest)[0] == word[0] && (word + rest)[1] == word[1];
  }

  lemma WordRead(word: string, limits: Limits, rest: string)
    requires WordMeaning(word).Some?
    ensures ReadValue(word + rest, limits) == Ok((WordMeaning(word).value, rest))
  {
    var s := word + rest;
    WordFound(word, rest);
    assert word <= s && s[|word|..] == rest && s[0] == word[0];
    ScalarRead(s, limits);
  }

  predicate StartChar(c: char) {
    !BlankChar(c) && c != ']' && c != '}'
  }

  lemma WordStarts(word: string)
    requires WordMeaning(word).Some?
    ensures word != "" && StartChar(word[0])
  {
    assert word[0] == 'n' || word[0] == 't' || word[0] == 'f' || word[0] == 'N' || word[0] == 'I' || word[0] == '-';
  }

  lemma OpenStarts(open: char, more: string)
    ensures ([open] + more) != "" && ([open] + more)[0] == open
  {
  }

  /** No value starts like the end of a container, a separator or white space. */
  lemma TreeStarts(t: Tree, limits: Limits)
    requires ValidTree(t, limits)
    ensures TreeText(t) != "" && StartChar(TreeText(t)[0])
  {
    match t
    case Word(word) => WordStarts(word);
    case Numeral(text) => NumberStarts(text);
    case Quote(pieces) => OpenStarts('\"', PiecesText(pieces) + "\"");
    case Brackets(gap, items) => OpenStarts('[', (if items == [] then gap else ItemsText(items)) + "]");
    case Braces(gap, entries) => OpenStarts('{', (if entries == [] then gap else EntriesText(entries)) + "}");
  }

  /** What may follow a value and its white space: a separator, the end of a container, or nothing. */
  predicate Ends(end: string) {
    end == "" || end[0] == ',' || end[0] == ']' || end[0] == '}'
  }

  lemma ItemThen(item: Item, limits: Limits, end: string)
    requires ValidItem(item, limits) && Ends(end)
    ensures SkipBlanks(ItemText(item) + end) == TreeText(item.tree) + (item.after + end)
    ensures SkipBlanks(item.after + end) == end && Delimited(item.after + end)
  {
    var tree := TreeText(item.tree);
    Associate(item.before, tree + item.after, end);
    Associate(tree, item.after, end);
    TreeStarts(item.tree, limits);
    SkipsBlanks(item.before, tree + (item.after + end));
    SkipsBlanks(item.after, end);
  }

  lemma {:induction false} ItemRead(item: Item, limits: Limits, end: string)
    requires ValidItem(item, limits) && Ends(end)
    ensures ReadValue(SkipBlanks(ItemText(item) + end), limits) == Ok((TreeMeaning(item.tree), item.after + end))
    ensures SkipBlanks(item.after + end) == end
    decreases item, 3
  {
    ItemThen(item, limits, end);
    TreeRead(item.tree, limits, item.after + end);
  }

  /** A value as it is written is read as what it means. */
  lemma {:induction false} TreeRead(t: Tree, limits: Limits, rest: string)
    requires ValidTree(t, limits) && Delimited(rest)
    ensures ReadValue(TreeText(t) + rest, limits) == Ok((TreeMeaning(t), rest))
    decreases t, 2
  {
    match t
    case Word(word) => WordRead(word, limits, rest);
    case Numeral(text) => NumeralRead(text, limits, rest);
    case Quote(pieces) => QuoteRead(pieces, rest);
    case Brackets(_, _) => BracketsRead(t, limits, rest);
    case Braces(_, _) => BracesRead(t, limits, rest);
  }

  lemma Enclosed(open: char, body: string, close: string, rest: string)
    ensures var s := [open] + (body + close) + rest;
            s != "" && s[0] == open && s[1..] == body + (close + rest)
  {
    assert [open] + (body + close) + rest == [open] + ((body + close) + rest);
    Associate(body, close, rest);
  }

  lemma {:induction false} BracketsRead(t: Tree, limits: Limits, rest: string)
    requires t.Brackets? && ValidTree(t, limits)
    ensures ReadValue(TreeText(t) + rest, limits) == Ok((TreeMeaning(t), rest))
    decreases t, 1
  {
    var end, inner := "]" + rest, limits.(depth := limits.depth - 1);
    if t.items == [] {
      Enclosed('[', t.gap, "]", rest);
      SkipsBlanks(t.gap, end);
      assert end[1..] == rest;
    } else {
      Enclosed('[', ItemsText(t.items), "]", rest);
      ItemsRead(t.items, inner, rest);
      ItemsStart(t.items, inner, end);
    }
  }

  lemma {:induction false} BracesRead(t: Tree, limits: Limits, rest: string)
    requires t.Braces? && ValidTree(t, limits)
    ensures ReadValue(TreeText(t) + rest, limits) == Ok((TreeMeaning(t), rest))
    decreases t, 1
  {
    var end, inner := "}" + rest, limits.(depth := limits.depth - 1);
    if t.entries == [] {
      Enclosed('{', t.gap, "}", rest);
      SkipsBlanks(t.gap, end);
      assert end[1..] == rest;
    } else {
      Enclosed('{', EntriesText(t.entries), "}", rest);
      EntriesRead(t.entries, inner, rest);
      EntriesStart(t.entries, inner, end);
    }
  }

  lemma ItemsStart(items: seq<Item>, limits: Limits, end: string)
    requires items != [] && ValidItem(items[0], limits) && Ends(end)
    ensures var s := SkipBlanks(ItemsText(items) + end); s != "" && s[0] != ']'
  {
    var more := if |items| == 1 then "" else "," + ItemsText(items[1..]);
    Associate(ItemText(items[0]), more, end);
    ItemThen(items[0], limits, more + end);
    TreeStarts(items[0].tree, limits);
  }

  lemma {:induction false} ItemsRead(items: seq<Item>, limits: Limits, rest: string)
    requires items != [] && forall i :: 0 <= i < |items| ==> ValidItem(items[i], limits)
    ensures ReadItems(SkipBlanks(ItemsText(items) + ("]" + rest)), limits) == Ok((ItemsMeaning(items), rest))
    decreases items, 4
  {
    if |items| == 1 {
      var end := "]" + rest;
      assert ItemsText(items) == ItemText(items[0]) + "" == ItemText(items[0]);
      ItemRead(items[0], limits, end);
      LastItem(SkipBlanks(ItemsText(items) + end), limits, TreeMeaning(items[0].tree), items[0].after + end, rest);
      assert ItemsMeaning(items) == [TreeMeaning(items[0].tree)];
    } else {
      var tail := ItemsText(items[1..]) + ("]" + rest);
      var end := "," + tail;
      Associate(ItemText(items[0]), "," + ItemsText(items[1..]), "]" + rest);
      Associate(",", ItemsText(items[1..]), "]" + rest);
      ItemRead(items[0], limits, end);
      ItemsRead(items[1..], limits, rest);
      MoreItems(SkipBlanks(ItemsText(items) + ("]" + rest)), limits, TreeMeaning(items[0].tree), items[0].after + end, tail);
    }
  }

  lemma LastItem(s: string, limits: Limits, v: Loaded, after: string, rest: string)
    requires ReadValue(s, limits) == Ok((v, after)) && SkipBlanks(after) == "]" + rest
    ensures ReadItems(s, limits) == Ok(([v], rest))
  {
    assert ("]" + rest)[1..] == rest;
  }

  lemma MoreItems(s: string, limits: Limits, v: Loaded, after: string, tail: string)
    requires ReadValue(s, limits) == Ok((v, after)) && SkipBlanks(after) == "," + tail
    requires ReadItems(SkipBlanks(tail), limits).Ok?
    ensures var (items, end) := ReadItems(SkipBlanks(tail), limits).value;
            ReadItems(s, limits) == Ok(([v] + items, end))
  {
    assert ("," + tail)[1..] == tail;
  }

  lemma EntryThen(entry: Entry, limits: Limits, end: string)
    requires ValidEntry(entry, limits)
    ensures var s := SkipBlanks(EntryText(entry) + end);
            && s == QuoteText(entry.name) + (entry.colon + (":" + (ItemText(entry.item) + end)))
            && ReadName(s) == Some((PiecesMeaning(entry.name), SkipBlanks(ItemText(entry.item) + end)))
  {
    var name, value := QuoteText(entry.name), ItemText(entry.item);
    Associate(":", value, end);
    Associate(entry.colon, ":" + value, end);
    Associate(name, entry.colon + (":" + value), end);
    Associate(entry.before, name + (entry.colon + (":" + value)), end);
    var colon := ":" + (value + end);
    SkipsBlanks(entry.before, name + (entry.colon + colon));
    QuoteRead(entry.name, entry.colon + colon);
    SkipsBlanks(entry.colon, colon);
    assert colon[1..] == value + end;
  }

  lemma EntriesStart(entries: seq<Entry>, limits: Limits, end: string)
    requires entries != [] && ValidEntry(entries[0], limits)
    ensures var s := SkipBlanks(EntriesText(entries) + end); s != "" && s[0] != '}'
  {
    var more := if |entries| == 1 then "" else "," + EntriesText(entries[1..]);
    Associate(EntryText(entries[0]), more, end);
    EntryThen(entries[0], limits, more + end);
  }

  lemma {:induction false} EntriesRead(entries: seq<Entry>, limits: Limits, rest: string)
    requires entries != [] && forall i :: 0 <= i < |entries| ==> ValidEntry(entries[i], limits)
    ensures ReadMembers(SkipBlanks(EntriesText(entries) + ("}" + rest)), limits) == Ok((EntriesMeaning(entries), rest))
    decreases entries, 4
  {
    var e := entries[0];
    var member := Named(PiecesMeaning(e.name), TreeMeaning(e.item.tree));
    if |entries| == 1 {
      var end := "}" + rest;
      assert EntriesText(entries) == EntryText(e) + "" == EntryText(e);
      EntryThen(e, limits, end);
      ItemRead(e.item, limits, end);
      LastMember(SkipBlanks(EntriesText(entries) + end), limits, member, SkipBlanks(ItemText(e.item) + end), e.item.after + end, rest);
      assert EntriesMeaning(entries) == [member];
    } else {
      var tail := EntriesText(entries[1..]) + ("}" + rest);
      var end := "," + tail;
      Associate(EntryText(e), "," + EntriesText(entries[1..]), "}" + rest);
      Associate(",", EntriesText(entries[1..]), "}" + rest);
      EntryThen(e, limits, end);
      ItemRead(e.item, limits, end);
      EntriesRead(entries[1..], limits, rest);
      MoreMembers(SkipBlanks(EntriesText(entries) + ("}" + rest)), limits, member, SkipBlanks(ItemText(e.item) + end), e.item.after + end, tail);
    }
  }

  lemma LastMember(s: string, limits: Limits, m: Named, value: string, after: string, rest: string)
    requires ReadName(s) == Some((m.name, value)) && ReadValue(value, limits) == Ok((m.value, after)) && SkipBlanks(after) == "}" + rest
    ensures ReadMembers(s, limits) == Ok(([m], rest))
  {
    assert ("}" + rest)[1..] == rest;
  }

  lemma MoreMembers(s: string, limits: Limits, m: Named, value: string, after: string, tail: string)
    requires ReadName(s) == Some((m.name, value)) && ReadValue(value, limits) == Ok((m.value, after)) && SkipBlanks(after) == "," + tail
    requires ReadMembers(SkipBlanks(tail), limits).Ok?
    ensures var (members, end) := ReadMembers(SkipBlanks(tail), limits).value;
            ReadMembers(s, limits) == Ok(([m] + members, end))
  {
    assert ("," + tail)[1..] == tail;
  }

  // ----- What is read was written -----------------------------------------------------

  lemma {:induction false} BlanksOf(s: string) returns (gap: string)
    ensures Blanks(gap) && s == gap + SkipBlanks(s)
  {
    if s != "" && BlankChar(s[0]) {
      gap := BlanksOf(s[1..]);
      gap := [s[0]] + gap;
    } else {
      gap := "";
    }
  }

  lemma UnitWritten(s: string)
    requires UnitAt(s).Some?
    ensures ValidPiece(Unit(s[2..6])) && UnitValue(s[2..6]) == UnitAt(s).value && s == PieceText(Unit(s[2..6])) + s[6..]
  {
    assert s[2..][..4] == s[2..6];
    assert s == ['\\', 'u'] + s[2..6] + s[6..];
  }

  lemma PieceThen(p: Piece, pieces: seq<Piece>, s: string, tail: string, end: string)
    requires ValidPiece(p) && ValidPieces(pieces) && s == PieceText(p) + tail && tail == PiecesText(pieces) + end
    ensures ValidPieces([p] + pieces) && s == PiecesText([p] + pieces) + end
  {
    assert ([p] + pieces)[1..] == pieces;
    Associate(PieceText(p), PiecesText(pieces), end);
  }

  lemma {:induction false} CharsWritten(s: string) returns (pieces: seq<Piece>)
    requires ReadChars(s).Some?
    ensures var (points, rest) := ReadChars(s).value;
            ValidPieces(pieces) && PiecesMeaning(pieces) == points && s == PiecesText(pieces) + ("\"" + rest)
    decreases |s|
  {
    var end := "\"" + ReadChars(s).value.1;
    if s[0] == '\"' {
      pieces := [];
      assert PiecesText([]) + end == end == s;
    } else if s[0] != '\\' {
      var more := CharsWritten(s[1..]);
      assert s == [s[0]] + s[1..];
      PieceThen(Plain(s[0]), more, s, s[1..], end);
      pieces := [Plain(s[0])] + more;
      assert pieces[1..] == more;
    } else if s[1] != 'u' {
      var more := CharsWritten(s[2..]);
      assert s == ['\\', s[1]] + s[2..];
      PieceThen(Short(s[1]), more, s, s[2..], end);
      pieces := [Short(s[1])] + more;
      assert pieces[1..] == more;
    } else {
      pieces := UnitsWritten(s, end);
    }
  }

  lemma {:induction false} UnitsWritten(s: string, end: string) returns (pieces: seq<Piece>)
    requires ReadChars(s).Some? && |s| > 1 && s[0] == '\\' && s[1] == 'u' && end == "\"" + ReadChars(s).value.1
    ensures ValidPieces(pieces) && PiecesMeaning(pieces) == ReadChars(s).value.0 && s == PiecesText(pieces) + end
    decreases |s|, 0
  {
    UnitWritten(s);
    var high, low := Unit(s[2..6]), UnitAt(s[6..]);
    if High(UnitAt(s).value) && low.Some? && Low(low.value) {
      var tail := s[6..];
      assert tail[6..] == s[12..];
      var more := CharsWritten(s[12..]);
      UnitWritten(tail);
      PieceThen(Unit(tail[2..6]), more, tail, tail[6..], end);
      PieceThen(high, [Unit(tail[2..6])] + more, s, tail, end);
      pieces := [high] + ([Unit(tail[2..6])] + more);
      assert pieces[2..] == more;
    } else {
      var more := CharsWritten(s[6..]);
      UnitAhead(more, ReadChars(s[6..]).value.1);
      PieceThen(high, more, s, s[6..], end);
      pieces := [high] + more;
      assert pieces[1..] == more;
    }
  }

  lemma ScalarWritten(s: string, limits: Limits) returns (t: Tree)
    requires s != "" && ReadScalar(s, limits).Ok?
    ensures ValidTree(t, limits) && ReadScalar(s, limits).value.0 == TreeMeaning(t)
    ensures s == TreeText(t) + ReadScalar(s, limits).value.1
  {
    match WordAt(s)
    case None =>
      t := Numeral(s[..NumberRun(s)]);
      NumberRunCut(s);
    case Some(word) => t := Word(word);
  }

  /** A value's text and the white space after it. */
  lemma {:induction false} ItemWritten(s: string, limits: Limits) returns (item: Item)
    requires ReadValue(s, limits).Ok?
    ensures ValidItem(item, limits) && item.before == "" && TreeMeaning(item.tree) == ReadValue(s, limits).value.0
    ensures s == ItemText(item) + SkipBlanks(ReadValue(s, limits).value.1)
    decreases |s|, 2
  {
    var t := ValueWritten(s, limits);
    var after := BlanksOf(ReadValue(s, limits).value.1);
    item := Item("", t, after);
    Associate(TreeText(t), after, SkipBlanks(ReadValue(s, limits).value.1));
    assert "" + (TreeText(t) + after) == TreeText(t) + after;
  }

  lemma {:induction false} ValueWritten(s: string, limits: Limits) returns (t: Tree)
    requires ReadValue(s, limits).Ok?
    ensures ValidTree(t, limits) && TreeMeaning(t) == ReadValue(s, limits).value.0
    ensures s == TreeText(t) + ReadValue(s, limits).value.1
    decreases |s|, 1
  {
    if s[0] == '\"' {
      var pieces := CharsWritten(s[1..]);
      t := Quote(pieces);
      QuoteBack(s, pieces, ReadChars(s[1..]).value.1);
    } else if s[0] == '[' {
      t := BracketsWritten(s, limits);
    } else if s[0] == '{' {
      t := BracesWritten(s, limits);
    } else {
      t := ScalarWritten(s, limits);
    }
  }

  lemma QuoteBack(s: string, pieces: seq<Piece>, rest: string)
    requires s != "" && s[0] == '\"' && s[1..] == PiecesText(pieces) + ("\"" + rest)
    ensures s == QuoteText(pieces) + rest
  {
    assert s == "\"" + s[1..];
    Associate(PiecesText(pieces), "\"", rest);
    Associate("\"", PiecesText(pieces) + "\"", rest);
  }

  lemma EncloseBack(s: string, open: char, gap: string, body: string, close: string, rest: string)
    requires s != "" && s[0] == open && s[1..] == gap + (body + (close + rest))
    ensures s == [open] + ((gap + body) + close) + rest
  {
    assert s == [open] + s[1..];
    Associate(gap, body, close + rest);
    Associate(gap + body, close, rest);
    Associate([open], (gap + body) + close, rest);
  }

  lemma {:induction false} BracketsWritten(s: string, limits: Limits) returns (t: Tree)
    requires s != "" && s[0] == '[' && ReadValue(s, limits).Ok?
    ensures ValidTree(t, limits) && TreeMeaning(t) == ReadValue(s, limits).value.0
    ensures s == TreeText(t) + ReadValue(s, limits).value.1
    decreases |s|, 0
  {
    var inside, rest := SkipBlanks(s[1..]), ReadValue(s, limits).value.1;
    var gap := BlanksOf(s[1..]);
    if inside != "" && inside[0] == ']' {
      t := Brackets(gap, []);
      assert inside == "" + ("]" + rest);
      EncloseBack(s, '[', gap, "", "]", rest);
      assert gap + "" == gap;
    } else {
      var inner := limits.(depth := limits.depth - 1);
      var items := ItemsWritten(inside, inner);
      t := Brackets("", AfterGap(items, gap));
      GapFirst(items, gap, inner);
      EncloseBack(s, '[', gap, ItemsText(items), "]", rest);
    }
  }

  lemma {:induction false} BracesWritten(s: string, limits: Limits) returns (t: Tree)
    requires s != "" && s[0] == '{' && ReadValue(s, limits).Ok?
    ensures ValidTree(t, limits) && TreeMeaning(t) == ReadValue(s, limits).value.0
    ensures s == TreeText(t) + ReadValue(s, limits).value.1
    decreases |s|, 0
  {
    var inside, rest := SkipBlanks(s[1..]), ReadValue(s, limits).value.1;
    var gap := BlanksOf(s[1..]);
    if inside != "" && inside[0] == '}' {
      t := Braces(gap, []);
      assert inside == "" + ("}" + rest);
      EncloseBack(s, '{', gap, "", "}", rest);
      assert gap + "" == gap;
    } else {
      var inner := limits.(depth := limits.depth - 1);
      var entries := EntriesWritten(inside, inner);
      t := Braces("", AfterEntryGap(entries, gap));
      EntryGapFirst(entries, gap, inner);
      EncloseBack(s, '{', gap, EntriesText(entries), "}", rest);
    }
  }

  /** The same items with a gap before the first. */
  function AfterGap(items: seq<Item>, gap: string): seq<Item>
    requires items != []
  {
    [items[0].(before := gap)] + items[1..]
  }

  function AfterEntryGap(entries: seq<Entry>, gap: string): seq<Entry>
    requires entries != []
  {
    [entries[0].(before := gap)] + entries[1..]
  }

  lemma GapFirst(items: seq<Item>, gap: string, limits: Limits)
    requires items != [] && items[0].before == "" && Blanks(gap) && forall i :: 0 <= i < |items| ==> ValidItem(items[i], limits)
    ensures var moved := AfterGap(items, gap);
            && moved != [] && (forall i :: 0 <= i < |moved| ==> ValidItem(moved[i], limits))
            && ItemsText(moved) == gap + ItemsText(items) && ItemsMeaning(moved) == ItemsMeaning(items)
  {
    var moved, first := AfterGap(items, gap), items[0];
    var body := TreeText(first.tree) + first.after;
    var more := if |items| == 1 then "" else "," + ItemsText(items[1..]);
    assert moved[1..] == items[1..];
    assert "" + body == body;
    Associate(gap, body, more);
    forall i | 0 <= i < |moved| ensures ValidItem(moved[i], limits) {
      assert ValidItem(items[i], limits);
    }
  }

  lemma EntryGapFirst(entries: seq<Entry>, gap: string, limits: Limits)
    requires entries != [] && entries[0].before == "" && Blanks(gap) && forall i :: 0 <= i < |entries| ==> ValidEntry(entries[i], limits)
    ensures var moved := AfterEntryGap(entries, gap);
            && moved != [] && (forall i :: 0 <= i < |moved| ==> ValidEntry(moved[i], limits))
            && EntriesText(moved) == gap + EntriesText(entries) && EntriesMeaning(moved) == EntriesMeaning(entries)
  {
    var moved, first := AfterEntryGap(entries, gap), entries[0];
    var body := QuoteText(first.name) + (first.colon + (":" + ItemText(first.item)));
    var more := if |entries| == 1 then "" else "," + EntriesText(entries[1..]);
    assert moved[1..] == entries[1..];
    assert "" + body == body;
    Associate(gap, body, more);
    forall i | 0 <= i < |moved| ensures ValidEntry(moved[i], limits) {
      assert ValidEntry(entries[i], limits);
    }
  }

  lemma {:induction false} ItemsWritten(s: string, limits: Limits) returns (items: seq<Item>)
    requires ReadItems(s, limits).Ok?
    ensures items != [] && items[0].before == "" && forall i :: 0 <= i < |items| ==> ValidItem(items[i], limits)
    ensures ItemsMeaning(items) == ReadItems(s, limits).value.0 && s == ItemsText(items) + ("]" + ReadItems(s, limits).value.1)
    decreases |s|, 3
  {
    var item := ItemWritten(s, limits);
    var rest := SkipBlanks(ReadValue(s, limits).value.1);
    if rest[0] == ']' {
      items := [item];
      assert rest == "]" + rest[1..];
      assert ItemText(item) + "" == ItemText(item);
    } else {
      var gap := BlanksOf(rest[1..]);
      var more := ItemsWritten(SkipBlanks(rest[1..]), limits);
      assert rest == "," + rest[1..];
      ItemsJoin(s, limits, item, more, gap, "]" + ReadItems(s, limits).value.1);
      items := [item] + AfterGap(more, gap);
    }
  }

  lemma ItemsJoin(s: string, limits: Limits, item: Item, more: seq<Item>, gap: string, end: string)
    requires ValidItem(item, limits) && more != [] && forall i :: 0 <= i < |more| ==> ValidItem(more[i], limits)
    requires more[0].before == "" && Blanks(gap) && s == ItemText(item) + ("," + (gap + (ItemsText(more) + end)))
    ensures var items := [item] + AfterGap(more, gap);
            && (forall i :: 0 <= i < |items| ==> ValidItem(items[i], limits))
            && ItemsMeaning(items) == [TreeMeaning(item.tree)] + ItemsMeaning(more) && s == ItemsText(items) + end
  {
    var moved := AfterGap(more, gap);
    GapFirst(more, gap, limits);
    assert ([item] + moved)[1..] == moved;
    JoinBack(s, ItemText(item), gap, ItemsText(more), end);
  }

  lemma JoinBack(s: string, first: string, gap: string, more: string, end: string)
    requires s == first + ("," + (gap + (more + end)))
    ensures s == (first + ("," + (gap + more))) + end
  {
    Associate(gap, more, end);
    Associate(",", gap + more, end);
    Associate(first, "," + (gap + more), end);
  }

  lemma {:induction false} EntryWritten(s: string, limits: Limits) returns (entry: Entry)
    requires ReadName(s).Some? && ReadValue(ReadName(s).value.1, limits).Ok?
    ensures ValidEntry(entry, limits) && entry.before == "" && PiecesMeaning(entry.name) == ReadName(s).value.0
    ensures TreeMeaning(entry.item.tree) == ReadValue(ReadName(s).value.1, limits).value.0
    ensures s == EntryText(entry) + SkipBlanks(ReadValue(ReadName(s).value.1, limits).value.1)
    decreases |s|, 0
  {
    var tail := ReadName(s).value.1;
    var name := CharsWritten(s[1..]);
    var after := ReadChars(s[1..]).value.1;
    QuoteBack(s, name, after);
    var colon := BlanksOf(after);
    var marked := SkipBlanks(after);
    var gap := BlanksOf(marked[1..]);
    var item := ItemWritten(tail, limits);
    entry := Entry("", name, colon, item.(before := gap));
    EntryBack(s, entry, item, SkipBlanks(ReadValue(tail, limits).value.1), marked);
  }

  lemma EntryBack(s: string, entry: Entry, item: Item, end: string, marked: string)
    requires item.before == "" && entry.before == "" && entry.item == item.(before := entry.item.before)
    requires s == QuoteText(entry.name) + (entry.colon + marked) && marked != "" && marked[0] == ':'
    requires marked[1..] == entry.item.before + (ItemText(item) + end)
    ensures s == EntryText(entry) + end
  {
    var body, name, gap := TreeText(item.tree) + item.after, QuoteText(entry.name), entry.item.before;
    assert marked == ":" + marked[1..] && "" + body == body;
    Associate(gap, body, end);
    Associate(":", gap + body, end);
    Associate(entry.colon, ":" + (gap + body), end);
    Associate(name, entry.colon + (":" + (gap + body)), end);
    assert "" + (name + (entry.colon + (":" + (gap + body)))) == name + (entry.colon + (":" + (gap + body)));
  }

  /** How a list of members was read. */
  lemma MembersAre(s: string, limits: Limits) returns (rest: string)
    requires ReadMembers(s, limits).Ok?
    ensures ReadName(s).Some? && ReadValue(ReadName(s).value.1, limits).Ok?
    ensures rest == SkipBlanks(ReadValue(ReadName(s).value.1, limits).value.1) && 0 < |rest| < |s|
    ensures var m := Named(ReadName(s).value.0, ReadValue(ReadName(s).value.1, limits).value.0);
            var more := ReadMembers(SkipBlanks(rest[1..]), limits);
            || (rest[0] == '}' && ReadMembers(s, limits) == Ok(([m], rest[1..])))
            || (rest[0] == ',' && more.Ok? && ReadMembers(s, limits) == Ok(([m] + more.value.0, more.value.1)))
  {
    rest := SkipBlanks(ReadValue(ReadName(s).value.1, limits).value.1);
  }

  lemma {:induction false} EntriesWritten(s: string, limits: Limits) returns (entries: seq<Entry>)
    requires ReadMembers(s, limits).Ok?
    ensures entries != [] && entries[0].before == "" && forall i :: 0 <= i < |entries| ==> ValidEntry(entries[i], limits)
    ensures EntriesMeaning(entries) == ReadMembers(s, limits).value.0
    ensures s == EntriesText(entries) + ("}" + ReadMembers(s, limits).value.1)
    decreases |s|, 3
  {
    var rest := MembersAre(s, limits);
    var entry := EntryWritten(s, limits);
    if rest[0] == '}' {
      entries := [entry];
      OnlyEntry(s, entry, rest);
    } else {
      Headed(rest, ',');
      entries := EntriesAfter(s, limits, entry, rest[1..]);
    }
  }

  lemma {:induction false} EntriesAfter(s: string, limits: Limits, entry: Entry, tail: string) returns (entries: seq<Entry>)
    requires ValidEntry(entry, limits) && entry.before == "" && s == EntryText(entry) + ("," + tail) && |tail| < |s|
    requires ReadMembers(SkipBlanks(tail), limits).Ok?
    ensures entries != [] && entries[0].before == "" && forall i :: 0 <= i < |entries| ==> ValidEntry(entries[i], limits)
    ensures EntriesMeaning(entries) ==
            [Named(PiecesMeaning(entry.name), TreeMeaning(entry.item.tree))] + ReadMembers(SkipBlanks(tail), limits).value.0
    ensures s == EntriesText(entries) + ("}" + ReadMembers(SkipBlanks(tail), limits).value.1)
    decreases |s|, 2
  {
    var gap := BlanksOf(tail);
    var more := EntriesWritten(SkipBlanks(tail), limits);
    EntriesJoin(s, limits, entry, more, gap, "}" + ReadMembers(SkipBlanks(tail), limits).value.1);
    entries := [entry] + AfterEntryGap(more, gap);
  }

  lemma Headed(s: string, c: char)
    requires s != "" && s[0] == c
    ensures s == [c] + s[1..]
  {
  }

  lemma OnlyEntry(s: string, entry: Entry, rest: string)
    requires s == EntryText(entry) + rest && rest != "" && rest[0] == '}'
    ensures EntriesMeaning([entry]) == [Named(PiecesMeaning(entry.name), TreeMeaning(entry.item.tree))]
    ensures s == EntriesText([entry]) + ("}" + rest[1..])
  {
    Headed(rest, '}');
    assert EntryText(entry) + "" == EntryText(entry);
  }

  lemma EntriesJoin(s: string, limits: Limits, entry: Entry, more: seq<Entry>, gap: string, end: string)
    requires ValidEntry(entry, limits) && more != [] && forall i :: 0 <= i < |more| ==> ValidEntry(more[i], limits)
    requires more[0].before == "" && Blanks(gap) && s == EntryText(entry) + ("," + (gap + (EntriesText(more) + end)))
    ensures var entries := [entry] + AfterEntryGap(more, gap);
            && (forall i :: 0 <= i < |entries| ==> ValidEntry(entries[i], limits))
            && EntriesMeaning(entries) == [Named(PiecesMeaning(entry.name), TreeMeaning(entry.item.tree))] + EntriesMeaning(more)
            && s == EntriesText(entries) + end
  {
    var moved := AfterEntryGap(more, gap);
    EntryGapFirst(more, gap, limits);
    assert ([entry] + moved)[1..] == moved;
    JoinBack(s, EntryText(entry), gap, EntriesText(more), end);
  }

  /** A text is read as a value exactly when it is a spelling of that value in the grammar, within the limits: white
      space, short and `\u` escapes, surrogates and number forms as the writer pleased. */
  lemma LoadsExactly(s: string, limits: Limits, v: Loaded)
    ensures Loads(s, limits) == Ok(v) <==>
            exists item :: ValidItem(item, limits) && s == ItemText(item) && TreeMeaning(item.tree) == v
  {
    if Loads(s, limits) == Ok(v) {
      var gap := BlanksOf(s);
      var item := ItemWritten(SkipBlanks(s), limits);
      assert ItemText(item) + "" == ItemText(item);
      var body := TreeText(item.tree) + item.after;
      assert "" + body == body;
      assert ValidItem(item.(before := gap), limits) && s == ItemText(item.(before := gap));
    }
    if item :| ValidItem(item, limits) && s == ItemText(item) && TreeMeaning(item.tree) == v {
      ItemRead(item, limits, "");
      assert s + "" == s && item.after + "" == item.after;
    }
  }

  // ----- The limit on nesting -------------------------------------------------------------

  /** A deeper limit changes nothing but the recursion errors. */
  lemma {:induction false} DeeperValue(s: string, limits: Limits, more: Limits)
    requires limits.depth <= more.depth && limits.digits == more.digits && ReadValue(s, limits) != Err(TooDeep)
    ensures ReadValue(s, more) == ReadValue(s, limits)
    decreases |s|, 0
  {
    if s != "" && (s[0] == '[' || s[0] == '{') {
      var inside := SkipBlanks(s[1..]);
      if inside != "" && inside[0] == (if s[0] == '[' then ']' else '}') {
      } else if s[0] == '[' {
        DeeperItems(inside, limits.(depth := limits.depth - 1), more.(depth := more.depth - 1));
      } else {
        DeeperMembers(inside, limits.(depth := limits.depth - 1), more.(depth := more.depth - 1));
      }
    }
  }

  lemma {:induction false} DeeperItems(s: string, limits: Limits, more: Limits)
    requires limits.depth <= more.depth && limits.digits == more.digits && ReadItems(s, limits) != Err(TooDeep)
    ensures ReadItems(s, more) == ReadItems(s, limits)
    decreases |s|, 1
  {
    DeeperValue(s, limits, more);
    if ReadValue(s, limits).Ok? {
      var rest := SkipBlanks(ReadValue(s, limits).value.1);
      if rest != "" && rest[0] == ',' {
        DeeperItems(SkipBlanks(rest[1..]), limits, more);
      }
    }
  }

  lemma {:induction false} DeeperMembers(s: string, limits: Limits, more: Limits)
    requires limits.depth <= more.depth && limits.digits == more.digits && ReadMembers(s, limits) != Err(TooDeep)
    ensures ReadMembers(s, more) == ReadMembers(s, limits)
    decreases |s|, 1
  {
    if ReadName(s).Some? {
      var tail := ReadName(s).value.1;
      DeeperValue(tail, limits, more);
      if ReadValue(tail, limits).Ok? {
        var rest := SkipBlanks(ReadValue(tail, limits).value.1);
        if rest != "" && rest[0] == ',' {
          DeeperMembers(SkipBlanks(rest[1..]), limits, more);
        }
      }
    }
  }

  /** No text nests deeper than it is long. */
  lemma {:induction false} EnoughValue(s: string, limits: Limits)
    requires |s| <= limits.depth
    ensures ReadValue(s, limits) != Err(TooDeep)
    decreases |s|, 0
  {
    if s != "" && s[0] == '[' {
      var inner := limits.(depth := limits.depth - 1);
      EnoughItems(SkipBlanks(s[1..]), inner);
      BracketFails(s, limits, inner);
    } else if s != "" && s[0] == '{' {
      var inner := limits.(depth := limits.depth - 1);
      EnoughMembers(SkipBlanks(s[1..]), inner);
      BraceFails(s, limits, inner);
    } else if s != "" && s[0] != '\"' {
      ScalarRead(s, limits);
    }
  }

  lemma BracketFails(s: string, limits: Limits, inner: Limits)
    requires s != "" && s[0] == '[' && limits.depth > 0 && inner == limits.(depth := limits.depth - 1)
    requires ReadItems(SkipBlanks(s[1..]), inner) != Err(TooDeep)
    ensures ReadValue(s, limits) != Err(TooDeep)
  {
  }

  lemma BraceFails(s: string, limits: Limits, inner: Limits)
    requires s != "" && s[0] == '{' && limits.depth > 0 && inner == limits.(depth := limits.depth - 1)
    requires ReadMembers(SkipBlanks(s[1..]), inner) != Err(TooDeep)
    ensures ReadValue(s, limits) != Err(TooDeep)
  {
  }

  lemma {:induction false} EnoughItems(s: string, limits: Limits)
    requires |s| <= limits.depth
    ensures ReadItems(s, limits) != Err(TooDeep)
    decreases |s|, 1
  {
    EnoughValue(s, limits);
    if ReadValue(s, limits).Ok? {
      var rest := SkipBlanks(ReadValue(s, limits).value.1);
      if rest != "" && rest[0] == ',' {
        EnoughItems(SkipBlanks(rest[1..]), limits);
      }
    }
  }

  lemma {:induction false} EnoughMembers(s: string, limits: Limits)
    requires |s| <= limits.depth
    ensures ReadMembers(s, limits) != Err(TooDeep)
    decreases |s|, 1
  {
    if ReadName(s).Some? {
      var tail := ReadName(s).value.1;
      EnoughValue(tail, limits);
      if ReadValue(tail, limits).Ok? {
        var rest := SkipBlanks(ReadValue(tail, limits).value.1);
        if rest != "" && rest[0] == ',' {
          EnoughMembers(SkipBlanks(rest[1..]), limits);
        }
      }
    }
  }

  lemma DeeperLoads(s: string, limits: Limits, more: Limits)
    requires limits.depth <= more.depth && limits.digits == more.digits && Loads(s, limits) != Err(TooDeep)
    ensures Loads(s, more) == Loads(s, limits)
  {
    DeeperValue(SkipBlanks(s), limits, more);
  }

  /** With fewer than `depth` containers allowed, and only then, reading is a recursion error. */
  ghost predicate Nests(s: string, digits: nat, depth: nat) {
    forall d: nat :: Loads(s, Limits(d, digits)) == Err(TooDeep) <==> d < depth
  }

  /** Each text has a depth below which reading it is a recursion error, and from which on it is read or refused
      alike. */
  lemma DepthDecides(s: string, digits: nat) returns (depth: nat)
    ensures depth <= |s| && Nests(s, digits, depth)
    ensures forall d: nat :: d >= depth ==> Loads(s, Limits(d, digits)) == Loads(s, Limits(|s|, digits))
  {
    EnoughValue(SkipBlanks(s), Limits(|s|, digits));
    depth := |s|;
    while depth > 0 && Loads(s, Limits(depth - 1, digits)) != Err(TooDeep)
      invariant depth <= |s| && Loads(s, Limits(depth, digits)) != Err(TooDeep)
    {
      depth := depth - 1;
    }
    forall d: nat ensures Loads(s, Limits(d, digits)) == Err(TooDeep) <==> d < depth {
      if d >= depth {
        DeeperLoads(s, Limits(depth, digits), Limits(d, digits));
      } else if Loads(s, Limits(d, digits)) != Err(TooDeep) {
        DeeperLoads(s, Limits(d, digits), Limits(depth - 1, digits));
      }
    }
    forall d: nat | d >= depth ensures Loads(s, Limits(d, digits)) == Loads(s, Limits(|s|, digits)) {
      DeeperLoads(s, Limits(depth, digits), Limits(d, digits));
      DeeperLoads(s, Limits(depth, digits), Limits(|s|, digits));
    }
  }

  function Openings(n: nat): (s: string)
    ensures |s| == n && forall i :: 0 <= i < n ==> s[i] == '['
  {
    if n == 0 then "" else "[" + Openings(n - 1)
  }

  lemma {:induction false} OpeningsTooDeep(limits: Limits)
    ensures ReadValue(Openings(limits.depth + 1), limits) == Err(TooDeep)
    decreases limits.depth
  {
    if limits.depth > 0 {
      var inner := limits.(depth := limits.depth - 1);
      OpeningsTooDeep(inner);
      assert Openings(limits.depth + 1)[1..] == Openings(limits.depth);
    }
  }
}
