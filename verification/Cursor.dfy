/** Opaque keyset cursors: where a page of a listing ended, as compact sorted-key JSON in unpadded base64. */
module Cursor {
  import opened Kernel
  import opened Text
  import opened Json
  import opened JsonNumbers
  import opened JsonReader
  import JsonText
  import opened Calendar
  import opened Encoding
  import opened Sorting

  /** Where a row stands in a listing. */
  datatype Position = Position(instant: int, id: Uuid)

  /** A listing: its two cursor fields, and whether later rows come first. */
  datatype Listing = Listing(idField: string, timeField: string, descending: bool)

  const EPISODES := Listing("episode_id", "ingested_at", false)
  const CLAIMS := Listing("claim_id", "recorded_from", true)
  const EXECUTIONS := Listing("execution_id", "updated_at", true)

  /** What reading a cursor can raise. Only `InvalidCursor` is the declared refusal: a timestamp without an offset,
      one without a UTC form, an identifier that is not text, and nesting beyond the interpreter's limit escape as
      other exceptions. */
  datatype CursorError = InvalidCursor | NotAware | OutOfRange | NotText | TooDeep

  /** The two members are printed in the order of their names. */
  lemma FieldOrder(listing: Listing)
    requires listing in {EPISODES, CLAIMS, EXECUTIONS}
    ensures Less(CodePoints(listing.idField), CodePoints(listing.timeField))
  {
    assert CodePoints(listing.idField)[0] < CodePoints(listing.timeField)[0];
  }

  function Payload(listing: Listing, p: Position): Json
    requires Representable(p.instant)
  {
    Obj([Member(listing.idField, Str(UuidText(p.id))), Member(listing.timeField, Str(IsoText(AtUtc(p.instant))))])
  }

  function Encode(listing: Listing, p: Position): (r: Result<string, CursorError>) {
    if !Representable(p.instant) then Err(OutOfRange)
    else Ok(StripPadding(Base64(Utf8(Print(Payload(listing, p))))))
  }

  /** ISO text without an offset. */
  function NaiveText(t: DateTime): string {
    DateText(t, ClockText(t, ""))
  }

  /** A timestamp the library can hold. */
  type Timestamp = t: DateTime | ValidDateTime(t) witness DateTime(1, 1, 1, 0, 0, 0, 0, 0)

  datatype Moment = Unreadable | Naive | Aware(t: Timestamp)

  /** What the standard library makes of a text: a timestamp, with or without an offset; an identifier; and how much
      JSON it reads. */
  datatype Library = Library(moment: Points -> Moment, id: Points -> Option<Uuid>, limits: Limits)

  /** It reads the texts it prints, and objects. */
  ghost predicate Sensible(lib: Library) {
    && (forall t: Timestamp :: lib.moment(CodePoints(IsoText(t))) == Aware(t))
    && (forall t: Timestamp :: lib.moment(CodePoints(NaiveText(t))) == Naive)
    && (forall id: Uuid :: lib.id(CodePoints(UuidText(id))) == Some(id))
    && lib.limits.depth > 0
  }

  /** A member's value; the last one of a repeated name. */
  function Lookup(members: seq<Named>, name: string): (r: Option<Loaded>) {
    if members == [] then None
    else if members[|members| - 1].name == CodePoints(name) then Some(members[|members| - 1].value)
    else Lookup(members[..|members| - 1], name)
  }

  /** The text a cursor carries. */
  function Carried(cursor: string): (r: Option<string>) {
    match ReadBase64(cursor + Padding(|cursor|))
    case None => None
    case Some(bytes) => ReadUtf8(bytes)
  }

  function Document(lib: Library, cursor: string): (r: Result<Loaded, Failure>) {
    match Carried(cursor)
    case None => Err(Malformed)
    case Some(text) => Loads(text, lib.limits)
  }

  function ReadMoment(lib: Library, v: Option<Loaded>): Moment {
    if v.Some? && v.value.Chars? then lib.moment(v.value.points) else Unreadable
  }

  function ReadId(lib: Library, v: Option<Loaded>): (r: Result<Uuid, CursorError>) {
    if v.None? || v.value.Nothing? then Err(InvalidCursor)
    else if !v.value.Chars? then Err(NotText)
    else
      match lib.id(v.value.points)
      case None => Err(InvalidCursor)
      case Some(id) => Ok(id)
  }

  function Decode(lib: Library, listing: Listing, cursor: string): (r: Result<Position, CursorError>) {
    match Document(lib, cursor)
    case Err(failure) => Err(if failure.TooDeep? then CursorError.TooDeep else InvalidCursor)
    case Ok(document) =>
      if !document.Dict? then Err(InvalidCursor)
      else
        var moment := ReadMoment(lib, Lookup(document.members, listing.timeField));
        if moment.Unreadable? then Err(InvalidCursor)
        else
          match ReadId(lib, Lookup(document.members, listing.idField))
          case Err(error) => Err(error)
          case Ok(id) =>
            if moment.Naive? then Err(NotAware)
            else if !Representable(Instant(moment.t)) then Err(OutOfRange)
            else Ok(Position(Instant(moment.t), id))
  }

  /** The cursor that carries a text. */
  function CursorFor(text: string): string {
    StripPadding(Base64(Utf8(text)))
  }

  lemma CarriedBack(text: string)
    ensures Carried(CursorFor(text)) == Some(text)
  {
    StrippedRoundTrip(text);
  }

  lemma LookupBoth(a: Named, b: Named, name: string, other: string)
    requires a.name == CodePoints(name) && b.name == CodePoints(other) && name != other
    ensures Lookup([a, b], name) == Some(a.value) && Lookup([a, b], other) == Some(b.value)
  {
    if CodePoints(name) == CodePoints(other) {
      CodePointsInjective(name, other);
    }
    assert [a, b][..1] == [a];
  }

  lemma PayloadBack(lib: Library, listing: Listing, p: Position)
    requires Representable(p.instant) && lib.limits.depth > 0
    ensures Encode(listing, p).Ok?
    ensures Document(lib, Encode(listing, p).value) ==
            Ok(Dict([Named(CodePoints(listing.idField), Chars(CodePoints(UuidText(p.id)))),
                     Named(CodePoints(listing.timeField), Chars(CodePoints(IsoText(AtUtc(p.instant)))))]))
  {
    var payload := Payload(listing, p);
    CarriedBack(Print(payload));
    JsonText.DocumentRoundTrip(payload, lib.limits);
    TwoLoaded(payload.members[0], payload.members[1]);
  }

  lemma TwoLoaded(a: Member, b: Member)
    ensures JsonText.LoadedOf(Obj([a, b])) ==
            Dict([Named(CodePoints(a.name), JsonText.LoadedOf(a.value)), Named(CodePoints(b.name), JsonText.LoadedOf(b.value))])
  {
    assert JsonText.MembersLoaded([a, b]) ==
           [Named(CodePoints(a.name), JsonText.LoadedOf(a.value)), Named(CodePoints(b.name), JsonText.LoadedOf(b.value))];
  }

  /** A cursor that was handed out reads back as the position it was made from. */
  lemma RoundTrip(lib: Library, listing: Listing, p: Position)
    requires Sensible(lib) && listing.idField != listing.timeField && Encode(listing, p).Ok?
    ensures Decode(lib, listing, Encode(listing, p).value) == Ok(p)
  {
    var t: Timestamp := AtUtc(p.instant);
    PayloadBack(lib, listing, p);
    assert lib.moment(CodePoints(IsoText(t))) == Aware(t);
    LookupBoth(Named(CodePoints(listing.idField), Chars(CodePoints(UuidText(p.id)))),
               Named(CodePoints(listing.timeField), Chars(CodePoints(IsoText(t)))), listing.idField, listing.timeField);
  }

  /** Different positions have different cursors, made of characters that need no escaping in a URL. */
  lemma Injective(listing: Listing, p: Position, q: Position)
    requires listing.idField != listing.timeField && Encode(listing, p).Ok? && Encode(listing, q).Ok?
    ensures Encode(listing, p) == Encode(listing, q) <==> p == q
    ensures '=' !in Encode(listing, p).value
  {
    StandardIsSensible(1);
    RoundTrip(Standard(1), listing, p);
    RoundTrip(Standard(1), listing, q);
    StrippedRoundTrip(Print(Payload(listing, p)));
  }

  // ----- How reading a cursor fails -----------------------------------------------------------------------

  /** The cursor carries a spelling of the value, in the grammar of `JsonReader` and within the limits. */
  ghost predicate Says(lib: Library, cursor: string, v: Loaded) {
    Carried(cursor).Some? && exists item ::
      ValidItem(item, lib.limits) && Carried(cursor).value == ItemText(item) && TreeMeaning(item.tree) == v
  }

  lemma SaysIs(lib: Library, cursor: string, v: Loaded)
    ensures Says(lib, cursor, v) <==> Document(lib, cursor) == Ok(v)
  {
    if Carried(cursor).Some? {
      LoadsExactly(Carried(cursor).value, lib.limits, v);
    }
  }

  /** The timestamp reads, and the identifier is present, not null, and not text. */
  ghost predicate IdIsNotText(lib: Library, listing: Listing, cursor: string) {
    exists members ::
      && Says(lib, cursor, Dict(members)) && !ReadMoment(lib, Lookup(members, listing.timeField)).Unreadable?
      && var id := Lookup(members, listing.idField);
         id.Some? && !id.value.Nothing? && !id.value.Chars?
  }

  /** The identifier reads, and the timestamp reads as one without an offset. */
  ghost predicate TimeIsNaive(lib: Library, listing: Listing, cursor: string) {
    exists members ::
      && Says(lib, cursor, Dict(members)) && ReadId(lib, Lookup(members, listing.idField)).Ok?
      && ReadMoment(lib, Lookup(members, listing.timeField)) == Naive
  }

  /** The identifier reads, and the timestamp reads as one whose instant is outside years 1 to 9999 in UTC. */
  ghost predicate TimeIsOutside(lib: Library, listing: Listing, cursor: string) {
    exists members ::
      && Says(lib, cursor, Dict(members)) && ReadId(lib, Lookup(members, listing.idField)).Ok?
      && var moment := ReadMoment(lib, Lookup(members, listing.timeField));
         moment.Aware? && !Representable(Instant(moment.t))
  }

  /** The text needs more containers open at once than the limit allows before it is read or refused. */
  ghost predicate IsTooDeep(lib: Library, cursor: string) {
    Carried(cursor).Some? && exists depth: nat :: Nests(Carried(cursor).value, lib.limits.digits, depth) && lib.limits.depth < depth
  }

  lemma TooDeepIs(lib: Library, cursor: string)
    ensures IsTooDeep(lib, cursor) <==> Document(lib, cursor) == Err(Failure.TooDeep)
  {
    if Carried(cursor).Some? {
      var s, limits := Carried(cursor).value, lib.limits;
      assert Document(lib, cursor) == Loads(s, Limits(limits.depth, limits.digits));
      var depth := DepthDecides(s, limits.digits);
      forall other: nat | Nests(s, limits.digits, other) && limits.depth < other
        ensures Loads(s, Limits(limits.depth, limits.digits)) == Err(Failure.TooDeep)
      {
      }
    }
  }

  /** Each exception other than the refusal, by what the cursor carries; the cursor is otherwise read or refused. This
      holds whatever texts the library takes for timestamps and identifiers. */
  lemma Escapes(lib: Library, listing: Listing, cursor: string)
    ensures Decode(lib, listing, cursor) == Err(NotText) <==> IdIsNotText(lib, listing, cursor)
    ensures Decode(lib, listing, cursor) == Err(NotAware) <==> TimeIsNaive(lib, listing, cursor)
    ensures Decode(lib, listing, cursor) == Err(OutOfRange) <==> TimeIsOutside(lib, listing, cursor)
    ensures Decode(lib, listing, cursor) == Err(CursorError.TooDeep) <==> IsTooDeep(lib, cursor)
    ensures Decode(lib, listing, cursor).Ok? || Decode(lib, listing, cursor) == Err(InvalidCursor) <==>
            && !IdIsNotText(lib, listing, cursor) && !TimeIsNaive(lib, listing, cursor)
            && !TimeIsOutside(lib, listing, cursor) && !IsTooDeep(lib, cursor)
  {
    TooDeepIs(lib, cursor);
    forall members ensures Says(lib, cursor, Dict(members)) <==> Document(lib, cursor) == Ok(Dict(members)) {
      SaysIs(lib, cursor, Dict(members));
    }
    if Document(lib, cursor).Ok? && Document(lib, cursor).value.Dict? {
      assert Says(lib, cursor, Dict(Document(lib, cursor).value.members));
    }
  }

  // ----- Cursors that a client can send ---------------------------------------------------------------------

  function MemberText(name: string, gap: string, value: string): string {
    "\"" + (Escape(name) + ("\"" + (":" + (gap + value))))
  }

  function StringText(s: string): string {
    "\"" + (Escape(s) + "\"")
  }

  /** An object with the two members of a cursor, `gap` after each separator. */
  function FieldsText(listing: Listing, gap: string, id: string, time: string): string {
    "{" + (MemberText(listing.idField, gap, id) + ("," + (gap + (MemberText(listing.timeField, gap, StringText(time)) + "}"))))
  }

  function FieldsCursor(listing: Listing, gap: string, id: string, time: string): string {
    CursorFor(FieldsText(listing, gap, id, time))
  }

  /** That text in the grammar. */
  function Fields(listing: Listing, gap: string, id: Tree, time: string): Item {
    Item("", Braces("", [Entry("", JsonText.PiecesOf(listing.idField), "", Item(gap, id, "")),
                         Entry(gap, JsonText.PiecesOf(listing.timeField), "", Item(gap, Quoted(time), ""))]), "")
  }

  function Quoted(s: string): Tree {
    Quote(JsonText.PiecesOf(s))
  }

  lemma QuotedText(s: string)
    ensures TreeText(Quoted(s)) == StringText(s)
  {
    JsonText.PiecesEscape(s);
  }

  lemma MemberIs(before: string, name: string, gap: string, value: Tree)
    ensures EntryText(Entry(before, JsonText.PiecesOf(name), "", Item(gap, value, ""))) ==
            before + MemberText(name, gap, TreeText(value))
  {
    JsonText.PiecesEscape(name);
    var text := TreeText(value);
    assert gap + (text + "") == gap + text && "" + (":" + (gap + text)) == ":" + (gap + text);
    Associate(Escape(name), "\"", ":" + (gap + text));
    Associate("\"", Escape(name) + "\"", ":" + (gap + text));
  }

  lemma FieldsIs(listing: Listing, gap: string, id: Tree, time: string)
    ensures ItemText(Fields(listing, gap, id, time)) == FieldsText(listing, gap, TreeText(id), time)
  {
    var item := Fields(listing, gap, id, time);
    var first, second := item.tree.entries[0], item.tree.entries[1];
    var text := MemberText(listing.timeField, gap, StringText(time));
    MemberIs("", listing.idField, gap, id);
    MemberIs(gap, listing.timeField, gap, Quoted(time));
    QuotedText(time);
    assert item.tree.entries[1..] == [second] && EntriesText([second]) == EntryText(second) + "" == gap + text;
    ObjectText(item, first, "," + (gap + text));
    Associate(",", gap + text, "}");
    Associate(gap, text, "}");
    assert "" + MemberText(listing.idField, gap, TreeText(id)) == MemberText(listing.idField, gap, TreeText(id));
  }

  function FieldsMembers(listing: Listing, id: Tree, time: string): seq<Named> {
    [Named(CodePoints(listing.idField), TreeMeaning(id)), Named(CodePoints(listing.timeField), Chars(CodePoints(time)))]
  }

  function MemberOf(e: Entry): Named {
    Named(PiecesMeaning(e.name), TreeMeaning(e.item.tree))
  }

  lemma TwoMembers(a: Entry, b: Entry, limits: Limits)
    requires limits.depth > 0
    requires ValidEntry(a, limits.(depth := limits.depth - 1)) && ValidEntry(b, limits.(depth := limits.depth - 1))
    ensures ValidItem(Item("", Braces("", [a, b]), ""), limits)
    ensures TreeMeaning(Braces("", [a, b])) == Dict([MemberOf(a), MemberOf(b)])
  {
    assert [a, b][1..] == [b];
    assert EntriesMeaning([b]) == [MemberOf(b)];
  }

  lemma FieldsMean(listing: Listing, gap: string, id: Tree, time: string, limits: Limits)
    requires Blanks(gap) && limits.depth > 0 && ValidTree(id, limits.(depth := limits.depth - 1))
    ensures var item := Fields(listing, gap, id, time);
            ValidItem(item, limits) && TreeMeaning(item.tree) == Dict(FieldsMembers(listing, id, time))
  {
    var entries := Fields(listing, gap, id, time).tree.entries;
    JsonText.PiecesEscape(listing.idField);
    JsonText.PiecesEscape(listing.timeField);
    JsonText.PiecesEscape(time);
    TwoMembers(entries[0], entries[1], limits);
  }

  lemma FieldsRead(lib: Library, listing: Listing, gap: string, id: Tree, time: string)
    requires Blanks(gap) && lib.limits.depth > 0 && ValidTree(id, lib.limits.(depth := lib.limits.depth - 1))
    requires listing.idField != listing.timeField
    ensures var members := FieldsMembers(listing, id, time);
            && Document(lib, FieldsCursor(listing, gap, TreeText(id), time)) == Ok(Dict(members))
            && Lookup(members, listing.idField) == Some(TreeMeaning(id))
            && Lookup(members, listing.timeField) == Some(Chars(CodePoints(time)))
  {
    var item, members := Fields(listing, gap, id, time), FieldsMembers(listing, id, time);
    FieldsIs(listing, gap, id, time);
    CarriedBack(ItemText(item));
    FieldsMean(listing, gap, id, time, lib.limits);
    LoadsExactly(ItemText(item), lib.limits, Dict(members));
    LookupBoth(members[0], members[1], listing.idField, listing.timeField);
  }

  /** Any value but null and text for the identifier raises, beside any timestamp that reads. */
  lemma OtherIdEscapes(lib: Library, listing: Listing, gap: string, id: Tree, time: string)
    requires Blanks(gap) && lib.limits.depth > 0 && ValidTree(id, lib.limits.(depth := lib.limits.depth - 1))
    requires listing.idField != listing.timeField && !lib.moment(CodePoints(time)).Unreadable?
    requires !TreeMeaning(id).Nothing? && !TreeMeaning(id).Chars?
    ensures Decode(lib, listing, FieldsCursor(listing, gap, TreeText(id), time)) == Err(NotText)
  {
    FieldsRead(lib, listing, gap, id, time);
  }

  /** An integer for the identifier raises when it has no more digits than the limit, and is refused otherwise. */
  lemma NumericIdEscapes(lib: Library, listing: Listing, gap: string, n: int, time: string)
    requires Blanks(gap) && lib.limits.depth > 0
    requires listing.idField != listing.timeField && !lib.moment(CodePoints(time)).Unreadable?
    ensures Decode(lib, listing, FieldsCursor(listing, gap, IntText(n), time)) ==
            Err(if ShortEnough(IntText(n), lib.limits) then NotText else InvalidCursor)
  {
    IntIsWhole(n);
    if ShortEnough(IntText(n), lib.limits) {
      OtherIdEscapes(lib, listing, gap, Numeral(IntText(n)), time);
    } else {
      LongIdRefused(lib, listing, gap, n, time);
    }
  }

  /** Beside an identifier that reads, the timestamp decides. */
  lemma TimeDecides(lib: Library, listing: Listing, gap: string, idText: string, id: Uuid, time: string)
    requires Blanks(gap) && lib.limits.depth > 0 && listing.idField != listing.timeField && lib.id(CodePoints(idText)) == Some(id)
    ensures Decode(lib, listing, FieldsCursor(listing, gap, StringText(idText), time)) ==
            match lib.moment(CodePoints(time))
            case Unreadable => Err(InvalidCursor)
            case Naive => Err(NotAware)
            case Aware(t) => if Representable(Instant(t)) then Ok(Position(Instant(t), id)) else Err(OutOfRange)
  {
    JsonText.PiecesEscape(idText);
    QuotedText(idText);
    FieldsRead(lib, listing, gap, Quoted(idText), time);
  }

  lemma ReadsBack(lib: Library, id: Uuid, t: Timestamp)
    requires Sensible(lib)
    ensures lib.id(CodePoints(UuidText(id))) == Some(id)
    ensures lib.moment(CodePoints(IsoText(t))) == Aware(t) && lib.moment(CodePoints(NaiveText(t))) == Naive
  {
  }

  /** A timestamp without an offset raises, beside any identifier. */
  lemma NaiveTimeEscapes(lib: Library, listing: Listing, gap: string, id: Uuid, t: Timestamp)
    requires Sensible(lib) && Blanks(gap) && listing.idField != listing.timeField
    ensures Decode(lib, listing, FieldsCursor(listing, gap, StringText(UuidText(id)), NaiveText(t))) == Err(NotAware)
  {
    ReadsBack(lib, id, t);
    TimeDecides(lib, listing, gap, UuidText(id), id, NaiveText(t));
  }

  /** A timestamp whose instant has no UTC form raises, beside any identifier. */
  lemma OutsideTimeEscapes(lib: Library, listing: Listing, gap: string, id: Uuid, t: Timestamp)
    requires Sensible(lib) && Blanks(gap) && listing.idField != listing.timeField && !Representable(Instant(t))
    ensures Decode(lib, listing, FieldsCursor(listing, gap, StringText(UuidText(id)), IsoText(t))) == Err(OutOfRange)
  {
    ReadsBack(lib, id, t);
    TimeDecides(lib, listing, gap, UuidText(id), id, IsoText(t));
  }

  lemma ObjectRefused(body: string, limits: Limits)
    requires limits.depth > 0 && SkipBlanks(body) != "" && SkipBlanks(body)[0] != '}'
    requires ReadMembers(SkipBlanks(body), limits.(depth := limits.depth - 1)) == Err(Malformed)
    ensures Loads("{" + body, limits) == Err(Malformed)
  {
    var s := "{" + body;
    assert s[1..] == body && s[0] == '{';
    BraceRefused(s, limits);
    assert SkipBlanks(s) == s;
  }

  lemma BraceRefused(s: string, limits: Limits)
    requires limits.depth > 0 && s != "" && s[0] == '{' && SkipBlanks(s[1..]) != "" && SkipBlanks(s[1..])[0] != '}'
    requires ReadMembers(SkipBlanks(s[1..]), limits.(depth := limits.depth - 1)) == Err(Malformed)
    ensures ReadValue(s, limits) == Err(Malformed)
  {
  }

  /** The text of an object begins with its first member. */
  lemma ObjectText(item: Item, first: Entry, more: string)
    requires item.before == item.after == "" && item.tree.Braces? && item.tree.entries != [] && item.tree.entries[0] == first
    requires more == if |item.tree.entries| == 1 then "" else "," + EntriesText(item.tree.entries[1..])
    ensures ItemText(item) == "{" + (EntryText(first) + (more + "}"))
  {
    var text := TreeText(item.tree);
    assert "" + (text + "") == text;
    assert EntriesText(item.tree.entries) == EntryText(first) + more;
    assert text == "{" + ((EntryText(first) + more) + "}");
    Associate(EntryText(first), more, "}");
  }

  lemma LongNumber(text: string, limits: Limits, rest: string)
    requires IsNumberText(text) && !ShortEnough(text, limits) && Delimited(rest)
    ensures ReadValue(text + rest, limits) == Err(Malformed)
  {
    NumberStarts(text);
    assert (text + rest)[0] == text[0] && (text[0] == '-' ==> (text + rest)[1] == text[1]);
    ScalarRead(text + rest, limits);
    NumberIsNoWord(text + rest, limits);
    NumberRunOn(text, rest);
  }

  /** An object whose first member's value does not read. */
  lemma FirstRefused(first: Entry, roomy: Limits, limits: Limits, end: string)
    requires ValidEntry(first, roomy) && limits.depth > 0 && Ends(end)
    requires ReadValue(TreeText(first.item.tree) + (first.item.after + end), limits.(depth := limits.depth - 1)) == Err(Malformed)
    ensures Loads("{" + (EntryText(first) + end), limits) == Err(Malformed)
  {
    EntryThen(first, roomy, end);
    ItemThen(first.item, roomy, end);
    ObjectRefused(EntryText(first) + end, limits);
  }

  lemma LongMalformed(listing: Listing, gap: string, text: string, time: string, limits: Limits)
    requires Blanks(gap) && limits.depth > 0 && IsNumberText(text) && !ShortEnough(text, limits)
    ensures Loads(FieldsText(listing, gap, text, time), limits) == Err(Malformed)
  {
    var item := Fields(listing, gap, Numeral(text), time);
    var first, more := item.tree.entries[0], "," + EntriesText(item.tree.entries[1..]);
    JsonText.PiecesEscape(listing.idField);
    FieldsIs(listing, gap, Numeral(text), time);
    ObjectText(item, first, more);
    assert "" + (more + "}") == more + "}";
    LongNumber(text, limits.(depth := limits.depth - 1), more + "}");
    FirstRefused(first, Limits(1, |text|), limits, more + "}");
  }

  lemma LongIdRefused(lib: Library, listing: Listing, gap: string, n: int, time: string)
    requires Blanks(gap) && lib.limits.depth > 0 && !ShortEnough(IntText(n), lib.limits)
    ensures Decode(lib, listing, FieldsCursor(listing, gap, IntText(n), time)) == Err(InvalidCursor)
  {
    IntIsWhole(n);
    LongMalformed(listing, gap, IntText(n), time, lib.limits);
    CarriedBack(FieldsText(listing, gap, IntText(n), time));
  }

  /** What looks like a number but is none, `1.2.3`, is refused whatever follows. */
  lemma DottedIdRefused(lib: Library, listing: Listing, more: string)
    requires lib.limits.depth > 0
    ensures var text := "{" + (QuoteText(JsonText.PiecesOf(listing.idField)) + (":" + ("1.2.3" + more)));
            Decode(lib, listing, CursorFor(text)) == Err(InvalidCursor)
  {
    var text := "{" + (QuoteText(JsonText.PiecesOf(listing.idField)) + (":" + ("1.2.3" + more)));
    JsonText.PiecesEscape(listing.idField);
    DottedMalformed(JsonText.PiecesOf(listing.idField), more, lib.limits);
    CarriedBack(text);
  }

  lemma DottedMalformed(name: seq<Piece>, more: string, limits: Limits)
    requires limits.depth > 0 && ValidPieces(name)
    ensures Loads("{" + (QuoteText(name) + (":" + ("1.2.3" + more))), limits) == Err(Malformed)
  {
    var value := "1.2.3" + more;
    var body := QuoteText(name) + (":" + value);
    QuoteRead(name, ":" + value);
    ColonRead(body, PiecesMeaning(name), value);
    DottedStops(value, more, limits.(depth := limits.depth - 1));
    ObjectRefused(body, limits);
  }

  lemma ColonRead(s: string, name: Points, value: string)
    requires s != "" && s[0] == '\"' && ReadChars(s[1..]) == Some((name, ":" + value)) && value != "" && !BlankChar(value[0])
    ensures ReadName(s) == Some((name, value)) && SkipBlanks(s) == s
  {
    assert (":" + value)[1..] == value && SkipBlanks(":" + value) == ":" + value && SkipBlanks(value) == value;
  }

  /** Only `1.2` is a number. */
  lemma DottedNumber(s: string, more: string)
    requires s == "1.2.3" + more
    ensures NumberRun(s) == 3 && s[..3] == "1.2" && s[3..] == ".3" + more && IsFloatText("1.2")
  {
    var tail := ".2.3" + more;
    assert s[1..] == tail && s[0..] == s;
    DigitRunIs(s, 1);
    assert tail[1..] == "2.3" + more && tail[2..] == ".3" + more;
    DigitRunIs(tail[1..], 1);
    assert FractionRun(tail) == 2 && ExponentRun(tail[2..]) == 0;
    NumberRunCut(s);
  }

  lemma DottedStops(s: string, more: string, limits: Limits)
    requires s == "1.2.3" + more
    ensures ReadValue(s, limits) == Ok((Number("1.2"), ".3" + more)) && SkipBlanks(".3" + more) == ".3" + more
  {
    DottedNumber(s, more);
    ScalarRead(s, limits);
    NumberIsNoWord(s, limits);
  }

  // ----- One library ------------------------------------------------------------------------------------------

  predicate ScalarPoint(n: int) {
    0 <= n < 0xD800 || 0xE000 <= n < 0x110000
  }

  /** The text without surrogates that the code points are, if they are one. */
  function AsText(points: Points): (r: Option<string>) {
    if points == [] then Some("")
    else if !ScalarPoint(points[0]) then None
    else
      match AsText(points[1..])
      case None => None
      case Some(rest) => Some([points[0] as char] + rest)
  }

  lemma {:induction false} AsTextBack(s: string)
    ensures AsText(CodePoints(s)) == Some(s)
  {
    if s != "" {
      assert CodePoints(s)[1..] == CodePoints(s[1..]);
      AsTextBack(s[1..]);
      assert [s[0]] + s[1..] == s;
    }
  }

  function IsoMoment(points: Points): Moment {
    match AsText(points)
    case None => Unreadable
    case Some(s) =>
      if ParseIso(s).Some? then Aware(ParseIso(s).value)
      else if ParseIso(s + "+00:00").Some? then Naive
      else Unreadable
  }

  function HexId(points: Points): Option<Uuid> {
    match AsText(points)
    case None => None
    case Some(s) => (match ParseUuid(s) case Some(id) => Some(id) case None => None)
  }

  /** A library that reads the extended forms alone. */
  function Standard(depth: nat): Library {
    Library((points: Points) => IsoMoment(points), (points: Points) => HexId(points), Limits(depth, 4300))
  }

  lemma StandardIsSensible(depth: nat)
    requires depth > 0
    ensures Sensible(Standard(depth))
  {
    var lib := Standard(depth);
    forall t: Timestamp ensures lib.moment(CodePoints(IsoText(t))) == Aware(t) {
      AsTextBack(IsoText(t));
      IsoRoundTrip(t);
    }
    forall t: Timestamp ensures lib.moment(CodePoints(NaiveText(t))) == Naive {
      AsTextBack(NaiveText(t));
      NaiveReads(t);
    }
    forall id: Uuid ensures lib.id(CodePoints(UuidText(id))) == Some(id) {
      AsTextBack(UuidText(id));
      UuidRoundTrip(id);
    }
  }

  const NEW_YEAR: Timestamp := DateTime(2024, 1, 1, 0, 0, 0, 0, 0)

  /** The first hour of year 1, one hour east of UTC. */
  const FIRST_HOUR: Timestamp := DateTime(1, 1, 1, 0, 0, 0, 0, 3_600_000_000)

  /** Episode cursors a client can send: the number 7 for the identifier, written with spaces or without, ... */
  lemma SevenEscapes(lib: Library, gap: string)
    requires Sensible(lib) && lib.limits.digits >= 1 && Blanks(gap)
    ensures Decode(lib, EPISODES, FieldsCursor(EPISODES, gap, "7", IsoText(NEW_YEAR))) == Err(NotText)
  {
    SevenIs(lib.limits);
    ReadsBack(lib, 7, NEW_YEAR);
    NumericIdEscapes(lib, EPISODES, gap, 7, IsoText(NEW_YEAR));
  }

  lemma SevenIs(limits: Limits)
    requires limits.digits >= 1
    ensures IntText(7) == "7" && ShortEnough("7", limits)
  {
    assert DIGITS[7] == '7';
  }

  /** ... a timestamp without an offset, ... */
  lemma NewYearEscapes(lib: Library)
    requires Sensible(lib)
    ensures Decode(lib, EPISODES, FieldsCursor(EPISODES, "", StringText(UuidText(7)), NaiveText(NEW_YEAR))) == Err(NotAware)
  {
    NaiveTimeEscapes(lib, EPISODES, "", 7, NEW_YEAR);
  }

  /** ... a timestamp before year 1 in UTC, ... */
  lemma FirstHourEscapes(lib: Library)
    requires Sensible(lib)
    ensures Decode(lib, EPISODES, FieldsCursor(EPISODES, "", StringText(UuidText(7)), IsoText(FIRST_HOUR))) == Err(OutOfRange)
  {
    BeforeYearOne();
    OutsideTimeEscapes(lib, EPISODES, "", 7, FIRST_HOUR);
  }

  /** ... and one opening bracket more than may be open. */
  lemma OpeningsEscape(lib: Library, listing: Listing)
    ensures Decode(lib, listing, CursorFor(Openings(lib.limits.depth + 1))) == Err(CursorError.TooDeep)
  {
    CarriedBack(Openings(lib.limits.depth + 1));
    OpeningsTooDeep(lib.limits);
  }

  lemma BeforeYearOne()
    ensures !Representable(Instant(FIRST_HOUR))
  {
    assert MonthStart(1, 1) == 0 && YearStart(1) == 0;
  }

  lemma NaiveReads(t: DateTime)
    requires ValidDateTime(t)
    ensures ParseIso(NaiveText(t)).None? && ParseIso(NaiveText(t) + "+00:00").Some?
  {
    WithoutOffset(t);
    WithOffset(t);
  }

  /** Without an offset the reader of aware timestamps refuses. */
  lemma WithoutOffset(t: DateTime)
    requires ValidDateTime(t)
    ensures ParseIso(NaiveText(t)) == None
  {
    var s := SecondsText(t.second, t.micro, "");
    var clock := ClockText(t, "");
    assert Power(10, 2) == 100 && Power(10, 4) == 10000;
    TakesField(4, t.year, '-', Two(t.month) + ("-" + (Two(t.day) + ("T" + clock))));
    TakesField(2, t.month, '-', Two(t.day) + ("T" + clock));
    TakesField(2, t.day, 'T', clock);
    TakesField(2, t.hour, ':', Two(t.minute) + (":" + s));
    TakesField(2, t.minute, ':', s);
    TakesSeconds(t.second, t.micro, "");
  }

  /** With one appended it reads. */
  lemma WithOffset(t: DateTime)
    requires ValidDateTime(t)
    ensures ParseIso(NaiveText(t) + "+00:00") == Some(t.(offset := 0))
  {
    var utc := t.(offset := 0);
    OffsetRoundTrip(0);
    UtcZone();
    ClockRoundTrip(utc, "+00:00");
    DateRoundTrip(utc, ClockText(utc, "+00:00"));
    AppendOffset(t);
  }

  lemma UtcZone()
    ensures ZoneText(ZoneOf(0)) == "+00:00"
  {
    assert ZoneOf(0) == Zone('+', 0, 0, 0, 0);
    assert FixedText(10, 0, 0) == "" && FixedText(10, 1, 0) == "0";
    assert Two(0) == FixedText(10, 1, 0) + [DigitChar(0)] == "00";
  }

  lemma AppendOffset(t: DateTime)
    ensures NaiveText(t) + "+00:00" == DateText(t.(offset := 0), ClockText(t.(offset := 0), "+00:00"))
  {
    var zone := "+00:00";
    assert SecondsText(t.second, t.micro, "") + zone == SecondsText(t.second, t.micro, zone);
    assert ClockText(t, "") + zone == ClockText(t, zone);
  }
}
