/** Printed JSON text read back: the reader inverts the compact printer, so the text determines the value. */
module JsonText {
  import opened Kernel
  import opened Text
  import opened Json
  import opened JsonNumbers
  import opened JsonReader

  /** What a printed value is read back as. */
  function LoadedOf(j: Json): Loaded
    decreases j, 0
  {
    match j
    case Null => Nothing
    case Bool(flag) => Truth(flag)
    case Int(n) => Number(IntText(n))
    case Float(text) => Number(text)
    case Str(s) => Chars(CodePoints(s))
    case Arr(items) => List(AllLoaded(items))
    case Obj(members) => Dict(MembersLoaded(members))
  }

  function AllLoaded(items: seq<Json>): (vs: seq<Loaded>)
    ensures |vs| == |items| && forall i :: 0 <= i < |items| ==> vs[i] == LoadedOf(items[i])
    decreases items, 1
  {
    if items == [] then [] else [LoadedOf(items[0])] + AllLoaded(items[1..])
  }

  function MembersLoaded(members: seq<Member>): (ms: seq<Named>)
    ensures |ms| == |members|
    ensures forall i :: 0 <= i < |members| ==> ms[i] == Named(CodePoints(members[i].name), LoadedOf(members[i].value))
    decreases members, 1
  {
    if members == [] then []
    else [Named(CodePoints(members[0].name), LoadedOf(members[0].value))] + MembersLoaded(members[1..])
  }

  /** The value stays within the limits. */
  predicate Fits(j: Json, limits: Limits)
    decreases j
  {
    match j
    case Int(n) => |IntText(n)| - SignRun(IntText(n)) <= limits.digits
    case Arr(items) => limits.depth > 0 && forall i :: 0 <= i < |items| ==> Fits(items[i], limits.(depth := limits.depth - 1))
    case Obj(members) =>
      limits.depth > 0 && forall i :: 0 <= i < |members| ==> Fits(members[i].value, limits.(depth := limits.depth - 1))
    case _ => true
  }

  function PieceOf(c: char): Piece {
    if c == '\"' || c == '\\' then Short(c)
    else if c == '\n' then Short('n')
    else if c == '\r' then Short('r')
    else if c == '\t' then Short('t')
    else if c == '\U{8}' then Short('b')
    else if c == '\U{c}' then Short('f')
    else if c < ' ' then Unit(FixedText(16, 4, c as nat))
    else Plain(c)
  }

  function PiecesOf(s: string): seq<Piece> {
    if s == "" then [] else [PieceOf(s[0])] + PiecesOf(s[1..])
  }

  function TreeOf(j: Json): Tree
    decreases j, 0
  {
    match j
    case Null => Word("null")
    case Bool(flag) => Word(if flag then "true" else "false")
    case Int(n) => Numeral(IntText(n))
    case Float(text) => Numeral(text)
    case Str(s) => Quote(PiecesOf(s))
    case Arr(items) => Brackets("", ItemsOf(items))
    case Obj(members) => Braces("", EntriesOf(members))
  }

  function ItemsOf(items: seq<Json>): (ts: seq<Item>)
    ensures |ts| == |items| && forall i :: 0 <= i < |items| ==> ts[i] == Item("", TreeOf(items[i]), "")
    decreases items, 1
  {
    if items == [] then [] else [Item("", TreeOf(items[0]), "")] + ItemsOf(items[1..])
  }

  function EntriesOf(members: seq<Member>): (es: seq<Entry>)
    ensures |es| == |members|
    ensures forall i :: 0 <= i < |members| ==>
              es[i] == Entry("", PiecesOf(members[i].name), "", Item("", TreeOf(members[i].value), ""))
    decreases members, 1
  {
    if members == [] then []
    else [Entry("", PiecesOf(members[0].name), "", Item("", TreeOf(members[0].value), ""))] + EntriesOf(members[1..])
  }

  lemma PieceEscapes(c: char)
    ensures ValidPiece(PieceOf(c)) && PieceText(PieceOf(c)) == EscapeChar(c) && PieceMeaning(PieceOf(c)) == c as int
    ensures PieceOf(c).Unit? ==> !High(UnitValue(PieceOf(c).hex))
  {
    if PieceOf(c).Unit? {
      assert Power(16, 4) == 0x10000;
      FixedRoundTrip(16, 4, c as nat);
    }
  }

  /** Escaping is one way of writing a string. */
  lemma {:induction false} PiecesEscape(s: string)
    ensures ValidPieces(PiecesOf(s)) && PiecesText(PiecesOf(s)) == Escape(s) && PiecesMeaning(PiecesOf(s)) == CodePoints(s)
  {
    if s != "" {
      PieceEscapes(s[0]);
      PiecesEscape(s[1..]);
      assert PiecesOf(s)[1..] == PiecesOf(s[1..]);
      assert CodePoints(s) == [s[0] as int] + CodePoints(s[1..]);
    }
  }

  lemma EscapeRoundTrip(s: string, rest: string)
    ensures ReadChars(Escape(s) + ("\"" + rest)) == Some((CodePoints(s), rest))
  {
    PiecesEscape(s);
    PiecesRead(PiecesOf(s), rest);
  }

  /** Printed text is one way of writing a value. */
  lemma {:induction false} TreePrints(j: Json, limits: Limits)
    requires WellFormed(j) && Fits(j, limits)
    ensures ValidTree(TreeOf(j), limits) && TreeText(TreeOf(j)) == Print(j) && TreeMeaning(TreeOf(j)) == LoadedOf(j)
    decreases j, 0
  {
    match j
    case Null =>
    case Bool(_) =>
    case Int(n) => IntIsWhole(n);
    case Float(_) =>
    case Str(s) => PiecesEscape(s);
    case Arr(items) => ItemsPrint(items, limits.(depth := limits.depth - 1));
    case Obj(members) => EntriesPrint(members, limits.(depth := limits.depth - 1));
  }

  lemma {:induction false} ItemsPrint(items: seq<Json>, limits: Limits)
    requires forall i :: 0 <= i < |items| ==> WellFormed(items[i]) && Fits(items[i], limits)
    ensures forall i :: 0 <= i < |items| ==> ValidItem(ItemsOf(items)[i], limits)
    ensures (items != [] ==> ItemsText(ItemsOf(items)) == PrintItems(items)) && ItemsMeaning(ItemsOf(items)) == AllLoaded(items)
    decreases items, 1
  {
    if items != [] {
      TreePrints(items[0], limits);
      ItemsPrint(items[1..], limits);
      assert ItemsOf(items)[1..] == ItemsOf(items[1..]);
      var text := Print(items[0]);
      assert "" + (text + "") == text;
      forall i | 0 <= i < |items| ensures ValidItem(ItemsOf(items)[i], limits) {
        assert i > 0 ==> ItemsOf(items)[i] == ItemsOf(items[1..])[i - 1];
      }
    }
  }

  lemma {:induction false} EntriesPrint(members: seq<Member>, limits: Limits)
    requires forall i :: 0 <= i < |members| ==> WellFormed(members[i].value) && Fits(members[i].value, limits)
    ensures forall i :: 0 <= i < |members| ==> ValidEntry(EntriesOf(members)[i], limits)
    ensures members != [] ==> EntriesText(EntriesOf(members)) == PrintMembers(members)
    ensures EntriesMeaning(EntriesOf(members)) == MembersLoaded(members)
    decreases members, 1
  {
    if members != [] {
      var m, e := members[0], EntriesOf(members)[0];
      TreePrints(m.value, limits);
      PiecesEscape(m.name);
      EntriesPrint(members[1..], limits);
      assert EntriesOf(members)[1..] == EntriesOf(members[1..]);
      EntryPrints(m, e, if |members| == 1 then "" else "," + PrintMembers(members[1..]));
      forall i | 0 <= i < |members| ensures ValidEntry(EntriesOf(members)[i], limits) {
        assert i > 0 ==> EntriesOf(members)[i] == EntriesOf(members[1..])[i - 1];
      }
    }
  }

  lemma EntryPrints(m: Member, e: Entry, more: string)
    requires e == Entry("", PiecesOf(m.name), "", Item("", TreeOf(m.value), ""))
    requires TreeText(TreeOf(m.value)) == Print(m.value) && PiecesText(PiecesOf(m.name)) == Escape(m.name)
    ensures EntryText(e) + more == PrintMember(m, more)
  {
    var value, name := Print(m.value), Escape(m.name);
    assert "" + (value + "") == value && "" + (":" + value) == ":" + value;
    assert EntryText(e) == QuoteText(PiecesOf(m.name)) + (":" + value);
    Associate(":", value, more);
    Associate(QuoteText(PiecesOf(m.name)), ":" + value, more);
    Associate("\"", name + "\"", ":" + (value + more));
    Associate(name, "\"", ":" + (value + more));
  }

  /** Printed text is read back as the value it was printed from. */
  lemma DocumentRoundTrip(j: Json, limits: Limits)
    requires WellFormed(j) && Fits(j, limits)
    ensures Loads(Print(j), limits) == Ok(LoadedOf(j))
  {
    TreePrints(j, limits);
    var item := Item("", TreeOf(j), "");
    assert "" + (Print(j) + "") == Print(j);
    assert ValidItem(item, limits) && ItemText(item) == Print(j);
    LoadsExactly(Print(j), limits, LoadedOf(j));
  }

  lemma {:induction false} FitsMore(j: Json, limits: Limits, more: Limits)
    requires Fits(j, limits) && limits.depth <= more.depth && limits.digits <= more.digits
    ensures Fits(j, more)
  {
    match j
    case Arr(items) =>
      forall i | 0 <= i < |items| ensures Fits(items[i], more.(depth := more.depth - 1)) {
        FitsMore(items[i], limits.(depth := limits.depth - 1), more.(depth := more.depth - 1));
      }
    case Obj(members) =>
      forall i | 0 <= i < |members| ensures Fits(members[i].value, more.(depth := more.depth - 1)) {
        FitsMore(members[i].value, limits.(depth := limits.depth - 1), more.(depth := more.depth - 1));
      }
    case _ =>
  }

  function Max(a: Limits, b: Limits): Limits {
    Limits(if a.depth < b.depth then b.depth else a.depth, if a.digits < b.digits then b.digits else a.digits)
  }

  /** Every value fits some limits. */
  lemma {:induction false} SomeLimits(j: Json) returns (limits: Limits)
    ensures Fits(j, limits)
    decreases j, 0
  {
    match j
    case Int(n) => limits := Limits(0, |IntText(n)|);
    case Arr(items) =>
      limits := AllFit(items);
      limits := limits.(depth := limits.depth + 1);
    case Obj(members) =>
      limits := MembersFit(members);
      limits := limits.(depth := limits.depth + 1);
    case _ => limits := Limits(0, 0);
  }

  lemma {:induction false} AllFit(items: seq<Json>) returns (limits: Limits)
    ensures forall i :: 0 <= i < |items| ==> Fits(items[i], limits)
    decreases items, 1
  {
    if items == [] {
      limits := Limits(0, 0);
    } else {
      var first := SomeLimits(items[0]);
      var rest := AllFit(items[1..]);
      limits := Max(first, rest);
      FitsMore(items[0], first, limits);
      forall i | 0 < i < |items| ensures Fits(items[i], limits) {
        FitsMore(items[1..][i - 1], rest, limits);
      }
    }
  }

  lemma {:induction false} MembersFit(members: seq<Member>) returns (limits: Limits)
    ensures forall i :: 0 <= i < |members| ==> Fits(members[i].value, limits)
    decreases members, 1
  {
    if members == [] {
      limits := Limits(0, 0);
    } else {
      var first := SomeLimits(members[0].value);
      var rest := MembersFit(members[1..]);
      limits := Max(first, rest);
      FitsMore(members[0].value, first, limits);
      forall i | 0 < i < |members| ensures Fits(members[i].value, limits) {
        FitsMore(members[1..][i - 1].value, rest, limits);
      }
    }
  }

  /** Different values are read back differently. */
  lemma {:induction false} LoadedInjective(j: Json, k: Json)
    requires WellFormed(j) && WellFormed(k) && LoadedOf(j) == LoadedOf(k)
    ensures j == k
  {
    match (j, k)
    case (Int(m), Int(n)) => IntInjective(m, n);
    case (Int(m), Float(_)) => IntIsWhole(m);
    case (Float(_), Int(n)) => IntIsWhole(n);
    case (Str(s), Str(t)) => CodePointsInjective(s, t);
    case (Arr(xs), Arr(ys)) =>
      forall i | 0 <= i < |xs| ensures xs[i] == ys[i] {
        assert AllLoaded(xs)[i] == AllLoaded(ys)[i];
        LoadedInjective(xs[i], ys[i]);
      }
    case (Obj(xs), Obj(ys)) =>
      forall i | 0 <= i < |xs| ensures xs[i] == ys[i] {
        assert MembersLoaded(xs)[i] == MembersLoaded(ys)[i];
        CodePointsInjective(xs[i].name, ys[i].name);
        LoadedInjective(xs[i].value, ys[i].value);
      }
    case _ =>
  }

  /** Compact JSON text determines the value it was printed from. */
  lemma PrintInjective(j: Json, k: Json)
    requires WellFormed(j) && WellFormed(k) && Print(j) == Print(k)
    ensures j == k
  {
    var a := SomeLimits(j);
    var b := SomeLimits(k);
    FitsMore(j, a, Max(a, b));
    FitsMore(k, b, Max(a, b));
    DocumentRoundTrip(j, Max(a, b));
    DocumentRoundTrip(k, Max(a, b));
    LoadedInjective(j, k);
  }
}
