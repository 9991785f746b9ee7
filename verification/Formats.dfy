/** The texts other programs see, spelled out: identifiers, timestamps, JSON, cursors and stored rows. */
module Formats {
  import opened Kernel
  import opened Text
  import opened Json
  import opened Encoding
  import Calendar
  import C = Cursor
  import opened RuntimeModel
  import S = SnapshotCodec
  import R = JsonReader

  // ----- Digits -----------------------------------------------------------------------------------

  lemma NoMultiple(m: int, d: int)
    requires m > 0 && -m < m * d < m
    ensures d == 0
  {
    var size := if d == 0 then 1 else if d > 0 then d else -d;
    TimesMonotone(m, size, 1);
    assert d < 0 ==> m * size == -(m * d);
  }

  lemma OneQuotient(n: int, m: int, q: int, r: int)
    requires m > 0 && n == m * q + r && 0 <= r < m
    ensures n / m == q
  {
    var d := n / m - q;
    assert m * (n / m) + n % m == n;
    assert m * d == m * (n / m) - m * q;
    NoMultiple(m, d);
  }

  lemma RemaindersFit(b: nat, p: nat, x: nat, y: nat)
    requires x < p && y < b
    ensures b * x + y < b * p
  {
    TimesMonotone(b, p - 1, x);
    assert b * (p - 1) == b * p - b;
  }

  lemma DivideTwice(n: nat, b: nat, p: nat)
    requires b > 0 && p > 0
    ensures b * p > 0 && n / (b * p) == n / b / p
  {
    var q := n / b;
    var high, low := q / p, q % p;
    RemaindersFit(b, p, low, n % b);
    assert b * q == b * (p * high + low) == b * (p * high) + b * low;
    assert b * (p * high) == b * p * high;
    OneQuotient(n, b * p, high, b * low + n % b);
  }

  lemma {:induction false} PowerPositive(base: nat, width: nat)
    requires base > 0
    ensures Power(base, width) > 0
  {
    if width > 0 {
      PowerPositive(base, width - 1);
    }
  }

  /** Fixed-width text is positional, the highest digit first, lower-case beyond nine. */
  lemma {:induction false} DigitAt(base: nat, width: nat, n: nat, k: nat)
    requires 2 <= base <= 16 && k < width
    ensures Power(base, width - 1 - k) > 0
    ensures FixedText(base, width, n)[k] == "0123456789abcdef"[n / Power(base, width - 1 - k) % base]
  {
    PowerPositive(base, width - 1 - k);
    if k < width - 1 {
      DigitAt(base, width - 1, n / base, k);
      NextPlace(base, width - 1 - k, n);
    }
  }

  lemma NextPlace(base: nat, place: nat, n: nat)
    requires base > 0 && place > 0
    ensures Power(base, place) > 0 && Power(base, place - 1) > 0
    ensures n / Power(base, place) == n / base / Power(base, place - 1)
  {
    PowerPositive(base, place - 1);
    DivideTwice(n, base, Power(base, place - 1));
  }

  // ----- Identifiers and timestamps ---------------------------------------------------------------

  /** Hyphens that stand before a place of an identifier's text. */
  function HyphensBefore(k: nat): nat {
    if k <= 8 then 0 else if k <= 13 then 1 else if k <= 18 then 2 else if k <= 23 then 3 else 4
  }

  /** The canonical text of an identifier: hyphens at 8, 13, 18 and 23, and between them its 32 hexadecimal digits. */
  lemma UuidTextAt(u: Uuid, k: nat)
    requires k < 36
    ensures k - HyphensBefore(k) < 32 || k in {8, 13, 18, 23}
    ensures UuidText(u)[k] ==
            if k in {8, 13, 18, 23} then '-' else FixedText(16, 32, u)[k - HyphensBefore(k)]
  {
  }

  /** An offset from UTC: its sign, hours and minutes, with seconds only when there are any. */
  lemma ZoneIs(offset: int)
    ensures var size := if offset < 0 then -offset else offset;
            var fine := size % 60_000_000;
            ZoneText(ZoneOf(offset)) ==
            (if offset < 0 then "-" else "+") + (FixedText(10, 2, size / 3_600_000_000) + (":"
            + (FixedText(10, 2, size % 3_600_000_000 / 60_000_000)
               + if fine == 0 then ""
                 else ":" + (FixedText(10, 2, fine / 1_000_000)
                             + if fine % 1_000_000 == 0 then "" else "." + (FixedText(10, 6, fine % 1_000_000) + "")))))
  {
    var size := if offset < 0 then -offset else offset;
    assert size % 3_600_000_000 % 60_000_000 == size % 60_000_000;
  }

  /** ISO text: date and time in fixed width, and a fraction only when there is one. */
  lemma IsoTextIs(t: DateTime)
    ensures var zone := ZoneText(ZoneOf(t.offset));
            IsoText(t) ==
            FixedText(10, 4, t.year) + ("-" + (FixedText(10, 2, t.month) + ("-" + (FixedText(10, 2, t.day)
            + ("T" + (FixedText(10, 2, t.hour) + (":" + (FixedText(10, 2, t.minute) + (":" + (FixedText(10, 2, t.second)
            + if t.micro == 0 then zone else "." + (FixedText(10, 6, t.micro) + zone)))))))))))
  {
  }

  // ----- JSON -------------------------------------------------------------------------------------

  /** Compact JSON: no spaces, members as they are given. */
  lemma PrintIs(n: int, s: string, items: seq<Json>, members: seq<Member>)
    ensures Print(Null) == "null" && Print(Bool(true)) == "true" && Print(Bool(false)) == "false"
    ensures Print(Int(n)) == if n < 0 then "-" + Print(Int(-n)) else NatText(n)
    ensures Print(Str(s)) == "\"" + (Escape(s) + "\"")
    ensures Print(Arr(items)) == "[" + (PrintItems(items) + "]") && Print(Obj(members)) == "{" + (PrintMembers(members) + "}")
    ensures PrintItems([]) == "" && PrintMembers([]) == ""
  {
  }

  /** Items and members follow each other after a comma; a member is its name, a colon and its value. */
  lemma Follows(item: Json, items: seq<Json>, m: Member, members: seq<Member>)
    requires items != [] && members != []
    ensures PrintItems([item]) == Print(item) && PrintItems([item] + items) == Print(item) + ("," + PrintItems(items))
    ensures PrintMembers([m]) == "\"" + (Escape(m.name) + ("\"" + (":" + Print(m.value))))
    ensures PrintMembers([m] + members) == "\"" + (Escape(m.name) + ("\"" + (":" + (Print(m.value) + ("," + PrintMembers(members))))))
  {
    assert ([item] + items)[1..] == items && ([m] + members)[1..] == members;
    assert Print(item) + "" == Print(item) && Print(m.value) + "" == Print(m.value);
    assert PrintMembers([m] + members) == PrintMember(m, "," + PrintMembers(members));
  }

  /** Escaping goes character by character: quote and backslash, the five short escapes, the other control characters by
      their code, and every other character, ASCII or not, as it is. */
  lemma EscapeIs(c: char, rest: string)
    ensures Escape([c] + rest) == EscapeChar(c) + Escape(rest) && Escape("") == ""
    ensures EscapeChar(c) ==
            match c
            case '\"' => "\\\""
            case '\\' => "\\\\"
            case '\n' => "\\n"
            case '\r' => "\\r"
            case '\t' => "\\t"
            case '\U{8}' => "\\b"
            case '\U{c}' => "\\f"
            case _ => if c as int >= 32 then [c] else "\\u" + ("00" + [if c as int < 16 then '0' else '1', "0123456789abcdef"[c as int % 16]])
  {
    assert ([c] + rest)[1..] == rest;
    if c as int < 32 {
      CodeDigits(c as nat);
    }
  }

  lemma CodeDigits(n: nat)
    requires n < 32
    ensures FixedText(16, 4, n) == "00" + [if n < 16 then '0' else '1', "0123456789abcdef"[n % 16]]
  {
    assert n / 16 / 16 == 0 && FixedText(16, 1, 0) == "0" && FixedText(16, 2, 0) == "00";
    assert FixedText(16, 3, n / 16) == "00" + [DIGITS[n / 16]];
  }

  // ----- What JSON readers accept -------------------------------------------------------------------

  /** White space, the eight short escapes and the words of the reader, spelled out. */
  lemma ReaderMarks(c: char, i: nat, word: string)
    ensures R.BlankChar(c) <==> c in " \t\n\r"
    ensures i < 8 ==> R.ShortMeaning("\"\\/bfnrt"[i]) == Some("\"\\/\U{8}\U{c}\n\r\t"[i] as int)
    ensures c !in "\"\\/bfnrt" ==> R.ShortMeaning(c) == None
    ensures R.WordMeaning(word) ==
            if word == "null" then Some(R.Nothing) else if word == "true" then Some(R.Truth(true))
            else if word == "false" then Some(R.Truth(false))
            else if word == "NaN" || word == "Infinity" || word == "-Infinity" then Some(R.Number(word)) else None
  {
    assert c in "\"\\/bfnrt" <==> c == '\"' || c == '\\' || c == '/' || c == 'b' || c == 'f' || c == 'n' || c == 'r' || c == 't' by {
      var marks := "\"\\/bfnrt";
      assert marks[0] == '\"' && marks[1] == '\\' && marks[2] == '/' && marks[3] == 'b' && marks[4] == 'f' && marks[5] == 'n';
      assert marks[6] == 'r' && marks[7] == 't';
    }
    var blanks := " \t\n\r";
    assert blanks[0] == ' ' && blanks[1] == '\t' && blanks[2] == '\n' && blanks[3] == '\r';
  }

  /** Two units of UTF-16 for each code point beyond the first 65536, and for no other. */
  lemma SurrogatePairs(point: int, high: int, low: int)
    ensures 0x10000 <= point < 0x110000 ==>
              var h, l := 0xD800 + (point - 0x10000) / 0x400, 0xDC00 + (point - 0x10000) % 0x400;
              R.High(h) && R.Low(l) && R.Paired(h, l) == point
    ensures R.High(high) && R.Low(low) ==> 0x10000 <= R.Paired(high, low) < 0x110000
    ensures !(R.High(point) && R.Low(point)) && (R.High(point) || R.Low(point) <==> 0xD800 <= point <= 0xDFFF)
  {
  }

  /** White space of the language, code point by code point. */
  lemma SpacesAre(c: char)
    ensures IsSpace(c) <==>
            c as int in {0x09, 0x0A, 0x0B, 0x0C, 0x0D, 0x1C, 0x1D, 0x1E, 0x1F, 0x20, 0x85, 0xA0, 0x1680, 0x2000, 0x2001, 0x2002, 0x2003,
                         0x2004, 0x2005, 0x2006, 0x2007, 0x2008, 0x2009, 0x200A, 0x2028, 0x2029, 0x202F, 0x205F, 0x3000}
  {
  }

  // ----- Cursors ----------------------------------------------------------------------------------

  /** Text that needs no escapes. */
  predicate Plain(s: string) {
    forall i :: 0 <= i < |s| ==> ' ' <= s[i] && s[i] != '\"' && s[i] != '\\'
  }

  lemma {:induction false} PlainKept(s: string)
    requires Plain(s)
    ensures Escape(s) == s
  {
    if s != "" {
      PlainKept(s[1..]);
      assert s == [s[0]] + s[1..];
    }
  }

  lemma {:induction false} FixedPlain(base: nat, width: nat, n: nat)
    requires 2 <= base <= 16
    ensures Plain(FixedText(base, width, n))
  {
    if width > 0 {
      FixedPlain(base, width - 1, n / base);
    }
  }

  lemma UuidPlain(u: Uuid)
    ensures Plain(UuidText(u))
  {
    FixedPlain(16, 32, u);
  }

  lemma IsoPlain(t: DateTime)
    ensures Plain(IsoText(t))
  {
    ZonePlain(ZoneOf(t.offset));
    ClockPlain(t, ZoneText(ZoneOf(t.offset)));
    FixedPlain(10, 4, t.year);
    FixedPlain(10, 2, t.month);
    FixedPlain(10, 2, t.day);
  }

  lemma ClockPlain(t: DateTime, zone: string)
    requires Plain(zone)
    ensures Plain(ClockText(t, zone))
  {
    FixedPlain(10, 2, t.hour);
    FixedPlain(10, 2, t.minute);
    FixedPlain(10, 2, t.second);
    FixedPlain(10, 6, t.micro);
  }

  lemma ZonePlain(z: Zone)
    requires z.sign == '+' || z.sign == '-'
    ensures Plain(ZoneText(z))
  {
    FixedPlain(10, 2, z.hour);
    FixedPlain(10, 2, z.minute);
    FixedPlain(10, 2, z.second);
    FixedPlain(10, 6, z.micro);
  }

  /** The text a cursor carries: compact JSON of the identifier and the timestamp in UTC, the identifier first. */
  function CursorText(idField: string, timeField: string, p: C.Position): string
    requires Calendar.Representable(p.instant)
  {
    "{\"" + (idField + ("\":\"" + (UuidText(p.id) + ("\",\"" + (timeField + ("\":\"" + (IsoText(Calendar.AtUtc(p.instant)) + "\"}")))))))
  }

  lemma PayloadText(listing: C.Listing, p: C.Position)
    requires Calendar.Representable(p.instant) && Plain(listing.idField) && Plain(listing.timeField)
    ensures Print(C.Payload(listing, p)) == CursorText(listing.idField, listing.timeField, p)
  {
    var id, time := UuidText(p.id), IsoText(Calendar.AtUtc(p.instant));
    UuidPlain(p.id);
    IsoPlain(Calendar.AtUtc(p.instant));
    PlainKept(id);
    PlainKept(time);
    PlainKept(listing.idField);
    PlainKept(listing.timeField);
    TwoMembers(Member(listing.idField, Str(id)), Member(listing.timeField, Str(time)));
  }

  lemma TwoMembers(a: Member, b: Member)
    requires a.value.Str? && b.value.Str?
    ensures Print(Obj([a, b])) ==
            "{\"" + (Escape(a.name) + ("\":\"" + (Escape(a.value.s) + ("\",\"" + (Escape(b.name) + ("\":\"" + (Escape(b.value.s) + "\"}")))))))
  {
    Follows(Null, [Null], a, [b]);
    Follows(Null, [Null], b, [a]);
    assert [a] + [b] == [a, b];
    Framed(Escape(a.name), Escape(a.value.s), Escape(b.name), Escape(b.value.s));
  }

  lemma Framed(a: string, b: string, c: string, d: string)
    ensures "{" + (("\"" + (a + ("\"" + (":" + (("\"" + (b + "\"")) + ("," + ("\"" + (c + ("\"" + (":" + ("\"" + (d + "\"")))))))))))) + "}") ==
            "{\"" + (a + ("\":\"" + (b + ("\",\"" + (c + ("\":\"" + (d + "\"}")))))))
  {
  }

  lemma CursorIs(listing: C.Listing, idField: string, timeField: string, p: C.Position)
    requires Calendar.Representable(p.instant) && Plain(idField) && Plain(timeField)
    requires listing.idField == idField && listing.timeField == timeField
    ensures C.Encode(listing, p) == Ok(C.CursorFor(CursorText(idField, timeField, p)))
  {
    PayloadText(listing, p);
  }

  /** The three listings' cursors, by their names. */
  lemma EpisodeCursor(p: C.Position)
    requires Calendar.Representable(p.instant)
    ensures C.Encode(C.EPISODES, p) == Ok(C.CursorFor(CursorText("episode_id", "ingested_at", p)))
  {
    CursorIs(C.EPISODES, "episode_id", "ingested_at", p);
  }

  lemma ClaimCursor(p: C.Position)
    requires Calendar.Representable(p.instant)
    ensures C.Encode(C.CLAIMS, p) == Ok(C.CursorFor(CursorText("claim_id", "recorded_from", p)))
  {
    CursorIs(C.CLAIMS, "claim_id", "recorded_from", p);
  }

  lemma ExecutionCursor(p: C.Position)
    requires Calendar.Representable(p.instant)
    ensures C.Encode(C.EXECUTIONS, p) == Ok(C.CursorFor(CursorText("execution_id", "updated_at", p)))
  {
    CursorIs(C.EXECUTIONS, "execution_id", "updated_at", p);
  }

  // ----- Bytes ------------------------------------------------------------------------------------

  /** Section 3 of RFC 3629: a character of each length. */
  lemma Utf8Examples()
    ensures Utf8Char('A') == [0x41] && Utf8Char('\U{a2}') == [0xC2, 0xA2]
    ensures Utf8Char('\U{20ac}') == [0xE2, 0x82, 0xAC] && Utf8Char('\U{24b62}') == [0xF0, 0xA4, 0xAD, 0xA2]
  {
  }

  /** Section 5 of RFC 4648: the alphabet that is safe in URLs and file names. */
  const UPPER := "ABCDEFGHIJKLMNOPQRSTUVWXYZ"
  const LOWER := "abcdefghijklmnopqrstuvwxyz"
  const NUMERALS := "0123456789"
  const ALPHABET := UPPER + (LOWER + (NUMERALS + "-_"))

  lemma AlphabetAt(v: nat)
    requires v < 64
    ensures SextetChar(v) == ALPHABET[v]
  {
    if v < 26 {
      LetterAt(UPPER, 'A', v);
    } else if v < 52 {
      LetterAt(LOWER, 'a', v - 26);
    } else if v < 62 {
      LetterAt(NUMERALS, '0', v - 52);
    }
  }

  lemma LetterAt(text: string, first: char, i: nat)
    requires (text, first) in {(UPPER, 'A'), (LOWER, 'a'), (NUMERALS, '0')} && i < |text|
    ensures text[i] as int == first as int + i && i < 26
  {
  }

  /** A byte of the input, or zero past its end. */
  function ByteAt(bytes: seq<Byte>, i: nat): Byte {
    if i < |bytes| then bytes[i] else 0
  }

  /** Three bytes as one number. */
  function GroupOf(bytes: seq<Byte>, i: nat): nat {
    ByteAt(bytes, 3 * i) * 0x10000 + ByteAt(bytes, 3 * i + 1) * 0x100 + ByteAt(bytes, 3 * i + 2)
  }

  /** Four letters of the alphabet that name the digits of a number in base 64, the highest first. */
  ghost predicate Names(text: string, group: nat) {
    exists a: SixBits, b: SixBits, c: SixBits, d: SixBits :: Digits(group, a, b, c, d) && text == Letters(a, b, c, d)
  }

  predicate Digits(group: nat, a: SixBits, b: SixBits, c: SixBits, d: SixBits) {
    group == a * 0x40000 + b * 0x1000 + c * 0x40 + d
  }

  function Letters(a: SixBits, b: SixBits, c: SixBits, d: SixBits): string {
    [ALPHABET[a], ALPHABET[b], ALPHABET[c], ALPHABET[d]]
  }

  function Four(a: Byte, b: Byte, c: Byte): (text: string)
    ensures |text| == 4
  {
    Pair(First(a), Second(a, b)) + Pair(Third(b, c), Fourth(c))
  }

  lemma GroupNames(a: Byte, b: Byte, c: Byte, group: nat)
    requires group == a * 0x10000 + b * 0x100 + c
    ensures Names(Four(a, b, c), group)
  {
    FourLetters(a, b, c);
    assert Digits(group, First(a), Second(a, b), Third(b, c), Fourth(c));
  }

  lemma FourLetters(a: Byte, b: Byte, c: Byte)
    ensures Four(a, b, c) == Letters(First(a), Second(a, b), Third(b, c), Fourth(c))
  {
    AlphabetAt(First(a));
    AlphabetAt(Second(a, b));
    AlphabetAt(Third(b, c));
    AlphabetAt(Fourth(c));
  }

  lemma Regrouped(bytes: seq<Byte>)
    requires |bytes| >= 3
    ensures Base64(bytes) == Four(bytes[0], bytes[1], bytes[2]) + Base64(bytes[3..])
  {
  }

  lemma {:induction false} GroupStands(bytes: seq<Byte>, i: nat)
    requires 3 * i + 2 < |bytes|
    ensures 4 * i + 4 <= |Base64(bytes)|
    ensures Base64(bytes)[4 * i..4 * i + 4] == Four(bytes[3 * i], bytes[3 * i + 1], bytes[3 * i + 2])
    decreases i
  {
    Regrouped(bytes);
    var head, rest := Four(bytes[0], bytes[1], bytes[2]), Base64(bytes[3..]);
    if i == 0 {
      assert (head + rest)[0..4] == head;
    } else {
      GroupStands(bytes[3..], i - 1);
      Shifted(head, rest, 4 * (i - 1));
    }
  }

  /** Base64 as section 4 of RFC 4648 defines it: each group of three bytes gives the four letters of its number. */
  lemma Base64Is(bytes: seq<Byte>, i: nat)
    requires 3 * i + 2 < |bytes|
    ensures 4 * i + 4 <= |Base64(bytes)| && Names(Base64(bytes)[4 * i..4 * i + 4], GroupOf(bytes, i))
  {
    GroupStands(bytes, i);
    GroupNames(bytes[3 * i], bytes[3 * i + 1], bytes[3 * i + 2], GroupOf(bytes, i));
  }

  lemma Shifted(head: string, rest: string, k: nat)
    requires |head| == 4 && k + 4 <= |rest|
    ensures (head + rest)[k + 4..k + 8] == rest[k..k + 4]
  {
  }

  lemma LastStands(a: Byte, b: Byte)
    ensures Base64([a]) == Four(a, 0, 0)[..2] + "==" && Base64([a, b]) == Four(a, b, 0)[..3] + "="
  {
    assert Base64([a]) == Pair(First(a), Second(a, 0)) + "==";
    assert Base64([a, b]) == Pair(First(a), Second(a, b)) + ([SextetChar(Third(b, 0))] + "=");
  }

  predicate EndsWith(s: string, end: string) {
    |end| <= |s| && s[|s| - |end|..] == end
  }

  lemma EndOf(head: string, rest: string, end: string)
    requires EndsWith(rest, end)
    ensures EndsWith(head + rest, end)
  {
  }

  /** The last bytes, short of a group, end the text as they would alone. */
  lemma {:induction false} EndStands(bytes: seq<Byte>, last: seq<Byte>)
    requires last == bytes[|bytes| - |bytes| % 3..]
    ensures EndsWith(Base64(bytes), Base64(last))
  {
    if |bytes| < 3 {
      assert last == bytes;
    } else {
      EndStands(bytes[3..], last);
      Regrouped(bytes);
      EndOf(Four(bytes[0], bytes[1], bytes[2]), Base64(bytes[3..]), Base64(last));
    }
  }

  /** One or two last bytes, filled up with zeros, give two or three letters of their number, and padding makes them four. */
  lemma Base64Ends(bytes: seq<Byte>) returns (text: string)
    requires |bytes| % 3 != 0
    ensures Names(text, GroupOf(bytes, |bytes| / 3))
    ensures EndsWith(Base64(bytes), if |bytes| % 3 == 1 then text[..2] + "==" else text[..3] + "=")
  {
    var k := |bytes| - |bytes| % 3;
    var a, b := ByteAt(bytes, k), ByteAt(bytes, k + 1);
    text := Four(a, b, 0);
    assert 3 * (|bytes| / 3) == k;
    GroupNames(a, b, 0, GroupOf(bytes, |bytes| / 3));
    LastStands(a, b);
    assert bytes[k..] == if |bytes| % 3 == 1 then [a] else [a, b];
    EndStands(bytes, bytes[k..]);
  }

  /** A cursor is that text without its padding. */
  lemma CursorIsUnpadded(text: string)
    ensures '=' !in C.CursorFor(text)
    ensures exists padding: string :: |padding| < 4 && AllPadding(padding) && C.CursorFor(text) + padding == Base64(Utf8(text))
  {
    Strips(Utf8(text));
    var padding := Padding(|StripPadding(Base64(Utf8(text)))|);
    assert AllPadding(padding);
  }

  predicate AllPadding(s: string) {
    forall i :: 0 <= i < |s| ==> s[i] == '='
  }

  // ----- Stored rows ------------------------------------------------------------------------------

  /** A tagged value: `$` names its class, `v` holds its text. */
  function TaggedText(tag: string, text: string): S.Jsonb {
    S.JObj(map[S.Tag := S.JStr(tag), S.Payload := S.JStr(text)])
  }

  function IdOrNull(tag: string, id: Option<Uuid>): S.Jsonb {
    if id.Some? then TaggedText(tag, UuidText(id.value)) else S.JNull
  }

  function TimeOrNull(t: Option<DateTime>): S.Jsonb {
    if t.Some? then TaggedText("datetime", IsoText(t.value)) else S.JNull
  }

  function QueryItems(query: Option<MemoryQuery>): seq<S.Jsonb> {
    match query
    case None => [S.JNull]
    case Some(q) => [S.JStr(q.queryId), S.JStr(q.text), S.JInt(q.limit), S.JStr(q.scopeText), TimeOrNull(q.validAt), TimeOrNull(q.recordedAt)]
  }

  /** The fingerprint row of a request, item by item. */
  function FingerprintItems(spec: Spec): seq<S.Jsonb> {
    [TaggedText("TenantId", UuidText(spec.scope.tenant)), TaggedText("SubjectId", UuidText(spec.scope.subject)),
     if spec.scope.workspace.Some? then S.JStr(spec.scope.workspace.value) else S.JNull,
     IdOrNull("AgentInstanceId", spec.scope.agent),
     TaggedText("ArtifactId", UuidText(spec.objective)), TaggedText("AgentDefinitionId", UuidText(spec.rootAgent)),
     S.JList(QueryItems(spec.query)),
     S.JInt(spec.maxInputTokens), S.JInt(spec.maxOutputTokens), S.JInt(spec.maxCostMicros),
     TaggedText("datetime", IsoText(spec.deadline)), S.JStr(spec.key)]
  }

  lemma {:induction false} ItemsStored(items: seq<S.Component>, expected: seq<S.Jsonb>)
    requires |items| == |expected| && forall i :: 0 <= i < |items| ==> S.Encode(items[i]) == Some(expected[i])
    ensures S.Encode(S.Tuple(items)) == Some(S.JList(expected))
  {
    assert forall i :: 0 <= i < |items| ==> S.Encode(items[i]).Some?;
    assert S.EncodeAll(items).value == expected;
  }

  lemma IdStored(tag: string, id: Option<Uuid>)
    ensures S.Encode(S.OptionalId(tag, id)) == Some(IdOrNull(tag, id))
    ensures id.Some? ==> S.Encode(S.Id(tag, id.value)) == Some(TaggedText(tag, UuidText(id.value)))
  {
  }

  lemma TimeStored(t: Option<DateTime>)
    ensures S.Encode(S.OptionalInstant(t)) == Some(TimeOrNull(t))
    ensures t.Some? ==> S.Encode(S.Instant(t.value)) == Some(TaggedText("datetime", IsoText(t.value)))
  {
  }

  lemma PlainStored(s: string, n: int)
    ensures S.Encode(S.Text(s)) == Some(S.JStr(s)) && S.Encode(S.Number(n)) == Some(S.JInt(n)) && S.Encode(S.Nothing) == Some(S.JNull)
  {
  }

  lemma QueryStored(query: Option<MemoryQuery>)
    ensures S.Encode(S.QueryPart(query)) == Some(S.JList(QueryItems(query)))
  {
    PlainStored("", 0);
    if query.Some? {
      var q := query.value;
      PlainStored(q.queryId, q.limit);
      PlainStored(q.text, q.limit);
      PlainStored(q.scopeText, q.limit);
      TimeStored(q.validAt);
      TimeStored(q.recordedAt);
    }
    ItemsStored(S.QueryPart(query).items, QueryItems(query));
  }

  lemma FingerprintStored(spec: Spec)
    ensures S.Encode(S.Fingerprint(spec)) == Some(S.JList(FingerprintItems(spec)))
  {
    OwnersStored(spec);
    ScopeStored(spec);
    TargetStored(spec);
    QueryStored(spec.query);
    assert StoredAt(spec, 6);
    BudgetStored(spec);
    ItemsStored(S.Fingerprint(spec).items, FingerprintItems(spec));
  }

  ghost predicate StoredAt(spec: Spec, i: nat)
    requires i < 12
  {
    S.Encode(S.Fingerprint(spec).items[i]) == Some(FingerprintItems(spec)[i])
  }

  lemma OwnersStored(spec: Spec)
    ensures StoredAt(spec, 0) && StoredAt(spec, 1)
  {
    IdStored("TenantId", Some(spec.scope.tenant));
    IdStored("SubjectId", Some(spec.scope.subject));
  }

  lemma ScopeStored(spec: Spec)
    ensures StoredAt(spec, 2) && StoredAt(spec, 3)
  {
    IdStored("AgentInstanceId", spec.scope.agent);
    PlainStored(if spec.scope.workspace.Some? then spec.scope.workspace.value else "", 0);
  }

  lemma TargetStored(spec: Spec)
    ensures StoredAt(spec, 4) && StoredAt(spec, 5)
  {
    IdStored("ArtifactId", Some(spec.objective));
    IdStored("AgentDefinitionId", Some(spec.rootAgent));
  }

  lemma BudgetStored(spec: Spec)
    ensures StoredAt(spec, 7) && StoredAt(spec, 8) && StoredAt(spec, 9) && StoredAt(spec, 10) && StoredAt(spec, 11)
  {
    PlainStored(spec.key, spec.maxInputTokens);
    PlainStored(spec.key, spec.maxOutputTokens);
    PlainStored(spec.key, spec.maxCostMicros);
    TimeStored(Some(spec.deadline));
  }

  function TextOrNull(id: Option<Uuid>): S.Jsonb {
    if id.Some? then S.JStr(UuidText(id.value)) else S.JNull
  }

  function StatusWord(s: Status): string {
    match s
    case Pending => "pending" case Planning => "planning" case Running => "running" case Waiting => "waiting"
    case Retrying => "retrying" case Cancelling => "cancelling" case Compensating => "compensating"
    case Succeeded => "succeeded" case Failed => "failed" case Cancelled => "cancelled"
  }

  lemma StatusIs(s: Status)
    ensures S.StatusText(s) == StatusWord(s)
  {
  }

  /** The snapshot row, member by member: suspension and failure are always null, and nodes are keyed by their text. */
  lemma SnapshotStored(s: Snapshot) returns (nodes: map<S.Field, S.Jsonb>)
    ensures S.SnapshotToJson(s) == S.JObj(map[
              S.ExecutionId := S.JStr(UuidText(s.id)),
              S.ScopeField := S.JObj(map[
                S.TenantField := S.JStr(UuidText(s.scope.tenant)), S.SubjectField := S.JStr(UuidText(s.scope.subject)),
                S.WorkspaceField := (if s.scope.workspace.Some? then S.JStr(s.scope.workspace.value) else S.JNull),
                S.AgentField := TextOrNull(s.scope.agent)]),
              S.Revision := S.JInt(s.revision), S.StatusField := S.JStr(StatusWord(s.status)),
              S.PlanRevision := (if s.planRevision.Some? then S.JInt(s.planRevision.value) else S.JNull),
              S.NodeStatuses := S.JObj(nodes), S.SuspensionField := S.JNull, S.ResultRef := TextOrNull(s.result),
              S.FailureField := S.JNull, S.UpdatedAt := S.JStr(IsoText(s.updatedAt))])
    ensures forall f :: f in nodes ==> exists id :: id in s.nodes && f == S.Other(UuidText(id))
    ensures forall id :: id in s.nodes ==> S.Other(UuidText(id)) in nodes
  {
    nodes := S.NodesToJson(s.nodes);
    StatusIs(s.status);
  }
}
