/** Text forms of numbers, UUIDs and timestamps, each with a reader that inverts it. */
module Text {
  import opened Kernel

  // ----- Fixed-width digits in a given base -------------------------------------------

  const DIGITS: string := "0123456789abcdef"

  function DigitChar(d: nat): (c: char)
    requires d < 16
  {
    DIGITS[d]
  }

  function DigitValue(c: char): (r: Option<nat>)
    ensures r.Some? ==> r.value < 16
  {
    if '0' <= c <= '9' then Some((c - '0') as nat)
    else if 'a' <= c <= 'f' then Some((c - 'a') as nat + 10)
    else if 'A' <= c <= 'F' then Some((c - 'A') as nat + 10)
    else None
  }

  lemma DigitRoundTrip(d: nat)
    requires d < 16
    ensures DigitValue(DigitChar(d)) == Some(d)
  {
    assert DIGITS[10] == 'a' && DIGITS[11] == 'b' && DIGITS[12] == 'c';
  }

  function Power(base: nat, width: nat): nat {
    if width == 0 then 1 else base * Power(base, width - 1)
  }

  function FixedText(base: nat, width: nat, n: nat): (s: string)
    requires 2 <= base <= 16
    ensures |s| == width
  {
    if width == 0 then "" else FixedText(base, width - 1, n / base) + [DigitChar(n % base)]
  }

  function FixedValue(base: nat, s: string): (r: Option<nat>)
    requires 2 <= base <= 16
  {
    if s == "" then Some(0)
    else match (FixedValue(base, s[..|s| - 1]), DigitValue(s[|s| - 1]))
      case (Some(high), Some(d)) => if d < base then Some(high * base + d) else None
      case _ => None
  }

  lemma {:induction false} FixedRoundTrip(base: nat, width: nat, n: nat)
    requires 2 <= base <= 16 && n < Power(base, width)
    ensures FixedValue(base, FixedText(base, width, n)) == Some(n)
  {
    if width > 0 {
      DivModSplit(n, base, Power(base, width - 1));
      FixedRoundTrip(base, width - 1, n / base);
      DigitRoundTrip(n % base);
      FixedValueSnoc(base, FixedText(base, width - 1, n / base), DigitChar(n % base));
    }
  }

  lemma FixedValueSnoc(base: nat, s: string, c: char)
    requires 2 <= base <= 16
    requires FixedValue(base, s).Some? && DigitValue(c).Some? && DigitValue(c).value < base
    ensures FixedValue(base, s + [c]) == Some(FixedValue(base, s).value * base + DigitValue(c).value)
  {
    assert (s + [c])[..|s|] == s;
  }

  lemma DivModSplit(n: nat, b: nat, m: nat)
    requires b > 0 && n < b * m
    ensures n / b < m && (n / b) * b + n % b == n
  {
    var q := n / b;
    assert n == b * q + n % b;
    if q >= m {
      TimesMonotone(b, q, m);
    }
  }

  lemma TimesMonotone(b: nat, q: nat, m: nat)
    requires q >= m
    ensures b * q >= b * m
  {
  }

  function CodePoints(s: string): (points: seq<int>)
    ensures |points| == |s| && forall i :: 0 <= i < |s| ==> points[i] == s[i] as int
  {
    seq(|s|, i requires 0 <= i < |s| => s[i] as int)
  }

  lemma CodePointsInjective(a: string, b: string)
    requires CodePoints(a) == CodePoints(b)
    ensures a == b
  {
    assert forall i :: 0 <= i < |a| ==> CodePoints(a)[i] == CodePoints(b)[i];
  }

  predicate IsDecimal(s: string) {
    forall i :: 0 <= i < |s| ==> '0' <= s[i] <= '9'
  }

  lemma {:induction false} FixedIsDecimal(width: nat, n: nat)
    ensures IsDecimal(FixedText(10, width, n))
  {
    if width > 0 {
      FixedIsDecimal(width - 1, n / 10);
    }
  }

  /** White space as the standard library strips it. */
  predicate IsSpace(c: char) {
    || '\t' <= c <= '\r' || '\U{1c}' <= c <= ' ' || c == '\U{85}' || c == '\U{a0}' || c == '\U{1680}'
    || '\U{2000}' <= c <= '\U{200a}' || c == '\U{2028}' || c == '\U{2029}' || c == '\U{202f}' || c == '\U{205f}' || c == '\U{3000}'
  }

  predicate Blank(s: string) {
    forall i :: 0 <= i < |s| ==> IsSpace(s[i])
  }

  // ----- UUIDs ---------------------------------------------------------------------

  /** One more than the largest 128-bit identifier. */
  const UUID_LIMIT: nat := 0x1_0000_0000_0000_0000_0000_0000_0000_0000

  /** A UUID read as the 128-bit number it stands for. */
  type Uuid = n: nat | n < UUID_LIMIT witness 0

  function UuidText(u: Uuid): (s: string)
    ensures |s| == 36
  {
    var h := FixedText(16, 32, u);
    h[..8] + "-" + (h[8..12] + "-" + (h[12..16] + "-" + (h[16..20] + "-" + h[20..])))
  }

  function WithoutHyphens(s: string): string {
    if s == "" then "" else (if s[0] == '-' then "" else [s[0]]) + WithoutHyphens(s[1..])
  }

  /** Reads UUID text as the standard library does: hyphens anywhere, then exactly 32 hexadecimal digits. */
  function ParseUuid(s: string): (r: Option<nat>)
    ensures r.Some? ==> r.value < UUID_LIMIT
  {
    var h := WithoutHyphens(s);
    if |h| != 32 then None else
      match FixedValue(16, h)
      case Some(n) => if n < UUID_LIMIT then Some(n) else None
      case None => None
  }

  lemma {:induction false} HexKeepsDigits(h: string)
    requires '-' !in h
    ensures WithoutHyphens(h) == h
  {
    if h != "" {
      HexKeepsDigits(h[1..]);
    }
  }

  lemma {:induction false} NoHyphenInHex(width: nat, n: nat)
    ensures '-' !in FixedText(16, width, n)
  {
    if width > 0 {
      NoHyphenInHex(width - 1, n / 16);
      DigitRoundTrip(n % 16);
    }
  }

  lemma SixteenTo32()
    ensures Power(16, 32) == UUID_LIMIT
  {
    assert Power(16, 8) == 0x1_0000_0000;
    assert Power(16, 16) == 0x1_0000_0000_0000_0000;
    assert Power(16, 24) == 0x1_0000_0000_0000_0000_0000_0000;
  }

  lemma {:induction false} SkipHyphen(a: string, rest: string)
    requires '-' !in a
    ensures WithoutHyphens(a + "-" + rest) == a + WithoutHyphens(rest)
  {
    var s := a + "-" + rest;
    if a == "" {
      assert s == "-" + rest && s[1..] == rest;
    } else {
      SkipHyphen(a[1..], rest);
      assert s[1..] == a[1..] + "-" + rest;
    }
  }

  lemma UuidRoundTrip(u: Uuid)
    ensures ParseUuid(UuidText(u)) == Some(u)
  {
    var h := FixedText(16, 32, u);
    NoHyphenInHex(32, u);
    HexKeepsDigits(h[20..]);
    SkipHyphen(h[16..20], h[20..]);
    SkipHyphen(h[12..16], h[16..20] + "-" + h[20..]);
    SkipHyphen(h[8..12], h[12..16] + "-" + (h[16..20] + "-" + h[20..]));
    SkipHyphen(h[..8], h[8..12] + "-" + (h[12..16] + "-" + (h[16..20] + "-" + h[20..])));
    FiveParts(h);
    SixteenTo32();
    FixedRoundTrip(16, 32, u);
  }

  lemma UuidTextInjective(u: Uuid, v: Uuid)
    ensures UuidText(u) == UuidText(v) <==> u == v
  {
    UuidRoundTrip(u);
    UuidRoundTrip(v);
  }

  lemma FiveParts(h: string)
    requires |h| == 32
    ensures h[..8] + (h[8..12] + (h[12..16] + (h[16..20] + h[20..]))) == h
  {
    assert h[16..20] + h[20..] == h[16..];
    assert h[12..16] + h[16..] == h[12..];
    assert h[8..12] + h[12..] == h[8..];
  }

  // ----- Timestamps ------------------------------------------------------------------

  /** An aware timestamp: calendar fields and the offset from UTC in microseconds. */
  datatype DateTime = DateTime(year: nat, month: nat, day: nat, hour: nat, minute: nat, second: nat, micro: nat, offset: int)

  const MICROS_PER_SECOND: int := 1_000_000
  const MICROS_PER_MINUTE: int := 60_000_000
  const MICROS_PER_HOUR: int := 3_600_000_000
  const MICROS_PER_DAY: int := 86_400_000_000

  function DaysInMonth(year: nat, month: nat): nat {
    if month == 2 then (if year % 4 == 0 && (year % 100 != 0 || year % 400 == 0) then 29 else 28)
    else if month in {4, 6, 9, 11} then 30
    else 31
  }

  predicate ValidDateTime(t: DateTime) {
    && 1 <= t.year <= 9999 && 1 <= t.month <= 12 && 1 <= t.day <= DaysInMonth(t.year, t.month)
    && t.hour < 24 && t.minute < 60 && t.second < 60 && t.micro < MICROS_PER_SECOND
    && -MICROS_PER_DAY < t.offset < MICROS_PER_DAY
  }

  function Two(n: nat): string { FixedText(10, 2, n) }

  /** `HH:MM:SS`, then six fraction digits when they are not all zero, then `rest`. */
  function SecondsText(second: nat, micro: nat, rest: string): string {
    Two(second) + (if micro == 0 then rest else "." + (FixedText(10, 6, micro) + rest))
  }

  function FineText(second: nat, micro: nat): string {
    if second == 0 && micro == 0 then "" else ":" + SecondsText(second, micro, "")
  }

  datatype Zone = Zone(sign: char, hour: nat, minute: nat, second: nat, micro: nat)

  function ZoneOf(offset: int): Zone {
    var size := if offset < 0 then -offset else offset;
    var minutes := size % MICROS_PER_HOUR;
    var seconds := minutes % MICROS_PER_MINUTE;
    Zone(if offset < 0 then '-' else '+', size / MICROS_PER_HOUR, minutes / MICROS_PER_MINUTE,
         seconds / MICROS_PER_SECOND, seconds % MICROS_PER_SECOND)
  }

  function ZoneText(z: Zone): string {
    [z.sign] + (Two(z.hour) + (":" + (Two(z.minute) + FineText(z.second, z.micro))))
  }

  function OffsetOf(z: Zone): int {
    var size := z.hour * MICROS_PER_HOUR + z.minute * MICROS_PER_MINUTE + z.second * MICROS_PER_SECOND + z.micro;
    if z.sign == '-' then -size else size
  }

  function DateText(t: DateTime, clock: string): string {
    FixedText(10, 4, t.year) + ("-" + (Two(t.month) + ("-" + (Two(t.day) + ("T" + clock)))))
  }

  function IsoText(t: DateTime): string {
    DateText(t, ClockText(t, ZoneText(ZoneOf(t.offset))))
  }

  /** Reads `width` decimal digits off the front. */
  function TakeDigits(s: string, width: nat): (r: Option<(nat, string)>) {
    if |s| < width || !IsDecimal(s[..width]) then None else
      match FixedValue(10, s[..width])
      case Some(n) => Some((n, s[width..]))
      case None => None
  }

  function TakeMark(s: string, mark: char): (r: Option<string>) {
    if s != "" && s[0] == mark then Some(s[1..]) else None
  }

  lemma TakesDigits(width: nat, n: nat, rest: string)
    requires n < Power(10, width)
    ensures TakeDigits(FixedText(10, width, n) + rest, width) == Some((n, rest))
  {
    FixedRoundTrip(10, width, n);
    FixedIsDecimal(width, n);
    var s := FixedText(10, width, n) + rest;
    assert s[..width] == FixedText(10, width, n) && s[width..] == rest;
  }

  lemma TakesTwo(n: nat, rest: string)
    requires n < 100
    ensures TakeDigits(Two(n) + rest, 2) == Some((n, rest))
  {
    assert Power(10, 2) == 100;
    TakesDigits(2, n, rest);
  }

  lemma TakesMark(mark: char, rest: string)
    ensures TakeMark([mark] + rest, mark) == Some(rest)
  {
  }

  /** Two-digit field, then the given mark. */
  function TakeField(s: string, width: nat, mark: char): (r: Option<(nat, string)>) {
    match TakeDigits(s, width)
    case None => None
    case Some((n, rest)) =>
      match TakeMark(rest, mark)
      case None => None
      case Some(rest') => Some((n, rest'))
  }

  lemma TakesField(width: nat, n: nat, mark: char, rest: string)
    requires n < Power(10, width)
    ensures TakeField(FixedText(10, width, n) + ([mark] + rest), width, mark) == Some((n, rest))
  {
    TakesDigits(width, n, [mark] + rest);
    TakesMark(mark, rest);
  }

  function TakeSeconds(s: string): (r: Option<(nat, nat, string)>) {
    match TakeDigits(s, 2)
    case None => None
    case Some((second, rest)) =>
      match TakeMark(rest, '.')
      case None => Some((second, 0, rest))
      case Some(rest') =>
        match TakeDigits(rest', 6)
        case None => None
        case Some((micro, rest'')) => Some((second, micro, rest''))
  }

  lemma TakesSeconds(second: nat, micro: nat, rest: string)
    requires second < 60 && micro < MICROS_PER_SECOND
    requires rest == "" || rest[0] != '.'
    ensures TakeSeconds(SecondsText(second, micro, rest)) == Some((second, micro, rest))
  {
    if micro == 0 {
      TakesTwo(second, rest);
    } else {
      var fraction := FixedText(10, 6, micro) + rest;
      TakesTwo(second, "." + fraction);
      TakesMark('.', fraction);
      assert Power(10, 6) == MICROS_PER_SECOND;
      TakesDigits(6, micro, rest);
    }
  }

  function ParseFine(s: string): (r: Option<(nat, nat)>) {
    if s == "" then Some((0, 0)) else
      match TakeMark(s, ':')
      case None => None
      case Some(tail) =>
        match TakeSeconds(tail)
        case Some((second, micro, end)) => if end == "" then Some((second, micro)) else None
        case None => None
  }

  function ParseZone(sign: char, s: string): (r: Option<int>) {
    match TakeField(s, 2, ':')
    case None => None
    case Some((hour, rest)) =>
      match TakeDigits(rest, 2)
      case None => None
      case Some((minute, rest')) =>
        match ParseFine(rest')
        case None => None
        case Some((second, micro)) => Some(OffsetOf(Zone(sign, hour, minute, second, micro)))
  }

  function ParseOffset(s: string): (r: Option<int>) {
    if s == "" || (s[0] != '+' && s[0] != '-') then None else ParseZone(s[0], s[1..])
  }

  lemma FineRoundTrip(second: nat, micro: nat)
    requires second < 60 && micro < MICROS_PER_SECOND
    ensures ParseFine(FineText(second, micro)) == Some((second, micro))
  {
    if !(second == 0 && micro == 0) {
      TakesMark(':', SecondsText(second, micro, ""));
      TakesSeconds(second, micro, "");
    }
  }

  lemma ZoneRoundTrip(z: Zone)
    requires z.sign == '+' || z.sign == '-'
    requires z.hour < 24 && z.minute < 60 && z.second < 60 && z.micro < MICROS_PER_SECOND
    ensures ParseOffset(ZoneText(z)) == Some(OffsetOf(z))
  {
    var fine := FineText(z.second, z.micro);
    TakesMark(z.sign, Two(z.hour) + (":" + (Two(z.minute) + fine)));
    assert Power(10, 2) == 100;
    TakesField(2, z.hour, ':', Two(z.minute) + fine);
    TakesTwo(z.minute, fine);
    FineRoundTrip(z.second, z.micro);
  }

  lemma ZoneOfParts(offset: int)
    requires -MICROS_PER_DAY < offset < MICROS_PER_DAY
    ensures var z := ZoneOf(offset);
            && (z.sign == '+' || z.sign == '-')
            && z.hour < 24 && z.minute < 60 && z.second < 60 && z.micro < MICROS_PER_SECOND
            && OffsetOf(z) == offset
  {
  }

  lemma OffsetRoundTrip(offset: int)
    requires -MICROS_PER_DAY < offset < MICROS_PER_DAY
    ensures ParseOffset(ZoneText(ZoneOf(offset))) == Some(offset)
  {
    ZoneOfParts(offset);
    ZoneRoundTrip(ZoneOf(offset));
  }

  function ParseIso(s: string): (r: Option<DateTime>)
    ensures r.Some? ==> ValidDateTime(r.value)
  {
    match TakeField(s, 4, '-')
    case None => None
    case Some((year, s1)) =>
      match TakeField(s1, 2, '-')
      case None => None
      case Some((month, s2)) =>
        match TakeField(s2, 2, 'T')
        case None => None
        case Some((day, s3)) => ParseClock(year, month, day, s3)
  }

  function ParseClock(year: nat, month: nat, day: nat, s: string): (r: Option<DateTime>)
    ensures r.Some? ==> ValidDateTime(r.value)
  {
    match TakeField(s, 2, ':')
    case None => None
    case Some((hour, s')) =>
      match TakeField(s', 2, ':')
      case None => None
      case Some((minute, s'')) => ParseIsoEnd(year, month, day, hour, minute, s'')
  }

  function ParseIsoEnd(year: nat, month: nat, day: nat, hour: nat, minute: nat, s: string): (r: Option<DateTime>)
    ensures r.Some? ==> ValidDateTime(r.value)
  {
    match TakeSeconds(s)
    case None => None
    case Some((second, micro, zone)) =>
      match ParseOffset(zone)
      case None => None
      case Some(offset) =>
        var t := DateTime(year, month, day, hour, minute, second, micro, offset);
        if ValidDateTime(t) then Some(t) else None
  }

  function ClockText(t: DateTime, zone: string): string {
    Two(t.hour) + (":" + (Two(t.minute) + (":" + SecondsText(t.second, t.micro, zone))))
  }

  lemma ClockRoundTrip(t: DateTime, zone: string)
    requires ValidDateTime(t)
    requires ParseOffset(zone) == Some(t.offset)
    ensures ParseClock(t.year, t.month, t.day, ClockText(t, zone)) == Some(t)
  {
    var s := SecondsText(t.second, t.micro, zone);
    assert Power(10, 2) == 100;
    TakesField(2, t.hour, ':', Two(t.minute) + (":" + s));
    TakesField(2, t.minute, ':', s);
    TakesSeconds(t.second, t.micro, zone);
  }

  lemma DateRoundTrip(t: DateTime, clock: string)
    requires ValidDateTime(t)
    requires ParseClock(t.year, t.month, t.day, clock) == Some(t)
    ensures ParseIso(DateText(t, clock)) == Some(t)
  {
    assert Power(10, 2) == 100 && Power(10, 4) == 10000;
    DateFields(t.year, t.month, t.day, clock);
  }

  lemma DateFields(year: nat, month: nat, day: nat, clock: string)
    requires year < Power(10, 4) && month < Power(10, 2) && day < Power(10, 2)
    ensures var s3 := "T" + clock;
            var s2 := "-" + (Two(day) + s3);
            var s1 := "-" + (Two(month) + s2);
            && TakeField(FixedText(10, 4, year) + s1, 4, '-') == Some((year, Two(month) + s2))
            && TakeField(Two(month) + s2, 2, '-') == Some((month, Two(day) + s3))
            && TakeField(Two(day) + s3, 2, 'T') == Some((day, clock))
  {
    TakesField(4, year, '-', Two(month) + ("-" + (Two(day) + ("T" + clock))));
    TakesField(2, month, '-', Two(day) + ("T" + clock));
    TakesField(2, day, 'T', clock);
  }

  /** Reading the ISO text of any aware timestamp gives the timestamp back, offset included. */
  lemma IsoRoundTrip(t: DateTime)
    requires ValidDateTime(t)
    ensures ParseIso(IsoText(t)) == Some(t)
  {
    var zone := ZoneText(ZoneOf(t.offset));
    OffsetRoundTrip(t.offset);
    ClockRoundTrip(t, zone);
    DateRoundTrip(t, ClockText(t, zone));
  }
}
