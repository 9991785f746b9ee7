/** Instants of aware timestamps: microseconds since the start of year 1, in UTC. */
module Calendar {
  import opened Kernel
  import opened Text

  predicate Leap(year: nat) {
    year % 4 == 0 && (year % 100 != 0 || year % 400 == 0)
  }

  /** Days before a year. */
  function YearStart(year: nat): (days: nat)
    requires year >= 1
  {
    365 * (year - 1) + (year - 1) / 4 - (year - 1) / 100 + (year - 1) / 400
  }

  /** Days of a year before a month. */
  function MonthStart(year: nat, month: nat): nat {
    if month <= 1 then 0 else MonthStart(year, month - 1) + DaysInMonth(year, month - 1)
  }

  lemma EveryFourth(n: nat)
    requires n >= 1
    ensures n / 4 == (n - 1) / 4 + if n % 4 == 0 then 1 else 0
  {
  }

  lemma EveryHundredth(n: nat)
    requires n >= 1
    ensures n / 100 == (n - 1) / 100 + if n % 100 == 0 then 1 else 0
    ensures n % 100 == 0 ==> n % 4 == 0
  {
  }

  lemma EveryFourHundredth(n: nat)
    requires n >= 1
    ensures n / 400 == (n - 1) / 400 + if n % 400 == 0 then 1 else 0
    ensures n % 400 == 0 ==> n % 100 == 0
  {
  }

  lemma YearLength(year: nat)
    requires year >= 1
    ensures YearStart(year + 1) == YearStart(year) + if Leap(year) then 366 else 365
  {
    EveryFourth(year);
    EveryHundredth(year);
    EveryFourHundredth(year);
  }

  lemma MonthLengths(year: nat)
    ensures MonthStart(year, 13) == if Leap(year) then 366 else 365
  {
    var february := DaysInMonth(year, 2);
    assert MonthStart(year, 2) == 31;
    assert MonthStart(year, 3) == 31 + february;
    assert MonthStart(year, 4) == 62 + february;
    assert MonthStart(year, 5) == 92 + february;
    assert MonthStart(year, 6) == 123 + february;
    assert MonthStart(year, 7) == 153 + february;
    assert MonthStart(year, 8) == 184 + february;
    assert MonthStart(year, 9) == 215 + february;
    assert MonthStart(year, 10) == 245 + february;
    assert MonthStart(year, 11) == 276 + february;
    assert MonthStart(year, 12) == 306 + february;
  }

  function DaysOf(t: DateTime): (days: nat)
    requires ValidDateTime(t)
  {
    YearStart(t.year) + MonthStart(t.year, t.month) + t.day - 1
  }

  function Clock(t: DateTime): (micros: nat) {
    t.hour * MICROS_PER_HOUR + t.minute * MICROS_PER_MINUTE + t.second * MICROS_PER_SECOND + t.micro
  }

  /** The instant a timestamp denotes; timestamps with different offsets compare by it. */
  function Instant(t: DateTime): int
    requires ValidDateTime(t)
  {
    DaysOf(t) * MICROS_PER_DAY + Clock(t) - t.offset
  }

  /** Instants that have a UTC timestamp between years 1 and 9999. */
  predicate Representable(instant: int) {
    0 <= instant < YearStart(10000) * MICROS_PER_DAY
  }

  function FindYear(days: nat, year: nat): (r: nat)
    requires 1 <= year <= 9999 && YearStart(year) <= days < YearStart(10000)
    ensures year <= r <= 9999 && YearStart(r) <= days < YearStart(r + 1)
    decreases 9999 - year
  {
    if year == 9999 || days < YearStart(year + 1) then year else FindYear(days, year + 1)
  }

  function FindMonth(year: nat, days: nat, month: nat): (r: nat)
    requires 1 <= month <= 12 && MonthStart(year, month) <= days < MonthStart(year, 13)
    ensures month <= r <= 12 && MonthStart(year, r) <= days < MonthStart(year, r + 1)
    decreases 12 - month
  {
    if month == 12 || days < MonthStart(year, month + 1) then month else FindMonth(year, days, month + 1)
  }

  /** The date of a day number. */
  function DateOf(days: nat): (r: (nat, nat, nat))
    requires days < YearStart(10000)
    ensures 1 <= r.0 <= 9999 && 1 <= r.1 <= 12 && 1 <= r.2 <= DaysInMonth(r.0, r.1)
    ensures YearStart(r.0) + MonthStart(r.0, r.1) + r.2 - 1 == days
  {
    var year := FindYear(days, 1);
    YearLength(year);
    MonthLengths(year);
    var month := FindMonth(year, days - YearStart(year), 1);
    (year, month, days - YearStart(year) - MonthStart(year, month) + 1)
  }

  /** The time of day, field by field. */
  function TimeOf(clock: nat): (r: (nat, nat, nat, nat))
    requires clock < MICROS_PER_DAY
    ensures r.0 < 24 && r.1 < 60 && r.2 < 60 && r.3 < MICROS_PER_SECOND
    ensures r.0 * MICROS_PER_HOUR + r.1 * MICROS_PER_MINUTE + r.2 * MICROS_PER_SECOND + r.3 == clock
  {
    var minutes := clock % MICROS_PER_HOUR;
    var seconds := minutes % MICROS_PER_MINUTE;
    (clock / MICROS_PER_HOUR, minutes / MICROS_PER_MINUTE, seconds / MICROS_PER_SECOND, seconds % MICROS_PER_SECOND)
  }

  /** The UTC timestamp of an instant. */
  function AtUtc(instant: int): (t: DateTime)
    requires Representable(instant)
    ensures ValidDateTime(t) && t.offset == 0 && Instant(t) == instant
  {
    var (year, month, day) := DateOf(instant / MICROS_PER_DAY);
    var (hour, minute, second, micro) := TimeOf(instant % MICROS_PER_DAY);
    DateTime(year, month, day, hour, minute, second, micro, 0)
  }

  // ----- What an instant is ---------------------------------------------------------------------

  /** The lengths of the months, and of February by the Gregorian rule. */
  lemma MonthDays(year: nat, month: nat)
    requires 1 <= month <= 12
    ensures DaysInMonth(year, month) ==
            if month == 2 && Leap(year) then 29 else [31, 28, 31, 30, 31, 30, 31, 31, 30, 31, 30, 31][month - 1]
    ensures Leap(2024) && Leap(2000) && !Leap(2023) && !Leap(1900)
  {
  }

  function NextDay(t: DateTime): DateTime
    requires ValidDateTime(t)
  {
    if t.day < DaysInMonth(t.year, t.month) then t.(day := t.day + 1)
    else if t.month < 12 then t.(month := t.month + 1, day := 1)
    else t.(year := t.year + 1, month := 1, day := 1)
  }

  lemma NextDayCounts(t: DateTime)
    requires ValidDateTime(t) && ValidDateTime(NextDay(t))
    ensures DaysOf(NextDay(t)) == DaysOf(t) + 1
  {
    if t.day == DaysInMonth(t.year, t.month) && t.month == 12 {
      MonthLengths(t.year);
      YearLength(t.year);
      assert MonthStart(t.year, 13) == MonthStart(t.year, 12) + DaysInMonth(t.year, 12);
    }
  }

  /** Instants count microseconds from the first midnight of year 1 in UTC: each day adds its 24 hours, the clock adds
      its hours, minutes, seconds and microseconds, and time ahead of UTC is taken off. */
  lemma InstantCounts(t: DateTime)
    requires ValidDateTime(t)
    ensures t == DateTime(1, 1, 1, 0, 0, 0, 0, 0) ==> Instant(t) == 0
    ensures ValidDateTime(NextDay(t)) ==> Instant(NextDay(t)) == Instant(t) + 86_400_000_000
    ensures var midnight := t.(hour := 0, minute := 0, second := 0, micro := 0, offset := 0);
            Instant(t) == Instant(midnight) + ((t.hour * 60 + t.minute) * 60 + t.second) * 1_000_000 + t.micro - t.offset
  {
    if ValidDateTime(NextDay(t)) {
      NextDayCounts(t);
    }
    var midnight := t.(hour := 0, minute := 0, second := 0, micro := 0, offset := 0);
    assert DaysOf(midnight) == DaysOf(t);
  }
}
