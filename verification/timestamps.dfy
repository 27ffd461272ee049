/** UTC timestamps as the notification tables store them: `datetime.isoformat()` text
    (api/notifications/_store_models.py). */
module Timestamps {
  import opened TextOrder

  datatype Date = Date(year: int, month: int, day: int)

  datatype Instant = Instant(date: Date, hour: int, minute: int, second: int, micro: int)

  predicate Leap(y: int) {
    y % 4 == 0 && (y % 100 != 0 || y % 400 == 0)
  }

  function DaysInMonth(y: int, m: int): int {
    if m == 2 then (if Leap(y) then 29 else 28)
    else if m in {4, 6, 9, 11} then 30 else 31
  }

  lemma MonthLengths(y: int, m: int)
    requires 1 <= m <= 12
    ensures DaysInMonth(y, m) == [31, if Leap(y) then 29 else 28, 31, 30, 31, 30, 31, 31, 30, 31, 30, 31][m - 1]
  {}

  /** The dates Python's `datetime.date` can hold. */
  predicate ValidDate(d: Date) {
    1 <= d.year <= 9999 && 1 <= d.month <= 12 && 1 <= d.day <= DaysInMonth(d.year, d.month)
  }

  predicate Valid(t: Instant) {
    ValidDate(t.date) && 0 <= t.hour < 24 && 0 <= t.minute < 60 && 0 <= t.second < 60 && 0 <= t.micro < 1_000_000
  }

  function DaysBeforeYear(y: int): int {
    (y - 1) * 365 + (y - 1) / 4 - (y - 1) / 100 + (y - 1) / 400
  }

  function DaysBeforeMonth(y: int, m: int): int
    decreases m
  {
    if m <= 1 then 0 else DaysBeforeMonth(y, m - 1) + DaysInMonth(y, m - 1)
  }

  /** Proleptic Gregorian day number; 1 January of year 1 is day 1. */
  function Ordinal(d: Date): int {
    DaysBeforeYear(d.year) + DaysBeforeMonth(d.year, d.month) + d.day
  }

  /** The instant on the time line, in microseconds. */
  function Micros(t: Instant): int {
    (((Ordinal(t.date) * 24 + t.hour) * 60 + t.minute) * 60 + t.second) * 1_000_000 + t.micro
  }

  /** The day after; `datetime.date` overflows after 31 December 9999. */
  function NextDay(d: Date): Date
    requires ValidDate(d) && d != Date(9999, 12, 31)
  {
    if d.day < DaysInMonth(d.year, d.month) then d.(day := d.day + 1)
    else if d.month < 12 then Date(d.year, d.month + 1, 1)
    else Date(d.year + 1, 1, 1)
  }

  // ----- text -----

  function Pow10(w: nat): nat {
    if w == 0 then 1 else 10 * Pow10(w - 1)
  }

  function DigitChar(d: int): char
    requires 0 <= d < 10
  {
    (('0' as int) + d) as char
  }

  /** `n` zero-padded to `w` digits. */
  function Digits(n: nat, w: nat): (s: string)
    ensures |s| == w
  {
    if w == 0 then "" else Digits(n / 10, w - 1) + [DigitChar(n % 10)]
  }

  function IsoDate(d: Date): string
    requires ValidDate(d)
  {
    Digits(d.year, 4) + ("-" + (Digits(d.month, 2) + ("-" + Digits(d.day, 2))))
  }

  /** No fraction at all when it is zero, six digits otherwise; then the UTC offset. */
  function Tail(micro: nat): string {
    if micro == 0 then "+00:00" else "." + (Digits(micro, 6) + "+00:00")
  }

  function Iso(t: Instant): string
    requires Valid(t)
  {
    IsoDate(t.date)
    + ("T" + (Digits(t.hour, 2) + (":" + (Digits(t.minute, 2) + (":" + (Digits(t.second, 2) + Tail(t.micro)))))))
  }

  /** YYYY-MM-DDTHH:MM:SS, then nothing or .ffffff, then +00:00. */
  lemma IsoShape(t: Instant)
    requires Valid(t)
    ensures var s := Iso(t);
      && |s| == (if t.micro == 0 then 25 else 32) && s[4] == s[7] == '-' && s[10] == 'T' && s[13] == s[16] == ':'
      && (t.micro != 0 ==> s[19] == '.') && s[|s| - 6..] == "+00:00"
  {}

  // ----- text order is time order -----

  lemma {:induction false} DigitsOrder(a: nat, b: nat, w: nat)
    requires a < Pow10(w) && b < Pow10(w)
    ensures Less(Digits(a, w), Digits(b, w)) <==> a < b
    ensures Digits(a, w) == Digits(b, w) <==> a == b
  {
    if w > 0 {
      DigitsOrder(a / 10, b / 10, w - 1);
      Blocks(Digits(a / 10, w - 1), Digits(b / 10, w - 1), [DigitChar(a % 10)], [DigitChar(b % 10)]);
      var x, y := Digits(a, w), Digits(b, w);
      assert x[..w - 1] == Digits(a / 10, w - 1) && y[..w - 1] == Digits(b / 10, w - 1);
      assert x[w - 1] == DigitChar(a % 10) && y[w - 1] == DigitChar(b % 10);
    }
  }

  lemma Field(a: nat, b: nat, w: nat, x: string, y: string)
    requires a < Pow10(w) && b < Pow10(w)
    ensures Less(Digits(a, w) + x, Digits(b, w) + y) <==> a < b || (a == b && Less(x, y))
  {
    DigitsOrder(a, b, w);
    Blocks(Digits(a, w), Digits(b, w), x, y);
  }

  lemma Separator(c: string, x: string, y: string)
    ensures Less(c + x, c + y) <==> Less(x, y)
  {
    Blocks(c, c, x, y);
    Irreflexive(c);
  }

  lemma Powers()
    ensures Pow10(2) == 100 && Pow10(4) == 10_000 && Pow10(6) == 1_000_000
  {
    assert Pow10(3) == 1000 && Pow10(5) == 100_000;
  }

  /** '+' sorts before '.', so an absent fraction sorts before every fraction. */
  lemma TailOrder(a: nat, b: nat)
    requires a < 1_000_000 && b < 1_000_000
    ensures Less(Tail(a), Tail(b)) <==> a < b
  {
    Powers();
    var z := "+00:00";
    Irreflexive(z);
    if a > 0 && b > 0 {
      Separator(".", Digits(a, 6) + z, Digits(b, 6) + z);
      Field(a, b, 6, z, z);
    }
  }

  predicate Before(a: Date, b: Date) {
    a.year < b.year || (a.year == b.year && (a.month < b.month || (a.month == b.month && a.day < b.day)))
  }

  lemma IsoDateLess(a: Date, b: Date)
    requires ValidDate(a) && ValidDate(b)
    ensures Less(IsoDate(a), IsoDate(b)) <==> Before(a, b)
  {
    Powers();
    var da, db := Digits(a.day, 2), Digits(b.day, 2);
    var ma, mb := Digits(a.month, 2) + ("-" + da), Digits(b.month, 2) + ("-" + db);
    Field(a.year, b.year, 4, "-" + ma, "-" + mb);
    Separator("-", ma, mb);
    Field(a.month, b.month, 2, "-" + da, "-" + db);
    Separator("-", da, db);
    DigitsOrder(a.day, b.day, 2);
  }

  lemma Before3(a: Date, b: Date)
    ensures Before(a, b) || a == b || Before(b, a)
  {}

  lemma IsoDateOrder(a: Date, b: Date)
    requires ValidDate(a) && ValidDate(b)
    ensures Less(IsoDate(a), IsoDate(b)) <==> Before(a, b)
    ensures IsoDate(a) == IsoDate(b) <==> a == b
  {
    IsoDateLess(a, b);
    IsoDateLess(b, a);
    Trichotomy(IsoDate(a), IsoDate(b));
    Before3(a, b);
  }

  lemma DateText(a: Date, b: Date, x: string, y: string)
    requires ValidDate(a) && ValidDate(b)
    ensures Less(IsoDate(a) + x, IsoDate(b) + y) <==> Before(a, b) || (a == b && Less(x, y))
  {
    Powers();
    Blocks(IsoDate(a), IsoDate(b), x, y);
    IsoDateOrder(a, b);
  }

  lemma QuotientStep(n: int, k: int)
    requires n >= 1 && k in {4, 100, 400}
    ensures n / k == (n - 1) / k + if n % k == 0 then 1 else 0
  {}

  lemma Divides(n: int)
    ensures n % 400 == 0 ==> n % 100 == 0
    ensures n % 100 == 0 ==> n % 4 == 0
  {}

  lemma YearStep(n: int)
    requires n >= 1
    ensures DaysBeforeYear(n + 1) == DaysBeforeYear(n) + if Leap(n) then 366 else 365
  {
    QuotientStep(n, 4);
    QuotientStep(n, 100);
    QuotientStep(n, 400);
    Divides(n);
  }

  lemma {:induction false} YearsGrow(y: int, z: int)
    requires 1 <= y < z
    ensures DaysBeforeYear(y) + (if Leap(y) then 366 else 365) <= DaysBeforeYear(z)
    decreases z
  {
    YearStep(z - 1);
    if y < z - 1 { YearsGrow(y, z - 1); }
  }

  lemma {:induction false} MonthsGrow(y: int, m: int, n: int)
    requires 1 <= m < n <= 13
    ensures DaysBeforeMonth(y, m) + DaysInMonth(y, m) <= DaysBeforeMonth(y, n)
    decreases n
  {
    if m < n - 1 { MonthsGrow(y, m, n - 1); }
  }

  lemma YearLength(y: int)
    ensures DaysBeforeMonth(y, 13) == if Leap(y) then 366 else 365
  {
    assert DaysBeforeMonth(y, 4) == DaysInMonth(y, 1) + DaysInMonth(y, 2) + DaysInMonth(y, 3);
    assert DaysBeforeMonth(y, 7) == DaysBeforeMonth(y, 4) + 91;
    assert DaysBeforeMonth(y, 10) == DaysBeforeMonth(y, 7) + 92;
    assert DaysBeforeMonth(y, 13) == DaysBeforeMonth(y, 10) + 92;
  }

  lemma OrdinalGrows(a: Date, b: Date)
    requires ValidDate(a) && ValidDate(b) && Before(a, b)
    ensures Ordinal(a) < Ordinal(b)
  {
    if a.year < b.year {
      YearsGrow(a.year, b.year);
      YearLength(a.year);
      MonthsGrow(a.year, a.month, 13);
      if b.month > 1 { MonthsGrow(b.year, 1, b.month); }
    } else if a.month < b.month {
      MonthsGrow(a.year, a.month, b.month);
    }
  }

  /** The calendar order of dates is the order of the days themselves. */
  lemma CalendarOrder(a: Date, b: Date)
    requires ValidDate(a) && ValidDate(b)
    ensures Before(a, b) <==> Ordinal(a) < Ordinal(b)
  {
    Before3(a, b);
    if Before(a, b) { OrdinalGrows(a, b); }
    if Before(b, a) { OrdinalGrows(b, a); }
  }

  /** No day lies between a day and the next. */
  lemma NextDayIsNext(d: Date, e: Date)
    requires ValidDate(d) && ValidDate(e) && d != Date(9999, 12, 31)
    ensures ValidDate(NextDay(d)) && Ordinal(NextDay(d)) == Ordinal(d) + 1
    ensures Before(d, e) <==> !Before(e, NextDay(d))
  {
    if d.day == DaysInMonth(d.year, d.month) && d.month == 12 {
      YearStep(d.year);
      YearLength(d.year);
    }
  }

  lemma LastDay()
    ensures Ordinal(Date(9999, 12, 31)) == 3_652_059
  {
    YearLength(9999);
    assert DaysBeforeMonth(9999, 13) == DaysBeforeMonth(9999, 12) + 31;
  }

  /** The days of the calendar are numbered without a gap from 1 January of year 1 to 31 December 9999; CalendarOrder
      says that no two have one number. */
  lemma {:induction false} CalendarHasNoGap(n: int) returns (d: Date)
    requires 1 <= n <= 3_652_059
    ensures ValidDate(d) && Ordinal(d) == n
    ensures n == 1 ==> d == Date(1, 1, 1)
    decreases n
  {
    LastDay();
    if n == 1 {
      d := Date(1, 1, 1);
    } else {
      var e := CalendarHasNoGap(n - 1);
      NextDayIsNext(e, e);
      d := NextDay(e);
    }
  }

  lemma IsoOrder(a: Instant, b: Instant)
    requires Valid(a) && Valid(b)
    ensures Less(Iso(a), Iso(b)) <==> Micros(a) < Micros(b)
  {
    Powers();
    var sa, sb := Digits(a.second, 2) + Tail(a.micro), Digits(b.second, 2) + Tail(b.micro);
    var ma, mb := Digits(a.minute, 2) + (":" + sa), Digits(b.minute, 2) + (":" + sb);
    var ha, hb := Digits(a.hour, 2) + (":" + ma), Digits(b.hour, 2) + (":" + mb);
    DateText(a.date, b.date, "T" + ha, "T" + hb);
    Separator("T", ha, hb);
    Field(a.hour, b.hour, 2, ":" + ma, ":" + mb);
    Separator(":", ma, mb);
    Field(a.minute, b.minute, 2, ":" + sa, ":" + sb);
    Separator(":", sa, sb);
    Field(a.second, b.second, 2, Tail(a.micro), Tail(b.micro));
    TailOrder(a.micro, b.micro);
    CalendarOrder(a.date, b.date);
    CalendarOrder(b.date, a.date);
    Before3(a.date, b.date);
  }

  /** The instant one microsecond later. */
  function Tick(t: Instant): Instant
    requires Valid(t) && t.date != Date(9999, 12, 31)
  {
    if t.micro < 999_999 then t.(micro := t.micro + 1)
    else if t.second < 59 then t.(second := t.second + 1, micro := 0)
    else if t.minute < 59 then t.(minute := t.minute + 1, second := 0, micro := 0)
    else if t.hour < 23 then t.(hour := t.hour + 1, minute := 0, second := 0, micro := 0)
    else Instant(NextDay(t.date), 0, 0, 0, 0)
  }

  /** The time line is counted in microseconds. */
  lemma TickIsOneMicrosecond(t: Instant)
    requires Valid(t) && t.date != Date(9999, 12, 31)
    ensures Valid(Tick(t)) && Micros(Tick(t)) == Micros(t) + 1
  {
    NextDayIsNext(t.date, t.date);
  }

  /** Comparing the stored texts compares the instants, for every year from 1 to 9999. */
  lemma TextOrderIsTimeOrder(a: Instant, b: Instant)
    requires Valid(a) && Valid(b)
    ensures Less(Iso(a), Iso(b)) <==> Micros(a) < Micros(b)
    ensures AtMost(Iso(a), Iso(b)) <==> Micros(a) <= Micros(b)
  {
    IsoOrder(a, b);
    IsoOrder(b, a);
    Trichotomy(Iso(b), Iso(a));
  }

  /** An exclusive bound on the next day is an inclusive bound on the day. */
  lemma NextDayBound(d: Date, to: Date)
    requires ValidDate(d) && ValidDate(to) && to != Date(9999, 12, 31)
    ensures ValidDate(NextDay(to))
    ensures Less(IsoDate(d), IsoDate(NextDay(to))) <==> !Before(to, d)
  {
    IsoDateLess(d, NextDay(to));
  }
}
