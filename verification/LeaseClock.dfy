/**
 The governance queue stores instants as the text of `datetime.now(utc).isoformat()` and lets
 SQLite compare them as text. An instant here is a count of microseconds since
 0001-01-01T00:00:00 UTC, the first instant Python's datetime can hold.
 */
module LeaseClock {
  import opened Text

  type Instant = nat

  const SECOND: nat := 1_000_000
  const DAY_SECONDS: nat := 86_400

  // ----- the proleptic Gregorian calendar -----

  predicate IsLeap(y: nat) {
    y % 4 == 0 && (y % 100 != 0 || y % 400 == 0)
  }

  function DaysInMonth(leap: bool, m: nat): nat {
    if m == 2 then (if leap then 29 else 28)
    else if m == 4 || m == 6 || m == 9 || m == 11 then 30
    else 31
  }

  /** Days from the first of month m to the end of the year. */
  function DaysLeft(leap: bool, m: nat): nat
    decreases 13 - m
  {
    if m > 12 then 0 else DaysInMonth(leap, m) + DaysLeft(leap, m + 1)
  }

  function YearLength(y: nat): (n: nat)
    ensures 365 <= n <= 366
  {
    if IsLeap(y) then 366 else 365
  }

  lemma MonthsFillYear(y: nat)
    ensures DaysLeft(IsLeap(y), 1) == YearLength(y)
  {
    var leap := IsLeap(y);
    assert DaysLeft(leap, 11) == 61;
    assert DaysLeft(leap, 9) == 122;
    assert DaysLeft(leap, 7) == 184;
    assert DaysLeft(leap, 5) == 245;
    assert DaysLeft(leap, 3) == 306;
  }

  /** The year that holds the given day, counting days from the start of year y, and the day in it. */
  function YearAndDay(day: nat, y: nat): (r: (nat, nat))
    ensures r.0 >= y && r.1 < YearLength(r.0)
  {
    if day < YearLength(y) then (y, day) else YearAndDay(day - YearLength(y), y + 1)
  }

  /** The month that holds the given day, counting days from the first of month m, and the day in it. */
  function MonthAndDay(day: nat, leap: bool, m: nat): (r: (nat, nat))
    requires 1 <= m <= 12 && day < DaysLeft(leap, m)
    ensures m <= r.0 <= 12 && 1 <= r.1 <= 31
    decreases 12 - m
  {
    var length := DaysInMonth(leap, m);
    if day < length then (m, day + 1) else MonthAndDay(day - length, leap, m + 1)
  }

  predicate PairLess(p: (nat, nat), q: (nat, nat)) {
    p.0 < q.0 || (p.0 == q.0 && p.1 < q.1)
  }

  lemma {:induction false} YearOrder(a: nat, b: nat, y: nat)
    requires a < b
    ensures PairLess(YearAndDay(a, y), YearAndDay(b, y))
    decreases a
  {
    if a >= YearLength(y) {
      YearOrder(a - YearLength(y), b - YearLength(y), y + 1);
    }
  }

  lemma {:induction false} MonthOrder(a: nat, b: nat, leap: bool, m: nat)
    requires 1 <= m <= 12 && a < b < DaysLeft(leap, m)
    ensures PairLess(MonthAndDay(a, leap, m), MonthAndDay(b, leap, m))
    decreases 12 - m
  {
    var length := DaysInMonth(leap, m);
    if a >= length {
      MonthOrder(a - length, b - length, leap, m + 1);
    }
  }

  // ----- isoformat -----

  function YearDayText(day: nat, y: nat): (s: string)
    requires day < YearLength(y)
    ensures |s| == 5
  {
    MonthsFillYear(y);
    var (month, dayOfMonth) := MonthAndDay(day, IsLeap(y), 1);
    Padded(month, 2) + ("-" + Padded(dayOfMonth, 2))
  }

  function DateText(day: nat): (s: string)
    ensures |s| == 10
  {
    var (year, dayOfYear) := YearAndDay(day, 1);
    Padded(year, 4) + ("-" + YearDayText(dayOfYear, year))
  }

  function TimeText(second: nat): (s: string)
    ensures |s| == 8
  {
    Padded(second / 3600, 2) + (":" + (Padded(second / 60 % 60, 2) + (":" + Padded(second % 60, 2))))
  }

  /** YYYY-MM-DDTHH:MM:SS */
  function SecondText(day: nat, second: nat): (s: string)
    ensures |s| == 19
  {
    DateText(day) + ("T" + TimeText(second))
  }

  /** A whole second prints no fraction at all, any other instant six digits. */
  function FractionText(micro: nat): string {
    (if micro == 0 then "" else "." + Padded(micro, 6)) + "+00:00"
  }

  function Iso(t: Instant): string {
    InstantText(t / SECOND / DAY_SECONDS, t / SECOND % DAY_SECONDS, t % SECOND)
  }

  function InstantText(day: nat, second: nat, micro: nat): string {
    SecondText(day, second) + FractionText(micro)
  }

  /** The instants a datetime can hold: years 1 to 9999. */
  predicate InRange(t: Instant) {
    YearAndDay(t / SECOND / DAY_SECONDS, 1).0 <= 9999
  }

  // ----- order of the text -----

  lemma FieldOrder(p: string, q: string, a: string, b: string, separator: string)
    requires |p| == |q|
    ensures Less(p + (separator + a), q + (separator + b)) <==> Less(p, q) || (p == q && Less(a, b))
  {
    Trichotomy(p, q);
    if p == q {
      SharedPrefix(p, separator + a, separator + b);
      SharedPrefix(separator, a, b);
    } else {
      PrefixDecides(p, q, separator + a, separator + b);
    }
  }

  lemma PaddedLess(m: nat, n: nat, w: nat, bound: nat)
    requires m < n < bound == Pow10(w)
    ensures Less(Padded(m, w), Padded(n, w))
  {
    PaddedOrder(m, n, w);
  }

  lemma Widths()
    ensures Pow10(2) == 100 && Pow10(4) == 10_000 && Pow10(6) == 1_000_000
  {
    assert Pow10(2) == 10 * Pow10(1);
    assert Pow10(4) == 100 * Pow10(2);
    assert Pow10(6) == 100 * Pow10(4);
  }

  lemma YearDayOrder(a: nat, b: nat, y: nat)
    requires a < b < YearLength(y)
    ensures Less(YearDayText(a, y), YearDayText(b, y))
  {
    Widths();
    var leap := IsLeap(y);
    MonthsFillYear(y);
    MonthOrder(a, b, leap, 1);
    var (m, d) := MonthAndDay(a, leap, 1);
    var (n, e) := MonthAndDay(b, leap, 1);
    FieldOrder(Padded(m, 2), Padded(n, 2), Padded(d, 2), Padded(e, 2), "-");
    if m < n {
      PaddedLess(m, n, 2, 100);
    } else {
      PaddedLess(d, e, 2, 100);
    }
  }

  lemma DateOrder(a: nat, b: nat)
    requires a < b && YearAndDay(b, 1).0 <= 9999
    ensures Less(DateText(a), DateText(b))
  {
    Widths();
    YearOrder(a, b, 1);
    var p, q := YearAndDay(a, 1), YearAndDay(b, 1);
    FieldOrder(Padded(p.0, 4), Padded(q.0, 4), YearDayText(p.1, p.0), YearDayText(q.1, q.0), "-");
    if p.0 < q.0 {
      PaddedLess(p.0, q.0, 4, 10_000);
    } else {
      YearDayOrder(p.1, q.1, p.0);
    }
  }

  lemma TimeOrder(a: nat, b: nat)
    requires a < b < DAY_SECONDS
    ensures Less(TimeText(a), TimeText(b))
  {
    Widths();
    var h, h', m, m', s, s' := a / 3600, b / 3600, a / 60 % 60, b / 60 % 60, a % 60, b % 60;
    FieldOrder(Padded(h, 2), Padded(h', 2), Padded(m, 2) + (":" + Padded(s, 2)), Padded(m', 2) + (":" + Padded(s', 2)), ":");
    FieldOrder(Padded(m, 2), Padded(m', 2), Padded(s, 2), Padded(s', 2), ":");
    HourMinuteSecond(a);
    HourMinuteSecond(b);
    if h < h' {
      PaddedLess(h, h', 2, 100);
    } else if m < m' {
      PaddedLess(m, m', 2, 100);
    } else {
      PaddedLess(s, s', 2, 100);
    }
  }

  lemma HourMinuteSecond(a: nat)
    ensures a == a / 3600 * 3600 + a / 60 % 60 * 60 + a % 60
  {
    assert a / 60 / 60 == a / 3600;
    assert a / 60 == a / 60 / 60 * 60 + a / 60 % 60;
  }

  lemma SecondOrder(p: nat, q: nat, a: nat, b: nat)
    requires p < q || (p == q && a < b)
    requires a < DAY_SECONDS && b < DAY_SECONDS && YearAndDay(q, 1).0 <= 9999
    ensures Less(SecondText(p, a), SecondText(q, b))
  {
    FieldOrder(DateText(p), DateText(q), TimeText(a), TimeText(b), "T");
    if p < q {
      DateOrder(p, q);
    } else {
      TimeOrder(a, b);
    }
  }

  /** '+' sorts before '.', so a bare second precedes every fraction of it. */
  lemma FractionOrder(a: nat, b: nat)
    requires a < b < SECOND
    ensures Less(FractionText(a), FractionText(b))
  {
    Widths();
    if a == 0 {
      assert FractionText(a)[0] == '+' && FractionText(b)[0] == '.';
    } else {
      PaddedLess(a, b, 6, 1_000_000);
      Trichotomy(Padded(a, 6), Padded(b, 6));
      PrefixDecides(Padded(a, 6), Padded(b, 6), "+00:00", "+00:00");
      assert FractionText(a) == "." + (Padded(a, 6) + "+00:00");
      assert FractionText(b) == "." + (Padded(b, 6) + "+00:00");
      SharedPrefix(".", Padded(a, 6) + "+00:00", Padded(b, 6) + "+00:00");
    }
  }

  lemma InstantOrder(p: nat, q: nat, a: nat, b: nat, m: nat, n: nat)
    requires p < q || (p == q && (a < b || (a == b && m < n)))
    requires a < DAY_SECONDS && b < DAY_SECONDS && m < SECOND && n < SECOND && YearAndDay(q, 1).0 <= 9999
    ensures Less(InstantText(p, a, m), InstantText(q, b, n))
  {
    var x, y := SecondText(p, a), SecondText(q, b);
    if p == q && a == b {
      FractionOrder(m, n);
      SharedPrefix(x, FractionText(m), FractionText(n));
    } else {
      SecondOrder(p, q, a, b);
      Trichotomy(x, y);
      PrefixDecides(x, y, FractionText(m), FractionText(n));
    }
  }

  lemma IsoLess(a: Instant, b: Instant)
    requires a < b && InRange(b)
    ensures Less(Iso(a), Iso(b))
  {
    var s, t := a / SECOND, b / SECOND;
    InstantOrder(s / DAY_SECONDS, t / DAY_SECONDS, s % DAY_SECONDS, t % DAY_SECONDS, a % SECOND, b % SECOND);
  }

  /** Comparing stored timestamps as text is comparing the instants. */
  lemma IsoOrder(a: Instant, b: Instant)
    requires InRange(a) && InRange(b)
    ensures AtMost(Iso(a), Iso(b)) <==> a <= b
    ensures Iso(a) == Iso(b) <==> a == b
  {
    Trichotomy(Iso(a), Iso(b));
    if a < b {
      IsoLess(a, b);
    } else if b < a {
      IsoLess(b, a);
    }
  }

  // ----- what the text says -----

  /** Days from 0001-01-01 to the first of January of year y: 365 a year, and one for each leap year. */
  function DaysBeforeYear(y: nat): int
    requires y >= 1
  {
    365 * (y - 1) + (y - 1) / 4 - (y - 1) / 100 + (y - 1) / 400
  }

  /** Days from the first of January to the first of month m. */
  function DaysBeforeMonth(leap: bool, m: nat): nat
    requires 1 <= m <= 12
  {
    [0, 31, 59, 90, 120, 151, 181, 212, 243, 273, 304, 334][m - 1] + if leap && m > 2 then 1 else 0
  }

  lemma NextOf4(y: nat)
    requires y >= 1
    ensures y / 4 == (y - 1) / 4 + if y % 4 == 0 then 1 else 0
  {
  }

  lemma NextOf100(y: nat)
    requires y >= 1
    ensures y / 100 == (y - 1) / 100 + if y % 100 == 0 then 1 else 0
  {
  }

  lemma NextOf400(y: nat)
    requires y >= 1
    ensures y / 400 == (y - 1) / 400 + if y % 400 == 0 then 1 else 0
  {
  }

  lemma Multiple4(m: nat)
    ensures 4 * m % 4 == 0
  {
  }

  lemma Multiple100(m: nat)
    ensures 100 * m % 100 == 0
  {
  }

  lemma Of400IsOf100(y: nat)
    requires y % 400 == 0
    ensures y % 100 == 0
  {
    Multiple100(4 * (y / 400));
    assert y == 100 * (4 * (y / 400));
  }

  lemma Of100IsOf4(y: nat)
    requires y % 100 == 0
    ensures y % 4 == 0
  {
    Multiple4(25 * (y / 100));
    assert y == 4 * (25 * (y / 100));
  }

  lemma NextYear(y: nat)
    requires y >= 1
    ensures DaysBeforeYear(y + 1) == DaysBeforeYear(y) + YearLength(y)
  {
    NextOf4(y);
    NextOf100(y);
    NextOf400(y);
    if y % 400 == 0 {
      Of400IsOf100(y);
    }
    if y % 100 == 0 {
      Of100IsOf4(y);
    }
  }

  lemma {:induction false} YearTells(day: nat, y: nat)
    requires y >= 1
    ensures var r := YearAndDay(day, y); DaysBeforeYear(r.0) + r.1 == DaysBeforeYear(y) + day
  {
    if day >= YearLength(y) {
      YearTells(day - YearLength(y), y + 1);
      NextYear(y);
    }
  }

  lemma NextMonth(leap: bool, m: nat)
    requires 1 <= m < 12
    ensures DaysBeforeMonth(leap, m + 1) == DaysBeforeMonth(leap, m) + DaysInMonth(leap, m)
  {
  }

  lemma {:induction false} MonthTells(day: nat, leap: bool, m: nat)
    requires 1 <= m <= 12 && day < DaysLeft(leap, m)
    ensures var r := MonthAndDay(day, leap, m); DaysBeforeMonth(leap, r.0) + r.1 == DaysBeforeMonth(leap, m) + day + 1
    decreases 12 - m
  {
    var length := DaysInMonth(leap, m);
    if day >= length {
      MonthTells(day - length, leap, m + 1);
      NextMonth(leap, m);
    }
  }

  /** The fields of a timestamp. */
  datatype Fields = Fields(year: nat, month: nat, day: nat, hour: nat, minute: nat, second: nat, micro: nat)

  ghost predicate Prints(f: Fields, text: string) {
    text == ((Padded(f.year, 4) + ("-" + (Padded(f.month, 2) + ("-" + Padded(f.day, 2)))))
             + ("T" + (Padded(f.hour, 2) + (":" + (Padded(f.minute, 2) + (":" + Padded(f.second, 2)))))))
            + ((if f.micro == 0 then "" else "." + Padded(f.micro, 6)) + "+00:00")
  }

  ghost predicate IsDate(f: Fields) {
    && 1 <= f.year && 1 <= f.month <= 12 && 1 <= f.day <= 31
    && f.hour < 24 && f.minute < 60 && f.second < 60 && f.micro < 1_000_000
  }

  /** Days since 0001-01-01, by the Gregorian calendar. */
  ghost function DayNumber(f: Fields): int
    requires IsDate(f)
  {
    DaysBeforeYear(f.year) + f.day - 1
    + DaysBeforeMonth(f.year % 4 == 0 && (f.year % 100 != 0 || f.year % 400 == 0), f.month)
  }

  lemma DateTells(day: nat) returns (y: nat, m: nat, d: nat)
    ensures y >= 1 && 1 <= m <= 12 && 1 <= d <= 31
    ensures DateText(day) == Padded(y, 4) + ("-" + (Padded(m, 2) + ("-" + Padded(d, 2))))
    ensures day == DaysBeforeYear(y) + DaysBeforeMonth(IsLeap(y), m) + d - 1
  {
    var (year, n) := YearAndDay(day, 1);
    MonthsFillYear(year);
    var (month, e) := MonthAndDay(n, IsLeap(year), 1);
    YearTells(day, 1);
    MonthTells(n, IsLeap(year), 1);
    y, m, d := year, month, e;
  }

  lemma Recombine(t: nat, day: nat, second: nat, micro: nat)
    requires day == t / SECOND / DAY_SECONDS && second == t / SECOND % DAY_SECONDS && micro == t % SECOND
    ensures t == (day * 86_400 + second) * 1_000_000 + micro
  {
  }

  /** The text of an instant names its date and time of day, to the microsecond. */
  lemma IsoTells(t: Instant) returns (f: Fields)
    ensures IsDate(f) && Prints(f, Iso(t))
    ensures t == (DayNumber(f) * 86_400 + f.hour * 3_600 + f.minute * 60 + f.second) * 1_000_000 + f.micro
  {
    var day, second, micro := t / SECOND / DAY_SECONDS, t / SECOND % DAY_SECONDS, t % SECOND;
    var y, m, d := DateTells(day);
    HourMinuteSecond(second);
    Recombine(t, day, second, micro);
    f := Fields(y, m, d, second / 3600, second / 60 % 60, second % 60, micro);
    assert DayNumber(f) == day;
  }
}
