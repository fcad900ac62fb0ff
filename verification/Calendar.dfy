/** The minute of a time in UTC as twelve digits: year, month, day, hour, minute.
    Times are of the years 1970 to 9999. */
module Calendar {
  import opened Slots

  predicate Leap(y: nat)
  {
    y % 4 == 0 && (y % 100 != 0 || y % 400 == 0)
  }

  function YearDays(y: nat): nat
  {
    if Leap(y) then 366 else 365
  }

  function MonthDays(y: nat, m: nat): nat
  {
    if m == 2 then (if Leap(y) then 29 else 28)
    else if m == 4 || m == 6 || m == 9 || m == 11 then 30
    else 31
  }

  /** The year, and the day in it, of the dth day from the start of year y. */
  function YearOf(d: nat, y: nat): (nat, nat)
    decreases d
  {
    if d < YearDays(y) then (y, d) else YearOf(d - YearDays(y), y + 1)
  }

  /** The month, and the day in it, of the dth day from the start of month m. */
  function MonthOf(y: nat, d: nat, m: nat): (nat, nat)
    requires 1 <= m <= 12
    decreases 12 - m
  {
    if m == 12 || d < MonthDays(y, m) then (m, d + 1) else MonthOf(y, d - MonthDays(y, m), m + 1)
  }

  lemma {:induction false} YearTells(d: nat, e: nat, y: nat)
    ensures YearOf(d, y).0 >= y && YearOf(d, y).1 < YearDays(YearOf(d, y).0)
    ensures YearOf(d, y) == YearOf(e, y) ==> d == e
    decreases d
  {
    if d >= YearDays(y) {
      YearTells(d - YearDays(y), if e >= YearDays(y) then e - YearDays(y) else 0, y + 1);
    } else if e >= YearDays(y) {
      YearAtLeast(e - YearDays(y), y + 1);
    }
  }

  lemma {:induction false} YearAtLeast(d: nat, y: nat)
    ensures YearOf(d, y).0 >= y
    decreases d
  {
    if d >= YearDays(y) {
      YearAtLeast(d - YearDays(y), y + 1);
    }
  }

  lemma {:induction false} MonthTells(y: nat, d: nat, e: nat, m: nat)
    requires 1 <= m <= 12
    ensures m <= MonthOf(y, d, m).0 <= 12
    ensures MonthOf(y, d, m) == MonthOf(y, e, m) ==> d == e
    decreases 12 - m
  {
    if m < 12 && d >= MonthDays(y, m) {
      MonthTells(y, d - MonthDays(y, m), if e >= MonthDays(y, m) then e - MonthDays(y, m) else 0, m + 1);
    } else if m < 12 && e >= MonthDays(y, m) {
      MonthTells(y, e - MonthDays(y, m), 0, m + 1);
    }
  }

  /** A day of the month has two digits. */
  lemma {:induction false} DayIsShort(y: nat, d: nat, m: nat)
    requires 1 <= m <= 12
    requires d < DaysFrom(y, m)
    ensures 1 <= MonthOf(y, d, m).1 <= MonthDays(y, MonthOf(y, d, m).0)
    decreases 12 - m
  {
    if m < 12 && d >= MonthDays(y, m) {
      DayIsShort(y, d - MonthDays(y, m), m + 1);
    }
  }

  /** Days from the start of month m to the end of the year. */
  function DaysFrom(y: nat, m: nat): nat
    requires 1 <= m <= 12
    decreases 12 - m
  {
    MonthDays(y, m) + if m == 12 then 0 else DaysFrom(y, m + 1)
  }

  lemma YearHasItsMonths(y: nat)
    ensures DaysFrom(y, 1) == YearDays(y)
  {
    assert DaysFrom(y, 12) == 31;
    assert DaysFrom(y, 11) == 61;
    assert DaysFrom(y, 10) == 92;
    assert DaysFrom(y, 9) == 122;
    assert DaysFrom(y, 8) == 153;
    assert DaysFrom(y, 7) == 184;
    assert DaysFrom(y, 6) == 214;
    assert DaysFrom(y, 5) == 245;
    assert DaysFrom(y, 4) == 275;
    assert DaysFrom(y, 3) == 306;
    assert DaysFrom(y, 2) == 306 + MonthDays(y, 2);
  }

  // ------------------------------------------------------------- four-digit years

  /** Days before year y, from year 1. */
  function Before(y: nat): int
    requires y >= 1
  {
    365 * (y - 1) + (y - 1) / 4 - (y - 1) / 100 + (y - 1) / 400
  }

  lemma NextYear(y: nat)
    requires y >= 1
    ensures Before(y + 1) == Before(y) + YearDays(y)
  {
    NextMultiple(y, 4);
    NextMultiple(y, 100);
    NextMultiple(y, 400);
    assert y % 400 == 0 ==> y % 100 == 0;
    assert y % 100 == 0 ==> y % 4 == 0;
  }

  lemma NextMultiple(y: nat, k: nat)
    requires y >= 1 && k >= 2
    ensures y / k == (y - 1) / k + if y % k == 0 then 1 else 0
  {
    var q, r := (y - 1) / k, (y - 1) % k;
    assert y - 1 == q * k + r;
    if r + 1 == k {
      assert y == (q + 1) * k;
      Quotient(y, k, q + 1, 0);
    } else {
      Quotient(y, k, q, r + 1);
    }
  }

  lemma Quotient(n: nat, k: nat, q: nat, r: nat)
    requires k > 0 && n == q * k + r && r < k
    ensures n / k == q && n % k == r
  {
    var p := n / k;
    assert n == p * k + n % k;
    assert p < q ==> (p + 1) * k <= q * k;
    assert p > q ==> (q + 1) * k <= p * k;
  }

  lemma {:induction false} YearStarts(d: nat, y: nat)
    requires y >= 1
    ensures YearOf(d, y).0 >= y && Before(YearOf(d, y).0) + YearOf(d, y).1 == Before(y) + d
    decreases d
  {
    if d >= YearDays(y) {
      NextYear(y);
      YearStarts(d - YearDays(y), y + 1);
    }
  }

  lemma {:induction false} YearsGrow(a: nat, b: nat)
    requires 1 <= a <= b
    ensures Before(a) <= Before(b)
    decreases b - a
  {
    if a < b {
      NextYear(a);
      YearsGrow(a + 1, b);
    }
  }

  /** The days of the years 1970 to 9999. */
  lemma FourDigitYears(d: nat)
    requires d < END / DAY
    ensures 1970 <= YearOf(d, 1970).0 <= 9999
  {
    YearStarts(d, 1970);
    if YearOf(d, 1970).0 > 9999 {
      YearsGrow(10000, YearOf(d, 1970).0);
    }
  }

  // ---------------------------------------------------------------------- digits

  function Digit(n: nat): char
    requires n < 10
  {
    '0' + n as char
  }

  /** The last k digits of n. */
  function Pad(n: nat, k: nat): string
  {
    if k == 0 then "" else Pad(n / 10, k - 1) + [Digit(n % 10)]
  }

  function Limit(k: nat): nat
  {
    if k == 0 then 1 else 10 * Limit(k - 1)
  }

  predicate Digits(s: string)
  {
    forall i :: 0 <= i < |s| ==> '0' <= s[i] <= '9'
  }

  lemma {:induction false} PadTells(n: nat, m: nat, k: nat)
    ensures |Pad(n, k)| == k && Digits(Pad(n, k))
    ensures n < Limit(k) && m < Limit(k) && Pad(n, k) == Pad(m, k) ==> n == m
    decreases k
  {
    if k > 0 {
      PadTells(n / 10, m / 10, k - 1);
      PadTells(m / 10, n / 10, k - 1);
      var a, b := Pad(n / 10, k - 1), Pad(m / 10, k - 1);
      if n < Limit(k) && m < Limit(k) && Pad(n, k) == Pad(m, k) {
        assert a == Pad(n, k)[..k - 1] == b;
        assert Digit(n % 10) == Pad(n, k)[k - 1] == Digit(m % 10);
        assert n / 10 < Limit(k - 1) && m / 10 < Limit(k - 1);
      }
    }
  }

  // ---------------------------------------------------------------------- stamps

  datatype Civil = Civil(year: nat, month: nat, day: nat, hour: nat, minute: nat)

  function CivilOf(t: Time): Civil
    requires 0 <= t
  {
    var minutes := t / MINUTE;
    var year := YearOf(minutes / 1440, 1970);
    var month := MonthOf(year.0, year.1, 1);
    Civil(year.0, month.0, month.1, minutes % 1440 / 60, minutes % 60)
  }

  function Render(c: Civil): string
  {
    Pad(c.year, 4) + (Pad(c.month, 2) + (Pad(c.day, 2) + (Pad(c.hour, 2) + Pad(c.minute, 2))))
  }

  predicate Short(c: Civil)
  {
    c.year < 10000 && c.month < 100 && c.day < 100 && c.hour < 100 && c.minute < 100
  }

  /** The twelve digits of a time's minute; zeros outside the years it is for. */
  function Stamp(t: Time): string
  {
    if 0 <= t < END then Render(CivilOf(t)) else Pad(0, 12)
  }

  lemma Cut(a: string, x: string, b: string, y: string)
    requires |a| == |b| && a + x == b + y
    ensures a == b && x == y
  {
    assert a == (a + x)[..|a|] && x == (a + x)[|a|..] && b == (b + y)[..|b|] && y == (b + y)[|b|..];
  }

  lemma RenderTells(c: Civil, d: Civil)
    requires Short(c) && Short(d) && Render(c) == Render(d)
    ensures c == d
  {
    assert Limit(2) == 100 && Limit(4) == 10 * Limit(3) == 100 * Limit(2);
    PadTells(c.year, d.year, 4);
    PadTells(d.year, c.year, 4);
    PadTells(c.month, d.month, 2);
    PadTells(d.month, c.month, 2);
    PadTells(c.day, d.day, 2);
    PadTells(d.day, c.day, 2);
    PadTells(c.hour, d.hour, 2);
    PadTells(d.hour, c.hour, 2);
    PadTells(c.minute, d.minute, 2);
    var x3, y3 := Pad(c.hour, 2) + Pad(c.minute, 2), Pad(d.hour, 2) + Pad(d.minute, 2);
    var x2, y2 := Pad(c.day, 2) + x3, Pad(d.day, 2) + y3;
    Cut(Pad(c.year, 4), Pad(c.month, 2) + x2, Pad(d.year, 4), Pad(d.month, 2) + y2);
    Cut(Pad(c.month, 2), x2, Pad(d.month, 2), y2);
    Cut(Pad(c.day, 2), x3, Pad(d.day, 2), y3);
    Cut(Pad(c.hour, 2), Pad(c.minute, 2), Pad(d.hour, 2), Pad(d.minute, 2));
  }

  lemma CivilIsShort(t: Time)
    requires 0 <= t < END
    ensures Short(CivilOf(t))
  {
    var days := t / MINUTE / 1440;
    assert days < END / DAY;
    FourDigitYears(days);
    YearTells(days, days, 1970);
    var year := YearOf(days, 1970);
    YearHasItsMonths(year.0);
    MonthTells(year.0, year.1, year.1, 1);
    DayIsShort(year.0, year.1, 1);
  }

  /** The civil time tells the minute. */
  lemma CivilTells(t: Time, u: Time)
    requires 0 <= t && 0 <= u && CivilOf(t) == CivilOf(u)
    ensures t / MINUTE == u / MINUTE
  {
    var a, b := t / MINUTE, u / MINUTE;
    var y, z := YearOf(a / 1440, 1970), YearOf(b / 1440, 1970);
    MonthTells(y.0, y.1, z.1, 1);
    assert y == z;
    YearTells(a / 1440, b / 1440, 1970);
    DayMinutes(a);
    DayMinutes(b);
  }

  lemma DayMinutes(a: nat)
    ensures a == 1440 * (a / 1440) + 60 * (a % 1440 / 60) + a % 60
  {
    assert a % 1440 % 60 == a % 60 by {
      assert a == 60 * (24 * (a / 1440)) + a % 1440;
      var q, r := a % 1440 / 60, a % 1440 % 60;
      assert a == (24 * (a / 1440) + q) * 60 + r;
      Quotient(a, 60, 24 * (a / 1440) + q, r);
    }
  }

  /** Every stamp has twelve digits, and no two minutes of the years 1970 to 9999
      share one. */
  lemma StampTells(t: Time, u: Time)
    ensures |Stamp(t)| == 12 && Digits(Stamp(t))
    ensures 0 <= t < END && 0 <= u < END && t % MINUTE == 0 && u % MINUTE == 0 && Stamp(t) == Stamp(u) ==> t == u
  {
    StampIsDigits(t);
    if 0 <= t < END && 0 <= u < END && t % MINUTE == 0 && u % MINUTE == 0 && Stamp(t) == Stamp(u) {
      SameStamp(t, u);
      SameMinute(t, u);
    }
  }

  lemma SameStamp(t: Time, u: Time)
    requires 0 <= t < END && 0 <= u < END && Render(CivilOf(t)) == Render(CivilOf(u))
    ensures t / MINUTE == u / MINUTE
  {
    CivilIsShort(t);
    CivilIsShort(u);
    RenderTells(CivilOf(t), CivilOf(u));
    CivilTells(t, u);
  }

  lemma SameMinute(t: Time, u: Time)
    requires t % MINUTE == 0 && u % MINUTE == 0 && t / MINUTE == u / MINUTE
    ensures t == u
  {
  }

  lemma StampIsDigits(t: Time)
    ensures |Stamp(t)| == 12 && Digits(Stamp(t))
  {
    PadTells(0, 0, 12);
    if 0 <= t < END {
      var c := CivilOf(t);
      PadTells(c.year, 0, 4);
      PadTells(c.month, 0, 2);
      PadTells(c.day, 0, 2);
      PadTells(c.hour, 0, 2);
      PadTells(c.minute, 0, 2);
    }
  }

  // ------------------------------------------------------- a stamp is the date

  /** The days of a year before month m. */
  function MonthStart(y: nat, m: nat): nat
    requires m >= 1
  {
    if m == 1 then 0 else MonthStart(y, m - 1) + MonthDays(y, m - 1)
  }

  lemma {:induction false} MonthStarts(y: nat, d: nat, m: nat)
    requires 1 <= m <= 12
    ensures m <= MonthOf(y, d, m).0 <= 12
    ensures MonthStart(y, MonthOf(y, d, m).0) + MonthOf(y, d, m).1 == MonthStart(y, m) + d + 1
    decreases 12 - m
  {
    if m < 12 && d >= MonthDays(y, m) {
      MonthStarts(y, d - MonthDays(y, m), m + 1);
    }
  }

  /** A date of the Gregorian calendar. */
  predicate IsDate(c: Civil)
  {
    c.year >= 1 && 1 <= c.month <= 12 && 1 <= c.day <= MonthDays(c.year, c.month) && c.hour < 24 && c.minute < 60
  }

  /** The minutes of a date since the start of 1970, by the days before its year. */
  function Minutes(c: Civil): int
    requires IsDate(c)
  {
    var years := 365 * (c.year - 1970) + ((c.year - 1) / 4 - 492) - ((c.year - 1) / 100 - 19) + ((c.year - 1) / 400 - 4);
    (years + MonthStart(c.year, c.month) + c.day - 1) * 1440 + c.hour * 60 + c.minute
  }

  lemma DayIsTheDate(days: nat)
    ensures var (y, d) := YearOf(days, 1970); var (m, day) := MonthOf(y, d, 1);
      && 1970 <= y && 1 <= m <= 12 && 1 <= day <= MonthDays(y, m)
      && Before(y) - Before(1970) + MonthStart(y, m) + day - 1 == days
  {
    YearStarts(days, 1970);
    YearTells(days, days, 1970);
    var year := YearOf(days, 1970);
    YearHasItsMonths(year.0);
    MonthStarts(year.0, year.1, 1);
    DayIsShort(year.0, year.1, 1);
  }

  lemma YearsSince(y: nat)
    requires y >= 1
    ensures Before(y) - Before(1970) == 365 * (y - 1970) + ((y - 1) / 4 - 492) - ((y - 1) / 100 - 19) + ((y - 1) / 400 - 4)
  {
  }

  lemma DateOfMinutes(minutes: nat, c: Civil)
    requires c.year >= 1 && 1 <= c.month <= 12 && 1 <= c.day <= MonthDays(c.year, c.month)
    requires Before(c.year) - Before(1970) + MonthStart(c.year, c.month) + c.day - 1 == minutes / 1440
    requires c.hour == minutes % 1440 / 60 && c.minute == minutes % 60
    ensures IsDate(c) && Minutes(c) == minutes
  {
    YearsSince(c.year);
    DayMinutes(minutes);
  }

  lemma CivilIsTheDate(t: Time)
    requires 0 <= t < END
    ensures IsDate(CivilOf(t)) && Minutes(CivilOf(t)) == t / MINUTE
  {
    DayIsTheDate(t / MINUTE / 1440);
    DateOfMinutes(t / MINUTE, CivilOf(t));
  }

  function Value(s: string): nat
    requires Digits(s)
  {
    if s == [] then 0 else 10 * Value(s[..|s| - 1]) + (s[|s| - 1] - '0') as nat
  }

  lemma {:induction false} PadReads(n: nat, k: nat)
    requires n < Limit(k)
    ensures Digits(Pad(n, k)) && Value(Pad(n, k)) == n
    decreases k
  {
    PadTells(n, n, k);
    if k > 0 {
      PadReads(n / 10, k - 1);
      assert Pad(n, k)[..k - 1] == Pad(n / 10, k - 1);
    }
  }

  /** Reads year, month, day, hour and minute off twelve digits. */
  function Read(s: string): Civil
    requires |s| == 12 && Digits(s)
  {
    Civil(Value(s[..4]), Value(s[4..6]), Value(s[6..8]), Value(s[8..10]), Value(s[10..]))
  }

  lemma RenderParts(c: Civil)
    ensures var s := Render(c);
      && |s| == 12 && Digits(s)
      && s[..4] == Pad(c.year, 4) && s[4..6] == Pad(c.month, 2) && s[6..8] == Pad(c.day, 2)
      && s[8..10] == Pad(c.hour, 2) && s[10..] == Pad(c.minute, 2)
  {
    PadTells(c.year, 0, 4);
    PadTells(c.month, 0, 2);
    PadTells(c.day, 0, 2);
    PadTells(c.hour, 0, 2);
    PadTells(c.minute, 0, 2);
  }

  lemma RenderReads(c: Civil)
    requires Short(c)
    ensures |Render(c)| == 12 && Digits(Render(c)) && Read(Render(c)) == c
  {
    RenderParts(c);
    assert Limit(2) == 100 && Limit(4) == 10 * Limit(3) == 100 * Limit(2);
    PadReads(c.year, 4);
    PadReads(c.month, 2);
    PadReads(c.day, 2);
    PadReads(c.hour, 2);
    PadReads(c.minute, 2);
  }

  /** A stamp is the date of the Gregorian calendar, to the minute in UTC, that the
      time is in. */
  lemma StampIsTheDate(t: Time)
    requires 0 <= t < END
    ensures |Stamp(t)| == 12 && Digits(Stamp(t))
    ensures IsDate(Read(Stamp(t))) && Minutes(Read(Stamp(t))) == t / MINUTE
  {
    CivilIsShort(t);
    CivilIsTheDate(t);
    RenderReads(CivilOf(t));
  }
}
