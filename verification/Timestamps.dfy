/**
 Timestamps in the form of section 5.1 of RFC 3339, "2006-01-02T15:04:05Z", as
 internal/api/events.go writes them: ordering the strings orders the times.
 */
module Timestamps {
  import opened Sorting

  /** A UTC time to the second.  The format has four digits for the year. */
  datatype Civil = Civil(year: nat, month: nat, day: nat, hour: nat, minute: nat, second: nat)

  predicate IsLeap(year: nat) {
    year % 4 == 0 && (year % 100 != 0 || year % 400 == 0)
  }

  function DaysInMonth(year: nat, month: nat): nat {
    if month == 2 then (if IsLeap(year) then 29 else 28)
    else if month == 4 || month == 6 || month == 9 || month == 11 then 30
    else 31
  }

  predicate Valid(c: Civil) {
    && c.year <= 9999
    && 1 <= c.month <= 12
    && 1 <= c.day <= DaysInMonth(c.year, c.month)
    && c.hour < 24 && c.minute < 60 && c.second < 60
  }

  /** A date and time that exists. */
  type Time = c: Civil | Valid(c) witness Civil(1, 1, 1, 0, 0, 0)

  // ---------- the time that a date names ----------

  /** Days in the months before `month`. */
  function DaysBeforeMonth(year: nat, month: nat): nat {
    if month <= 1 then 0 else DaysBeforeMonth(year, month - 1) + DaysInMonth(year, month - 1)
  }

  function DaysInYear(year: nat): nat {
    if IsLeap(year) then 366 else 365
  }

  /** Days from the start of year 0 to the start of `year`. */
  function DaysBeforeYear(year: nat): nat {
    if year == 0 then 0 else DaysBeforeYear(year - 1) + DaysInYear(year - 1)
  }

  function DayNumber(c: Time): nat
  {
    DaysBeforeYear(c.year) + DaysBeforeMonth(c.year, c.month) + c.day - 1
  }

  /** Seconds since the start of year 0. */
  function Seconds(c: Time): nat
  {
    ((DayNumber(c) * 24 + c.hour) * 60 + c.minute) * 60 + c.second
  }

  /** The Gregorian calendar: a leap day every four years, but not in three of four centuries. */
  lemma {:induction false} GregorianYears(y: nat)
    ensures DaysBeforeYear(y) == 365 * y + (y + 3) / 4 - (y + 99) / 100 + (y + 399) / 400
  {
    if y > 0 {
      GregorianYears(y - 1);
      LeapDay(y - 1);
    }
  }

  lemma LeapDay(y: nat)
    ensures (y + 4) / 4 - (y + 100) / 100 + (y + 400) / 400 ==
            (y + 3) / 4 - (y + 99) / 100 + (y + 399) / 400 + if IsLeap(y) then 1 else 0
  {
    Fourth(y);
    Hundredth(y);
    FourHundredth(y);
    Multiples(y);
  }

  lemma Fourth(y: nat)
    ensures (y + 4) / 4 == (y + 3) / 4 + if y % 4 == 0 then 1 else 0
  {
  }

  lemma Hundredth(y: nat)
    ensures (y + 100) / 100 == (y + 99) / 100 + if y % 100 == 0 then 1 else 0
  {
  }

  lemma FourHundredth(y: nat)
    ensures (y + 400) / 400 == (y + 399) / 400 + if y % 400 == 0 then 1 else 0
  {
  }

  lemma Multiples(y: nat)
    ensures y % 400 == 0 ==> y % 100 == 0
    ensures y % 100 == 0 ==> y % 4 == 0
  {
    assert y == 400 * (y / 400) + y % 400;
    assert y == 100 * (y / 100) + y % 100;
    assert y % 400 == 0 ==> y == 100 * (4 * (y / 400));
    assert y % 100 == 0 ==> y == 4 * (25 * (y / 100));
  }

  lemma GregorianMonths(y: nat)
    ensures forall m | 1 <= m <= 12 ::
              DaysInMonth(y, m) ==
              if m == 2 then DaysInYear(y) - 337 else [31, 0, 31, 30, 31, 30, 31, 31, 30, 31, 30, 31][m - 1]
  {
  }

  /** The order of the fields, most significant first. */
  predicate Earlier(a: Civil, b: Civil) {
    if a.year != b.year then a.year < b.year
    else if a.month != b.month then a.month < b.month
    else if a.day != b.day then a.day < b.day
    else if a.hour != b.hour then a.hour < b.hour
    else if a.minute != b.minute then a.minute < b.minute
    else a.second < b.second
  }

  lemma {:induction false} YearsGrow(y: nat, y': nat)
    requires y < y'
    ensures DaysBeforeYear(y) + DaysInYear(y) <= DaysBeforeYear(y')
  {
    if y + 1 < y' { YearsGrow(y, y' - 1); }
  }

  lemma {:induction false} MonthsGrow(year: nat, m: nat, m': nat)
    requires 1 <= m < m' <= 13
    ensures DaysBeforeMonth(year, m) + DaysInMonth(year, m) <= DaysBeforeMonth(year, m')
  {
    if m + 1 < m' { MonthsGrow(year, m, m' - 1); }
  }

  lemma YearIsItsMonths(year: nat)
    ensures DaysBeforeMonth(year, 13) == DaysInYear(year)
  {
    assert DaysBeforeMonth(year, 2) == 31;
    assert DaysBeforeMonth(year, 3) == 31 + DaysInMonth(year, 2);
    var march := DaysBeforeMonth(year, 3);
    assert DaysBeforeMonth(year, 4) == march + 31;
    assert DaysBeforeMonth(year, 5) == march + 61;
    assert DaysBeforeMonth(year, 6) == march + 92;
    assert DaysBeforeMonth(year, 7) == march + 122;
    assert DaysBeforeMonth(year, 8) == march + 153;
    assert DaysBeforeMonth(year, 9) == march + 184;
    assert DaysBeforeMonth(year, 10) == march + 214;
    assert DaysBeforeMonth(year, 11) == march + 245;
    assert DaysBeforeMonth(year, 12) == march + 275;
  }

  lemma EarlierDay(a: Time, b: Time)
    requires Earlier(a, b)
    ensures DayNumber(a) < DayNumber(b) ||
            (a.year == b.year && a.month == b.month && a.day == b.day)
  {
    if a.year != b.year {
      YearsGrow(a.year, b.year);
      YearIsItsMonths(a.year);
      MonthsGrow(a.year, a.month, 13);
    } else if a.month != b.month {
      MonthsGrow(a.year, a.month, b.month);
    }
  }

  /** The order of the fields is the order of the times. */
  lemma EarlierIsBefore(a: Time, b: Time)
    ensures Earlier(a, b) <==> Seconds(a) < Seconds(b)
    ensures a == b <==> Seconds(a) == Seconds(b)
  {
    if Earlier(a, b) {
      EarlierDay(a, b);
    } else if a != b {
      assert Earlier(b, a);
      EarlierDay(b, a);
    }
  }

  // ---------- the string ----------

  function Digit(n: nat): char
    requires n < 10
  {
    ('0' as int + n) as char
  }

  function Two(n: nat): string
    requires n < 100
  {
    [Digit(n / 10), Digit(n % 10)]
  }

  function Four(n: nat): string
    requires n < 10000
  {
    Two(n / 100) + Two(n % 100)
  }

  /** t.UTC().Format(time.RFC3339) */
  function Format(c: Time): string
  {
    Four(c.year) + "-" + Two(c.month) + "-" + Two(c.day) + "T" +
    Two(c.hour) + ":" + Two(c.minute) + ":" + Two(c.second) + "Z"
  }

  /** The number that decimal digits spell. */
  function Number(digits: string): int {
    if digits == "" then 0
    else Number(digits[..|digits| - 1]) * 10 + (digits[|digits| - 1] as int - '0' as int)
  }

  lemma TwoDigits(n: nat)
    requires n < 100
    ensures |Two(n)| == 2 && Number(Two(n)) == n
  {
    var s := Two(n);
    assert s[..1] == [s[0]] && [s[0]][..0] == "";
    assert Number([s[0]]) == s[0] as int - '0' as int;
    assert Number(s) == Number(s[..1]) * 10 + (s[1] as int - '0' as int);
  }

  lemma FourDigits(n: nat)
    requires n < 10000
    ensures |Four(n)| == 4 && Number(Four(n)) == n
  {
    var s, a, b := Four(n), Two(n / 100), Two(n % 100);
    TwoDigits(n / 100);
    assert s[..3] == a + [b[0]] && s[..3][..2] == a;
    assert Number(s[..3]) == Number(a) * 10 + (b[0] as int - '0' as int);
    assert Number(s) == Number(s[..3]) * 10 + (b[1] as int - '0' as int);
  }

  /** "2006-01-02T15:04:05Z": each field stands in its place, in decimal. */
  lemma FormatSpellsTheTime(c: Time)
    ensures var f := Format(c);
            && |f| == 20
            && f[4] == '-' && f[7] == '-' && f[10] == 'T' && f[13] == ':' && f[16] == ':' && f[19] == 'Z'
            && Number(f[..4]) == c.year && Number(f[5..7]) == c.month && Number(f[8..10]) == c.day
            && Number(f[11..13]) == c.hour && Number(f[14..16]) == c.minute && Number(f[17..19]) == c.second
  {
    FourDigits(c.year);
    TwoDigits(c.month);
    TwoDigits(c.day);
    TwoDigits(c.hour);
    TwoDigits(c.minute);
    TwoDigits(c.second);
    Places(Four(c.year), Two(c.month), Two(c.day), Two(c.hour), Two(c.minute), Two(c.second));
  }

  lemma Places(y: string, m: string, d: string, h: string, min: string, s: string)
    requires |y| == 4 && |m| == 2 && |d| == 2 && |h| == 2 && |min| == 2 && |s| == 2
    ensures var f := y + "-" + m + "-" + d + "T" + h + ":" + min + ":" + s + "Z";
            && |f| == 20
            && f[4] == '-' && f[7] == '-' && f[10] == 'T' && f[13] == ':' && f[16] == ':' && f[19] == 'Z'
            && f[..4] == y && f[5..7] == m && f[8..10] == d && f[11..13] == h && f[14..16] == min && f[17..19] == s
  {
    var f := y + "-" + m + "-" + d + "T" + h + ":" + min + ":" + s + "Z";
    assert f[5] == m[0] && f[6] == m[1] && f[8] == d[0] && f[9] == d[1];
    assert f[11] == h[0] && f[12] == h[1] && f[14] == min[0] && f[15] == min[1] && f[17] == s[0] && f[18] == s[1];
  }

  lemma CharOrder(c: char, x: string, d: char, y: string)
    ensures Less([c] + x, [d] + y) <==> c < d || (c == d && Less(x, y))
  {
    assert ([c] + x)[1..] == x && ([d] + y)[1..] == y;
  }

  lemma TwoOrder(m: nat, x: string, n: nat, y: string)
    requires m < 100 && n < 100
    ensures Less(Two(m) + x, Two(n) + y) <==> m < n || (m == n && Less(x, y))
  {
    var m1, m0, n1, n0 := Digit(m / 10), Digit(m % 10), Digit(n / 10), Digit(n % 10);
    assert Two(m) + x == [m1] + ([m0] + x) && Two(n) + y == [n1] + ([n0] + y);
    CharOrder(m1, [m0] + x, n1, [n0] + y);
    CharOrder(m0, x, n0, y);
  }

  lemma FourOrder(m: nat, x: string, n: nat, y: string)
    requires m < 10000 && n < 10000
    ensures Less(Four(m) + x, Four(n) + y) <==> m < n || (m == n && Less(x, y))
  {
    assert Four(m) + x == Two(m / 100) + (Two(m % 100) + x);
    assert Four(n) + y == Two(n / 100) + (Two(n % 100) + y);
    TwoOrder(m / 100, Two(m % 100) + x, n / 100, Two(n % 100) + y);
    TwoOrder(m % 100, x, n % 100, y);
  }

  /** The rest of the format after the year, field by field. */
  function Clock(c: Time): string
  {
    ['T'] + (Two(c.hour) + ([':'] + (Two(c.minute) + ([':'] + (Two(c.second) + ['Z'])))))
  }

  function Date(c: Time): string
  {
    ['-'] + (Two(c.month) + (['-'] + (Two(c.day) + Clock(c))))
  }

  lemma ClockOrder(a: Time, b: Time)
    ensures Less(Clock(a), Clock(b)) <==>
            if a.hour != b.hour then a.hour < b.hour
            else if a.minute != b.minute then a.minute < b.minute
            else a.second < b.second
  {
    var sa, sb := Two(a.second) + ['Z'], Two(b.second) + ['Z'];
    TwoOrder(a.second, ['Z'], b.second, ['Z']);
    CharOrder('Z', [], 'Z', []);
    var ma, mb := Two(a.minute) + ([':'] + sa), Two(b.minute) + ([':'] + sb);
    TwoOrder(a.minute, [':'] + sa, b.minute, [':'] + sb);
    CharOrder(':', sa, ':', sb);
    TwoOrder(a.hour, [':'] + ma, b.hour, [':'] + mb);
    CharOrder(':', ma, ':', mb);
    CharOrder('T', Two(a.hour) + ([':'] + ma), 'T', Two(b.hour) + ([':'] + mb));
  }

  lemma DateOrder(a: Time, b: Time)
    ensures Less(Date(a), Date(b)) <==>
            if a.month != b.month then a.month < b.month
            else if a.day != b.day then a.day < b.day
            else Less(Clock(a), Clock(b))
  {
    var da, db := Two(a.day) + Clock(a), Two(b.day) + Clock(b);
    TwoOrder(a.day, Clock(a), b.day, Clock(b));
    CharOrder('-', da, '-', db);
    TwoOrder(a.month, ['-'] + da, b.month, ['-'] + db);
    CharOrder('-', Two(a.month) + (['-'] + da), '-', Two(b.month) + (['-'] + db));
  }

  lemma FormatParts(c: Time)
    ensures Format(c) == Four(c.year) + Date(c)
  {
  }

  lemma FormatOrder(a: Time, b: Time)
    ensures Less(Format(a), Format(b)) <==> Earlier(a, b)
  {
    FormatParts(a);
    FormatParts(b);
    FourOrder(a.year, Date(a), b.year, Date(b));
    DateOrder(a, b);
    ClockOrder(a, b);
  }

  /** Comparing the strings compares the times, to the second. */
  lemma StringOrderIsTimeOrder(a: Time, b: Time)
    ensures Less(Format(a), Format(b)) <==> Seconds(a) < Seconds(b)
    ensures Format(a) == Format(b) <==> Seconds(a) == Seconds(b)
  {
    FormatOrder(a, b);
    FormatOrder(b, a);
    EarlierIsBefore(a, b);
    EarlierIsBefore(b, a);
    LessIsTotal(Format(a), Format(b));
  }
}
