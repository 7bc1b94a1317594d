/**
 Timestamps as `now_rfc3339` prints them (section 5.6 of RFC 3339, UTC, milliseconds, four-digit
 years), and why the code may compare them as strings (section 5.1 of RFC 3339).
 */
module Timestamps {
  import opened Text

  datatype Instant = Instant(year: nat, month: nat, day: nat, hour: nat, minute: nat, second: nat, millis: nat) {
    predicate Valid() {
      && year <= 9999 && 1 <= month <= 12 && 1 <= day <= DaysInMonth(year, month)
      && hour < 24 && minute < 60 && second < 60 && millis < 1000
    }
  }

  predicate IsLeap(y: nat) {
    y % 4 == 0 && (y % 100 != 0 || y % 400 == 0)
  }

  function DaysInMonth(y: nat, m: nat): nat
    requires 1 <= m <= 12
  {
    if m == 2 then (if IsLeap(y) then 29 else 28)
    else if m == 4 || m == 6 || m == 9 || m == 11 then 30
    else 31
  }

  function DaysBeforeMonth(y: nat, m: nat): nat
    requires 1 <= m <= 13
  {
    if m == 1 then 0 else DaysBeforeMonth(y, m - 1) + DaysInMonth(y, m - 1)
  }

  function DaysBeforeYear(y: nat): nat {
    if y == 0 then 0 else DaysBeforeYear(y - 1) + DaysBeforeMonth(y - 1, 13)
  }

  function DayNumber(t: Instant): nat
    requires t.Valid()
  {
    DaysBeforeYear(t.year) + DaysBeforeMonth(t.year, t.month) + (t.day - 1)
  }

  /** Milliseconds since the start of year 0: the time order. */
  function Millis(t: Instant): nat
    requires t.Valid()
  {
    (((DayNumber(t) * 24 + t.hour) * 60 + t.minute) * 60 + t.second) * 1000 + t.millis
  }

  function Digit(n: nat): char
    requires n < 10
  {
    ('0' as int + n) as char
  }

  function Two(n: nat): string
    requires n < 100
  {
    [Digit(n / 10), Digit(n % 10)]
  }

  function Three(n: nat): string
    requires n < 1000
  {
    [Digit(n / 100)] + Two(n % 100)
  }

  function Four(n: nat): string
    requires n < 10000
  {
    Two(n / 100) + Two(n % 100)
  }

  function Date(t: Instant): string
    requires t.Valid()
  {
    Four(t.year) + ("-" + (Two(t.month) + ("-" + Two(t.day))))
  }

  function Time(t: Instant): string
    requires t.Valid()
  {
    Two(t.hour) + (":" + (Two(t.minute) + (":" + (Two(t.second) + ("." + (Three(t.millis) + "Z"))))))
  }

  function Format(t: Instant): string
    requires t.Valid()
  {
    Date(t) + ("T" + Time(t))
  }

  lemma TwoOrder(m: nat, n: nat)
    requires m < 100 && n < 100
    ensures Less(Two(m), Two(n)) <==> m < n
    ensures Two(m) == Two(n) <==> m == n
  {
    assert m == 10 * (m / 10) + m % 10 && n == 10 * (n / 10) + n % 10;
    var a, b := Two(m), Two(n);
    assert a[1..] == [Digit(m % 10)] && b[1..] == [Digit(n % 10)];
    assert Less(a[1..], b[1..]) <==> m % 10 < n % 10 by {
      assert a[1..][1..] == [] && b[1..][1..] == [];
    }
    assert Two(m) == Two(n) ==> a[0] == b[0] && a[1] == b[1];
  }

  lemma ThreeOrder(m: nat, n: nat)
    requires m < 1000 && n < 1000
    ensures Less(Three(m), Three(n)) <==> m < n
    ensures Three(m) == Three(n) <==> m == n
  {
    var p, q := [Digit(m / 100)], [Digit(n / 100)];
    LessOfConcat(p, q, Two(m % 100), Two(n % 100));
    TwoOrder(m % 100, n % 100);
    assert Less(p, q) <==> m / 100 < n / 100 by {
      assert p[1..] == [] && q[1..] == [];
    }
    assert Three(m)[0] == p[0] && Three(n)[0] == q[0];
    assert Three(m)[1..] == Two(m % 100) && Three(n)[1..] == Two(n % 100);
  }

  lemma FourOrder(m: nat, n: nat)
    requires m < 10000 && n < 10000
    ensures Less(Four(m), Four(n)) <==> m < n
    ensures Four(m) == Four(n) <==> m == n
  {
    LessOfConcat(Two(m / 100), Two(n / 100), Two(m % 100), Two(n % 100));
    TwoOrder(m / 100, n / 100);
    TwoOrder(m % 100, n % 100);
    assert Four(m)[..2] == Two(m / 100) && Four(n)[..2] == Two(n / 100);
    assert Four(m)[2..] == Two(m % 100) && Four(n)[2..] == Two(n % 100);
  }

  /** A fixed separator character between two parts does not affect the comparison. */
  lemma SeparatorOrder(c: char, s: string, t: string)
    ensures Less([c] + s, [c] + t) <==> Less(s, t)
    ensures [c] + s == [c] + t <==> s == t
  {
    assert ([c] + s)[1..] == s && ([c] + t)[1..] == t;
  }

  lemma {:induction false} FieldOrder(p: string, q: string, c: char, s: string, t: string)
    requires |p| == |q|
    ensures Less(p + ([c] + s), q + ([c] + t)) <==> Less(p, q) || (p == q && Less(s, t))
    ensures p + ([c] + s) == q + ([c] + t) <==> p == q && s == t
  {
    LessOfConcat(p, q, [c] + s, [c] + t);
    SeparatorOrder(c, s, t);
    assert (p + ([c] + s))[..|p|] == p && (q + ([c] + t))[..|p|] == q;
    assert (p + ([c] + s))[|p|..] == [c] + s && (q + ([c] + t))[|p|..] == [c] + t;
  }

  /** Days before month `m` grow with `m` by at least one whole month. */
  lemma {:induction false} MonthsGrow(y: nat, m: nat, n: nat)
    requires 1 <= m < n <= 13
    ensures DaysBeforeMonth(y, m) + DaysInMonth(y, m) <= DaysBeforeMonth(y, n)
  {
    if m == n - 1 {
    } else {
      MonthsGrow(y, m, n - 1);
    }
  }

  lemma {:induction false} YearsGrow(y: nat, z: nat)
    requires y < z
    ensures DaysBeforeYear(y) + DaysBeforeMonth(y, 13) <= DaysBeforeYear(z)
  {
    if y == z - 1 {
    } else {
      YearsGrow(y, z - 1);
    }
  }

  lemma DayOfYearFits(t: Instant)
    requires t.Valid()
    ensures DaysBeforeMonth(t.year, t.month) + (t.day - 1) < DaysBeforeMonth(t.year, 13)
  {
    MonthsGrow(t.year, t.month, 13);
  }

  predicate EarlierDate(a: Instant, b: Instant) {
    a.year < b.year || (a.year == b.year && (a.month < b.month || (a.month == b.month && a.day < b.day)))
  }

  lemma EarlierDateIsFewerDays(a: Instant, b: Instant)
    requires a.Valid() && b.Valid() && EarlierDate(a, b)
    ensures DayNumber(a) < DayNumber(b)
  {
    DayOfYearFits(a);
    if a.year < b.year {
      YearsGrow(a.year, b.year);
    } else if a.month < b.month {
      MonthsGrow(a.year, a.month, b.month);
    }
  }

  lemma DateOrder(a: Instant, b: Instant)
    requires a.Valid() && b.Valid()
    ensures Less(Date(a), Date(b)) <==> DayNumber(a) < DayNumber(b)
    ensures Date(a) == Date(b) <==> DayNumber(a) == DayNumber(b)
  {
    FieldOrder(Four(a.year), Four(b.year), '-', Two(a.month) + ("-" + Two(a.day)), Two(b.month) + ("-" + Two(b.day)));
    FieldOrder(Two(a.month), Two(b.month), '-', Two(a.day), Two(b.day));
    FourOrder(a.year, b.year);
    TwoOrder(a.month, b.month);
    TwoOrder(a.day, b.day);
    if EarlierDate(a, b) {
      EarlierDateIsFewerDays(a, b);
    } else if EarlierDate(b, a) {
      EarlierDateIsFewerDays(b, a);
    }
  }

  function MillisOfDay(t: Instant): nat {
    ((t.hour * 60 + t.minute) * 60 + t.second) * 1000 + t.millis
  }

  lemma TimeOrder(a: Instant, b: Instant)
    requires a.Valid() && b.Valid()
    ensures Less(Time(a), Time(b)) <==> MillisOfDay(a) < MillisOfDay(b)
  {
    var sa, sb := Three(a.millis) + "Z", Three(b.millis) + "Z";
    LessOfConcat(Three(a.millis), Three(b.millis), "Z", "Z");
    LessIrreflexive("Z");
    ThreeOrder(a.millis, b.millis);
    FieldOrder(Two(a.second), Two(b.second), '.', sa, sb);
    FieldOrder(Two(a.minute), Two(b.minute), ':', Two(a.second) + ("." + sa), Two(b.second) + ("." + sb));
    FieldOrder(Two(a.hour), Two(b.hour), ':',
               Two(a.minute) + (":" + (Two(a.second) + ("." + sa))),
               Two(b.minute) + (":" + (Two(b.second) + ("." + sb))));
    TwoOrder(a.hour, b.hour);
    TwoOrder(a.minute, b.minute);
    TwoOrder(a.second, b.second);
  }

  /** The strings the server compares are ordered exactly as the times they stand for. */
  lemma FormatOrder(a: Instant, b: Instant)
    requires a.Valid() && b.Valid()
    ensures Less(Format(a), Format(b)) <==> Millis(a) < Millis(b)
  {
    FieldOrder(Date(a), Date(b), 'T', Time(a), Time(b));
    DateOrder(a, b);
    TimeOrder(a, b);
    assert Millis(a) == DayNumber(a) * 86_400_000 + MillisOfDay(a);
    assert Millis(b) == DayNumber(b) * 86_400_000 + MillisOfDay(b);
    assert MillisOfDay(a) < 86_400_000 && MillisOfDay(b) < 86_400_000;
  }

  // ---- the calendar, checked ------------------------------------------------------------------------

  /** Leap days before a year: one every fourth, one less every hundredth, one more every four-hundredth. */
  function LeapsBefore(y: nat): int {
    (y + 3) / 4 - (y + 99) / 100 + (y + 399) / 400
  }

  function LeapDay(y: nat): int {
    if y % 4 == 0 && (y % 100 > 0 || y % 400 == 0) then 1 else 0
  }

  lemma Over4(x: nat, q: nat)
    requires 4 * q <= x < 4 * q + 4
    ensures x / 4 == q && x % 4 == x - 4 * q
  {
  }

  lemma Over100(x: nat, q: nat)
    requires 100 * q <= x < 100 * q + 100
    ensures x / 100 == q && x % 100 == x - 100 * q
  {
  }

  lemma Over400(x: nat, q: nat)
    requires 400 * q <= x < 400 * q + 400
    ensures x / 400 == q && x % 400 == x - 400 * q
  {
  }

  lemma LeapsGrow(y: nat)
    ensures LeapsBefore(y + 1) == LeapsBefore(y) + LeapDay(y)
  {
    var a, b, c := y / 4, y / 100, y / 400;
    Over4(y + 3, if y % 4 == 0 then a else a + 1);
    Over4(y + 4, a + 1);
    Over100(y + 99, if y % 100 == 0 then b else b + 1);
    Over100(y + 100, b + 1);
    Over400(y + 399, if y % 400 == 0 then c else c + 1);
    Over400(y + 400, c + 1);
    if y % 100 == 0 {
      Over4(y, 25 * b);
    }
    if y % 400 == 0 {
      Over100(y, 4 * c);
    }
  }

  lemma YearStep(y: nat)
    ensures DaysBeforeYear(y + 1) == DaysBeforeYear(y) + 365 + LeapDay(y)
  {
    MonthsAreGregorian(y, 13);
  }

  lemma GregorianStep(y: nat)
    requires DaysBeforeYear(y) == 365 * y + LeapsBefore(y)
    ensures DaysBeforeYear(y + 1) == 365 * (y + 1) + LeapsBefore(y + 1)
  {
    var days, leaps := DaysBeforeYear(y + 1), LeapsBefore(y + 1);
    assert days == DaysBeforeYear(y) + 365 + LeapDay(y) by {
      YearStep(y);
    }
    assert leaps == LeapsBefore(y) + LeapDay(y) by {
      LeapsGrow(y);
    }
  }

  lemma {:induction false} YearsAreGregorian(y: nat)
    ensures DaysBeforeYear(y) == 365 * y + LeapsBefore(y)
  {
    if y == 0 {
    } else {
      YearsAreGregorian(y - 1);
      GregorianStep(y - 1);
    }
  }

  /** Days before a month: thirty and a half each and more, less what February lacks. */
  lemma MonthsAreGregorian(y: nat, m: nat)
    requires 1 <= m <= 13
    ensures DaysBeforeMonth(y, m) ==
      (367 * m - 362) / 12 - (if m <= 2 then 0 else 2 - LeapDay(y))
  {
    assert DaysBeforeMonth(y, 2) == 31;
    assert DaysBeforeMonth(y, 4) == DaysBeforeMonth(y, 3) + 31;
    assert DaysBeforeMonth(y, 6) == DaysBeforeMonth(y, 5) + 31;
    assert DaysBeforeMonth(y, 8) == DaysBeforeMonth(y, 7) + 31;
    assert DaysBeforeMonth(y, 10) == DaysBeforeMonth(y, 9) + 30;
    assert DaysBeforeMonth(y, 12) == DaysBeforeMonth(y, 11) + 30;
  }

  function NextDay(t: Instant): Instant
    requires t.Valid() && !(t.year > 9998 && t.month == 12 && t.day == 31)
  {
    var day := t.(hour := 0, minute := 0, second := 0, millis := 0);
    if t.day < DaysInMonth(t.year, t.month) then day.(day := t.day + 1)
    else if t.month < 12 then day.(month := t.month + 1, day := 1)
    else day.(year := t.year + 1, month := 1, day := 1)
  }

  lemma NextDayIsNext(t: Instant)
    requires t.Valid() && !(t.year > 9998 && t.month == 12 && t.day == 31)
    ensures NextDay(t).Valid() && DayNumber(NextDay(t)) == DayNumber(t) + 1
  {
  }

  predicate IsLast(t: Instant) {
    && t.year > 9998 && t.month == 12 && t.day == 31
    && t.hour == 23 && t.minute == 59 && t.second == 59 && t.millis == 999
  }

  /** A millisecond after an instant there is another. */
  lemma Successor(t: Instant) returns (u: Instant)
    requires t.Valid() && !IsLast(t)
    ensures u.Valid() && Millis(u) == Millis(t) + 1
  {
    if t.millis < 999 {
      u := t.(millis := t.millis + 1);
    } else if t.second < 59 {
      u := t.(second := t.second + 1, millis := 0);
    } else if t.minute < 59 {
      u := t.(minute := t.minute + 1, second := 0, millis := 0);
    } else if t.hour < 23 {
      u := t.(hour := t.hour + 1, minute := 0, second := 0, millis := 0);
    } else {
      NextDayIsNext(t);
      u := NextDay(t);
    }
  }

  lemma YearEnd(t: Instant)
    requires t.Valid() && t.month == 12 && t.day == 31
    ensures DayNumber(t) == 365 * t.year + LeapsBefore(t.year) + 364 + LeapDay(t.year)
  {
    YearsAreGregorian(t.year);
    MonthsAreGregorian(t.year, t.month);
  }

  lemma LeapsTo9999(y: nat)
    requires y == 9999
    ensures 365 * y + LeapsBefore(y) + 364 + LeapDay(y) == 3_652_424
  {
  }

  lemma LastDay(t: Instant)
    requires t.Valid() && IsLast(t)
    ensures DayNumber(t) == 3_652_424
  {
    YearEnd(t);
    LeapsTo9999(t.year);
  }

  /** Every millisecond of the 3652425 days of the years 0 to 9999 is an instant: the strings miss none. */
  lemma {:induction false} EveryMillisIsAnInstant(n: nat) returns (t: Instant)
    requires n < 3_652_425 * 86_400_000
    ensures t.Valid() && Millis(t) == n
  {
    if n == 0 {
      t := Instant(0, 1, 1, 0, 0, 0, 0);
    } else {
      var s := EveryMillisIsAnInstant(n - 1);
      if IsLast(s) {
        LastDay(s);
        assert false;
      }
      t := Successor(s);
    }
  }

  function Value(s: string): int {
    if s == [] then 0 else Value(s[..|s| - 1]) * 10 + (s[|s| - 1] as int - 48)
  }

  lemma ValueOfDigit(s: string, n: nat)
    requires n < 10
    ensures Value(s + [Digit(n)]) == Value(s) * 10 + n
  {
    assert (s + [Digit(n)])[..|s|] == s;
  }

  lemma TwoReads(n: nat)
    requires n < 100
    ensures |Two(n)| == 2 && Value(Two(n)) == n
  {
    ValueOfDigit([], n / 10);
    ValueOfDigit([] + [Digit(n / 10)], n % 10);
    assert Two(n) == [] + [Digit(n / 10)] + [Digit(n % 10)];
  }

  lemma ThreeReads(n: nat)
    requires n < 1000
    ensures |Three(n)| == 3 && Value(Three(n)) == n
  {
    var a, b, c := n / 100, n % 100 / 10, n % 100 % 10;
    ValueOfDigit([], a);
    ValueOfDigit([] + [Digit(a)], b);
    ValueOfDigit([] + [Digit(a)] + [Digit(b)], c);
    assert Three(n) == [] + [Digit(a)] + [Digit(b)] + [Digit(c)];
  }

  lemma FourReads(n: nat)
    requires n < 10000
    ensures |Four(n)| == 4 && Value(Four(n)) == n
  {
    var a, b, c, d := n / 100 / 10, n / 100 % 10, n % 100 / 10, n % 100 % 10;
    ValueOfDigit([], a);
    ValueOfDigit([] + [Digit(a)], b);
    ValueOfDigit([] + [Digit(a)] + [Digit(b)], c);
    ValueOfDigit([] + [Digit(a)] + [Digit(b)] + [Digit(c)], d);
    assert Four(n) == [] + [Digit(a)] + [Digit(b)] + [Digit(c)] + [Digit(d)];
  }

  /** The string has the shape 0000-00-00T00:00:00.000Z, and each field reads back. */
  lemma FieldsReadBack(t: Instant)
    requires t.Valid()
    ensures var s := Format(t);
      && |s| == 24 && s[4] == s[7] == '-' && s[10] == 'T' && s[13] == s[16] == ':' && s[19] == '.' && s[23] == 'Z'
      && Value(s[..4]) == t.year && Value(s[5..7]) == t.month && Value(s[8..10]) == t.day
      && Value(s[11..13]) == t.hour && Value(s[14..16]) == t.minute && Value(s[17..19]) == t.second && Value(s[20..23]) == t.millis
  {
    var s := Format(t);
    FourReads(t.year);
    TwoReads(t.month);
    TwoReads(t.day);
    TwoReads(t.hour);
    TwoReads(t.minute);
    TwoReads(t.second);
    ThreeReads(t.millis);
    assert s[..4] == Four(t.year) && s[5..7] == Two(t.month) && s[8..10] == Two(t.day);
    assert s[11..13] == Two(t.hour) && s[14..16] == Two(t.minute) && s[17..19] == Two(t.second) && s[20..23] == Three(t.millis);
  }
}
