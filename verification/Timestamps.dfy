/** The UTC time stamps the session registry stores and compares as text (challenge/gateway_state.py,
    `_timestamp` and `_parse_timestamp`).

    A stamp is an ISO date and time with a "+00:00" zone, and with six digits of fraction unless the
    fraction is zero, when it is left out.  Stamps therefore differ in length, which the sortability of
    section 5.1 of RFC 3339 does not cover; text order is time order all the same.

    `Micros` is the time of a moment on one scale, `Stamp` its text, `Less` the order in which the database
    compares texts.  Dates are the proleptic Gregorian calendar's, years one to 9999.

    First the order of texts is reduced to the order of the fields, then that to the order of times; what
    the registry's queries select follows, and reading a stamp back comes last.
 */
module Timestamps {
  import opened Options

  // A UTC date and time, to the microsecond.
  datatype Moment = Moment(year: nat, month: nat, day: nat, hour: nat, minute: nat, second: nat, micro: nat)

  predicate IsLeap(year: nat) { year % 4 == 0 && (year % 100 != 0 || year % 400 == 0) }

  function MonthDays(year: nat, month: nat): nat {
    if month == 2 then (if IsLeap(year) then 29 else 28)
    else if month == 4 || month == 6 || month == 9 || month == 11 then 30
    else 31
  }

  predicate Valid(m: Moment) {
    && 1 <= m.year <= 9999 && 1 <= m.month <= 12 && 1 <= m.day <= MonthDays(m.year, m.month)
    && m.hour < 24 && m.minute < 60 && m.second < 60 && m.micro < 1_000_000
  }

  // ---- Time -----------------------------------------------------------------------------

  // Days before January 1st of the year, in the proleptic Gregorian calendar.
  function DaysBeforeYear(year: nat): int
    requires year >= 1
  {
    var y := year - 1;
    365 * y + y / 4 - y / 100 + y / 400
  }

  function DaysBeforeMonth(year: nat, month: nat): nat
    requires 1 <= month <= 12
  {
    if month == 1 then 0 else DaysBeforeMonth(year, month - 1) + MonthDays(year, month - 1)
  }

  function Ordinal(m: Moment): int
    requires Valid(m)
  {
    DaysBeforeYear(m.year) + DaysBeforeMonth(m.year, m.month) + m.day
  }

  // Microseconds since the calendar's beginning.
  function Micros(m: Moment): int
    requires Valid(m)
  {
    (((Ordinal(m) * 24 + m.hour) * 60 + m.minute) * 60 + m.second) * 1_000_000 + m.micro
  }

  // ---- Text -----------------------------------------------------------------------------

  function Digit(n: nat): char
    requires n < 10
  {
    '0' + n as char
  }

  function Digits(n: nat, k: nat): (s: string)
    ensures |s| == k
  {
    if k == 0 then "" else Digits(n / 10, k - 1) + [Digit(n % 10)]
  }

  function Zone(micro: nat): string { (if micro == 0 then "" else "." + Digits(micro, 6)) + "+00:00" }

  function FromSecond(m: Moment): string { Digits(m.second, 2) + Zone(m.micro) }
  function FromMinute(m: Moment): string { Digits(m.minute, 2) + (":" + FromSecond(m)) }
  function FromHour(m: Moment): string { Digits(m.hour, 2) + (":" + FromMinute(m)) }
  function FromDay(m: Moment): string { Digits(m.day, 2) + ("T" + FromHour(m)) }
  function FromMonth(m: Moment): string { Digits(m.month, 2) + ("-" + FromDay(m)) }

  // YYYY-MM-DDTHH:MM:SS[.ffffff]+00:00
  function Stamp(m: Moment): string { Digits(m.year, 4) + ("-" + FromMonth(m)) }

  // Text order, as SQL compares stored stamps.
  predicate Less(a: string, b: string) {
    if b == "" then false
    else if a == "" then true
    else a[0] < b[0] || (a[0] == b[0] && Less(a[1..], b[1..]))
  }

  // ---- Text order is field order --------------------------------------------------------

  lemma {:induction false} CommonPrefix(p: string, a: string, b: string)
    ensures Less(p + a, p + b) <==> Less(a, b)
  {
    if p == "" {
      assert p + a == a && p + b == b;
    } else {
      assert (p + a)[1..] == p[1..] + a && (p + b)[1..] == p[1..] + b;
      CommonPrefix(p[1..], a, b);
    }
  }

  function Power10(k: nat): nat { if k == 0 then 1 else 10 * Power10(k - 1) }

  lemma {:induction false} DigitsInjective(m: nat, n: nat, k: nat)
    requires m < Power10(k) && n < Power10(k) && Digits(m, k) == Digits(n, k)
    ensures m == n
  {
    if k > 0 {
      var a, b := Digits(m, k), Digits(n, k);
      assert a[k - 1] == Digit(m % 10) && b[k - 1] == Digit(n % 10);
      assert a[..k - 1] == Digits(m / 10, k - 1) && b[..k - 1] == Digits(n / 10, k - 1);
      DigitsInjective(m / 10, n / 10, k - 1);
    }
  }

  lemma {:induction false} FirstDifference(p: string, q: string, a: string, b: string)
    requires |p| == |q| && p != q
    ensures Less(p + a, q + b) <==> Less(p, q)
  {
    assert (p + a)[1..] == p[1..] + a && (q + b)[1..] == q[1..] + b;
    if p[0] == q[0] {
      assert p == [p[0]] + p[1..] && q == [q[0]] + q[1..];
      FirstDifference(p[1..], q[1..], a, b);
    }
  }

  lemma {:induction false} DigitsOrder(m: nat, n: nat, k: nat)
    requires m < Power10(k) && n < Power10(k)
    ensures Less(Digits(m, k), Digits(n, k)) <==> m < n
  {
    if k > 0 {
      var p, q := Digits(m / 10, k - 1), Digits(n / 10, k - 1);
      if m / 10 == n / 10 {
        CommonPrefix(p, [Digit(m % 10)], [Digit(n % 10)]);
      } else {
        if p == q { DigitsInjective(m / 10, n / 10, k - 1); }
        FirstDifference(p, q, [Digit(m % 10)], [Digit(n % 10)]);
        DigitsOrder(m / 10, n / 10, k - 1);
      }
    }
  }

  // A fixed-width field decides, and when it does not, what follows it does.
  lemma FieldOrder(m: nat, n: nat, k: nat, a: string, b: string)
    requires m < Power10(k) && n < Power10(k)
    ensures Less(Digits(m, k) + a, Digits(n, k) + b) <==> m < n || (m == n && Less(a, b))
  {
    if m == n {
      CommonPrefix(Digits(m, k), a, b);
    } else {
      if Digits(m, k) == Digits(n, k) { DigitsInjective(m, n, k); }
      FirstDifference(Digits(m, k), Digits(n, k), a, b);
      DigitsOrder(m, n, k);
    }
  }

  // The fraction, present or not: a stamp without one is the earliest of its second.
  lemma ZoneOrder(m: nat, n: nat)
    requires m < 1_000_000 && n < 1_000_000
    ensures Less(Zone(m), Zone(n)) <==> m < n
  {
    assert Power10(6) == 1_000_000 by { assert Power10(3) == 1000; }
    if m != 0 && n != 0 {
      assert Zone(m) == "." + (Digits(m, 6) + "+00:00") && Zone(n) == "." + (Digits(n, 6) + "+00:00");
      CommonPrefix(".", Digits(m, 6) + "+00:00", Digits(n, 6) + "+00:00");
      FieldOrder(m, n, 6, "+00:00", "+00:00");
      Irreflexive("+00:00");
    } else if m == 0 && n == 0 {
      Irreflexive(Zone(0));
    } else {
      assert Zone(0)[0] == '+';
      assert m != 0 ==> Zone(m)[0] == '.';
      assert n != 0 ==> Zone(n)[0] == '.';
    }
  }

  lemma {:induction false} Irreflexive(s: string)
    ensures !Less(s, s)
  {
    if s != "" { Irreflexive(s[1..]); }
  }

  // The same with a separator after the field.
  lemma SeparatedOrder(m: nat, n: nat, k: nat, separator: string, a: string, b: string)
    requires m < Power10(k) && n < Power10(k)
    ensures Less(Digits(m, k) + (separator + a), Digits(n, k) + (separator + b)) <==> m < n || (m == n && Less(a, b))
  {
    FieldOrder(m, n, k, separator + a, separator + b);
    CommonPrefix(separator, a, b);
  }

  predicate ClockLess(a: Moment, b: Moment) {
    || a.hour < b.hour
    || (a.hour == b.hour && a.minute < b.minute)
    || (a.hour == b.hour && a.minute == b.minute && a.second < b.second)
    || (a.hour == b.hour && a.minute == b.minute && a.second == b.second && a.micro < b.micro)
  }

  predicate DateLess(a: Moment, b: Moment) {
    || a.year < b.year
    || (a.year == b.year && a.month < b.month)
    || (a.year == b.year && a.month == b.month && a.day < b.day)
  }

  predicate SameDate(a: Moment, b: Moment) { a.year == b.year && a.month == b.month && a.day == b.day }

  lemma ClockTextOrder(a: Moment, b: Moment)
    requires Valid(a) && Valid(b)
    ensures Less(FromHour(a), FromHour(b)) <==> ClockLess(a, b)
  {
    assert Power10(2) == 100;
    ZoneOrder(a.micro, b.micro);
    FieldOrder(a.second, b.second, 2, Zone(a.micro), Zone(b.micro));
    SeparatedOrder(a.minute, b.minute, 2, ":", FromSecond(a), FromSecond(b));
    SeparatedOrder(a.hour, b.hour, 2, ":", FromMinute(a), FromMinute(b));
  }

  lemma StampTextOrder(a: Moment, b: Moment)
    requires Valid(a) && Valid(b)
    ensures Less(Stamp(a), Stamp(b)) <==> DateLess(a, b) || (SameDate(a, b) && ClockLess(a, b))
  {
    assert Power10(2) == 100;
    assert Power10(4) == 10000;
    ClockTextOrder(a, b);
    SeparatedOrder(a.day, b.day, 2, "T", FromHour(a), FromHour(b));
    SeparatedOrder(a.month, b.month, 2, "-", FromDay(a), FromDay(b));
    SeparatedOrder(a.year, b.year, 4, "-", FromMonth(a), FromMonth(b));
  }

  // ---- Field order is time order --------------------------------------------------------

  lemma Quotients(y: nat)
    ensures (y + 1) / 4 == y / 4 + if (y + 1) % 4 == 0 then 1 else 0
    ensures (y + 1) / 100 == y / 100 + if (y + 1) % 100 == 0 then 1 else 0
    ensures (y + 1) / 400 == y / 400 + if (y + 1) % 400 == 0 then 1 else 0
  {
  }

  lemma Multiples(y: nat)
    ensures y % 400 == 0 ==> y % 100 == 0
    ensures y % 100 == 0 ==> y % 4 == 0
  {
    if y % 100 == 0 { assert y == 4 * (25 * (y / 100)); }
    if y % 400 == 0 { assert y == 100 * (4 * (y / 400)); }
  }

  lemma YearLength(year: nat)
    requires year >= 1
    ensures DaysBeforeYear(year + 1) == DaysBeforeYear(year) + if IsLeap(year) then 366 else 365
  {
    Quotients(year - 1);
    Multiples(year);
  }

  lemma {:induction false} YearsGrow(a: nat, b: nat)
    requires 1 <= a < b
    ensures DaysBeforeYear(a) + (if IsLeap(a) then 366 else 365) <= DaysBeforeYear(b)
    decreases b - a
  {
    YearLength(a);
    if a + 1 < b {
      YearLength(b - 1);
      YearsGrow(a, b - 1);
    }
  }

  lemma {:induction false} MonthsGrow(year: nat, m: nat, n: nat)
    requires 1 <= m < n <= 12
    ensures DaysBeforeMonth(year, m) + MonthDays(year, m) <= DaysBeforeMonth(year, n)
    decreases n - m
  {
    if m + 1 < n { MonthsGrow(year, m, n - 1); }
  }

  lemma WholeYear(year: nat)
    ensures DaysBeforeMonth(year, 12) + 31 == if IsLeap(year) then 366 else 365
  {
    var february := MonthDays(year, 2);
    assert DaysBeforeMonth(year, 2) == 31;
    assert DaysBeforeMonth(year, 4) == 62 + february;
    assert DaysBeforeMonth(year, 6) == 123 + february;
    assert DaysBeforeMonth(year, 8) == 184 + february;
    assert DaysBeforeMonth(year, 10) == 245 + february;
  }

  lemma DayInYear(m: Moment)
    requires Valid(m)
    ensures 1 <= DaysBeforeMonth(m.year, m.month) + m.day <= if IsLeap(m.year) then 366 else 365
  {
    WholeYear(m.year);
    if m.month < 12 { MonthsGrow(m.year, m.month, 12); }
  }

  lemma DateGrows(a: Moment, b: Moment)
    requires Valid(a) && Valid(b) && DateLess(a, b)
    ensures Ordinal(a) < Ordinal(b)
  {
    if a.year < b.year {
      YearsGrow(a.year, b.year);
      DayInYear(a);
      DayInYear(b);
    } else if a.month < b.month {
      MonthsGrow(a.year, a.month, b.month);
    }
  }

  function ClockMicros(m: Moment): int { ((m.hour * 60 + m.minute) * 60 + m.second) * 1_000_000 + m.micro }

  lemma ClockGrows(a: Moment, b: Moment)
    requires Valid(a) && Valid(b)
    ensures ClockLess(a, b) <==> ClockMicros(a) < ClockMicros(b)
    ensures 0 <= ClockMicros(a) < 86_400_000_000 && Micros(a) == Ordinal(a) * 86_400_000_000 + ClockMicros(a)
  {
  }

  lemma TimeOrder(a: Moment, b: Moment)
    requires Valid(a) && Valid(b)
    ensures Micros(a) < Micros(b) <==> DateLess(a, b) || (SameDate(a, b) && ClockLess(a, b))
  {
    ClockGrows(a, b);
    ClockGrows(b, a);
    if DateLess(a, b) { DateGrows(a, b); }
    if DateLess(b, a) { DateGrows(b, a); }
  }

  /** Stored stamps compare as text exactly as their moments do in time, whether or not either has a
      fraction. */
  lemma TextOrderIsTimeOrder(a: Moment, b: Moment)
    requires Valid(a) && Valid(b)
    ensures Less(Stamp(a), Stamp(b)) <==> Micros(a) < Micros(b)
  {
    StampTextOrder(a, b);
    TimeOrder(a, b);
  }

  // ---- The comparisons in SQL -----------------------------------------------------------

  predicate AtMost(a: string, b: string) { !Less(b, a) }

  /** The expiry and window comparisons select exactly the rows at or before the cutoff. */
  lemma SqlSelectsByTime(stored: Moment, cutoff: Moment)
    requires Valid(stored) && Valid(cutoff)
    ensures AtMost(Stamp(stored), Stamp(cutoff)) <==> Micros(stored) <= Micros(cutoff)
  {
    TextOrderIsTimeOrder(cutoff, stored);
  }

  /** Rows ordered by stamp are ordered by time, so the first is the oldest. */
  lemma FirstRowIsTheOldest(rows: seq<Moment>, i: nat)
    requires i < |rows| && forall j :: 0 <= j < |rows| ==> Valid(rows[j])
    requires forall j, k :: 0 <= j < k < |rows| ==> AtMost(Stamp(rows[j]), Stamp(rows[k]))
    ensures Micros(rows[0]) <= Micros(rows[i])
  {
    if i > 0 {
      assert AtMost(Stamp(rows[0]), Stamp(rows[i]));
      SqlSelectsByTime(rows[0], rows[i]);
    }
  }

  /** A stamp stands for one moment: equal texts are equal times, field by field. */
  lemma StampsAreFaithful(a: Moment, b: Moment)
    requires Valid(a) && Valid(b)
    ensures Stamp(a) == Stamp(b) <==> a == b
    ensures Micros(a) == Micros(b) <==> a == b
  {
    if Stamp(a) == Stamp(b) || Micros(a) == Micros(b) {
      if Stamp(a) == Stamp(b) { Irreflexive(Stamp(a)); }
      TextOrderIsTimeOrder(a, b);
      TextOrderIsTimeOrder(b, a);
      TimeOrder(a, b);
      TimeOrder(b, a);
    }
  }

  // ---- Reading a stamp back -------------------------------------------------------------

  function Number(s: string): Option<nat> {
    if s == "" then Some(0)
    else if !('0' <= s[|s| - 1] <= '9') then None
    else
      var front := Number(s[..|s| - 1]);
      if front.None? then None else Some(10 * front.value + (s[|s| - 1] as nat - '0' as nat))
  }

  function Field(s: string, from: nat, to: nat): Option<nat>
    requires from <= to <= |s|
  {
    Number(s[from..to])
  }

  // The moment of a stamp in the stored form; None for any other text.
  function Parse(s: string): Option<Moment> {
    if |s| != 25 && |s| != 32 then None
    else if s[4] != '-' || s[7] != '-' || s[10] != 'T' || s[13] != ':' || s[16] != ':' || s[|s| - 6..] != "+00:00" then None
    else if |s| == 32 && s[19] != '.' then None
    else
      var y, mo, d := Field(s, 0, 4), Field(s, 5, 7), Field(s, 8, 10);
      var h, mi, sec := Field(s, 11, 13), Field(s, 14, 16), Field(s, 17, 19);
      var us := if |s| == 32 then Field(s, 20, 26) else Some(0);
      if y.None? || mo.None? || d.None? || h.None? || mi.None? || sec.None? || us.None? then None
      else Some(Moment(y.value, mo.value, d.value, h.value, mi.value, sec.value, us.value))
  }

  lemma {:induction false} NumberOfDigits(n: nat, k: nat)
    requires n < Power10(k)
    ensures Number(Digits(n, k)) == Some(n)
  {
    if k > 0 {
      NumberOfDigits(n / 10, k - 1);
      assert Digits(n, k)[..k - 1] == Digits(n / 10, k - 1);
    }
  }

  // A fixed-width field, a separator of one character, and the rest.
  lemma FieldSlices(s: string, n: nat, k: nat, separator: string, rest: string)
    requires |separator| == 1 && s == Digits(n, k) + (separator + rest)
    ensures |s| == k + 1 + |rest| && s[..k] == Digits(n, k) && s[k] == separator[0] && s[k + 1..] == rest
  {
  }

  lemma ClockSlices(m: Moment)
    requires Valid(m)
    ensures var s := FromHour(m);
      && |s| == 8 + |Zone(m.micro)| && s[..2] == Digits(m.hour, 2) && s[3..5] == Digits(m.minute, 2)
      && s[6..8] == Digits(m.second, 2) && s[2] == ':' && s[5] == ':' && s[8..] == Zone(m.micro)
  {
    FieldSlices(FromHour(m), m.hour, 2, ":", FromMinute(m));
    FieldSlices(FromMinute(m), m.minute, 2, ":", FromSecond(m));
    var s := FromHour(m);
    assert s[3..5] == s[3..][..2] && s[6..8] == s[3..][3..][..2] && s[8..] == s[3..][3..][2..];
    assert s[5] == s[3..][2];
  }

  // The text of a stamp, slice by slice.
  lemma StampSlices(m: Moment)
    requires Valid(m)
    ensures var s := Stamp(m);
      && |s| == 19 + |Zone(m.micro)|
      && s[..4] == Digits(m.year, 4) && s[5..7] == Digits(m.month, 2) && s[8..10] == Digits(m.day, 2)
      && s[4] == '-' && s[7] == '-' && s[10] == 'T' && s[11..] == FromHour(m)
  {
    FieldSlices(Stamp(m), m.year, 4, "-", FromMonth(m));
    FieldSlices(FromMonth(m), m.month, 2, "-", FromDay(m));
    FieldSlices(FromDay(m), m.day, 2, "T", FromHour(m));
    ClockSlices(m);
    var s := Stamp(m);
    assert s[5..7] == s[5..][..2] && s[8..10] == s[5..][3..][..2] && s[11..] == s[5..][3..][3..];
    assert s[7] == s[5..][2] && s[10] == s[5..][3..][2];
  }

  lemma DateFields(m: Moment)
    requires Valid(m)
    ensures var s := Stamp(m);
      && |s| == 19 + |Zone(m.micro)|
      && Field(s, 0, 4) == Some(m.year) && Field(s, 5, 7) == Some(m.month) && Field(s, 8, 10) == Some(m.day)
  {
    StampSlices(m);
    assert Stamp(m)[0..4] == Stamp(m)[..4];
    assert Power10(2) == 100;
    assert Power10(4) == 10000;
    NumberOfDigits(m.year, 4);
    NumberOfDigits(m.month, 2);
    NumberOfDigits(m.day, 2);
  }

  lemma ClockFields(m: Moment, s: string)
    requires Valid(m) && |s| == 19 + |Zone(m.micro)| && s[11..] == FromHour(m)
    ensures Field(s, 11, 13) == Some(m.hour) && Field(s, 14, 16) == Some(m.minute) && Field(s, 17, 19) == Some(m.second)
    ensures s[13] == ':' && s[16] == ':' && s[19..] == Zone(m.micro)
  {
    ClockSlices(m);
    var clock := s[11..];
    assert s[11..13] == clock[..2] && s[14..16] == clock[3..5] && s[17..19] == clock[6..8] && s[19..] == clock[8..];
    assert s[13] == clock[2] && s[16] == clock[5];
    assert Power10(2) == 100;
    NumberOfDigits(m.hour, 2);
    NumberOfDigits(m.minute, 2);
    NumberOfDigits(m.second, 2);
  }

  /** Reading back what was stored gives the moment that was stored. */
  lemma ParseInverts(m: Moment)
    requires Valid(m)
    ensures Parse(Stamp(m)) == Some(m)
  {
    var s := Stamp(m);
    StampSlices(m);
    DateFields(m);
    ClockFields(m, s);
    FractionSlices(m, s);
  }

  lemma FractionSlices(m: Moment, s: string)
    requires Valid(m) && |s| == 19 + |Zone(m.micro)| && s[19..] == Zone(m.micro)
    ensures |s| == (if m.micro == 0 then 25 else 32) && s[|s| - 6..] == "+00:00"
    ensures m.micro != 0 ==> s[19] == '.' && Number(s[20..26]) == Some(m.micro)
  {
    assert s[|s| - 6..] == s[19..][|s| - 25..];
    if m.micro != 0 {
      assert Power10(6) == 1_000_000 by { assert Power10(3) == 1000; }
      NumberOfDigits(m.micro, 6);
      assert s[19] == s[19..][0];
      assert s[20..26] == s[19..][1..7] == Digits(m.micro, 6);
    }
  }
}
