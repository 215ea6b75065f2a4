/** Civil dates (internal/ingestion/date.go), and when the order of their texts is the calendar order. */
module Calendar {
  const FIRST_YEAR: nat := 1000
  const LAST_YEAR: nat := 9999

  datatype CalendarDate = CalendarDate(year: nat, month: nat, day: nat)

  predicate IsZero(d: CalendarDate) { d.year == 0 }

  predicate IsLeap(y: nat) { y % 4 == 0 && (y % 100 != 0 || y % 400 == 0) }

  function DaysIn(y: nat, m: nat): nat {
    if m == 2 then (if IsLeap(y) then 29 else 28)
    else if m == 4 || m == 6 || m == 9 || m == 11 then 30
    else 31
  }

  /** A date of the Gregorian calendar, of any year from 1 on. */
  predicate IsCivil(d: CalendarDate) {
    d.year >= 1 && 1 <= d.month <= 12 && 1 <= d.day <= DaysIn(d.year, d.month)
  }

  /** The dates a parsed text can have: four digits of year. */
  predicate InRange(d: CalendarDate) { IsCivil(d) && d.year <= LAST_YEAR }

  function Next(d: CalendarDate): (r: CalendarDate)
    requires IsCivil(d)
    ensures IsCivil(r)
  {
    if d.day < DaysIn(d.year, d.month) then CalendarDate(d.year, d.month, d.day + 1)
    else if d.month < 12 then CalendarDate(d.year, d.month + 1, 1)
    else CalendarDate(d.year + 1, 1, 1)
  }

  function AddDays(d: CalendarDate, n: nat): (r: CalendarDate)
    requires IsCivil(d)
    ensures IsCivil(r)
    decreases n
  {
    if n == 0 then d else AddDays(Next(d), n - 1)
  }

  // ---------------------------------------------------------------------------------------------------------
  // Order
  // ---------------------------------------------------------------------------------------------------------

  predicate Before(a: CalendarDate, b: CalendarDate) {
    || a.year < b.year
    || (a.year == b.year && (a.month < b.month || (a.month == b.month && a.day < b.day)))
  }

  function DaysBeforeMonth(y: nat, m: nat): nat {
    if m <= 1 then 0 else DaysBeforeMonth(y, m - 1) + DaysIn(y, m - 1)
  }

  function DaysBeforeYear(y: nat): nat {
    if y <= 1 then 0 else DaysBeforeYear(y - 1) + DaysBeforeMonth(y - 1, 13)
  }

  /** The number of the day, counting from 1 for the first of January of year 1. */
  function Ordinal(d: CalendarDate): nat {
    DaysBeforeYear(d.year) + DaysBeforeMonth(d.year, d.month) + d.day
  }

  lemma {:induction false} MonthsGrow(y: nat, m: nat, n: nat)
    requires 1 <= m <= n
    ensures DaysBeforeMonth(y, m) <= DaysBeforeMonth(y, n)
    ensures m < n ==> DaysBeforeMonth(y, m) + DaysIn(y, m) <= DaysBeforeMonth(y, n)
  {
    if m < n { MonthsGrow(y, m, n - 1); }
  }

  lemma {:induction false} YearsGrow(y: nat, z: nat)
    requires 1 <= y <= z
    ensures DaysBeforeYear(y) <= DaysBeforeYear(z)
    ensures y < z ==> DaysBeforeYear(y) + DaysBeforeMonth(y, 13) <= DaysBeforeYear(z)
  {
    if y < z { YearsGrow(y, z - 1); }
  }

  lemma BeforeIsOrdinal(a: CalendarDate, b: CalendarDate)
    requires IsCivil(a) && IsCivil(b)
    ensures Before(a, b) <==> Ordinal(a) < Ordinal(b)
    ensures a == b <==> Ordinal(a) == Ordinal(b)
  {
    if Before(a, b) {
      EarlierIsLess(a, b);
    } else if Before(b, a) {
      EarlierIsLess(b, a);
    }
  }

  lemma EarlierIsLess(a: CalendarDate, b: CalendarDate)
    requires IsCivil(a) && IsCivil(b) && Before(a, b)
    ensures Ordinal(a) < Ordinal(b)
  {
    if a.year < b.year {
      YearsGrow(a.year, b.year);
      MonthsGrow(a.year, a.month, 13);
    } else if a.month < b.month {
      MonthsGrow(a.year, a.month, b.month);
    }
  }

  lemma NextIsSuccessor(d: CalendarDate)
    requires IsCivil(d)
    ensures Ordinal(Next(d)) == Ordinal(d) + 1
  {
    if d.day == DaysIn(d.year, d.month) && d.month == 12 {
      assert DaysBeforeMonth(d.year, 13) == DaysBeforeMonth(d.year, 12) + 31;
    }
  }

  lemma {:induction false} AddDaysAdds(d: CalendarDate, n: nat)
    requires IsCivil(d)
    ensures Ordinal(AddDays(d, n)) == Ordinal(d) + n
    decreases n
  {
    if n > 0 {
      NextIsSuccessor(d);
      AddDaysAdds(Next(d), n - 1);
    }
  }

  // ---------------------------------------------------------------------------------------------------------
  // Text
  // ---------------------------------------------------------------------------------------------------------

  function Digit(n: nat): char
    requires n < 10
  {
    '0' + (n as char)
  }

  /** Decimal digits, padded with zeros to at least `width`. */
  function Pad(n: nat, width: nat): string
    decreases n, width
  {
    if n < 10 && width <= 1 then [Digit(n)]
    else Pad(n / 10, if width == 0 then 0 else width - 1) + [Digit(n % 10)]
  }

  function String(d: CalendarDate): string {
    if IsZero(d) then "" else Pad(d.year, 4) + "-" + Pad(d.month, 2) + "-" + Pad(d.day, 2)
  }

  /** The byte order of the program's string comparison. */
  predicate Less(s: string, t: string) {
    t != [] && (s == [] || s[0] < t[0] || (s[0] == t[0] && Less(s[1..], t[1..])))
  }

  predicate AtMost(s: string, t: string) { s == t || Less(s, t) }

  function Power10(n: nat): nat { if n == 0 then 1 else 10 * Power10(n - 1) }

  lemma {:induction false} LessConcat(s: string, t: string, u: string, v: string)
    requires |s| == |t|
    ensures Less(s + u, t + v) <==> Less(s, t) || (s == t && Less(u, v))
    ensures s + u == t + v <==> s == t && u == v
  {
    assert (s + u)[..|s|] == s && (s + u)[|s|..] == u && (t + v)[..|s|] == t && (t + v)[|s|..] == v;
    if s == [] {
      assert s + u == u && t + v == v;
    } else {
      assert (s + u)[1..] == s[1..] + u && (t + v)[1..] == t[1..] + v;
      LessConcat(s[1..], t[1..], u, v);
      assert s == [s[0]] + s[1..] && t == [t[0]] + t[1..];
    }
  }

  lemma {:induction false} PadLength(n: nat, width: nat)
    requires width >= 1 && n < Power10(width)
    ensures |Pad(n, width)| == width
  {
    if width > 1 { PadLength(n / 10, width - 1); }
  }

  lemma PadLast(n: nat, width: nat)
    requires width > 1
    ensures Pad(n, width) == Pad(n / 10, width - 1) + [Digit(n % 10)]
  {
  }

  lemma DigitOrder(a: nat, b: nat)
    requires a < 10 && b < 10
    ensures Less([Digit(a)], [Digit(b)]) <==> a < b
    ensures [Digit(a)] == [Digit(b)] <==> a == b
  {
    assert [Digit(a)] == [Digit(b)] ==> [Digit(a)][0] == [Digit(b)][0];
  }

  lemma {:induction false} PadOrder(a: nat, b: nat, width: nat)
    requires width >= 1 && a < Power10(width) && b < Power10(width)
    ensures Less(Pad(a, width), Pad(b, width)) <==> a < b
    ensures Pad(a, width) == Pad(b, width) <==> a == b
  {
    if width > 1 {
      PadLength(a / 10, width - 1);
      PadLength(b / 10, width - 1);
      PadOrder(a / 10, b / 10, width - 1);
      PadLast(a, width);
      PadLast(b, width);
      DigitOrder(a % 10, b % 10);
      hide Pad, Less;
      LessConcat(Pad(a / 10, width - 1), Pad(b / 10, width - 1), [Digit(a % 10)], [Digit(b % 10)]);
    }
  }

  /** In the years 1 to 9999 the order of the texts is the order of the dates. */
  lemma TextOrder(a: CalendarDate, b: CalendarDate)
    requires InRange(a) && InRange(b)
    ensures Less(String(a), String(b)) <==> Before(a, b)
    ensures String(a) == String(b) <==> a == b
  {
    assert Power10(2) == 100 && Power10(4) == 10000;
    PadLengths(a);
    PadLengths(b);
    PadOrder(a.year, b.year, 4);
    PadOrder(a.month, b.month, 2);
    PadOrder(a.day, b.day, 2);
    var aa, bb := Pad(a.month, 2) + "-" + Pad(a.day, 2), Pad(b.month, 2) + "-" + Pad(b.day, 2);
    JoinOrder(Pad(a.month, 2), Pad(b.month, 2), Pad(a.day, 2), Pad(b.day, 2));
    JoinOrder(Pad(a.year, 4), Pad(b.year, 4), aa, bb);
    assert String(a) == Pad(a.year, 4) + "-" + aa && String(b) == Pad(b.year, 4) + "-" + bb;
  }

  lemma JoinOrder(s: string, t: string, u: string, v: string)
    requires |s| == |t|
    ensures Less(s + "-" + u, t + "-" + v) <==> Less(s, t) || (s == t && Less(u, v))
    ensures s + "-" + u == t + "-" + v <==> s == t && u == v
  {
    LessConcat(s + "-", t + "-", u, v);
    LessConcat(s, t, "-", "-");
  }

  lemma PadLengths(d: CalendarDate)
    requires InRange(d)
    ensures |Pad(d.year, 4)| == 4 && |Pad(d.month, 2)| == 2 && |Pad(d.day, 2)| == 2
  {
    assert Power10(2) == 100 && Power10(4) == 10000;
    PadLength(d.year, 4);
    PadLength(d.month, 2);
    PadLength(d.day, 2);
  }

  /** The first four digits of a year. */
  function Leading(y: nat): nat { if y <= LAST_YEAR then y else Leading(y / 10) }

  lemma {:induction false} PadLeading(y: nat)
    requires y > LAST_YEAR
    ensures |Pad(Leading(y), 4)| == 4 && Pad(Leading(y), 4) < Pad(y, 4)
    ensures Digit(0) <= Pad(y, 4)[4] && Leading(y) <= LAST_YEAR
  {
    assert Power10(4) == 10000;
    PadLead(y);
    if y / 10 > LAST_YEAR { PadLeading(y / 10); } else { PadLength(y / 10, 4); }
  }

  lemma PadLead(y: nat)
    requires y > LAST_YEAR
    ensures Pad(y, 4) == Pad(y / 10, 4) + [Digit(y % 10)]
  {
    LongPad(y / 10, 3);
    assert Pad(y, 4) == Pad(y / 10, 3) + [Digit(y % 10)];
  }

  /** Padding does not matter to a number that is wide enough. */
  lemma {:induction false} LongPad(n: nat, width: nat)
    requires 1 <= width && n >= Power10(width)
    ensures Pad(n, width) == Pad(n, width + 1)
    decreases width
  {
    if width > 1 { LongPad(n / 10, width - 1); }
  }

  /** A later text of a longer year is compared by the year's first four digits. */
  lemma LaterText(a: CalendarDate, b: CalendarDate)
    requires InRange(a) && IsCivil(b) && b.year > LAST_YEAR
    ensures Less(String(a), String(b)) <==> a.year <= Leading(b.year)
  {
    hide Less, Pad, Leading, Digit;
    assert Power10(4) == 10000;
    PadLeading(b.year);
    PadLength(a.year, 4);
    PadOrder(a.year, Leading(b.year), 4);
    var lead, year := Pad(Leading(b.year), 4), Pad(b.year, 4);
    var u, v := "-" + Pad(a.month, 2) + "-" + Pad(a.day, 2), year[4..] + "-" + Pad(b.month, 2) + "-" + Pad(b.day, 2);
    assert year == lead + year[4..];
    assert String(a) == Pad(a.year, 4) + u && String(b) == lead + v;
    LessConcat(Pad(a.year, 4), lead, u, v);
    DashFirst(u, v);
  }

  lemma DashFirst(u: string, v: string)
    requires u != "" && v != "" && u[0] == '-' && Digit(0) <= v[0]
    ensures Less(u, v)
  {
  }

  /**
   The bound of the text order, exactly: every earlier date a text can state sorts before a date's text if and only if
   the date is of a year up to 9999, or of one that starts with these four digits. So 9999-12-31 sorts after the day
   that follows it.
  */
  lemma TextOrderEndsAt9999(b: CalendarDate)
    requires IsCivil(b)
    ensures (forall a | InRange(a) && Before(a, b) :: Less(String(a), String(b)))
       <==> b.year <= LAST_YEAR || Leading(b.year) == LAST_YEAR
    ensures !Less(String(CalendarDate(9999, 12, 31)), String(Next(CalendarDate(9999, 12, 31))))
  {
    hide String, Less, Leading;
    var last := CalendarDate(9999, 12, 31);
    if b.year <= LAST_YEAR {
      forall a | InRange(a) && Before(a, b) ensures Less(String(a), String(b)) { TextOrder(a, b); }
    } else {
      PadLeading(b.year);
      forall a | InRange(a) && Before(a, b) ensures Less(String(a), String(b)) <==> a.year <= Leading(b.year) { LaterText(a, b); }
      LaterText(last, b);
    }
    LaterText(last, Next(last));
    TenThousand();
  }

  lemma TenThousand()
    ensures Leading(10000) == 1000
  {
  }
}
