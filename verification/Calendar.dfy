/**
 * Calendar days of src/shared/calendar.ts. A bare date is its own day; an instant falls on the day that
 * the `florida` clock says, a function that never goes backwards.
 */
module Calendar {
  import opened Prelude

  const DAY_MS := 86_400_000

  datatype Civil = Civil(y: int, m: int, d: int)

  predicate Leap(y: int) {
    y % 4 == 0 && (y % 100 != 0 || y % 400 == 0)
  }

  function MonthDays(y: int, m: int): (n: int)
    requires 1 <= m <= 12
    ensures 28 <= n <= 31
  {
    if m == 2 then (if Leap(y) then 29 else 28) else if m in {4, 6, 9, 11} then 30 else 31
  }

  /** A real date; Date.UTC would read years below 100 as nineteen-something. */
  predicate Real(c: Civil) {
    100 <= c.y && 1 <= c.m <= 12 && 1 <= c.d <= MonthDays(c.y, c.m)
  }

  type Date = c: Civil | Real(c) witness Civil(1970, 1, 1)

  /** Days from the epoch to the first of January, as ECMAScript defines it. */
  function YearStart(y: int): int {
    365 * (y - 1970) + (y - 1969) / 4 - (y - 1901) / 100 + (y - 1601) / 400
  }

  /** Days from the first of January to the first of a month. */
  function MonthStart(y: int, m: int): int
    requires 1 <= m <= 13
  {
    if m == 1 then 0 else MonthStart(y, m - 1) + MonthDays(y, m - 1)
  }

  /** `Math.floor(Date.UTC(y, m - 1, d) / DAY_MS)` */
  function DayNumber(c: Date): int {
    YearStart(c.y) + MonthStart(c.y, c.m) + c.d - 1
  }

  function Tomorrow(c: Date): Date {
    if c.d < MonthDays(c.y, c.m) then c.(d := c.d + 1)
    else if c.m < 12 then Civil(c.y, c.m + 1, 1)
    else Civil(c.y + 1, 1, 1)
  }

  predicate Earlier(a: Date, b: Date) {
    a.y < b.y || (a.y == b.y && (a.m < b.m || (a.m == b.m && a.d < b.d)))
  }

  lemma YearLength(y: int)
    ensures YearStart(y + 1) == YearStart(y) + MonthStart(y, 13)
    ensures MonthStart(y, 13) == if Leap(y) then 366 else 365
  {
    MonthStarts(y);
    LeapDays(y);
  }

  lemma LeapDays(y: int)
    ensures YearStart(y + 1) - YearStart(y) == if Leap(y) then 366 else 365
  {
    Divided(y - 1969, 4);
    Divided(y - 1901, 100);
    Divided(y - 1601, 400);
    SameRemainder(y);
  }

  lemma SameRemainder(y: int)
    ensures (y - 1969 + 1) % 4 == 0 <==> y % 4 == 0
    ensures (y - 1901 + 1) % 100 == 0 <==> y % 100 == 0
    ensures (y - 1601 + 1) % 400 == 0 <==> y % 400 == 0
    ensures (y % 400 == 0 ==> y % 100 == 0) && (y % 100 == 0 ==> y % 4 == 0)
  {
    Quarter(y);
    Century(y);
    FourCenturies(y);
    assert y % 400 == 0 ==> y == 100 * (4 * (y / 400));
    assert y % 100 == 0 ==> y == 4 * (25 * (y / 100));
  }

  lemma Quarter(y: int)
    ensures (y - 1968) % 4 == y % 4
  {
  }

  lemma Century(y: int)
    ensures (y - 1900) % 100 == y % 100
  {
  }

  lemma FourCenturies(y: int)
    ensures (y - 1600) % 400 == y % 400
  {
  }

  lemma Divided(n: int, k: int)
    requires k in {4, 100, 400}
    ensures (n + 1) / k == n / k + if (n + 1) % k == 0 then 1 else 0
  {
  }

  lemma MonthStarts(y: int)
    ensures MonthStart(y, 13) == if Leap(y) then 366 else 365
  {
    assert MonthStart(y, 4) == MonthStart(y, 3) + 31 == MonthStart(y, 2) + MonthDays(y, 2) + 31;
    assert MonthStart(y, 7) == MonthStart(y, 6) + 30 == MonthStart(y, 5) + 61 == MonthStart(y, 4) + 91;
    assert MonthStart(y, 10) == MonthStart(y, 9) + 31 - 1 == MonthStart(y, 8) + 61 == MonthStart(y, 7) + 92;
    assert MonthStart(y, 13) == MonthStart(y, 12) + 31 == MonthStart(y, 11) + 61 == MonthStart(y, 10) + 92;
  }

  /** The days before a month, in closed form; the epoch is the first of January 1970. */
  lemma {:induction false} DaysBefore(y: int, m: int)
    requires 1 <= m <= 12
    ensures MonthStart(y, m) == (367 * m - 362) / 12 - (if m <= 2 then 0 else if Leap(y) then 1 else 2)
    ensures DayNumber(Civil(1970, 1, 1)) == 0
  {
    hide Leap;
    if m > 1 {
      DaysBefore(y, m - 1);
    }
  }

  /** Day numbers follow the calendar: the next date has the next number. */
  lemma TomorrowIsNext(c: Date)
    ensures DayNumber(Tomorrow(c)) == DayNumber(c) + 1
  {
    hide YearStart;
    YearLength(c.y);
  }

  lemma {:induction false} MonthsInOrder(y: int, m: int, n: int)
    requires 1 <= m <= n <= 13
    ensures MonthStart(y, m) <= MonthStart(y, n) && (m < n ==> MonthStart(y, m) + MonthDays(y, m) <= MonthStart(y, n))
    decreases n
  {
    if m < n {
      MonthsInOrder(y, m, n - 1);
    }
  }

  lemma {:induction false} YearsInOrder(y: int, z: int)
    requires y <= z
    ensures YearStart(y) <= YearStart(z) && (y < z ==> YearStart(y + 1) <= YearStart(z))
    decreases z - y
  {
    hide YearStart;
    if y < z {
      YearLength(y);
      YearsInOrder(y + 1, z);
    }
  }

  lemma WithinYear(c: Date)
    ensures YearStart(c.y) <= DayNumber(c) < YearStart(c.y + 1)
  {
    hide YearStart;
    YearLength(c.y);
    MonthsInOrder(c.y, 1, c.m);
    MonthsInOrder(c.y, c.m, 13);
  }

  lemma EarlierIsLess(a: Date, b: Date)
    requires Earlier(a, b)
    ensures DayNumber(a) < DayNumber(b)
  {
    hide YearStart;
    if a.y < b.y {
      WithinYear(a);
      WithinYear(b);
      YearsInOrder(a.y, b.y);
    } else {
      MonthsInOrder(a.y, a.m, b.m);
    }
  }

  /** One date is earlier than another exactly when its number is less, so different dates have different numbers. */
  lemma EarlierIff(a: Date, b: Date)
    ensures Earlier(a, b) <==> DayNumber(a) < DayNumber(b)
    ensures a == b <==> DayNumber(a) == DayNumber(b)
  {
    hide DayNumber;
    if Earlier(a, b) {
      EarlierIsLess(a, b);
    } else if Earlier(b, a) {
      EarlierIsLess(b, a);
    }
  }

  // ---- stored values ----

  /** A stored value: a bare date, an instant in milliseconds, or text that is no date. */
  datatype Stamp = Bare(date: Date) | Instant(ms: int) | Garbage

  type Clock = int -> int

  ghost predicate NeverBack(florida: Clock) {
    forall a, b :: a <= b ==> florida(a) <= florida(b)
  }

  function CalendarDay(value: Option<Stamp>, florida: Clock): Option<int> {
    match value
    case Some(Bare(date)) => Some(DayNumber(date))
    case Some(Instant(ms)) => Some(florida(ms))
    case _ => None
  }

  function DaysBetween(from: Option<Stamp>, to: Option<Stamp>, florida: Clock): Option<int> {
    var a, b := CalendarDay(from, florida), CalendarDay(to, florida);
    if a == None || b == None then None else Some(b.value - a.value)
  }

  predicate IsPast(date: Option<Stamp>, now: int, florida: Clock) {
    var d := CalendarDay(date, florida);
    d.Some? && d.value < florida(now)
  }

  /** A bare deadline has passed exactly when the Florida clock shows a later date. */
  lemma PastIff(deadline: Date, now: int, florida: Clock, today: Date)
    requires florida(now) == DayNumber(today)
    ensures IsPast(Some(Bare(deadline)), now, florida) <==> Earlier(deadline, today)
    ensures DaysBetween(Some(Instant(now)), Some(Bare(deadline)), florida) == Some(0) <==> deadline == today
  {
    EarlierIff(deadline, today);
  }

  function DaysLater(c: Date, n: nat): Date {
    if n == 0 then c else Tomorrow(DaysLater(c, n - 1))
  }

  /** The days to a date count the nights: n tomorrows from today it is n days away, and from there -n. */
  lemma {:induction false} DaysCount(now: int, florida: Clock, today: Date, n: nat)
    requires florida(now) == DayNumber(today)
    ensures DaysBetween(Some(Instant(now)), Some(Bare(DaysLater(today, n))), florida) == Some(n)
    ensures var back := DaysBetween(Some(Bare(DaysLater(today, n))), Some(Instant(now)), florida);
            back.Some? && back.value + n == 0
  {
    hide DayNumber;
    if n > 0 {
      DaysCount(now, florida, today, n - 1);
      TomorrowIsNext(DaysLater(today, n - 1));
    }
  }

  /** What is past stays past. */
  lemma PastStaysPast(date: Option<Stamp>, now: int, later: int, florida: Clock)
    requires NeverBack(florida) && now <= later && IsPast(date, now, florida)
    ensures IsPast(date, later, florida)
  {
    assert florida(now) <= florida(later);
  }
}
