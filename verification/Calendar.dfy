// Calendar months: the subscription extension of app/services/order.py.
module Calendar {

  const DAY: nat := 86400

  /** Seconds a fixed time zone is ahead of UTC. */
  type UtcOffset = o: int | -86400 < o < 86400 witness 0

  /** Local date and time, as datetime.fromtimestamp returns it. */
  datatype DateTime = DateTime(year: nat, month: nat, day: nat, second: nat)

  predicate IsLeap(year: nat) {
    year % 4 == 0 && (year % 100 != 0 || year % 400 == 0)
  }

  /** calendar.monthrange(year, month)[1] */
  function DaysInMonth(year: nat, month: nat): (days: nat)
    requires 1 <= month <= 12
    ensures 28 <= days <= 31
  {
    if month == 2 then (if IsLeap(year) then 29 else 28)
    else if month in {4, 6, 9, 11} then 30
    else 31
  }

  ghost predicate Valid(dt: DateTime) {
    1 <= dt.month <= 12 && 1 <= dt.day <= DaysInMonth(dt.year, dt.month) && dt.second < DAY
  }

  // ---------- Months and days counted from the start of year 0 ----------

  function MonthLength(n: nat): (days: nat)
    ensures 28 <= days <= 31
  {
    DaysInMonth(n / 12, n % 12 + 1)
  }

  function MonthStart(n: nat): nat {
    if n == 0 then 0 else MonthStart(n - 1) + MonthLength(n - 1)
  }

  function MonthIndex(dt: DateTime): nat
    requires Valid(dt)
  {
    12 * dt.year + dt.month - 1
  }

  function DayNumber(dt: DateTime): nat
    requires Valid(dt)
  {
    MonthStart(MonthIndex(dt)) + dt.day - 1
  }

  /** The month that holds a day, searched for from month n on. */
  function MonthHolding(day: nat, n: nat): (month: nat)
    requires MonthStart(n) <= day
    ensures MonthStart(month) <= day < MonthStart(month + 1)
    decreases day - MonthStart(n)
  {
    if day < MonthStart(n + 1) then n else MonthHolding(day, n + 1)
  }

  /** Days from 1 January of year 0 to 1 January 1970; EpochIsRight shows that the calendar agrees. */
  const EPOCH_DAY: nat := 719_528

  /** dt.timestamp() */
  function Timestamp(dt: DateTime, offset: UtcOffset): int
    requires Valid(dt)
  {
    (DayNumber(dt) - EPOCH_DAY) * DAY + dt.second - offset
  }

  /** datetime.fromtimestamp(ts) */
  function FromTimestamp(ts: nat, offset: UtcOffset): (dt: DateTime)
    ensures Valid(dt)
    ensures Timestamp(dt, offset) == ts
  {
    var seconds := ts + offset + EPOCH_DAY * DAY;
    var day, second := seconds / DAY, seconds % DAY;
    var n := MonthHolding(day, 0);
    assert 12 * (n / 12) + (n % 12 + 1) - 1 == n;
    DateTime(n / 12, n % 12 + 1, day - MonthStart(n) + 1, second)
  }

  function Min(a: nat, b: nat): nat { if a <= b then a else b }

  /** The date part of _add_months: the same day of the month if there is one, otherwise its last day. */
  function ShiftMonths(dt: DateTime, months: nat): (r: DateTime)
    requires Valid(dt)
    ensures Valid(r)
  {
    var month := dt.month - 1 + months;
    var year := dt.year + month / 12;
    var month' := month % 12 + 1;
    var limit := DaysInMonth(year, month');
    dt.(year := year, month := month', day := Min(dt.day, limit))
  }

  function Max(a: int, b: int): int { if a >= b then a else b }

  /** _add_months, with the clock and the time zone as parameters. */
  function AddMonths(timestamp: int, now: nat, months: nat, offset: UtcOffset): int {
    Timestamp(ShiftMonths(FromTimestamp(Max(timestamp, now), offset), months), offset)
  }

  // ---------- Facts about month starts ----------

  lemma {:induction false} MonthStartBounds(n: nat, k: nat)
    ensures MonthStart(n) + 28 * k <= MonthStart(n + k) <= MonthStart(n) + 31 * k
    decreases k
  {
    if k > 0 {
      MonthStartBounds(n, k - 1);
      assert MonthStart(n + k) == MonthStart(n + k - 1) + MonthLength(n + k - 1);
    }
  }

  lemma ShiftedIndex(dt: DateTime, months: nat)
    requires Valid(dt)
    ensures MonthIndex(ShiftMonths(dt, months)) == MonthIndex(dt) + months
    ensures DaysInMonth(dt.year, dt.month) == MonthLength(MonthIndex(dt))
  {
    var month := dt.month - 1 + months;
    assert 12 * (month / 12) + month % 12 == month;
    assert MonthIndex(dt) / 12 == dt.year && MonthIndex(dt) % 12 == dt.month - 1;
  }

  lemma {:induction false} YearStart(year: nat)
    ensures MonthStart(12 * year) == 365 * year + (year + 3) / 4 - (year + 99) / 100 + (year + 399) / 400
  {
    if year > 0 {
      var y := year - 1;
      YearStart(y);
      YearLength(y, MonthStart(12 * y), MonthStart(12 * year));
      LeapDays(y);
    }
  }

  lemma {:induction false} NextMonthStart(year: nat, k: nat)
    requires k < 12
    ensures MonthStart(12 * year + k + 1) == MonthStart(12 * year + k) + DaysInMonth(year, k + 1)
  {
    var n := 12 * year + k;
    assert n / 12 == year && n % 12 == k;
  }

  /** Days of a year before its month k + 1. */
  function DaysBefore(year: nat, k: nat): nat
    requires k <= 12
  {
    var leap := if IsLeap(year) && k >= 2 then 1 else 0;
    leap + [0, 31, 59, 90, 120, 151, 181, 212, 243, 273, 304, 334, 365][k]
  }

  lemma NextDaysBefore(year: nat, k: nat)
    requires k < 12
    ensures DaysBefore(year, k + 1) == DaysBefore(year, k) + DaysInMonth(year, k + 1)
  {
  }

  lemma {:induction false} MonthsAddUp(start: nat -> int, year: nat, k: nat)
    requires k <= 12 && forall j :: 0 <= j < 12 ==> start(j + 1) == start(j) + DaysInMonth(year, j + 1)
    ensures start(k) == start(0) + DaysBefore(year, k)
    decreases k
  {
    if k > 0 {
      MonthsAddUp(start, year, k - 1);
      NextDaysBefore(year, k - 1);
      assert start((k - 1) + 1) == start(k - 1) + DaysInMonth(year, k);
    }
  }

  function StartsOf(year: nat): nat -> int {
    (k: nat) => MonthStart(12 * year + k)
  }

  lemma StartsStep(year: nat, j: nat)
    requires j < 12
    ensures StartsOf(year)(j + 1) == StartsOf(year)(j) + DaysInMonth(year, j + 1)
  {
    NextMonthStart(year, j);
  }

  lemma MonthOfStarts(year: nat, k: nat)
    requires k <= 12
    ensures StartsOf(year)(k) == StartsOf(year)(0) + DaysBefore(year, k)
  {
    forall j | 0 <= j < 12 ensures StartsOf(year)(j + 1) == StartsOf(year)(j) + DaysInMonth(year, j + 1) {
      StartsStep(year, j);
    }
    MonthsAddUp(StartsOf(year), year, k);
  }

  lemma YearOfStarts(year: nat)
    ensures StartsOf(year)(12) == StartsOf(year)(0) + if IsLeap(year) then 366 else 365
  {
    MonthOfStarts(year, 12);
  }

  lemma YearLength(year: nat, first: int, next: int)
    requires first == MonthStart(12 * year) && next == MonthStart(12 * (year + 1))
    ensures next == first + if IsLeap(year) then 366 else 365
  {
    YearOfStarts(year);
    assert 12 * (year + 1) == 12 * year + 12;
  }

  lemma LeapDays(y: nat)
    ensures (y + 4) / 4 - (y + 3) / 4 == if y % 4 == 0 then 1 else 0
    ensures (y + 100) / 100 - (y + 99) / 100 == if y % 100 == 0 then 1 else 0
    ensures (y + 400) / 400 - (y + 399) / 400 == if y % 400 == 0 then 1 else 0
    ensures y % 400 == 0 ==> y % 100 == 0
    ensures y % 100 == 0 ==> y % 4 == 0
  {
    EveryFourth(y);
    EveryHundredth(y);
    EveryFourHundredth(y);
  }

  lemma EveryFourth(y: nat)
    ensures (y + 4) / 4 - (y + 3) / 4 == if y % 4 == 0 then 1 else 0
  {
  }

  lemma EveryHundredth(y: nat)
    ensures (y + 100) / 100 - (y + 99) / 100 == if y % 100 == 0 then 1 else 0
    ensures y % 100 == 0 ==> y % 4 == 0
  {
    Hundreds(y / 100, y % 100);
    if y % 100 == 0 { Fours(25 * (y / 100)); }
  }

  lemma Hundreds(q: nat, r: nat)
    requires r < 100
    ensures (100 * q + r + 100) / 100 == q + 1
    ensures (100 * q + r + 99) / 100 == if r == 0 then q else q + 1
  {
  }

  lemma Fours(q: nat)
    ensures (4 * q) % 4 == 0
  {
  }

  lemma EveryFourHundredth(y: nat)
    ensures (y + 400) / 400 - (y + 399) / 400 == if y % 400 == 0 then 1 else 0
    ensures y % 400 == 0 ==> y % 100 == 0
  {
    FourHundreds(y / 400, y % 400);
    if y % 400 == 0 { Hundreds(4 * (y / 400), 0); }
  }

  lemma FourHundreds(q: nat, r: nat)
    requires r < 400
    ensures (400 * q + r + 400) / 400 == q + 1
    ensures (400 * q + r + 399) / 400 == if r == 0 then q else q + 1
  {
  }

  lemma EpochIsRight(year: nat)
    requires year == 1970
    ensures MonthStart(12 * year) == EPOCH_DAY
  {
    YearStart(year);
  }

  lemma NewYear(year: nat)
    ensures DayNumber(DateTime(year, 1, 1, 0)) == 365 * year + (year + 3) / 4 - (year + 99) / 100 + (year + 399) / 400
  {
    YearStart(year);
    assert MonthIndex(DateTime(year, 1, 1, 0)) == 12 * year;
  }

  /** The end of a subscription without end, 4,102,444,800, is the first second of the year 2100 (UTC). */
  lemma TheYear2100(year: nat)
    requires year == 2100
    ensures Timestamp(DateTime(year, 1, 1, 0), 0) == 4_102_444_800
  {
    NewYear(year);
    AtMidnight(DateTime(year, 1, 1, 0), 767_010);
  }

  lemma AtMidnight(dt: DateTime, day: nat)
    requires Valid(dt) && dt.second == 0 && DayNumber(dt) == day
    ensures Timestamp(dt, 0) == (day - 719_528) * 86400
  {
  }

  /** Different dates have different day numbers. */
  lemma DayNumberInjective(a: DateTime, b: DateTime)
    requires Valid(a) && Valid(b)
    requires DayNumber(a) == DayNumber(b)
    ensures MonthIndex(a) == MonthIndex(b) && a.day == b.day
  {
    ShiftedIndex(a, 0);
    ShiftedIndex(b, 0);
    var i, j := MonthIndex(a), MonthIndex(b);
    if i < j {
      NextMonth(i, j);
    } else if j < i {
      NextMonth(j, i);
    }
  }

  lemma {:induction false} NextMonth(i: nat, j: nat)
    requires i < j
    ensures MonthStart(i) + MonthLength(i) <= MonthStart(j)
  {
    MonthStartBounds(i + 1, j - i - 1);
    assert MonthStart(i + 1) == MonthStart(i) + MonthLength(i);
  }

  lemma SameMonth(a: DateTime, b: DateTime)
    requires Valid(a) && Valid(b) && MonthIndex(a) == MonthIndex(b)
    ensures a.year == b.year && a.month == b.month
  {
  }

  /** Reading a timestamp back gives the date and time it was written from. */
  lemma TimestampRoundTrip(dt: DateTime, offset: UtcOffset)
    requires Valid(dt) && Timestamp(dt, offset) >= 0
    ensures FromTimestamp(Timestamp(dt, offset), offset) == dt
  {
    var dt' := FromTimestamp(Timestamp(dt, offset), offset);
    SameSecond(DayNumber(dt), dt.second, DayNumber(dt'), dt'.second);
    DayNumberInjective(dt, dt');
    SameMonth(dt, dt');
  }

  /** East of Greenwich clocks are ahead: local time there is what UTC shows `offset` seconds later. */
  lemma ClocksAhead(ts: nat, offset: UtcOffset)
    requires ts + offset >= 0
    ensures FromTimestamp(ts, offset) == FromTimestamp(ts + offset, 0)
  {
    var local := FromTimestamp(ts, offset);
    assert Timestamp(local, 0) == ts + offset;
    TimestampRoundTrip(local, 0);
  }

  // ---------- The day number in closed form ----------

  /** Leap days up to the end of a year. */
  function Leaps(year: int): int { year / 4 - year / 100 + year / 400 }

  lemma NextQuotients(x: int)
    ensures (x + 4) / 4 == x / 4 + 1
    ensures (x + 100) / 100 == x / 100 + 1
    ensures (x + 400) / 400 == x / 400 + 1
  {
  }

  lemma LeapYear(year: nat)
    ensures Leaps(year) == Leaps(year - 1) + if IsLeap(year) then 1 else 0
    ensures (year + 3) / 4 - (year + 99) / 100 + (year + 399) / 400 == Leaps(year - 1) + 1
  {
    LeapDays(year);
    NextQuotients(year);
    NextQuotients(year - 1);
  }

  /** Days from 1 March to the month that comes m months later. */
  lemma DaysFromMarch(year: nat, month: nat)
    requires 1 <= month <= 12
    ensures var m := if month > 2 then month - 3 else month + 9;
            var leap := if IsLeap(year) then 1 else 0;
            DaysBefore(year, month - 1) == (153 * m + 2) / 5 + (if month > 2 then 59 + leap else -306)
  {
  }

  lemma FirstOfMonth(year: nat, month: nat)
    requires 1 <= month <= 12
    ensures var y := if month > 2 then year else year - 1;
            var m := if month > 2 then month - 3 else month + 9;
            MonthStart(12 * year + (month - 1)) == 365 * y + Leaps(y) + (153 * m + 2) / 5 + 60
  {
    MonthOfStarts(year, month - 1);
    DaysFromMarch(year, month);
    YearInLeaps(year);
    LeapYear(year);
  }

  lemma YearInLeaps(year: nat)
    ensures MonthStart(12 * year) == 365 * year + Leaps(year - 1) + 1
  {
    YearStart(year);
    LeapYear(year);
  }

  /**
   * The day number needs no search: with years that begin in March, whose months follow each other in a fixed pattern, it
   * is a formula. So every month has its right length.
   */
  lemma DayInClosedForm(dt: DateTime)
    requires Valid(dt)
    ensures var y := if dt.month > 2 then dt.year else dt.year - 1;
            var m := if dt.month > 2 then dt.month - 3 else dt.month + 9;
            DayNumber(dt) == 365 * y + Leaps(y) + (153 * m + 2) / 5 + dt.day + 59
  {
    FirstOfMonth(dt.year, dt.month);
  }

  lemma SameSecond(d: nat, s: nat, d': nat, s': nat)
    requires s < DAY && s' < DAY && d * DAY + s == d' * DAY + s'
    ensures d == d' && s == s'
  {
  }

  // ---------- What the extension promises ----------

  /** Months i and i + months, and a day of each that is cut to the last of the month if need be. */
  lemma {:induction false} DaysBetween(i: nat, months: nat, day: nat, day': nat)
    requires day <= MonthLength(i) && day' == Min(day, MonthLength(i + months))
    ensures 28 * months <= MonthStart(i + months) + day' - MonthStart(i) - day <= 31 * months
  {
    MonthStartBounds(i, months);
    if day' < day {
      // The day was cut: compare the starts of the two following months.
      MonthStartBounds(i + 1, months);
      assert MonthStart(i + 1) == MonthStart(i) + MonthLength(i);
      assert MonthStart(i + 1 + months) == MonthStart(i + months) + MonthLength(i + months);
    }
  }

  lemma ShiftedDays(dt: DateTime, months: nat)
    requires Valid(dt)
    ensures 28 * months <= DayNumber(ShiftMonths(dt, months)) - DayNumber(dt) <= 31 * months
  {
    var dt' := ShiftMonths(dt, months);
    ShiftedIndex(dt, months);
    ShiftedIndex(dt', 0);
    ClampedDay(dt, months);
    DaysBetween(MonthIndex(dt), months, dt.day, dt'.day);
  }

  /** Extending by m months adds between 28m and 31m days to the later of the old expiry and the present. */
  lemma AddMonthsBounds(timestamp: int, now: nat, months: nat, offset: UtcOffset)
    ensures 28 * months * DAY <= AddMonths(timestamp, now, months, offset) - Max(timestamp, now) <= 31 * months * DAY
  {
    ShiftedDays(FromTimestamp(Max(timestamp, now), offset), months);
  }

  /**
   * Shifting twice gives the year, month and time of shifting once by the sum, at most three days earlier; the same day
   * exactly when the month in between is long enough to hold it.
   */
  lemma ShiftTwice(dt: DateTime, a: nat, b: nat)
    requires Valid(dt)
    ensures var mid := ShiftMonths(dt, a);
            var twice, once := ShiftMonths(mid, b), ShiftMonths(dt, a + b);
            && twice == once.(day := twice.day)
            && once.day - 3 <= twice.day <= once.day
            && (twice == once <==> DaysInMonth(mid.year, mid.month) >= once.day)
  {
    ShiftedIndex(dt, a);
    ShiftedIndex(dt, a + b);
    ShiftedIndex(ShiftMonths(dt, a), b);
    SameMonth(ShiftMonths(ShiftMonths(dt, a), b), ShiftMonths(dt, a + b));
    ClampedDay(dt, a);
    ClampedDay(dt, a + b);
    ClampedDay(ShiftMonths(dt, a), b);
  }

  /** 31 January, extended by one month and by one more, lands on 28 March; extended by two at once, on 31 March. */
  lemma TwiceIsNotOnce()
    ensures var dt := DateTime(2023, 1, 31, 0);
            && Valid(dt)
            && ShiftMonths(ShiftMonths(dt, 1), 1) == DateTime(2023, 3, 28, 0)
            && ShiftMonths(dt, 1 + 1) == DateTime(2023, 3, 31, 0)
  {
  }

  lemma ClampedDay(dt: DateTime, months: nat)
    requires Valid(dt)
    ensures var r := ShiftMonths(dt, months);
            r == dt.(year := r.year, month := r.month, day := Min(dt.day, DaysInMonth(r.year, r.month)))
  {
  }

  lemma SameMonthTimestamps(a: DateTime, b: DateTime, offset: UtcOffset)
    requires Valid(a) && Valid(b) && a == b.(day := a.day)
    ensures Timestamp(b, offset) - Timestamp(a, offset) == (b.day - a.day) * DAY
  {
  }

  /** A first extension starts the second one on the very date it landed on, if that is bought before it. */
  lemma SecondExtension(dt: DateTime, later: nat, a: nat, b: nat, offset: UtcOffset)
    requires Valid(dt) && 0 <= later <= Timestamp(ShiftMonths(dt, a), offset)
    ensures AddMonths(Timestamp(ShiftMonths(dt, a), offset), later, b, offset)
            == Timestamp(ShiftMonths(ShiftMonths(dt, a), b), offset) >= later
  {
    var dtA := ShiftMonths(dt, a);
    ShiftedDays(dtA, b);
    TimestampRoundTrip(dtA, offset);
  }

  /**
   * Extending by a and, at any time before that has run out, by b months lands in the same month at the same time of day
   * as extending by a + b at first, never later and at most three days earlier; and on the same day exactly when the
   * month in between is long enough to hold it.
   */
  lemma AddMonthsTwice(timestamp: int, now: nat, later: nat, a: nat, b: nat, offset: UtcOffset)
    requires now <= later <= AddMonths(timestamp, now, a, offset)
    ensures var mid, once := AddMonths(timestamp, now, a, offset), AddMonths(timestamp, now, a + b, offset);
            var twice := AddMonths(mid, later, b, offset);
            && once >= 0 && twice >= 0
            && var m, o, t := FromTimestamp(mid, offset), FromTimestamp(once, offset), FromTimestamp(twice, offset);
            && t == o.(day := t.day)
            && once - 3 * DAY <= twice <= once
            && (twice == once <==> DaysInMonth(m.year, m.month) >= o.day)
  {
    var dt := FromTimestamp(Max(timestamp, now), offset);
    var dtA, dtAB := ShiftMonths(dt, a), ShiftMonths(dt, a + b);
    var dtA_B := ShiftMonths(dtA, b);
    SecondExtension(dt, later, a, b, offset);
    AddMonthsBounds(timestamp, now, a + b, offset);
    ShiftTwice(dt, a, b);
    SameMonthTimestamps(dtA_B, dtAB, offset);
    TimestampRoundTrip(dtA, offset);
    TimestampRoundTrip(dtA_B, offset);
    TimestampRoundTrip(dtAB, offset);
  }

  lemma {:induction false} AfterEpoch(year: nat, epoch: nat)
    requires year >= epoch && epoch == 1970
    ensures MonthStart(12 * year) >= EPOCH_DAY + 28 * (12 * (year - epoch))
  {
    EpochIsRight(epoch);
    MonthStartBounds(12 * epoch, 12 * (year - epoch));
    assert 12 * epoch + 12 * (year - epoch) == 12 * year;
  }

  lemma AddMonthsFrom(dt: DateTime, months: nat, offset: UtcOffset)
    requires Valid(dt) && Timestamp(dt, offset) >= 0
    ensures AddMonths(Timestamp(dt, offset), 0, months, offset) == Timestamp(ShiftMonths(dt, months), offset) >= 0
  {
    TimestampRoundTrip(dt, offset);
    ShiftedDays(dt, months);
  }

  /** The same as timestamps, in every time zone: two single months end three days before two at once. */
  lemma TwiceEndsEarlier(dt: DateTime, offset: UtcOffset)
    requires dt == DateTime(2023, 1, 31, 0)
    ensures var start := Timestamp(dt, offset);
            && start >= 0
            && AddMonths(AddMonths(start, 0, 1, offset), 0, 1, offset) == AddMonths(start, 0, 1 + 1, offset) - 3 * DAY
  {
    AfterEpoch(dt.year, 1970);
    TwiceIsNotOnce();
    AddMonthsFrom(dt, 1, offset);
    AddMonthsFrom(ShiftMonths(dt, 1), 1, offset);
    AddMonthsFrom(dt, 1 + 1, offset);
    SameMonthTimestamps(ShiftMonths(ShiftMonths(dt, 1), 1), ShiftMonths(dt, 1 + 1), offset);
  }
}
