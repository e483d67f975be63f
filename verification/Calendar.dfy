/**
 * The civil-calendar arithmetic of the spend budgets and of the reporting mirror,
 * proved against a day-by-day Gregorian calendar.
 */
module Calendar {

  // ---------------------------------------------------------------------
  // The calendar itself: leap years, month lengths and "the next day"
  // (section 5.7 and Appendix C of RFC 3339).
  // ---------------------------------------------------------------------

  datatype Date = Date(year: int, month: int, day: int)

  predicate IsLeap(year: int) {
    year % 4 == 0 && (year % 100 != 0 || year % 400 == 0)
  }

  function DaysInMonth(year: int, month: int): int {
    if month == 2 then (if IsLeap(year) then 29 else 28)
    else if month == 4 || month == 6 || month == 9 || month == 11 then 30
    else 31
  }

  predicate ValidDate(d: Date) {
    1 <= d.month <= 12 && 1 <= d.day <= DaysInMonth(d.year, d.month)
  }

  function NextDay(d: Date): Date {
    if d.day < DaysInMonth(d.year, d.month) then Date(d.year, d.month, d.day + 1)
    else if d.month < 12 then Date(d.year, d.month + 1, 1)
    else Date(d.year + 1, 1, 1)
  }

  /** Chronological order on dates. */
  predicate Before(a: Date, b: Date) {
    a.year < b.year
    || (a.year == b.year && a.month < b.month)
    || (a.year == b.year && a.month == b.month && a.day < b.day)
  }

  // ---------------------------------------------------------------------
  // The program's arithmetic: days counted from 1970-01-01, by eras of
  // 400 years that start on 1 March.
  // ---------------------------------------------------------------------

  const EPOCH_SHIFT := 719_468
  const ERA_DAYS := 146_097

  function YearOfEra(doe: int): int {
    (doe - doe / 1460 + doe / 36_524 - doe / 146_096) / 365
  }

  /** The date at day `doe` of era `era`; every copy of the algorithm ends in this. */
  function DateInEra(era: int, doe: int): Date {
    var yoe := YearOfEra(doe);
    var y := yoe + era * 400;
    var doy := doe - (365 * yoe + yoe / 4 - yoe / 100);
    var mp := (5 * doy + 2) / 153;
    var d := doy - (153 * mp + 2) / 5 + 1;
    var m := if mp < 10 then mp + 3 else mp - 9;
    Date(if m <= 2 then y + 1 else y, m, d)
  }

  /** The copy the budgets use: the day of the era is a Euclidean remainder. */
  function CivilFromDays(z: int): Date {
    DateInEra((z + EPOCH_SHIFT) / ERA_DAYS, (z + EPOCH_SHIFT) % ERA_DAYS)
  }

  /** The copy the reporting mirror and the minting of ids use: the day of the era is a difference. */
  function MirrorCivilFromDays(days: int): Date {
    var z := days + EPOCH_SHIFT;
    var era := z / ERA_DAYS;
    DateInEra(era, z - era * ERA_DAYS)
  }

  function DaysFromCivil(d: Date): int {
    var y := if d.month <= 2 then d.year - 1 else d.year;
    var era := y / 400;
    var yoe := y % 400;
    var mp := if d.month > 2 then d.month - 3 else d.month + 9;
    var doy := (153 * mp + 2) / 5 + d.day - 1;
    var doe := yoe * 365 + yoe / 4 - yoe / 100 + doy;
    era * ERA_DAYS + doe - EPOCH_SHIFT
  }

  // ---------------------------------------------------------------------
  // Years inside an era
  // ---------------------------------------------------------------------

  /** First day of the era's year `yoe` (years begin on 1 March). */
  function YearStart(yoe: int): int {
    365 * yoe + yoe / 4 - yoe / 100
  }

  /** Days in the March-based year `yoe`: its February falls in the following January year. */
  function YearLength(yoe: int): int {
    if IsLeap(yoe + 1) then 366 else 365
  }

  lemma YearStartStep(yoe: int)
    requires 0 <= yoe < 400
    ensures YearStart(yoe) + YearLength(yoe) == if yoe == 399 then ERA_DAYS else YearStart(yoe + 1)
  {
  }

  /** A day of the era, split into century, four-year block, year and day of the year. */
  lemma SplitEra(doe: int) returns (c: int, q: int, j: int, k: int)
    requires 0 <= doe < ERA_DAYS
    ensures 0 <= c <= 3 && 0 <= q <= 24 && 0 <= j <= 3
    ensures doe == 36_524 * c + 1461 * q + 365 * j + k
    ensures 0 <= k < YearLength(100 * c + 4 * q + j)
  {
    c := if doe / 36_524 < 4 then doe / 36_524 else 3;
    var r := doe - 36_524 * c;
    q := r / 1461;
    var s := r - 1461 * q;
    j := if s / 365 < 4 then s / 365 else 3;
    k := s - 365 * j;
  }

  /** The closed form inverts the split. */
  lemma YearOfSplit(c: int, q: int, j: int, k: int, doe: int)
    requires 0 <= c <= 3 && 0 <= q <= 24 && 0 <= j <= 3
    requires doe == 36_524 * c + 1461 * q + 365 * j + k
    requires 0 <= k < YearLength(100 * c + 4 * q + j)
    ensures YearOfEra(doe) == 100 * c + 4 * q + j
    ensures YearStart(100 * c + 4 * q + j) == doe - k
  {
    var over := if 24 * c + q + 365 * j + k >= 1460 then 1 else 0;
    assert doe / 1460 == 25 * c + q + over;
    assert doe / 36_524 - doe / 146_096 == c;
    assert doe - doe / 1460 + doe / 36_524 - doe / 146_096 == 365 * (100 * c + 4 * q + j) + (k - over);
    assert 0 <= k - over < 365;
  }

  lemma YearOfEraBrackets(doe: int)
    requires 0 <= doe < ERA_DAYS
    ensures 0 <= YearOfEra(doe) < 400
    ensures YearStart(YearOfEra(doe)) <= doe < YearStart(YearOfEra(doe)) + YearLength(YearOfEra(doe))
  {
    var c, q, j, k := SplitEra(doe);
    YearOfSplit(c, q, j, k, doe);
  }

  /** No other year of the era holds that day. */
  lemma YearOfEraUnique(doe: int, yoe: int)
    requires 0 <= yoe < 400
    requires YearStart(yoe) <= doe < YearStart(yoe) + YearLength(yoe)
    ensures 0 <= doe < ERA_DAYS && YearOfEra(doe) == yoe
  {
    YearStartStep(yoe);
    var c, q, j := yoe / 100, yoe % 100 / 4, yoe % 4;
    YearOfSplit(c, q, j, doe - YearStart(yoe), doe);
  }

  // ---------------------------------------------------------------------
  // Months inside a March-based year
  // ---------------------------------------------------------------------

  /** First day (counted from 1 March) of the `mp`-th month after March. */
  function MonthStart(mp: int): int {
    (153 * mp + 2) / 5
  }

  function MonthOf(mp: int): int {
    if mp < 10 then mp + 3 else mp - 9
  }

  /** The month formula brackets the day of the year, and the bracket is the calendar's month. */
  lemma MonthBrackets(y: int, doy: int)
    requires 0 <= doy < YearLength(y)
    ensures var mp := (5 * doy + 2) / 153;
            && 0 <= mp <= 11
            && MonthStart(mp) <= doy
            && doy < MonthStart(mp) + DaysInMonth(if mp < 10 then y else y + 1, MonthOf(mp))
  {
    var mp := (5 * doy + 2) / 153;
    assert mp == 0 || mp == 1 || mp == 2 || mp == 3 || mp == 4 || mp == 5
        || mp == 6 || mp == 7 || mp == 8 || mp == 9 || mp == 10 || mp == 11;
  }

  /** Conversely a day of a calendar month falls in that month's bracket only. */
  lemma MonthUnique(y: int, mp: int, day: int)
    requires 0 <= mp <= 11
    requires 1 <= day <= DaysInMonth(if mp < 10 then y else y + 1, MonthOf(mp))
    ensures var doy := MonthStart(mp) + day - 1;
            0 <= doy < YearLength(y) && (5 * doy + 2) / 153 == mp
  {
    assert mp == 0 || mp == 1 || mp == 2 || mp == 3 || mp == 4 || mp == 5
        || mp == 6 || mp == 7 || mp == 8 || mp == 9 || mp == 10 || mp == 11;
  }

  /** Leap years repeat every era. */
  lemma LeapPeriod(y: int, era: int)
    ensures IsLeap(y + 400 * era) == IsLeap(y)
  {
    var z := y + 400 * era;
    assert z == 4 * (y / 4 + 100 * era) + y % 4;
    assert z == 100 * (y / 100 + 4 * era) + y % 100;
    assert z == 400 * (y / 400 + era) + y % 400;
  }

  // ---------------------------------------------------------------------
  // Main results
  // ---------------------------------------------------------------------

  /** Every day number is a valid Gregorian date, and converting back gives the day number. */
  lemma RoundTripDays(z: int)
    ensures ValidDate(CivilFromDays(z))
    ensures DaysFromCivil(CivilFromDays(z)) == z
  {
    var era, doe := (z + EPOCH_SHIFT) / ERA_DAYS, (z + EPOCH_SHIFT) % ERA_DAYS;
    var yoe := YearOfEra(doe);
    YearOfEraBrackets(doe);
    var doy := doe - YearStart(yoe);
    MonthBrackets(yoe, doy);
    LeapPeriod(yoe, era);
    LeapPeriod(yoe + 1, era);
    var y := yoe + era * 400;
    assert y / 400 == era && y % 400 == yoe;
  }

  /** Within an era, a month and day of a March-based year are recovered from the day of the era. */
  lemma DateInEraBack(era: int, yoe: int, mp: int, day: int)
    requires 0 <= yoe < 400 && 0 <= mp <= 11
    requires 1 <= day <= DaysInMonth(if mp < 10 then yoe else yoe + 1, MonthOf(mp))
    ensures var doe := YearStart(yoe) + MonthStart(mp) + day - 1;
            && 0 <= doe < ERA_DAYS
            && DateInEra(era, doe) == Date(yoe + era * 400 + (if mp < 10 then 0 else 1), MonthOf(mp), day)
  {
    MonthUnique(yoe, mp, day);
    YearOfEraUnique(YearStart(yoe) + MonthStart(mp) + day - 1, yoe);
  }

  lemma CivilAt(era: int, doe: int)
    requires 0 <= doe < ERA_DAYS
    ensures CivilFromDays(era * ERA_DAYS + doe - EPOCH_SHIFT) == DateInEra(era, doe)
  {
    assert (era * ERA_DAYS + doe) / ERA_DAYS == era && (era * ERA_DAYS + doe) % ERA_DAYS == doe;
  }

  /** Every valid date is the date of its day number. */
  lemma RoundTripDate(d: Date)
    requires ValidDate(d)
    ensures CivilFromDays(DaysFromCivil(d)) == d
  {
    var y := if d.month <= 2 then d.year - 1 else d.year;
    var mp := if d.month > 2 then d.month - 3 else d.month + 9;
    var era, yoe := y / 400, y % 400;
    assert y == yoe + era * 400 && MonthOf(mp) == d.month;
    assert DaysFromCivil(d) == era * ERA_DAYS + (YearStart(yoe) + MonthStart(mp) + d.day - 1) - EPOCH_SHIFT;
    RoundTripMonth(era, yoe, mp, d.day);
  }

  lemma RoundTripMonth(era: int, yoe: int, mp: int, day: int)
    requires 0 <= yoe < 400 && 0 <= mp <= 11
    requires 1 <= day <= DaysInMonth(yoe + era * 400 + (if mp < 10 then 0 else 1), MonthOf(mp))
    ensures CivilFromDays(era * ERA_DAYS + (YearStart(yoe) + MonthStart(mp) + day - 1) - EPOCH_SHIFT)
         == Date(yoe + era * 400 + (if mp < 10 then 0 else 1), MonthOf(mp), day)
  {
    LeapPeriod(if mp < 10 then yoe else yoe + 1, era);
    DateInEraBack(era, yoe, mp, day);
    CivilAt(era, YearStart(yoe) + MonthStart(mp) + day - 1);
  }

  /** March follows on from February, across the years' and the eras' turn. */
  lemma MarchFollows(y: int)
    ensures DaysFromCivil(Date(y, 3, 1)) == DaysFromCivil(Date(y, 2, 1)) + DaysInMonth(y, 2)
  {
    var era, yoe := (y - 1) / 400, (y - 1) % 400;
    YearStartStep(yoe);
    LeapPeriod(yoe + 1, era);
    assert yoe == 399 ==> y / 400 == era + 1 && y % 400 == 0;
    assert yoe != 399 ==> y / 400 == era && y % 400 == yoe + 1;
  }

  /** The day numbers of the months of one calendar year follow on from each other. */
  lemma MonthsFollow(y: int, m: int)
    requires 1 <= m < 12
    ensures DaysFromCivil(Date(y, m + 1, 1)) == DaysFromCivil(Date(y, m, 1)) + DaysInMonth(y, m)
  {
    if m == 2 {
      MarchFollows(y);
    } else {
      assert m == 1 || m == 3 || m == 4 || m == 5 || m == 6 || m == 7 || m == 8 || m == 9 || m == 10 || m == 11;
    }
  }

  /** The next calendar day has the next day number. */
  lemma NextDayCounts(d: Date)
    requires ValidDate(d)
    ensures ValidDate(NextDay(d))
    ensures DaysFromCivil(NextDay(d)) == DaysFromCivil(d) + 1
  {
    DayInMonth(d);
    if d.day < DaysInMonth(d.year, d.month) {
      DayInMonth(Date(d.year, d.month, d.day + 1));
    } else if d.month < 12 {
      MonthsFollow(d.year, d.month);
    } else {
      YearsFollow(d.year);
    }
  }

  lemma DayInMonth(d: Date)
    ensures DaysFromCivil(d) == DaysFromCivil(Date(d.year, d.month, 1)) + d.day - 1
  {
  }

  lemma YearsFollow(y: int)
    ensures DaysFromCivil(Date(y + 1, 1, 1)) == DaysFromCivil(Date(y, 12, 1)) + 31
  {
  }

  lemma FollowsBack(z: int, d: Date)
    requires ValidDate(d) && DaysFromCivil(d) == z
    ensures CivilFromDays(z + 1) == NextDay(d)
  {
    NextDayCounts(d);
    RoundTripDate(NextDay(d));
  }

  /** Day 0 is 1970-01-01. */
  lemma EpochIsDayZero()
    ensures CivilFromDays(0) == Date(1970, 1, 1)
  {
    YearOfSplit(3, 17, 1, 306, 135_080);
  }

  /** The day numbers walk the calendar: each day is followed by the calendar's next day. */
  lemma WalksTheCalendar(z: int)
    ensures CivilFromDays(z + 1) == NextDay(CivilFromDays(z))
  {
    RoundTripDays(z);
    FollowsBack(z, CivilFromDays(z));
  }

  /** The copies of the algorithm are one function. */
  lemma CopiesAgree(z: int)
    ensures MirrorCivilFromDays(z) == CivilFromDays(z)
  {
    var x := z + EPOCH_SHIFT;
    assert x == x / ERA_DAYS * ERA_DAYS + x % ERA_DAYS;
  }

  /** Only one labelling of the days starts at 1970-01-01 and follows the calendar. */
  lemma {:induction false} OnlyWalk(dates: int -> Date, z: int)
    requires dates(0) == Date(1970, 1, 1)
    requires forall n: int :: ValidDate(dates(n)) && dates(n + 1) == NextDay(dates(n))
    ensures dates(z) == CivilFromDays(z)
    decreases if z < 0 then -z else z
  {
    if z == 0 {
      EpochIsDayZero();
    } else if z > 0 {
      OnlyWalk(dates, z - 1);
      WalksTheCalendar(z - 1);
      assert dates(z - 1 + 1) == NextDay(dates(z - 1));
    } else {
      OnlyWalk(dates, z + 1);
      assert ValidDate(dates(z)) && dates(z + 1) == NextDay(dates(z));
      RoundTripDays(z + 1);
      NextDayCounts(dates(z));
      RoundTripDate(dates(z));
    }
  }

  lemma BeforeNext(a: Date, d: Date, next: Date)
    requires a == d || Before(a, d)
    requires next == NextDay(d)
    ensures Before(a, next)
  {
  }

  /** Day numbers order dates chronologically. */
  lemma {:induction false} DaysOrderDates(a: int, b: int)
    requires a < b
    ensures Before(CivilFromDays(a), CivilFromDays(b))
    decreases b - a
  {
    WalksTheCalendar(b - 1);
    if a < b - 1 {
      DaysOrderDates(a, b - 1);
    }
    BeforeNext(CivilFromDays(a), CivilFromDays(b - 1), CivilFromDays(b));
  }

  // ---------------------------------------------------------------------
  // The start of the month
  // ---------------------------------------------------------------------

  const SECS_PER_DAY := 86_400

  /** A float cast to an integer: the fraction is dropped, towards zero. */
  function Truncate(x: real): int {
    if x >= 0.0 then x.Floor else -((-x).Floor)
  }

  function MonthStartDay(z: int): int {
    var d := CivilFromDays(z);
    DaysFromCivil(Date(d.year, d.month, 1))
  }

  function MonthStartOf(now: real): real {
    (MonthStartDay(Truncate(now) / SECS_PER_DAY) * SECS_PER_DAY) as real
  }

  /** Midnight of some first day of a month. */
  ghost predicate IsMonthMidnight(t: real) {
    exists z: int :: CivilFromDays(z).day == 1 && t == (z * SECS_PER_DAY) as real
  }

  /** The days of a month are numbered consecutively, so only its first day is a first day. */
  lemma DaysOfOneMonth(z: int, d: Date)
    requires ValidDate(d) && DaysFromCivil(d) == z
    ensures DaysFromCivil(Date(d.year, d.month, 1)) == z - (d.day - 1)
    ensures forall k {:trigger CivilFromDays(k)} :: z - (d.day - 1) <= k <= z
              ==> CivilFromDays(k) == Date(d.year, d.month, k - z + d.day)
  {
    forall k | z - (d.day - 1) <= k <= z
      ensures CivilFromDays(k) == Date(d.year, d.month, k - z + d.day)
    {
      var other := Date(d.year, d.month, k - z + d.day);
      assert DaysFromCivil(other) == k;
      RoundTripDate(other);
    }
  }

  /** A month starts on its first day, and no later first day comes before `z` is over. */
  lemma MonthStartDayGreatest(z: int, first: int)
    ensures MonthStartDay(z) <= z && CivilFromDays(MonthStartDay(z)).day == 1
    ensures first <= z && CivilFromDays(first).day == 1 ==> first <= MonthStartDay(z)
  {
    RoundTripDays(z);
    MonthStartDayOf(z, first, CivilFromDays(z));
  }

  lemma MonthStartDayOf(z: int, first: int, d: Date)
    requires ValidDate(d) && DaysFromCivil(d) == z
    ensures var start := DaysFromCivil(Date(d.year, d.month, 1));
            && start <= z && CivilFromDays(start).day == 1
            && (first <= z && CivilFromDays(first).day == 1 ==> first <= start)
  {
    DaysOfOneMonth(z, d);
  }

  /** In seconds: from 1970 on it is 86400 times the number of the first day of the month that the time falls in. */
  lemma MonthStartInSeconds(now: real)
    requires now >= 0.0
    ensures var today := CivilFromDays(now.Floor / 86_400);
            MonthStartOf(now) == (86_400 * DaysFromCivil(Date(today.year, today.month, 1))) as real
  {
  }

  /** The month start is a month's midnight, and no month's midnight lies between it and `now`. */
  lemma MonthStartGreatest(now: real, t: real)
    ensures IsMonthMidnight(MonthStartOf(now))
    ensures IsMonthMidnight(t) && t <= now ==> t <= MonthStartOf(now)
  {
    var z := Truncate(now) / SECS_PER_DAY;
    MonthStartDayGreatest(z, z);
    if IsMonthMidnight(t) && t <= now {
      var first :| CivilFromDays(first).day == 1 && t == (first * SECS_PER_DAY) as real;
      WholeBelow(first * SECS_PER_DAY, now);
      MonthStartDayGreatest(z, first);
    }
  }

  lemma WholeBelow(n: int, x: real)
    requires n as real <= x
    ensures n <= Truncate(x)
  {
    if x < 0.0 {
      assert (-x).Floor as real <= -x;
      assert -n >= (-x).Floor;
    }
  }

  /**
   * The month start is not after `now`, except exactly when `now` is a fraction of a second before
   * a month's midnight that is itself not after 1970-01-01: truncation then rounds up into the new month.
   */
  lemma MonthStartNotAfterNow(now: real)
    ensures MonthStartOf(now) <= now
       <==> !(now < 0.0 && now != Truncate(now) as real && IsMonthMidnight(Truncate(now) as real))
  {
    var whole := Truncate(now);
    var z := whole / SECS_PER_DAY;
    MonthStartDayGreatest(z, z);
    var start := MonthStartDay(z) * SECS_PER_DAY;
    assert start <= whole;
    if now < 0.0 && now != whole as real {
      assert (-now).Floor as real <= -now < (-now).Floor as real + 1.0;
      assert now < whole as real < now + 1.0;
      if IsMonthMidnight(whole as real) {
        MonthStartGreatest(whole as real, whole as real);
        assert Truncate(whole as real) == whole;
        assert start == whole;
      } else {
        assert CivilFromDays(MonthStartDay(z)).day == 1;
        assert start != whole;
        assert start as real <= (whole - 1) as real;
      }
    } else {
      assert whole as real <= now;
    }
  }

  lemma TruncateWhole(n: int)
    ensures Truncate((n * SECS_PER_DAY) as real) / SECS_PER_DAY == n
  {
    assert Truncate((n * SECS_PER_DAY) as real) == n * SECS_PER_DAY;
  }

  lemma MonthStartDayIdempotent(z: int, first: int)
    requires first == MonthStartDay(z)
    ensures MonthStartDay(first) == first
  {
    MonthStartDayGreatest(z, z);
    MonthStartDayGreatest(first, first);
  }

  /** The month start of a month start is itself. */
  lemma MonthStartIdempotent(now: real)
    ensures MonthStartOf(MonthStartOf(now)) == MonthStartOf(now)
  {
    var first := MonthStartDay(Truncate(now) / SECS_PER_DAY);
    TruncateWhole(first);
    MonthStartDayIdempotent(Truncate(now) / SECS_PER_DAY, first);
  }

  /** Later times never have an earlier month start. */
  lemma MonthStartMonotone(now: real, later: real)
    requires now <= later
    ensures MonthStartOf(now) <= MonthStartOf(later)
  {
    TruncateMonotone(now, later);
    DayMonotone(Truncate(now), Truncate(later));
    MonthStartDayMonotone(Truncate(now) / SECS_PER_DAY, Truncate(later) / SECS_PER_DAY);
  }

  lemma MonthStartDayMonotone(z: int, w: int)
    requires z <= w
    ensures MonthStartDay(z) <= MonthStartDay(w)
  {
    MonthStartDayGreatest(z, z);
    MonthStartDayGreatest(w, MonthStartDay(z));
  }

  lemma DayMonotone(x: int, y: int)
    requires x <= y
    ensures x / SECS_PER_DAY <= y / SECS_PER_DAY
  {
  }

  lemma TruncateMonotone(x: real, y: real)
    requires x <= y
    ensures Truncate(x) <= Truncate(y)
  {
    if y < 0.0 {
      assert (-y).Floor <= (-x).Floor;
    } else if x < 0.0 {
      assert (-x).Floor >= 0;
    }
  }
}
