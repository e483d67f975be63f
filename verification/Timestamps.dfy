/** The timestamps of the reporting mirror, and why they sort as times (section 5.1 of RFC 3339). */
module Timestamps {
  import opened Calendar
  import Numbers
  import Text

  /** A number in `width` digits, padded with zeros. */
  function Fixed(n: nat, width: nat): (s: string)
    ensures |s| == width
  {
    if width == 0 then "" else Fixed(n / 10, width - 1) + [Numbers.DigitOf(n % 10)]
  }

  function DateText(d: Date): string
    requires d.year >= 0 && d.month >= 0 && d.day >= 0
  {
    Fixed(d.year, 4) + ("-" + (Fixed(d.month, 2) + ("-" + Fixed(d.day, 2))))
  }

  function ClockText(rem: nat): string {
    Fixed(rem / 3600, 2) + (":" + (Fixed(rem % 3600 / 60, 2) + (":" + Fixed(rem % 60, 2))))
  }

  /** UTC seconds as a timestamp of seconds precision. */
  function Rfc3339(secs: real): string
    requires InRange(secs)
  {
    var s := Truncate(secs);
    DateText(DateOf(s)) + ("T" + (ClockText(s % SECS_PER_DAY) + "Z"))
  }

  function DateOf(s: int): (d: Date)
    ensures ValidDate(d)
  {
    RoundTripDays(s / SECS_PER_DAY);
    CopiesAgree(s / SECS_PER_DAY);
    MirrorCivilFromDays(s / SECS_PER_DAY)
  }

  /** The years that take four digits. */
  predicate InRange(secs: real) {
    0 <= DateOf(Truncate(secs)).year <= 9999
  }

  // ---------------------------------------------------------------------
  // Order of fixed-width texts
  // ---------------------------------------------------------------------

  lemma {:induction false} LessFirst(a: string, b: string, x: string, y: string)
    requires |a| == |b| && Text.Less(a, b)
    ensures Text.Less(a + x, b + y)
    decreases |a|
  {
    assert (a + x)[0] == a[0] && (b + y)[0] == b[0];
    if a[0] == b[0] {
      LessFirst(a[1..], b[1..], x, y);
      assert (a + x)[1..] == a[1..] + x && (b + y)[1..] == b[1..] + y;
    }
  }

  lemma {:induction false} LessLater(a: string, x: string, y: string)
    requires Text.Less(x, y)
    ensures Text.Less(a + x, a + y)
    decreases |a|
  {
    if a == "" {
      assert a + x == x && a + y == y;
    } else {
      LessLater(a[1..], x, y);
      assert (a + x)[1..] == a[1..] + x && (a + y)[1..] == a[1..] + y;
    }
  }

  function Pow10(n: nat): nat {
    if n == 0 then 1 else 10 * Pow10(n - 1)
  }

  lemma {:induction false} FixedOrder(n: nat, m: nat, width: nat)
    requires n < m < Pow10(width)
    ensures Text.Less(Fixed(n, width), Fixed(m, width))
  {
    var a, b := Fixed(n / 10, width - 1), Fixed(m / 10, width - 1);
    var x, y := [Numbers.DigitOf(n % 10)], [Numbers.DigitOf(m % 10)];
    if n / 10 < m / 10 {
      FixedOrder(n / 10, m / 10, width - 1);
      LessFirst(a, b, x, y);
    } else {
      assert Text.Less(x, y);
      LessLater(a, x, y);
    }
  }

  /** A fixed-width field decides, or leaves it to what follows. */
  lemma {:induction false} FieldOrder(n: nat, m: nat, width: nat, x: string, y: string)
    requires n <= m < Pow10(width) && (n == m ==> Text.Less(x, y))
    ensures Text.Less(Fixed(n, width) + x, Fixed(m, width) + y)
  {
    if n < m {
      FixedOrder(n, m, width);
      LessFirst(Fixed(n, width), Fixed(m, width), x, y);
    } else {
      LessLater(Fixed(n, width), x, y);
    }
  }

  lemma Powers()
    ensures Pow10(2) == 100 && Pow10(4) == 10_000
  {
    assert Pow10(1) == 10;
    assert Pow10(3) == 1000;
  }

  lemma {:induction false} DateOrder(d: Date, e: Date, x: string, y: string)
    requires ValidDate(d) && ValidDate(e) && 0 <= d.year && e.year <= 9999
    requires Before(d, e) || (d == e && Text.Less(x, y))
    ensures e.year >= 0 && Text.Less(DateText(d) + x, DateText(e) + y)
  {
    Powers();
    DayOrder(d.day, e.day, x, y, d.year == e.year && d.month == e.month);
    MonthOrder(d, e, x, y);
    FieldOrder(d.year, e.year, 4, "-" + (Fixed(d.month, 2) + ("-" + (Fixed(d.day, 2) + x))), "-" + (Fixed(e.month, 2) + ("-" + (Fixed(e.day, 2) + y))));
    RegroupDate(d, x);
    RegroupDate(e, y);
  }

  lemma RegroupDate(d: Date, x: string)
    requires d.year >= 0 && d.month >= 0 && d.day >= 0
    ensures DateText(d) + x == Fixed(d.year, 4) + ("-" + (Fixed(d.month, 2) + ("-" + (Fixed(d.day, 2) + x))))
  {
  }

  lemma {:induction false} DayOrder(n: nat, m: nat, x: string, y: string, asked: bool)
    requires asked ==> n <= m < 100 && (n == m ==> Text.Less(x, y))
    ensures asked ==> Text.Less("-" + (Fixed(n, 2) + x), "-" + (Fixed(m, 2) + y))
  {
    if asked {
      Powers();
      FieldOrder(n, m, 2, x, y);
      LessLater("-", Fixed(n, 2) + x, Fixed(m, 2) + y);
    }
  }

  lemma {:induction false} MonthOrder(d: Date, e: Date, x: string, y: string)
    requires ValidDate(d) && ValidDate(e)
    requires d.year == e.year ==> d.month <= e.month
    requires d.year == e.year && d.month == e.month ==> Text.Less("-" + (Fixed(d.day, 2) + x), "-" + (Fixed(e.day, 2) + y))
    ensures d.year == e.year ==>
              Text.Less("-" + (Fixed(d.month, 2) + ("-" + (Fixed(d.day, 2) + x))), "-" + (Fixed(e.month, 2) + ("-" + (Fixed(e.day, 2) + y))))
  {
    if d.year == e.year {
      Powers();
      FieldOrder(d.month, e.month, 2, "-" + (Fixed(d.day, 2) + x), "-" + (Fixed(e.day, 2) + y));
      LessLater("-", Fixed(d.month, 2) + ("-" + (Fixed(d.day, 2) + x)), Fixed(e.month, 2) + ("-" + (Fixed(e.day, 2) + y)));
    }
  }

  lemma {:induction false} ClockOrder(rem: nat, later: nat, x: string, y: string)
    requires rem < later < SECS_PER_DAY
    ensures Text.Less(ClockText(rem) + x, ClockText(later) + y)
  {
    Powers();
    var s, t := Fixed(rem % 60, 2) + x, Fixed(later % 60, 2) + y;
    var sameHour, sameMinute := rem / 3600 == later / 3600, rem / 60 == later / 60;
    assert rem / 60 == rem / 3600 * 60 + rem % 3600 / 60 && later / 60 == later / 3600 * 60 + later % 3600 / 60;
    if sameMinute {
      FieldOrder(rem % 60, later % 60, 2, x, y);
      LessLater(":", s, t);
    }
    if sameHour {
      FieldOrder(rem % 3600 / 60, later % 3600 / 60, 2, ":" + s, ":" + t);
      LessLater(":", Fixed(rem % 3600 / 60, 2) + (":" + s), Fixed(later % 3600 / 60, 2) + (":" + t));
    }
    FieldOrder(rem / 3600, later / 3600, 2, ":" + (Fixed(rem % 3600 / 60, 2) + (":" + s)), ":" + (Fixed(later % 3600 / 60, 2) + (":" + t)));
    RegroupClock(rem, x);
    RegroupClock(later, y);
  }

  lemma {:induction false} RegroupClock(rem: nat, x: string)
    ensures ClockText(rem) + x == Fixed(rem / 3600, 2) + (":" + (Fixed(rem % 3600 / 60, 2) + (":" + (Fixed(rem % 60, 2) + x))))
  {
  }

  /** Timestamps of the years 0 to 9999 sort as the times they stand for, to the second. */
  lemma {:induction false} TimestampsSort(secs: real, later: real)
    requires InRange(secs) && InRange(later)
    ensures Text.Less(Rfc3339(secs), Rfc3339(later)) <==> Truncate(secs) < Truncate(later)
  {
    var s, t := Truncate(secs), Truncate(later);
    if s < t {
      EarlierSortsFirst(secs, later);
    } else if t < s {
      EarlierSortsFirst(later, secs);
      Text.LessTotal(Rfc3339(later), Rfc3339(secs));
    } else {
      Text.LessTotal(Rfc3339(secs), Rfc3339(later));
    }
  }

  lemma {:induction false} EarlierSortsFirst(secs: real, later: real)
    requires InRange(secs) && InRange(later) && Truncate(secs) < Truncate(later)
    ensures Text.Less(Rfc3339(secs), Rfc3339(later))
  {
    var s, t := Truncate(secs), Truncate(later);
    var x, y := ClockText(s % SECS_PER_DAY) + "Z", ClockText(t % SECS_PER_DAY) + "Z";
    DatesInOrder(s, t, DateOf(s), DateOf(t));
    if s / SECS_PER_DAY == t / SECS_PER_DAY {
      ClockOrder(s % SECS_PER_DAY, t % SECS_PER_DAY, "Z", "Z");
      LessLater("T", x, y);
    }
    DateOrder(DateOf(s), DateOf(t), "T" + x, "T" + y);
  }

  lemma DatesInOrder(s: int, t: int, d: Date, e: Date)
    requires s <= t && d == DateOf(s) && e == DateOf(t)
    ensures s / SECS_PER_DAY <= t / SECS_PER_DAY
    ensures s / SECS_PER_DAY == t / SECS_PER_DAY ==> d == e
    ensures s / SECS_PER_DAY < t / SECS_PER_DAY ==> Before(d, e)
  {
    DayMonotone(s, t);
    CopiesAgree(s / SECS_PER_DAY);
    CopiesAgree(t / SECS_PER_DAY);
    if s / SECS_PER_DAY < t / SECS_PER_DAY {
      DaysOrderDates(s / SECS_PER_DAY, t / SECS_PER_DAY);
    }
  }

  // ---------------------------------------------------------------------
  // Reading a timestamp back
  // ---------------------------------------------------------------------

  lemma {:induction false} FixedReads(n: nat, width: nat)
    requires n < Pow10(width)
    ensures Numbers.AllDigits(Fixed(n, width)) && Numbers.ValueOf(Fixed(n, width)) == n
    decreases width
  {
    if width > 0 {
      FixedReads(n / 10, width - 1);
      assert Fixed(n, width)[..width - 1] == Fixed(n / 10, width - 1);
    }
  }

  /** The number at these places. */
  function NumberAt(t: string, from: nat, to: nat): nat
    requires from <= to <= |t| && Numbers.AllDigits(t[from..to])
  {
    Numbers.ValueOf(t[from..to])
  }

  lemma DateParts(y: string, m: string, d: string)
    requires |y| == 4 && |m| == 2 && |d| == 2
    ensures var t := y + ("-" + (m + ("-" + d)));
            |t| == 10 && t[4] == '-' && t[7] == '-' && t[0..4] == y && t[5..7] == m && t[8..10] == d
  {
  }

  lemma ClockParts(h: string, m: string, s: string)
    requires |h| == 2 && |m| == 2 && |s| == 2
    ensures var t := h + (":" + (m + (":" + s)));
            |t| == 8 && t[2] == ':' && t[5] == ':' && t[0..2] == h && t[3..5] == m && t[6..8] == s
  {
  }

  /** The text of a date, and the date it shows. */
  predicate ShowsDate(t: string, d: Date) {
    && |t| == 10 && t[4] == '-' && t[7] == '-'
    && Numbers.AllDigits(t[0..4]) && Numbers.AllDigits(t[5..7]) && Numbers.AllDigits(t[8..10])
    && d == Date(NumberAt(t, 0, 4), NumberAt(t, 5, 7), NumberAt(t, 8, 10))
  }

  /** The text of a time of day, and the second it shows. */
  predicate ShowsClock(t: string, rem: nat) {
    && |t| == 8 && t[2] == ':' && t[5] == ':'
    && Numbers.AllDigits(t[0..2]) && Numbers.AllDigits(t[3..5]) && Numbers.AllDigits(t[6..8])
    && NumberAt(t, 0, 2) < 24 && NumberAt(t, 3, 5) < 60 && NumberAt(t, 6, 8) < 60
    && rem == 3600 * NumberAt(t, 0, 2) + 60 * NumberAt(t, 3, 5) + NumberAt(t, 6, 8)
  }

  lemma {:induction false} DateReads(d: Date)
    requires ValidDate(d) && 0 <= d.year <= 9999
    ensures ShowsDate(DateText(d), d)
  {
    Powers();
    FixedReads(d.year, 4);
    FixedReads(d.month, 2);
    FixedReads(d.day, 2);
    DateParts(Fixed(d.year, 4), Fixed(d.month, 2), Fixed(d.day, 2));
  }

  lemma {:induction false} ClockReads(rem: nat)
    requires rem < 86_400
    ensures ShowsClock(ClockText(rem), rem)
  {
    Powers();
    FixedReads(rem / 3600, 2);
    FixedReads(rem % 3600 / 60, 2);
    FixedReads(rem % 60, 2);
    ClockParts(Fixed(rem / 3600, 2), Fixed(rem % 3600 / 60, 2), Fixed(rem % 60, 2));
  }

  /**
   * A timestamp has the form of section 5.6 of RFC 3339, and the date and time it shows are those of its second, which
   * days counted from 1970-01-01, hours, minutes and seconds make up.
   */
  lemma {:induction false} TimestampReads(secs: real)
    requires InRange(secs)
    ensures var t := Rfc3339(secs);
            && |t| == 20 && t[10] == 'T' && t[19] == 'Z'
            && exists d: Date, rem: nat :: ValidDate(d) && ShowsDate(t[..10], d) && ShowsClock(t[11..19], rem)
                                           && 86_400 * DaysFromCivil(d) + rem == Truncate(secs)
  {
    var s, d := Truncate(secs), DateOf(Truncate(secs));
    DateReads(d);
    ClockReads(s % SECS_PER_DAY);
    WholeParts(DateText(d), ClockText(s % SECS_PER_DAY));
    DayOfSecond(s, d);
  }

  lemma WholeParts(date: string, clock: string)
    requires |date| == 10 && |clock| == 8
    ensures var t := date + ("T" + (clock + "Z"));
            |t| == 20 && t[10] == 'T' && t[19] == 'Z' && t[..10] == date && t[11..19] == clock
  {
  }

  lemma DayOfSecond(s: int, d: Date)
    requires d == DateOf(s)
    ensures s == 86_400 * DaysFromCivil(d) + s % SECS_PER_DAY
  {
    RoundTripDays(s / SECS_PER_DAY);
    CopiesAgree(s / SECS_PER_DAY);
  }
}
