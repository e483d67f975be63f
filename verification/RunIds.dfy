/** The ids the store mints for runs: names without separators, never given twice, sorting as the times they were minted. */
module RunIds {
  import opened Calendar
  import opened Timestamps
  import Keys
  import Numbers
  import Text

  /** A number in at least `width` digits, padded with zeros. */
  function Padded(n: nat, width: nat): (s: string)
    ensures Numbers.AllDigits(s)
  {
    (if n < 10 && width <= 1 then "" else Padded(n / 10, if width == 0 then 0 else width - 1)) + [Numbers.DigitOf(n % 10)]
  }

  function DayDigits(d: Date): (s: string)
    requires d.year >= 0 && d.month >= 0 && d.day >= 0
    ensures Numbers.AllDigits(s)
  {
    Padded(d.year, 4) + (Padded(d.month, 2) + Padded(d.day, 2))
  }

  function ClockDigits(rem: nat): (s: string)
    ensures Numbers.AllDigits(s)
  {
    Padded(rem / 3600, 2) + (Padded(rem % 3600 / 60, 2) + Padded(rem % 60, 2))
  }

  /** The id minted `at` seconds after 1970-01-01 with the counter at `seq`; the date is the one the mirror computes. */
  function RunId(at: real, number: nat): string
    requires at >= 0.0
  {
    SinceEpoch(Truncate(at));
    IdText(DayDigits(DateOf(Truncate(at))), ClockDigits(Truncate(at) % SECS_PER_DAY), Padded(number, 5))
  }

  lemma SinceEpoch(s: int)
    requires s >= 0
    ensures DateOf(s).year >= 1970
  {
    CopiesAgree(s / SECS_PER_DAY);
    DaySinceEpoch(s / SECS_PER_DAY);
  }

  lemma DaySinceEpoch(z: int)
    requires z >= 0
    ensures CivilFromDays(z).year >= 1970
  {
    EpochIsDayZero();
    if z > 0 {
      DaysOrderDates(0, z);
    }
  }

  // ---------------------------------------------------------------------
  // Ids are names, and the counter makes them different
  // ---------------------------------------------------------------------

  predicate IsName(s: string) {
    '/' !in s && Keys.SafeSegment(s)
  }

  lemma NoSlash(digits: string)
    requires Numbers.AllDigits(digits)
    ensures '/' !in digits
  {
  }

  /** A minted id is a safe path segment without separators. */
  lemma MintedIsName(at: real, number: nat)
    requires at >= 0.0
    ensures IsName(RunId(at, number))
  {
    var s := Truncate(at);
    SinceEpoch(s);
    var day, clock, tail := DayDigits(DateOf(s)), ClockDigits(s % SECS_PER_DAY), Padded(number, 5);
    NoSlash(day);
    NoSlash(clock);
    NoSlash(tail);
    assert RunId(at, number) == "EXEC-" + (day + ("-" + (clock + ("-" + tail))));
    assert '/' !in "EXEC-" && '/' !in "-";
    assert RunId(at, number)[0] == 'E';
  }

  lemma {:induction false} PaddedValue(n: nat, width: nat)
    ensures Numbers.ValueOf(Padded(n, width)) == n
    decreases n, width
  {
    var s := Padded(n, width);
    if n < 10 && width <= 1 {
      assert s[..|s| - 1] == "";
    } else {
      PaddedValue(n / 10, if width == 0 then 0 else width - 1);
      assert s[..|s| - 1] == Padded(n / 10, if width == 0 then 0 else width - 1);
    }
  }

  function IdText(day: string, clock: string, tail: string): string {
    "EXEC-" + (day + ("-" + (clock + ("-" + tail))))
  }

  lemma IdTextParts(day: string, clock: string, tail: string)
    ensures IdText(day, clock, tail)[5..] == day + ['-'] + (clock + ['-'] + tail)
  {
  }

  /** The number at the end of an id can be told from the text. */
  lemma {:induction false} NumberTold(day: string, clock: string, number: nat, day': string, clock': string, number': nat)
    requires Numbers.AllDigits(day) && Numbers.AllDigits(clock) && Numbers.AllDigits(day') && Numbers.AllDigits(clock')
    requires IdText(day, clock, Padded(number, 5)) == IdText(day', clock', Padded(number', 5))
    ensures number == number'
  {
    IdTextParts(day, clock, Padded(number, 5));
    IdTextParts(day', clock', Padded(number', 5));
    Numbers.DigitsBefore(day, day', '-', clock + ['-'] + Padded(number, 5), clock' + ['-'] + Padded(number', 5));
    Numbers.DigitsBefore(clock, clock', '-', Padded(number, 5), Padded(number', 5));
    PaddedValue(number, 5);
    PaddedValue(number', 5);
  }

  /** Ids of different numbers are different, whenever they were minted. */
  lemma MintedApart(at: real, number: nat, at': real, number': nat)
    requires at >= 0.0 && at' >= 0.0 && number != number'
    ensures RunId(at, number) != RunId(at', number')
  {
    if RunId(at, number) == RunId(at', number') {
      var s, t := Truncate(at), Truncate(at');
      SinceEpoch(s);
      SinceEpoch(t);
      NumberTold(DayDigits(DateOf(s)), ClockDigits(s % SECS_PER_DAY), number, DayDigits(DateOf(t)), ClockDigits(t % SECS_PER_DAY), number');
    }
  }

  /**
   * The store's runs are kept apart: under a grant of a minted run a checkpoint file is written exactly if it is the
   * run's own and its path is safe; so never under a grant of another number.
   */
  lemma MintedIsolation(g: Keys.Grant, at: real, number: nat, at': real, number': nat, step: nat, file: string)
    requires at >= 0.0 && at' >= 0.0 && g.run == RunId(at', number')
    ensures var key := Keys.UploadKey(Keys.JobPrefix(RunId(at, number)), Keys.StepName(step) + "/" + file);
            && (Keys.MayWrite(g, key) <==> RunId(at, number) == g.run && Keys.IsSafeKey(file))
            && (number != number' ==> !Keys.MayWrite(g, key))
  {
    MintedIsName(at, number);
    MintedIsName(at', number');
    Keys.UploadsCovered(g, RunId(at, number), step, file);
    if number != number' {
      MintedApart(at, number, at', number');
    }
  }

  // ---------------------------------------------------------------------
  // Ids sort by time
  // ---------------------------------------------------------------------

  lemma {:induction false} PaddedIsFixed(n: nat, width: nat)
    requires width >= 1 && n < Pow10(width)
    ensures Padded(n, width) == Fixed(n, width)
    decreases width
  {
    if width == 1 {
      assert Pow10(1) == 10;
      assert Fixed(n, 1) == Fixed(n / 10, 0) + [Numbers.DigitOf(n % 10)];
    } else {
      PaddedIsFixed(n / 10, width - 1);
    }
  }

  lemma DayDigitsFixed(d: Date, x: string)
    requires ValidDate(d) && 0 <= d.year <= 9999
    ensures DayDigits(d) + x == Fixed(d.year, 4) + (Fixed(d.month, 2) + (Fixed(d.day, 2) + x))
  {
    Powers();
    PaddedIsFixed(d.year, 4);
    PaddedIsFixed(d.month, 2);
    PaddedIsFixed(d.day, 2);
  }

  lemma {:induction false} DayDigitsOrder(d: Date, e: Date, x: string, y: string)
    requires ValidDate(d) && ValidDate(e) && 0 <= d.year && 0 <= e.year <= 9999
    requires Before(d, e) || (d == e && Text.Less(x, y))
    ensures Text.Less(DayDigits(d) + x, DayDigits(e) + y)
  {
    Powers();
    DayDigitsFixed(d, x);
    DayDigitsFixed(e, y);
    if d.year == e.year {
      if d.month == e.month {
        FieldOrder(d.day, e.day, 2, x, y);
      }
      FieldOrder(d.month, e.month, 2, Fixed(d.day, 2) + x, Fixed(e.day, 2) + y);
    }
    FieldOrder(d.year, e.year, 4, Fixed(d.month, 2) + (Fixed(d.day, 2) + x), Fixed(e.month, 2) + (Fixed(e.day, 2) + y));
  }

  lemma {:induction false} ClockDigitsOrder(rem: nat, later: nat, x: string, y: string)
    requires rem < later < SECS_PER_DAY
    ensures Text.Less(ClockDigits(rem) + x, ClockDigits(later) + y)
  {
    ClockFields(rem);
    ClockFields(later);
    FieldsOrder(rem / 3600, rem % 3600 / 60, rem % 60, later / 3600, later % 3600 / 60, later % 60, x, y);
  }

  lemma ClockFields(rem: nat)
    requires rem < SECS_PER_DAY
    ensures rem / 3600 < 24 && rem == 3600 * (rem / 3600) + 60 * (rem % 3600 / 60) + rem % 60
  {
  }

  lemma {:induction false} FieldsOrder(h: nat, m: nat, s: nat, h': nat, m': nat, s': nat, x: string, y: string)
    requires h < 24 && m < 60 && s < 60 && h' < 24 && m' < 60 && s' < 60
    requires 3600 * h + 60 * m + s < 3600 * h' + 60 * m' + s'
    ensures Text.Less(Padded(h, 2) + (Padded(m, 2) + Padded(s, 2)) + x, Padded(h', 2) + (Padded(m', 2) + Padded(s', 2)) + y)
  {
    Powers();
    PaddedClock(h, m, s, x);
    PaddedClock(h', m', s', y);
    if h == h' {
      if m == m' {
        FieldOrder(s, s', 2, x, y);
      }
      FieldOrder(m, m', 2, Fixed(s, 2) + x, Fixed(s', 2) + y);
    }
    FieldOrder(h, h', 2, Fixed(m, 2) + (Fixed(s, 2) + x), Fixed(m', 2) + (Fixed(s', 2) + y));
  }

  lemma {:induction false} PaddedClock(h: nat, m: nat, s: nat, x: string)
    requires h < 24 && m < 60 && s < 60
    ensures Padded(h, 2) + (Padded(m, 2) + Padded(s, 2)) + x == Fixed(h, 2) + (Fixed(m, 2) + (Fixed(s, 2) + x))
  {
    Powers();
    PaddedIsFixed(h, 2);
    PaddedIsFixed(m, 2);
    PaddedIsFixed(s, 2);
  }

  /** Of two ids minted in different seconds the earlier sorts first, up to the year 9999, whatever their numbers. */
  lemma {:induction false} RunIdsSort(at: real, number: nat, later: real, number': nat)
    requires 0.0 <= at && 0.0 <= later && Truncate(at) != Truncate(later)
    requires DateOf(Truncate(at)).year <= 9999 && DateOf(Truncate(later)).year <= 9999
    ensures Text.Less(RunId(at, number), RunId(later, number')) <==> Truncate(at) < Truncate(later)
  {
    if Truncate(at) < Truncate(later) {
      EarlierIdFirst(at, number, later, number');
    } else {
      EarlierIdFirst(later, number', at, number);
      Text.LessTotal(RunId(later, number'), RunId(at, number));
    }
  }

  lemma {:induction false} EarlierIdFirst(at: real, number: nat, later: real, number': nat)
    requires 0.0 <= at && 0.0 <= later && Truncate(at) < Truncate(later)
    requires DateOf(Truncate(later)).year <= 9999
    ensures Text.Less(RunId(at, number), RunId(later, number'))
  {
    var s, t := Truncate(at), Truncate(later);
    SinceEpoch(s);
    SinceEpoch(t);
    var x, y := ClockDigits(s % SECS_PER_DAY) + ("-" + Padded(number, 5)), ClockDigits(t % SECS_PER_DAY) + ("-" + Padded(number', 5));
    DatesInOrder(s, t, DateOf(s), DateOf(t));
    if s / SECS_PER_DAY == t / SECS_PER_DAY {
      ClockDigitsOrder(s % SECS_PER_DAY, t % SECS_PER_DAY, "-" + Padded(number, 5), "-" + Padded(number', 5));
      LessLater("-", x, y);
    }
    DayDigitsOrder(DateOf(s), DateOf(t), "-" + x, "-" + y);
    LessLater("EXEC-", DayDigits(DateOf(s)) + ("-" + x), DayDigits(DateOf(t)) + ("-" + y));
  }

  // ---------------------------------------------------------------------
  // Reading an id back
  // ---------------------------------------------------------------------

  lemma IdParts(y: string, m: string, d: string, h: string, i: string, s: string, tail: string)
    requires |y| == 4 && |m| == 2 && |d| == 2 && |h| == 2 && |i| == 2 && |s| == 2
    ensures var id := IdText(y + (m + d), h + (i + s), tail);
            && |id| == 21 + |tail| && id[..5] == "EXEC-" && id[13] == '-' && id[20] == '-' && id[21..] == tail
            && id[5..9] == y && id[9..11] == m && id[11..13] == d && id[14..16] == h && id[16..18] == i && id[18..20] == s
  {
  }

  lemma {:induction false} PaddedWide(n: nat, width: nat)
    requires width >= 1
    ensures |Padded(n, width)| >= width && (n < Pow10(width) ==> |Padded(n, width)| == width)
    decreases width
  {
    if width > 1 {
      PaddedWide(n / 10, width - 1);
    } else {
      assert Pow10(1) == 10;
    }
  }

  /**
   * Up to the year 9999 an id is the prefix, eight digits of the date, six of the time, and at least five of the number:
   * date and time make up the second it was minted in.
   */
  lemma {:induction false} RunIdReads(at: real, number: nat)
    requires at >= 0.0 && DateOf(Truncate(at)).year <= 9999
    ensures var id := RunId(at, number);
            && |id| >= 26 && id[..5] == "EXEC-" && id[13] == '-' && id[20] == '-'
            && Numbers.AllDigits(id[5..9]) && Numbers.AllDigits(id[9..11]) && Numbers.AllDigits(id[11..13])
            && Numbers.AllDigits(id[14..16]) && Numbers.AllDigits(id[16..18]) && Numbers.AllDigits(id[18..20])
            && Numbers.AllDigits(id[21..]) && Numbers.ValueOf(id[21..]) == number
            && 86_400 * DaysFromCivil(Date(NumberAt(id, 5, 9), NumberAt(id, 9, 11), NumberAt(id, 11, 13)))
               + 3600 * NumberAt(id, 14, 16) + 60 * NumberAt(id, 16, 18) + NumberAt(id, 18, 20) == Truncate(at)
  {
    var s, d := Truncate(at), DateOf(Truncate(at));
    var rem := s % SECS_PER_DAY;
    SinceEpoch(s);
    DigitsOfDay(d);
    DigitsOfClock(rem);
    IdParts(Fixed(d.year, 4), Fixed(d.month, 2), Fixed(d.day, 2), Fixed(rem / 3600, 2), Fixed(rem % 3600 / 60, 2), Fixed(rem % 60, 2),
            Padded(number, 5));
    PaddedWide(number, 5);
    PaddedValue(number, 5);
    DayOfSecond(s, d);
  }

  lemma {:induction false} DigitsOfDay(d: Date)
    requires ValidDate(d) && 0 <= d.year <= 9999
    ensures DayDigits(d) == Fixed(d.year, 4) + (Fixed(d.month, 2) + Fixed(d.day, 2))
    ensures Numbers.AllDigits(Fixed(d.year, 4)) && Numbers.ValueOf(Fixed(d.year, 4)) == d.year
    ensures Numbers.AllDigits(Fixed(d.month, 2)) && Numbers.ValueOf(Fixed(d.month, 2)) == d.month
    ensures Numbers.AllDigits(Fixed(d.day, 2)) && Numbers.ValueOf(Fixed(d.day, 2)) == d.day
  {
    Powers();
    PaddedIsFixed(d.year, 4);
    PaddedIsFixed(d.month, 2);
    PaddedIsFixed(d.day, 2);
    FixedReads(d.year, 4);
    FixedReads(d.month, 2);
    FixedReads(d.day, 2);
  }

  lemma {:induction false} DigitsOfClock(rem: nat)
    requires rem < 86_400
    ensures var h, m, s := rem / 3600, rem % 3600 / 60, rem % 60;
            && ClockDigits(rem) == Fixed(h, 2) + (Fixed(m, 2) + Fixed(s, 2)) && rem == 3600 * h + 60 * m + s
            && Numbers.AllDigits(Fixed(h, 2)) && Numbers.ValueOf(Fixed(h, 2)) == h
            && Numbers.AllDigits(Fixed(m, 2)) && Numbers.ValueOf(Fixed(m, 2)) == m
            && Numbers.AllDigits(Fixed(s, 2)) && Numbers.ValueOf(Fixed(s, 2)) == s
  {
    Powers();
    var h, m, s := rem / 3600, rem % 3600 / 60, rem % 60;
    PaddedIsFixed(h, 2);
    PaddedIsFixed(m, 2);
    PaddedIsFixed(s, 2);
    FixedReads(h, 2);
    FixedReads(m, 2);
    FixedReads(s, 2);
  }
}
