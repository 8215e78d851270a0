/** Week-of-year keys `YYYY-W##` that the dashboard buckets workouts by. */
module Weeks {
  import opened Calendar
  import opened Text

  /**
   * `Math.ceil((days + startOfYear.getDay() + 1) / 7)`: the week of the year, counting
   * the partial first week that starts on a Sunday before January 1st.
   */
  function WeekNumber(dayOfYear: nat, jan1Weekday: nat): (week: nat)
    requires jan1Weekday < 7
    ensures 7 * (week - 1) < dayOfYear + jan1Weekday + 1 <= 7 * week
  {
    (dayOfYear + jan1Weekday + 7) / 7
  }

  function WeekOf(d: Date): nat {
    WeekNumber(d.dayOfYear, Jan1Weekday(d.year))
  }

  /** Weeks are numbered 1 to 54. */
  lemma WeekOfRange(d: Date)
    requires ValidDate(d)
    ensures 1 <= WeekOf(d) <= 54
  {
  }

  /** Later in the same year never means an earlier week. */
  lemma WeekOfMonotone(a: Date, b: Date)
    requires a.year == b.year && a.dayOfYear <= b.dayOfYear
    ensures WeekOf(a) <= WeekOf(b)
  {
  }

  /** `${year}-W${week.toString().padStart(2, '0')}`. */
  function KeyFor(year: int, week: nat): string {
    IntToString(year) + "-W" + PadStart(NatToString(week), 2, '0')
  }

  /** `getWeekKey(date)`. */
  function WeekKey(d: Date): string {
    KeyFor(d.year, WeekOf(d))
  }

  /** The two characters after `-W` are the zero-padded week, and they read back as it. */
  lemma KeyForFormat(year: int, week: nat)
    requires week < 100
    ensures var key := KeyFor(year, week);
            && key == IntToString(year) + "-W" + [DigitChar(week / 10), DigitChar(week % 10)]
            && AllDigits(key[|key| - 2..])
            && ParseNat(key[|key| - 2..]) == week
  {
    PadTwo(week);
    var two := [DigitChar(week / 10), DigitChar(week % 10)];
    var key := KeyFor(year, week);
    assert key == (IntToString(year) + "-W") + two;
    assert key[|key| - 2..] == two;
    ParseTwoDigits(week / 10, week % 10);
  }

  lemma ParseTwoDigits(p: nat, q: nat)
    requires p < 10 && q < 10
    ensures ParseNat([DigitChar(p), DigitChar(q)]) == 10 * p + q
  {
    var two := [DigitChar(p), DigitChar(q)];
    assert two[..1] == [DigitChar(p)] && two[..1][..0] == [];
    assert ParseNat([DigitChar(p)]) == ParseNat([]) * 10 + DigitValue(DigitChar(p)) == p;
    assert ParseNat(two) == ParseNat(two[..1]) * 10 + DigitValue(DigitChar(q));
  }

  /** A valid date's key ends in its two-digit week, which reads back as the week. */
  lemma WeekKeyFormat(d: Date)
    requires ValidDate(d)
    ensures var key := WeekKey(d);
            && key == IntToString(d.year) + "-W" + [DigitChar(WeekOf(d) / 10), DigitChar(WeekOf(d) % 10)]
            && AllDigits(key[|key| - 2..])
            && ParseNat(key[|key| - 2..]) == WeekOf(d)
  {
    WeekOfRange(d);
    KeyForFormat(d.year, WeekOf(d));
  }

  /** The label regex `^\d{4}-W` matches. */
  predicate HasYearPrefix(key: string) {
    |key| >= 6 && AllDigits(key[..4]) && key[4] == '-' && key[5] == 'W'
  }

  /** `week.replace(/^\d{4}-W/, 'Week ')`. */
  function Label(key: string): string {
    if HasYearPrefix(key) then "Week " + key[6..] else key
  }

  /** For four-digit years the chart label is `Week ` and the padded week. */
  lemma LabelOfKey(year: int, week: nat)
    requires 1000 <= year <= 9999 && week < 100
    ensures Label(KeyFor(year, week)) == "Week " + [DigitChar(week / 10), DigitChar(week % 10)]
  {
    KeyForFormat(year, week);
    FourDigits(year);
    var y := NatToString(year);
    var key := KeyFor(year, week);
    assert key == y + "-W" + [DigitChar(week / 10), DigitChar(week % 10)];
    assert key[..4] == y;
    assert key[6..] == [DigitChar(week / 10), DigitChar(week % 10)];
  }

  /** Years with fewer than four digits keep the whole key as the label. */
  lemma LabelKeepsShortYears(year: int, week: nat)
    requires 0 <= year < 1000 && week < 100
    ensures Label(KeyFor(year, week)) == KeyFor(year, week)
  {
    var y := NatToString(year);
    var rest := "-W" + PadStart(NatToString(week), 2, '0');
    var key := KeyFor(year, week);
    assert |y| <= 3 by { ShortNumbers(year); }
    assert key[|y|] == '-' by {
      assert key == y + rest;
      assert rest[0] == '-';
    }
    NoDigitNoPrefix(key, |y|);
  }

  /** A non-digit among the first four characters rules the prefix out. */
  lemma LabelKeepsNegativeYears(year: int, week: nat)
    requires year < 0
    ensures Label(KeyFor(year, week)) == KeyFor(year, week)
  {
    NoDigitNoPrefix(KeyFor(year, week), 0);
  }

  lemma NoDigitNoPrefix(key: string, i: nat)
    requires i < 4 && i < |key| && !IsDigit(key[i])
    ensures !HasYearPrefix(key)
  {
    if |key| >= 6 { assert key[..4][i] == key[i]; }
  }

  /** Years with more than four digits keep the whole key as the label. */
  lemma LabelKeepsLongYears(year: int, week: nat)
    requires 10000 <= year && week < 100
    ensures Label(KeyFor(year, week)) == KeyFor(year, week)
  {
    var y := NatToString(year);
    var rest := "-W" + PadStart(NatToString(week), 2, '0');
    var key := KeyFor(year, week);
    assert |y| >= 5 by { LongNumbers(year); }
    assert key[4] == y[4] by {
      assert key == y + rest;
    }
    assert IsDigit(y[4]);
  }

  /** Numbers below 1000 have at most three digits. */
  lemma ShortNumbers(n: nat)
    requires n < 1000
    ensures |NatToString(n)| <= 3
  {
    if n >= 10 {
      assert |NatToString(n / 10)| <= 2 by {
        if n / 10 >= 10 { assert |NatToString(n / 100)| == 1; }
      }
    }
  }

  /** Numbers from 10000 on have at least five digits. */
  lemma LongNumbers(n: nat)
    requires 10000 <= n
    ensures |NatToString(n)| >= 5
    decreases n
  {
    if n >= 100000 { LongNumbers(n / 10); }
    else { FourDigits(n / 10); }
  }

  lemma TwoDigitLess(x: nat, y: nat)
    requires x < 100 && y < 100
    ensures Less([DigitChar(x / 10), DigitChar(x % 10)], [DigitChar(y / 10), DigitChar(y % 10)]) <==> x < y
  {
    var a, b := [DigitChar(x / 10), DigitChar(x % 10)], [DigitChar(y / 10), DigitChar(y % 10)];
    assert a[1..] == [DigitChar(x % 10)] && b[1..] == [DigitChar(y % 10)];
    assert a[1..][1..] == [] && b[1..][1..] == [];
    assert !Less([], []);
    if x / 10 == y / 10 {
      assert a[0] == b[0];
      assert Less(a, b) == Less(a[1..], b[1..]);
      assert x < y <==> x % 10 < y % 10;
    } else {
      assert a[0] != b[0];
      assert x < y <==> x / 10 < y / 10;
    }
  }

  /** Within one year, the string order of keys is the order of weeks. */
  lemma KeyOrderWithinYear(year: int, v: nat, w: nat)
    requires v < 100 && w < 100
    ensures Less(KeyFor(year, v), KeyFor(year, w)) <==> v < w
  {
    KeyForFormat(year, v);
    KeyForFormat(year, w);
    LessCommonPrefix(IntToString(year) + "-W", [DigitChar(v / 10), DigitChar(v % 10)], [DigitChar(w / 10), DigitChar(w % 10)]);
    TwoDigitLess(v, w);
  }

  /** Dates of one year sort by their keys in week order. */
  lemma WeekKeyOrderWithinYear(a: Date, b: Date)
    requires ValidDate(a) && ValidDate(b) && a.year == b.year
    ensures Less(WeekKey(a), WeekKey(b)) <==> WeekOf(a) < WeekOf(b)
  {
    WeekOfRange(a);
    WeekOfRange(b);
    KeyOrderWithinYear(a.year, WeekOf(a), WeekOf(b));
  }

  lemma WeekSamples2024()
    ensures WeekOf(Date(2024, 0)) == 1 && WeekOf(Date(2024, 2)) == 1 && WeekOf(Date(2024, 9)) == 2
  {
    Jan1st2024();
  }

  /** 2024-01-01 and 2024-01-03 share week 1; 2024-01-10 falls in the later-sorted week 2. */
  lemma JanuaryWeeks2024()
    ensures WeekKey(Date(2024, 0)) == WeekKey(Date(2024, 2))
    ensures WeekKey(Date(2024, 9)) != WeekKey(Date(2024, 2))
    ensures Less(WeekKey(Date(2024, 2)), WeekKey(Date(2024, 9)))
  {
    WeekSamples2024();
    assert WeekKey(Date(2024, 0)) == KeyFor(2024, 1);
    assert WeekKey(Date(2024, 2)) == KeyFor(2024, 1);
    assert WeekKey(Date(2024, 9)) == KeyFor(2024, 2);
    KeyOrderWithinYear(2024, 1, 2);
    LessIrreflexive(KeyFor(2024, 2));
  }
}
