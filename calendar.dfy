/**
  The calendar arithmetic behind JavaScript's `Date` as the dashboard uses it, on
  instants given as integer milliseconds since 1970-01-01T00:00:00Z. Every day is
  86400000 ms long and all local-time operations are taken in UTC.
*/
module Calendar {
  import opened Wrappers
  import Js

  const DAY_MS: int := 86400000

  /** The instant at which the (UTC) day containing `ms` starts. */
  function StartOfDay(ms: int): int
  {
    (ms / DAY_MS) * DAY_MS
  }

  /** `Math.round((end - start) / 86400000)`: whole days between two instants, halves rounding up. */
  function DaysBetween(start: int, end: int): (r: int)
    ensures DAY_MS * r - DAY_MS / 2 <= end - start < DAY_MS * r + DAY_MS / 2
  {
    (2 * (end - start) + DAY_MS) / (2 * DAY_MS)
  }

  /** An exact number of days apart reads back as that number of days. */
  lemma DaysBetweenWhole(start: int, k: int)
    ensures DaysBetween(start, start + k * DAY_MS) == k
  {
    var r := DaysBetween(start, start + k * DAY_MS);
    assert DAY_MS * (r - k) <= DAY_MS / 2 && DAY_MS * (k - r) < DAY_MS / 2;
  }

  /** A proleptic Gregorian date; `month` runs from 1 to 12. */
  datatype Civil = Civil(year: int, month: int, day: int)

  /**
    The date of the day numbered `z` (day 0 is 1970-01-01). Days are counted in eras of
    400 years (146097 days) whose years start on 1 March, so that a leap day is the last
    day of its year; era 0 starts on 0000-03-01, day -719468.
  */
  function CivilFromDays(z: int): Civil
  {
    var era := (z + 719468) / 146097;
    var doe := z + 719468 - era * 146097;
    CivilOfEraYear(era, YearOfEra(doe), doe)
  }

  /** The date of the era's day `doe`, which lies in the era's year `yoe`. */
  function CivilOfEraYear(era: int, yoe: int, doe: int): Civil
  {
    CivilOfYearDay(yoe + era * 400, doe - DaysBeforeYear(yoe))
  }

  /** The date of the day `doy` of the year that starts on 1 March of `y`. */
  function CivilOfYearDay(y: int, doy: int): Civil
  {
    var mp := MonthOfYear(doy);
    var m := if mp < 10 then mp + 3 else mp - 9;
    Civil(if m <= 2 then y + 1 else y, m, doy - DaysBeforeMonth(mp) + 1)
  }

  /** The number of the day with the given date (day 0 is 1970-01-01). */
  function DaysFromCivil(c: Civil): int
  {
    var y := MarchYear(c);
    var era := y / 400;
    era * 146097 + DaysBeforeYear(y - era * 400) + DayOfMarchYear(c) - 719468
  }

  /** The year, starting on 1 March, that holds the date: January and February belong to the year before. */
  function MarchYear(c: Civil): int
  {
    if c.month <= 2 then c.year - 1 else c.year
  }

  /** The day of its year, counted from 1 March (day 0). */
  function DayOfMarchYear(c: Civil): int
  {
    var mp := if c.month > 2 then c.month - 3 else c.month + 9;
    DaysBeforeMonth(mp) + c.day - 1
  }

  predicate IsLeapYear(y: int)
  {
    y % 4 == 0 && (y % 100 != 0 || y % 400 == 0)
  }

  function DaysInMonth(y: int, m: int): int
  {
    if m == 2 then (if IsLeapYear(y) then 29 else 28)
    else if m == 4 || m == 6 || m == 9 || m == 11 then 30
    else 31
  }

  function Zeros(k: nat): (r: string)
    ensures |r| == k && forall i :: 0 <= i < k ==> r[i] == '0'
  {
    if k == 0 then "" else "0" + Zeros(k - 1)
  }

  /** `n` in decimal, left-padded with zeros to `width` digits. */
  function Pad(n: int, width: nat): string
  {
    if n < 0 then Js.IntToString(n)
    else
      var t := Js.NatToString(n);
      if |t| < width then Zeros(width - |t|) + t else t
  }

  /** Years outside 0..9999 are written with a sign and six digits. */
  function YearText(y: int): string
  {
    if 0 <= y <= 9999 then Pad(y, 4)
    else (if y < 0 then "-" else "+") + Pad(if y < 0 then -y else y, 6)
  }

  /** The `YYYY-MM-DD` part of `new Date(ms).toISOString()`. */
  function IsoDate(ms: int): string
  {
    var c := CivilFromDays(ms / DAY_MS);
    YearText(c.year) + "-" + Pad(c.month, 2) + "-" + Pad(c.day, 2)
  }

  /** Two instants of the same day have the same date text. */
  lemma SameDayIsoDate(a: int, b: int)
    requires a / DAY_MS == b / DAY_MS
    ensures IsoDate(a) == IsoDate(b)
  {
  }

  /** The day numbers of an instant, of its day's start and of the next day's start. */
  lemma DayNumbers(ms: int)
    ensures StartOfDay(ms) / DAY_MS == ms / DAY_MS
    ensures (ms + DAY_MS) / DAY_MS == ms / DAY_MS + 1
    ensures (StartOfDay(ms) + DAY_MS) / DAY_MS == ms / DAY_MS + 1
  {
  }

  /** `new Date(ms).toISOString()`: `YYYY-MM-DDTHH:mm:ss.sssZ`. */
  function IsoTimestamp(ms: int): string
  {
    var t := ms % DAY_MS;
    IsoDate(ms) + "T" + Pad(t / 3600000, 2) + ":" + Pad(t / 60000 % 60, 2) + ":"
      + Pad(t / 1000 % 60, 2) + "." + Pad(t % 1000, 3) + "Z"
  }

  /** A timestamp text is never empty: it ends in `Z`. */
  lemma IsoTimestampNonEmpty(ms: int)
    ensures IsoTimestamp(ms) != ""
  {
    assert IsoTimestamp(ms)[|IsoTimestamp(ms)| - 1] == 'Z';
  }

  /**
    `new Date(s).getTime()` for a date-only ISO string `YYYY-MM-DD`, which JavaScript
    reads as UTC midnight. `None` stands for an invalid date (a NaN time).
  */
  function ParseIsoDate(s: string): Option<int>
  {
    if |s| == 10 && s[4] == '-' && s[7] == '-'
       && Js.AllDigits(s[..4]) && Js.AllDigits(s[5..7]) && Js.AllDigits(s[8..])
    then
      var y, m, d := Js.DigitsValue(s[..4]), Js.DigitsValue(s[5..7]), Js.DigitsValue(s[8..]);
      if 1 <= m <= 12 && 1 <= d <= DaysInMonth(y, m)
      then Some(DaysFromCivil(Civil(y, m, d)) * DAY_MS)
      else None
    else None
  }

  /**
    `subMonths(date, n)`: the same time of day `n` months earlier, with the day of the
    month clamped to the length of the target month.
  */
  function SubMonths(ms: int, n: int): (r: int)
    ensures r % DAY_MS == ms % DAY_MS
  {
    var k := DaysFromCivil(MonthsBefore(CivilFromDays(ms / DAY_MS), n));
    TimeOfDayKept(k, ms % DAY_MS);
    k * DAY_MS + ms % DAY_MS
  }

  /** The date `n` months before `c` as `subMonths` computes it, the day clamped to the month reached. */
  function MonthsBefore(c: Civil, n: int): Civil
  {
    var total := c.year * 12 + (c.month - 1) - n;
    var y, m := total / 12, total % 12 + 1;
    Civil(y, m, if c.day < DaysInMonth(y, m) then c.day else DaysInMonth(y, m))
  }

  /** Whole days added to a time of day leave the time of day. */
  lemma TimeOfDayKept(k: int, t: int)
    requires 0 <= t < DAY_MS
    ensures (k * DAY_MS + t) % DAY_MS == t
    ensures (k * DAY_MS + t) / DAY_MS == k
  {
  }

  /** The days of an era before its year `yoe`. */
  function DaysBeforeYear(yoe: int): int
  {
    365 * yoe + yoe / 4 - yoe / 100
  }

  /** The year of an era that holds the era's day `doe`. */
  function YearOfEra(doe: int): int
  {
    (doe - doe / 1460 + doe / 36524 - doe / 146096) / 365
  }

  /** The days of a year before its month `mp`, counted from March (0) to February (11). */
  function DaysBeforeMonth(mp: int): int
  {
    (153 * mp + 2) / 5
  }

  /** The month, counted from March (0), that holds the year's day `doy`. */
  function MonthOfYear(doy: int): int
  {
    (5 * doy + 2) / 153
  }

  /** The era's year `yoe` ends with a 29 February. */
  predicate LeapInEra(yoe: int)
  {
    (yoe + 1) % 4 == 0 && ((yoe + 1) % 100 != 0 || yoe == 399)
  }

  /** The length of month `mp` counted from March, February having 29 days in a leap year. */
  function MarchMonthDays(mp: int, leap: bool): int
  {
    if mp == 11 then (if leap then 29 else 28) else DaysBeforeMonth(mp + 1) - DaysBeforeMonth(mp)
  }

  /** A real date: a month from 1 to 12 and a day that month has. */
  predicate ValidCivil(c: Civil)
  {
    1 <= c.month <= 12 && 1 <= c.day <= DaysInMonth(c.year, c.month)
  }

  /** Inside one century of an era, one 4-year cycle: the year that holds a day and its day of the year. */
  lemma YearOfEraInCycle(c: int, q: int, r: int)
    requires 0 <= c <= 3 && 0 <= q <= 24 && 0 <= r <= 1460
    requires q == 24 ==> r <= 1459
    ensures YearOfEra(36524 * c + 1461 * q + r) == 100 * c + 4 * q + (if r == 1460 then 3 else r / 365)
  {
    var doe := 36524 * c + 1461 * q + r;
    assert doe / 36524 == c;
    assert doe / 146096 == 0;
    var extra := if 24 * c + q + r >= 1460 then 1 else 0;
    assert doe / 1460 == 25 * c + q + extra;
  }

  /** The days before a year: whole centuries, whole 4-year cycles, then whole years. */
  lemma DaysBeforeYearInCycle(c: int, q: int, i: int)
    requires 0 <= c <= 3 && 0 <= q <= 24 && 0 <= i <= 3
    ensures DaysBeforeYear(100 * c + 4 * q + i) == 36524 * c + 1461 * q + 365 * i
  {
    var yoe := 100 * c + 4 * q + i;
    assert yoe / 4 == 25 * c + q;
    assert yoe / 100 == c;
  }

  /** Every day of an era lies in one of its 400 years, at a day that year has. */
  lemma YearOfEraBounds(doe: int)
    requires 0 <= doe <= 146096
    ensures var yoe := YearOfEra(doe); var doy := doe - DaysBeforeYear(yoe);
      0 <= yoe <= 399 && 0 <= doy <= 365 && (doy == 365 ==> LeapInEra(yoe))
  {
    if doe == 146096 {
      assert YearOfEra(doe) == 399;
      assert DaysBeforeYear(399) == 145731;
    } else {
      var c := doe / 36524;
      var q := doe % 36524 / 1461;
      var r := doe % 36524 % 1461;
      assert doe == 36524 * c + 1461 * q + r;
      YearOfCycleDay(c, q, r);
    }
  }

  /** The day `r` of the 4-year cycle `q` in the century `c` of an era, as a year and a day of it. */
  lemma YearOfCycleDay(c: int, q: int, r: int)
    requires 0 <= c <= 3 && 0 <= q <= 24 && 0 <= r <= 1460
    requires q == 24 ==> r <= 1459
    ensures var doe := 36524 * c + 1461 * q + r;
      var yoe := YearOfEra(doe); var doy := doe - DaysBeforeYear(yoe);
      0 <= yoe <= 399 && 0 <= doy <= 365 && (doy == 365 ==> LeapInEra(yoe))
  {
    YearOfEraInCycle(c, q, r);
    if r == 1460 {
      DaysBeforeYearInCycle(c, q, 3);
      LeapOfCycle(c, q);
    } else {
      DaysBeforeYearInCycle(c, q, r / 365);
    }
  }

  /** The last year of every 4-year cycle but a century's last ends with a leap day. */
  lemma LeapOfCycle(c: int, q: int)
    requires 0 <= c <= 3 && 0 <= q <= 23
    ensures LeapInEra(100 * c + 4 * q + 3)
  {
    assert 100 * c + 4 * q + 4 == 4 * (25 * c + q + 1);
  }

  /** A day that the era's year `yoe` has lies in that year. */
  lemma YearOfEraInverse(yoe: int, doy: int)
    requires 0 <= yoe <= 399 && 0 <= doy <= 365 && (doy == 365 ==> LeapInEra(yoe))
    ensures 0 <= DaysBeforeYear(yoe) + doy <= 146096
    ensures YearOfEra(DaysBeforeYear(yoe) + doy) == yoe
  {
    var c, q, i := yoe / 100, yoe % 100 / 4, yoe % 4;
    assert yoe == 100 * c + 4 * q + i;
    DaysBeforeYearInCycle(c, q, i);
    if yoe == 399 && doy == 365 {
      assert DaysBeforeYear(yoe) + doy == 146096;
    } else {
      if doy == 365 {
        LeapYearOfCycle(yoe);
      }
      YearOfEraInCycle(c, q, 365 * i + doy);
    }
  }

  /** A year ending with a leap day is the last of its 4-year cycle, and not of a century but the era's. */
  lemma LeapYearOfCycle(yoe: int)
    requires 0 <= yoe <= 399 && LeapInEra(yoe)
    ensures yoe % 4 == 3
    ensures yoe % 100 / 4 == 24 ==> yoe == 399
  {
  }

  /** Every day of a year (from March) lies in one of its twelve months, at a day that month has. */
  lemma MonthOfYearBounds(doy: int, leap: bool)
    requires 0 <= doy <= (if leap then 365 else 364)
    ensures var mp := MonthOfYear(doy); var d := doy - DaysBeforeMonth(mp) + 1;
      0 <= mp <= 11 && 1 <= d <= MarchMonthDays(mp, leap)
  {
  }

  /** A day that the month `mp` has lies in that month, on a day the year has. */
  lemma MonthOfYearInverse(mp: int, d: int, leap: bool)
    requires 0 <= mp <= 11 && 1 <= d <= MarchMonthDays(mp, leap)
    ensures var doy := DaysBeforeMonth(mp) + d - 1;
      0 <= doy <= (if leap then 365 else 364) && MonthOfYear(doy) == mp
  {
  }

  /** Month `mp` counted from March has the length of the calendar month it names. */
  lemma MarchMonthDaysInMonth(mp: int, y: int)
    requires 0 <= mp <= 11
    ensures DaysInMonth(y, if mp < 10 then mp + 3 else mp - 9) == MarchMonthDays(mp, IsLeapYear(y))
  {
  }

  /** The era's year `yoe` ends with a leap day exactly when the following calendar year is a leap year. */
  lemma LeapInEraShift(yoe: int, era: int)
    requires 0 <= yoe <= 399
    ensures IsLeapYear(yoe + era * 400 + 1) == LeapInEra(yoe)
  {
    EraShiftMods(yoe + 1, era);
  }

  /** Whole eras do not change a year's remainders by 4, 100 and 400. */
  lemma EraShiftMods(w: int, era: int)
    ensures (w + era * 400) % 4 == w % 4
    ensures (w + era * 400) % 100 == w % 100
    ensures (w + era * 400) % 400 == w % 400
  {
    assert w + era * 400 == w + 4 * (era * 100);
  }

  /** Each day of the year from 1 March of `y` is a real date, which lies that day into that year. */
  lemma CivilOfYearDayValid(y: int, doy: int)
    requires 0 <= doy <= (if IsLeapYear(y + 1) then 365 else 364)
    ensures var c := CivilOfYearDay(y, doy);
      ValidCivil(c) && MarchYear(c) == y && DayOfMarchYear(c) == doy
  {
    var leap := IsLeapYear(y + 1);
    MonthOfYearBounds(doy, leap);
    var mp := MonthOfYear(doy);
    var c := CivilOfYearDay(y, doy);
    MarchMonthDaysInMonth(mp, c.year);
    assert MarchMonthDays(mp, IsLeapYear(c.year)) == MarchMonthDays(mp, leap);
  }

  /** A real date is the day of its year from 1 March that it lies on. */
  lemma CivilOfYearDayInverse(c: Civil)
    requires ValidCivil(c)
    ensures 0 <= DayOfMarchYear(c) <= (if IsLeapYear(MarchYear(c) + 1) then 365 else 364)
    ensures CivilOfYearDay(MarchYear(c), DayOfMarchYear(c)) == c
  {
    var mp := if c.month > 2 then c.month - 3 else c.month + 9;
    var leap := IsLeapYear(MarchYear(c) + 1);
    MarchMonthDaysInMonth(mp, c.year);
    assert MarchMonthDays(mp, IsLeapYear(c.year)) == MarchMonthDays(mp, leap);
    MonthOfYearInverse(mp, c.day, leap);
  }

  /** The date of a day number is a real date. */
  lemma CivilFromDaysValid(z: int)
    ensures ValidCivil(CivilFromDays(z))
  {
    var doe := z + 719468 - (z + 719468) / 146097 * 146097;
    YearOfEraBounds(doe);
    CivilOfEraYearValid((z + 719468) / 146097, YearOfEra(doe), doe);
  }

  /** The date of a day number numbers that day again. */
  lemma CivilFromDaysInverse(z: int)
    ensures DaysFromCivil(CivilFromDays(z)) == z
  {
    var doe := z + 719468 - (z + 719468) / 146097 * 146097;
    YearOfEraBounds(doe);
    CivilOfEraYearNumber(z, (z + 719468) / 146097, YearOfEra(doe), doe);
  }

  /** The day `doe` of the era, lying in the era's year `yoe`, is a real date. */
  lemma CivilOfEraYearValid(era: int, yoe: int, doe: int)
    requires 0 <= yoe <= 399
    requires var doy := doe - DaysBeforeYear(yoe); 0 <= doy <= 365 && (doy == 365 ==> LeapInEra(yoe))
    ensures ValidCivil(CivilOfEraYear(era, yoe, doe))
  {
    LeapInEraShift(yoe, era);
    CivilOfYearDayValid(yoe + era * 400, doe - DaysBeforeYear(yoe));
  }

  /** The date of the day `doe` of the era, lying in the era's year `yoe`, has that day's number. */
  lemma CivilOfEraYearNumber(z: int, era: int, yoe: int, doe: int)
    requires 0 <= yoe <= 399 && z == era * 146097 + doe - 719468
    requires var doy := doe - DaysBeforeYear(yoe); 0 <= doy <= 365 && (doy == 365 ==> LeapInEra(yoe))
    ensures DaysFromCivil(CivilOfEraYear(era, yoe, doe)) == z
  {
    LeapInEraShift(yoe, era);
    var c := CivilOfYearDay(yoe + era * 400, doe - DaysBeforeYear(yoe));
    CivilOfYearDayValid(yoe + era * 400, doe - DaysBeforeYear(yoe));
    DaysFromCivilParts(c, era, yoe);
  }

  /** The day number of a date in the era's year `yoe`, from the days before that year and in it. */
  lemma DaysFromCivilParts(c: Civil, era: int, yoe: int)
    requires 0 <= yoe <= 399 && MarchYear(c) == yoe + era * 400
    ensures DaysFromCivil(c) == era * 146097 + DaysBeforeYear(yoe) + DayOfMarchYear(c) - 719468
  {
    EraOfYear(yoe, era);
  }

  /** The year `yoe` of an era lies in that era. */
  lemma EraOfYear(yoe: int, era: int)
    requires 0 <= yoe <= 399
    ensures (yoe + era * 400) / 400 == era
  {
  }

  /** The day number of a real date has that date. */
  lemma DaysFromCivilInverse(c: Civil)
    requires ValidCivil(c)
    ensures CivilFromDays(DaysFromCivil(c)) == c
  {
    var y := MarchYear(c);
    var era := y / 400;
    var yoe := y - era * 400;
    var doy := DayOfMarchYear(c);
    var doe := DaysBeforeYear(yoe) + doy;
    assert 0 <= doe <= 146096 && YearOfEra(doe) == yoe by {
      MarchDayOfEra(c, era, yoe);
      YearOfEraInverse(yoe, doy);
    }
    calc {
      CivilFromDays(DaysFromCivil(c));
      { DaysFromCivilParts(c, era, yoe);
        EraOfDayNumber(DaysFromCivil(c), era, doe); }
      CivilOfEraYear(era, yoe, doe);
      { CivilOfEraYearDay(era, yoe, y, doy); }
      CivilOfYearDay(y, doy);
      { CivilOfYearDayInverse(c); }
      c;
    }
  }

  /** A real date lies on a day that its year from 1 March has, counted as the era's year `yoe`. */
  lemma MarchDayOfEra(c: Civil, era: int, yoe: int)
    requires ValidCivil(c) && 0 <= yoe <= 399 && MarchYear(c) == yoe + era * 400
    ensures 0 <= DayOfMarchYear(c) <= 365 && (DayOfMarchYear(c) == 365 ==> LeapInEra(yoe))
  {
    CivilOfYearDayInverse(c);
    LeapInEraShift(yoe, era);
  }

  /** The day `doy` of the era's year `yoe`, the year from 1 March of `y`, is that year's day `doy`. */
  lemma CivilOfEraYearDay(era: int, yoe: int, y: int, doy: int)
    requires yoe + era * 400 == y
    ensures CivilOfEraYear(era, yoe, DaysBeforeYear(yoe) + doy) == CivilOfYearDay(y, doy)
  {
  }

  /** The day number of the era's day `doe` lies in that era. */
  lemma EraOfDayNumber(z: int, era: int, doe: int)
    requires 0 <= doe <= 146096 && z == era * 146097 + doe - 719468
    ensures CivilFromDays(z) == CivilOfEraYear(era, YearOfEra(doe), doe)
  {
    assert (z + 719468) / 146097 == era;
  }

  /**
    The date `n` months before: the month moves back by `n` across years, and the day of
    the month is kept but clamped to the length of the month reached.
  */
  lemma SubMonthsDate(ms: int, n: int)
    ensures var c, t := CivilFromDays(ms / DAY_MS), CivilFromDays(SubMonths(ms, n) / DAY_MS);
      && 1 <= t.month <= 12
      && t.year * 12 + t.month == c.year * 12 + c.month - n
      && t.day == (if c.day < DaysInMonth(t.year, t.month) then c.day else DaysInMonth(t.year, t.month))
  {
    var c := CivilFromDays(ms / DAY_MS);
    var k := DaysFromCivil(MonthsBefore(c, n));
    assert SubMonths(ms, n) / DAY_MS == k by {
      TimeOfDayKept(k, ms % DAY_MS);
    }
    assert CivilFromDays(k) == MonthsBefore(c, n) by {
      CivilFromDaysValid(ms / DAY_MS);
      DaysFromCivilInverse(MonthsBefore(c, n));
    }
  }

  /** A string of zeros is worth nothing. */
  lemma {:induction false} ZerosWorthless(j: nat)
    ensures Js.AllDigits(Zeros(j)) && Js.DigitsValue(Zeros(j)) == 0
  {
    if j > 0 {
      ZerosWorthless(j - 1);
      assert Zeros(j)[..j - 1] == Zeros(j - 1);
    }
  }

  /** Leading zeros do not change the value of a digit string. */
  lemma {:induction false} ZerosValue(j: nat, t: string)
    requires Js.AllDigits(t)
    ensures Js.AllDigits(Zeros(j) + t) && Js.DigitsValue(Zeros(j) + t) == Js.DigitsValue(t)
    decreases |t|
  {
    if t == [] {
      ZerosWorthless(j);
      assert Zeros(j) + t == Zeros(j);
    } else {
      var u := Zeros(j) + t;
      ZerosValue(j, t[..|t| - 1]);
      assert u[..|u| - 1] == Zeros(j) + t[..|t| - 1];
    }
  }

  /** A number below `10^w`, padded to `w` digits, is `w` digits worth that number. */
  lemma PadDigits(n: nat, w: nat)
    requires 1 <= w && n < Js.Pow10(w)
    ensures |Pad(n, w)| == w && Js.AllDigits(Pad(n, w)) && Js.DigitsValue(Pad(n, w)) == n
  {
    var t := Js.NatToString(n);
    Js.NatToStringLength(n, w);
    var p := Pad(n, w);
    assert |p| == w && Js.AllDigits(p) && Js.DigitsValue(p) == Js.DigitsValue(t) by {
      if |t| < w {
        assert p == Zeros(w - |t|) + t;
        ZerosValue(w - |t|, t);
      } else {
        assert p == t;
      }
    }
    Js.NatToStringValue(n);
  }

  /** Padding the value of a digit string to its length gives the string back. */
  lemma PadOfDigits(u: string)
    requires 1 <= |u| && Js.AllDigits(u)
    ensures Pad(Js.DigitsValue(u), |u|) == u
  {
    Js.DigitsValueBound(u);
    PadDigits(Js.DigitsValue(u), |u|);
    Js.DigitsValueInjective(Pad(Js.DigitsValue(u), |u|), u);
  }

  /** The text of 4, 2 and 2 digits joined by dashes reads as the day the digits name, if there is one. */
  lemma ParseIsoDateOfDigits(yt: string, mt: string, dt: string)
    requires |yt| == 4 && |mt| == 2 && |dt| == 2
    requires Js.AllDigits(yt) && Js.AllDigits(mt) && Js.AllDigits(dt)
    ensures var c := Civil(Js.DigitsValue(yt), Js.DigitsValue(mt), Js.DigitsValue(dt));
      ParseIsoDate(yt + "-" + mt + "-" + dt) == if ValidCivil(c) then Some(DaysFromCivil(c) * DAY_MS) else None
  {
    var s := yt + "-" + mt + "-" + dt;
    assert s[..4] == yt && s[4] == '-' && s[5..7] == mt && s[7] == '-' && s[8..] == dt;
  }

  /** The date text of an instant in the years 0 to 9999 reads back as the start of its day. */
  lemma IsoDateRoundTrip(ms: int)
    requires 0 <= CivilFromDays(ms / DAY_MS).year <= 9999
    ensures ParseIsoDate(IsoDate(ms)) == Some(StartOfDay(ms))
  {
    var c := CivilFromDays(ms / DAY_MS);
    assert ValidCivil(c) && DaysFromCivil(c) == ms / DAY_MS by {
      CivilFromDaysValid(ms / DAY_MS);
      CivilFromDaysInverse(ms / DAY_MS);
    }
    ParseIsoDateOfCivil(c);
  }

  /** The `YYYY-MM-DD` text of a real date in the years 0 to 9999 reads as that date's midnight. */
  lemma ParseIsoDateOfCivil(c: Civil)
    requires ValidCivil(c) && 0 <= c.year <= 9999
    ensures ParseIsoDate(YearText(c.year) + "-" + Pad(c.month, 2) + "-" + Pad(c.day, 2))
      == Some(DaysFromCivil(c) * DAY_MS)
  {
    assert Js.Pow10(4) == 10000 && Js.Pow10(2) == 100;
    assert c.day <= 31;
    PadDigits(c.year, 4);
    PadDigits(c.month, 2);
    PadDigits(c.day, 2);
    ParseIsoDateOfDigits(Pad(c.year, 4), Pad(c.month, 2), Pad(c.day, 2));
  }

  /** A text `ParseIsoDate` accepts is the date text of the instant it reads as. */
  lemma ParseIsoDateRoundTrip(s: string)
    requires ParseIsoDate(s).Some?
    ensures IsoDate(ParseIsoDate(s).value) == s
  {
    var yt, mt, dt := s[..4], s[5..7], s[8..];
    assert s == yt + "-" + mt + "-" + dt;
    var c := Civil(Js.DigitsValue(yt), Js.DigitsValue(mt), Js.DigitsValue(dt));
    var k := DaysFromCivil(c);
    assert ParseIsoDate(s).value / DAY_MS == k by {
      assert ParseIsoDate(s).value == k * DAY_MS;
    }
    DaysFromCivilInverse(c);
    assert Js.Pow10(4) == 10000;
    Js.DigitsValueBound(yt);
    PadOfDigits(yt);
    PadOfDigits(mt);
    PadOfDigits(dt);
  }
}
