/**
  The display helpers of the sleep utilities: duration and efficiency text, the share
  of a sleep stage in the total sleep, and the colour of each hypnogram stage.
*/
module SleepUtils {
  import opened Wrappers
  import opened Js
  import OuraApi

  // ---------------------------------------------------------------------------
  // Durations

  /** The hours and minutes `formatDuration` shows: `Math.floor(s / 3600)` and `Math.floor((s % 3600) / 60)`. */
  function DurationParts(seconds: Number): (Integral, Integral)
  {
    (Floor(Div(seconds, Finite(3600.0))), Floor(Div(Rem(seconds, 3600.0), Finite(60.0))))
  }

  /** `formatDuration`: `{hours}h {minutes}m`. */
  function FormatDuration(seconds: Number): (r: string)
    ensures |r| >= 4 && r[|r| - 1] == 'm'
  {
    var (hours, minutes) := DurationParts(seconds);
    IntegralText(hours) + "h " + IntegralText(minutes) + "m"
  }

  /**
    For a duration of at least 0 seconds the hours are whole and at least 0, the
    minutes run from 0 to 59, and together they cover the duration to within a minute.
  */
  lemma DurationPartsBounds(s: real)
    requires s >= 0.0
    ensures var (hours, minutes) := DurationParts(Finite(s));
      && hours.Whole? && minutes.Whole? && hours.i >= 0 && 0 <= minutes.i < 60
      && (hours.i * 3600 + minutes.i * 60) as real <= s < (hours.i * 3600 + minutes.i * 60 + 60) as real
  {
    var h := (s / 3600.0).Floor;
    assert h >= 0;
    assert Trunc(s / 3600.0) == h;
    var rest := s - 3600.0 * (h as real);
    assert 0.0 <= rest < 3600.0;
    assert Rem(Finite(s), 3600.0) == Finite(rest);
    var m := (rest / 60.0).Floor;
    assert 0 <= m < 60;
    assert (m as real) * 60.0 <= rest < (m as real) * 60.0 + 60.0;
  }

  /**
    The text of a duration of at least 0 seconds is its whole hours and its whole
    minutes beyond them: the unique `h` and `m < 60` with `h*3600 + m*60 <= s < h*3600 + m*60 + 60`.
  */
  lemma FormatDurationOf(s: real, h: nat, m: nat)
    requires m < 60 && (h * 3600 + m * 60) as real <= s < (h * 3600 + m * 60 + 60) as real
    ensures FormatDuration(Finite(s)) == NatToString(h) + "h " + NatToString(m) + "m"
  {
    DurationPartsOf(s, h, m);
  }

  lemma DurationPartsOf(s: real, h: nat, m: nat)
    requires m < 60 && (h * 3600 + m * 60) as real <= s < (h * 3600 + m * 60 + 60) as real
    ensures DurationParts(Finite(s)) == (Whole(h), Whole(m))
  {
    FloorOfQuotient(s, 3600.0, h);
    var rest := s - 3600.0 * (h as real);
    assert Rem(Finite(s), 3600.0) == Finite(rest);
    FloorOfQuotient(rest, 60.0, m);
  }

  /** A quotient `x / d` between the whole numbers `k` and `k + 1` rounds down to `k`. */
  lemma FloorOfQuotient(x: real, d: real, k: int)
    requires d > 0.0 && (k as real) * d <= x < (k as real) * d + d
    ensures (x / d).Floor == k
  {
    var q := x / d;
    assert q * d == x;
    if q < k as real {
      ScaleMonotone(q, k as real, d);
    }
    if q >= (k as real) + 1.0 {
      ScaleMonotone((k as real) + 1.0, q, d);
    }
  }

  lemma ScaleMonotone(a: real, b: real, d: real)
    requires d > 0.0 && a <= b
    ensures a * d <= b * d
  {
    assert b * d - a * d == (b - a) * d;
  }

  /** A negative duration keeps JavaScript's signs: `%` truncates and `Math.floor` rounds down. */
  lemma FormatDurationNegative()
    ensures FormatDuration(Finite(-90.0)) == "-1h -2m"
  {
    assert (-90.0 / 3600.0).Floor == -1;
    assert Trunc(-90.0 / 3600.0) == 0;
    assert Rem(Finite(-90.0), 3600.0) == Finite(-90.0);
    assert (-90.0 / 60.0).Floor == -2;
    assert NatToString(1) == "1" && NatToString(2) == "2";
  }

  // ---------------------------------------------------------------------------
  // Efficiency

  /** `formatSleepEfficiency`: the rounded efficiency followed by `%`. */
  function FormatSleepEfficiency(efficiency: Number): (r: string)
    ensures |r| >= 2 && r[|r| - 1] == '%'
  {
    IntegralText(Round(efficiency)) + "%"
  }

  /** An efficiency within half a point of the whole number `k` (halves round up) shows as `k%`. */
  lemma FormatSleepEfficiencyOf(e: real, k: int)
    requires (k as real) - 0.5 <= e < (k as real) + 0.5
    ensures FormatSleepEfficiency(Finite(e)) == IntToString(k) + "%"
  {
    assert (e + 0.5).Floor == k;
  }

  // ---------------------------------------------------------------------------
  // Stage percentages

  /** The duration `getSleepStagePercentage` divides for `stage`, if `stage` names one. */
  function StagePart(d: OuraApi.SleepRecord, stage: string): (part: Option<Value>)
    ensures part.Some? <==> stage == "deep" || stage == "rem" || stage == "light"
  {
    if stage == "deep" then Some(d.deepSleepDuration)
    else if stage == "rem" then Some(d.remSleepDuration)
    else if stage == "light" then Some(d.lightSleepDuration)
    else None
  }

  /** `getSleepStagePercentage`: `part / total * 100`, or 0 for a total of exactly 0 or an unknown stage. */
  function GetSleepStagePercentage(d: OuraApi.SleepRecord, stage: string): (r: Number)
    ensures d.totalSleepDuration == Num(0.0) ==> r == Finite(0.0)
    ensures StagePart(d, stage).None? ==> r == Finite(0.0)
  {
    if d.totalSleepDuration == Num(0.0) then Finite(0.0)
    else match StagePart(d, stage)
      case Some(part) => Scale(Div(ToNumber(part), ToNumber(d.totalSleepDuration)), 100.0)
      case None => Finite(0.0)
  }

  /**
    With numeric durations and a positive total, a stage's percentage is its share of the
    total, at least 0 and at most 100 when the stage lasts no longer than the total.
  */
  lemma StagePercentageShare(d: OuraApi.SleepRecord, stage: string, part: real, total: real)
    requires d.totalSleepDuration == Num(total) && total > 0.0
    requires StagePart(d, stage) == Some(Num(part))
    ensures GetSleepStagePercentage(d, stage) == Finite(part / total * 100.0)
    ensures 0.0 <= part <= total ==> 0.0 <= part / total * 100.0 <= 100.0
  {
    if 0.0 <= part <= total {
      ShareAtMostAll(part, total);
    }
  }

  lemma ShareAtMostAll(p: real, t: real)
    requires t > 0.0 && 0.0 <= p <= t
    ensures 0.0 <= p / t * 100.0 <= 100.0
  {
  }

  lemma SumOfShares(a: real, b: real, c: real, t: real)
    requires t > 0.0
    ensures a / t * 100.0 + b / t * 100.0 + c / t * 100.0 == (a + b + c) / t * 100.0
  {
  }

  /** The three stage percentages add up to the stages' share of the total sleep, so to 100 when they fill it. */
  lemma StagePercentagesSum(d: OuraApi.SleepRecord, deep: real, rem: real, light: real, total: real)
    requires d.totalSleepDuration == Num(total) && total > 0.0
    requires d.deepSleepDuration == Num(deep) && d.remSleepDuration == Num(rem) && d.lightSleepDuration == Num(light)
    ensures GetSleepStagePercentage(d, "deep").Finite? && GetSleepStagePercentage(d, "rem").Finite?
      && GetSleepStagePercentage(d, "light").Finite?
    ensures GetSleepStagePercentage(d, "deep").r + GetSleepStagePercentage(d, "rem").r
      + GetSleepStagePercentage(d, "light").r == (deep + rem + light) / total * 100.0
    ensures deep + rem + light == total ==>
      GetSleepStagePercentage(d, "deep").r + GetSleepStagePercentage(d, "rem").r
        + GetSleepStagePercentage(d, "light").r == 100.0
  {
    StagePercentageShare(d, "deep", deep, total);
    StagePercentageShare(d, "rem", rem, total);
    StagePercentageShare(d, "light", light, total);
    SumOfShares(deep, rem, light, total);
    if deep + rem + light == total {
      WholeShare(total);
    }
  }

  lemma WholeShare(t: real)
    requires t > 0.0
    ensures t / t * 100.0 == 100.0
  {
  }

  // ---------------------------------------------------------------------------
  // Hypnogram colours

  /** `getHypnogramColors`: deep (1) blue, light (2) lime, REM (3) pink, awake (4) gray. */
  function HypnogramColors(): (colours: map<int, string>)
    ensures colours.Keys == {1, 2, 3, 4}
  {
    map[1 := "#3B82F6", 2 := "#A3E635", 3 := "#EC4899", 4 := "#9CA3AF"]
  }

  /** Every stage of the default hypnogram has a colour, and no two stages share one. */
  lemma HypnogramColorsCoverDefault()
    ensures forall x :: x in OuraApi.DEFAULT_STAGE_VALUES ==> x in HypnogramColors()
    ensures forall a, b :: a in HypnogramColors() && b in HypnogramColors() && a != b ==>
      HypnogramColors()[a] != HypnogramColors()[b]
  {
    var c := HypnogramColors();
    assert c[1] != c[2] && c[1] != c[3] && c[1] != c[4] && c[2] != c[3] && c[2] != c[4] && c[3] != c[4] by {
      assert c[1][1] == '3' && c[2][1] == 'A' && c[3][1] == 'E' && c[4][1] == '9';
    }
    forall x | x in OuraApi.DEFAULT_STAGE_VALUES
      ensures x in c
    {
      var i :| 0 <= i < |OuraApi.DEFAULT_STAGE_VALUES| && OuraApi.DEFAULT_STAGE_VALUES[i] == x;
    }
  }
}
