/**
  The Oura client of the dashboard (`src/lib/oura-api.ts`): it maps the records of
  the two upstream sources (detailed sleep periods and daily sleep summaries) onto one
  canonical record, merges the summary scores into the detailed records by day,
  chooses which source to return, generates mock data, and decodes hypnogram strings.

  Fetch results, the clock and `Math.random` are inputs.
*/
module OuraApi {
  import opened Wrappers
  import opened Js
  import Http
  import Calendar

  // ---------------------------------------------------------------------------
  // Records

  /** A note saved for one night (`SleepNote`). */
  datatype SleepNote = SleepNote(id: string, sleepDate: string, notes: string, createdAt: string, updatedAt: string)

  /**
    A canonical sleep record (`OuraSleepData`, with the optional note of
    `SleepDataWithNotes`). Each field holds the value the mapping found for it, which is
    not always of the declared type: `||` keeps any truthy value. `rawData` is the
    unwrapped upstream record (`undefined` for mock records).
  */
  datatype SleepRecord = SleepRecord(
    id: Value, day: Value, bedtimeStart: Value, bedtimeEnd: Value,
    latency: Value, totalSleepDuration: Value, awakeTime: Value,
    lightSleepDuration: Value, remSleepDuration: Value, deepSleepDuration: Value,
    efficiency: Value, hypnogram5min: Value, hrLowest: Value, hrAverage: Value,
    temperatureDelta: Value, score: Value, rawData: Value, notes: Option<SleepNote>)

  /**
    The nondeterministic inputs of the client: the clock (`new Date()`), and the random
    seven-character id suffix given to the n-th mapped record of each source when it has
    no id of its own.
  */
  datatype Oracle = Oracle(nowMs: int, summaryIds: nat -> string, detailedIds: nat -> string)

  // ---------------------------------------------------------------------------
  // Mapping an upstream record

  /** `item.sleep || item`: the record itself, or the `sleep` object nested in it. */
  function Payload(item: Value): (v: Value)
    ensures Truthy(item) ==> Truthy(v)
  {
    Or(Get(item, "sleep"), item)
  }

  const DEFAULT_HYPNOGRAM: string := "4444332221111222333444332221111222333444"

  /**
    The hypnogram field: `hypnogram.hypnogram_5min` when `hypnogram` is an object with
    that field truthy, then `sleep_phase_5_min`, then `hypnogram_5min`, then the
    default pattern.
  */
  function Hypnogram(v: Value): (r: Value)
    ensures Truthy(r)
  {
    var nested := Get(v, "hypnogram");
    if IsObjectType(nested) && Truthy(Get(nested, "hypnogram_5min")) then Get(nested, "hypnogram_5min")
    else
      FirstTruthyIsCandidate(v, [["sleep_phase_5_min"], ["hypnogram_5min"]], Str(DEFAULT_HYPNOGRAM));
      FirstTruthy(v, [["sleep_phase_5_min"], ["hypnogram_5min"]], Str(DEFAULT_HYPNOGRAM))
  }

  // The candidate fields probed for each canonical field, in priority order.

  const DETAILED_TOTAL: seq<Path> := [["duration"], ["total_sleep_duration"], ["total_sleep"], ["sleep_duration"], ["total"]]
  const DETAILED_AWAKE: seq<Path> := [["awake_time"], ["awake_duration"], ["awake"]]
  const DETAILED_LIGHT: seq<Path> := [["light_sleep_duration"], ["light_sleep"], ["light"]]
  const DETAILED_REM: seq<Path> := [["rem_sleep_duration"], ["rem_sleep"], ["rem"]]
  const DETAILED_DEEP: seq<Path> := [["deep_sleep_duration"], ["deep_sleep"], ["deep"]]

  const SUMMARY_LATENCY: seq<Path> := [["sleep_latency"], ["latency"], ["contributors", "latency", "value"]]
  const SUMMARY_TOTAL: seq<Path> :=
    [["duration"], ["total_sleep_duration"], ["total_sleep"], ["sleep_duration"], ["contributors", "total_sleep", "value"]]
  const SUMMARY_AWAKE: seq<Path> :=
    [["awake_time"], ["awake_duration"], ["awake"], ["contributors", "awake_time", "value"]]
  const SUMMARY_LIGHT: seq<Path> :=
    [["light_sleep_duration"], ["light_sleep"], ["light"], ["contributors", "light_sleep", "value"]]
  const SUMMARY_REM: seq<Path> :=
    [["rem_sleep_duration"], ["rem_sleep"], ["rem"], ["contributors", "rem_sleep", "value"]]
  const SUMMARY_DEEP: seq<Path> :=
    [["deep_sleep_duration"], ["deep_sleep"], ["deep"], ["contributors", "deep_sleep", "value"]]
  const SUMMARY_EFFICIENCY: seq<Path> := [["efficiency"], ["contributors", "efficiency", "value"]]
  const SUMMARY_HR_LOWEST: seq<Path> := [["hr_lowest"], ["contributors", "restfulness", "hr_lowest"]]
  const SUMMARY_HR_AVERAGE: seq<Path> := [["hr_average"], ["contributors", "restfulness", "hr_average"]]
  const SUMMARY_TEMPERATURE: seq<Path> := [["temperature_delta"], ["contributors", "temperature", "value"]]

  /** The `n`-th record of the detailed source, mapped onto the canonical record. */
  function MapDetailed(item: Value, n: nat, startDate: string, o: Oracle): SleepRecord
  {
    var v := Payload(item);
    var now := Str(Calendar.IsoTimestamp(o.nowMs));
    var zero := Num(0.0);
    SleepRecord(
      id := Or(Get(v, "id"), Str("detailed-" + o.detailedIds(n))),
      day := Or(Get(v, "day"), Str(startDate)),
      bedtimeStart := Or(Get(v, "bedtime_start"), now),
      bedtimeEnd := Or(Get(v, "bedtime_end"), now),
      latency := FirstTruthy(v, [["latency"]], zero),
      totalSleepDuration := FirstTruthy(v, DETAILED_TOTAL, zero),
      awakeTime := FirstTruthy(v, DETAILED_AWAKE, zero),
      lightSleepDuration := FirstTruthy(v, DETAILED_LIGHT, zero),
      remSleepDuration := FirstTruthy(v, DETAILED_REM, zero),
      deepSleepDuration := FirstTruthy(v, DETAILED_DEEP, zero),
      efficiency := FirstTruthy(v, [["efficiency"]], zero),
      hypnogram5min := Hypnogram(v),
      hrLowest := FirstTruthy(v, [["hr_lowest"]], zero),
      hrAverage := FirstTruthy(v, [["hr_average"]], zero),
      temperatureDelta := FirstTruthy(v, [["temperature_delta"]], zero),
      score := DetailedScore(v),
      rawData := v,
      notes := None)
  }

  /** The `n`-th record of the daily summary source, mapped onto the canonical record. */
  function MapSummary(item: Value, n: nat, startDate: string, o: Oracle): SleepRecord
  {
    var v := Payload(item);
    var now := Str(Calendar.IsoTimestamp(o.nowMs));
    var zero := Num(0.0);
    SleepRecord(
      id := Or(Get(v, "id"), Str("summary-" + o.summaryIds(n))),
      day := Or(Get(v, "day"), Str(startDate)),
      bedtimeStart := Or(Get(v, "bedtime_start"), now),
      bedtimeEnd := Or(Get(v, "bedtime_end"), now),
      latency := FirstTruthy(v, SUMMARY_LATENCY, zero),
      totalSleepDuration := FirstTruthy(v, SUMMARY_TOTAL, zero),
      awakeTime := FirstTruthy(v, SUMMARY_AWAKE, zero),
      lightSleepDuration := FirstTruthy(v, SUMMARY_LIGHT, zero),
      remSleepDuration := FirstTruthy(v, SUMMARY_REM, zero),
      deepSleepDuration := FirstTruthy(v, SUMMARY_DEEP, zero),
      efficiency := FirstTruthy(v, SUMMARY_EFFICIENCY, zero),
      hypnogram5min := Hypnogram(v),
      hrLowest := FirstTruthy(v, SUMMARY_HR_LOWEST, zero),
      hrAverage := FirstTruthy(v, SUMMARY_HR_AVERAGE, zero),
      temperatureDelta := FirstTruthy(v, SUMMARY_TEMPERATURE, zero),
      score := SummaryScore(v),
      rawData := v,
      notes := None)
  }

  /** A field filled by a `||` chain ending in `0` holds a truthy value or that `0`. */
  predicate FilledOrZero(x: Value)
  {
    Truthy(x) || x == Num(0.0)
  }

  /** What every mapped record holds, whichever source it came from. */
  predicate Complete(r: SleepRecord, item: Value, startDate: string)
  {
    && Truthy(r.id) && Truthy(r.bedtimeStart) && Truthy(r.bedtimeEnd) && Truthy(r.hypnogram5min)
    && (startDate != "" ==> Truthy(r.day))
    && FilledOrZero(r.latency) && FilledOrZero(r.totalSleepDuration) && FilledOrZero(r.awakeTime)
    && FilledOrZero(r.lightSleepDuration) && FilledOrZero(r.remSleepDuration) && FilledOrZero(r.deepSleepDuration)
    && FilledOrZero(r.efficiency) && FilledOrZero(r.hrLowest) && FilledOrZero(r.hrAverage)
    && FilledOrZero(r.temperatureDelta)
    && r.rawData == Payload(item) && r.notes.None?
  }

  lemma FirstTruthyFilled(v: Value, candidates: seq<Path>)
    ensures FilledOrZero(FirstTruthy(v, candidates, Num(0.0)))
  {
    FirstTruthyIsCandidate(v, candidates, Num(0.0));
  }

  /**
    A mapped detailed record has every field filled with a value found in the record or
    the documented default, and keeps the unwrapped record as its raw data.
  */
  lemma MapDetailedComplete(item: Value, n: nat, startDate: string, o: Oracle)
    ensures Complete(MapDetailed(item, n, startDate, o), item, startDate)
  {
    var v := Payload(item);
    Calendar.IsoTimestampNonEmpty(o.nowMs);
    FirstTruthyFilled(v, [["latency"]]);
    FirstTruthyFilled(v, DETAILED_TOTAL);
    FirstTruthyFilled(v, DETAILED_AWAKE);
    FirstTruthyFilled(v, DETAILED_LIGHT);
    FirstTruthyFilled(v, DETAILED_REM);
    FirstTruthyFilled(v, DETAILED_DEEP);
    FirstTruthyFilled(v, [["efficiency"]]);
    FirstTruthyFilled(v, [["hr_lowest"]]);
    FirstTruthyFilled(v, [["hr_average"]]);
    FirstTruthyFilled(v, [["temperature_delta"]]);
  }

  /** The same for a mapped summary record. */
  lemma MapSummaryComplete(item: Value, n: nat, startDate: string, o: Oracle)
    ensures Complete(MapSummary(item, n, startDate, o), item, startDate)
  {
    var v := Payload(item);
    Calendar.IsoTimestampNonEmpty(o.nowMs);
    FirstTruthyFilled(v, SUMMARY_LATENCY);
    FirstTruthyFilled(v, SUMMARY_TOTAL);
    FirstTruthyFilled(v, SUMMARY_AWAKE);
    FirstTruthyFilled(v, SUMMARY_LIGHT);
    FirstTruthyFilled(v, SUMMARY_REM);
    FirstTruthyFilled(v, SUMMARY_DEEP);
    FirstTruthyFilled(v, SUMMARY_EFFICIENCY);
    FirstTruthyFilled(v, SUMMARY_HR_LOWEST);
    FirstTruthyFilled(v, SUMMARY_HR_AVERAGE);
    FirstTruthyFilled(v, SUMMARY_TEMPERATURE);
  }

  /**
    A summary duration falls back to the `contributors` value only when none of the
    directly named fields is truthy; a present `0` falls through.
  */
  lemma SummaryTotalFallsBackToContributors(item: Value, n: nat, startDate: string, o: Oracle)
    requires forall j :: 0 <= j < 4 ==> !Truthy(GetPath(Payload(item), SUMMARY_TOTAL[j]))
    ensures MapSummary(item, n, startDate, o).totalSleepDuration
         == Or(GetPath(Payload(item), ["contributors", "total_sleep", "value"]), Num(0.0))
  {
    var v := Payload(item);
    var c := GetPath(v, SUMMARY_TOTAL[4]);
    if Truthy(c) {
      FirstTruthyPicksFirst(v, SUMMARY_TOTAL, Num(0.0), 4);
    } else {
      FirstTruthyFallsBack(v, SUMMARY_TOTAL, Num(0.0));
    }
  }

  // ---------------------------------------------------------------------------
  // Score extraction

  /**
    The four places a detailed record may carry its score, in priority order: `score`,
    `contributors.score.value`, `sleep_score`, `sleep_score_delta`.
  */
  function DetailedScoreTiers(v: Value): (tiers: seq<Value>)
    ensures |tiers| == 4
  {
    [Get(v, "score"), GetPath(v, ["contributors", "score", "value"]), Get(v, "sleep_score"), Get(v, "sleep_score_delta")]
  }

  /** The first tier takes any value but `undefined` and `null`; the others any value but `undefined`. */
  predicate TierPresent(k: nat, x: Value)
  {
    if k == 0 then !Nullish(x) else !x.Undef?
  }

  /** The value of the first present tier from `k` on, or 0 when there is none. */
  function FirstPresentTier(tiers: seq<Value>, k: nat): Value
    decreases |tiers| - k
  {
    if k >= |tiers| then Num(0.0)
    else if TierPresent(k, tiers[k]) then tiers[k]
    else FirstPresentTier(tiers, k + 1)
  }

  /** The score of a detailed record: the value of its first present tier, else 0. */
  function DetailedScore(v: Value): Value
  {
    FirstPresentTier(DetailedScoreTiers(v), 0)
  }

  lemma {:induction false} FirstPresentTierPicks(tiers: seq<Value>, from: nat, k: nat)
    requires from <= k < |tiers| && TierPresent(k, tiers[k])
    requires forall j :: from <= j < k ==> !TierPresent(j, tiers[j])
    ensures FirstPresentTier(tiers, from) == tiers[k]
    decreases k - from
  {
    if from < k {
      FirstPresentTierPicks(tiers, from + 1, k);
    }
  }

  lemma {:induction false} FirstPresentTierNone(tiers: seq<Value>, from: nat)
    requires forall j :: from <= j < |tiers| ==> !TierPresent(j, tiers[j])
    ensures FirstPresentTier(tiers, from) == Num(0.0)
    decreases |tiers| - from
  {
    if from < |tiers| {
      FirstPresentTierNone(tiers, from + 1);
    }
  }

  /**
    Only the first present tier is used: when tier `k` is present and every earlier one
    absent, the score is tier `k`'s value whatever the later tiers hold.
  */
  lemma DetailedScorePriority(v: Value, k: nat)
    requires k < 4 && TierPresent(k, DetailedScoreTiers(v)[k])
    requires forall j :: 0 <= j < k ==> !TierPresent(j, DetailedScoreTiers(v)[j])
    ensures DetailedScore(v) == DetailedScoreTiers(v)[k]
  {
    FirstPresentTierPicks(DetailedScoreTiers(v), 0, k);
  }

  /** With no tier present the score is 0. */
  lemma DetailedScoreDefault(v: Value)
    requires forall j :: 0 <= j < 4 ==> !TierPresent(j, DetailedScoreTiers(v)[j])
    ensures DetailedScore(v) == Num(0.0)
  {
    FirstPresentTierNone(DetailedScoreTiers(v), 0);
  }

  /** The detailed mapper's `let extractedScore` chain, statement by statement. */
  method ExtractDetailedScore(v: Value) returns (extracted: Value)
    ensures extracted == DetailedScore(v)
  {
    var tiers := DetailedScoreTiers(v);
    extracted := Num(0.0);
    if Get(v, "score") != Undef && Get(v, "score") != Null {
      extracted := Get(v, "score");
      DetailedScorePriority(v, 0);
    } else if GetPath(v, ["contributors", "score", "value"]) != Undef {
      extracted := GetPath(v, ["contributors", "score", "value"]);
      DetailedScorePriority(v, 1);
    } else if Get(v, "sleep_score") != Undef {
      extracted := Get(v, "sleep_score");
      DetailedScorePriority(v, 2);
    } else if Get(v, "sleep_score_delta") != Undef {
      extracted := Get(v, "sleep_score_delta");
      DetailedScorePriority(v, 3);
    } else {
      DetailedScoreDefault(v);
    }
  }

  /** `typeof s === 'number' ? s : parseInt(String(s), 10)` */
  function CoerceScore(s: Value): (r: Number)
    ensures !r.Infinity?
    ensures s.Num? ==> r == Finite(s.n)
    ensures s.Str? ==> r == ParseInt(s.s)
    ensures s.Undef? || s.Null? || s.Bool? || s.Obj? ==> r.NaN?
  {
    if s.Num? then Finite(s.n) else ParseIntOf(s)
  }

  /**
    `contributors.score.value`, when `contributors` and `contributors.score` are both
    truthy and the value is not `undefined`.
  */
  function ContributorScore(v: Value): (r: Option<Value>)
    ensures r.Some? ==> r.value != Undef && r.value == GetPath(v, ["contributors", "score", "value"])
    ensures r.None? <==> !Truthy(Get(v, "contributors")) || !Truthy(GetPath(v, ["contributors", "score"]))
                         || GetPath(v, ["contributors", "score", "value"]) == Undef
  {
    var c := Get(v, "contributors");
    if Truthy(c) && Truthy(Get(c, "score")) && GetPath(c, ["score", "value"]) != Undef
    then Some(GetPath(c, ["score", "value"]))
    else None
  }

  /**
    The score of a daily summary record. A present `score` decides it alone: numeric
    as it is, otherwise parsed, and 0 when the parse fails. Only an absent score lets
    `contributors.score.value` in.
  */
  function SummaryScore(v: Value): (r: Value)
    ensures !Nullish(Get(v, "score")) ==> r.Num?
    ensures Get(v, "score").Num? ==> r == Get(v, "score")
    ensures !Nullish(Get(v, "score")) && CoerceScore(Get(v, "score")).Finite?
            ==> r == Num(CoerceScore(Get(v, "score")).r)
    ensures !Nullish(Get(v, "score")) && CoerceScore(Get(v, "score")).NaN? ==> r == Num(0.0)
    ensures Nullish(Get(v, "score")) && ContributorScore(v).Some? ==> r == ContributorScore(v).value
    ensures Nullish(Get(v, "score")) && ContributorScore(v).None? ==> r == Num(0.0)
  {
    var direct := Get(v, "score");
    if !Nullish(direct) then
      match CoerceScore(direct)
      case Finite(x) => Num(x)
      case _ => Num(0.0)
    else
      match ContributorScore(v)
      case Some(s) => s
      case None => Num(0.0)
  }

  /** A score given as the text of an integer, `"85"` say, is read as that number. */
  lemma SummaryScoreOfText(v: Value, k: int)
    requires Get(v, "score") == Str(IntToString(k))
    ensures SummaryScore(v) == Num(k as real)
  {
    ParseIntOfText(k);
  }

  /** A text score with trailing non-digits, `"85 points"` say, is read up to the first of them. */
  lemma SummaryScoreOfLeadingDigits(v: Value, d: string, tail: string)
    requires d != [] && AllDigits(d) && (tail == [] || !IsDigit(tail[0]))
    requires Get(v, "score") == Str(d + tail)
    ensures SummaryScore(v) == Num(DigitsValue(d) as real)
  {
    ParseIntLeadingDigits(d, tail);
  }

  /** A text score with no digit at its head, `"n/a"` say, scores 0. */
  lemma SummaryScoreOfNonNumeric(v: Value, t: string)
    requires t != [] && !IsDigit(t[0]) && !IsSpace(t[0]) && t[0] != '-' && t[0] != '+'
    requires Get(v, "score") == Str(t)
    ensures SummaryScore(v) == Num(0.0)
  {
    ParseIntNoDigitsUnsigned(t);
    assert CoerceScore(Str(t)).NaN?;
  }

  /** Whatever `contributors` holds, it does not change the score of a record that has a direct score. */
  lemma SummaryScoreIgnoresContributors(fields: map<string, Value>, contributors: Value)
    requires "score" in fields && !Nullish(fields["score"])
    ensures SummaryScore(Obj(fields["contributors" := contributors])) == SummaryScore(Obj(fields))
  {
    assert Get(Obj(fields["contributors" := contributors]), "score") == fields["score"];
  }

  /** The summary mapper's `let extractedScore` chain, statement by statement. */
  method ExtractSummaryScore(v: Value) returns (extracted: Value)
    ensures extracted == SummaryScore(v)
  {
    extracted := Num(0.0);
    var direct := Get(v, "score");
    if direct != Undef && direct != Null {
      var scoreValue := if direct.Num? then Finite(direct.n) else ParseIntOf(direct);
      if !scoreValue.NaN? {
        extracted := Num(scoreValue.r);
      }
    } else {
      var c := Get(v, "contributors");
      if Truthy(c) && Truthy(Get(c, "score")) && GetPath(c, ["score", "value"]) != Undef {
        extracted := GetPath(c, ["score", "value"]);
      }
    }
  }

  // ---------------------------------------------------------------------------
  // Reading a source

  const TIMEOUT_MESSAGE: string := "Request timed out. The server may be experiencing issues."

  /** The position of the first `null` or `undefined` in `xs`. */
  function NullishIndex(xs: seq<Value>): (r: Option<nat>)
    ensures r.Some? ==> r.value < |xs| && Nullish(xs[r.value])
    ensures r.None? ==> forall i :: 0 <= i < |xs| ==> !Nullish(xs[i])
    decreases |xs|
  {
    if xs == [] then None
    else if Nullish(xs[0]) then Some(0)
    else match NullishIndex(xs[1..])
      case Some(i) => Some(i + 1)
      case None => None
  }

  /** The reply is ok and its body parses. */
  predicate OkBody(response: Http.Response)
  {
    response.Replied? && Http.IsOk(response.status) && response.json.Ok?
  }

  /**
    The items of a source's response, or the message of the error reading it throws.
    A reply that is not ok throws with its status and body; a body without a `data`
    array yields no items; a `null` item makes the first property read on it throw
    (`firstKey` when the first item is, `itemKey` when a later one is first).
  */
  function ReceiveItems(response: Http.Response, firstKey: string, itemKey: string): (r: Result<seq<Value>, string>)
    ensures r.Ok? ==> response.Replied? && Http.IsOk(response.status) && response.json.Ok?
    ensures r.Ok? ==> forall i :: 0 <= i < |r.value| ==> !Nullish(r.value[i])
    ensures response.Aborted? ==> r == Err(TIMEOUT_MESSAGE)
    ensures response.Replied? && !Http.IsOk(response.status)
            ==> r == Err("API returned " + IntToString(response.status) + ": " + response.text)
    ensures response.Replied? && Http.IsOk(response.status) && response.json.Err? ==> r == Err(response.json.error)
    ensures OkBody(response) && !Get(response.json.value, "data").Arr? ==> r == Ok([])
    ensures OkBody(response) && Get(response.json.value, "data").Arr? ==>
      var items := Get(response.json.value, "data").items;
      match NullishIndex(items)
      case None => r == Ok(items)
      case Some(i) => r == Err(NullRead(items[i], if i == 0 then firstKey else itemKey))
  {
    match response
    case Aborted => Err(TIMEOUT_MESSAGE)
    case Threw(message) => Err(message)
    case Replied(status, text, json) =>
      if !Http.IsOk(status) then Err("API returned " + IntToString(status) + ": " + text)
      else match json
        case Err(message) => Err(message)
        case Ok(data) =>
          var items := Get(data, "data");
          if !Truthy(data) || !Truthy(items) || !items.Arr? then Ok([])
          else if |items.items| > 0 && Nullish(items.items[0]) then Err(NullRead(items.items[0], firstKey))
          else match NullishIndex(items.items)
            case Some(i) => Err(NullRead(items.items[i], itemKey))
            case None => Ok(items.items)
  }

  function MapDetailedAll(items: seq<Value>, startDate: string, o: Oracle): (r: seq<SleepRecord>)
    ensures |r| == |items|
    ensures forall i :: 0 <= i < |r| ==> r[i] == MapDetailed(items[i], i, startDate, o)
  {
    seq(|items|, i requires 0 <= i < |items| => MapDetailed(items[i], i, startDate, o))
  }

  function MapSummaryAll(items: seq<Value>, startDate: string, o: Oracle): (r: seq<SleepRecord>)
    ensures |r| == |items|
    ensures forall i :: 0 <= i < |r| ==> r[i] == MapSummary(items[i], i, startDate, o)
  {
    seq(|items|, i requires 0 <= i < |items| => MapSummary(items[i], i, startDate, o))
  }

  /** `fetchDetailedSleepData`: one canonical record per item, in order, or the error thrown. */
  function FetchDetailedSleepData(startDate: string, response: Http.Response, o: Oracle): (r: Result<seq<SleepRecord>, string>)
    ensures response.Aborted? ==> r == Err(TIMEOUT_MESSAGE)
    ensures ReceiveItems(response, "day", "day").Err? ==> r == Err(ReceiveItems(response, "day", "day").error)
    ensures ReceiveItems(response, "day", "day").Ok? ==>
      r == Ok(MapDetailedAll(ReceiveItems(response, "day", "day").value, startDate, o))
  {
    match ReceiveItems(response, "day", "day")
    case Ok(items) => Ok(MapDetailedAll(items, startDate, o))
    case Err(e) => Err(e)
  }

  /** `fetchDailySleepSummary`: one canonical record per item, in order, or the error thrown. */
  function FetchDailySleepSummary(startDate: string, response: Http.Response, o: Oracle): (r: Result<seq<SleepRecord>, string>)
    ensures response.Aborted? ==> r == Err(TIMEOUT_MESSAGE)
    ensures ReceiveItems(response, "score", "sleep").Err? ==> r == Err(ReceiveItems(response, "score", "sleep").error)
    ensures ReceiveItems(response, "score", "sleep").Ok? ==>
      r == Ok(MapSummaryAll(ReceiveItems(response, "score", "sleep").value, startDate, o))
  {
    match ReceiveItems(response, "score", "sleep")
    case Ok(items) => Ok(MapSummaryAll(items, startDate, o))
    case Err(e) => Err(e)
  }

  // ---------------------------------------------------------------------------
  // The day -> score table

  /** The key/value table `sleepScoresByDate`, keyed by a record's `day`. */
  type ScoreTable = map<Value, Value>

  /** The score the first pass reads from a summary record, when it is a number above 0. */
  function ValidScore(r: SleepRecord): (x: Option<real>)
    ensures x.Some? ==> x.value > 0.0 && CoerceScore(r.score) == Finite(x.value)
    ensures x.None? ==> !CoerceScore(r.score).Finite? || CoerceScore(r.score).r <= 0.0
  {
    match CoerceScore(r.score)
    case Finite(x) => if x > 0.0 then Some(x) else None
    case _ => None
  }

  /**
    The score the raw-data pass reads from a record: `rawData.score`, else
    `rawData.contributors.score.value` when `contributors.score` exists, kept only when
    truthy and not NaN.
  */
  function RawScore(r: SleepRecord): (x: Option<Value>)
    ensures x.Some? ==> Truthy(x.value) && !IsNaN(x.value)
    ensures !Truthy(r.rawData) ==> x.None?
    ensures Truthy(r.rawData) && Truthy(Get(r.rawData, "score"))
            ==> x == (if IsNaN(Get(r.rawData, "score")) then None else Some(Get(r.rawData, "score")))
    ensures Truthy(r.rawData) && !Truthy(Get(r.rawData, "score"))
            && Truthy(Get(r.rawData, "contributors")) && Truthy(GetPath(r.rawData, ["contributors", "score"]))
            ==> var c := GetPath(r.rawData, ["contributors", "score", "value"]);
                x == (if Truthy(c) && !IsNaN(c) then Some(c) else None)
    ensures !Truthy(Get(r.rawData, "score"))
            && (!Truthy(Get(r.rawData, "contributors")) || !Truthy(GetPath(r.rawData, ["contributors", "score"])))
            ==> x.None?
  {
    if !Truthy(r.rawData) then None
    else
      var raw := r.rawData;
      var c := Get(raw, "contributors");
      var s := Or(Get(raw, "score"), if Truthy(c) && Truthy(Get(c, "score")) then GetPath(c, ["score", "value"]) else Null);
      if Truthy(s) && !IsNaN(s) then Some(s) else None
  }

  /** One step of a pass: a record's day and the score the pass stores for it, if any. */
  datatype Entry = Entry(day: Value, score: Option<Value>)

  /** `base` after storing each entry's score under its day, in order. */
  function Store(es: seq<Entry>, base: ScoreTable): ScoreTable
    decreases |es|
  {
    if es == [] then base
    else
      var last := es[|es| - 1];
      match last.score
      case Some(x) => Store(es[..|es| - 1], base)[last.day := x]
      case None => Store(es[..|es| - 1], base)
  }

  /**
    A day is in the stored table exactly when it is in `base` or some entry stores a
    score for it; the last such entry wins, and `base` survives only where none does.
  */
  lemma StoreContents(es: seq<Entry>, base: ScoreTable, day: Value)
    ensures day in Store(es, base) <==> day in base || exists i :: 0 <= i < |es| && es[i].day == day && es[i].score.Some?
    ensures day in Store(es, base) ==>
      (day in base && Store(es, base)[day] == base[day] && forall j :: 0 <= j < |es| && es[j].day == day ==> es[j].score.None?)
      || (exists i :: 0 <= i < |es| && es[i].day == day && es[i].score == Some(Store(es, base)[day])
            && forall j :: i < j < |es| && es[j].day == day ==> es[j].score.None?)
  {
    StoreKeys(es, base, day);
    StoreLastWins(es, base, day);
  }

  lemma {:induction false} StoreKeys(es: seq<Entry>, base: ScoreTable, day: Value)
    ensures day in Store(es, base) <==> day in base || exists i :: 0 <= i < |es| && es[i].day == day && es[i].score.Some?
    decreases |es|
  {
    if es != [] {
      var init := es[..|es| - 1];
      StoreKeys(init, base, day);
      assert forall i :: 0 <= i < |init| ==> init[i] == es[i];
    }
  }

  lemma {:induction false} StoreLastWins(es: seq<Entry>, base: ScoreTable, day: Value)
    ensures day in Store(es, base) ==>
      (day in base && Store(es, base)[day] == base[day] && forall j :: 0 <= j < |es| && es[j].day == day ==> es[j].score.None?)
      || (exists i :: 0 <= i < |es| && es[i].day == day && es[i].score == Some(Store(es, base)[day])
            && forall j :: i < j < |es| && es[j].day == day ==> es[j].score.None?)
    decreases |es|
  {
    if es != [] {
      var init := es[..|es| - 1];
      var last := es[|es| - 1];
      var table, before := Store(es, base), Store(init, base);
      StoreLastWins(init, base, day);
      if last.day == day && last.score.Some? {
        assert es[|es| - 1].score == Some(table[day]);
      } else if day in before {
        assert table[day] == before[day];
        if day in base && before[day] == base[day] && forall j :: 0 <= j < |init| && init[j].day == day ==> init[j].score.None? {
          forall j | 0 <= j < |es| && es[j].day == day
            ensures es[j].score.None?
          {
            if j < |init| { assert init[j] == es[j]; }
          }
        } else {
          var i :| 0 <= i < |init| && init[i].day == day && init[i].score == Some(before[day])
            && forall j :: i < j < |init| && init[j].day == day ==> init[j].score.None?;
          assert init[i] == es[i];
          forall j | i < j < |es| && es[j].day == day
            ensures es[j].score.None?
          {
            if j < |init| { assert init[j] == es[j]; }
          }
        }
      }
    }
  }

  /** What the first pass stores for a record: its valid score as a number. */
  function FirstScore(r: SleepRecord): (x: Option<Value>)
    ensures x.Some? <==> ValidScore(r).Some?
    ensures x.Some? ==> x.value == Num(ValidScore(r).value)
  {
    match ValidScore(r)
    case Some(v) => Some(Num(v))
    case None => None
  }

  /** The entries of the first pass, one per summary record. */
  function FirstEntries(s: seq<SleepRecord>): (es: seq<Entry>)
    ensures |es| == |s| && forall i :: 0 <= i < |s| ==> es[i] == Entry(s[i].day, FirstScore(s[i]))
  {
    seq(|s|, i requires 0 <= i < |s| => Entry(s[i].day, FirstScore(s[i])))
  }

  /** The entries of the raw-data pass, one per summary record. */
  function RawEntries(s: seq<SleepRecord>): (es: seq<Entry>)
    ensures |es| == |s| && forall i :: 0 <= i < |s| ==> es[i] == Entry(s[i].day, RawScore(s[i]))
  {
    seq(|s|, i requires 0 <= i < |s| => Entry(s[i].day, RawScore(s[i])))
  }

  /** The table after the first pass over `s`. */
  function FirstPass(s: seq<SleepRecord>): ScoreTable
  {
    Store(FirstEntries(s), map[])
  }

  /** `validScoreCount` after the first pass over `s`. */
  function ValidCount(s: seq<SleepRecord>): nat
    decreases |s|
  {
    if s == [] then 0
    else ValidCount(s[..|s| - 1]) + (if ValidScore(s[|s| - 1]).Some? then 1 else 0)
  }

  /** The table after the raw-data pass over `s`, starting from `base`. */
  function RawPass(s: seq<SleepRecord>, base: ScoreTable): ScoreTable
  {
    Store(RawEntries(s), base)
  }

  /** The table `fetchSleepData` builds from the summary records. */
  function ScoreTableOf(s: seq<SleepRecord>): ScoreTable
  {
    if |s| > 0 && ValidCount(s) == 0 then RawPass(s, FirstPass(s)) else FirstPass(s)
  }

  /** No valid score exactly when no record has one. */
  lemma {:induction false} ValidCountZero(s: seq<SleepRecord>)
    ensures ValidCount(s) == 0 <==> forall i :: 0 <= i < |s| ==> ValidScore(s[i]).None?
    decreases |s|
  {
    if s != [] {
      var init := s[..|s| - 1];
      ValidCountZero(init);
      assert forall i :: 0 <= i < |init| ==> init[i] == s[i];
    }
  }

  /**
    The first pass holds exactly the days of the records with a valid score, each with
    the score of the last such record of that day.
  */
  lemma FirstPassContents(s: seq<SleepRecord>, day: Value)
    ensures day in FirstPass(s) <==> exists i :: 0 <= i < |s| && s[i].day == day && ValidScore(s[i]).Some?
    ensures day in FirstPass(s) ==>
      exists i :: 0 <= i < |s| && s[i].day == day && ValidScore(s[i]).Some?
        && FirstPass(s)[day] == Num(ValidScore(s[i]).value)
        && forall j :: i < j < |s| && s[j].day == day ==> ValidScore(s[j]).None?
  {
    var es := FirstEntries(s);
    StoreContents(es, map[], day);
    if exists i :: 0 <= i < |s| && s[i].day == day && ValidScore(s[i]).Some? {
      var i :| 0 <= i < |s| && s[i].day == day && ValidScore(s[i]).Some?;
      assert es[i].day == day && es[i].score.Some?;
    }
    if day in FirstPass(s) {
      var i :| 0 <= i < |es| && es[i].day == day && es[i].score == Some(FirstPass(s)[day])
        && forall j :: i < j < |es| && es[j].day == day ==> es[j].score.None?;
      assert s[i].day == day && ValidScore(s[i]).Some?;
      forall j | i < j < |s| && s[j].day == day
        ensures ValidScore(s[j]).None?
      {
        assert es[j].day == day;
      }
    }
  }

  /** Every entry of the first pass is a number above 0. */
  lemma FirstPassPositive(s: seq<SleepRecord>)
    ensures forall day :: day in FirstPass(s) ==> FirstPass(s)[day].Num? && FirstPass(s)[day].n > 0.0
  {
    forall day | day in FirstPass(s)
      ensures FirstPass(s)[day].Num? && FirstPass(s)[day].n > 0.0
    {
      FirstPassContents(s, day);
    }
  }

  /** When the first pass stored nothing its table is empty. */
  lemma FirstPassEmpty(s: seq<SleepRecord>)
    requires ValidCount(s) == 0
    ensures FirstPass(s) == map[]
  {
    ValidCountZero(s);
    forall day | day in FirstPass(s)
      ensures false
    {
      FirstPassContents(s, day);
    }
  }

  /**
    The raw-data pass keeps `base` and adds the days of the records with a raw score,
    each with the raw score of the last such record of that day.
  */
  lemma RawPassContents(s: seq<SleepRecord>, base: ScoreTable, day: Value)
    ensures day in RawPass(s, base) <==> day in base || exists i :: 0 <= i < |s| && s[i].day == day && RawScore(s[i]).Some?
    ensures day in RawPass(s, base) ==>
      (day in base && RawPass(s, base)[day] == base[day] && forall j :: 0 <= j < |s| && s[j].day == day ==> RawScore(s[j]).None?)
      || (exists i :: 0 <= i < |s| && s[i].day == day && RawScore(s[i]) == Some(RawPass(s, base)[day])
            && forall j :: i < j < |s| && s[j].day == day ==> RawScore(s[j]).None?)
  {
    var es := RawEntries(s);
    StoreContents(es, base, day);
    assert forall i :: 0 <= i < |s| ==> es[i].day == s[i].day && es[i].score == RawScore(s[i]);
  }

  /** Every entry of a raw-data pass started from an empty table is truthy and not NaN. */
  lemma RawPassTruthy(s: seq<SleepRecord>)
    ensures forall day :: day in RawPass(s, map[]) ==> Truthy(RawPass(s, map[])[day]) && !IsNaN(RawPass(s, map[])[day])
  {
    forall day | day in RawPass(s, map[])
      ensures Truthy(RawPass(s, map[])[day]) && !IsNaN(RawPass(s, map[])[day])
    {
      RawPassContents(s, map[], day);
    }
  }

  /**
    The table holds only truthy, non-NaN scores. Once any summary record has a valid
    score it is the first pass alone, holding numbers above 0.
  */
  lemma ScoreTableEntries(s: seq<SleepRecord>)
    ensures forall day :: day in ScoreTableOf(s) ==> Truthy(ScoreTableOf(s)[day]) && !IsNaN(ScoreTableOf(s)[day])
    ensures ValidCount(s) > 0 ==> ScoreTableOf(s) == FirstPass(s)
    ensures (exists i :: 0 <= i < |s| && ValidScore(s[i]).Some?) ==>
      forall day :: day in ScoreTableOf(s) ==> ScoreTableOf(s)[day].Num? && ScoreTableOf(s)[day].n > 0.0
  {
    ValidCountZero(s);
    FirstPassPositive(s);
    if |s| > 0 && ValidCount(s) == 0 {
      FirstPassEmpty(s);
      RawPassTruthy(s);
    }
  }

  /** The two passes of `fetchSleepData` over the summary records, with `forEach` as loops. */
  /** One more summary record in the first pass: its valid score, if any, is stored and counted. */
  lemma FirstPassStep(s: seq<SleepRecord>, i: nat)
    requires i < |s|
    ensures FirstPass(s[..i + 1]) ==
      if ValidScore(s[i]).Some? then FirstPass(s[..i])[s[i].day := Num(ValidScore(s[i]).value)] else FirstPass(s[..i])
    ensures ValidCount(s[..i + 1]) == ValidCount(s[..i]) + if ValidScore(s[i]).Some? then 1 else 0
  {
    assert s[..i + 1][..i] == s[..i];
    assert FirstEntries(s[..i + 1])[..i] == FirstEntries(s[..i]);
  }

  /** One more summary record in the raw pass: its raw score, if any, is stored. */
  lemma RawPassStep(s: seq<SleepRecord>, base: ScoreTable, k: nat)
    requires k < |s|
    ensures RawPass(s[..k + 1], base) ==
      if RawScore(s[k]).Some? then RawPass(s[..k], base)[s[k].day := RawScore(s[k]).value] else RawPass(s[..k], base)
  {
    assert s[..k + 1][..k] == s[..k];
    assert RawEntries(s[..k + 1])[..k] == RawEntries(s[..k]);
  }

  method BuildScoreTable(summary: seq<SleepRecord>) returns (table: ScoreTable, validScoreCount: nat)
    ensures table == ScoreTableOf(summary)
    ensures validScoreCount == ValidCount(summary)
  {
    table := map[];
    validScoreCount := 0;
    if |summary| > 0 {
      var i := 0;
      while i < |summary|
        invariant 0 <= i <= |summary|
        invariant table == FirstPass(summary[..i])
        invariant validScoreCount == ValidCount(summary[..i])
      {
        FirstPassStep(summary, i);
        var score := CoerceScore(summary[i].score);
        if score.Finite? && score.r > 0.0 {
          table := table[summary[i].day := Num(score.r)];
          validScoreCount := validScoreCount + 1;
        }
        i := i + 1;
      }
      assert summary[..|summary|] == summary;
      if validScoreCount == 0 {
        var firstPass := table;
        var k := 0;
        while k < |summary|
          invariant 0 <= k <= |summary|
          invariant table == RawPass(summary[..k], firstPass)
        {
          RawPassStep(summary, firstPass, k);
          match RawScore(summary[k]) {
            case Some(x) => table := table[summary[k].day := x];
            case None =>
          }
          k := k + 1;
        }
      }
    }
  }

  // ---------------------------------------------------------------------------
  // Overlay and source selection

  /** A detailed record with the table's score for its day, when the table has a truthy one. */
  function WithTableScore(d: SleepRecord, table: ScoreTable): (r: SleepRecord)
    ensures r.(score := d.score) == d
    ensures (d.day in table && Truthy(table[d.day])) ==> r.score == table[d.day]
    ensures !(d.day in table && Truthy(table[d.day])) ==> r == d
  {
    if d.day in table && Truthy(table[d.day]) then d.(score := table[d.day]) else d
  }

  /** The detailed records, in order, each with the table's score for its day. */
  function Overlay(detailed: seq<SleepRecord>, table: ScoreTable): (r: seq<SleepRecord>)
    ensures |r| == |detailed|
    ensures forall i :: 0 <= i < |r| ==> r[i] == WithTableScore(detailed[i], table)
  {
    seq(|detailed|, i requires 0 <= i < |detailed| => WithTableScore(detailed[i], table))
  }

  /** Detailed records that share a day are all kept, and all receive that day's score. */
  lemma OverlaySameDay(detailed: seq<SleepRecord>, table: ScoreTable, i: nat, j: nat)
    requires i < |detailed| && j < |detailed| && detailed[i].day == detailed[j].day
    requires detailed[i].day in table && Truthy(table[detailed[i].day])
    ensures Overlay(detailed, table)[i].score == Overlay(detailed, table)[j].score == table[detailed[i].day]
    ensures Overlay(detailed, table)[i].(score := detailed[i].score) == detailed[i]
    ensures Overlay(detailed, table)[j].(score := detailed[j].score) == detailed[j]
  {
  }

  /**
    A detailed record whose day has a summary record with a valid score ends up with
    the score of the last such summary record, whatever score it carried itself.
  */
  lemma MergedScoreIsLastValidSummary(detailed: seq<SleepRecord>, summary: seq<SleepRecord>, k: nat)
    requires k < |detailed|
    requires exists i :: 0 <= i < |summary| && summary[i].day == detailed[k].day && ValidScore(summary[i]).Some?
    ensures exists i ::
      && 0 <= i < |summary| && summary[i].day == detailed[k].day && ValidScore(summary[i]).Some?
      && Overlay(detailed, ScoreTableOf(summary))[k].score == Num(ValidScore(summary[i]).value)
      && forall j :: i < j < |summary| && summary[j].day == detailed[k].day ==> ValidScore(summary[j]).None?
  {
    var day := detailed[k].day;
    ValidCountZero(summary);
    FirstPassContents(summary, day);
    FirstPassPositive(summary);
    assert ScoreTableOf(summary) == FirstPass(summary);
  }

  /** A detailed record whose day has no truthy entry in the table keeps its own score. */
  lemma UnmatchedKeepsScore(detailed: seq<SleepRecord>, table: ScoreTable, k: nat)
    requires k < |detailed| && detailed[k].day !in table
    ensures Overlay(detailed, table)[k] == detailed[k]
  {
  }

  /** What the client returns when a source fails: mock data if the user accepts, else the error. */
  function Rescue(error: string, startDate: string, endDate: string, acceptMock: bool, random: nat -> real)
    : (r: Result<seq<SleepRecord>, string>)
    ensures acceptMock ==> r == Ok(GenerateMockData(startDate, endDate, random))
    ensures !acceptMock ==> r == Err(error)
  {
    if acceptMock then Ok(GenerateMockData(startDate, endDate, random)) else Err(error)
  }

  /**
    `fetchSleepData`: the summaries are fetched first and turned into the score table,
    then the detailed records. Non-empty detailed records come back with the table laid
    over them; otherwise non-empty summaries come back unchanged; otherwise nothing, or
    mock data when the user accepts the prompt. A failed fetch offers mock data and
    otherwise rethrows. `acceptMock` is the answer to whichever prompt is shown.
  */
  method FetchSleepData(startDate: string, endDate: string,
                        summaryResponse: Http.Response, detailedResponse: Http.Response,
                        acceptMock: bool, o: Oracle, random: nat -> real)
    returns (r: Result<seq<SleepRecord>, string>)
    ensures var summary := FetchDailySleepSummary(startDate, summaryResponse, o);
      summary.Err? ==> r == Rescue(summary.error, startDate, endDate, acceptMock, random)
    ensures var summary := FetchDailySleepSummary(startDate, summaryResponse, o);
      var detailed := FetchDetailedSleepData(startDate, detailedResponse, o);
      summary.Ok? && detailed.Err? ==> r == Rescue(detailed.error, startDate, endDate, acceptMock, random)
    ensures var summary := FetchDailySleepSummary(startDate, summaryResponse, o);
      var detailed := FetchDetailedSleepData(startDate, detailedResponse, o);
      summary.Ok? && detailed.Ok? && |detailed.value| > 0 ==>
        r == Ok(Overlay(detailed.value, ScoreTableOf(summary.value)))
    ensures var summary := FetchDailySleepSummary(startDate, summaryResponse, o);
      var detailed := FetchDetailedSleepData(startDate, detailedResponse, o);
      summary.Ok? && detailed.Ok? && |detailed.value| == 0 && |summary.value| > 0 ==> r == Ok(summary.value)
    ensures var summary := FetchDailySleepSummary(startDate, summaryResponse, o);
      var detailed := FetchDetailedSleepData(startDate, detailedResponse, o);
      summary.Ok? && detailed.Ok? && |detailed.value| == 0 && |summary.value| == 0 ==>
        r == Ok(if acceptMock then GenerateMockData(startDate, endDate, random) else [])
  {
    var summary := FetchDailySleepSummary(startDate, summaryResponse, o);
    if summary.Err? {
      return Rescue(summary.error, startDate, endDate, acceptMock, random);
    }
    var table, _ := BuildScoreTable(summary.value);
    var detailed := FetchDetailedSleepData(startDate, detailedResponse, o);
    if detailed.Err? {
      return Rescue(detailed.error, startDate, endDate, acceptMock, random);
    }
    if |detailed.value| > 0 {
      return Ok(Overlay(detailed.value, table));
    }
    if |summary.value| > 0 {
      return Ok(summary.value);
    }
    if acceptMock {
      return Ok(GenerateMockData(startDate, endDate, random));
    }
    return Ok([]);
  }

  // ---------------------------------------------------------------------------
  // Mock data

  /** Every `Math.random()` draw lies in [0, 1). */
  ghost predicate ValidDraws(random: nat -> real)
  {
    forall k: nat :: 0.0 <= random(k) < 1.0
  }

  /** `base + Math.floor(draw * width)`: for a draw in [0, 1), an integer from `base` to `base + width - 1`. */
  function Draw(base: int, draw: real, width: nat): (x: int)
    ensures 0.0 <= draw < 1.0 && width > 0 ==> base <= x <= base + width - 1
  {
    assert 0.0 <= draw < 1.0 && width > 0 ==> 0.0 <= draw * width as real < width as real;
    base + (draw * width as real).Floor
  }

  /** A mock score lies in [70, 99] and a mock efficiency in [80, 99]; the stage durations in their ranges. */
  predicate MockInRange(r: SleepRecord)
  {
    && r.score.Num? && 70.0 <= r.score.n <= 99.0
    && r.efficiency.Num? && 80.0 <= r.efficiency.n <= 99.0
    && r.deepSleepDuration.Num? && 4000.0 <= r.deepSleepDuration.n <= 6999.0
    && r.remSleepDuration.Num? && 5000.0 <= r.remSleepDuration.n <= 8999.0
    && r.lightSleepDuration.Num? && 10000.0 <= r.lightSleepDuration.n <= 14999.0
  }

  /**
    The `i`-th mock record, for the day starting at `dayMs`: the template record with that
    day as `YYYY-MM-DD`, bedtime 8 hours and wake-up 30 minutes before the day starts, and
    five fresh draws (`5i` to `5i+4`) for score, efficiency, deep, REM and light.
  */
  function MockRecord(dayMs: int, i: nat, random: nat -> real): (r: SleepRecord)
    ensures r.id == Str("mock-" + NatToString(i)) && r.day == Str(Calendar.IsoDate(dayMs))
    ensures r.bedtimeStart == Str(Calendar.IsoTimestamp(dayMs - 28800000))
    ensures r.bedtimeEnd == Str(Calendar.IsoTimestamp(dayMs - 1800000))
    ensures ValidDraws(random) ==> MockInRange(r)
  {
    SleepRecord(
      id := Str("mock-" + NatToString(i)),
      day := Str(Calendar.IsoDate(dayMs)),
      bedtimeStart := Str(Calendar.IsoTimestamp(dayMs - 28800000)),
      bedtimeEnd := Str(Calendar.IsoTimestamp(dayMs - 1800000)),
      latency := Num(600.0),
      totalSleepDuration := Num(25200.0),
      awakeTime := Num(1800.0),
      lightSleepDuration := Num(Draw(10000, random(5 * i + 4), 5000) as real),
      remSleepDuration := Num(Draw(5000, random(5 * i + 3), 4000) as real),
      deepSleepDuration := Num(Draw(4000, random(5 * i + 2), 3000) as real),
      efficiency := Num(Draw(80, random(5 * i + 1), 20) as real),
      hypnogram5min := Str(DEFAULT_HYPNOGRAM),
      hrLowest := Num(52.0),
      hrAverage := Num(62.0),
      temperatureDelta := Num(0.2),
      score := Num(Draw(70, random(5 * i), 30) as real),
      rawData := Undef,
      notes := None)
  }

  /** `Math.round((end - start) / day) + 1`, where `Array.from` reads a negative length as 0. */
  function MockDayCount(startMs: int, endMs: int): (n: nat)
    ensures n == if Calendar.DaysBetween(startMs, endMs) >= 0 then Calendar.DaysBetween(startMs, endMs) + 1 else 0
  {
    var days := Calendar.DaysBetween(startMs, endMs) + 1;
    if days > 0 then days else 0
  }

  /** The starts of `n` consecutive days from `startMs`. */
  function DayStarts(startMs: int, n: nat): (r: seq<int>)
    ensures |r| == n && forall i :: 0 <= i < n ==> r[i] == startMs + i * Calendar.DAY_MS
  {
    seq(n, (i: int) => startMs + i * Calendar.DAY_MS)
  }

  /**
    The mock records for `startMs` to `endMs`: one per day, the `i`-th numbered `i` for
    the `i`-th day start from `startMs`.
  */
  function MockDays(startMs: int, endMs: int, random: nat -> real): (r: seq<SleepRecord>)
    ensures |r| == MockDayCount(startMs, endMs)
    ensures forall i :: 0 <= i < |r| ==> r[i] == MockRecord(DayStarts(startMs, |r|)[i], i, random)
  {
    var starts := DayStarts(startMs, MockDayCount(startMs, endMs));
    seq(|starts|, (i: int) requires 0 <= i < |starts| => MockRecord(starts[i], i, random))
  }

  /**
    `generateMockData`: one mock record per day from the start date to the end date,
    or none when either date does not parse (a NaN length reads as 0).
  */
  function GenerateMockData(startDate: string, endDate: string, random: nat -> real): (r: seq<SleepRecord>)
    ensures Calendar.ParseIsoDate(startDate).None? || Calendar.ParseIsoDate(endDate).None? ==> r == []
  {
    match (Calendar.ParseIsoDate(startDate), Calendar.ParseIsoDate(endDate))
    case (Some(s), Some(e)) => MockDays(s, e, random)
    case _ => []
  }

  /** Instants `k` whole days apart give `k + 1` mock records. */
  lemma MockDaysSpan(startMs: int, k: nat, random: nat -> real)
    ensures |MockDays(startMs, startMs + k * Calendar.DAY_MS, random)| == k + 1
  {
    Calendar.DaysBetweenWhole(startMs, k);
  }

  /** Distinct record numbers give distinct mock ids. */
  lemma MockIdInjective(i: nat, j: nat)
    requires i != j
    ensures "mock-" + NatToString(i) != "mock-" + NatToString(j)
  {
    if "mock-" + NatToString(i) == "mock-" + NatToString(j) {
      assert NatToString(i) == ("mock-" + NatToString(i))[5..];
      assert NatToString(j) == ("mock-" + NatToString(j))[5..];
      NatToStringInjective(i, j);
    }
  }

  /** The mock records are numbered `mock-0` on, so their ids are pairwise distinct. */
  lemma MockDaysIds(startMs: int, endMs: int, random: nat -> real)
    ensures var r := MockDays(startMs, endMs, random);
      forall i, j :: 0 <= i < j < |r| ==> r[i].id != r[j].id
  {
    var r := MockDays(startMs, endMs, random);
    forall i, j | 0 <= i < j < |r|
      ensures r[i].id != r[j].id
    {
      MockDaysId(startMs, endMs, random, i);
      MockDaysId(startMs, endMs, random, j);
      MockIdInjective(i, j);
    }
  }

  /** The `i`-th mock record is `mock-i`. */
  lemma MockDaysId(startMs: int, endMs: int, random: nat -> real, i: nat)
    requires i < |MockDays(startMs, endMs, random)|
    ensures MockDays(startMs, endMs, random)[i].id == Str("mock-" + NatToString(i))
  {
  }

  /** Two dates that parse give the mock records of the instants they denote. */
  lemma GenerateMockDataParsed(startDate: string, endDate: string, random: nat -> real)
    requires Calendar.ParseIsoDate(startDate).Some? && Calendar.ParseIsoDate(endDate).Some?
    ensures GenerateMockData(startDate, endDate, random)
         == MockDays(Calendar.ParseIsoDate(startDate).value, Calendar.ParseIsoDate(endDate).value, random)
  {
  }

  /** With draws in [0, 1), every mock score, efficiency and stage duration lies in its range. */
  lemma MockDataRanges(startDate: string, endDate: string, random: nat -> real)
    requires ValidDraws(random)
    ensures forall r :: r in GenerateMockData(startDate, endDate, random) ==> MockInRange(r)
  {
    var start, end := Calendar.ParseIsoDate(startDate), Calendar.ParseIsoDate(endDate);
    if start.Some? && end.Some? {
      GenerateMockDataParsed(startDate, endDate, random);
      MockDaysRanges(start.value, end.value, random);
    }
  }

  /** The same for the mock records of two instants. */
  lemma MockDaysRanges(startMs: int, endMs: int, random: nat -> real)
    requires ValidDraws(random)
    ensures forall r :: r in MockDays(startMs, endMs, random) ==> MockInRange(r)
  {
    var all := MockDays(startMs, endMs, random);
    forall r | r in all
      ensures MockInRange(r)
    {
      var i :| 0 <= i < |all| && all[i] == r;
      MockDayInRange(startMs, endMs, random, i);
    }
  }

  lemma MockDayInRange(startMs: int, endMs: int, random: nat -> real, i: nat)
    requires ValidDraws(random) && i < |MockDays(startMs, endMs, random)|
    ensures MockInRange(MockDays(startMs, endMs, random)[i])
  {
    assert MockDays(startMs, endMs, random)[i] == MockRecord(DayStarts(startMs, MockDayCount(startMs, endMs))[i], i, random);
  }

  // ---------------------------------------------------------------------------
  // Hypnogram strings

  /** The stages of the default pattern, one per five minutes. */
  const DEFAULT_STAGE_VALUES: seq<int> :=
    [4,4,4,4,3,3,2,2,2,1,1,1,1,2,2,2,3,3,3,4,4,4,3,3,2,2,2,1,1,1,1,2,2,2,3,3,3,4,4,4]

  function Stages(xs: seq<int>): (r: seq<Number>)
    ensures |r| == |xs| && forall i :: 0 <= i < |r| ==> r[i] == Finite(xs[i] as real)
  {
    seq(|xs|, i requires 0 <= i < |xs| => Finite(xs[i] as real))
  }

  /** `s.split(sep)`: the pieces between the separators, keeping empty ones. */
  function Split(s: string, sep: char): (r: seq<string>)
    ensures |r| >= 1
    decreases |s|
  {
    if s == [] then [""]
    else
      var rest := Split(s[1..], sep);
      if s[0] == sep then [""] + rest else [[s[0]] + rest[0]] + rest[1..]
  }

  /** The number of occurrences of `c` in `s`. */
  function Count(s: string, c: char): nat
    decreases |s|
  {
    if s == [] then 0 else (if s[0] == c then 1 else 0) + Count(s[1..], c)
  }

  /** Splitting yields one more piece than there are separators. */
  lemma {:induction false} SplitCount(s: string, sep: char)
    ensures |Split(s, sep)| == Count(s, sep) + 1
    decreases |s|
  {
    if s != [] {
      SplitCount(s[1..], sep);
    }
  }

  /** Joining the pieces back with the separator restores the string. */
  function Join(pieces: seq<string>, sep: char): string
    requires |pieces| >= 1
    decreases |pieces|
  {
    if |pieces| == 1 then pieces[0] else pieces[0] + [sep] + Join(pieces[1..], sep)
  }

  lemma {:induction false} SplitJoin(s: string, sep: char)
    ensures Join(Split(s, sep), sep) == s
    decreases |s|
  {
    if s != [] {
      var rest := Split(s[1..], sep);
      SplitJoin(s[1..], sep);
      if s[0] == sep {
        JoinAfterEmpty(rest, sep);
      } else {
        JoinPrepend(s[0], rest, sep);
      }
      assert s == [s[0]] + s[1..];
    }
  }

  /** An empty first piece leaves the separator at the front of the joined text. */
  lemma JoinAfterEmpty(pieces: seq<string>, sep: char)
    requires |pieces| >= 1
    ensures Join([""] + pieces, sep) == [sep] + Join(pieces, sep)
  {
    assert ([""] + pieces)[1..] == pieces;
  }

  /** A character put in front of the first piece comes first in the joined text. */
  lemma JoinPrepend(c: char, pieces: seq<string>, sep: char)
    requires |pieces| >= 1
    ensures Join([[c] + pieces[0]] + pieces[1..], sep) == [c] + Join(pieces, sep)
  {
    if |pieces| > 1 {
      assert ([[c] + pieces[0]] + pieces[1..])[1..] == pieces[1..];
    }
  }

  /** The whitespace JSON allows between tokens. */
  predicate IsJsonSpace(c: char)
  {
    c == ' ' || c == '\t' || c == '\n' || c == '\r'
  }

  function JsonTrim(s: string): (r: string)
    ensures |r| <= |s|
    decreases |s|
  {
    if s != [] && IsJsonSpace(s[0]) then JsonTrim(s[1..])
    else if s != [] && IsJsonSpace(s[|s| - 1]) then JsonTrim(s[..|s| - 1])
    else s
  }

  /** A JSON integer literal `-?(0|[1-9][0-9]*)`. */
  function JsonInteger(t: string): (r: Option<int>)
    ensures AllDigits(t) && t != [] && (t[0] != '0' || |t| == 1) ==> r == Some(DigitsValue(t))
  {
    var negative := t != [] && t[0] == '-';
    var digits := if negative then t[1..] else t;
    if digits != [] && AllDigits(digits) && (digits[0] != '0' || |digits| == 1)
    then Some(if negative then -(DigitsValue(digits) as int) else DigitsValue(digits) as int)
    else None
  }

  /** The integers the pieces stand for, when every piece is one (surrounded by whitespace). */
  function JsonIntegers(pieces: seq<string>): (r: Option<seq<int>>)
    ensures r.Some? ==> |r.value| == |pieces|
    decreases |pieces|
  {
    if pieces == [] then Some([])
    else match (JsonInteger(JsonTrim(pieces[0])), JsonIntegers(pieces[1..]))
      case (Some(x), Some(xs)) => Some([x] + xs)
      case _ => None
  }

  /** `JSON.parse(h)` for a bracketed array of integer literals; `None` where the model's grammar stops. */
  function JsonIntArray(h: string): Option<seq<int>>
  {
    if |h| >= 2 && h[0] == '[' && h[|h| - 1] == ']' then
      var inner := h[1..|h| - 1];
      if JsonTrim(inner) == "" then Some([]) else JsonIntegers(Split(inner, ','))
    else None
  }

  /**
    `parseHypnogram`: the default stages for an empty string; the elements of a
    bracketed JSON array; else `Number` of each comma-separated piece; else `Number` of
    each character.
  */
  function ParseHypnogram(h: string): (r: seq<Number>)
    ensures h == "" ==> r == Stages(DEFAULT_STAGE_VALUES) && |r| == 40
  {
    if h == "" then Stages(DEFAULT_STAGE_VALUES)
    else
      var json := if h[0] == '[' && h[|h| - 1] == ']' then JsonIntArray(h) else None;
      if json.Some? then Stages(json.value)
      else if IndexOf(h, ',').Some? then PieceNumbers(Split(h, ','))
      else seq(|h|, i requires 0 <= i < |h| => StringToNumber([h[i]]))
  }

  /** `Number` of each piece. */
  function PieceNumbers(pieces: seq<string>): (r: seq<Number>)
    ensures |r| == |pieces| && forall i :: 0 <= i < |r| ==> r[i] == StringToNumber(pieces[i])
  {
    seq(|pieces|, i requires 0 <= i < |pieces| => StringToNumber(pieces[i]))
  }

  /** `Number` of one digit is that digit's value. */
  lemma DigitToNumber(c: char)
    requires IsDigit(c)
    ensures StringToNumber([c]) == Finite(DigitValue(c) as real)
  {
    var t := [c];
    assert !IsSpace(c);
    assert TrimStart(t) == t;
    assert TrimEnd(t) == t;
    assert Trim(t) == t;
    assert IndexOf(t, '.') == None;
    assert t[..0] == [];
    assert DigitsValue(t) == DigitValue(c);
    assert UnsignedDecimal(t) == Some(DigitValue(c) as real);
    assert SignedDecimal(t) == Some(DigitValue(c) as real);
  }

  /** `Number` of one whitespace character is 0, as for the empty string. */
  lemma SpaceToNumber(c: char)
    requires IsSpace(c)
    ensures StringToNumber([c]) == Finite(0.0)
  {
    var t := [c];
    calc {
      Trim(t);
      TrimEnd(TrimStart(t));
      { assert t[1..] == []; }
      TrimEnd(TrimStart([]));
      [];
    }
  }

  /** `Number` of one character that is neither a digit nor whitespace is NaN. */
  lemma OtherCharToNumber(c: char)
    requires !IsDigit(c) && !IsSpace(c)
    ensures StringToNumber([c]).NaN?
  {
    var t := [c];
    assert Trim(t) == t by {
      assert TrimStart(t) == t;
      assert TrimEnd(t) == t;
    }
    assert SignedDecimal(t).None? by {
      assert t[1..] == [];
      if c == '.' {
        assert IndexOf(t, '.') == Some(0);
      } else if c != '-' && c != '+' {
        assert IndexOf(t, '.') == None;
        assert !AllDigits(t) by { assert !IsDigit(t[0]); }
      }
    }
  }

  /** `Number` of one character: a digit gives its value, whitespace 0, anything else NaN. */
  lemma CharToNumber(c: char)
    ensures IsDigit(c) ==> StringToNumber([c]) == Finite(DigitValue(c) as real)
    ensures IsSpace(c) ==> StringToNumber([c]) == Finite(0.0)
    ensures !IsDigit(c) && !IsSpace(c) ==> StringToNumber([c]).NaN?
  {
    if IsDigit(c) {
      DigitToNumber(c);
    } else if IsSpace(c) {
      SpaceToNumber(c);
    } else {
      OtherCharToNumber(c);
    }
  }

  /**
    A non-empty string that is not bracketed and has no comma decodes to one element
    per character: a digit gives its value, whitespace gives 0, anything else NaN.
  */
  lemma ParseHypnogramDigits(h: string)
    requires h != "" && !(h[0] == '[' && h[|h| - 1] == ']') && ',' !in h
    ensures |ParseHypnogram(h)| == |h|
    ensures forall i :: 0 <= i < |h| && IsDigit(h[i]) ==> ParseHypnogram(h)[i] == Finite(DigitValue(h[i]) as real)
    ensures forall i :: 0 <= i < |h| && IsSpace(h[i]) ==> ParseHypnogram(h)[i] == Finite(0.0)
    ensures forall i :: 0 <= i < |h| && !IsDigit(h[i]) && !IsSpace(h[i]) ==> ParseHypnogram(h)[i].NaN?
  {
    var r := ParseHypnogram(h);
    assert |r| == |h| && forall i :: 0 <= i < |h| ==> r[i] == StringToNumber([h[i]]) by {
      assert IndexOf(h, ',').None?;
    }
    forall i | 0 <= i < |h|
      ensures IsDigit(h[i]) ==> r[i] == Finite(DigitValue(h[i]) as real)
      ensures IsSpace(h[i]) ==> r[i] == Finite(0.0)
      ensures !IsDigit(h[i]) && !IsSpace(h[i]) ==> r[i].NaN?
    {
      CharToNumber(h[i]);
    }
  }

  /** A string with commas that is not a JSON integer array decodes to one element per piece. */
  lemma ParseHypnogramPieces(h: string)
    requires ',' in h && JsonIntArray(h).None?
    ensures |ParseHypnogram(h)| == Count(h, ',') + 1
    ensures forall i :: 0 <= i < |ParseHypnogram(h)| ==> ParseHypnogram(h)[i] == StringToNumber(Split(h, ',')[i])
  {
    var k :| 0 <= k < |h| && h[k] == ',';
    assert IndexOf(h, ',').Some?;
    assert ParseHypnogram(h) == PieceNumbers(Split(h, ','));
    SplitCount(h, ',');
  }

  /** The default hypnogram string decodes to exactly the default stages. */
  lemma DefaultHypnogramDecodes()
    ensures ParseHypnogram(DEFAULT_HYPNOGRAM) == Stages(DEFAULT_STAGE_VALUES)
  {
    var h := DEFAULT_HYPNOGRAM;
    assert forall i :: 0 <= i < |h| ==> IsDigit(h[i]) && DigitValue(h[i]) == DEFAULT_STAGE_VALUES[i];
    ParseHypnogramDigits(h);
  }

  /** Splitting a string that starts with a separator starts a new, empty piece. */
  lemma SplitSeparator(sep: char, t: string)
    ensures Split([sep] + t, sep) == [""] + Split(t, sep)
  {
    assert ([sep] + t)[1..] == t;
  }

  /** Splitting a string that starts with another character extends the first piece. */
  lemma SplitChar(c: char, sep: char, t: string)
    requires c != sep
    ensures Split([c] + t, sep) == [[c] + Split(t, sep)[0]] + Split(t, sep)[1..]
  {
    assert ([c] + t)[1..] == t;
  }

  /** A string without the separator is a single piece. */
  lemma {:induction false} SplitWithout(p: string, sep: char)
    requires sep !in p
    ensures Split(p, sep) == [p]
    decreases |p|
  {
    if p != [] {
      SplitWithout(p[1..], sep);
      assert [p[0]] + p[1..] == p;
    }
  }

  /** A piece without the separator, followed by the separator, splits off as the first piece. */
  lemma {:induction false} SplitAfterPiece(p: string, sep: char, t: string)
    requires sep !in p
    ensures Split(p + [sep] + t, sep) == [p] + Split(t, sep)
    decreases |p|
  {
    if p == [] {
      assert p + [sep] + t == [sep] + t;
      SplitSeparator(sep, t);
    } else {
      SplitAfterPiece(p[1..], sep, t);
      assert p + [sep] + t == [p[0]] + (p[1..] + [sep] + t);
      SplitChar(p[0], sep, p[1..] + [sep] + t);
      assert [p[0]] + p[1..] == p;
    }
  }

  /** Splitting undoes joining when no piece holds the separator. */
  lemma {:induction false} JoinSplit(pieces: seq<string>, sep: char)
    requires |pieces| >= 1
    requires forall i :: 0 <= i < |pieces| ==> sep !in pieces[i]
    ensures Split(Join(pieces, sep), sep) == pieces
    decreases |pieces|
  {
    if |pieces| == 1 {
      SplitWithout(pieces[0], sep);
    } else {
      JoinSplit(pieces[1..], sep);
      SplitAfterPiece(pieces[0], sep, Join(pieces[1..], sep));
      assert [pieces[0]] + pieces[1..] == pieces;
    }
  }

  /** Joined non-empty pieces start with the first piece's first character and end with the last piece's last one. */
  lemma {:induction false} JoinEnds(pieces: seq<string>, sep: char)
    requires |pieces| >= 1 && forall i :: 0 <= i < |pieces| ==> pieces[i] != []
    ensures var j := Join(pieces, sep); var last := pieces[|pieces| - 1];
      j != [] && j[0] == pieces[0][0] && j[|j| - 1] == last[|last| - 1]
    decreases |pieces|
  {
    if |pieces| > 1 {
      JoinEnds(pieces[1..], sep);
    }
  }

  /** A string with no JSON whitespace at either end is its own trim. */
  lemma JsonTrimUnspaced(s: string)
    requires s != [] && !IsJsonSpace(s[0]) && !IsJsonSpace(s[|s| - 1])
    ensures JsonTrim(s) == s
  {
  }

  /** The decimal texts of some integers. */
  function IntTexts(xs: seq<int>): (r: seq<string>)
    ensures |r| == |xs| && forall i :: 0 <= i < |r| ==> r[i] == IntToString(xs[i])
  {
    seq(|xs|, i requires 0 <= i < |xs| => IntToString(xs[i]))
  }

  /** `JSON.stringify` of an array of integers: the comma-joined decimal texts in brackets. */
  function JsonArrayText(xs: seq<int>): (h: string)
    ensures |h| >= 2 && h[0] == '[' && h[|h| - 1] == ']'
  {
    "[" + (if xs == [] then "" else Join(IntTexts(xs), ',')) + "]"
  }

  /** The decimal text of an integer, as a JSON piece, is that integer. */
  lemma JsonIntegerOfText(k: int)
    ensures JsonInteger(JsonTrim(IntToString(k))) == Some(k)
  {
    var t := IntToString(k);
    assert JsonTrim(t) == t by {
      IntToStringShape(k);
      JsonTrimUnspaced(t);
    }
    var n: nat := if k < 0 then -k else k;
    var d := NatToString(n);
    assert d != [] && AllDigits(d) && (d[0] != '0' || |d| == 1) && DigitsValue(d) == n by {
      NatToStringValue(n);
      if n >= 1 {
        NatToStringLeading(n);
      }
    }
    if k < 0 {
      assert t == "-" + d;
      JsonIntegerNegative(d);
    } else {
      assert t == d;
    }
  }

  /** A minus sign and the digits of a JSON natural number are its negation. */
  lemma JsonIntegerNegative(d: string)
    requires d != [] && AllDigits(d) && (d[0] != '0' || |d| == 1)
    ensures JsonInteger("-" + d) == Some(-(DigitsValue(d) as int))
  {
    var t := "-" + d;
    assert t[0] == '-' && t[1..] == d;
  }

  /** The decimal texts of integers, as JSON pieces, are those integers. */
  lemma {:induction false} JsonIntegersOfTexts(xs: seq<int>)
    ensures JsonIntegers(IntTexts(xs)) == Some(xs)
    decreases |xs|
  {
    if xs != [] {
      var pieces := IntTexts(xs);
      assert pieces[0] == IntToString(xs[0]) && pieces[1..] == IntTexts(xs[1..]);
      JsonIntegerOfText(xs[0]);
      JsonIntegersOfTexts(xs[1..]);
      JsonIntegersCons(pieces, xs[0], xs[1..]);
      assert [xs[0]] + xs[1..] == xs;
    }
  }

  /** Pieces read as integers when the first does and the rest do. */
  lemma JsonIntegersCons(pieces: seq<string>, x: int, rest: seq<int>)
    requires pieces != [] && JsonInteger(JsonTrim(pieces[0])) == Some(x)
    requires JsonIntegers(pieces[1..]) == Some(rest)
    ensures JsonIntegers(pieces) == Some([x] + rest)
  {
  }

  /** The JSON text of any integer array reads back as that array. */
  lemma JsonIntArrayOfText(xs: seq<int>)
    ensures JsonIntArray(JsonArrayText(xs)) == Some(xs)
  {
    var h := JsonArrayText(xs);
    var inner := if xs == [] then "" else Join(IntTexts(xs), ',');
    assert h[1..|h| - 1] == inner;
    if xs != [] {
      var pieces := IntTexts(xs);
      forall i | 0 <= i < |pieces|
        ensures pieces[i] != [] && ',' !in pieces[i]
        ensures !IsJsonSpace(pieces[i][0]) && !IsJsonSpace(pieces[i][|pieces[i]| - 1])
      {
        IntToStringShape(xs[i]);
      }
      JoinEnds(pieces, ',');
      JsonTrimUnspaced(inner);
      JoinSplit(pieces, ',');
      JsonIntegersOfTexts(xs);
    }
  }

  /** The JSON text of any integer array decodes to one stage per element, in order. */
  lemma ParseHypnogramOfJsonArray(xs: seq<int>)
    ensures ParseHypnogram(JsonArrayText(xs)) == Stages(xs)
  {
    JsonIntArrayOfText(xs);
  }

  /** For instance, `[1,2,3]`. */
  lemma ParseHypnogramArray()
    ensures ParseHypnogram("[1,2,3]") == [Finite(1.0), Finite(2.0), Finite(3.0)]
  {
    var xs := [1, 2, 3];
    assert IntToString(1) == "1" && IntToString(2) == "2" && IntToString(3) == "3";
    assert IntTexts(xs) == ["1", "2", "3"];
    assert Join(["3"], ',') == "3";
    assert Join(["2", "3"], ',') == "2,3";
    assert Join(["1", "2", "3"], ',') == "1,2,3";
    assert JsonArrayText(xs) == "[1,2,3]";
    ParseHypnogramOfJsonArray(xs);
    assert Stages(xs) == [Finite(1.0), Finite(2.0), Finite(3.0)];
  }
}
