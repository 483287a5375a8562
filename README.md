# Sleep dashboard core, modelled in Dafny

This project models the data core of a personal sleep dashboard built on the Oura ring
API, and proves properties of that model.

- **Client library.** The client fetches detailed sleep records and daily sleep
  summaries through a server route. It maps each upstream record onto one canonical
  record by probing candidate field names with JavaScript `||`. It extracts a score by
  a priority chain. It builds a day→score table from the summaries and lays that table
  over the detailed records. Then it picks detailed records, else summaries, else mock
  data or nothing.
- **Home page.** It asks for the selected range with the end widened by one day, drops
  naps, attaches to each night the first note of its day, and shows the nights newest
  first.
- **Components and helpers.** Also modelled:
  - the chart's downsampling to at most 12 points, and its axis ticks;
  - the date-window navigation and presets;
  - the sleep card's score fallback, colour tiers and note editor;
  - the duration, efficiency and stage-percentage helpers;
  - the server route's validation, endpoint choice and status propagation.

## Files and modules

- **Support modules.**
  - `wrappers.dfy`: `Option` and `Result`.
  - `js.dfy` (`Js`): the JavaScript values the code handles (JSON values plus
    `undefined`), truthiness, optional-chaining property reads, `||`, `Number(...)`,
    `parseInt(..., 10)`, NaN/Infinity arithmetic, `Math.floor`/`Math.round`, and
    integer-to-text.
  - `http.dfy` (`Http`): what an awaited `fetch` yields. It can be a reply (status,
    text, parsed JSON or its parse error), an abort, or a thrown network error.
  - `calendar.dfy` (`Calendar`): UTC days of 86 400 000 ms, `Math.round` of a day
    difference, civil dates, `toISOString`, parsing `yyyy-MM-dd`, and `subMonths` with
    month-end clamping.
  - `sorting.dfy` (`Sorting`): a stable sort by a text key, proved sorted and a
    permutation.
- **One module per core file.**
  - `oura_api.dfy` (`OuraApi`): `src/lib/oura-api.ts`.
  - `sleep_utils.dfy` (`SleepUtils`): `src/lib/sleep-utils.ts`.
  - `page.dfy` (`Page`): the data pipeline of `src/app/page.tsx`. The class
    `HomePage` holds its React state.
  - `sleep_line_graph.dfy` (`SleepLineGraph`): `src/components/SleepLineGraph.tsx`.
  - `date_range_selector.dfy` (`DateRangeSelector`): `src/components/DateRangeSelector.tsx`.
  - `sleep_card.dfy` (`SleepCard`): `src/components/SleepCard.tsx`. The class
    `NoteEditor` holds the editor's state; its methods are specified by pure transition
    functions.
  - `sleep_route.dfy` (`SleepRoute`): `src/app/api/oura/sleep/route.ts`.

## Modelling choices

- **Values and records.**
  - A raw upstream record is a `Js.Value`, an object being a map from field name to
    value.
  - Canonical record fields are `Js.Value`s, because the `||` chains store whatever
    truthy value they find.
  - Numbers are exact reals, and computed numbers are `Js.Number` (NaN, finite or
    infinite).
- **Nondeterministic inputs.** These are parameters:
  - the clock, as `Oracle.nowMs`, and the random id suffixes, as `Oracle.summaryIds`
    and `Oracle.detailedIds`;
  - the `Math.random()` draws of the mock data (`random: nat -> real`, with
    `ValidDraws` saying each lies in [0, 1));
  - the `confirm` answers (`acceptMock`), the fetch results (`Http.Response` values or
    result functions), and the note-save outcome (`SaveOutcome`);
  - whether the engine's date parser makes a valid `Date` of a route date (`isoDate`
    of `SleepRoute.HandleGet`);
  - the page's calls to `generateMockData` and `formatDate`, as the inputs `mock` and
    `format` of `HomePage.FetchData`, as it already takes `fetchSleepData` and
    `getSleepNotes`; `OuraApi.GenerateMockData` and `Calendar.IsoDate` model them.
- **Imperative parts.**
  - The two `forEach` passes that fill the score table are the loops of
    `OuraApi.BuildScoreTable`.
  - The `let extractedScore` chains are the methods `ExtractDetailedScore` and
    `ExtractSummaryScore`.
  - The chart's `for` loops are `LimitedChartData` and `YAxisTicks`.
  - The page's and the card's state setters are the fields of the classes `HomePage`
    and `NoteEditor`.
  - Each method is proved equal to a specification function, and the properties are
    lemmas about that function.
- **Time.** Dates are milliseconds since the epoch in UTC, with a fixed day length.
  JavaScript's `Date` computes civil dates internally; the model's `Calendar` does it
  with the era and March-based-year day-number algorithm, proved to be a bijection
  between day numbers and valid dates (`CivilFromDaysInverse`, `DaysFromCivilInverse`).
  The page's `formatDate` (`yyyy-MM-dd`) is the `format` input of `HomePage.FetchData`.
  `Page.ApiEndIsNextDay` states the requested dates when it is `Calendar.IsoDate`.
- **Quirks kept as written.**
  - In the note editor, blurring with no saved note always saves, even an empty text,
    because `'' !== undefined` (`SleepCard.BlurWithoutNoteSaves`).
  - The route's logging reads `data.data` and `data.data[0].score`. A JSON `null`
    payload, or a list whose first item is `null`, therefore makes the route answer
    500 (`SleepRoute.NullPayloadsFail`).
  - A window that ends before it starts still lets "next" fire although the button is
    disabled (`DateRangeSelector.InvertedWindowMovesPastDisabled`).
  - "Last Week" is 8 rounded days long before noon and 7 from noon on, because the
    start keeps now's time of day while the end is 23:59:59.999
    (`DateRangeSelector.LastWeekSpan`).

## Model

| member | source | states |
|---|---|---|
| OuraApi.Payload | src/lib/oura-api.ts:300 | `item.sleep \|\| item` is truthy whenever the item is |
| OuraApi.Hypnogram | src/lib/oura-api.ts:351-353 | the hypnogram field is always truthy, since its chain ends in the 40-character default |
| OuraApi.MapDetailedComplete | src/lib/oura-api.ts:337-359 | a mapped detailed record has a truthy id, bedtimes and hypnogram, a truthy day when a start date is given, every numeric field truthy or 0, the unwrapped item as raw data, and no note |
| OuraApi.MapSummaryComplete | src/lib/oura-api.ts:463-487 | the same for a mapped daily summary record |
| OuraApi.SummaryTotalFallsBackToContributors | src/lib/oura-api.ts:470 | the summary total falls back to `contributors.total_sleep.value` only when none of the four direct fields is truthy, so a present 0 falls through |
| OuraApi.DetailedScorePriority | src/lib/oura-api.ts:311-332 | when tier k (`score`, `contributors.score.value`, `sleep_score`, `sleep_score_delta`) is present and all earlier tiers are absent, the score is tier k's value, whatever later tiers hold |
| OuraApi.DetailedScoreDefault | src/lib/oura-api.ts:311-332 | with no tier present the detailed score is 0 |
| OuraApi.ExtractDetailedScore | src/lib/oura-api.ts:311-332 | the statement-by-statement `extractedScore` chain equals the priority definition |
| OuraApi.CoerceScore | src/lib/oura-api.ts:443-445 | a number is kept as it is; a text is `parseInt` of it; `undefined`, `null`, booleans and objects give NaN; never Infinity |
| OuraApi.ContributorScore | src/lib/oura-api.ts:453-455 | present exactly when `contributors` and `contributors.score` are truthy and the value is not `undefined`, and then it is `contributors.score.value` |
| OuraApi.SummaryScore | src/lib/oura-api.ts:439-457 | a present `score` decides alone: a number as it is, a text as the finite number `parseInt` reads, 0 when that is NaN; an absent or null `score` gives the contributor value when there is one, else 0 |
| OuraApi.SummaryScoreOfText | src/lib/oura-api.ts:443-445 | a score given as the decimal text of an integer k, `"85"` say, is k |
| OuraApi.SummaryScoreOfLeadingDigits | src/lib/oura-api.ts:443-445 | a text score with trailing non-digits, `"85 points"` say, is the value of its leading digits |
| OuraApi.SummaryScoreOfNonNumeric | src/lib/oura-api.ts:443-448 | a text score with no sign, space or digit at its head, `"n/a"` say, is 0 |
| OuraApi.SummaryScoreIgnoresContributors | src/lib/oura-api.ts:442-457 | changing `contributors` never changes the score of a record with a direct score |
| OuraApi.ExtractSummaryScore | src/lib/oura-api.ts:439-457 | the statement-by-statement summary chain equals `SummaryScore` |
| OuraApi.ReceiveItems | src/lib/oura-api.ts:228-246 | an abort is the timeout error; a non-ok reply throws `API returned <status>: <text>`; a JSON error is thrown on; a body without a `data` array gives `[]`; otherwise the items exactly, unless one is null or undefined, when the error is the property read on the first such item |
| OuraApi.MapDetailedAll | src/lib/oura-api.ts:287-362 | one mapped record per item, in order |
| OuraApi.MapSummaryAll | src/lib/oura-api.ts:434-490 | one mapped record per item, in order |
| OuraApi.FetchDetailedSleepData | src/lib/oura-api.ts:202-374 | an abort is the timeout error; each error of the received items (reading `day` on a null item) is the result; otherwise the records are `MapDetailedAll` of the items, one per item in order |
| OuraApi.FetchDailySleepSummary | src/lib/oura-api.ts:376-502 | the same for the daily summaries, with `MapSummaryAll`, reading `score` on a null first item and `sleep` on a later one |
| OuraApi.ValidScore | src/lib/oura-api.ts:109-111 | a first-pass score exists exactly when the coerced score is a finite number above 0 |
| OuraApi.RawScore | src/lib/oura-api.ts:128-134 | `rawData.score` when truthy, else `contributors.score.value` when `contributors.score` is truthy; the candidate is kept exactly when it is truthy and not NaN; nothing without raw data or without either candidate |
| OuraApi.StoreContents | src/lib/oura-api.ts:107-139 | storing entries in order keeps a day exactly when some entry stores it or it was there before, and the last storing entry wins |
| OuraApi.ValidCountZero | src/lib/oura-api.ts:105-123 | `validScoreCount` is 0 exactly when no summary record has a valid score |
| OuraApi.FirstPassContents | src/lib/oura-api.ts:107-118 | the first pass holds exactly the days with a valid score, each with the score of the last valid record of that day |
| OuraApi.FirstPassPositive | src/lib/oura-api.ts:111-112 | every first-pass entry is a number above 0 |
| OuraApi.FirstPassEmpty | src/lib/oura-api.ts:123 | with no valid score the first pass leaves the table empty |
| OuraApi.RawPassContents | src/lib/oura-api.ts:126-139 | the raw pass keeps the table and adds exactly the days with a raw score, the last one winning |
| OuraApi.RawPassTruthy | src/lib/oura-api.ts:134-135 | every raw-pass entry is truthy and not NaN |
| OuraApi.ScoreTableEntries | src/lib/oura-api.ts:102-141 | the table holds only truthy, non-NaN scores; once any summary has a valid score it is the first pass alone, with numbers above 0 |
| OuraApi.BuildScoreTable | src/lib/oura-api.ts:102-141 | the two `forEach` loops build exactly the specified table and count |
| OuraApi.WithTableScore | src/lib/oura-api.ts:152-159 | only the score changes, and it is replaced exactly when the table has a truthy entry for the day |
| OuraApi.Overlay | src/lib/oura-api.ts:151-160 | same length and order as the detailed list, each record overlaid independently |
| OuraApi.OverlaySameDay | src/lib/oura-api.ts:151-160 | detailed records sharing a day are all kept and all get the same score, with nothing else changed |
| OuraApi.MergedScoreIsLastValidSummary | src/lib/oura-api.ts:107-160 | a detailed record whose day has a valid summary score ends up with the last such score |
| OuraApi.UnmatchedKeepsScore | src/lib/oura-api.ts:152-159 | a record whose day is not in the table is unchanged |
| OuraApi.Rescue | src/lib/oura-api.ts:188-198 | accepting the prompt gives exactly the mock data of the range; declining gives the error |
| OuraApi.FetchSleepData | src/lib/oura-api.ts:91-200 | a failed summary or detailed fetch goes to the mock prompt; non-empty detailed records come back overlaid with the summary score table, else non-empty summaries unchanged, else mock data when accepted or `[]` |
| OuraApi.Draw | src/lib/oura-api.ts:520-524 | `base + floor(draw * width)` lies in [base, base + width - 1] for a draw in [0, 1) |
| OuraApi.MockRecord | src/lib/oura-api.ts:514-525 | record i of a day has id `mock-i`, the day's date text, bedtimes 8 h and 30 min before the day starts, and valid draws put its values in range |
| OuraApi.MockDayCount | src/lib/oura-api.ts:508 | the count is the rounded day difference plus 1, or 0 when that is negative |
| OuraApi.MockDays | src/lib/oura-api.ts:510-526 | one record per day of the range, the i-th being mock record i of the i-th consecutive day start |
| OuraApi.GenerateMockData | src/lib/oura-api.ts:505-527 | a start or end date that does not parse gives no records |
| OuraApi.MockDaysSpan | src/lib/oura-api.ts:508 | instants k whole days apart give k + 1 records |
| OuraApi.MockDaysIds | src/lib/oura-api.ts:516 | the mock ids are pairwise distinct |
| OuraApi.GenerateMockDataParsed | src/lib/oura-api.ts:506-510 | parsed dates give the mock records of the instants they denote |
| OuraApi.MockDataRanges | src/lib/oura-api.ts:520-524 | with draws in [0, 1): score in [70,99], efficiency in [80,99], deep in [4000,6999], REM in [5000,8999], light in [10000,14999] |
| OuraApi.Split | src/lib/oura-api.ts:552 | `split` always yields at least one piece |
| OuraApi.SplitCount | src/lib/oura-api.ts:552 | splitting yields one more piece than there are separators |
| OuraApi.SplitJoin | src/lib/oura-api.ts:552 | joining the pieces with the separator restores the string |
| OuraApi.JoinSplit | src/lib/oura-api.ts:552 | splitting pieces joined by a separator that none of them holds gives the pieces back |
| OuraApi.ParseHypnogram | src/lib/oura-api.ts:529-533 | the empty string yields the fixed 40-element default |
| OuraApi.ParseHypnogramDigits | src/lib/oura-api.ts:555-556 | an unbracketed string without commas yields one element per character: a digit gives its value, whitespace 0, anything else NaN |
| OuraApi.ParseHypnogramPieces | src/lib/oura-api.ts:551-552 | a comma string (not a JSON integer array) yields commas + 1 elements, each `Number` of its piece |
| OuraApi.DefaultHypnogramDecodes | src/lib/oura-api.ts:529-556 | the 40-character default hypnogram string decodes to exactly the 40-element default array |
| OuraApi.JsonIntArrayOfText | src/lib/oura-api.ts:539-541 | the JSON text of every integer array, `[` + the comma-joined decimal texts + `]`, parses as that array |
| OuraApi.ParseHypnogramOfJsonArray | src/lib/oura-api.ts:539-544 | the JSON text of every integer array decodes to one stage per element, in order |
| OuraApi.ParseHypnogramArray | src/lib/oura-api.ts:539-544 | for instance, `[1,2,3]` decodes to the stages 1, 2, 3 |
| Js.FirstTruthyPicksFirst | src/lib/oura-api.ts:344 | a `\|\|` chain yields the first truthy candidate |
| Js.FirstTruthyFallsBack | src/lib/oura-api.ts:344 | with no truthy candidate the chain yields its fallback |
| Js.FirstTruthyIsCandidate | src/lib/oura-api.ts:344-356 | the chain's result is the fallback or a truthy candidate |
| Js.ParseIntOfText | src/lib/oura-api.ts:445 | `parseInt(String(k), 10)` of every integer k is k |
| Js.ParseIntLeadingDigits | src/lib/oura-api.ts:445 | `parseInt` reads the leading digits up to the first non-digit |
| Js.DigitsValueInjective | src/lib/oura-api.ts:516 | two digit strings of the same length with the same value are equal |
| Calendar.DaysBetween | src/components/DateRangeSelector.tsx:41 | `Math.round(diff / day)` is the whole number of days within half a day of the difference |
| Calendar.DaysBetweenWhole | src/components/DateRangeSelector.tsx:41 | an exact number of days reads back as that number |
| Calendar.SubMonths | src/components/DateRangeSelector.tsx:30 | `subMonths` keeps the time of day |
| Calendar.SubMonthsDate | src/components/DateRangeSelector.tsx:30-36 | `subMonths(d, n)` lands n months before the month of d, on the same day of the month clamped to the last day of the target month |
| Calendar.CivilFromDaysValid | src/lib/oura-api.ts:516 | every day number has a valid calendar date: month 1..12, day within the month |
| Calendar.CivilFromDaysInverse | src/lib/oura-api.ts:506-516 | converting a day number to its date and back gives the day number |
| Calendar.DaysFromCivilInverse | src/lib/oura-api.ts:506-516 | converting a valid date to its day number and back gives the date |
| Calendar.PadDigits | src/lib/oura-api.ts:516 | a number below 10^w padded to w digits is w digits whose value is the number |
| Calendar.IsoDateRoundTrip | src/lib/oura-api.ts:506-516 | for years 0..9999 the `yyyy-MM-dd` text of an instant parses back to the start of its day |
| Calendar.ParseIsoDateRoundTrip | src/lib/oura-api.ts:506-516 | every `yyyy-MM-dd` text that parses is the date text of the instant it parses to |
| Sorting.SortBySortedPermutation | src/app/page.tsx:125 | the stable sort's result is ordered by key and is a permutation of its input |
| Sorting.InsertStable | src/app/page.tsx:125 | inserting into a sorted list puts the element after every element with the same key |
| Sorting.SortByStable | src/app/page.tsx:125 | the sort is stable: for every key, the elements with that key come out in their input order |
| SleepUtils.FormatDuration | src/lib/sleep-utils.ts:4-9 | the text ends in `m` and has at least four characters |
| SleepUtils.DurationPartsBounds | src/lib/sleep-utils.ts:5-6 | for s ≥ 0 the hours and minutes are whole, minutes in 0..59, and `h*3600 + m*60 ≤ s < h*3600 + m*60 + 60` |
| SleepUtils.FormatDurationOf | src/lib/sleep-utils.ts:4-9 | a non-negative duration renders as `{h}h {m}m` for the unique h, m of the bounds above |
| SleepUtils.FormatDurationNegative | src/lib/sleep-utils.ts:5-8 | -90 s renders `-1h -2m` (truncating `%`, flooring division) |
| SleepUtils.FormatSleepEfficiency | src/lib/sleep-utils.ts:19-21 | the text ends in `%` |
| SleepUtils.FormatSleepEfficiencyOf | src/lib/sleep-utils.ts:19-21 | an efficiency within half a point of k, halves rounding up, renders as `k%` |
| SleepUtils.StagePart | src/lib/sleep-utils.ts:28-37 | a duration is chosen exactly for `deep`, `rem` and `light` |
| SleepUtils.GetSleepStagePercentage | src/lib/sleep-utils.ts:23-38 | 0 whenever the total is 0, for every stage, and 0 for an unknown stage |
| SleepUtils.StagePercentageShare | src/lib/sleep-utils.ts:28-34 | with a positive total the percentage is `part / total * 100`, within [0,100] when the part is within the total |
| SleepUtils.StagePercentagesSum | src/lib/sleep-utils.ts:28-34 | the three percentages add up to the stages' share of the total, 100 when they fill it |
| SleepUtils.HypnogramColors | src/lib/sleep-utils.ts:40-46 | the colour map has exactly the keys 1, 2, 3, 4 |
| SleepUtils.HypnogramColorsCoverDefault | src/lib/sleep-utils.ts:40-46 | every default stage has a colour, and the four colours are distinct |
| Page.ApiEndIsNextDay | src/app/page.tsx:48-51 | in UTC the API dates are the selected start day and the calendar day after the selected end, whatever their time of day |
| Page.KeepNights | src/app/page.tsx:100 | the filter keeps only records of at least 3600 s and never grows the list |
| Page.KeepNightsCounts | src/app/page.tsx:100 | each night is kept as often as it occurs and every nap is dropped |
| Page.KeepNightsAppend | src/app/page.tsx:100 | the filter keeps relative order (it distributes over concatenation) |
| Page.KeepNightsIdempotent | src/app/page.tsx:100 | filtering twice is filtering once |
| Page.FirstNoteIndex | src/app/page.tsx:117 | the index found is of a note of that day with no earlier one; none means no note of that day |
| Page.FirstNote | src/app/page.tsx:117 | the note found is a note of that day from the list; none means there is none |
| Page.AttachNotes | src/app/page.tsx:116-122 | same length; each record has only its note replaced, by the first note of its day |
| Page.AttachNotesFirstWins | src/app/page.tsx:117 | when notes share a day, the record gets the earliest of them |
| Page.NewestFirst | src/app/page.tsx:125 | the sorted list is a permutation ordered by day, newest first |
| Page.Shown | src/app/page.tsx:89-137 | nothing for no data; otherwise a newest-first permutation of the nights with notes, or of the nights alone when the notes fail |
| Page.ShownIsNights | src/app/page.tsx:100-137 | exactly the nights are shown: as they were when the notes fail, with only their note replaced otherwise |
| Page.HomePage.constructor | src/app/page.tsx:18-23 | the page starts loading, with no records, no error and no mock data |
| Page.HomePage.FetchData | src/app/page.tsx:34-146 | a missing date sets the range error without fetching; mock requests never fetch; the fetch asks for the formatted start and end + 1 day; empty results give the no-data error; failures set the error and offer mock data; loading always ends |
| Page.HomePage.Load | src/app/page.tsx:59-139 | the same once the dates are formatted, as the predicate `Loaded` over the old records and requests |
| Page.HomePage.Show | src/app/page.tsx:89-139 | the screen shows `Shown` of the records and the range's notes; no records give the no-data error; nothing else changes |
| SleepLineGraph.Hours | src/components/SleepLineGraph.tsx:44-46 | seconds over 3600 is never infinite |
| SleepLineGraph.ChartData | src/components/SleepLineGraph.tsx:41-59 | one point per record, in reverse order |
| SleepLineGraph.ChartDataAppend | src/components/SleepLineGraph.tsx:58 | two runs of records come out swapped, each reversed |
| SleepLineGraph.Step | src/components/SleepLineGraph.tsx:66 | the step is `ceil(n/12)`, at least 2 for more than 12 points |
| SleepLineGraph.Strides | src/components/SleepLineGraph.tsx:69 | the count of multiples of the step below n |
| SleepLineGraph.PickCount | src/components/SleepLineGraph.tsx:69-73 | for more than 12 points the loop keeps between 2 and 11 multiples of the step, the last of them below n |
| SleepLineGraph.PicksShape | src/components/SleepLineGraph.tsx:66-78 | the chosen indices are strictly increasing, below n, 2 to 12 of them, from 0 to n - 1 |
| SleepLineGraph.ByDate | src/components/SleepLineGraph.tsx:81 | the sort by date is an ordered permutation |
| SleepLineGraph.LimitedShape | src/components/SleepLineGraph.tsx:62-82 | at most 12 points, all from the chart, always including the latest, date-sorted; at most 12 points come back unchanged |
| SleepLineGraph.LimitedChartData | src/components/SleepLineGraph.tsx:62-82 | the `for` loop, the latest-point push and the sort compute exactly `Limited` |
| SleepLineGraph.Ceil | src/components/SleepLineGraph.tsx:90 | `Math.ceil` is the least integer at or above x |
| SleepLineGraph.MaxOf | src/components/SleepLineGraph.tsx:88 | `Math.max` is NaN exactly when some element is, else an element at least every element |
| SleepLineGraph.MaxSleepHours | src/components/SleepLineGraph.tsx:85-91 | 10 for an empty chart |
| SleepLineGraph.MaxSleepHoursIsEvenCover | src/components/SleepLineGraph.tsx:88-90 | otherwise the smallest even number of hours at or above every total, NaN exactly when a total is NaN |
| SleepLineGraph.TicksShape | src/components/SleepLineGraph.tsx:94-100 | ticks are 0, 2, 4, … not above the maximum; for an even maximum 2e they end at it and number e + 1 |
| SleepLineGraph.YAxisTicks | src/components/SleepLineGraph.tsx:94-100 | the `for` loop computes exactly those ticks |
| DateRangeSelector.TodayEnd | src/components/DateRangeSelector.tsx:19-20 | the end of today is on today and one millisecond before tomorrow |
| DateRangeSelector.Previous | src/components/DateRangeSelector.tsx:40-45 | the new end is a day before the old start, the new start `daysDiff + 1` days before it; always fires |
| DateRangeSelector.Next | src/components/DateRangeSelector.tsx:47-58 | fires exactly when the new end is not after the end of today; the new start is a day after the old end, the new end `daysDiff + 1` days after it |
| DateRangeSelector.PreviousKeepsSpan | src/components/DateRangeSelector.tsx:41-43 | moving back keeps the window's span in whole days |
| DateRangeSelector.NextKeepsSpan | src/components/DateRangeSelector.tsx:48-50 | moving forward keeps the span |
| DateRangeSelector.DisabledNextDoesNothing | src/components/DateRangeSelector.tsx:53-55 | a well-ordered window with a disabled next button does not move |
| DateRangeSelector.InvertedWindowMovesPastDisabled | src/components/DateRangeSelector.tsx:48-55 | an inverted window ending today has next disabled yet still moves |
| DateRangeSelector.PreviousThenNext | src/components/DateRangeSelector.tsx:40-58 | a whole-day window moved back then forward is itself |
| DateRangeSelector.NextThenPrevious | src/components/DateRangeSelector.tsx:40-58 | a whole-day window moved forward then back is itself |
| DateRangeSelector.LastWeek | src/components/DateRangeSelector.tsx:22-26 | ends at the end of today and starts 7 days before now |
| DateRangeSelector.LastMonth | src/components/DateRangeSelector.tsx:28-32 | ends at the end of today (its start: `MonthPresetStarts`) |
| DateRangeSelector.LastThreeMonths | src/components/DateRangeSelector.tsx:34-38 | ends at the end of today (its start: `MonthPresetStarts`) |
| DateRangeSelector.MonthPresetStarts | src/components/DateRangeSelector.tsx:28-38 | "Last Month" starts one calendar month before today and "Last 3 Months" three, on today's day of the month clamped to the target month's length |
| DateRangeSelector.PresetsEndToday | src/components/DateRangeSelector.tsx:22-38 | every preset ends at the end of today, so next is disabled for it |
| DateRangeSelector.PresetsStartAtNowTime | src/components/DateRangeSelector.tsx:24-36 | every preset starts at now's time of day |
| DateRangeSelector.LastWeekSpan | src/components/DateRangeSelector.tsx:22-26 | "Last Week" spans 8 rounded days before noon and 7 from noon on |
| SleepCard.GetDisplayScore | src/components/SleepCard.tsx:96-119 | the displayed score is never falsy and is the own score, a raw candidate, or `N/A` |
| SleepCard.RawDisplayScore | src/components/SleepCard.tsx:103-115 | the raw fallback is truthy and is a raw candidate or `N/A` |
| SleepCard.DisplayScoreOrder | src/components/SleepCard.tsx:96-119 | the fallback order is a positive own score, then the first truthy of raw `score` and `contributors.score.value`, then `N/A` |
| SleepCard.ZeroScoreFallsBack | src/components/SleepCard.tsx:98-118 | an own score of 0 never shows as 0, and without raw data it shows `N/A` |
| SleepCard.BadgeOf | src/components/SleepCard.tsx:136-141 | `N/A` is gray |
| SleepCard.BadgeMonotone | src/components/SleepCard.tsx:136-141 | a higher score never gets a lower badge |
| SleepCard.BadgeThresholds | src/components/SleepCard.tsx:136-141 | emerald exactly from 75, amber exactly from 60 below 75, gray exactly at or below 0 |
| SleepCard.PositiveScoreIsColoured | src/components/SleepCard.tsx:98-140 | a positive own score is shown as is, with a non-gray badge |
| SleepCard.ScoreColor | src/components/SleepCard.tsx:89-93 | NaN is red |
| SleepCard.ScoreColorMonotone | src/components/SleepCard.tsx:89-93 | green exactly from 80, yellow exactly from 70 below 80, and never lower for a higher score |
| SleepCard.SavedText | src/components/SleepCard.tsx:79 | the text restored is `''` without a note |
| SleepCard.Save | src/components/SleepCard.tsx:41-62 | every save sends the current text |
| SleepCard.NotesClick | src/components/SleepCard.tsx:64-66 | clicking the notes starts editing |
| SleepCard.SaveOutcomes | src/components/SleepCard.tsx:47-55 | a stored note replaces the record's note and text and ends editing; a refused or failed save keeps note, text and editing, and sets an error |
| SleepCard.BlurSavesChanges | src/components/SleepCard.tsx:68-74 | blur saves exactly when the text differs from the saved note; otherwise it only ends editing |
| SleepCard.BlurWithoutNoteSaves | src/components/SleepCard.tsx:69 | without a saved note, blur always saves |
| SleepCard.EscapeRestores | src/components/SleepCard.tsx:77-79 | Escape ends editing and restores the saved text or `''`, without saving |
| SleepCard.EnterSaves | src/components/SleepCard.tsx:76-83 | Enter saves; other keys change nothing |
| SleepCard.StoredThenBlurIsQuiet | src/components/SleepCard.tsx:47-74 | after a stored save, blur does not save again |
| SleepCard.EscapeThenBlur | src/components/SleepCard.tsx:68-79 | after Escape, blur saves again exactly when the record has no note |
| SleepCard.NoteEditor.constructor | src/components/SleepCard.tsx:29-32 | the mounted editor shows the saved text and is closed |
| SleepCard.NoteEditor.SaveNotes | src/components/SleepCard.tsx:41-62 | the handler's state updates are exactly `Save`, and submitting ends |
| SleepCard.NoteEditor.HandleChange | src/components/SleepCard.tsx:180 | the typed text replaces the edited notes; nothing else changes |
| SleepCard.TypedTextSavedOnBlur | src/components/SleepCard.tsx:68-74 | a typed text that differs from the saved note is sent by the next blur; one that matches is not sent and stays shown |
| SleepCard.NoteEditor.HandleNotesClick | src/components/SleepCard.tsx:64-66 | exactly `NotesClick` |
| SleepCard.NoteEditor.HandleBlur | src/components/SleepCard.tsx:68-74 | exactly `Blur`; when nothing changed, submitting is untouched |
| SleepCard.NoteEditor.HandleKeyDown | src/components/SleepCard.tsx:76-83 | exactly `KeyDown`; keys other than Enter leave submitting untouched |
| SleepRoute.Token | src/app/api/oura/sleep/route.ts:8-12 | an unset variable gives the empty token |
| SleepRoute.Endpoint | src/app/api/oura/sleep/route.ts:51-53 | the daily URL exactly for `type=daily`, else the detailed URL |
| SleepRoute.LoggingError | src/app/api/oura/sleep/route.ts:87-103 | a nullish payload makes the logging throw |
| SleepRoute.HandleGet | src/app/api/oura/sleep/route.ts:14-115 | a given date that does not convert to ISO text throws uncaught, and only then; an upstream call always carries `Bearer <token>` |
| SleepRoute.UnconvertibleDateThrows | src/app/api/oura/sleep/route.ts:24-28 | a given date that makes an invalid `Date` throws `Invalid time value` before any check, with no upstream call |
| SleepRoute.UpstreamCalledExactly | src/app/api/oura/sleep/route.ts:24-61 | the upstream call is made exactly when the given dates convert, both are given and a token is configured |
| SleepRoute.MissingDatesRejected | src/app/api/oura/sleep/route.ts:31-37 | when the given dates convert, a missing or empty date gives 400, whatever the token, with no upstream call |
| SleepRoute.MissingTokenRejected | src/app/api/oura/sleep/route.ts:40-47 | with dates but no token, 500 "Oura API token not configured", no upstream call |
| SleepRoute.UpstreamUrlShape | src/app/api/oura/sleep/route.ts:56-64 | the URL is the endpoint + `?start_date=` + start + `&end_date=` + end |
| SleepRoute.EndpointsDistinct | src/app/api/oura/sleep/route.ts:4-5 | the two endpoints never build the same URL |
| SleepRoute.DailyOnlyForDaily | src/app/api/oura/sleep/route.ts:21-53 | `type=daily` uses the daily URL; absent, empty or other types use the detailed URL |
| SleepRoute.FailureStatusPropagated | src/app/api/oura/sleep/route.ts:71-82 | a non-ok upstream status is returned with the upstream text as details |
| SleepRoute.SuccessPassedThrough | src/app/api/oura/sleep/route.ts:86-106 | ok upstream JSON is returned unchanged with 200, unless the logging throws, giving 500 |
| SleepRoute.ThrownErrorsGive500 | src/app/api/oura/sleep/route.ts:61-113 | a thrown fetch, or a JSON parse error on an ok reply, is answered with 500 `Failed to fetch data from Oura API` and the error text as details |
| SleepRoute.OkAnswersAreUpstreamData | src/app/api/oura/sleep/route.ts:71-106 | every ok answer is 200 with the upstream JSON unchanged |
| SleepRoute.ObjectListsPassLogging | src/app/api/oura/sleep/route.ts:87-103 | a payload whose `data` is a list of objects never trips the logging |
| SleepRoute.NullPayloadsFail | src/app/api/oura/sleep/route.ts:87-113 | a `null` payload or a `null` first item makes the route answer 500 |

## Left out

- Network, timers and response bodies: `fetch`, the `AbortController` timeouts and
  `response.text()`/`response.json()` are inputs (`Http.Response`). The timeout is the
  `Aborted` reply. The server route has no timeout, so `HandleGet` requires a reply
  that is not `Aborted`.
- Logging (`console.*`) is dropped, except where a logging statement can throw. Two
  such statements are kept:
  - the route's first log line, whose `toISOString()` throws on a date that makes an
    invalid `Date` (the input `isoDate` of `SleepRoute.HandleGet`);
  - its payload log lines, whose property reads throw on `null`
    (`SleepRoute.LoggingError`).

  The `confirm` prompts are the boolean `acceptMock`.
- The record's `notes` are read by `getSleepNotes` and written by `upsertSleepNote`.
  Both are in `src/lib/sleep-notes-service.ts`, which wraps the hosted database and is
  not part of this model. Their results are inputs.
- Timing and async:
  - All date defaults use one `now` (`Oracle.nowMs`).
  - React's asynchronous state updates are modelled as finished when a handler
    returns.
  - A save's outcome arrives before the next event.
- Local time: every date operation runs in UTC with 86 400 000 ms days, so time-zone
  and DST effects of `setHours`, `setDate`, `addDays`, `subDays` and `subWeeks` are not
  modelled.
- date-fns display formatting and `parseISO` are not modelled:
  - `formatDate`/`formatTime` in sleep-utils;
  - the chart's `format(date, 'EEE MMM d')`;
  - the date text in the selector.

  The chart sorts by the day text. A day that does not parse makes `parseISO` an
  Invalid Date, on which `format` throws `RangeError: Invalid time value`, so the chart
  does not render. The model does not capture that throw.
- Floating point: numbers are exact reals.
  - `toFixed(1)` in the chart is not applied (`SleepLineGraph.Hours` is the exact
    quotient).
  - `Math.round` of efficiencies and the percentages are exact.
- `Number(...)` reads decimal literals only. `"Infinity"`, hexadecimal, binary, octal
  and exponent forms read as NaN rather than their values.
- The JSON branch of `parseHypnogram` accepts only arrays of integer literals. Other
  JSON (nested values, strings, decimals) is treated as not parsed and falls through
  to the comma and character branches.
- `OuraApi.ParseHypnogram`: its own contract states only the empty-input case. The
  other branches are stated by the lemmas `ParseHypnogramDigits`,
  `ParseHypnogramPieces`, `DefaultHypnogramDecodes` and `ParseHypnogramOfJsonArray`.
- `OuraApi.ParseHypnogram`: the character branch's `split('')` is modelled as one piece
  per Unicode scalar value of the string, whereas JavaScript splits into UTF-16 code
  units. The two differ only for characters outside the Basic Multilingual Plane, which
  a hypnogram does not hold.
- Sorting:
  - The sort comparators subtract `new Date(day)` times. They are modelled as a stable
    sort on the day text, which orders `yyyy-MM-dd` days the same way.
  - The in-place `sort` calls are modelled on sequence values.
- Object identity: `result.includes(chartData[n - 1])` compares object identity. It is
  modelled by the picked indices.
- `sleepData.notes = result` in the sleep card mutates a record shared with the page's
  list. The model keeps the note in the editor's `note` field, so the aliasing is not
  modelled.
- The score table is keyed by the day value rather than by `String(day)`. The two
  differ only for days that are not text, or for a day that names a property inherited
  from `Object.prototype` (such as `constructor`), which the plain-object lookup finds as
  a truthy function.
- `generateMockData` parses dates of the `yyyy-MM-dd` form only. Other
  `new Date(...)` inputs read as Invalid Date.
- The outer `catch` of the page's `fetchData` (`Failed to fetch sleep data: ...`) is
  not modelled, because nothing in the modelled pipeline throws outside the inner
  handlers.
- `String(error)` in the route's 500 answer is modelled as the error's message, without
  the error name prefix.
- A non-ok upstream status outside 200..599 is passed back as is. In Next.js it would
  make `NextResponse.json` throw.
- The JSX rendering, the UI-only components and the ad-hoc Node scripts are not part
  of this model. These include the list view, the hypnogram chart, the troubleshooter
  and the test pages.
- `SleepRoute.LoggingError`: the `JSON.stringify` and `Object.keys` calls in the log
  lines are taken not to throw on parsed JSON.
