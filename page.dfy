/**
  The data pipeline of the home page: `fetchData` checks the selected range, asks for
  the records of the range widened by one day (or for mock records), drops naps, joins
  each record with its note and shows the records newest first.
*/
module Page {
  import opened Wrappers
  import opened Js
  import Calendar
  import Sorting
  import OuraApi

  type SleepRecord = OuraApi.SleepRecord
  type SleepNote = OuraApi.SleepNote

  const INVALID_RANGE := "Invalid date range. Please select a start and end date."
  const NO_DATA := "No sleep data found for the selected date range."
  const API_FAILED := "API request failed: "

  // ---------------------------------------------------------------------------
  // The requested range

  /**
    The dates sent to the API: the start date as selected, and the day after the
    selected end date (`setDate(getDate() + 1)`), both written by `format`, which stands
    for the page's `formatDate` (date-fns `format(date, 'yyyy-MM-dd')`); in UTC that is
    `Calendar.IsoDate`.
  */
  function ApiDates(format: int -> string, startMs: int, endMs: int): (string, string)
  {
    (format(startMs), format(endMs + Calendar.DAY_MS))
  }

  /** The requested end date is the calendar day after the selected end, whatever its time of day. */
  lemma ApiEndIsNextDay(startMs: int, endMs: int)
    ensures ApiDates(Calendar.IsoDate, startMs, endMs).1 == Calendar.IsoDate(Calendar.StartOfDay(endMs) + Calendar.DAY_MS)
    ensures ApiDates(Calendar.IsoDate, startMs, endMs).0 == Calendar.IsoDate(Calendar.StartOfDay(startMs))
  {
    Calendar.DayNumbers(endMs);
    Calendar.DayNumbers(startMs);
    Calendar.SameDayIsoDate(endMs + Calendar.DAY_MS, Calendar.StartOfDay(endMs) + Calendar.DAY_MS);
    Calendar.SameDayIsoDate(startMs, Calendar.StartOfDay(startMs));
  }

  // ---------------------------------------------------------------------------
  // Nap filter

  /** A record of at least an hour of sleep (`total_sleep_duration >= 3600`). */
  predicate IsNight(r: SleepRecord)
  {
    AtLeast(ToNumber(r.totalSleepDuration), 3600.0)
  }

  /** `filter(item => item.total_sleep_duration >= 3600)`. */
  function KeepNights(s: seq<SleepRecord>): (r: seq<SleepRecord>)
    ensures |r| <= |s|
    ensures forall x :: x in r ==> IsNight(x)
    decreases |s|
  {
    if s == [] then [] else (if IsNight(s[0]) then [s[0]] else []) + KeepNights(s[1..])
  }

  /** The filter keeps every night as often as it occurs and drops every nap. */
  lemma {:induction false} KeepNightsCounts(s: seq<SleepRecord>, x: SleepRecord)
    ensures multiset(KeepNights(s))[x] == if IsNight(x) then multiset(s)[x] else 0
    decreases |s|
  {
    if s != [] {
      KeepNightsCounts(s[1..], x);
      assert s == [s[0]] + s[1..];
    }
  }

  /** Filtering two runs of records one after the other keeps their relative order. */
  lemma {:induction false} KeepNightsAppend(a: seq<SleepRecord>, b: seq<SleepRecord>)
    ensures KeepNights(a + b) == KeepNights(a) + KeepNights(b)
    decreases |a|
  {
    if a != [] {
      assert (a + b)[1..] == a[1..] + b;
      KeepNightsAppend(a[1..], b);
    } else {
      assert a + b == b;
    }
  }

  /** Filtering again changes nothing. */
  lemma {:induction false} KeepNightsIdempotent(s: seq<SleepRecord>)
    ensures KeepNights(KeepNights(s)) == KeepNights(s)
    decreases |s|
  {
    if s != [] {
      var head := if IsNight(s[0]) then [s[0]] else [];
      KeepNightsIdempotent(s[1..]);
      KeepNightsAppend(head, KeepNights(s[1..]));
      if IsNight(s[0]) {
        assert KeepNights(head) == head by {
          assert head[1..] == [];
        }
      }
    }
  }

  // ---------------------------------------------------------------------------
  // Notes join

  /** The index of the first note for `day` (`notes.find(note => note.sleep_date === day)`). */
  function FirstNoteIndex(notes: seq<SleepNote>, day: Value): (k: Option<nat>)
    ensures k.Some? ==> (k.value < |notes| && Str(notes[k.value].sleepDate) == day
      && forall j :: 0 <= j < k.value ==> Str(notes[j].sleepDate) != day)
    ensures k.None? ==> forall j :: 0 <= j < |notes| ==> Str(notes[j].sleepDate) != day
    decreases |notes|
  {
    if notes == [] then None
    else if Str(notes[0].sleepDate) == day then Some(0)
    else match FirstNoteIndex(notes[1..], day)
      case Some(k) => Some(k + 1)
      case None => None
  }

  /** The first note for `day`, if any. */
  function FirstNote(notes: seq<SleepNote>, day: Value): (n: Option<SleepNote>)
    ensures n.Some? ==> n.value in notes && Str(n.value.sleepDate) == day
    ensures n.None? ==> forall note :: note in notes ==> Str(note.sleepDate) != day
  {
    match FirstNoteIndex(notes, day)
    case Some(k) => Some(notes[k])
    case None => None
  }

  /** Each record with its day's first note (`{...sleepItem, notes: matchingNote || undefined}`). */
  function AttachNotes(s: seq<SleepRecord>, notes: seq<SleepNote>): (r: seq<SleepRecord>)
    ensures |r| == |s|
    ensures forall i :: 0 <= i < |s| ==> r[i].(notes := s[i].notes) == s[i]
    ensures forall i :: 0 <= i < |s| ==> r[i].notes == FirstNote(notes, s[i].day)
  {
    seq(|s|, i requires 0 <= i < |s| => s[i].(notes := FirstNote(notes, s[i].day)))
  }

  /** When several notes share a day, every record of that day gets the earliest one in the list. */
  lemma AttachNotesFirstWins(s: seq<SleepRecord>, notes: seq<SleepNote>, i: nat, j: nat)
    requires i < |s| && j < |notes| && Str(notes[j].sleepDate) == s[i].day
    ensures exists k ::
      && 0 <= k <= j && AttachNotes(s, notes)[i].notes == Some(notes[k])
      && forall m :: 0 <= m < k ==> Str(notes[m].sleepDate) != s[i].day
  {
    var k := FirstNoteIndex(notes, s[i].day);
    assert k.Some? && k.value <= j;
  }

  // ---------------------------------------------------------------------------
  // Newest first

  /** The day a record is sorted by; the `yyyy-MM-dd` text orders like the date it names. */
  function DayKey(r: SleepRecord): string
  {
    if r.day.Str? then r.day.s else ""
  }

  /** `sort((a, b) => new Date(b.day).getTime() - new Date(a.day).getTime())`: newest day first. */
  function NewestFirst(s: seq<SleepRecord>): (r: seq<SleepRecord>)
    ensures |r| == |s| && multiset(r) == multiset(s)
    ensures Sorting.SortedBy(r, DayKey, true)
  {
    Sorting.SortBySortedPermutation(s, DayKey, true);
    Sorting.SortBy(s, DayKey, true)
  }

  /**
    What the page shows for the records received: nothing for none; else the nights,
    each with its note when the notes came back, newest first.
  */
  function Shown(data: seq<SleepRecord>, notes: Result<seq<SleepNote>, string>): (r: seq<SleepRecord>)
    ensures data == [] ==> r == []
    ensures Sorting.SortedBy(r, DayKey, true)
    ensures data != [] && notes.Ok? ==> multiset(r) == multiset(AttachNotes(KeepNights(data), notes.value))
    ensures data != [] && notes.Err? ==> multiset(r) == multiset(KeepNights(data))
  {
    if data == [] then []
    else match notes
      case Ok(ns) => NewestFirst(AttachNotes(KeepNights(data), ns))
      case Err(_) => NewestFirst(KeepNights(data))
  }

  /**
    The records shown are the nights received, no more and no fewer: as they were when
    the notes failed, and with only their note replaced when the notes came back.
  */
  lemma ShownIsNights(data: seq<SleepRecord>, notes: Result<seq<SleepNote>, string>)
    ensures |Shown(data, notes)| == |KeepNights(data)|
    ensures notes.Err? ==> forall x :: x in Shown(data, notes) <==> x in data && IsNight(x)
    ensures notes.Ok? ==> forall x :: x in Shown(data, notes) ==>
      exists y :: y in data && IsNight(y) && x == y.(notes := x.notes)
    ensures notes.Ok? ==> forall y :: y in data && IsNight(y) ==>
      exists x :: x in Shown(data, notes) && x.(notes := y.notes) == y
  {
    if data != [] {
      match notes
      case Err(_) => ShownNightsExactly(data, Shown(data, notes));
      case Ok(ns) => ShownNightsWithNotes(data, ns, Shown(data, notes));
    }
  }

  /** A list holding the nights of `data`, reordered, holds exactly the nights of `data`. */
  lemma ShownNightsExactly(data: seq<SleepRecord>, shown: seq<SleepRecord>)
    requires multiset(shown) == multiset(KeepNights(data))
    ensures forall x :: x in shown <==> x in data && IsNight(x)
  {
    forall x
      ensures x in shown <==> x in data && IsNight(x)
    {
      KeepNightsCounts(data, x);
      assert x in shown <==> x in multiset(shown);
    }
  }

  /** A list holding the nights of `data` with notes attached, reordered, differs from them in the notes only. */
  lemma ShownNightsWithNotes(data: seq<SleepRecord>, ns: seq<SleepNote>, shown: seq<SleepRecord>)
    requires multiset(shown) == multiset(AttachNotes(KeepNights(data), ns))
    ensures forall x :: x in shown ==> exists y :: y in data && IsNight(y) && x == y.(notes := x.notes)
    ensures forall y :: y in data && IsNight(y) ==> exists x :: x in shown && x.(notes := y.notes) == y
  {
    var kept := KeepNights(data);
    var attached := AttachNotes(kept, ns);
    forall x | x in shown
      ensures exists y :: y in data && IsNight(y) && x == y.(notes := x.notes)
    {
      assert x in multiset(attached);
      var i :| 0 <= i < |attached| && attached[i] == x;
      var y := kept[i];
      KeepNightsCounts(data, y);
      assert y in multiset(kept);
      assert y in data && IsNight(y) && x == y.(notes := x.notes);
    }
    forall y | y in data && IsNight(y)
      ensures exists x :: x in shown && x.(notes := y.notes) == y
    {
      KeepNightsCounts(data, y);
      assert y in multiset(kept);
      var i :| 0 <= i < |kept| && kept[i] == y;
      var x := attached[i];
      assert x in multiset(shown);
      assert x in shown && x.(notes := y.notes) == y;
    }
  }

  // ---------------------------------------------------------------------------
  // The page state

  /** The state `fetchData` drives, with the ranges it asked `fetchSleepData` for. */
  class HomePage {
    var sleepData: seq<SleepRecord>
    var isLoading: bool
    var error: Option<string>
    var isMockData: bool
    var requests: seq<(string, string)>

    /** The page as first rendered: loading, no records, no error. */
    constructor()
      ensures sleepData == [] && isLoading && error == None && !isMockData && requests == []
    {
      sleepData := [];
      isLoading := true;
      error := None;
      isMockData := false;
      requests := [];
    }

    /**
      `fetchData(useMockData)` for the selected range. `fetch` stands for `fetchSleepData`,
      `acceptMock` for the answer to the mock-data prompt, `notes` for `getSleepNotes`,
      `mock` for `generateMockData` (`OuraApi.GenerateMockData` with the page's draws) and
      `format` for the page's `formatDate`, as in `ApiDates`.
    */
    method FetchData(useMockData: bool, startDate: Option<int>, endDate: Option<int>, format: int -> string,
                     fetch: (string, string) -> Result<seq<SleepRecord>, string>, acceptMock: bool,
                     notes: (string, string) -> Result<seq<SleepNote>, string>, mock: (string, string) -> seq<SleepRecord>)
      modifies this
      ensures !isLoading
      ensures startDate.None? || endDate.None? ==>
        sleepData == old(sleepData) && error == Some(INVALID_RANGE) && isMockData == useMockData
        && requests == old(requests)
      ensures startDate.Some? && endDate.Some? ==>
        var dates := ApiDates(format, startDate.value, endDate.value);
        Loaded(old(sleepData), old(requests), dates.0, dates.1, useMockData, fetch, acceptMock, notes, mock)
    {
      isLoading := true;
      error := None;
      isMockData := useMockData;
      if startDate.None? || endDate.None? {
        error := Some(INVALID_RANGE);
        isLoading := false;
        return;
      }
      var dates := ApiDates(format, startDate.value, endDate.value);
      Load(dates.0, dates.1, useMockData, fetch, acceptMock, notes, mock);
    }

    /**
      The records received for the dates `s` to `e` go on screen: none gives the no-data
      error, otherwise the nights are joined with the notes of the range and sorted.
    */
    method Show(data: seq<SleepRecord>, s: string, e: string,
                notes: (string, string) -> Result<seq<SleepNote>, string>)
      modifies this
      ensures sleepData == Shown(data, notes(s, e))
      ensures error == if data == [] then Some(NO_DATA) else old(error)
      ensures isLoading == old(isLoading) && isMockData == old(isMockData) && requests == old(requests)
    {
      if |data| == 0 {
        error := Some(NO_DATA);
        sleepData := [];
      } else {
        var filteredData := KeepNights(data);
        var fetchedNotes := notes(s, e);
        match fetchedNotes {
          case Ok(ns) =>
            var combinedData := AttachNotes(filteredData, ns);
            sleepData := NewestFirst(combinedData);
          case Err(_) =>
            sleepData := NewestFirst(filteredData);
        }
      }
    }

    /**
      What `fetchData` leaves once the range is known, for the dates `s` to `e` sent to
      the API, from records `before` and requests `asked`: the mock records or the fetched
      ones on screen, or the old records and the API error when the fetch failed and the
      mock data was declined; loading over.
    */
    predicate Loaded(before: seq<SleepRecord>, asked: seq<(string, string)>, s: string, e: string, useMockData: bool,
                     fetch: (string, string) -> Result<seq<SleepRecord>, string>, acceptMock: bool,
                     notes: (string, string) -> Result<seq<SleepNote>, string>, mock: (string, string) -> seq<SleepRecord>)
      reads this
    {
      && !isLoading
      && (useMockData ==>
            var generated := mock(s, e);
            && requests == asked && isMockData
            && sleepData == Shown(generated, notes(s, e))
            && error == (if generated == [] then Some(NO_DATA) else None))
      && (!useMockData ==> requests == asked + [(s, e)])
      && (!useMockData && fetch(s, e).Ok? ==>
            && !isMockData && sleepData == Shown(fetch(s, e).value, notes(s, e))
            && error == (if fetch(s, e).value == [] then Some(NO_DATA) else None))
      && (!useMockData && fetch(s, e).Err? && !acceptMock ==>
            && !isMockData && sleepData == before
            && error == Some(API_FAILED + fetch(s, e).error))
      && (!useMockData && fetch(s, e).Err? && acceptMock ==>
            var generated := mock(s, e);
            && isMockData && sleepData == Shown(generated, notes(s, e))
            && error == (if generated == [] then Some(NO_DATA) else Some(API_FAILED + fetch(s, e).error)))
    }

    /** `fetchData` once the range is known: `s` and `e` are the dates sent to the API. */
    method Load(s: string, e: string, useMockData: bool,
                fetch: (string, string) -> Result<seq<SleepRecord>, string>, acceptMock: bool,
                notes: (string, string) -> Result<seq<SleepNote>, string>, mock: (string, string) -> seq<SleepRecord>)
      modifies this
      requires isLoading && error == None && isMockData == useMockData
      ensures Loaded(old(sleepData), old(requests), s, e, useMockData, fetch, acceptMock, notes, mock)
    {
      var data: seq<SleepRecord>;
      if useMockData {
        data := mock(s, e);
        isMockData := true;
      } else {
        requests := requests + [(s, e)];
        var fetched := fetch(s, e);
        match fetched {
          case Ok(d) =>
            data := d;
            isMockData := false;
          case Err(message) =>
            error := Some(API_FAILED + message);
            if acceptMock {
              data := mock(s, e);
              isMockData := true;
            } else {
              isLoading := false;
              return;
            }
        }
      }
      Show(data, s, e, notes);
      isLoading := false;
    }
  }
}
