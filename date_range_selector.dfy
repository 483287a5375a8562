/**
  The date-window controls: move the selected window back or forward by its own length
  (never past the end of today), the rule that disables "next", and the three preset
  windows ending today. Instants are milliseconds since the epoch, in UTC.
*/
module DateRangeSelector {
  import opened Wrappers
  import Calendar

  const DAY := Calendar.DAY_MS

  /** A selected window: its start and end instants. */
  datatype Window = Window(start: int, end: int)

  /** `todayEnd`: today at 23:59:59.999. */
  function TodayEnd(nowMs: int): (t: int)
    ensures Calendar.StartOfDay(t) == Calendar.StartOfDay(nowMs)
    ensures t + 1 == Calendar.StartOfDay(nowMs) + DAY
  {
    var t := Calendar.StartOfDay(nowMs) + DAY - 1;
    assert t / DAY == nowMs / DAY;
    t
  }

  /** `daysDiff`: the window's length in whole days, `Math.round((end - start) / day)`. */
  function DaysDiff(w: Window): int
  {
    Calendar.DaysBetween(w.start, w.end)
  }

  /** `handleNavigatePrevious`: the window of the same length ending the day before this one starts. */
  function Previous(w: Window): (p: Window)
    ensures p.end == w.start - DAY
    ensures p.start == w.start - (DaysDiff(w) + 1) * DAY
  {
    var daysDiff := DaysDiff(w);
    Window(w.start - (daysDiff + 1) * DAY, w.start - DAY)
  }

  /**
    `handleNavigateNext`: the window of the same length starting the day after this one
    ends, or nothing (no callback) when it would end after the end of today.
  */
  function Next(w: Window, todayEnd: int): (n: Option<Window>)
    ensures n.Some? <==> w.end + (DaysDiff(w) + 1) * DAY <= todayEnd
    ensures n.Some? ==> n.value.start == w.end + DAY && n.value.end == w.end + (DaysDiff(w) + 1) * DAY
  {
    var daysDiff := DaysDiff(w);
    var newStart := w.end + DAY;
    var newEnd := w.end + (daysDiff + 1) * DAY;
    if newEnd > todayEnd then None else Some(Window(newStart, newEnd))
  }

  /** The "next" button is disabled once the window ends at or after the end of today. */
  predicate NextDisabled(w: Window, todayEnd: int)
  {
    w.end >= todayEnd
  }

  /** Moving back keeps the window's length in whole days. */
  lemma PreviousKeepsSpan(w: Window)
    ensures Previous(w).end - Previous(w).start == DaysDiff(w) * DAY
    ensures DaysDiff(Previous(w)) == DaysDiff(w)
  {
    var p := Previous(w);
    Calendar.DaysBetweenWhole(p.start, DaysDiff(w));
    assert p.end == p.start + DaysDiff(w) * DAY;
  }

  /** Moving forward keeps the window's length in whole days. */
  lemma NextKeepsSpan(w: Window, todayEnd: int)
    requires Next(w, todayEnd).Some?
    ensures Next(w, todayEnd).value.end - Next(w, todayEnd).value.start == DaysDiff(w) * DAY
    ensures DaysDiff(Next(w, todayEnd).value) == DaysDiff(w)
  {
    var n := Next(w, todayEnd).value;
    Calendar.DaysBetweenWhole(n.start, DaysDiff(w));
    assert n.end == n.start + DaysDiff(w) * DAY;
  }

  /**
    When "next" is disabled, pressing it does nothing, provided the window does not end
    before it starts; an inverted window can still move forward from a disabled button.
  */
  lemma DisabledNextDoesNothing(w: Window, todayEnd: int)
    requires NextDisabled(w, todayEnd) && DaysDiff(w) >= 0
    ensures Next(w, todayEnd).None?
  {
  }

  /** An inverted window two days long, ending at the end of today, still moves forward. */
  lemma InvertedWindowMovesPastDisabled(todayEnd: int)
    ensures var w := Window(todayEnd + 2 * DAY, todayEnd);
      NextDisabled(w, todayEnd) && Next(w, todayEnd).Some?
  {
    var w := Window(todayEnd + 2 * DAY, todayEnd);
    assert DaysDiff(w) == -2 by {
      Calendar.DaysBetweenWhole(todayEnd + 2 * DAY, -2);
    }
  }

  /** A window of whole days moved back and then forward is the window it was. */
  lemma PreviousThenNext(w: Window, todayEnd: int)
    requires w.end == w.start + DaysDiff(w) * DAY && w.end <= todayEnd
    ensures Next(Previous(w), todayEnd) == Some(w)
  {
    PreviousKeepsSpan(w);
  }

  /** A window of whole days moved forward and then back is the window it was. */
  lemma NextThenPrevious(w: Window, todayEnd: int)
    requires w.end == w.start + DaysDiff(w) * DAY && Next(w, todayEnd).Some?
    ensures Previous(Next(w, todayEnd).value) == w
  {
    NextKeepsSpan(w, todayEnd);
  }

  // ---------------------------------------------------------------------------
  // Presets

  /** "Last Week": from a week before now to the end of today. */
  function LastWeek(nowMs: int): (w: Window)
    ensures w.end == TodayEnd(nowMs) && w.start == nowMs - 7 * DAY
  {
    Window(nowMs - 7 * DAY, TodayEnd(nowMs))
  }

  /** "Last Month": from a month before now to the end of today. */
  function LastMonth(nowMs: int): (w: Window)
    ensures w.end == TodayEnd(nowMs)
  {
    Window(Calendar.SubMonths(nowMs, 1), TodayEnd(nowMs))
  }

  /** "Last 3 Months": from three months before now to the end of today. */
  function LastThreeMonths(nowMs: int): (w: Window)
    ensures w.end == TodayEnd(nowMs)
  {
    Window(Calendar.SubMonths(nowMs, 3), TodayEnd(nowMs))
  }

  /** Every preset ends at the last millisecond of today, so "next" is disabled for it. */
  lemma PresetsEndToday(nowMs: int)
    ensures forall w :: w in [LastWeek(nowMs), LastMonth(nowMs), LastThreeMonths(nowMs)] ==>
      w.end == TodayEnd(nowMs) && NextDisabled(w, TodayEnd(nowMs))
  {
  }

  /** Every preset starts at the time of day of now. */
  lemma PresetsStartAtNowTime(nowMs: int)
    ensures LastWeek(nowMs).start % DAY == nowMs % DAY
    ensures LastMonth(nowMs).start % DAY == nowMs % DAY
    ensures LastThreeMonths(nowMs).start % DAY == nowMs % DAY
  {
    Calendar.TimeOfDayKept(nowMs / DAY - 7, nowMs % DAY);
    assert nowMs - 7 * DAY == (nowMs / DAY - 7) * DAY + nowMs % DAY;
  }

  /**
    "Last Month" and "Last 3 Months" start on the date one and three months back, on the
    same day of the month unless that month is shorter.
  */
  lemma MonthPresetStarts(nowMs: int)
    ensures var c, s := Calendar.CivilFromDays(nowMs / DAY), Calendar.CivilFromDays(LastMonth(nowMs).start / DAY);
      && s.year * 12 + s.month == c.year * 12 + c.month - 1
      && s.day == (if c.day < Calendar.DaysInMonth(s.year, s.month) then c.day else Calendar.DaysInMonth(s.year, s.month))
    ensures var c, s := Calendar.CivilFromDays(nowMs / DAY), Calendar.CivilFromDays(LastThreeMonths(nowMs).start / DAY);
      && s.year * 12 + s.month == c.year * 12 + c.month - 3
      && s.day == (if c.day < Calendar.DaysInMonth(s.year, s.month) then c.day else Calendar.DaysInMonth(s.year, s.month))
  {
    Calendar.SubMonthsDate(nowMs, 1);
    Calendar.SubMonthsDate(nowMs, 3);
  }

  /** "Last Week" is 7 or 8 days long once rounded: 8 when now is before noon, 7 from noon on. */
  lemma LastWeekSpan(nowMs: int)
    ensures var t := nowMs % DAY;
      DaysDiff(LastWeek(nowMs)) == if t < DAY / 2 then 8 else 7
  {
    var w := LastWeek(nowMs);
    var t := nowMs % DAY;
    assert nowMs == Calendar.StartOfDay(nowMs) + t;
    assert w.end - w.start == 8 * DAY - 1 - t;
  }
}
