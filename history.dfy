/**
 * The history page (app/history/page.tsx): how long ago a session was,
 * shown in whole minutes, hours or days, or as a calendar date after a week.
 */
module History {
  import opened JsBuiltins

  const MinuteMs: int := 60000
  const HourMs: int := 3600000
  const DayMs: int := 86400000

  /** Which of formatTimestamp's branches a time difference falls in, with the count it shows. */
  datatype Elapsed =
    | JustNow
    | MinutesAgo(minutes: int)
    | HoursAgo(hours: int)
    | DaysAgo(days: int)
      /** A week or more: the month/day of the timestamp in local time. */
    | CalendarDate

  /**
   * The branch chosen for now - timestamp: under a minute (future timestamps
   * included) is "just now"; then whole minutes up to 59, whole hours up to
   * 23, whole days up to 6; a week or more shows the date.
   */
  function Classify(diff: int): (e: Elapsed)
    ensures e.JustNow? <==> diff < MinuteMs
    ensures e.MinutesAgo? <==> MinuteMs <= diff < HourMs
    ensures e.HoursAgo? <==> HourMs <= diff < DayMs
    ensures e.DaysAgo? <==> DayMs <= diff < 7 * DayMs
    ensures e.CalendarDate? <==> 7 * DayMs <= diff
    ensures e.MinutesAgo? ==> 1 <= e.minutes <= 59 && e.minutes * MinuteMs <= diff < (e.minutes + 1) * MinuteMs
    ensures e.HoursAgo? ==> 1 <= e.hours <= 23 && e.hours * HourMs <= diff < (e.hours + 1) * HourMs
    ensures e.DaysAgo? ==> 1 <= e.days <= 6 && e.days * DayMs <= diff < (e.days + 1) * DayMs
  {
    var minutes := diff / MinuteMs;
    var hours := diff / HourMs;
    var days := diff / DayMs;
    if minutes < 1 then JustNow
    else if minutes < 60 then MinutesAgo(minutes)
    else if hours < 24 then HoursAgo(hours)
    else if days < 7 then DaysAgo(days)
    else CalendarDate
  }

  /** The text of each branch; the calendar date is computed by the caller from the local clock. */
  function Render(e: Elapsed, monthDay: string): string {
    match e
    case JustNow => "たった今"
    case MinutesAgo(m) => DecimalString(m) + "分前"
    case HoursAgo(h) => DecimalString(h) + "時間前"
    case DaysAgo(d) => DecimalString(d) + "日前"
    case CalendarDate => monthDay
  }

  /** formatTimestamp, with the current time and the timestamp's month/day passed in. */
  function FormatTimestamp(timestamp: int, now: int, monthDay: string): string {
    Render(Classify(now - timestamp), monthDay)
  }

  /** How coarse a branch is: later branches are for older timestamps. */
  function Rank(e: Elapsed): nat {
    match e
    case JustNow => 0
    case MinutesAgo(_) => 1
    case HoursAgo(_) => 2
    case DaysAgo(_) => 3
    case CalendarDate => 4
  }

  /** The count shown, for the branches that show one. */
  function Count(e: Elapsed): int {
    match e
    case MinutesAgo(m) => m
    case HoursAgo(h) => h
    case DaysAgo(d) => d
    case _ => 0
  }

  /**
   * An older session never looks more recent: a larger difference gives the
   * same or a coarser branch, and within one branch a count at least as large.
   */
  lemma ClassifyMonotone(diff1: int, diff2: int)
    requires diff1 <= diff2
    ensures Rank(Classify(diff1)) <= Rank(Classify(diff2))
    ensures Rank(Classify(diff1)) == Rank(Classify(diff2)) ==> Count(Classify(diff1)) <= Count(Classify(diff2))
  {
  }

  /** The branch texts the page's tests rely on: 5 minutes, 2 hours, 3 days, and a timestamp a little in the future. */
  lemma FormatTimestampExamples(now: int, monthDay: string)
    ensures FormatTimestamp(now - 5 * MinuteMs, now, monthDay) == "5分前"
    ensures FormatTimestamp(now - 2 * HourMs, now, monthDay) == "2時間前"
    ensures FormatTimestamp(now - 3 * DayMs, now, monthDay) == "3日前"
    ensures FormatTimestamp(now + 1000, now, monthDay) == "たった今"
    ensures FormatTimestamp(now - 7 * DayMs, now, monthDay) == monthDay
  {
    assert Classify(5 * MinuteMs) == MinutesAgo(5);
    assert Classify(2 * HourMs) == HoursAgo(2);
    assert Classify(3 * DayMs) == DaysAgo(3);
  }
}
