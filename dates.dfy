/**
 * `formatLastModified` (src/lib/date-utils.ts): how long ago a project was
 * modified, as text.  The current time is a parameter, and so is the
 * host's date parser, which also supplies the UTC calendar date.
 *
 * `Math.floor(x / d)` for a positive divisor `d` is Dafny's `/` on
 * integers, which rounds towards negative infinity for a positive
 * divisor; times are whole milliseconds.
 */
module Dates {
  import opened Wrappers
  import opened Chars

  /** What `new Date(text)` gives: an invalid date, whose `getTime()` is
   *  NaN, or a time in milliseconds together with its UTC calendar date
   *  `yyyy-mm-dd` (`toISOString().split('T')[0]`). */
  datatype Instant = Invalid | At(time: int, calendarDate: string)

  const MsPerMinute: nat := 60000
  const MsPerHour: nat := 3600000
  const MsPerDay: nat := 86400000
  const MsPerWeek: nat := 7 * MsPerDay

  /** `n unit ago`, with the unit in the plural unless `n` is 1. */
  function Ago(n: nat, unit: string): string
  {
    if n == 1 then "1 " + unit + " ago" else NatToString(n) + " " + unit + "s ago"
  }

  /** `formatLastModified(dateString)` at time `now`. */
  function FormatLastModified(dateString: Option<string>, parse: string -> Instant, now: int): string
  {
    if dateString.None? || dateString.value == "" then "2 days ago"
    else
      match parse(dateString.value)
      case Invalid => "Just now"
      case At(time, calendarDate) =>
        var diffInMs := now - time;
        var diffInMinutes := diffInMs / MsPerMinute;
        var diffInHours := diffInMs / MsPerHour;
        var diffInDays := diffInMs / MsPerDay;
        var diffInWeeks := diffInDays / 7;
        if diffInWeeks >= 1 then calendarDate
        else if diffInDays >= 1 then Ago(diffInDays, "day")
        else if diffInHours >= 1 then Ago(diffInHours, "hour")
        else if diffInMinutes >= 1 then Ago(diffInMinutes, "minute")
        else "Just now"
  }

  /** Every count is written as its decimal number, then the unit, which is
   *  plural unless the count is 1. */
  lemma AgoText(n: nat, unit: string)
    ensures Ago(n, unit) == NatToString(n) + " " + unit + (if n == 1 then " ago" else "s ago")
  {
    if n == 1 {
      assert NatToString(1) == "1";
    }
  }

  /** Without a date the fallback text is used. */
  lemma MissingDate(dateString: Option<string>, parse: string -> Instant, now: int)
    requires dateString.None? || dateString.value == ""
    ensures FormatLastModified(dateString, parse, now) == "2 days ago"
  {
  }

  /** An invalid date reads as "Just now": every comparison with NaN fails. */
  lemma InvalidDate(dateString: string, parse: string -> Instant, now: int)
    requires dateString != "" && parse(dateString) == Invalid
    ensures FormatLastModified(Some(dateString), parse, now) == "Just now"
  {
  }

  /** A week or more ago shows the calendar date, and nothing more recent
   *  does. */
  lemma WeekOrMore(dateString: string, parse: string -> Instant, now: int)
    requires dateString != "" && parse(dateString).At?
    ensures var at := parse(dateString);
      now - at.time >= MsPerWeek <==> (now - at.time) / MsPerDay / 7 >= 1
    ensures var at := parse(dateString);
      now - at.time >= MsPerWeek ==> FormatLastModified(Some(dateString), parse, now) == at.calendarDate
  {
  }

  /** One to six whole days ago is counted in days. */
  lemma DaysAgo(dateString: string, parse: string -> Instant, now: int)
    requires dateString != "" && parse(dateString).At?
    requires MsPerDay <= now - parse(dateString).time < MsPerWeek
    ensures var days := (now - parse(dateString).time) / MsPerDay;
      && 1 <= days <= 6
      && FormatLastModified(Some(dateString), parse, now) == Ago(days, "day")
  {
  }

  /** Under a day, one to 23 whole hours ago is counted in hours. */
  lemma HoursAgo(dateString: string, parse: string -> Instant, now: int)
    requires dateString != "" && parse(dateString).At?
    requires MsPerHour <= now - parse(dateString).time < MsPerDay
    ensures var hours := (now - parse(dateString).time) / MsPerHour;
      && 1 <= hours <= 23
      && FormatLastModified(Some(dateString), parse, now) == Ago(hours, "hour")
  {
  }

  /** Under an hour, one to 59 whole minutes ago is counted in minutes. */
  lemma MinutesAgo(dateString: string, parse: string -> Instant, now: int)
    requires dateString != "" && parse(dateString).At?
    requires MsPerMinute <= now - parse(dateString).time < MsPerHour
    ensures var minutes := (now - parse(dateString).time) / MsPerMinute;
      && 1 <= minutes <= 59
      && FormatLastModified(Some(dateString), parse, now) == Ago(minutes, "minute")
  {
  }

  /** Under a minute, and any time in the future, is "Just now". */
  lemma JustNow(dateString: string, parse: string -> Instant, now: int)
    requires dateString != "" && parse(dateString).At?
    requires now - parse(dateString).time < MsPerMinute
    ensures FormatLastModified(Some(dateString), parse, now) == "Just now"
  {
  }
}
