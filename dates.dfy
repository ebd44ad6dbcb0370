/**
 * Calendar days and instants. A calendar date "YYYY-MM-DD" is a day number (days since
 * 1970-01-01); an instant is milliseconds since 1970-01-01T00:00Z, as `Date.getTime()` gives it.
 */
module Dates {

  type Day = int

  const MsPerDay: int := 86400000

  /** The instant `new Date("YYYY-MM-DD")` denotes: midnight UTC of that day. */
  function DayStart(d: Day): int {
    d * MsPerDay
  }

  /** The UTC calendar day an instant falls on (what `toISOString().split("T")[0]` shows). */
  function UtcDay(instant: int): Day {
    instant / MsPerDay
  }

  /**
   * The local calendar day an instant falls on (what `toDateString()` shows), in a time zone
   * whose offset from UTC is `offsetMs` (positive east of Greenwich).
   */
  function LocalDay(instant: int, offsetMs: int): Day {
    (instant + offsetMs) / MsPerDay
  }

  /** Midnight UTC of day `d` is strictly before `now` exactly when `d` is an earlier UTC day,
      or is today's UTC day and `now` is past midnight. */
  lemma DayStartBefore(d: Day, now: int)
    ensures DayStart(d) < now <==> d < UtcDay(now) || (d == UtcDay(now) && now % MsPerDay > 0)
  {
  }
}
