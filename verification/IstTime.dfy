/** Calendar days of India Standard Time, a fixed offset of 5:30 from UTC.
    Times are whole milliseconds since the Unix epoch. */
module IstTime {

  const SECOND := 1000
  const HOUR := 3600 * SECOND
  const DAY := 86400 * SECOND
  const IST_OFFSET := 19800 * SECOND

  /** Stands for the calendar date text: the date and the day number determine each other. */
  function DayIndex(now: int): int {
    (now + IST_OFFSET) / DAY
  }

  function DayStart(now: int): (start: int)
    ensures start <= now < start + DAY
    ensures DayIndex(start) == DayIndex(now)
  {
    DayIndex(now) * DAY - IST_OFFSET
  }

  /** The day start splits time exactly where the calendar date changes. */
  lemma DayStartSplitsDates(t: int, now: int)
    ensures t < DayStart(now) <==> DayIndex(t) < DayIndex(now)
    ensures t <= now ==> DayStart(t) <= DayStart(now)
  {
  }

  /** The calendar date changes at 18:30 UTC, which is midnight in India, and at no other time. */
  lemma DateChangesAtIstMidnight(t: int)
    ensures DayIndex(t) == DayIndex(t - 1) + (if t % (24 * 3600 * 1000) == (18 * 3600 + 30 * 60) * 1000 then 1 else 0)
  {
  }
}
