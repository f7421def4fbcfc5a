/** Calendar arithmetic on whole numbers: a date is a day number and a
    moment is a count of whole minutes since the start of day 0. */
module Calendar {

  const MinutesInDay: int := 60 * 24

  /** First minute of day `d`. */
  function StartOfDay(d: int): int {
    d * MinutesInDay
  }

  /** Last minute of day `d` (the start of the next day, minus one minute). */
  function EndOfDay(d: int): int {
    d * MinutesInDay + MinutesInDay - 1
  }

  /** The calendar day a moment falls on. */
  function DayOf(t: int): (d: int)
    ensures StartOfDay(d) <= t <= EndOfDay(d)
  {
    t / MinutesInDay
  }

  /** The day of a moment is the only day whose bounds contain it. */
  lemma DayOfUnique(t: int, d: int)
    requires StartOfDay(d) <= t <= EndOfDay(d)
    ensures DayOf(t) == d
  {
  }
}
