/**
 * Membership seasons. A season is named after the year in which it ends: season
 * s runs from 1 September of year s-1 to 31 August of year s. The clock is a
 * parameter (`today`) rather than a read of the settings' clock.
 */
module Seasons {

  import opened Calendar

  /** `first_season()`: the first season the application knows about. */
  const FirstSeason := 2012

  /** `current_season()`: from September on, the season ending next year. */
  function CurrentSeason(today: Date): (s: int)
    ensures s == today.year || s == today.year + 1
    ensures s == today.year + 1 <==> today.month >= 9
  {
    if today.month >= 9 then today.year + 1 else today.year
  }

  /** First and last day of season s. */
  function SeasonStart(s: int): Date {
    Date(s - 1, 9, 1)
  }

  function SeasonEnd(s: int): Date {
    Date(s, 8, 31)
  }

  /**
   * The current season of a day is the one whose window holds it: both directions,
   * so the seasons partition the calendar.
   */
  lemma CurrentSeasonWindow(today: Date, s: int)
    requires Valid(today)
    ensures CurrentSeason(today) == s <==> NotAfter(SeasonStart(s), today) && NotAfter(today, SeasonEnd(s))
  {
  }

  /** The season never goes back as the date advances. */
  lemma CurrentSeasonMonotone(a: Date, b: Date)
    requires NotAfter(a, b)
    ensures CurrentSeason(a) <= CurrentSeason(b)
  {
  }

  /** The test clock, 12 March 2015, is in season 2015. */
  lemma TestClockSeason()
    ensures CurrentSeason(Date(2015, 3, 12)) == 2015
  {
  }
}
