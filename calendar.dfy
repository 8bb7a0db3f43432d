/**
 * The date and time validators of the command protocol.  Month lengths
 * follow the common year except February, which always admits day 29
 * (there is no leap-year rule); the year itself is never checked.
 */
module Calendar {
  import opened ClockTime

  /** The longest day of each month, January first, independently of the validator. */
  const MonthLengths: seq<int> := [31, 29, 31, 30, 31, 30, 31, 31, 30, 31, 30, 31]

  /** `isValidDate`: a month and day-of-month the sun table has an entry for. */
  predicate IsValidDate(month: int, day: int)
    ensures IsValidDate(month, day) <==> 1 <= month <= 12 && 1 <= day <= MonthLengths[month - 1]
  {
    !(month < 1 || month > 12
      || day < 1 || day > 31
      || (day > 30 && (month == 4 || month == 6 || month == 9 || month == 11))
      || (day > 29 && month == 2))
  }

  /** `isValidTime`: hour 0..23, minute 0..59, second 0..59. */
  predicate IsValidTime(hour: int, minute: int, second: int) {
    hour >= 0 && hour <= 23
    && minute >= 0 && minute <= 59
    && second >= 0 && second <= 59
  }

  /**
   * A validated time of day is a valid HHmm value whose minute offset is the
   * expected one, so it can be compared with the lights window.
   */
  lemma ValidTimeIsClockTime(hour: int, minute: int, second: int)
    requires IsValidTime(hour, minute, second)
    ensures IsClockTime(hour * 100 + minute) && Time2Offset(hour * 100 + minute) == hour * 60 + minute
  {
    HHmmRoundTrip(hour, minute);
  }
}
