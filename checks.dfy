/**
 * The two field checks that the trainings and daysteps parsers both make, in the same
 * order, after splitting the line.
 */
module Checks {
  import Strconv
  import Durations

  /** The step field is a positive integer. */
  predicate PositiveCount(field: string)
  {
    Strconv.Atoi(field).Some? && Strconv.Atoi(field).value > 0
  }

  /** The duration field is a positive duration. */
  predicate PositiveDuration(field: string)
  {
    Durations.ParseDuration(field).Some? && Durations.ParseDuration(field).value > 0
  }
}
