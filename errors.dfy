/**
 * The error kinds of the tracker. The Go code wraps them with fmt.Errorf to add text;
 * only the kind is modelled. The trainings and daysteps packages each declare their own
 * ErrInvalidFormat, ErrInvalidCount and ErrInvalidDuration: distinct error values, which
 * share one kind each here (their messages differ only for the format error).
 */
module Errors {

  datatype Error =
    | InvalidFormat     // wrong number of comma-separated fields
    | InvalidCount      // step field not an integer, or not positive
    | InvalidDuration   // duration field not a duration, or not positive
    | InvalidParams     // spentenergy: steps, weight, height or duration not positive
    | InvalidTraining   // trainings: unknown training type
}
