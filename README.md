# Fitness tracker: line parsers, reports and the batch driver

This Dafny project models the core of a small Go fitness tracker. The tracker reads text lines
that describe either a training (`"<steps>,<training type>,<duration>"`) or a day's walking
(`"<steps>,<duration>"`). Each line is parsed into a record, the distance, speed and calories
are computed from the user's weight and height, and one log entry is written per line.

The modules follow the Go packages:

- `Trainings` (trainings.go), `DaySteps` (daysteps.go), `SpentEnergy` (spentenergy.go),
  `ActionInfo` (actioninfo.go) and `PersonalData` (the `Personal` record only).
- `Strings`, `Strconv` and `Durations` model the three standard-library calls the parsers make:
  `strings.Split` with a one-character separator, `strconv.Atoi` and its inverse `strconv.Itoa`,
  and a subset of `time.ParseDuration`.
- `Checks` holds the two field checks both parsers make. `Errors` holds the error kinds and
  `Wrappers` holds `Option` and `Result`.

Records are classes. `Training.Parse` and `DaySteps.Parse` are methods whose `modifies` clauses
name only the parsed fields. Their contracts tie the error and the new state to the pure
function `ParseLine`. `ParseLine` states the error order as four if-and-only-if clauses over
the comma split.

`ActionInfo` is a function on a value snapshot of the record. It returns a report tuple
(the values Go formats with `%s`, `%d` and `%.2f`) or an error kind. The `DataParser` interface is a tagged
union over the two classes. `Info` is a loop that appends to a log sequence. It is proved
equal to the specification `InfoLog`, and the batch properties are lemmas about `InfoLog`.

Durations are integer nanoseconds, as in Go's int64 `time.Duration`; the running sum of
`time.ParseDuration` is a uint64 and wraps as one. The calorie formulas use
exact `real` arithmetic.

## Model

| member | source | states |
|---|---|---|
| Strings.Split | internal/trainings/trainings.go:43 | strings.Split gives at least one part, so also one empty part for the empty line |
| Strings.SplitLength | internal/trainings/trainings.go:43-44 | strings.Split on "," gives one more part than there are commas |
| Strings.SplitPartsFree | internal/trainings/trainings.go:43 | no part of the split contains the separator |
| Strings.JoinSplit | internal/trainings/trainings.go:43 | joining the parts with the separator gives back the line |
| Strings.SplitJoin | internal/daysteps/daysteps.go:41 | splitting a join of separator-free pieces gives back the pieces |
| Strings.SplitFree | internal/daysteps/daysteps.go:41 | a string without the separator is a single part |
| Strings.SplitPrefix | internal/daysteps/daysteps.go:41 | a separator-free prefix and a separator become the first part |
| Strings.JoinThree | internal/trainings/trainings.go:43 | three pieces joined have one separator between each pair |
| Strconv.NatToDecimal | internal/trainings/trainings.go:48 | the decimal spelling of n is a non-empty digit string whose value is n |
| Strconv.DigitsPrefix | internal/trainings/trainings.go:48 | a prefix of a digit string is worth no more than the whole |
| Strconv.Atoi | internal/trainings/trainings.go:48-51 | a success is a sign and at least one digit, in the int64 range, and negative only after '-' |
| Strconv.AtoiSignedDigits | internal/daysteps/daysteps.go:47-50 | an optional sign and any non-empty digit run, leading zeros included, read as their signed value when it fits in int64 and fail when it does not |
| Strconv.Itoa | internal/daysteps/daysteps.go:47 | the spelling is non-empty, starts with '-' exactly for a negative value, and is digits otherwise |
| Strconv.AtoiItoa | internal/daysteps/daysteps.go:47-50 | Atoi reads back every int64 that Itoa writes |
| Durations.UnitOf | internal/trainings/trainings.go:56 | each unit of the table is between 1 ns and 1 h |
| Durations.UnitCap | internal/trainings/trainings.go:56-59 | each unit's overflow cap is 1 << 63 divided by its length |
| Durations.ScaleIsProduct | internal/trainings/trainings.go:56 | v units added up one at a time are v times the unit |
| Durations.WithinCap | internal/trainings/trainings.go:56-59 | the overflow guard admits a count exactly when count times unit fits in 1 << 63 |
| Durations.LeadingInt | internal/daysteps/daysteps.go:55-58 | the number read ends at a non-digit or the end, and its value is within 1 << 63 |
| Durations.UnitEnd | internal/daysteps/daysteps.go:55 | the unit ends at or after where it starts, within the string |
| Durations.FractionEnd | internal/daysteps/daysteps.go:55 | a fraction's digits end at the first non-digit or the end |
| Durations.NextSegment | internal/daysteps/daysteps.go:55-58 | a segment read takes at least one character and is worth at most 1 << 63 |
| Durations.AddUint64 | internal/daysteps/daysteps.go:55-58 | the running sum is added as a uint64: exact below 2^64, and 0 when two values of 1 << 63 wrap |
| Durations.ParseSegments | internal/daysteps/daysteps.go:55-58 | a sum accepted never passes 1 << 63 |
| Durations.ParseDuration | internal/trainings/trainings.go:56-59 | a success is within the int64 range, and the empty string is an error |
| Durations.DigitStep | internal/trainings/trainings.go:56 | one more digit of a run that fits multiplies the value by ten and adds the digit, within the guard |
| Durations.LeadingIntRun | internal/trainings/trainings.go:56 | a digit run whose value fits is read whole, to its end |
| Durations.UnitEndRun | internal/trainings/trainings.go:56 | a unit followed by a digit, a '.' or the end is read to exactly there |
| Durations.DigitsAt | internal/trainings/trainings.go:56 | a digit run at an index, followed by a non-digit or the end, reads as its value |
| Durations.UnitAt | internal/trainings/trainings.go:56 | a unit of the table at an index reads as that unit |
| Durations.SegmentFrom | internal/trainings/trainings.go:56-59 | a number, a known unit and a passing guard make a segment worth count times unit |
| Durations.SegmentAt | internal/trainings/trainings.go:56-59 | the segment "<digits><u>" at an index is read whole, as the digits' value in units |
| Durations.FractionEndRun | internal/trainings/trainings.go:56 | a run of fraction digits is read to exactly its end |
| Durations.ZeroDigitsRun | internal/trainings/trainings.go:56 | a run of '0' characters is a fraction of zeros |
| Durations.FractionSegment | internal/trainings/trainings.go:56-59 | the segment "<digits>.<zeros><u>" is worth the digits' value in units, as without the fraction |
| Durations.ZeroFraction | internal/trainings/trainings.go:56-62 | "<n>.<zeros><u>" parses as "<n><u>", so "1.h" and "1.0h" are one hour |
| Durations.SumWraps | internal/daysteps/daysteps.go:55-58 | a segment of 1 << 63 added to a sum of 1 << 63 wraps the sum to 0, and reading goes on |
| Durations.LimitSegment | internal/daysteps/daysteps.go:55 | "<digits>ns" with the digits worth 1 << 63 is one segment of 1 << 63 |
| Durations.HourSegment | internal/daysteps/daysteps.go:55 | "1h" at the end of a string is one segment of an hour |
| Durations.WrapAround | internal/daysteps/daysteps.go:55-61 | two segments of 1 << 63 ns followed by "1h" parse as one hour, because the uint64 sum wraps |
| Durations.LastSegment | internal/daysteps/daysteps.go:55-58 | a segment that ends the string closes the sum |
| Durations.InnerSegment | internal/daysteps/daysteps.go:55-58 | a segment followed by more text adds its value, and reading goes on after it |
| Durations.ParseUnsigned | internal/daysteps/daysteps.go:55-58 | an unsigned string whose segments sum below 1 << 63 parses to that sum |
| Durations.ParseOneSegment | internal/daysteps/daysteps.go:55-61 | "<n><u>" parses to n times the unit, for every n that fits and every unit of the table |
| Durations.Sign | internal/daysteps/daysteps.go:55-61 | a leading '+' changes nothing, and a leading '-' negates every duration the unsigned text denotes |
| Durations.MostNegative | internal/trainings/trainings.go:56-59 | segments summing to exactly 1 << 63 give the most negative int64 duration with a '-' and an error without one |
| SpentEnergy.Hours | internal/trainings/trainings.go:110 | hours times nanoseconds per hour is the duration, and it is positive for a positive duration |
| SpentEnergy.Minutes | internal/spentenergy/spentenergy.go:40 | minutes are sixty times the hours |
| SpentEnergy.Distance | internal/spentenergy/spentenergy.go:69-74 | the distance is positive for positive steps and height, and zero when either is zero |
| SpentEnergy.DistanceLinear | internal/spentenergy/spentenergy.go:69-74 | distance is additive in steps, and doubling the steps doubles it |
| SpentEnergy.MeanSpeed | internal/spentenergy/spentenergy.go:85-91 | speed is 0 when the duration is not positive, otherwise speed times hours is the distance, and it is positive with positive inputs |
| SpentEnergy.RunningSpentCalories | internal/spentenergy/spentenergy.go:34-43 | fails with InvalidParams exactly when some input is not positive; otherwise weight times distance, and positive |
| SpentEnergy.CaloriesAreWeightTimesDistance | internal/spentenergy/spentenergy.go:39-40 | weight times speed times minutes over 60 is weight times distance |
| SpentEnergy.WalkingSpentCalories | internal/spentenergy/spentenergy.go:52-59 | the same failure as running; otherwise half of weight times distance, and positive |
| SpentEnergy.WalkingIsHalfRunning | internal/spentenergy/spentenergy.go:53-58 | on valid input the walking figure is half the running one |
| Trainings.ParseLine | internal/trainings/trainings.go:42-69 | InvalidFormat iff not 3 parts; InvalidCount iff 3 parts and no positive count; InvalidDuration iff a count but no positive duration; on success the stored values are the parsed fields and the line is their comma join |
| Trainings.FormatErrorIffTwoCommas | internal/trainings/trainings.go:43-46 | the format error occurs exactly when the line does not hold two commas, so also for the empty line |
| Trainings.ParseFormattedLine | internal/trainings/trainings.go:42-69 | a line written from a positive count, a comma-free type and a positive duration text parses back to those values |
| Trainings.Training.constructor | internal/trainings/trainings.go:17-22 | a new record holds zero values and the given personal data |
| Trainings.Training.Parse | internal/trainings/trainings.go:42-69 | returns ParseLine's error; on success writes exactly steps, type and duration; on error changes nothing; never writes personal data |
| Trainings.ActionInfo | internal/trainings/trainings.go:83-114 | an unknown type gives InvalidTraining whatever the body data; a known type succeeds iff the formula's inputs are valid, else InvalidParams; a report holds the type, hours, distance, speed and the walking or running calories |
| Trainings.WalkingExample | internal/trainings/trainings.go:83-114 | 1000 walking steps in one hour at 75.5 kg and 1.80 m give 0.81 km and 75.5 × 0.81 × 0.5 kcal |
| Trainings.UnknownTypeRefused | internal/trainings/trainings.go:90-97 | the type "Плавание" is refused with InvalidTraining for any steps, duration and personal data |
| DaySteps.ParseLine | internal/daysteps/daysteps.go:40-67 | InvalidFormat iff not 2 parts; InvalidCount iff 2 parts and no positive count; InvalidDuration iff a count but no positive duration; on success the stored values are the parsed fields and the line is their comma join |
| DaySteps.FormatErrorIffOneComma | internal/daysteps/daysteps.go:41-45 | the format error occurs exactly when the line does not hold one comma |
| DaySteps.ParseFormattedLine | internal/daysteps/daysteps.go:40-67 | a line written from a positive count and a positive duration text parses back to those values |
| DaySteps.SplitLine | internal/daysteps/daysteps.go:41 | two comma-free fields joined by a comma split back into those fields |
| DaySteps.ExampleSplit | internal/daysteps/daysteps.go:36 | "1000,1h30m" splits into "1000" and "1h30m" |
| DaySteps.ExampleCount | internal/daysteps/daysteps.go:36 | "1000" is the count 1000 |
| DaySteps.HoursSegment | internal/daysteps/daysteps.go:36 | the first segment of "1h30m" is one hour, ending at index 2 |
| DaySteps.MinutesSegment | internal/daysteps/daysteps.go:36 | the second segment of "1h30m" is thirty minutes, ending the string |
| DaySteps.DurationExample | internal/daysteps/daysteps.go:36 | "1h30m" is 5400 seconds |
| DaySteps.ParseExample | internal/daysteps/daysteps.go:36 | "1000,1h30m" parses to 1000 steps and 5400 seconds |
| DaySteps.ZeroStepsRefused | internal/daysteps/daysteps.go:51-53 | "0,1h" is refused with InvalidCount |
| DaySteps.ZeroHours | internal/daysteps/daysteps.go:59 | "0h" is the zero duration |
| DaySteps.ZeroDurationRefused | internal/daysteps/daysteps.go:59-61 | "1000,0h" is refused with InvalidDuration |
| DaySteps.DaySteps.constructor | internal/daysteps/daysteps.go:17-21 | a new record holds zero values and the given personal data |
| DaySteps.DaySteps.Parse | internal/daysteps/daysteps.go:40-67 | returns ParseLine's error; on success writes exactly steps and duration; on error changes nothing; never writes personal data |
| DaySteps.ActionInfo | internal/daysteps/daysteps.go:79-92 | succeeds iff the walking formula's inputs are valid, else InvalidParams; a report holds the steps, the distance and half of weight times distance |
| ActionInfo.ParseError | internal/actioninfo/actioninfo.go:23 | Parse through the interface fails only with a format, count or duration error |
| ActionInfo.ActionInfoOf | internal/actioninfo/actioninfo.go:28 | the report is of the record's own kind, and a failure is InvalidParams, or InvalidTraining for a training |
| ActionInfo.EntryFails | internal/actioninfo/actioninfo.go:23-31 | a line logs an error exactly when Parse or ActionInfo fails on it, and otherwise a report of the record's kind |
| ActionInfo.AfterParse | internal/actioninfo/actioninfo.go:23 | Parse keeps the kind of record and its personal data, and leaves the record as it was when it fails |
| ActionInfo.FinalRecord | internal/actioninfo/actioninfo.go:22-23 | after any number of lines the record keeps its kind and personal data |
| ActionInfo.InfoLog | internal/actioninfo/actioninfo.go:22-33 | the log has exactly one entry per line |
| ActionInfo.EntryIgnoresEarlierLines | internal/actioninfo/actioninfo.go:22-33 | a line's entry does not depend on what earlier lines left in the record |
| ActionInfo.InfoStep | internal/actioninfo/actioninfo.go:22-33 | one more line appends that line's entry to the log and applies Parse to the record |
| ActionInfo.InfoLogPrefix | internal/actioninfo/actioninfo.go:22 | every entry but the last is the entry of the dataset without its last line |
| ActionInfo.InfoLogLast | internal/actioninfo/actioninfo.go:22-33 | the last entry is the entry of the last line on its own |
| ActionInfo.InfoLogEntry | internal/actioninfo/actioninfo.go:22-33 | entry i is the entry of line i on its own, in input order |
| ActionInfo.LogEntryCases | internal/actioninfo/actioninfo.go:23-31 | entry i is Parse's error when Parse fails, otherwise ActionInfo's error or its report |
| ActionInfo.Failures | internal/actioninfo/actioninfo.go:22-31 | no more lines fail than there are lines |
| ActionInfo.BatchCounts | internal/actioninfo/actioninfo.go:22-26 | N lines with k failing lines give k errors and N - k reports |
| ActionInfo.EmptyDataset | internal/actioninfo/actioninfo.go:22 | an empty dataset logs nothing and leaves the record unchanged |
| ActionInfo.DataParser.Parse | internal/actioninfo/actioninfo.go:8-14 | Parse through the interface returns the record's ParseLine error and applies AfterParse to its record |
| ActionInfo.Info | internal/actioninfo/actioninfo.go:21-34 | the log returned is InfoLog of the starting record, and the record ends as FinalRecord |

## Left out

- Floating point: the formulas use exact `real` arithmetic, so float64 rounding in spentenergy.go is not modelled.
- The report text: the `fmt.Sprintf` layout and `%.2f` rounding (trainings.go:103-113, daysteps.go:87-91) are replaced by report tuples of the same values, in the same order.
- Logging: `log.Println` in actioninfo.go is replaced by the log sequence that `Info` returns.
- `Personal.Print` (personaldata.go:19-24) only writes to standard output; `Personal` is a plain record.
- Error text: the `fmt.Errorf` wrapping and the messages are not modelled, only the error kind. Go also returns a zero value next to an error; the model returns only the error.
- Go's interface dispatch and struct embedding: `DataParser` is a tagged union over the two classes, and the embedded `Personal` is a field.
- Durations.ParseDuration: a fraction with a non-zero digit, such as "1.5h" or ".5h", is rejected, although `time.ParseDuration` accepts it. Go computes its value in float64, which is not modelled. Fractions of zeros ("1.h", "1.0h", ".0h") are accepted as Go accepts them. The uint64 wrap of the running sum is modelled.
- Strconv.Atoi: the syntax error and the range error of `strconv.Atoi` are both `None`. Both lead to the same InvalidCount.
- Strings are sequences of characters rather than UTF-8 bytes. This changes nothing for splitting on ',' or for ASCII digits. Invalid UTF-8 is not modelled.
- `Duration.Seconds() <= 0` (trainings.go:60, daysteps.go:59) is modelled as "nanoseconds <= 0". The two agree for every int64 duration.
