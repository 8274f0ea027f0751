/**
 * Daily step records: a line "<steps>,<duration>" is validated and stored in the record,
 * and a report is computed with the walking formula.
 */
module DaySteps {
  import opened Wrappers
  import opened Errors
  import opened PersonalData
  import Strings
  import Strconv
  import Durations
  import SpentEnergy
  import opened Checks

  /** The values a successful Parse stores. */
  datatype Fields = Fields(steps: int, duration: int)

  /** A snapshot of a day's record, with its embedded personal data. */
  datatype DayStepsData = DayStepsData(steps: int, duration: int, personal: Personal)

  /** The values ActionInfo prints, in order: steps, km, calories. */
  datatype DayStepsReport = DayStepsReport(steps: int, distance: real, calories: real)

  /**
   * What Parse decides about a line: the first failing check (field count, then step
   * count, then duration), or the values to store.
   */
  function ParseLine(line: string): (r: Result<Fields, Error>)
    ensures var parts := Strings.Split(line, ',');
      && (r == Failure(InvalidFormat) <==> |parts| != 2)
      && (r == Failure(InvalidCount) <==> |parts| == 2 && !PositiveCount(parts[0]))
      && (r == Failure(InvalidDuration) <==> |parts| == 2 && PositiveCount(parts[0]) && !PositiveDuration(parts[1]))
      && (r.Success? <==> |parts| == 2 && PositiveCount(parts[0]) && PositiveDuration(parts[1]))
    ensures r.Success? ==> r.value.steps > 0 && r.value.duration > 0
    ensures r.Success? ==> var parts := Strings.Split(line, ',');
      && Strconv.Atoi(parts[0]) == Some(r.value.steps)
      && Durations.ParseDuration(parts[1]) == Some(r.value.duration)
      && line == parts[0] + "," + parts[1]
  {
    var parts := Strings.Split(line, ',');
    if |parts| != 2 then Failure(InvalidFormat)
    else match Strconv.Atoi(parts[0])
      case None => Failure(InvalidCount)
      case Some(steps) =>
        if steps <= 0 then Failure(InvalidCount)
        else match Durations.ParseDuration(parts[1])
          case None => Failure(InvalidDuration)
          case Some(duration) =>
            if duration <= 0 then Failure(InvalidDuration)
            else
              Strings.JoinSplit(line, ',');
              assert parts[1..] == [parts[1]];
              Success(Fields(steps, duration))
  }

  /** Parse fails on the format exactly when the line does not hold one comma. */
  lemma FormatErrorIffOneComma(line: string)
    ensures ParseLine(line) == Failure(InvalidFormat) <==> Strings.Occurrences(line, ',') != 1
  {
    Strings.SplitLength(line, ',');
  }

  /** A line written from valid values parses back to those values. */
  lemma ParseFormattedLine(steps: int, text: string, duration: int)
    requires 0 < steps <= Strconv.MaxInt
    requires ',' !in text
    requires Durations.ParseDuration(text) == Some(duration) && duration > 0
    ensures ParseLine(Strconv.Itoa(steps) + "," + text) == Success(Fields(steps, duration))
  {
    var count := Strconv.Itoa(steps);
    assert ',' !in count by {
      assert Strconv.AllDigits(count);
    }
    var parts := [count, text];
    Strings.SplitJoin(parts, ',');
    assert parts[1..] == [text];
    assert Strings.Join(parts, ',') == count + "," + text;
    Strconv.AtoiItoa(steps);
  }

  /** A line made of two comma-free fields splits into exactly those fields. */
  lemma SplitLine(count: string, text: string)
    requires ',' !in count && ',' !in text
    ensures Strings.Split(count + "," + text, ',') == [count, text]
  {
    Strings.SplitPrefix(count, text, ',');
    Strings.SplitFree(text, ',');
  }

  lemma ExampleSplit()
    ensures Strings.Split("1000,1h30m", ',') == ["1000", "1h30m"]
  {
    SplitLine("1000", "1h30m");
    assert "1000" + "," + "1h30m" == "1000,1h30m";
  }

  lemma ExampleCount()
    ensures Strconv.Atoi("1000") == Some(1000)
  {
    Strconv.AtoiItoa(1000);
    assert Strconv.NatToDecimal(1000) == "1000";
  }

  lemma HoursSegment()
    ensures Durations.NextSegment("1h30m", 0) == Some(Durations.Segment(Durations.Hour, 2))
  {
  }

  lemma MinutesSegment()
    ensures Durations.NextSegment("1h30m", 2) == Some(Durations.Segment(30 * Durations.Minute, 5))
  {
    Durations.ScaleIsProduct(30, Durations.Minute);
  }

  /** "1h30m" is a segment of one hour and a segment of thirty minutes: 5400 seconds. */
  lemma DurationExample()
    ensures Durations.ParseDuration("1h30m") == Some(5400 * Durations.Second)
  {
    HoursSegment();
    MinutesSegment();
    Durations.InnerSegment("1h30m", 0, 0, Durations.Segment(Durations.Hour, 2));
    Durations.LastSegment("1h30m", 2, Durations.Hour, Durations.Segment(30 * Durations.Minute, 5));
  }

  /** The example of the doc comment: "1000,1h30m" is 1000 steps in 5400 seconds. */
  lemma ParseExample()
    ensures ParseLine("1000,1h30m") == Success(Fields(1000, 5400 * Durations.Second))
  {
    ExampleSplit();
    ExampleCount();
    DurationExample();
  }

  /** "0,1h" has a step count that is not positive. */
  lemma ZeroStepsRefused()
    ensures ParseLine("0,1h") == Failure(InvalidCount)
  {
    SplitLine("0", "1h");
    assert "0" + "," + "1h" == "0,1h";
    Strconv.AtoiItoa(0);
    assert Strconv.NatToDecimal(0) == "0";
  }

  /** "0h" is a duration of zero. */
  lemma ZeroHours()
    ensures Durations.ParseDuration("0h") == Some(0)
  {
    Durations.ParseOneSegment(0, "h");
    assert Strconv.NatToDecimal(0) + "h" == "0h";
  }

  /** "1000,0h" has a duration that is not positive. */
  lemma ZeroDurationRefused()
    ensures ParseLine("1000,0h") == Failure(InvalidDuration)
  {
    SplitLine("1000", "0h");
    assert "1000" + "," + "0h" == "1000,0h";
    ExampleCount();
    ZeroHours();
  }

  /** A day's record whose fields Parse writes in place. */
  class DaySteps {
    var steps: int
    var duration: int
    var personal: Personal

    constructor (personal: Personal)
      ensures Data() == DayStepsData(0, 0, personal)
    {
      steps, duration := 0, 0;
      this.personal := personal;
    }

    function Data(): DayStepsData
      reads this
    {
      DayStepsData(steps, duration, personal)
    }

    /**
     * Validates the line and, only when every check passes, stores the step count and
     * the duration. The personal data is never written.
     */
    method Parse(line: string) returns (err: Option<Error>)
      modifies this`steps, this`duration
      ensures err == ParseLine(line).ErrorOf()
      ensures err.None? ==> Data() == old(Data()).(
        steps := ParseLine(line).value.steps,
        duration := ParseLine(line).value.duration)
      ensures err.Some? ==> Data() == old(Data())
      ensures personal == old(personal)
    {
      var parts := Strings.Split(line, ',');
      if |parts| != 2 {
        return Some(InvalidFormat);
      }
      var parsedSteps := Strconv.Atoi(parts[0]);
      if parsedSteps.None? {
        return Some(InvalidCount);
      }
      if parsedSteps.value <= 0 {
        return Some(InvalidCount);
      }
      var parsedDuration := Durations.ParseDuration(parts[1]);
      if parsedDuration.None? {
        return Some(InvalidDuration);
      }
      if parsedDuration.value <= 0 {
        return Some(InvalidDuration);
      }
      steps := parsedSteps.value;
      duration := parsedDuration.value;
      return None;
    }
  }

  /**
   * The report of a day: the steps, the distance and the walking calories, or the
   * walking formula's error (for instance a weight that is not positive).
   */
  function ActionInfo(d: DayStepsData): (r: Result<DayStepsReport, Error>)
    ensures r.Success? <==> SpentEnergy.ValidParams(d.steps, d.personal.weight, d.personal.height, d.duration)
    ensures r.Failure? ==> r.error == InvalidParams
    ensures r.Success? ==>
      var distance := SpentEnergy.Distance(d.steps, d.personal.height);
      && r.value.steps == d.steps
      && r.value.distance == distance
      && r.value.calories == 0.5 * d.personal.weight * distance
    ensures r.Success? ==> r.value.steps > 0 && r.value.distance > 0.0 && r.value.calories > 0.0
  {
    var distance := SpentEnergy.Distance(d.steps, d.personal.height);
    match SpentEnergy.WalkingSpentCalories(d.steps, d.personal.weight, d.personal.height, d.duration)
    case Failure(err) => Failure(err)
    case Success(calories) => Success(DayStepsReport(d.steps, distance, calories))
  }
}
