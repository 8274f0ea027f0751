/**
 * Training records: a line "<steps>,<training type>,<duration>" is validated and stored
 * in the record, and a report is computed with the walking or running formula.
 */
module Trainings {
  import opened Wrappers
  import opened Errors
  import opened PersonalData
  import Strings
  import Strconv
  import Durations
  import SpentEnergy
  import opened Checks

  /** The two training types ActionInfo knows: walking and running. */
  const Walking: string := "Ходьба"
  const Running: string := "Бег"

  /** The values a successful Parse stores. */
  datatype Fields = Fields(steps: int, trainingType: string, duration: int)

  /** A snapshot of a training record, with its embedded personal data. */
  datatype TrainingData = TrainingData(steps: int, trainingType: string, duration: int, personal: Personal)

  /** The values ActionInfo prints, in order: type, hours, km, km/h, calories. */
  datatype TrainingReport = TrainingReport(trainingType: string, hours: real, distance: real, speed: real, calories: real)

  /**
   * What Parse decides about a line: the first failing check (field count, then step
   * count, then duration), or the values to store.
   */
  function ParseLine(line: string): (r: Result<Fields, Error>)
    ensures var parts := Strings.Split(line, ',');
      && (r == Failure(InvalidFormat) <==> |parts| != 3)
      && (r == Failure(InvalidCount) <==> |parts| == 3 && !PositiveCount(parts[0]))
      && (r == Failure(InvalidDuration) <==> |parts| == 3 && PositiveCount(parts[0]) && !PositiveDuration(parts[2]))
      && (r.Success? <==> |parts| == 3 && PositiveCount(parts[0]) && PositiveDuration(parts[2]))
    ensures r.Success? ==> r.value.steps > 0 && r.value.duration > 0 && ',' !in r.value.trainingType
    ensures r.Success? ==> var parts := Strings.Split(line, ',');
      && Strconv.Atoi(parts[0]) == Some(r.value.steps)
      && r.value.trainingType == parts[1]
      && Durations.ParseDuration(parts[2]) == Some(r.value.duration)
      && line == parts[0] + "," + r.value.trainingType + "," + parts[2]
  {
    var parts := Strings.Split(line, ',');
    if |parts| != 3 then Failure(InvalidFormat)
    else match Strconv.Atoi(parts[0])
      case None => Failure(InvalidCount)
      case Some(steps) =>
        if steps <= 0 then Failure(InvalidCount)
        else match Durations.ParseDuration(parts[2])
          case None => Failure(InvalidDuration)
          case Some(duration) =>
            if duration <= 0 then Failure(InvalidDuration)
            else
              Strings.SplitPartsFree(line, ',');
              Strings.JoinSplit(line, ',');
              assert parts == [parts[0], parts[1], parts[2]];
              Strings.JoinThree(parts[0], parts[1], parts[2], ',');
              Success(Fields(steps, parts[1], duration))
  }


  /** Parse fails on the format exactly when the line does not hold two commas; so "" fails. */
  lemma FormatErrorIffTwoCommas(line: string)
    ensures ParseLine(line) == Failure(InvalidFormat) <==> Strings.Occurrences(line, ',') != 2
    ensures ParseLine("") == Failure(InvalidFormat)
  {
    Strings.SplitLength(line, ',');
    Strings.SplitLength("", ',');
  }

  /** A line written from valid values parses back to those values. */
  lemma ParseFormattedLine(steps: int, trainingType: string, text: string, duration: int)
    requires 0 < steps <= Strconv.MaxInt
    requires ',' !in trainingType && ',' !in text
    requires Durations.ParseDuration(text) == Some(duration) && duration > 0
    ensures ParseLine(Strconv.Itoa(steps) + "," + trainingType + "," + text)
         == Success(Fields(steps, trainingType, duration))
  {
    var count := Strconv.Itoa(steps);
    assert ',' !in count by {
      assert Strconv.AllDigits(count);
    }
    var parts := [count, trainingType, text];
    Strings.SplitJoin(parts, ',');
    Strings.JoinThree(count, trainingType, text, ',');
    Strconv.AtoiItoa(steps);
  }

  /** A training record whose fields Parse writes in place. */
  class Training {
    var steps: int
    var trainingType: string
    var duration: int
    var personal: Personal

    constructor (personal: Personal)
      ensures Data() == TrainingData(0, "", 0, personal)
    {
      steps, trainingType, duration := 0, "", 0;
      this.personal := personal;
    }

    function Data(): TrainingData
      reads this
    {
      TrainingData(steps, trainingType, duration, personal)
    }

    /**
     * Validates the line and, only when every check passes, stores the step count, the
     * raw training type and the duration. The personal data is never written.
     */
    method Parse(line: string) returns (err: Option<Error>)
      modifies this`steps, this`trainingType, this`duration
      ensures err == ParseLine(line).ErrorOf()
      ensures err.None? ==> Data() == old(Data()).(
        steps := ParseLine(line).value.steps,
        trainingType := ParseLine(line).value.trainingType,
        duration := ParseLine(line).value.duration)
      ensures err.Some? ==> Data() == old(Data())
      ensures personal == old(personal)
    {
      var parts := Strings.Split(line, ',');
      if |parts| != 3 {
        return Some(InvalidFormat);
      }
      var parsedSteps := Strconv.Atoi(parts[0]);
      if parsedSteps.None? {
        return Some(InvalidCount);
      }
      if parsedSteps.value <= 0 {
        return Some(InvalidCount);
      }
      var parsedDuration := Durations.ParseDuration(parts[2]);
      if parsedDuration.None? {
        return Some(InvalidDuration);
      }
      if parsedDuration.value <= 0 {
        return Some(InvalidDuration);
      }
      duration := parsedDuration.value;
      trainingType := parts[1];
      steps := parsedSteps.value;
      return None;
    }
  }

  /**
   * The report of a training: walking calories for "Ходьба", running calories for
   * "Бег", InvalidTraining for any other type (checked before the body data), and the
   * formula's error when it fails.
   */
  function ActionInfo(t: TrainingData): (r: Result<TrainingReport, Error>)
    ensures t.trainingType != Walking && t.trainingType != Running ==> r == Failure(InvalidTraining)
    ensures t.trainingType == Walking || t.trainingType == Running ==>
      && (r.Success? <==> SpentEnergy.ValidParams(t.steps, t.personal.weight, t.personal.height, t.duration))
      && (r.Failure? ==> r.error == InvalidParams)
    ensures r.Success? ==>
      var distance := SpentEnergy.Distance(t.steps, t.personal.height);
      && r.value.trainingType == t.trainingType
      && r.value.hours * SpentEnergy.NanosPerHour == t.duration as real
      && r.value.distance == distance
      && r.value.speed * r.value.hours == distance
      && r.value.calories == (if t.trainingType == Walking then 0.5 else 1.0) * t.personal.weight * distance
    ensures r.Success? ==> r.value.hours > 0.0 && r.value.distance > 0.0 && r.value.speed > 0.0 && r.value.calories > 0.0
  {
    var trainingDistance := SpentEnergy.Distance(t.steps, t.personal.height);
    var avgSpeed := SpentEnergy.MeanSpeed(t.steps, t.personal.height, t.duration);
    var calories :=
      if t.trainingType == Walking then SpentEnergy.WalkingSpentCalories(t.steps, t.personal.weight, t.personal.height, t.duration)
      else if t.trainingType == Running then SpentEnergy.RunningSpentCalories(t.steps, t.personal.weight, t.personal.height, t.duration)
      else Failure(InvalidTraining);
    match calories
    case Failure(err) => Failure(err)
    case Success(c) =>
      Success(TrainingReport(t.trainingType, SpentEnergy.Hours(t.duration), trainingDistance, avgSpeed, c))
  }

  /** The training line of the example: 1000 walking steps with 75.5 kg and 1.80 m. */
  lemma WalkingExample(name: string)
    ensures var t := TrainingData(1000, Walking, Durations.Hour, Personal(name, 75.5, 1.80));
      && ActionInfo(t).Success?
      && ActionInfo(t).value.distance == 0.81
      && ActionInfo(t).value.calories == 75.5 * 0.81 * 0.5
      && ActionInfo(t).value.hours == 1.0
  {
  }

  /** An unknown training type, such as swimming, is refused whatever the body data. */
  lemma UnknownTypeRefused(steps: int, duration: int, personal: Personal)
    ensures ActionInfo(TrainingData(steps, "Плавание", duration, personal)) == Failure(InvalidTraining)
  {
  }
}
