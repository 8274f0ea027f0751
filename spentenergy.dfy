/**
 * The formula kernel: distance, mean speed and calories from steps, weight, height and
 * a duration in nanoseconds. Go computes in float64; here arithmetic is exact.
 */
module SpentEnergy {
  import opened Wrappers
  import opened Errors

  const MInKm: real := 1000.0
  const MinInH: real := 60.0
  const StepLengthCoefficient: real := 0.45
  const WalkingCaloriesCoefficient: real := 0.5

  /** Nanoseconds per hour and per minute, as time.Duration.Hours and Minutes divide. */
  const NanosPerHour: real := 3_600_000_000_000.0
  const NanosPerMinute: real := 60_000_000_000.0

  function Hours(duration: int): (h: real)
    ensures duration > 0 ==> h > 0.0
    ensures h * NanosPerHour == duration as real
  {
    duration as real / NanosPerHour
  }

  function Minutes(duration: int): (m: real)
    ensures m == Hours(duration) * MinInH
  {
    duration as real / NanosPerMinute
  }

  /** Every input positive: the guard of RunningSpentCalories lets the formula run. */
  predicate ValidParams(steps: int, weight: real, height: real, duration: int)
  {
    steps > 0 && weight > 0.0 && height > 0.0 && duration > 0
  }

  /** Distance in kilometres: steps of height * 0.45 metres each. */
  function Distance(steps: int, height: real): (km: real)
    ensures steps > 0 && height > 0.0 ==> km > 0.0
    ensures steps == 0 || height == 0.0 ==> km == 0.0
  {
    var stepHeight := height * StepLengthCoefficient;
    var stepsDistance := steps as real * stepHeight;
    stepsDistance / MInKm
  }

  /** Mean speed in km/h; 0 for a duration that is not positive. */
  function MeanSpeed(steps: int, height: real, duration: int): (speed: real)
    ensures duration <= 0 ==> speed == 0.0
    ensures duration > 0 ==> speed * Hours(duration) == Distance(steps, height)
    ensures steps > 0 && height > 0.0 && duration > 0 ==> speed > 0.0
  {
    if duration <= 0 then 0.0
    else Distance(steps, height) / Hours(duration)
  }

  /**
   * Running calories: weight * speed * minutes / 60, which is weight times distance.
   * Any input that is not positive gives InvalidParams.
   */
  function RunningSpentCalories(steps: int, weight: real, height: real, duration: int): (r: Result<real, Error>)
    ensures r.Failure? <==> !ValidParams(steps, weight, height, duration)
    ensures r.Failure? ==> r.error == InvalidParams
    ensures r.Success? ==> r.value == weight * Distance(steps, height) && r.value > 0.0
  {
    if steps <= 0 || weight <= 0.0 || height <= 0.0 || duration <= 0 then Failure(InvalidParams)
    else
      var avgSpeed := MeanSpeed(steps, height, duration);
      var calories := (weight * avgSpeed * Minutes(duration)) / MinInH;
      CaloriesAreWeightTimesDistance(weight, avgSpeed, Hours(duration), Distance(steps, height));
      Success(calories)
  }

  lemma CaloriesAreWeightTimesDistance(weight: real, speed: real, hours: real, distance: real)
    requires speed * hours == distance
    ensures (weight * speed * (hours * MinInH)) / MinInH == weight * distance
  {
    calc {
      (weight * speed * (hours * MinInH)) / MinInH;
      weight * (speed * hours);
      weight * distance;
    }
  }

  /** Walking calories: half the running figure, with the same failure. */
  function WalkingSpentCalories(steps: int, weight: real, height: real, duration: int): (r: Result<real, Error>)
    ensures r.Failure? <==> !ValidParams(steps, weight, height, duration)
    ensures r.Failure? ==> r.error == InvalidParams
    ensures r.Success? ==> r.value == weight * Distance(steps, height) * 0.5 && r.value > 0.0
  {
    match RunningSpentCalories(steps, weight, height, duration)
    case Failure(err) => Failure(err)
    case Success(calories) => Success(calories * WalkingCaloriesCoefficient)
  }

  /** On valid input the walking figure is exactly half the running one. */
  lemma WalkingIsHalfRunning(steps: int, weight: real, height: real, duration: int)
    requires ValidParams(steps, weight, height, duration)
    ensures WalkingSpentCalories(steps, weight, height, duration).value
         == RunningSpentCalories(steps, weight, height, duration).value * 0.5
  {
  }

  /** Distance is linear in the number of steps. */
  lemma DistanceLinear(a: int, b: int, height: real)
    ensures Distance(a + b, height) == Distance(a, height) + Distance(b, height)
    ensures Distance(2 * a, height) == 2.0 * Distance(a, height)
  {
  }
}
