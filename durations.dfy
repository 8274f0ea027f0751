/**
 * A subset of Go's time.ParseDuration: a duration is an int64 count of nanoseconds,
 * written as an optional sign and one or more segments "<digits><unit>", such as
 * "1h30m" or "-15s"; what is left after the sign may also be a bare "0". A segment may
 * carry a fraction of zeros ("1.h", "1.0h", ".0s"); a fraction with a non-zero digit
 * ("1.5h") is computed by Go in float64 and is rejected here.
 *
 * The reader walks the string by index, as the loop of time.ParseDuration walks it.
 */
module Durations {
  import opened Wrappers
  import opened Strconv

  const Nanosecond: nat := 1
  const Microsecond: nat := 1_000
  const Millisecond: nat := 1_000_000
  const Second: nat := 1_000_000_000
  const Minute: nat := 60_000_000_000
  const Hour: nat := 3_600_000_000_000

  /** 1 << 63: the largest magnitude a duration may have while it is being summed. */
  const Limit: nat := 0x8000_0000_0000_0000

  /**
   * A unit of the table: its length in nanoseconds and `cap`, the largest count of it
   * that stays within 1 << 63 (the quotient time.ParseDuration compares against).
   */
  datatype Unit = Unit(nanos: nat, cap: nat)

  /**
   * The unit table of time.ParseDuration: "ns", "us" (also spelt with the micro sign
   * U+00B5 or the Greek letter mu U+03BC), "ms", "s", "m" and "h".
   */
  function UnitOf(u: string): (r: Option<Unit>)
    ensures r.Some? ==> 1 <= r.value.nanos <= Hour
  {
    if |u| == 1 then
      if u[0] == 's' then Some(Unit(Second, 9_223_372_036))
      else if u[0] == 'm' then Some(Unit(Minute, 153_722_867))
      else if u[0] == 'h' then Some(Unit(Hour, 2_562_047))
      else None
    else if |u| == 2 && u[1] == 's' then
      if u[0] == 'n' then Some(Unit(Nanosecond, 9_223_372_036_854_775_808))
      else if u[0] == 'u' || u[0] == '\U{00B5}' || u[0] == '\U{03BC}' then Some(Unit(Microsecond, 9_223_372_036_854_775))
      else if u[0] == 'm' then Some(Unit(Millisecond, 9_223_372_036_854))
      else None
    else None
  }

  /** Each cap of the table is 1 << 63 divided by the unit's length. */
  lemma UnitCap(u: string)
    requires UnitOf(u).Some?
    ensures UnitOf(u).value.cap == Limit / UnitOf(u).value.nanos
    ensures UnitOf(u).value.cap * UnitOf(u).value.nanos <= Limit < (UnitOf(u).value.cap + 1) * UnitOf(u).value.nanos
  {
  }

  /**
   * `v` units of `unit` nanoseconds each, added up one unit at a time; ScaleIsProduct
   * shows that this is `v * unit`.
   */
  function Scale(v: nat, unit: nat): (d: nat)
  {
    if v == 0 then 0 else Scale(v - 1, unit) + unit
  }

  lemma {:induction false} ScaleIsProduct(v: nat, unit: nat)
    ensures Scale(v, unit) == v * unit
  {
    if v > 0 {
      ScaleIsProduct(v - 1, unit);
    }
  }

  /** A number read from the front of a segment: its value and the index after it. */
  datatype Number = Number(value: nat, end: nat)

  /**
   * time.leadingInt from index `i`, with `x` the value of the digits already read: the
   * digits up to the first non-digit, failing as soon as the value passes 1 << 63.
   */
  function LeadingInt(s: string, i: nat, x: nat): (r: Option<Number>)
    requires i <= |s| && x <= Limit
    ensures r.Some? ==> i <= r.value.end <= |s| && x <= r.value.value <= Limit
    ensures r.Some? ==> r.value.end == |s| || !IsDigit(s[r.value.end])
    decreases |s| - i
  {
    if i == |s| || !IsDigit(s[i]) then Some(Number(x, i))
    else if x > Limit / 10 then None
    else
      var y := x * 10 + (s[i] as int - '0' as int);
      if y > Limit then None else LeadingInt(s, i + 1, y)
  }

  /** The index of the first digit or '.' at or after `k`: where a unit ends. */
  function UnitEnd(s: string, k: nat): (j: nat)
    requires k <= |s|
    ensures k <= j <= |s|
    decreases |s| - k
  {
    if k == |s| || s[k] == '.' || IsDigit(s[k]) then k else UnitEnd(s, k + 1)
  }

  /** The index of the first non-digit at or after `k`: where a fraction's digits end. */
  function FractionEnd(s: string, k: nat): (m: nat)
    requires k <= |s|
    ensures k <= m <= |s| && (m == |s| || !IsDigit(s[m]))
    ensures forall p :: k <= p < m ==> IsDigit(s[p])
    decreases |s| - k
  {
    if k == |s| || !IsDigit(s[k]) then k else FractionEnd(s, k + 1)
  }

  /** Every character of s[k..m] is '0': a fraction whose value is zero. */
  predicate ZeroDigits(s: string, k: nat, m: nat)
    requires k <= m <= |s|
    decreases m - k
  {
    k == m || (s[k] == '0' && ZeroDigits(s, k + 1, m))
  }

  /** One segment read from index `start`: its value and the index after it. */
  datatype Segment = Segment(nanos: nat, end: nat)

  /**
   * One turn of the loop of time.ParseDuration: a number, an optional fraction and a
   * unit from index `i`. None for a segment with no digit before or after the '.', a
   * missing or unknown unit, or a value beyond 1 << 63; and None for a fraction with a
   * non-zero digit, whose value Go computes in float64. A fraction of zeros, or a '.'
   * with no digits after it, adds nothing, as in Go.
   */
  function NextSegment(s: string, i: nat): (r: Option<Segment>)
    requires i < |s|
    ensures r.Some? ==> i < r.value.end <= |s| && r.value.nanos <= Limit
  {
    if !(s[i] == '.' || IsDigit(s[i])) then None
    else match LeadingInt(s, i, 0)
      case None => None
      case Some(number) =>
        var dot := number.end < |s| && s[number.end] == '.';
        var k := if dot then FractionEnd(s, number.end + 1) else number.end;
        if number.end == i && k <= i + 1 then None
        else if dot && !ZeroDigits(s, number.end + 1, k) then None
        else
          var j := UnitEnd(s, k);
          if j == k then None
          else match UnitOf(s[k..j])
            case None => None
            case Some(unit) =>
              if number.value > unit.cap then None
              else
                WithinCap(number.value, s[k..j]);
                Some(Segment(Scale(number.value, unit.nanos), j))
  }

  /** 2^64: the running sum of time.ParseDuration is a uint64, so additions wrap at this. */
  const Wrap: nat := 0x1_0000_0000_0000_0000

  /**
   * A uint64 addition of two values of at most 1 << 63: their sum, or 0 when both are
   * exactly 1 << 63 and the sum wraps.
   */
  function AddUint64(a: nat, b: nat): (c: nat)
    requires a <= Limit && b <= Limit
    ensures c < Wrap && c % Wrap == (a + b) % Wrap
    ensures a + b < Wrap ==> c == a + b
    ensures a + b >= Wrap ==> a == Limit && b == Limit && c == 0
  {
    if a + b == Wrap then 0 else a + b
  }

  /**
   * The loop of time.ParseDuration over the segments from index `i` on, adding each
   * segment's value to `acc` as a uint64; None when a segment is malformed or the sum
   * passes 1 << 63.
   */
  function ParseSegments(s: string, i: nat, acc: nat): (r: Option<nat>)
    requires i < |s| && acc <= Limit
    ensures r.Some? ==> r.value <= Limit
    decreases |s| - i
  {
    match NextSegment(s, i)
    case None => None
    case Some(segment) =>
      var d := AddUint64(acc, segment.nanos);
      if d > Limit then None
      else if segment.end == |s| then Some(d)
      else ParseSegments(s, segment.end, d)
  }

  /**
   * time.ParseDuration on the subset described above, in nanoseconds: the sign is cut
   * off, and the rest is a bare "0" or a non-empty run of segments.
   */
  function ParseDuration(s: string): (r: Option<int>)
    ensures r.Some? ==> -(Limit as int) <= r.value < Limit
    ensures s == "" ==> r.None?
  {
    var negative := |s| > 0 && s[0] == '-';
    var rest := if |s| > 0 && (s[0] == '-' || s[0] == '+') then s[1..] else s;
    if rest == "0" then Some(0)
    else if rest == "" then None
    else match ParseSegments(rest, 0, 0)
      case None => None
      case Some(d) =>
        if negative then Some(-(d as int))
        else if d > Limit - 1 then None
        else Some(d)
  }

  /** A unit of the table: non-empty, with no digit and no '.'. */
  predicate IsUnit(u: string)
  {
    UnitOf(u).Some?
  }

  lemma UnitShape(u: string)
    requires IsUnit(u)
    ensures |u| >= 1 && u[0] != '.' && !IsDigit(u[0])
    ensures forall i :: 0 <= i < |u| ==> u[i] != '.' && !IsDigit(u[i])
  {
  }

  lemma MulMonotone(a: nat, b: nat, c: nat)
    requires a <= b
    ensures a * c <= b * c
  {
    assert b * c == a * c + (b - a) * c;
  }

  /** The overflow guard of time.ParseDuration admits exactly the counts that fit. */
  lemma WithinCap(n: nat, u: string)
    requires IsUnit(u)
    ensures Scale(n, UnitOf(u).value.nanos) <= Limit <==> n <= UnitOf(u).value.cap
  {
    var unit := UnitOf(u).value;
    UnitCap(u);
    ScaleIsProduct(n, unit.nanos);
    if n > unit.cap {
      MulMonotone(unit.cap + 1, n, unit.nanos);
    } else {
      MulMonotone(n, unit.cap, unit.nanos);
    }
  }

  /** One more digit of a run s[i..j] whose value fits: the step leadingInt takes. */
  lemma DigitStep(s: string, i: nat, m: nat, j: nat)
    requires i <= m < j <= |s| && AllDigits(s[i..j]) && DigitsValue(s[i..j]) <= Limit
    ensures IsDigit(s[m]) && AllDigits(s[i..m]) && AllDigits(s[i..m + 1])
    ensures DigitsValue(s[i..m + 1]) == DigitsValue(s[i..m]) * 10 + (s[m] as int - '0' as int)
    ensures DigitsValue(s[i..m + 1]) <= Limit && DigitsValue(s[i..m]) <= Limit / 10
  {
    var run := s[i..j];
    assert s[m] == run[m - i];
    assert s[i..m + 1] == run[..m + 1 - i];
    DigitsPrefix(run, m + 1 - i);
    assert s[i..m + 1][..m - i] == s[i..m];
  }

  /** leadingInt reads a whole run of digits s[i..j] whose value fits. */
  lemma {:induction false} LeadingIntRun(s: string, i: nat, m: nat, j: nat)
    requires i <= m <= j <= |s| && AllDigits(s[i..j]) && (j == |s| || !IsDigit(s[j]))
    requires DigitsValue(s[i..j]) <= Limit
    ensures AllDigits(s[i..m]) && DigitsValue(s[i..m]) <= Limit
    ensures LeadingInt(s, m, DigitsValue(s[i..m])) == Some(Number(DigitsValue(s[i..j]), j))
    decreases j - m
  {
    if m < j {
      DigitStep(s, i, m, j);
      LeadingIntRun(s, i, m + 1, j);
    }
  }

  /** A unit s[k..j], followed by a digit, a '.' or the end, ends at j. */
  lemma {:induction false} UnitEndRun(s: string, m: nat, j: nat)
    requires m <= j <= |s|
    requires forall p :: m <= p < j ==> s[p] != '.' && !IsDigit(s[p])
    requires j == |s| || s[j] == '.' || IsDigit(s[j])
    ensures UnitEnd(s, m) == j
    decreases j - m
  {
    if m < j {
      UnitEndRun(s, m + 1, j);
    }
  }

  /** A string of digits at index `i`, followed by a non-digit or the end, is read whole. */
  lemma DigitsAt(s: string, i: nat, digits: string)
    requires AllDigits(digits) && DigitsValue(digits) <= Limit
    requires i + |digits| <= |s| && s[i..i + |digits|] == digits
    requires var k := i + |digits|; k == |s| || !IsDigit(s[k])
    ensures LeadingInt(s, i, 0) == Some(Number(DigitsValue(digits), i + |digits|))
  {
    LeadingIntRun(s, i, i, i + |digits|);
    assert s[i..i] == [];
  }

  /** A unit of the table at index `k`, followed by a digit, a '.' or the end, ends there. */
  lemma UnitAt(s: string, k: nat, u: string)
    requires IsUnit(u) && k + |u| <= |s| && s[k..k + |u|] == u
    requires var j := k + |u|; j == |s| || s[j] == '.' || IsDigit(s[j])
    ensures UnitEnd(s, k) == k + |u| && s[k..UnitEnd(s, k)] == u
  {
    UnitShape(u);
    assert forall p :: k <= p < k + |u| ==> s[p] == u[p - k];
    UnitEndRun(s, k, k + |u|);
  }

  /** NextSegment when the number, the unit and the overflow guard all pass. */
  lemma SegmentFrom(s: string, i: nat, n: nat, k: nat, u: string)
    requires i < k < |s| && IsDigit(s[i]) && s[k] != '.'
    requires LeadingInt(s, i, 0) == Some(Number(n, k))
    requires IsUnit(u) && UnitEnd(s, k) == k + |u| && s[k..k + |u|] == u && |u| > 0
    requires n <= UnitOf(u).value.cap
    ensures NextSegment(s, i) == Some(Segment(Scale(n, UnitOf(u).value.nanos), k + |u|))
  {
  }

  /**
   * A segment "<digits><u>" at index `i`, followed by a digit or the end, is read whole,
   * as the value of the digits times the unit.
   */
  lemma SegmentAt(s: string, i: nat, digits: string, u: string)
    requires IsUnit(u) && digits != [] && AllDigits(digits)
    requires Scale(DigitsValue(digits), UnitOf(u).value.nanos) <= Limit
    requires i + |digits| + |u| <= |s|
    requires s[i..i + |digits|] == digits
    requires s[i + |digits|..i + |digits| + |u|] == u
    requires var end := i + |digits| + |u|; end == |s| || IsDigit(s[end])
    ensures NextSegment(s, i)
         == Some(Segment(Scale(DigitsValue(digits), UnitOf(u).value.nanos), i + |digits| + |u|))
  {
    var n := DigitsValue(digits);
    var k := i + |digits|;
    UnitAt(s, k, u);
    UnitShape(u);
    assert s[k] == u[0];
    WithinCap(n, u);
    ScaleIsProduct(n, UnitOf(u).value.nanos);
    MulMonotone(1, UnitOf(u).value.nanos, n);
    DigitsAt(s, i, digits);
    assert IsDigit(s[i]) by {
      assert s[i] == digits[0];
    }
    SegmentFrom(s, i, n, k, u);
  }

  /** The digits of a fraction s[m..j], followed by a non-digit or the end, end at j. */
  lemma {:induction false} FractionEndRun(s: string, m: nat, j: nat)
    requires m <= j <= |s|
    requires forall p :: m <= p < j ==> IsDigit(s[p])
    requires j == |s| || !IsDigit(s[j])
    ensures FractionEnd(s, m) == j
    decreases j - m
  {
    if m < j {
      FractionEndRun(s, m + 1, j);
    }
  }

  /** A run of '0' characters is a fraction of zeros. */
  lemma {:induction false} ZeroDigitsRun(s: string, m: nat, j: nat)
    requires m <= j <= |s|
    requires forall p :: m <= p < j ==> s[p] == '0'
    ensures ZeroDigits(s, m, j)
    decreases j - m
  {
    if m < j {
      ZeroDigitsRun(s, m + 1, j);
    }
  }

  /**
   * The segment "<digits>.<zeros><u>": a fraction of zeros, or of nothing, adds
   * nothing to the digits times the unit.
   */
  lemma FractionSegment(digits: string, zeros: string, u: string)
    requires IsUnit(u) && digits != [] && AllDigits(digits)
    requires Scale(DigitsValue(digits), UnitOf(u).value.nanos) <= Limit
    requires forall p :: 0 <= p < |zeros| ==> zeros[p] == '0'
    ensures var s := digits + "." + zeros + u;
      NextSegment(s, 0) == Some(Segment(Scale(DigitsValue(digits), UnitOf(u).value.nanos), |s|))
  {
    var s := digits + "." + zeros + u;
    var n := DigitsValue(digits);
    var k0 := |digits|;
    var k := k0 + 1 + |zeros|;
    UnitShape(u);
    WithinCap(n, u);
    ScaleIsProduct(n, UnitOf(u).value.nanos);
    MulMonotone(1, UnitOf(u).value.nanos, n);
    assert s[..k0] == digits && s[0..k0] == digits && s[k0] == '.';
    assert s[0] == digits[0];
    DigitsAt(s, 0, digits);
    assert forall p :: k0 + 1 <= p < k ==> s[p] == zeros[p - k0 - 1];
    assert s[k..] == u && s[k..k + |u|] == u && s[k] == u[0];
    FractionEndRun(s, k0 + 1, k);
    ZeroDigitsRun(s, k0 + 1, k);
    UnitAt(s, k, u);
  }

  /** "<n>.<zeros><u>" parses as "<n><u>" does: Go accepts "1.h" and "1.0h" as one hour. */
  lemma ZeroFraction(n: nat, zeros: string, u: string)
    requires IsUnit(u)
    requires n * UnitOf(u).value.nanos < Limit
    requires forall p :: 0 <= p < |zeros| ==> zeros[p] == '0'
    ensures ParseDuration(NatToDecimal(n) + "." + zeros + u) == Some(n * UnitOf(u).value.nanos)
  {
    var s := NatToDecimal(n) + "." + zeros + u;
    ScaleIsProduct(n, UnitOf(u).value.nanos);
    FractionSegment(NatToDecimal(n), zeros, u);
    LastSegment(s, 0, 0, Segment(n * UnitOf(u).value.nanos, |s|));
    assert s[0] == NatToDecimal(n)[0];
    ParseUnsigned(s, n * UnitOf(u).value.nanos);
  }

  /** A segment that ends the string closes the sum. */
  lemma LastSegment(s: string, i: nat, acc: nat, segment: Segment)
    requires i < |s| && acc <= Limit
    requires NextSegment(s, i) == Some(segment) && segment.end == |s|
    requires acc + segment.nanos <= Limit
    ensures ParseSegments(s, i, acc) == Some(acc + segment.nanos)
  {
  }

  /** A segment followed by more text adds its value and goes on after it. */
  lemma InnerSegment(s: string, i: nat, acc: nat, segment: Segment)
    requires i < |s| && acc <= Limit
    requires NextSegment(s, i) == Some(segment) && segment.end < |s|
    requires acc + segment.nanos <= Limit
    ensures ParseSegments(s, i, acc) == ParseSegments(s, segment.end, acc + segment.nanos)
  {
  }

  /** Two segments of exactly 1 << 63 wrap the uint64 sum back to 0, and reading goes on. */
  lemma SumWraps(s: string, i: nat, segment: Segment)
    requires i < |s| && NextSegment(s, i) == Some(segment)
    requires segment.nanos == Limit && segment.end < |s|
    ensures ParseSegments(s, i, Limit) == ParseSegments(s, segment.end, 0)
  {
  }

  /** "<digits>ns" with the digits worth 1 << 63, followed by a digit, is one segment of 1 << 63. */
  lemma LimitSegment(s: string, i: nat, digits: string)
    requires digits != [] && AllDigits(digits) && DigitsValue(digits) == Limit
    requires i + |digits| + 2 < |s| && IsDigit(s[i + |digits| + 2])
    requires s[i..i + |digits|] == digits && s[i + |digits|..i + |digits| + 2] == "ns"
    ensures NextSegment(s, i) == Some(Segment(Limit, i + |digits| + 2))
  {
    var n := DigitsValue(digits);
    var unit := UnitOf("ns").value;
    assert unit.nanos == 1;
    ScaleIsProduct(n, unit.nanos);
    assert Scale(n, unit.nanos) == Limit;
    SegmentAt(s, i, digits, "ns");
    assert NextSegment(s, i) == Some(Segment(Scale(n, unit.nanos), i + |digits| + 2));
  }

  /** "1h" ending the string is one segment of an hour. */
  lemma HourSegment(s: string, i: nat)
    requires i + 2 == |s| && s[i..] == "1h"
    ensures NextSegment(s, i) == Some(Segment(Hour, |s|))
  {
    assert s[i..i + 1] == "1" && s[i + 1..i + 2] == "h";
    assert DigitsValue("1") == 1;
    ScaleIsProduct(1, Hour);
    SegmentAt(s, i, "1", "h");
  }

  /**
   * Two segments of 1 << 63 nanoseconds, such as "9223372036854775808ns" twice, and
   * then "1h" make one hour: the first two add up to 2^64, which the uint64 sum wraps
   * to 0.
   */
  lemma WrapAround(digits: string)
    requires digits != [] && AllDigits(digits) && DigitsValue(digits) == Limit
    ensures ParseDuration(digits + "ns" + digits + "ns" + "1h") == Some(Hour)
  {
    var s := digits + "ns" + digits + "ns" + "1h";
    var a := |digits| + 2;
    assert s[..|digits|] == digits && s[|digits|..a] == "ns" && s[0..|digits|] == digits;
    assert s[a..a + |digits|] == digits && s[a + |digits|..2 * a] == "ns";
    assert s[2 * a..] == "1h";
    assert IsDigit(s[a]) && IsDigit(s[2 * a]);
    LimitSegment(s, 0, digits);
    LimitSegment(s, a, digits);
    HourSegment(s, 2 * a);
    InnerSegment(s, 0, 0, Segment(Limit, a));
    SumWraps(s, a, Segment(Limit, 2 * a));
    LastSegment(s, 2 * a, 0, Segment(Hour, |s|));
    ParseUnsigned(s, Hour);
  }

  /** An unsigned duration string is exactly its segments. */
  lemma ParseUnsigned(s: string, d: nat)
    requires |s| >= 2 && IsDigit(s[0])
    requires ParseSegments(s, 0, 0) == Some(d) && d < Limit
    ensures ParseDuration(s) == Some(d)
  {
  }

  /** A single segment such as "90m" parses to that many units. */
  lemma ParseOneSegment(n: nat, u: string)
    requires IsUnit(u)
    requires n * UnitOf(u).value.nanos < Limit
    ensures ParseDuration(NatToDecimal(n) + u) == Some(n * UnitOf(u).value.nanos)
  {
    var s := NatToDecimal(n) + u;
    var segment := Segment(Scale(n, UnitOf(u).value.nanos), |s|);
    ScaleIsProduct(n, UnitOf(u).value.nanos);
    assert s[..|NatToDecimal(n)|] == NatToDecimal(n);
    assert s[|NatToDecimal(n)|..|s|] == u;
    SegmentAt(s, 0, NatToDecimal(n), u);
    LastSegment(s, 0, 0, segment);
    UnitShape(u);
    ParseUnsigned(s, n * UnitOf(u).value.nanos);
  }

  /**
   * The sign: a leading '+' changes nothing, and a leading '-' negates every duration
   * the unsigned text denotes.
   */
  lemma Sign(s: string)
    requires s != [] && s[0] != '+' && s[0] != '-'
    ensures ParseDuration("+" + s) == ParseDuration(s)
    ensures ParseDuration(s).Some? ==> ParseDuration("-" + s) == Some(-ParseDuration(s).value)
  {
    assert ("+" + s)[1..] == s && ("-" + s)[1..] == s;
  }

  /**
   * The range is asymmetric, as for int64: a sum of exactly 1 << 63 is the most
   * negative duration with a '-', and out of range without one.
   */
  lemma MostNegative(s: string)
    requires s != [] && s[0] != '+' && s[0] != '-'
    requires ParseSegments(s, 0, 0) == Some(Limit)
    ensures ParseDuration(s).None?
    ensures ParseDuration("-" + s) == Some(-(Limit as int))
  {
    assert ("-" + s)[1..] == s;
  }
}
