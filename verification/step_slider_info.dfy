/** The value layout of a step slider (Sources/StepSlider/StepSliderInfo.swift). */
module StepSliderInfo {
  import opened Wrappers
  import RangeConfig

  datatype Info = Info(
    minimumValue: int,
    maximumValue: int,
    minimumValueWithOffset: int,
    maximumValueWithOffset: int,
    hasLowerBoundOffset: bool,
    hasUpperBoundOffset: bool,
    accessibilityStepIncrement: int,
    rangeLower: int,
    rangeUpper: int,
    values: seq<int>,
    valuesWithOffsets: seq<int>)

  /** `init(minimumValue:maximumValue:stepValues:...)`. The closed range
      `minimumValue...maximumValue` traps unless min <= max. */
  function MakeInfo(min: int, max: int, stepValues: seq<int>, lowerOffset: bool, upperOffset: bool,
                    accessibilityStep: Option<int>): (info: Info)
    requires min <= max
    ensures info.minimumValueWithOffset == (if lowerOffset then min - 1 else min)
    ensures info.maximumValueWithOffset == (if upperOffset then max + 1 else max)
    ensures info.minimumValueWithOffset <= info.minimumValue <= info.maximumValue <= info.maximumValueWithOffset
    ensures info.rangeLower == min && info.rangeUpper == max
    ensures info.values == [min] + stepValues + [max]
    ensures info.valuesWithOffsets ==
      (if lowerOffset then [min - 1] else []) + info.values + (if upperOffset then [max + 1] else [])
    ensures info.accessibilityStepIncrement == accessibilityStep.GetOr(1)
  {
    var minWithOffset := if lowerOffset then min - 1 else min;
    var maxWithOffset := if upperOffset then max + 1 else max;
    var values := [min] + stepValues + [max];
    var withLower := if lowerOffset then [minWithOffset] + values else values;
    var withOffsets := if upperOffset then withLower + [maxWithOffset] else withLower;
    Info(min, max, minWithOffset, maxWithOffset, lowerOffset, upperOffset,
         accessibilityStep.GetOr(1), min, max, values, withOffsets)
  }

  /** The loop of `init(minimumValue:maximumValue:incrementedBy:...)`: it adds
      the increment while the next value stays below the maximum. It ends only
      when the increment is positive or the first step already reaches the
      maximum. The result is min + inc, min + 2·inc, ... for as long as that is
      below the maximum, and nothing more. */
  method IncrementedSteps(min: int, max: int, inc: int) returns (values: seq<int>)
    requires inc > 0 || min + inc >= max
    ensures |values| > 0 ==> values[0] == min + inc
    ensures forall k :: 0 <= k < |values| - 1 ==> values[k + 1] == values[k] + inc
    ensures forall k :: 0 <= k < |values| ==> values[k] < max
    ensures (if |values| == 0 then min else values[|values| - 1]) + inc >= max
  {
    values := [];
    var value := min;
    while value + inc < max
      invariant value == (if |values| == 0 then min else values[|values| - 1])
      invariant |values| > 0 ==> values[0] == min + inc
      invariant forall k :: 0 <= k < |values| - 1 ==> values[k + 1] == values[k] + inc
      invariant forall k :: 0 <= k < |values| ==> values[k] < max
      decreases max - value
    {
      value := value + inc;
      values := values + [value];
    }
  }

  /** The incremented values are exactly min + k·inc for k = 1, 2, ... */
  lemma {:induction false} IncrementedMultiples(min: int, inc: int, values: seq<int>, k: nat)
    requires |values| > 0 ==> values[0] == min + inc
    requires forall j :: 0 <= j < |values| - 1 ==> values[j + 1] == values[j] + inc
    requires k < |values|
    ensures values[k] == min + (k + 1) * inc
  {
    if k > 0 {
      IncrementedMultiples(min, inc, values, k - 1);
      assert values[k] == values[k - 1] + inc;
      assert (k + 1) * inc == k * inc + inc;
    }
  }

  /** `init(minimumValue:maximumValue:incrementedBy:...)`. */
  method MakeIncrementedInfo(min: int, max: int, inc: int, lowerOffset: bool, upperOffset: bool,
                             accessibilityStep: Option<int>) returns (info: Info)
    requires min <= max
    requires inc > 0 || min + inc >= max
    ensures |info.values| >= 2
    ensures info.values[0] == min && info.values[|info.values| - 1] == max
    ensures forall k :: 0 < k < |info.values| - 1 ==> info.values[k] == min + k * inc && info.values[k] < max
    ensures inc > 0 && min < max ==> RangeConfig.Increasing(info.values)
  {
    var steps := IncrementedSteps(min, max, inc);
    info := MakeInfo(min, max, steps, lowerOffset, upperOffset, accessibilityStep);
    forall k | 0 < k < |info.values| - 1
      ensures info.values[k] == min + k * inc && info.values[k] < max
    {
      StepAt(min, max, inc, steps, info.values, k);
    }
    if inc > 0 && min < max {
      IncrementedIncreasing(min, max, inc, info.values);
    }
  }

  /** Inner value `k` of the layout is the `k`-th multiple of the increment. */
  lemma StepAt(min: int, max: int, inc: int, steps: seq<int>, vs: seq<int>, k: nat)
    requires vs == [min] + steps + [max]
    requires |steps| > 0 ==> steps[0] == min + inc
    requires forall j :: 0 <= j < |steps| - 1 ==> steps[j + 1] == steps[j] + inc
    requires forall j :: 0 <= j < |steps| ==> steps[j] < max
    requires 0 < k < |vs| - 1
    ensures vs[k] == min + k * inc && vs[k] < max
  {
    assert vs[k] == steps[k - 1];
    IncrementedMultiples(min, inc, steps, k - 1);
  }

  lemma MulStrict(i: int, j: int, inc: int)
    requires i < j && inc > 0
    ensures i * inc < j * inc
  {
    assert j * inc - i * inc == (j - i) * inc;
  }

  /** Values laid out as min, min + inc, ..., max are increasing. */
  lemma IncrementedIncreasing(min: int, max: int, inc: int, vs: seq<int>)
    requires inc > 0 && min < max && |vs| >= 2
    requires vs[0] == min && vs[|vs| - 1] == max
    requires forall k :: 0 < k < |vs| - 1 ==> vs[k] == min + k * inc && vs[k] < max
    ensures RangeConfig.Increasing(vs)
  {
    forall i, j | 0 <= i < j < |vs| ensures vs[i] < vs[j] {
      if j < |vs| - 1 {
        MulStrict(i, j, inc);
      }
    }
  }

  /** `referenceValues`: the first value, the centre value when it is an
      interior one, and the last value. All are taken from `values`, and an
      increasing list of values gives increasing reference values. */
  function ReferenceValues(info: Info): (r: seq<int>)
    ensures forall x :: x in r ==> x in info.values
    ensures |r| == (if |info.values| == 0 then 0 else if |info.values| >= 3 then 3 else 2)
    ensures |info.values| > 0 ==> r[0] == info.values[0] && r[|r| - 1] == info.values[|info.values| - 1]
    ensures RangeConfig.Increasing(info.values) && |info.values| >= 2 ==> RangeConfig.Increasing(r)
  {
    var vs := info.values;
    var first := if |vs| > 0 then [vs[0]] else [];
    var center := |vs| / 2;
    var middle := if center > 0 && center < |vs| - 1 then [vs[center]] else [];
    var last := if |vs| > 0 then [vs[|vs| - 1]] else [];
    first + middle + last
  }

  /** `isLowValueInValidRange`: at or above the lower bound, except that 0 is
      rejected when the lower bound is 0. */
  function IsLowValueInValidRange(info: Info, v: int): (r: bool)
    ensures r <==> v > info.rangeLower || (v == info.rangeLower && v != 0)
  {
    if v >= info.rangeLower then !(v == 0 && info.rangeLower == 0) else false
  }

  /** `isHighValueInValidRange`. */
  function IsHighValueInValidRange(info: Info, v: int): (r: bool)
    ensures r <==> v <= info.rangeUpper
  {
    v <= info.rangeUpper
  }
}
