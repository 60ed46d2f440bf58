/** The slider configuration of a range filter
    (Sources/Charcoal/Models/RangeFilterConfiguration.swift): the list of
    selectable values and the reference values shown under the slider. */
module RangeConfig {
  import opened Wrappers
  import opened Arith

  /** From `from` onwards, steps are `increment` apart. */
  datatype StepInterval = StepInterval(from: int, increment: int)

  datatype ValueKind =
    | Incremented(increment: int)
    | Steps(steps: seq<int>)
    | Intervals(intervals: seq<StepInterval>)

  /** A slider position: one of the bounds or an index into the values. The
      `Step` type comes from a library that is not part of this model. */
  datatype Step = LowerBound | UpperBound | StepValue(index: int, rounded: bool)

  datatype Config = Config(
    minimumValue: int,
    maximumValue: int,
    hasLowerBoundOffset: bool,
    hasUpperBoundOffset: bool,
    values: seq<int>,
    isIncremented: bool)

  predicate Increasing(xs: seq<int>) {
    forall i, j :: 0 <= i < j < |xs| ==> xs[i] < xs[j]
  }

  function Reverse<T>(xs: seq<T>): (r: seq<T>)
    ensures |r| == |xs|
    ensures forall i :: 0 <= i < |xs| ==> r[i] == xs[|xs| - 1 - i]
  {
    if |xs| == 0 then [] else Reverse(xs[1..]) + [xs[0]]
  }

  /** `first(where: { index >= $0.from })`. */
  function FirstMatch(xs: seq<StepInterval>, v: int): (r: Option<StepInterval>)
    ensures r.Some? ==> r.value in xs && r.value.from <= v
  {
    if |xs| == 0 then None
    else if v >= xs[0].from then Some(xs[0])
    else FirstMatch(xs[1..], v)
  }

  /** The search finds the first interval that has started, and nothing only
      when none has. */
  lemma {:induction false} FirstMatchIsFirst(xs: seq<StepInterval>, v: int, i: nat)
    requires i < |xs| && xs[i].from <= v
    requires forall k :: 0 <= k < i ==> xs[k].from > v
    ensures FirstMatch(xs, v) == Some(xs[i])
    decreases i
  {
    if i > 0 {
      assert xs[0].from > v;
      FirstMatchIsFirst(xs[1..], v, i - 1);
    }
  }

  lemma {:induction false} FirstMatchNone(xs: seq<StepInterval>, v: int)
    ensures FirstMatch(xs, v).None? <==> forall i :: 0 <= i < |xs| ==> xs[i].from > v
    decreases |xs|
  {
    if |xs| > 0 {
      FirstMatchNone(xs[1..], v);
      assert forall i :: 1 <= i < |xs| ==> xs[i] == xs[1..][i - 1];
    }
  }

  /** The last interval, in the given order, that has started at `v`. */
  function LastMatch(xs: seq<StepInterval>, v: int): (r: Option<StepInterval>)
    ensures r.Some? ==> r.value in xs && r.value.from <= v
    ensures r.None? ==> forall i :: 0 <= i < |xs| ==> xs[i].from > v
  {
    if |xs| == 0 then None
    else if xs[|xs| - 1].from <= v then Some(xs[|xs| - 1])
    else LastMatch(xs[..|xs| - 1], v)
  }

  /** The search finds the last interval that has started. */
  lemma {:induction false} LastMatchIsLast(xs: seq<StepInterval>, v: int, i: nat)
    requires i < |xs| && xs[i].from <= v
    requires forall k :: i < k < |xs| ==> xs[k].from > v
    ensures LastMatch(xs, v) == Some(xs[i])
    decreases |xs|
  {
    if i < |xs| - 1 {
      assert xs[|xs| - 1].from > v;
      LastMatchIsLast(xs[..|xs| - 1], v, i);
    }
  }

  /** Searching the reversed list front to back finds the last interval of the
      original list that has started. */
  lemma {:induction false} FirstOfReversed(xs: seq<StepInterval>, v: int)
    ensures FirstMatch(Reverse(xs), v) == LastMatch(xs, v)
    decreases |xs|
  {
    if |xs| > 0 {
      var front := xs[..|xs| - 1];
      assert Reverse(xs)[1..] == Reverse(front);
      FirstOfReversed(front, v);
    }
  }

  /** The increment `stepValues` applies at `index`: that of the first
      interval of the reversed list that has started, else 1. */
  function Increment(intervals: seq<StepInterval>, index: int): int {
    match FirstMatch(Reverse(intervals), index)
    case Some(iv) => iv.increment
    case None => 1
  }

  /** Each step uses the increment of the last interval whose `from` is at
      most the current value, and 1 before the first interval starts. */
  lemma IncrementIsLastStarted(intervals: seq<StepInterval>, index: int)
    ensures LastMatch(intervals, index).Some? ==> Increment(intervals, index) == LastMatch(intervals, index).value.increment
    ensures LastMatch(intervals, index).None? ==> Increment(intervals, index) == 1
  {
    FirstOfReversed(intervals, index);
  }

  /** Every interval that can apply below `upper` moves forward; otherwise
      the loop of `stepValues` would not end. */
  predicate Advancing(intervals: seq<StepInterval>, upper: int) {
    forall i :: 0 <= i < |intervals| && intervals[i].from < upper ==> intervals[i].increment > 0
  }

  lemma IncrementPositive(intervals: seq<StepInterval>, index: int, upper: int)
    requires Advancing(intervals, upper) && index < upper
    ensures Increment(intervals, index) > 0
  {
    FirstOfReversed(intervals, index);
    var m := LastMatch(intervals, index);
    if m.Some? {
      var i :| 0 <= i < |intervals| && intervals[i] == m.value;
    }
  }

  /** The values the loop of `stepValues` appends after reaching `index`. */
  function StepsAfter(index: int, lower: int, upper: int, intervals: seq<StepInterval>): (r: seq<int>)
    requires Advancing(intervals, upper)
    ensures forall i :: 0 <= i < |r| ==> index < r[i] < upper && lower < r[i]
    ensures Increasing(r)
    decreases upper - index
  {
    if index >= upper then []
    else
      IncrementPositive(intervals, index, upper);
      var next := index + Increment(intervals, index);
      (if lower < next < upper then [next] else []) + StepsAfter(next, lower, upper, intervals)
  }

  /** `stepValues(with:)` on `lower...upper`. */
  function StepValues(lower: int, upper: int, intervals: seq<StepInterval>): (r: seq<int>)
    requires lower <= upper && Advancing(intervals, upper)
    ensures |r| >= 2 && r[0] == lower && r[|r| - 1] == upper
    ensures forall i :: 0 < i < |r| - 1 ==> lower < r[i] < upper
    ensures lower < upper ==> Increasing(r)
  {
    [lower] + StepsAfter(lower, lower, upper, intervals) + [upper]
  }

  /** The loop of `stepValues(with:)`, statement by statement. */
  method ComputeStepValues(lower: int, upper: int, intervals: seq<StepInterval>) returns (values: seq<int>)
    requires lower <= upper && Advancing(intervals, upper)
    ensures values == StepValues(lower, upper, intervals)
  {
    var reversed := Reverse(intervals);
    var index := lower;
    values := [index];
    while index < upper
      invariant lower <= index
      invariant values + StepsAfter(index, lower, upper, intervals) == [lower] + StepsAfter(lower, lower, upper, intervals)
      decreases upper - index
    {
      IncrementPositive(intervals, index, upper);
      ghost var before := index;
      var found := FirstMatch(reversed, index);
      if found.Some? {
        index := index + found.value.increment;
      } else {
        index := index + 1;
      }
      assert index == before + Increment(intervals, before);
      assert StepsAfter(before, lower, upper, intervals) ==
             (if lower < index < upper then [index] else []) + StepsAfter(index, lower, upper, intervals);
      if index > lower && index < upper {
        values := values + [index];
      }
    }
    values := values + [upper];
  }

  /** Can the kind be laid out on `min...max`: increments that would be used
      must be positive. */
  predicate ValidKind(min: int, max: int, kind: ValueKind) {
    match kind
    case Incremented(inc) => min < max ==> inc > 0
    case Steps(_) => true
    case Intervals(ivs) => Advancing(ivs, max)
  }

  /** `init(minimumValue:maximumValue:valueKind:...)`. */
  function MakeConfig(min: int, max: int, kind: ValueKind, lowerOffset: bool, upperOffset: bool): (c: Config)
    requires min <= max && ValidKind(min, max, kind)
    ensures c.minimumValue == min && c.maximumValue == max
    ensures c.hasLowerBoundOffset == lowerOffset && c.hasUpperBoundOffset == upperOffset
    ensures c.isIncremented <==> kind.Incremented?
    ensures kind.Steps? ==> c.values == [min] + kind.steps + [max]
    ensures !kind.Steps? ==> |c.values| >= 2 && c.values[0] == min && c.values[|c.values| - 1] == max
    ensures !kind.Steps? && min < max ==> Increasing(c.values)
  {
    match kind
    case Incremented(inc) =>
      Config(min, max, lowerOffset, upperOffset, StepValues(min, max, [StepInterval(min, inc)]), true)
    case Steps(vs) =>
      Config(min, max, lowerOffset, upperOffset, [min] + vs + [max], false)
    case Intervals(ivs) =>
      Config(min, max, lowerOffset, upperOffset, StepValues(min, max, ivs), false)
  }

  /** An incremented configuration steps by the increment from the minimum. */
  lemma IncrementedSteps(min: int, max: int, inc: int, lowerOffset: bool, upperOffset: bool)
    requires min < max && inc > 0
    ensures var c := MakeConfig(min, max, Incremented(inc), lowerOffset, upperOffset);
      min + inc < max ==> c.values[1] == min + inc
  {
    var ivs := [StepInterval(min, inc)];
    IncrementIsLastStarted(ivs, min);
  }

  /** Insert `x` into a strictly increasing list unless it is already there. */
  function InsertSorted(x: int, xs: seq<int>): (r: seq<int>)
    requires Increasing(xs)
    ensures Increasing(r)
    ensures forall y :: y in r <==> y == x || y in xs
  {
    if |xs| == 0 then [x]
    else if x < xs[0] then
      assert forall y :: y in xs ==> x < y;
      ConsIncreasing(x, xs);
      [x] + xs
    else if x == xs[0] then xs
    else
      assert forall i :: 0 <= i < |xs| - 1 ==> xs[1..][i] == xs[i + 1];
      var rest := InsertSorted(x, xs[1..]);
      assert forall y :: y in xs[1..] ==> xs[0] < y;
      ConsIncreasing(xs[0], rest);
      [xs[0]] + rest
  }

  /** A head below every element of an increasing list keeps it increasing. */
  lemma ConsIncreasing(h: int, t: seq<int>)
    requires Increasing(t)
    requires forall y :: y in t ==> h < y
    ensures Increasing([h] + t)
  {
    var r := [h] + t;
    forall i, j | 0 <= i < j < |r|
      ensures r[i] < r[j]
    {
      assert r[j] == t[j - 1] && t[j - 1] in t;
      if i > 0 {
        assert r[i] == t[i - 1];
      }
    }
  }

  /** `Array(Set(xs)).sorted(by: <)`: the distinct elements in ascending order. */
  function SortedUnique(xs: seq<int>): (r: seq<int>)
    ensures Increasing(r)
    ensures forall y :: y in r <==> y in xs
  {
    if |xs| == 0 then [] else InsertSorted(xs[0], SortedUnique(xs[1..]))
  }

  /** `referenceValues`: first, last and a middle value, sorted and without
      duplicates. Incremented configurations take the midpoint of first and
      last (rounded toward zero); the others take the centre element of
      `values` when it is an interior one. */
  function ReferenceValues(c: Config): (r: seq<int>)
    ensures |c.values| == 0 ==> r == []
    ensures Increasing(r)
    ensures |c.values| > 0 ==> c.values[0] in r && c.values[|c.values| - 1] in r
    ensures |c.values| > 0 && c.isIncremented ==>
      var first := c.values[0];
      var last := c.values[|c.values| - 1];
      forall y :: y in r <==> y == first || y == first + TruncDiv(last - first, 2) || y == last
    ensures |c.values| > 0 && !c.isIncremented ==>
      var n := |c.values|;
      forall y :: y in r <==> y == c.values[0] || y == c.values[n - 1] || (0 < n / 2 < n - 1 && y == c.values[n / 2])
  {
    if |c.values| == 0 then []
    else
      var first := c.values[0];
      var last := c.values[|c.values| - 1];
      if c.isIncremented then SortedUnique([first, first + TruncDiv(last - first, 2), last])
      else
        var center := |c.values| / 2;
        SortedUnique([first, last] + (if center > 0 && center < |c.values| - 1 then [c.values[center]] else []))
  }

  /** `value(for:)`: the bounds map to the minimum and maximum when the slider
      has no offset there; everything else is looked up in `values` by
      `lookup`, a library routine that is not part of this model. */
  function ValueFor(c: Config, step: Step, lookup: (seq<int>, Step) -> Option<int>): (r: Option<int>)
    ensures step == LowerBound && !c.hasLowerBoundOffset ==> r == Some(c.minimumValue)
    ensures step == UpperBound && !c.hasUpperBoundOffset ==> r == Some(c.maximumValue)
    ensures step.StepValue? ==> r == lookup(c.values, step)
    ensures step == LowerBound && c.hasLowerBoundOffset ==> r == lookup(c.values, step)
    ensures step == UpperBound && c.hasUpperBoundOffset ==> r == lookup(c.values, step)
    ensures (forall st :: lookup(c.values, st).Some? ==> lookup(c.values, st).value in c.values)
              ==> r.Some? ==> r.value in c.values || r.value == c.minimumValue || r.value == c.maximumValue
  {
    if !c.hasLowerBoundOffset && step == LowerBound then Some(c.minimumValue)
    else if !c.hasUpperBoundOffset && step == UpperBound then Some(c.maximumValue)
    else lookup(c.values, step)
  }
}
