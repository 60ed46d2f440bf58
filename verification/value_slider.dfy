/** The closest-step search of the map radius slider,
    Sources/MapFilter/ValueSliderControl.swift. Step values are integers. */
module ValueSlider {
  import opened Wrappers
  import opened Arith

  predicate Ascending(xs: seq<int>) {
    forall i, j :: 0 <= i < j < |xs| ==> xs[i] <= xs[j]
  }

  /** Index of the first step at or above the value. */
  function HigherOrEqual(range: seq<int>, value: int): (r: Option<nat>)
    ensures r.Some? ==> r.value < |range| && range[r.value] >= value
    ensures r.Some? ==> forall j :: 0 <= j < r.value ==> range[j] < value
    ensures r.None? ==> forall j :: 0 <= j < |range| ==> range[j] < value
  {
    FirstIndex(range, (x: int) => x >= value)
  }

  /** `findClosestStepInRange(with:)` as written. The difference to the lower
      neighbour is signed, so in an ascending range it is always negative and
      always "smaller" than the difference to the higher step. */
  function FindClosestStep(range: seq<int>, value: int): (r: Option<int>)
    ensures r.None? <==> |range| == 0
    ensures r.Some? ==> r.value in range
    ensures |range| > 0 && (forall j :: 0 <= j < |range| ==> range[j] < value) ==> r == Some(range[|range| - 1])
    ensures Ascending(range) && value in range ==> r == Some(value)
    ensures |range| > 0 && value < range[0] ==> r == Some(range[0])
  {
    if |range| == 0 then None
    else match HigherOrEqual(range, value)
      case None => Some(range[|range| - 1])
      case Some(i) =>
        var higher := range[i];
        var diffToHigher := higher - value;
        if diffToHigher == 0 then Some(higher)
        else if i >= 1 then
          var lower := range[i - 1];
          var diffToLower := lower - value;
          if diffToLower < diffToHigher then Some(lower) else Some(higher)
        else Some(range[0])
  }

  /** In an ascending range, a value strictly between two neighbouring steps
      always yields the lower one, however close the higher one is. */
  lemma BetweenStepsGivesLower(range: seq<int>, value: int, i: nat)
    requires Ascending(range) && 1 <= i < |range|
    requires range[i - 1] < value < range[i]
    ensures FindClosestStep(range, value) == Some(range[i - 1])
  {
  }

  /** The discrepancy: for steps 0 and 10 and value 9 the search picks 0,
      nine away, instead of 10, one away. */
  lemma ClosestStepAsWrittenMisses()
    ensures FindClosestStep([0, 10], 9) == Some(0)
    ensures Abs(10 - 9) < Abs(0 - 9)
  {
    BetweenStepsGivesLower([0, 10], 9, 1);
  }

  /** The search as evidently intended: compare distances. On a tie the
      higher step wins, as in the source. */
  function FindClosestStepCorrected(range: seq<int>, value: int): (r: Option<int>)
    ensures r.None? <==> |range| == 0
    ensures r.Some? ==> r.value in range
    ensures Ascending(range) && value in range ==> r == Some(value)
  {
    if |range| == 0 then None
    else match HigherOrEqual(range, value)
      case None => Some(range[|range| - 1])
      case Some(i) =>
        var diffToHigher := range[i] - value;
        if diffToHigher == 0 then Some(range[i])
        else if i >= 1 then
          var diffToLower := value - range[i - 1];
          if diffToLower < diffToHigher then Some(range[i - 1]) else Some(range[i])
        else Some(range[0])
  }

  /** In an ascending range the corrected search returns a step at least as
      close to the value as every other step. */
  lemma CorrectedIsClosest(range: seq<int>, value: int)
    requires Ascending(range) && |range| > 0
    ensures forall x :: x in range ==> Abs(FindClosestStepCorrected(range, value).value - value) <= Abs(x - value)
  {
    var r := FindClosestStepCorrected(range, value).value;
    forall x | x in range ensures Abs(r - value) <= Abs(x - value) {
      var j :| 0 <= j < |range| && range[j] == x;
      match HigherOrEqual(range, value)
      case None =>
        assert range[j] <= range[|range| - 1];
      case Some(i) =>
        if range[i] == value {
        } else if i >= 1 {
          if j < i {
            assert range[j] <= range[i - 1];
          } else {
            assert range[i] <= range[j];
          }
        } else {
          assert range[0] <= range[j];
        }
    }
  }
}
