/** The integer arithmetic of the range slider in Sources/RangeFilter:
    `SteppedSlider`, the two-thumb `RangeSliderView` and the clamping done by
    `RangeFilterView`. A slider's position is the integer the source obtains by
    converting the `UISlider` value with `RangeValue(value)`. */
module SteppedSlider {
  import opened Wrappers
  import opened Arith

  /** A `ClosedRange<Int>`; building one with lower > upper traps. */
  datatype SliderRange = SliderRange(lower: int, upper: int)
  {
    predicate Valid() { lower <= upper }
    predicate Contains(v: int) { lower <= v <= upper }
    function Width(): int { upper - lower }
  }

  /** `effectiveRange(from:with:and:)`: the range widened by the two offsets. */
  function EffectiveRange(range: SliderRange, lowerOffset: int, upperOffset: int): (r: SliderRange)
    requires range.lower - lowerOffset <= range.upper + upperOffset
    ensures r.Valid()
    ensures r.Width() == range.Width() + lowerOffset + upperOffset
    ensures lowerOffset >= 0 && upperOffset >= 0 ==>
      forall v :: range.Contains(v) ==> r.Contains(v)
  {
    SliderRange(range.lower - lowerOffset, range.upper + upperOffset)
  }

  /** `normalizedRangeStartingFromZero`: a range that never starts below 0. */
  function NormalizedRange(effective: SliderRange): (r: SliderRange)
    ensures r.lower >= 0
    ensures r.Width() == effective.Width()
    ensures r == effective <==> effective.lower >= 0
  {
    if effective.lower >= 0 then effective
    else SliderRange(0, effective.upper + Abs(effective.lower))
  }

  /** `translateValueFromNormalizedRangeStartingFromZeroValue`. */
  function TranslateFrom(effective: SliderRange, v: int): int
  {
    if effective == NormalizedRange(effective) then v else v - Abs(effective.lower)
  }

  /** `translateValueToNormalizedRangeStartingFromZeroValue`. */
  function TranslateTo(effective: SliderRange, v: int): int
  {
    if effective == NormalizedRange(effective) then v else v + Abs(effective.lower)
  }

  /** The two translations are inverse to each other. */
  lemma TranslateRoundTrip(effective: SliderRange, v: int)
    ensures TranslateFrom(effective, TranslateTo(effective, v)) == v
    ensures TranslateTo(effective, TranslateFrom(effective, v)) == v
  {
  }

  /** Translating to the normalised range maps the effective range onto it,
      bound for bound, and keeps the order of values. */
  lemma TranslateMapsBounds(effective: SliderRange, v: int, w: int)
    ensures TranslateTo(effective, effective.lower) == NormalizedRange(effective).lower
    ensures TranslateTo(effective, effective.upper) == NormalizedRange(effective).upper
    ensures TranslateTo(effective, w) - TranslateTo(effective, v) == w - v
  {
  }

  /** `stepIncrement` (and `accessibilityStepIncrement` with the accessibility
      step count): the effective width divided by the step count, truncated.
      A zero step count traps. */
  function StepIncrement(effective: SliderRange, steps: int): (inc: int)
    requires steps != 0
    ensures effective.Valid() && steps > 0 ==> 0 <= inc <= effective.Width()
    ensures effective.Valid() && steps > 0 ==> (inc > 0 <==> steps <= effective.Width())
  {
    var w := effective.Width();
    if w >= 0 && steps > 0 then
      TruncDivNatural(w, steps);
      NatDivBounds(w, steps);
      TruncDiv(w, steps)
    else
      TruncDiv(w, steps)
  }

  /** `accessibilitySteps`: the override when there is one, else `steps`. */
  function AccessibilitySteps(override: Option<int>, steps: int): (r: int)
    ensures override.None? ==> r == steps
    ensures override.Some? ==> r == override.value
  {
    override.GetOr(steps)
  }

  /** `roundedStepValue(fromValue:)`: the value rounded toward zero to a
      multiple of the increment. A zero increment (more steps than the width)
      traps. */
  function RoundedStepValue(v: int, inc: int): (r: int)
    requires inc != 0
    ensures Abs(r) <= Abs(v)
    ensures v >= 0 ==> 0 <= r <= v < r + Abs(inc)
    ensures v < 0 ==> r - Abs(inc) < v <= r <= 0
  {
    TruncDivBounds(v, inc);
    TruncDiv(v, inc) * inc
  }

  /** Multiples of the increment are exactly the fixed points of rounding. */
  lemma RoundedFixedPoints(k: int, inc: int)
    requires inc != 0
    ensures RoundedStepValue(k * inc, inc) == k * inc
  {
    TruncDivOfMultiple(k, inc);
  }

  /** Rounding is idempotent. */
  lemma RoundedIdempotent(v: int, inc: int)
    requires inc != 0
    ensures RoundedStepValue(RoundedStepValue(v, inc), inc) == RoundedStepValue(v, inc)
  {
    RoundedFixedPoints(TruncDiv(v, inc), inc);
  }

  /** One `SteppedSlider`: its configured and effective ranges, its step
      count, its current position and the last rounded value it reported. */
  datatype Slider = Slider(
    range: SliderRange,
    effective: SliderRange,
    steps: int,
    position: int,
    previous: Option<int>,
    hapticFeedback: bool)
  {
    /** The slider's effective range is a closed range, as the initialiser
        builds it, and the slider can compute its rounded value without
        trapping. */
    predicate Steppable() {
      effective.Valid() && steps != 0 && StepIncrement(effective, steps) != 0
    }
  }

  /** `SteppedSlider.init`: the position starts at the normalised lower bound
      and nothing has been reported yet. */
  function MakeSlider(range: SliderRange, lowerOffset: int, upperOffset: int, steps: int): (s: Slider)
    requires range.lower - lowerOffset <= range.upper + upperOffset
    ensures s.effective == EffectiveRange(range, lowerOffset, upperOffset)
    ensures TranslateFrom(s.effective, s.position) == s.effective.lower
    ensures s.previous.None? && s.hapticFeedback
  {
    var effective := EffectiveRange(range, lowerOffset, upperOffset);
    Slider(range, effective, steps, NormalizedRange(effective).lower, None, true)
  }

  /** `x` lies a whole number of increments away from `anchor`. */
  predicate OnGrid(x: int, anchor: int, inc: int)
    requires inc != 0
  {
    (x - anchor) % inc == 0
  }

  /** `roundedStepValue`: the rounded position, translated back out of the
      normalised range. The values it gives lie on the grid of increments
      that starts at 0, or at the effective lower bound when that is
      negative; when the range does not start below 0 it is the rounded
      position itself. */
  function SliderValue(s: Slider): (r: int)
    requires s.Steppable()
    ensures s.effective.lower >= 0 ==> r == RoundedStepValue(s.position, StepIncrement(s.effective, s.steps))
    ensures s.effective.lower < 0 ==>
              r == s.effective.lower + RoundedStepValue(s.position, StepIncrement(s.effective, s.steps))
    ensures OnGrid(r, if s.effective.lower < 0 then s.effective.lower else 0, StepIncrement(s.effective, s.steps))
  {
    var inc := StepIncrement(s.effective, s.steps);
    ModOfMultiple(TruncDiv(s.position, inc), inc);
    TranslateFrom(s.effective, RoundedStepValue(s.position, inc))
  }

  /** `UISlider.setValue`: a value outside the slider's range is pinned to the
      nearer bound. */
  function ClampTo(range: SliderRange, v: int): (r: int)
    requires range.Valid()
    ensures range.Contains(r)
    ensures range.Contains(v) ==> r == v
    ensures v < range.lower ==> r == range.lower
    ensures v > range.upper ==> r == range.upper
  {
    if v < range.lower then range.lower else if v > range.upper then range.upper else v
  }

  /** `setValueForSlider(_:animated:)` as written: the value is rounded to a
      step in the effective range's own coordinates, translated into the
      normalised range, and pinned to it by `UISlider`. The position
      corresponds to the rounded value pinned to the effective range. */
  function SetValueForSlider(s: Slider, v: int): (r: Slider)
    requires s.Steppable()
    ensures r.Steppable()
    ensures r == s.(position := r.position)
    ensures NormalizedRange(s.effective).Contains(r.position)
    ensures TranslateFrom(s.effective, r.position)
            == ClampTo(s.effective, RoundedStepValue(v, StepIncrement(s.effective, s.steps)))
  {
    var rounded := RoundedStepValue(v, StepIncrement(s.effective, s.steps));
    s.(position := ClampTo(NormalizedRange(s.effective), TranslateTo(s.effective, rounded)))
  }

  /** Two non-negative values whose larger one rounds to at most the smaller
      one round alike. */
  lemma RoundedSandwich(a: int, b: int, inc: int)
    requires inc != 0 && 0 <= a <= b && RoundedStepValue(b, inc) <= a
    ensures RoundedStepValue(a, inc) == RoundedStepValue(b, inc)
  {
    var m := Abs(inc);
    var qa, qb := a / m, b / m;
    assert RoundedStepValue(a, inc) == qa * m by {
      TruncDivTimes(a, inc);
    }
    assert RoundedStepValue(b, inc) == qb * m by {
      TruncDivTimes(b, inc);
    }
    EuclidNat(a, m);
    EuclidNat(b, m);
    assert qa * m - qb * m == (qa - qb) * m;
    SmallMultipleIsZero(qa - qb, m);
  }

  /** When the effective range does not go below 0, setting a value inside
      it and reading it back gives the value rounded to a step. */
  lemma SetValueThenValue(s: Slider, v: int)
    requires s.Steppable() && s.effective.lower >= 0 && s.effective.Contains(v)
    ensures SliderValue(SetValueForSlider(s, v)) == RoundedStepValue(v, StepIncrement(s.effective, s.steps))
  {
    var inc := StepIncrement(s.effective, s.steps);
    RoundedIdempotent(v, inc);
    if RoundedStepValue(v, inc) < s.effective.lower {
      RoundedSandwich(s.effective.lower, v, inc);
    }
  }

  /** As written, the setter rounds in the effective range's coordinates and
      the getter in the normalised ones, and these disagree once the
      effective range starts below 0 at a distance that is no multiple of
      the increment. Over [-3, 17] with 4 steps (increment 5) the slider at
      position 5 shows 2; setting it to the 2 it shows moves it to show -3,
      and setting it to 5 puts it at position 8, which shows 2. */
  lemma SetValueAsWrittenMoves()
    ensures var s := Slider(SliderRange(-3, 17), SliderRange(-3, 17), 4, 5, None, true);
      && s.Steppable()
      && SliderValue(s) == 2
      && SliderValue(SetValueForSlider(s, 2)) == -3
      && SetValueForSlider(s, 5).position == 8
      && SliderValue(SetValueForSlider(s, 5)) == 2
  {
    var s := Slider(SliderRange(-3, 17), SliderRange(-3, 17), 4, 5, None, true);
    assert StepIncrement(s.effective, s.steps) == 5 by { TruncDivNatural(20, 4); }
    assert RoundedStepValue(5, 5) == 5 by { TruncDivNatural(5, 5); }
    assert RoundedStepValue(2, 5) == 0 by { TruncDivNatural(2, 5); }
    assert RoundedStepValue(3, 5) == 0 by { TruncDivNatural(3, 5); }
    assert RoundedStepValue(8, 5) == 5 by { TruncDivNatural(8, 5); }
  }

  /** The setter as evidently intended: translate the value into the
      normalised range first and round there, as the getter does, then let
      `UISlider` pin it to the range. */
  function SetValueForSliderCorrected(s: Slider, v: int): (r: Slider)
    requires s.Steppable()
    ensures r.Steppable()
    ensures r == s.(position := r.position)
    ensures NormalizedRange(s.effective).Contains(r.position)
  {
    var rounded := RoundedStepValue(TranslateTo(s.effective, v), StepIncrement(s.effective, s.steps));
    s.(position := ClampTo(NormalizedRange(s.effective), rounded))
  }

  /** With the corrected setter, setting the slider to the value it shows
      leaves it showing that value, whatever the sign of the lower bound. */
  lemma CorrectedKeepsShownValue(s: Slider)
    requires s.Steppable()
    requires NormalizedRange(s.effective).Contains(RoundedStepValue(s.position, StepIncrement(s.effective, s.steps)))
    ensures SliderValue(SetValueForSliderCorrected(s, SliderValue(s))) == SliderValue(s)
  {
    var inc := StepIncrement(s.effective, s.steps);
    TranslateRoundTrip(s.effective, RoundedStepValue(s.position, inc));
    RoundedIdempotent(s.position, inc);
  }

  /** With the corrected setter, a value inside an effective range that
      starts at or below 0 reads back snapped down to the nearest grid value
      at or above the lower bound: on the grid, within one increment below
      the value. */
  lemma CorrectedSetValueThenValue(s: Slider, v: int)
    requires s.Steppable() && s.effective.lower <= 0 && s.effective.Contains(v)
    ensures var w := SliderValue(SetValueForSliderCorrected(s, v));
      var inc := StepIncrement(s.effective, s.steps);
      && s.effective.lower <= w <= v < w + Abs(inc)
      && OnGrid(w, s.effective.lower, inc)
  {
    var inc := StepIncrement(s.effective, s.steps);
    var t := TranslateTo(s.effective, v);
    assert 0 <= t;
    RoundedIdempotent(t, inc);
  }

  /** What `sliderValueChanged(sender:)` did: the new slider state, how many
      times the rounded-value handler was called, and whether haptic
      feedback was generated. */
  datatype Change = Change(slider: Slider, handlerCalls: nat, feedback: bool)

  /** `sliderValueChanged(sender:)` for a slider moved to `position`: the
      rounded position is remembered and set as the slider's value, which
      `UISlider` pins to its range. The handler is invoked (twice, as
      written) only when an earlier rounded value exists and differs from
      the new one. */
  function SliderValueChanged(s: Slider, position: int): (c: Change)
    requires s.Steppable()
    ensures c.slider.Steppable()
    ensures c.slider.previous == Some(RoundedStepValue(position, StepIncrement(s.effective, s.steps)))
    ensures c.slider.position == ClampTo(NormalizedRange(s.effective), c.slider.previous.value)
    ensures NormalizedRange(s.effective).Contains(c.slider.previous.value) ==> c.slider.position == c.slider.previous.value
    ensures c.slider == s.(position := c.slider.position, previous := c.slider.previous)
    ensures c.handlerCalls > 0 <==> s.previous.Some? && s.previous != c.slider.previous
    ensures c.handlerCalls == 0 || c.handlerCalls == 2
    ensures c.feedback ==> c.handlerCalls > 0 && s.hapticFeedback
  {
    var newValue := RoundedStepValue(position, StepIncrement(s.effective, s.steps));
    var next := s.(position := ClampTo(NormalizedRange(s.effective), newValue), previous := Some(newValue));
    if s.previous.Some? && s.previous.value != newValue then
      var translated := TranslateFrom(s.effective, newValue);
      var shouldFeedback := s.range.Contains(translated) || translated == s.effective.lower
                            || translated == s.effective.upper;
      Change(next, 2, s.hapticFeedback && shouldFeedback)
    else
      Change(next, 0, false)
  }

  /** Reporting the same position twice in a row calls the handler at most
      the first time. */
  lemma SliderValueChangedSettles(s: Slider, position: int)
    requires s.Steppable()
    ensures SliderValueChanged(SliderValueChanged(s, position).slider, position).handlerCalls == 0
  {
    var inc := StepIncrement(s.effective, s.steps);
    RoundedIdempotent(position, inc);
  }

  /** The first report never calls the handler. */
  lemma FirstChangeIsSilent(s: Slider, position: int)
    requires s.Steppable() && s.previous.None?
    ensures SliderValueChanged(s, position).handlerCalls == 0
  {
  }

  // ---------------------------------------------------------------------
  // RangeSliderView

  /** `RangeSliderView.init`: without a step count, one step per unit. */
  function DefaultSteps(range: SliderRange, steps: Option<int>): (r: int)
    ensures steps.None? ==> r == range.Width()
    ensures steps.Some? ==> r == steps.value
  {
    steps.GetOr(range.upper - range.lower)
  }

  /** Two sliders over the same range. */
  datatype RangeSlider = RangeSlider(lowSlider: Slider, highSlider: Slider)
  {
    predicate Valid() {
      lowSlider.Steppable() && highSlider.Steppable()
      && lowSlider.effective == highSlider.effective
      && lowSlider.steps == highSlider.steps
    }
  }

  function MakeRangeSlider(range: SliderRange, lowerOffset: int, upperOffset: int, steps: Option<int>): (r: RangeSlider)
    requires range.lower - lowerOffset <= range.upper + upperOffset
    ensures r.lowSlider == r.highSlider
    ensures r.lowSlider.steps == DefaultSteps(range, steps)
  {
    var s := MakeSlider(range, lowerOffset, upperOffset, DefaultSteps(range, steps));
    RangeSlider(s, s)
  }

  /** `lowValue`: the smaller of the two sliders' values. */
  function LowValue(rs: RangeSlider): (r: int)
    requires rs.Valid()
    ensures r == SliderValue(rs.lowSlider) || r == SliderValue(rs.highSlider)
    ensures r <= SliderValue(rs.lowSlider) && r <= SliderValue(rs.highSlider)
  {
    Min(SliderValue(rs.lowSlider), SliderValue(rs.highSlider))
  }

  /** `highValue`: the larger of the two sliders' values. */
  function HighValue(rs: RangeSlider): (r: int)
    requires rs.Valid()
    ensures r == SliderValue(rs.lowSlider) || r == SliderValue(rs.highSlider)
    ensures r >= SliderValue(rs.lowSlider) && r >= SliderValue(rs.highSlider)
  {
    Max(SliderValue(rs.lowSlider), SliderValue(rs.highSlider))
  }

  /** The low value never exceeds the high value, and together they are the
      two sliders' values. */
  lemma LowAtMostHigh(rs: RangeSlider)
    requires rs.Valid()
    ensures LowValue(rs) <= HighValue(rs)
    ensures multiset{LowValue(rs), HighValue(rs)} == multiset{SliderValue(rs.lowSlider), SliderValue(rs.highSlider)}
  {
  }

  datatype Which = LowSlider | HighSlider

  /** `lowestValueSlider`: the low slider wins a tie. */
  function LowestValueSlider(rs: RangeSlider): (w: Which)
    ensures w == LowSlider ==> rs.lowSlider.position <= rs.highSlider.position
    ensures w == HighSlider ==> rs.highSlider.position < rs.lowSlider.position
  {
    if rs.lowSlider.position <= rs.highSlider.position then LowSlider else HighSlider
  }

  /** `highestValueSlider`: the high slider wins a tie. */
  function HighestValueSlider(rs: RangeSlider): (w: Which)
    ensures w == HighSlider ==> rs.highSlider.position >= rs.lowSlider.position
    ensures w == LowSlider ==> rs.lowSlider.position > rs.highSlider.position
  {
    if rs.highSlider.position >= rs.lowSlider.position then HighSlider else LowSlider
  }

  /** The lowest and the highest slider are never the same one. */
  lemma LowestAndHighestDiffer(rs: RangeSlider)
    ensures LowestValueSlider(rs) != HighestValueSlider(rs)
  {
  }

  /** `after` differs from `before` only in the position of slider `w`,
      which now reads, in the effective range, the value `target` rounded to
      a step and pinned to the range. */
  predicate MovedTo(before: RangeSlider, after: RangeSlider, w: Which, target: int)
    requires before.Valid()
  {
    var eff := before.lowSlider.effective;
    var shown := ClampTo(eff, RoundedStepValue(target, StepIncrement(eff, before.lowSlider.steps)));
    match w
    case LowSlider =>
      after.highSlider == before.highSlider
      && after.lowSlider == before.lowSlider.(position := after.lowSlider.position)
      && TranslateFrom(eff, after.lowSlider.position) == shown
    case HighSlider =>
      after.lowSlider == before.lowSlider
      && after.highSlider == before.highSlider.(position := after.highSlider.position)
      && TranslateFrom(eff, after.highSlider.position) == shown
  }

  /** Moves slider `w` with the setter as written. */
  function Update(rs: RangeSlider, w: Which, v: int): (r: RangeSlider)
    requires rs.Valid()
    ensures r.Valid()
    ensures MovedTo(rs, r, w, v)
  {
    match w
    case LowSlider => rs.(lowSlider := SetValueForSlider(rs.lowSlider, v))
    case HighSlider => rs.(highSlider := SetValueForSlider(rs.highSlider, v))
  }

  /** `setLowValue(_:animated:)`: moves whichever slider is currently lowest;
      the other slider stays where it is. */
  function SetLowValue(rs: RangeSlider, v: int): (r: RangeSlider)
    requires rs.Valid()
    ensures r.Valid()
    ensures LowestValueSlider(rs) == LowSlider ==> r.highSlider == rs.highSlider
    ensures LowestValueSlider(rs) == HighSlider ==> r.lowSlider == rs.lowSlider
    ensures LowestValueSlider(rs) == LowSlider ==> r.lowSlider == SetValueForSlider(rs.lowSlider, v)
    ensures LowestValueSlider(rs) == HighSlider ==> r.highSlider == SetValueForSlider(rs.highSlider, v)
    ensures MovedTo(rs, r, LowestValueSlider(rs), v)
  {
    Update(rs, LowestValueSlider(rs), v)
  }

  /** `setHighValue(_:animated:)`: moves whichever slider is currently highest. */
  function SetHighValue(rs: RangeSlider, v: int): (r: RangeSlider)
    requires rs.Valid()
    ensures r.Valid()
    ensures HighestValueSlider(rs) == HighSlider ==> r.lowSlider == rs.lowSlider
    ensures HighestValueSlider(rs) == LowSlider ==> r.highSlider == rs.highSlider
    ensures HighestValueSlider(rs) == HighSlider ==> r.highSlider == SetValueForSlider(rs.highSlider, v)
    ensures HighestValueSlider(rs) == LowSlider ==> r.lowSlider == SetValueForSlider(rs.lowSlider, v)
    ensures MovedTo(rs, r, HighestValueSlider(rs), v)
  {
    Update(rs, HighestValueSlider(rs), v)
  }

  /** The range slider inherits the setter's rounding: over [-3, 17] in 4
      steps, a low slider at position 5 (showing 2) that is set to 2 moves
      to position 3 and shows -3, while the high slider stays. */
  lemma SetLowValueAsWrittenMoves()
    ensures var lo := Slider(SliderRange(-3, 17), SliderRange(-3, 17), 4, 5, None, true);
      var rs := RangeSlider(lo, lo.(position := 10));
      && rs.Valid()
      && LowestValueSlider(rs) == LowSlider
      && SliderValue(lo) == 2
      && SetLowValue(rs, 2).lowSlider.position == 3
      && SliderValue(SetLowValue(rs, 2).lowSlider) == -3
      && SetLowValue(rs, 2).highSlider == rs.highSlider
  {
    var lo := Slider(SliderRange(-3, 17), SliderRange(-3, 17), 4, 5, None, true);
    SetValueAsWrittenMoves();
    assert StepIncrement(lo.effective, lo.steps) == 5 by { TruncDivNatural(20, 4); }
    assert RoundedStepValue(2, 5) == 0 by { TruncDivNatural(2, 5); }
  }

  // ---------------------------------------------------------------------
  // RangeFilterView

  /** What the number input of one side shows: a value inside the range and
      a hint text. */
  datatype Display = Display(value: int, hint: string)

  /** `updateNumberInput(for:with:)`: the shown value is clamped into the
      range; "Under" and "Over" mark the effective bounds below and above it. */
  function NumberInputDisplay(range: SliderRange, effective: SliderRange, v: int): (d: Display)
    requires range.Valid()
    ensures range.Contains(d.value)
    ensures range.Contains(v) ==> d == Display(v, "")
    ensures v < range.lower ==> d.value == range.lower
    ensures v > range.upper ==> d.value == range.upper
    ensures d.hint == "Under" <==> v < range.lower && v == effective.lower
    ensures d.hint == "Over" <==> v > range.upper && v == effective.upper
    ensures d.hint == "" || d.hint == "Under" || d.hint == "Over"
  {
    if v < range.lower then
      Display(range.lower, if v == effective.lower then "Under" else "")
    else if v > range.upper then
      Display(range.upper, if v == effective.upper then "Over" else "")
    else
      Display(v, "")
  }

  /** The state of a `RangeFilterView`: the stored input values, the two
      number-input displays and the slider. */
  datatype FilterView = FilterView(
    range: SliderRange,
    effective: SliderRange,
    low: Option<int>,
    high: Option<int>,
    lowDisplay: Option<Display>,
    highDisplay: Option<Display>,
    slider: RangeSlider)
  {
    predicate Valid() { range.Valid() && slider.Valid() }
  }

  /** `updateSliderLowValue(with:)`. */
  function UpdateSliderLow(v: FilterView, value: int): (r: FilterView)
    requires v.Valid()
    ensures r.Valid() && r == v.(slider := r.slider)
    ensures MovedTo(v.slider, r.slider, LowestValueSlider(v.slider),
                    if value < v.range.lower then v.effective.lower else value)
  {
    var clamped := if value < v.range.lower then v.effective.lower else value;
    v.(slider := SetLowValue(v.slider, clamped))
  }

  /** `updateSliderHighValue(with:)`. */
  function UpdateSliderHigh(v: FilterView, value: int): (r: FilterView)
    requires v.Valid()
    ensures r.Valid() && r == v.(slider := r.slider)
    ensures MovedTo(v.slider, r.slider, HighestValueSlider(v.slider),
                    if value > v.range.upper then v.effective.upper else value)
  {
    var clamped := if value > v.range.upper then v.effective.upper else value;
    v.(slider := SetHighValue(v.slider, clamped))
  }

  /** `setLowValue(_:animated:)`: a value below the range is stored as the
      effective lower bound; any other value is stored unchanged. */
  function SetFilterLowValue(v: FilterView, value: int): (r: FilterView)
    requires v.Valid()
    ensures r.Valid()
    ensures r.low == Some(if value < v.range.lower then v.effective.lower else value)
    ensures r.high == v.high && r.highDisplay == v.highDisplay
    ensures r.lowDisplay == Some(NumberInputDisplay(v.range, v.effective, r.low.value))
    ensures MovedTo(v.slider, r.slider, LowestValueSlider(v.slider), r.low.value)
  {
    var stored := if value < v.range.lower then v.effective.lower else value;
    var shown := v.(lowDisplay := Some(NumberInputDisplay(v.range, v.effective, stored)));
    UpdateSliderLow(shown, stored).(low := Some(stored))
  }

  /** `setHighValue(_:animated:)`: a value above the range is stored as the
      effective upper bound; any other value is stored unchanged. */
  function SetFilterHighValue(v: FilterView, value: int): (r: FilterView)
    requires v.Valid()
    ensures r.Valid()
    ensures r.high == Some(if value > v.range.upper then v.effective.upper else value)
    ensures r.low == v.low && r.lowDisplay == v.lowDisplay
    ensures r.highDisplay == Some(NumberInputDisplay(v.range, v.effective, r.high.value))
    ensures MovedTo(v.slider, r.slider, HighestValueSlider(v.slider), r.high.value)
  {
    var stored := if value > v.range.upper then v.effective.upper else value;
    var shown := v.(highDisplay := Some(NumberInputDisplay(v.range, v.effective, stored)));
    UpdateSliderHigh(shown, stored).(high := Some(stored))
  }

  /** With a positive lower offset, a value below the range shows the lower
      bound with the hint "Under"; symmetrically for the upper side. */
  lemma OutOfRangeHints(v: FilterView, value: int, lowerOffset: int, upperOffset: int)
    requires v.Valid() && lowerOffset >= 0 && upperOffset >= 0
    requires v.effective == EffectiveRange(v.range, lowerOffset, upperOffset)
    ensures lowerOffset > 0 && value < v.range.lower ==>
      SetFilterLowValue(v, value).lowDisplay == Some(Display(v.range.lower, "Under"))
    ensures lowerOffset == 0 && value < v.range.lower ==>
      SetFilterLowValue(v, value).lowDisplay == Some(Display(v.range.lower, ""))
    ensures upperOffset > 0 && value > v.range.upper ==>
      SetFilterHighValue(v, value).highDisplay == Some(Display(v.range.upper, "Over"))
  {
    var lo := SetFilterLowValue(v, value);
    var hi := SetFilterHighValue(v, value);
    assert v.effective.lower == v.range.lower - lowerOffset && v.effective.upper == v.range.upper + upperOffset;
    if value < v.range.lower {
      var d := NumberInputDisplay(v.range, v.effective, v.effective.lower);
      assert lo.lowDisplay == Some(d);
      if lowerOffset == 0 {
        assert v.range.Contains(v.effective.lower);
        assert d == Display(v.range.lower, "");
      } else {
        assert d.value == v.range.lower && d.hint == "Under";
      }
    }
    if value > v.range.upper {
      var d := NumberInputDisplay(v.range, v.effective, v.effective.upper);
      assert hi.highDisplay == Some(d);
      if upperOffset > 0 {
        assert d.value == v.range.upper && d.hint == "Over";
      }
    }
  }

  /** `sliderInputValueChanged(_:)`: both stored values come from the slider,
      so the stored low value never exceeds the stored high value. */
  function SliderInputValueChanged(v: FilterView): (r: FilterView)
    requires v.Valid()
    ensures r.Valid() && r.slider == v.slider
    ensures r.low.Some? && r.high.Some? && r.low.value <= r.high.value
    ensures r.lowDisplay == Some(NumberInputDisplay(v.range, v.effective, r.low.value))
    ensures r.highDisplay == Some(NumberInputDisplay(v.range, v.effective, r.high.value))
  {
    var lo := LowValue(v.slider);
    var hi := HighValue(v.slider);
    v.(low := Some(lo), high := Some(hi),
       lowDisplay := Some(NumberInputDisplay(v.range, v.effective, lo)),
       highDisplay := Some(NumberInputDisplay(v.range, v.effective, hi)))
  }

  /** `numberInputValueChanged(_:)`: each side the number input reports is
      stored as typed, its hint cleared and the slider moved to it; a side it
      does not report keeps its stored value. */
  function NumberInputValueChanged(v: FilterView, inputLow: Option<int>, inputHigh: Option<int>): (r: FilterView)
    requires v.Valid()
    ensures r.Valid()
    ensures r.low == (if inputLow.Some? then inputLow else v.low)
    ensures r.high == (if inputHigh.Some? then inputHigh else v.high)
    ensures inputLow.Some? ==> r.lowDisplay == Some(Display(inputLow.value, ""))
    ensures inputHigh.Some? ==> r.highDisplay == Some(Display(inputHigh.value, ""))
    ensures inputLow.None? && inputHigh.None? ==> r == v
    ensures inputLow.Some? && inputHigh.None? ==>
      MovedTo(v.slider, r.slider, LowestValueSlider(v.slider),
              if inputLow.value < v.range.lower then v.effective.lower else inputLow.value)
    ensures inputLow.None? && inputHigh.Some? ==>
      MovedTo(v.slider, r.slider, HighestValueSlider(v.slider),
              if inputHigh.value > v.range.upper then v.effective.upper else inputHigh.value)
    ensures inputLow.Some? && inputHigh.Some? ==>
      var mid := UpdateSliderLow(v, inputLow.value).slider;
      MovedTo(v.slider, mid, LowestValueSlider(v.slider),
              if inputLow.value < v.range.lower then v.effective.lower else inputLow.value)
      && MovedTo(mid, r.slider, HighestValueSlider(mid),
                 if inputHigh.value > v.range.upper then v.effective.upper else inputHigh.value)
  {
    var afterLow :=
      if inputLow.Some? then
        UpdateSliderLow(v, inputLow.value).(lowDisplay := Some(Display(inputLow.value, "")), low := inputLow)
      else v;
    if inputHigh.Some? then
      UpdateSliderHigh(afterLow, inputHigh.value).(highDisplay := Some(Display(inputHigh.value, "")), high := inputHigh)
    else afterLow
  }
}
