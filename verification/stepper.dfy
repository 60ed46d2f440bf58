/** The stepper controls: Sources/Charcoal/Filters/Stepper/StepperFilterView.swift
    (a counter moving by one between a minimum and a maximum) and the older
    Sources/StepperFilter/StepperFilterView.swift (moving by a step size). */
module Stepper {
  import opened Text
  import opened Arith

  datatype ButtonType = Minus | Plus

  /** The label: the localised "all" text, or "<value>+ <unit>". */
  datatype Label = AllLabel | CountLabel(text: string)

  /** A Charcoal stepper. A button is active when it is tinted and reacts to
      touches; `activateButton` and `deactivateButton` always set both. */
  datatype View = View(
    minimumValue: int,
    maximumValue: int,
    unit: string,
    value: int,
    caption: Label,
    minusActive: bool,
    plusActive: bool)

  function CountText(v: int, unit: string): string {
    IntToString(v) + "+ " + unit
  }

  /** `setText(withValue:)`: "all" at or below the minimum. */
  function SetText(v: View, value: int): (r: View)
    ensures r == v.(caption := r.caption)
    ensures r.caption == AllLabel <==> value <= v.minimumValue
    ensures r.caption.CountLabel? ==> r.caption.text == CountText(value, v.unit)
  {
    v.(caption := if value > v.minimumValue then CountLabel(CountText(value, v.unit)) else AllLabel)
  }

  /** `updateButtons(forValue:)` as written: at the minimum only the minus
      button is touched (deactivated), at the maximum only the plus button,
      and in between both are activated. */
  function UpdateButtons(v: View, value: int): (r: View)
    ensures r == v.(minusActive := r.minusActive, plusActive := r.plusActive)
    ensures value == v.minimumValue ==> !r.minusActive && r.plusActive == v.plusActive
    ensures value != v.minimumValue && value == v.maximumValue ==> !r.plusActive && r.minusActive == v.minusActive
    ensures value != v.minimumValue && value != v.maximumValue ==> r.minusActive && r.plusActive
  {
    if value == v.minimumValue then v.(minusActive := false)
    else if value == v.maximumValue then v.(plusActive := false)
    else v.(minusActive := true, plusActive := true)
  }

  /** `updateButtons(forValue:)` as evidently intended: each button is
      active exactly when pressing it can change the value. */
  function UpdateButtonsCorrected(v: View, value: int): (r: View)
    ensures r == v.(minusActive := r.minusActive, plusActive := r.plusActive)
    ensures r.minusActive <==> value > v.minimumValue
    ensures r.plusActive <==> value < v.maximumValue
  {
    v.(minusActive := value > v.minimumValue, plusActive := value < v.maximumValue)
  }

  /** `init(minimumValue:maximumValue:unit:)`: the value starts at the
      minimum; both buttons start active before the first update. */
  function Init(minimumValue: int, maximumValue: int, unit: string): (v: View)
    ensures v.value == minimumValue && v.caption == AllLabel
    ensures !v.minusActive && v.plusActive
  {
    var initial := View(minimumValue, maximumValue, unit, minimumValue, AllLabel, true, true);
    UpdateButtons(SetText(initial, minimumValue), minimumValue)
  }

  /** The same start with the corrected button update. */
  function InitCorrected(minimumValue: int, maximumValue: int, unit: string): (v: View)
    ensures v.value == minimumValue
    ensures ButtonsMatch(v)
  {
    var initial := View(minimumValue, maximumValue, unit, minimumValue, AllLabel, true, true);
    UpdateButtonsCorrected(SetText(initial, minimumValue), minimumValue)
  }

  /** The intended button state: minus usable above the minimum, plus below
      the maximum. */
  predicate ButtonsMatch(v: View) {
    (v.minusActive <==> v.value > v.minimumValue) && (v.plusActive <==> v.value < v.maximumValue)
  }

  /** The value the pressed button asks for, clamped to the bounds. */
  function Target(v: View, button: ButtonType): (r: int)
    ensures button == Minus ==> r == Max(v.minimumValue, v.value - 1)
    ensures button == Plus ==> r == Min(v.maximumValue, v.value + 1)
    ensures v.minimumValue <= v.value <= v.maximumValue ==>
              v.minimumValue <= r <= v.maximumValue && -1 <= r - v.value <= 1
    ensures v.minimumValue <= v.value <= v.maximumValue ==>
              (button == Minus ==> r <= v.value) && (button == Plus ==> r >= v.value)
    ensures v.minimumValue <= v.value <= v.maximumValue ==>
              (r == v.value <==> (button == Minus && v.value == v.minimumValue)
                                 || (button == Plus && v.value == v.maximumValue))
  {
    match button
    case Minus => Max(v.minimumValue, v.value - 1)
    case Plus => Min(v.maximumValue, v.value + 1)
  }

  /** `handleButtonPressed(with:)` and `sendActionIfNeeded(forValue:)`:
      nothing happens when the clamped value equals the current one;
      otherwise the view is updated and a value-changed action is sent. */
  function HandleButtonPressed(v: View, button: ButtonType): (r: (View, bool))
    ensures r.1 <==> r.0.value != v.value
    ensures !r.1 ==> r.0 == v
    ensures r.1 ==> r.0 == UpdateButtons(SetText(v, Target(v, button)), Target(v, button)).(value := Target(v, button))
    ensures v.minimumValue <= v.value <= v.maximumValue ==> v.minimumValue <= r.0.value <= v.maximumValue
    ensures button == Minus && v.value == v.minimumValue ==> !r.1
    ensures button == Plus && v.value == v.maximumValue ==> !r.1
  {
    var newValue := Target(v, button);
    if newValue == v.value then (v, false)
    else (UpdateButtons(SetText(v, newValue), newValue).(value := newValue), true)
  }

  /** The same press with the corrected button update. */
  function HandleButtonPressedCorrected(v: View, button: ButtonType): (r: (View, bool))
    ensures r.1 <==> r.0.value != v.value
    ensures ButtonsMatch(v) ==> ButtonsMatch(r.0)
    ensures v.minimumValue <= v.value <= v.maximumValue ==> v.minimumValue <= r.0.value <= v.maximumValue
  {
    var newValue := Target(v, button);
    if newValue == v.value then (v, false)
    else (UpdateButtonsCorrected(SetText(v, newValue), newValue).(value := newValue), true)
  }

  /** As written, the minus button can stay inactive above the minimum: with
      minimum 0 and maximum 1, one press on plus leaves both buttons
      inactive at value 1, so the value can no longer be lowered. */
  lemma ButtonsStuckAsWritten()
    ensures var v := HandleButtonPressed(Init(0, 1, "rom"), Plus).0;
      v.value == 1 && !v.minusActive && !v.plusActive && !ButtonsMatch(v)
  {
  }

  /** With the corrected update, any sequence of presses from the start keeps
      the buttons in step with the value. */
  lemma {:induction false} CorrectedPressesKeepButtons(minimumValue: int, maximumValue: int, unit: string, presses: seq<ButtonType>)
    ensures ButtonsMatch(PressAllCorrected(InitCorrected(minimumValue, maximumValue, unit), presses))
  {
    PressAllCorrectedKeeps(InitCorrected(minimumValue, maximumValue, unit), presses);
  }

  function PressAllCorrected(v: View, presses: seq<ButtonType>): View
    decreases |presses|
  {
    if |presses| == 0 then v
    else PressAllCorrected(HandleButtonPressedCorrected(v, presses[0]).0, presses[1..])
  }

  lemma {:induction false} PressAllCorrectedKeeps(v: View, presses: seq<ButtonType>)
    requires ButtonsMatch(v)
    ensures ButtonsMatch(PressAllCorrected(v, presses))
    decreases |presses|
  {
    if |presses| > 0 {
      PressAllCorrectedKeeps(HandleButtonPressedCorrected(v, presses[0]).0, presses[1..]);
    }
  }

  // ---------------------------------------------------------------------
  // The older stepper, Sources/StepperFilter/StepperFilterView.swift

  /** Tint and touch handling of a button; only the initial minus button has
      them disagree (inactive tint, still touchable). */
  datatype Button = Button(tinted: bool, enabled: bool)

  datatype StepView = StepView(
    lowerLimit: int,
    upperLimit: int,
    steps: int,
    unit: string,
    value: int,
    text: string,
    minus: Button,
    plus: Button)

  /** `init(filterInfo:)`: the value starts at 1 whatever the limits. */
  function StepInit(lowerLimit: int, upperLimit: int, steps: int, unit: string): (v: StepView)
    ensures v.value == 1 && v.text == CountText(1, unit)
    ensures v.minus == Button(false, true) && v.plus == Button(true, true)
  {
    StepView(lowerLimit, upperLimit, steps, unit, 1, CountText(1, unit), Button(false, true), Button(true, true))
  }

  /** `updateButtons(forValue:)` of the older view, with the same shape as
      the Charcoal one. */
  function StepUpdateButtons(v: StepView, value: int): (r: StepView)
    ensures r == v.(minus := r.minus, plus := r.plus)
    ensures value == v.lowerLimit ==> r.minus == Button(false, false) && r.plus == v.plus
    ensures value != v.lowerLimit && value == v.upperLimit ==> r.plus == Button(false, false) && r.minus == v.minus
    ensures value != v.lowerLimit && value != v.upperLimit ==> r.minus == Button(true, true) && r.plus == Button(true, true)
  {
    if value == v.lowerLimit then v.(minus := Button(false, false))
    else if value == v.upperLimit then v.(plus := Button(false, false))
    else v.(minus := Button(true, true), plus := Button(true, true))
  }

  /** Setting `value`: its observer rewrites the label and the buttons. */
  function StepSetValue(v: StepView, value: int): (r: StepView)
    ensures r.value == value && r.text == CountText(value, v.unit)
  {
    StepUpdateButtons(v.(value := value, text := CountText(value, v.unit)), value)
  }

  /** `handleButtonPressed(with:)`: a press at or past its limit does
      nothing; otherwise the value moves by `steps`, clamped to the limit,
      and a value-changed action is sent. The label always reads
      "<value>+ <unit>". */
  function StepHandleButtonPressed(v: StepView, button: ButtonType): (r: (StepView, bool))
    ensures button == Minus ==> (r.1 <==> v.value > v.lowerLimit)
    ensures button == Plus ==> (r.1 <==> v.value < v.upperLimit)
    ensures !r.1 ==> r.0 == v
    ensures r.1 && button == Minus ==> r.0.value == Max(v.lowerLimit, v.value - v.steps)
    ensures r.1 && button == Plus ==> r.0.value == Min(v.upperLimit, v.value + v.steps)
    ensures r.1 ==> r.0.text == CountText(r.0.value, v.unit)
    ensures v.steps >= 0 && v.lowerLimit <= v.value <= v.upperLimit ==>
      v.lowerLimit <= r.0.value <= v.upperLimit
  {
    match button
    case Minus =>
      if v.value > v.lowerLimit then
        var changed := StepSetValue(v, Max(v.lowerLimit, v.value - v.steps));
        (StepUpdateButtons(changed, changed.value), true)
      else (v, false)
    case Plus =>
      if v.value < v.upperLimit then
        var changed := StepSetValue(v, Min(v.upperLimit, v.value + v.steps));
        (StepUpdateButtons(changed, changed.value), true)
      else (v, false)
  }
}
