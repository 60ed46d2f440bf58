/** Text edits on a field, shared by the number inputs. */
module TextEdit {
  import opened Wrappers

  /** `text.replaceSubrange(Range(nsRange, in: text), with: replacement)`:
      `None` when the range does not lie inside the text (the conversion of
      the `NSRange` fails). Offsets count characters. */
  function ReplaceRange(text: string, start: int, length: int, replacement: string): (r: Option<string>)
    ensures r.None? <==> !(0 <= start && 0 <= length && start + length <= |text|)
    ensures r.Some? ==> |r.value| == |text| - length + |replacement|
    ensures r.Some? ==> r.value[..start] == text[..start]
    ensures r.Some? ==> r.value[start..start + |replacement|] == replacement
    ensures r.Some? ==> r.value[start + |replacement|..] == text[start + length..]
  {
    if 0 <= start && 0 <= length && start + length <= |text| then
      Some(text[..start] + replacement + text[start + length..])
    else
      None
  }
}

/** The number inputs of Sources/RangeNumberInputView.swift: each edit is
    applied at the end of the text and the stored value is clamped into the
    range. */
module LegacyRangeInput {
  import opened Wrappers
  import opened Text
  import opened Arith

  datatype Group = LowGroup | HighGroup

  datatype Input = Input(
    lower: int,
    upper: int,
    lowText: string,
    highText: string,
    low: Option<int>,
    high: Option<int>)
  {
    predicate Valid() { lower <= upper }

    function TextOf(g: Group): string {
      if g == LowGroup then lowText else highText
    }

    function ValueOf(g: Group): Option<int> {
      if g == LowGroup then low else high
    }

    function With(g: Group, text: string, value: Option<int>): Input {
      if g == LowGroup then this.(lowText := text, low := value)
      else this.(highText := text, high := value)
    }
  }

  /** `dropLeadingZeros()`: strips every leading '0'. */
  function DropLeadingZeros(s: string): (r: string)
    ensures |r| <= |s| && r == s[|s| - |r|..]
    ensures forall i :: 0 <= i < |s| - |r| ==> s[i] == '0'
    ensures |r| > 0 ==> r[0] != '0'
  {
    if |s| > 0 && s[0] == '0' then
      var rest := DropLeadingZeros(s[1..]);
      assert s[1..][|s[1..]| - |rest|..] == s[|s| - |rest|..];
      rest
    else s
  }

  /** Stripping leading zeros a second time changes nothing. */
  lemma DropLeadingZerosIdempotent(s: string)
    ensures DropLeadingZeros(DropLeadingZeros(s)) == DropLeadingZeros(s)
  {
  }

  /** The text an edit produces: the replacement appended to the text without
      its leading zeros, or, for an empty replacement, that text minus its
      last character. The edit position is ignored. */
  function EditedText(existing: string, replacement: string): (r: string)
    ensures replacement != "" ==> r == DropLeadingZeros(existing) + replacement
    ensures replacement == "" ==>
      var t := DropLeadingZeros(existing);
      (|t| == 0 ==> r == "") && (|t| > 0 ==> r == DropLast(t))
  {
    var t := DropLeadingZeros(existing) + replacement;
    if replacement == "" then (if |t| == 0 then "" else DropLast(t)) else t
  }

  /** The outcome of `textField(_:shouldChangeCharactersIn:replacementString:)`:
      the new state, the returned flag, and whether a value-changed action
      was sent. */
  datatype Edit = Edit(input: Input, accepted: bool, sentValueChanged: bool)

  /** `textField(_:shouldChangeCharactersIn:replacementString:)`. Text that
      does not parse resets the group to the lower bound; a value at or past a
      bound is clamped to it and rejected; a value strictly inside the range
      is stored and accepted. When the edit is accepted the text field itself
      inserts the replacement, which is left to UIKit. */
  function ShouldChange(s: Input, g: Group, replacement: string): (e: Edit)
    requires s.Valid()
    ensures e.input.Valid() && e.sentValueChanged
    ensures e.input.ValueOf(g).Some? && s.lower <= e.input.ValueOf(g).value <= s.upper
    ensures e.input == s.With(g, e.input.TextOf(g), e.input.ValueOf(g))
    ensures e.accepted <==>
      var p := ParseInt(EditedText(s.TextOf(g), replacement));
      p.Some? && s.lower < p.value < s.upper
    ensures e.accepted ==> e.input.ValueOf(g) == ParseInt(EditedText(s.TextOf(g), replacement))
    ensures ParseInt(EditedText(s.TextOf(g), replacement)).None? ==> e.input.ValueOf(g) == Some(s.lower)
    ensures !e.accepted ==> ParseInt(e.input.TextOf(g)) == e.input.ValueOf(g)
  {
    var stripped := DropLeadingZeros(s.TextOf(g));
    var newString := EditedText(s.TextOf(g), replacement);
    match ParseInt(newString)
    case None =>
      IntRoundTrip(s.lower);
      Edit(s.With(g, IntToString(s.lower), Some(s.lower)), false, true)
    case Some(v) =>
      if v >= s.upper then
        IntRoundTrip(s.upper);
        Edit(s.With(g, IntToString(s.upper), Some(s.upper)), false, true)
      else if v <= s.lower then
        IntRoundTrip(s.lower);
        Edit(s.With(g, IntToString(s.lower), Some(s.lower)), false, true)
      else
        Edit(s.With(g, stripped, Some(v)), true, true)
  }

  /** `lowValue`: the smaller of the two inputs, or nil without a low input. */
  function LowValue(low: Option<int>, high: Option<int>): (r: Option<int>)
    ensures r.None? <==> low.None?
    ensures low.Some? && high.None? ==> r == low
    ensures low.Some? && high.Some? ==> r == Some(Min(low.value, high.value))
  {
    match low
    case None => None
    case Some(l) => if high.None? then Some(l) else Some(Min(l, high.value))
  }

  /** `highValue`: the larger of the two inputs, or nil without a high input. */
  function HighValue(low: Option<int>, high: Option<int>): (r: Option<int>)
    ensures r.None? <==> high.None?
    ensures high.Some? && low.None? ==> r == high
    ensures low.Some? && high.Some? ==> r == Some(Max(low.value, high.value))
  {
    match high
    case None => None
    case Some(h) => if low.None? then Some(h) else Some(Max(low.value, h))
  }

  /** Whatever the inputs hold, the reported low value does not exceed the
      reported high value, and together they are the two inputs. */
  lemma ReportedValuesOrdered(low: Option<int>, high: Option<int>)
    ensures LowValue(low, high).Some? && HighValue(low, high).Some? ==>
      LowValue(low, high).value <= HighValue(low, high).value
    ensures low.Some? && high.Some? ==>
      multiset{LowValue(low, high).value, HighValue(low, high).value} == multiset{low.value, high.value}
  {
  }

  /** `setLowerValue(_:animated:)`: the text shows the value, which is stored
      unchanged. */
  function SetLowerValue(s: Input, v: int): (r: Input)
    ensures r.low == Some(v) && ParseInt(r.lowText) == Some(v)
    ensures r.high == s.high && r.highText == s.highText
  {
    IntRoundTrip(v);
    s.(lowText := IntToString(v), low := Some(v))
  }

  /** `setUpperValue(_:animated:)`. */
  function SetUpperValue(s: Input, v: int): (r: Input)
    ensures r.high == Some(v) && ParseInt(r.highText) == Some(v)
    ensures r.low == s.low && r.lowText == s.lowText
  {
    IntRoundTrip(v);
    s.(highText := IntToString(v), high := Some(v))
  }
}

/** The number inputs of Sources/RangeFilter/RangeNumberInputView.swift: the
    edit is applied at its position, the text is rewritten by the view and
    the returned flag is always false. */
module RangeFilterInput {
  import opened Wrappers
  import opened Text
  import opened TextEdit
  import LegacyRangeInput

  datatype Group = LowGroup | HighGroup

  datatype Input = Input(
    lower: int,
    upper: int,
    lowText: string,
    highText: string,
    low: Option<int>,
    high: Option<int>)
  {
    function TextOf(g: Group): string {
      if g == LowGroup then lowText else highText
    }

    function ValueOf(g: Group): Option<int> {
      if g == LowGroup then low else high
    }

    function With(g: Group, text: string, value: Option<int>): Input {
      if g == LowGroup then this.(lowText := text, low := value)
      else this.(highText := text, high := value)
    }
  }

  datatype Edit = Edit(input: Input, accepted: bool, sentValueChanged: bool)

  /** `textField(_:shouldChangeCharactersIn:replacementString:)`. */
  function ShouldChange(s: Input, g: Group, start: int, length: int, replacement: string): (e: Edit)
    ensures !e.accepted && e.sentValueChanged
    ensures e.input == s.With(g, e.input.TextOf(g), e.input.ValueOf(g))
    ensures ReplaceRange(s.TextOf(g), start, length, replacement).None? ==> e.input == s
    ensures ReplaceRange(s.TextOf(g), start, length, replacement) == Some("") ==>
      e.input == s.With(g, IntToString(s.lower), Some(s.lower))
    ensures ReplaceRange(s.TextOf(g), start, length, replacement).Some? ==>
      (e.input.ValueOf(g).Some? ==> ParseInt(e.input.TextOf(g)) == e.input.ValueOf(g))
      && (e.input.ValueOf(g).None? <==>
           ParseInt(ReplaceRange(s.TextOf(g), start, length, replacement).value).None?
           && ReplaceRange(s.TextOf(g), start, length, replacement) != Some(""))
      && (e.input.ValueOf(g).None? ==> e.input.TextOf(g) == s.TextOf(g))
  {
    match ReplaceRange(s.TextOf(g), start, length, replacement)
    case None => Edit(s, false, true)
    case Some(replaced) =>
      var text := if replaced == "" then IntToString(s.lower) else replaced;
      match ParseInt(text)
      case None =>
        Edit(s.With(g, s.TextOf(g), None), false, true)
      case Some(v) =>
        IntRoundTrip(v);
        IntRoundTrip(s.lower);
        Edit(s.With(g, IntToString(v), Some(v)), false, true)
  }

  /** An integer typed into the field is stored as typed, without clamping. */
  lemma TypedIntegerStoredUnclamped(s: Input, g: Group, v: int)
    requires |s.TextOf(g)| == 0
    ensures ShouldChange(s, g, 0, 0, IntToString(v)).input.ValueOf(g) == Some(v)
  {
    IntRoundTrip(v);
    var t := s.TextOf(g);
    assert t[..0] + IntToString(v) + t[0..] == IntToString(v);
  }

  /** `lowValue` and `highValue` order the two inputs as in the older view. */
  lemma OrderedValues(s: Input)
    ensures LegacyRangeInput.LowValue(s.low, s.high).None? <==> s.low.None?
    ensures LegacyRangeInput.HighValue(s.low, s.high).None? <==> s.high.None?
    ensures s.low.Some? && s.high.Some? ==>
      LegacyRangeInput.LowValue(s.low, s.high).value <= LegacyRangeInput.HighValue(s.low, s.high).value
  {
    LegacyRangeInput.ReportedValuesOrdered(s.low, s.high);
  }

  /** `setLowValue(_:animated:)` and `setHighValue(_:animated:)`: the field
      shows the decimal rendering and the value is stored unchanged. */
  function SetValue(s: Input, g: Group, v: int): (r: Input)
    ensures r.ValueOf(g) == Some(v) && ParseInt(r.TextOf(g)) == Some(v)
    ensures r == s.With(g, r.TextOf(g), r.ValueOf(g))
  {
    IntRoundTrip(v);
    s.With(g, IntToString(v), Some(v))
  }
}

/** The low/high validation of the Charcoal range inputs
    (Sources/Charcoal/Filters/Range/Input/RangeNumberInputView.swift and
    RangeInputView.swift, which share this logic). */
module RangeValidation {
  import opened Wrappers

  datatype Group = LowGroup | HighGroup

  function Other(g: Group): Group {
    if g == LowGroup then HighGroup else LowGroup
  }

  /** The delegate call an edit produces. */
  datatype Notice = LowChanged(value: Option<int>) | HighChanged(value: Option<int>)

  /** `inputValues` and `inputValidationStatus` of one view; a missing status
      counts as valid. */
  datatype State = State(
    minimumValue: int,
    maximumValue: int,
    low: Option<int>,
    high: Option<int>,
    lowStatus: Option<bool>,
    highStatus: Option<bool>,
    hapticsEnabled: bool)
  {
    function StatusOf(g: Group): Option<bool> {
      if g == LowGroup then lowStatus else highStatus
    }

    function WithStatus(g: Group, valid: bool): State {
      if g == LowGroup then this.(lowStatus := Some(valid)) else this.(highStatus := Some(valid))
    }

    function WithValue(g: Group, v: Option<int>): State {
      if g == LowGroup then this.(low := v) else this.(high := v)
    }
  }

  /** A fresh view: nothing entered and no status recorded. */
  function Initial(minimumValue: int, maximumValue: int): (s: State)
    ensures s.low.None? && s.high.None? && s.lowStatus.None? && s.highStatus.None?
  {
    State(minimumValue, maximumValue, None, None, None, None, true)
  }

  /** `isValidValue(for:)`: invalid only when both values are present and
      the low one is above the high one, whichever group asks. */
  function IsValidValue(s: State, g: Group): (r: bool)
    ensures r <==> !(s.low.Some? && s.high.Some? && s.low.value > s.high.value)
  {
    if s.low.None? || s.high.None? then true
    else match g
      case HighGroup => s.low.value <= s.high.value
      case LowGroup => s.high.value >= s.low.value
  }

  /** `updateValidationStatus(for:isValid:generateHapticFeedback:)`: records
      the status; the error feedback fires only on a valid-to-invalid edge
      with haptics requested and enabled. */
  function UpdateValidationStatus(s: State, g: Group, valid: bool, haptic: bool): (r: (State, bool))
    ensures r.0 == s.WithStatus(g, valid)
    ensures r.0.StatusOf(g) == Some(valid) && r.0.StatusOf(Other(g)) == s.StatusOf(Other(g))
    ensures r.1 <==> !valid && s.StatusOf(g).GetOr(true) && haptic && s.hapticsEnabled
  {
    var wasValid := s.StatusOf(g).GetOr(true);
    var error := !valid && wasValid && haptic && s.hapticsEnabled;
    (s.WithStatus(g, valid), error)
  }

  /** `validateInputs(activeInputGroup:)`: the active group gets its computed
      validity, the other is marked valid, and no feedback is generated. */
  function ValidateInputs(s: State, active: Group): (r: State)
    ensures r.low == s.low && r.high == s.high
    ensures r.StatusOf(active) == Some(IsValidValue(s, active))
    ensures r.StatusOf(Other(active)) == Some(true)
  {
    var (s1, _) := UpdateValidationStatus(s, active, IsValidValue(s, active), false);
    var (s2, _) := UpdateValidationStatus(s1, Other(active), true, false);
    s2
  }

  /** `setLowValue(_:animated:)`: the minimum itself is stored as "no low
      value". */
  function SetLowValue(s: State, v: int): (r: State)
    ensures r.low == (if v == s.minimumValue then None else Some(v))
    ensures r.high == s.high
    ensures r.lowStatus == Some(IsValidValue(r, LowGroup)) && r.highStatus == Some(true)
  {
    ValidateInputs(s.(low := if v == s.minimumValue then None else Some(v)), LowGroup)
  }

  /** `setHighValue(_:animated:)`: the maximum itself is stored as "no high
      value". */
  function SetHighValue(s: State, v: int): (r: State)
    ensures r.high == (if v == s.maximumValue then None else Some(v))
    ensures r.low == s.low
    ensures r.highStatus == Some(IsValidValue(r, HighGroup)) && r.lowStatus == Some(true)
  {
    ValidateInputs(s.(high := if v == s.maximumValue then None else Some(v)), HighGroup)
  }

  /** `handleInteraction(with:)`: validation runs for the group whose field
      is first responder, which UIKit decides. */
  function HandleInteraction(s: State, lowIsFirstResponder: bool): (r: State)
    ensures r.low == s.low && r.high == s.high
    ensures r.StatusOf(if lowIsFirstResponder then HighGroup else LowGroup) == Some(true)
  {
    ValidateInputs(s, if lowIsFirstResponder then LowGroup else HighGroup)
  }

  /** What an edit produced: the new state, whether error feedback fired and
      the delegate call. */
  datatype Change = Change(state: State, error: bool, notice: Notice)

  /** `numberInputView(_:didChangeValue:)` of RangeNumberInputView, where the
      value may be nil. */
  function ValueChanged(s: State, g: Group, v: Option<int>): (c: Change)
    ensures c.state == s.WithValue(g, v).WithStatus(g, IsValidValue(s.WithValue(g, v), g))
    ensures c.error <==> !IsValidValue(s.WithValue(g, v), g) && s.StatusOf(g).GetOr(true) && s.hapticsEnabled
    ensures c.notice == (if g == LowGroup then LowChanged(v) else HighChanged(v))
  {
    var s1 := s.WithValue(g, v);
    var (s2, error) := UpdateValidationStatus(s1, g, IsValidValue(s1, g), true);
    Change(s2, error, if g == LowGroup then LowChanged(v) else HighChanged(v))
  }

  /** `numberInputView(_:didChangeValue:)` of RangeInputView, where the value
      is always an integer: it is stored as is and reported to the delegate. */
  function InputValueChanged(s: State, g: Group, v: int): (c: Change)
    ensures (if g == LowGroup then c.state.low else c.state.high) == Some(v)
    ensures c.notice.value == Some(v) && (c.notice.LowChanged? <==> g == LowGroup)
    ensures c.state.StatusOf(g) == Some(IsValidValue(c.state, g))
    ensures c.state.StatusOf(Other(g)) == s.StatusOf(Other(g))
  {
    ValueChanged(s, g, Some(v))
  }

  /** Two invalid edits in a row give error feedback at most once: the second
      one starts from a recorded invalid status. */
  lemma ErrorOnlyOnEdge(s: State, g: Group, v: Option<int>, w: Option<int>)
    requires !ValueChanged(s, g, v).state.StatusOf(g).value
    ensures !ValueChanged(ValueChanged(s, g, v).state, g, w).error
  {
  }

  /** The recorded status of an edited group always equals the validity of
      the values after the edit. */
  lemma StatusTracksValidity(s: State, g: Group, v: Option<int>)
    ensures ValueChanged(s, g, v).state.StatusOf(g) ==
      Some(!(ValueChanged(s, g, v).state.low.Some? && ValueChanged(s, g, v).state.high.Some?
             && ValueChanged(s, g, v).state.low.value > ValueChanged(s, g, v).state.high.value))
  {
  }

  /** Setting a side to its bound clears it, so that side never makes the
      pair invalid: the recorded status is valid. */
  lemma BoundSettersAreValid(s: State)
    ensures SetLowValue(s, s.minimumValue).lowStatus == Some(true)
    ensures SetHighValue(s, s.maximumValue).highStatus == Some(true)
  {
  }
}

/** The single number field of Sources/Charcoal/Filters/Range/Input/NumberInputView.swift. */
module NumberInput {
  import opened Wrappers
  import opened Text
  import opened TextEdit

  /** `CharacterSet.whitespaces`: the horizontal tab and the Unicode space
      separators. */
  predicate IsWhitespace(c: char) {
    c == '\t' || c == ' ' || c == '\U{00A0}' || c == '\U{1680}'
    || ('\U{2000}' <= c <= '\U{200A}') || c == '\U{202F}' || c == '\U{205F}' || c == '\U{3000}'
  }

  /** `removeWhitespaces()`: splitting on whitespace and joining with "" drops
      every whitespace character and keeps the rest in order. */
  function RemoveWhitespaces(s: string): (r: string)
    ensures |r| <= |s|
    ensures forall i :: 0 <= i < |r| ==> !IsWhitespace(r[i])
    ensures forall c :: c in r <==> c in s && !IsWhitespace(c)
  {
    if |s| == 0 then ""
    else if IsWhitespace(s[0]) then RemoveWhitespaces(s[1..])
    else [s[0]] + RemoveWhitespaces(s[1..])
  }

  /** Removing whitespace distributes over concatenation, so the order of the
      remaining characters is kept. */
  lemma {:induction false} RemoveWhitespacesAppend(a: string, b: string)
    ensures RemoveWhitespaces(a + b) == RemoveWhitespaces(a) + RemoveWhitespaces(b)
  {
    if |a| > 0 {
      assert (a + b)[1..] == a[1..] + b;
      RemoveWhitespacesAppend(a[1..], b);
    } else {
      assert a + b == b;
    }
  }

  /** Text without whitespace is left as it is. */
  lemma {:induction false} RemoveWhitespacesNone(s: string)
    requires forall i :: 0 <= i < |s| ==> !IsWhitespace(s[i])
    ensures RemoveWhitespaces(s) == s
  {
    if |s| > 0 {
      RemoveWhitespacesNone(s[1..]);
    }
  }

  /** What an edit of the field produced: the new text and the value passed
      to the delegate, if any. The field always returns false. */
  datatype Edit = Edit(text: string, delegateValue: Option<int>, accepted: bool)

  /** `textField(_:shouldChangeCharactersIn:replacementString:)`. The shown
      text comes from the value formatter, a parameter here. */
  function ShouldChange(text: string, start: int, length: int, replacement: string,
                        defaultValue: int, format: int -> string): (e: Edit)
    ensures !e.accepted
    ensures e.delegateValue.None? ==> e.text == text
    ensures e.delegateValue.Some? ==> e.text == format(e.delegateValue.value)
    ensures e.delegateValue.Some? <==>
      ReplaceRange(text, start, length, replacement).Some?
      && var t := RemoveWhitespaces(ReplaceRange(text, start, length, replacement).value);
         t == "" || ParseInt(t).Some?
    ensures e.delegateValue.Some? ==>
      var t := RemoveWhitespaces(ReplaceRange(text, start, length, replacement).value);
      e.delegateValue == (if t == "" then Some(defaultValue) else ParseInt(t))
  {
    match ReplaceRange(text, start, length, replacement)
    case None => Edit(text, None, false)
    case Some(replaced) =>
      var cleaned := RemoveWhitespaces(replaced);
      var t := if cleaned == "" then IntToString(defaultValue) else cleaned;
      IntRoundTrip(defaultValue);
      match ParseInt(t)
      case None => Edit(text, None, false)
      case Some(v) => Edit(format(v), Some(v), false)
  }

  lemma DigitsHaveNoWhitespace(s: string)
    requires AllDigits(s)
    ensures forall i :: 0 <= i < |s| ==> !IsWhitespace(s[i])
  {
    forall i | 0 <= i < |s| ensures !IsWhitespace(s[i]) {
      assert IsDigit(s[i]);
    }
  }

  /** Formatted text with grouping spaces still reads back as its digits. */
  lemma GroupedDigitsParse(a: string, b: string)
    requires |a| >= 1 && |b| >= 1 && AllDigits(a) && AllDigits(b)
    ensures ParseInt(RemoveWhitespaces(a + " " + b)) == ParseInt(a + b)
  {
    DigitsHaveNoWhitespace(a);
    DigitsHaveNoWhitespace(b);
    RemoveWhitespacesNone(a);
    RemoveWhitespacesNone(b);
    var sp := " ";
    assert RemoveWhitespaces(sp) == "" by {
      assert IsWhitespace(sp[0]);
      assert sp[1..] == "";
    }
    RemoveWhitespacesAppend(a, sp);
    assert RemoveWhitespaces(a + sp) == a;
    RemoveWhitespacesAppend(a + sp, b);
  }
}
