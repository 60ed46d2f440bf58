/** The `ParameterBasedFilterInfoSelectionDataSource` of the default filter
    implementation: the same `name → [value]` map as the FINN one, read and
    written as typed selection values. The multi-level state refresh after a
    write walks weak parent references and is not part of this model. */
module DefaultDataSource {
  import opened Wrappers
  import opened Text
  import opened ParamMap

  /** The selection value a filter reads and writes. */
  datatype SelectionValue =
    | SingleSelection(value: string)
    | MultipleSelection(values: seq<string>)
    | RangeSelection(range: RangeValue)

  /** `setStringValue`: `nil` or "" deletes the key; any other text is stored
      as a one-element list. */
  function SetStringValue(m: Values, value: Option<string>, key: string): (r: Values)
    ensures value.None? || value == Some("") ==> key !in r
    ensures value.Some? && value.value != "" ==> Lookup(r, key) == [value.value] && key in r
    ensures forall k :: k != key ==> (k in r <==> k in m) && Lookup(r, k) == Lookup(m, k)
  {
    match value
    case Some(v) => if v != "" then m[key := [v]] else m - {key}
    case None => m - {key}
  }

  /** `setFilterSelectionValue`: a single value through `setStringValue`, a
      multiple selection replacing the list, a range through its bound keys. */
  function SetFilterSelectionValue(m: Values, value: SelectionValue, key: string): (r: Values)
    ensures value.SingleSelection? ==> r == SetStringValue(m, Some(value.value), key)
    ensures value.MultipleSelection? ==> Lookup(r, key) == value.values && key in r
    ensures value.RangeSelection? ==> r == SetRange(m, key, value.range)
    ensures !value.RangeSelection? ==> forall k :: k != key ==> (k in r <==> k in m) && Lookup(r, k) == Lookup(m, k)
  {
    match value
    case SingleSelection(v) => SetStringValue(m, Some(v), key)
    case MultipleSelection(vs) => m[key := vs]
    case RangeSelection(range) => SetRange(m, key, range)
  }

  /** `setValue(_:for:)`: a value is written as above, `nil` deletes the
      filter's own key (not its range keys). */
  function SetValue(m: Values, value: Option<SelectionValue>, parameter: Option<string>): (r: Values)
    ensures parameter.None? ==> r == m
    ensures parameter.Some? && value.None? ==> parameter.value !in r
    ensures parameter.Some? && value.Some? ==> r == SetFilterSelectionValue(m, value.value, parameter.value)
  {
    match parameter
    case None => m
    case Some(key) =>
      match value
      case Some(v) => SetFilterSelectionValue(m, v, key)
      case None => m - {key}
  }

  /** `value(for:)`: a range filter reads its bound keys; any other filter
      reads nothing, one single value, or a multiple selection of two or more. */
  function ValueFor(m: Values, isRange: bool, parameter: Option<string>): (r: Option<SelectionValue>)
    ensures parameter.None? ==> r.None?
    ensures parameter.Some? && isRange ==>
              r == (match RangeOf(m, parameter.value) case Some(range) => Some(RangeSelection(range)) case None => None)
    ensures parameter.Some? && !isRange ==> (r.None? <==> |Lookup(m, parameter.value)| == 0)
    ensures parameter.Some? && !isRange && |Lookup(m, parameter.value)| == 1 ==>
              r == Some(SingleSelection(Lookup(m, parameter.value)[0]))
    ensures parameter.Some? && !isRange && |Lookup(m, parameter.value)| > 1 ==>
              r == Some(MultipleSelection(Lookup(m, parameter.value)))
  {
    match parameter
    case None => None
    case Some(key) =>
      if isRange then
        match RangeOf(m, key)
        case Some(range) => Some(RangeSelection(range))
        case None => None
      else
        var values := Lookup(m, key);
        if |values| < 1 then None
        else if |values| > 1 then Some(MultipleSelection(values))
        else Some(SingleSelection(values[0]))
  }

  /** What a filter reads back after a write: a range always comes back
      unchanged; a non-empty single value comes back; a multiple selection
      comes back as nothing, a single value or itself by its length. */
  lemma WriteThenRead(m: Values, value: SelectionValue, key: string)
    ensures value.RangeSelection? ==> ValueFor(SetValue(m, Some(value), Some(key)), true, Some(key)) == Some(value)
    ensures value.SingleSelection? && value.value != "" ==>
              ValueFor(SetValue(m, Some(value), Some(key)), false, Some(key)) == Some(value)
    ensures value.SingleSelection? && value.value == "" ==>
              ValueFor(SetValue(m, Some(value), Some(key)), false, Some(key)).None?
    ensures value.MultipleSelection? ==>
              ValueFor(SetValue(m, Some(value), Some(key)), false, Some(key)) ==
                if |value.values| == 0 then None
                else if |value.values| == 1 then Some(SingleSelection(value.values[0]))
                else Some(value)
  {
    if value.RangeSelection? {
      RangeRoundTrip(m, key, value.range);
    }
  }
}
