/** The FINN `ParameterBasedFilterInfoSelectionDataSource`: reads and writes
    of a filter's selection, addressed by the filter's parameter name. A
    filter without a parameter name (`parameter == None`) is ignored by every
    operation, as the source's `filterParameter(for:)` guard does. */
module FinnDataSource {
  import opened Wrappers
  import opened Text
  import opened ParamMap
  import opened FinnSelectionData

  /** `value(for:)`: nothing for a filter without parameter, for a range
      filter, or when no value is stored; otherwise the stored list. */
  function Value(m: Values, kind: FilterKind, parameter: Option<string>): (r: Option<seq<string>>)
    ensures r.Some? <==> parameter.Some? && !kind.RangeFilter? && |Lookup(m, parameter.value)| > 0
    ensures r.Some? ==> r.value == Lookup(m, parameter.value)
  {
    match parameter
    case None => None
    case Some(key) =>
      if kind.RangeFilter? then None
      else
        var values := Lookup(m, key);
        if |values| < 1 then None
        else if |values| > 1 then Some(values)
        else Some([values[0]])
  }

  /** `setValue(_: [String]?, for:)`: a list replaces the key's values, `nil`
      deletes the key. */
  function SetValue(m: Values, values: Option<seq<string>>, parameter: Option<string>): (r: Values)
    ensures parameter.None? ==> r == m
    ensures parameter.Some? && values.Some? ==> Lookup(r, parameter.value) == values.value && parameter.value in r
    ensures parameter.Some? && values.None? ==> parameter.value !in r
    ensures parameter.Some? ==> forall k :: k != parameter.value ==> (k in r <==> k in m) && Lookup(r, k) == Lookup(m, k)
  {
    match parameter
    case None => m
    case Some(key) =>
      match values
      case Some(vs) => m[key := vs]
      case None => RemoveKey(m, key)
  }

  /** Reading back what `setValue` wrote: the list itself, or nothing for
      `nil` or an empty list. */
  lemma SetValueThenValue(m: Values, values: Option<seq<string>>, kind: FilterKind, key: string)
    requires !kind.RangeFilter?
    ensures Value(SetValue(m, values, Some(key)), kind, Some(key)) ==
              if values.Some? && |values.value| > 0 then values else None
  {
  }

  /** `clearValue`: remove every occurrence of one value of the filter. */
  function ClearValue(m: Values, v: string, parameter: Option<string>): (r: Values)
    ensures parameter.None? ==> r == m
    ensures parameter.Some? ==> v !in Lookup(r, parameter.value)
    ensures parameter.Some? ==> forall x :: x != v ==> (x in Lookup(r, parameter.value) <==> x in Lookup(m, parameter.value))
    ensures parameter.Some? ==> forall k :: k != parameter.value ==> (k in r <==> k in m) && Lookup(r, k) == Lookup(m, k)
  {
    match parameter
    case None => m
    case Some(key) => RemoveValue(m, key, v)
  }

  /** `rangeValue(for:)`. */
  function RangeValueOf(m: Values, parameter: Option<string>): (r: Option<RangeValue>)
    ensures parameter.None? ==> r.None?
    ensures parameter.Some? ==> r == RangeOf(m, parameter.value)
  {
    match parameter
    case None => None
    case Some(key) => RangeOf(m, key)
  }

  /** `setValue(_: RangeValue, for:)`. */
  function SetRangeValue(m: Values, range: RangeValue, parameter: Option<string>): (r: Values)
    ensures parameter.None? ==> r == m
    ensures parameter.Some? ==> RangeValueOf(r, parameter) == Some(range)
  {
    match parameter
    case None => m
    case Some(key) => RangeRoundTrip(m, key, range); SetRange(m, key, range)
  }

  /** `stepperValue(for:)`: the first lower-bound value, parsed. */
  function StepperValue(m: Values, parameter: Option<string>): (r: Option<int>)
    ensures parameter.None? ==> r.None?
    ensures parameter.Some? && r.Some? ==> |Lookup(m, LowKey(parameter.value))| > 0
    ensures parameter.Some? && |Lookup(m, LowKey(parameter.value))| == 0 ==> r.None?
    ensures parameter.Some? && |Lookup(m, LowKey(parameter.value))| > 0 ==>
              r == ParseInt(Lookup(m, LowKey(parameter.value))[0])
  {
    match parameter
    case None => None
    case Some(key) => FirstInt(m, LowKey(key))
  }

  /** A stepper stored as a range with only a lower bound reads back as that
      bound, and clearing it leaves no stepper value. */
  lemma StepperRoundTrip(m: Values, key: string, v: int)
    ensures StepperValue(SetRangeValue(m, Minimum(v), Some(key)), Some(key)) == Some(v)
    ensures StepperValue(ClearAll(m, StepperFilter, key), Some(key)).None?
  {
    RangeRoundTrip(m, key, Minimum(v));
  }

  /** `setValue(latitude:longitude:radius:locationName:for:)`: clear the
      filter (skipped when it has no parameter), then store the location. */
  function SetGeoValue(m: Values, kind: FilterKind, parameter: Option<string>, g: GeoValue, show: real -> string): (r: Values)
    ensures Lookup(r, RadiusKey) == [IntToString(g.radius)]
    ensures forall k :: k !in {LatitudeKey, LongitudeKey, RadiusKey, LocationNameKey} && k in r ==> k in m
  {
    var cleared := match parameter case None => m case Some(key) => ClearAll(m, kind, key);
    SetGeoLocation(cleared, g, show)
  }

  /** The stored location reads back as the location just set, whatever was
      stored before, when parsing a printed coordinate gives it back. */
  lemma GeoValueRoundTrip(m: Values, kind: FilterKind, parameter: Option<string>, g: GeoValue,
                          show: real -> string, parse: string -> Option<real>)
    requires parse(show(g.latitude)) == Some(g.latitude)
    requires parse(show(g.longitude)) == Some(g.longitude)
    ensures GeoLocation(SetGeoValue(m, kind, parameter, g, show), parse) == Some(g)
  {
    var cleared := match parameter case None => m case Some(key) => ClearAll(m, kind, key);
    GeoRoundTrip(cleared, g, show, parse);
  }
}
