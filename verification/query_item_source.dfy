/** `QueryItemBasedFilterSelectionDataSource`: a selection kept directly as a
    list of URL query items, with multiple selections stored as one
    comma-joined value. */
module QueryItemSource {
  import opened Wrappers
  import opened Text
  import opened Selection
  import ParamMap

  /** `queryItems(for:)`: the items with that name, in order. */
  function Named(items: seq<QueryItem>, name: string): (r: seq<QueryItem>)
    ensures |r| <= |items|
    ensures forall it :: it in r <==> it in items && it.name == name
    decreases |items|
  {
    if |items| == 0 then []
    else (if items[0].name == name then [items[0]] else []) + Named(items[1..], name)
  }

  /** The items with any other name, in order. */
  function Others(items: seq<QueryItem>, name: string): (r: seq<QueryItem>)
    ensures |r| <= |items|
    ensures forall i :: 0 <= i < |r| ==> r[i].name != name
    decreases |items|
  {
    if |items| == 0 then []
    else (if items[0].name != name then [items[0]] else []) + Others(items[1..], name)
  }

  /** `Others` keeps exactly the items of other names. */
  lemma {:induction false} OthersMembers(items: seq<QueryItem>, name: string)
    ensures forall it :: it in Others(items, name) <==> it in items && it.name != name
    decreases |items|
  {
    if |items| > 0 {
      OthersMembers(items[1..], name);
      assert items == [items[0]] + items[1..];
    }
  }

  lemma NamedAppend(a: seq<QueryItem>, b: seq<QueryItem>, name: string)
    ensures Named(a + b, name) == Named(a, name) + Named(b, name)
    ensures Others(a + b, name) == Others(a, name) + Others(b, name)
  {
    NamedPartAppend(a, b, name);
    OthersPartAppend(a, b, name);
  }

  lemma {:induction false} NamedPartAppend(a: seq<QueryItem>, b: seq<QueryItem>, name: string)
    ensures Named(a + b, name) == Named(a, name) + Named(b, name)
    decreases |a|
  {
    if |a| > 0 {
      var ab := a + b;
      assert ab[0] == a[0] && ab[1..] == a[1..] + b;
      NamedPartAppend(a[1..], b, name);
      var h := if a[0].name == name then [a[0]] else [];
      var x, y := Named(a[1..], name), Named(b, name);
      assert Named(ab[1..], name) == x + y;
      assert Named(ab, name) == h + (x + y);
      assert Named(a, name) == h + x;
      assert h + (x + y) == (h + x) + y;
    } else {
      assert a + b == b;
    }
  }


  lemma {:induction false} OthersPartAppend(a: seq<QueryItem>, b: seq<QueryItem>, name: string)
    ensures Others(a + b, name) == Others(a, name) + Others(b, name)
    decreases |a|
  {
    if |a| > 0 {
      var ab := a + b;
      assert ab[0] == a[0] && ab[1..] == a[1..] + b;
      OthersPartAppend(a[1..], b, name);
      var h := if a[0].name != name then [a[0]] else [];
      var x, y := Others(a[1..], name), Others(b, name);
      assert Others(ab[1..], name) == x + y;
      assert Others(ab, name) == h + (x + y);
      assert Others(a, name) == h + x;
      assert h + (x + y) == (h + x) + y;
    } else {
      assert a + b == b;
    }
  }


  /** A list whose items all carry `name` is its own `Named` part and has
      no `Others` part. */
  lemma {:induction false} NamedOfUniform(items: seq<QueryItem>, name: string)
    requires forall i :: 0 <= i < |items| ==> items[i].name == name
    ensures Named(items, name) == items
    ensures Others(items, name) == []
    decreases |items|
  {
    if |items| > 0 {
      NamedOfUniform(items[1..], name);
    }
  }

  /** Dropping the items of `name` keeps those of any other name. */
  lemma {:induction false} OthersOthers(items: seq<QueryItem>, name: string, other: string)
    requires other != name
    ensures Named(Others(items, name), other) == Named(items, other)
    decreases |items|
  {
    if |items| > 0 {
      OthersOthers(items[1..], name, other);
      NamedAppend(if items[0].name != name then [items[0]] else [], Others(items[1..], name), other);
    }
  }

  /** `setQueryItemValues`: the items of other names stay, in order, and one
      item per new value, in order, goes at the end. */
  function SetQueryItemValues(items: seq<QueryItem>, values: seq<string>, name: string): (r: seq<QueryItem>)
    ensures Others(r, name) == Others(items, name)
    ensures Named(r, name) == ParamMap.ItemsFor(name, values)
    ensures r[|r| - |values|..] == ParamMap.ItemsFor(name, values)
  {
    var added := ParamMap.ItemsFor(name, values);
    var r := Others(items, name) + added;
    NamedAppend(Others(items, name), added, name);
    NamedOfUniform(added, name);
    NamedOfOthers(items, name);
    r
  }

  lemma {:induction false} NamedOfOthers(items: seq<QueryItem>, name: string)
    ensures Named(Others(items, name), name) == []
    ensures Others(Others(items, name), name) == Others(items, name)
    decreases |items|
  {
    if |items| > 0 {
      NamedOfOthers(items[1..], name);
      var head := if items[0].name != name then [items[0]] else [];
      NamedAppend(head, Others(items[1..], name), name);
    }
  }

  /** Items of any other name read the same after a write to `name`. */
  lemma SetKeepsOtherNames(items: seq<QueryItem>, values: seq<string>, name: string, other: string)
    requires other != name
    ensures Named(SetQueryItemValues(items, values, name), other) == Named(items, other)
  {
    var added := ParamMap.ItemsFor(name, values);
    NamedAppend(Others(items, name), added, other);
    OthersOthers(items, name, other);
    assert Named(added, other) == [] by {
      NamedOfUniform(added, name);
      NamedOfForeign(added, name, other);
    }
  }

  lemma {:induction false} NamedOfForeign(items: seq<QueryItem>, name: string, other: string)
    requires other != name
    requires forall i :: 0 <= i < |items| ==> items[i].name == name
    ensures Named(items, other) == []
    decreases |items|
  {
    if |items| > 0 {
      NamedOfForeign(items[1..], name, other);
    }
  }

  /** `setStringValue`: `nil` or "" removes every item of that name; any other
      text leaves exactly one item holding it. */
  function SetStringValue(items: seq<QueryItem>, value: Option<string>, name: string): (r: seq<QueryItem>)
    ensures value.None? || value == Some("") ==> Named(r, name) == []
    ensures value.Some? && value.value != "" ==> Named(r, name) == [QueryItem(name, value)]
    ensures Others(r, name) == Others(items, name)
  {
    match value
    case Some(v) =>
      if v != "" then
        assert ParamMap.ItemsFor(name, [v]) == [QueryItem(name, Some(v))];
        SetQueryItemValues(items, [v], name)
      else SetQueryItemValues(items, [], name)
    case None => SetQueryItemValues(items, [], name)
  }

  /** The selection values this data source reads and writes; a range keeps
      each bound optional. */
  datatype SelectionValue =
    | SingleSelection(value: string)
    | MultipleSelection(values: seq<string>)
    | RangeSelection(lowValue: Option<int>, highValue: Option<int>)

  /** `lowValue?.description ?? ""`. */
  function BoundText(bound: Option<int>): string {
    match bound
    case Some(v) => IntToString(v)
    case None => ""
  }

  /** `setFilterSelectionValue`: a multiple selection is stored as one value
      joined by ","; a range writes its two bound keys, and a missing bound
      removes its key. */
  function SetFilterSelectionValue(items: seq<QueryItem>, value: SelectionValue, name: string): (r: seq<QueryItem>)
    ensures value.SingleSelection? ==> r == SetStringValue(items, Some(value.value), name)
    ensures value.MultipleSelection? ==> r == SetStringValue(items, Some(Join(value.values, ",")), name)
    ensures value.RangeSelection? ==>
              r == SetStringValue(SetStringValue(items, Some(BoundText(value.lowValue)), ParamMap.LowKey(name)),
                                  Some(BoundText(value.highValue)), ParamMap.HighKey(name))
    ensures value.SingleSelection? && value.value != "" ==> ValueFor(r, OtherFilter, Some(name)) == Some(value)
    ensures value.RangeSelection? ==> ValueFor(r, RangeFilter, Some(name)) == Some(value)
    ensures value.MultipleSelection? && |value.values| >= 1
            && (forall i :: 0 <= i < |value.values| ==> |value.values[i]| > 0 && ',' !in value.values[i])
            ==> ValueFor(r, ListItemFilter, Some(name)) == Some(value)
  {
    match value
    case SingleSelection(v) => SetStringValue(items, Some(v), name)
    case MultipleSelection(vs) =>
      var r := SetStringValue(items, Some(Join(vs, ",")), name);
      if |vs| >= 1 && forall i :: 0 <= i < |vs| ==> |vs[i]| > 0 && ',' !in vs[i] then
        SplitOfJoin(vs, ',');
        r
      else r
    case RangeSelection(low, high) =>
      ParamMap.RangeKeysDistinct(name);
      var withLow := SetStringValue(items, Some(BoundText(low)), ParamMap.LowKey(name));
      SetKeepsNamed(withLow, Some(BoundText(high)), ParamMap.HighKey(name), ParamMap.LowKey(name));
      BoundRoundTrip(low);
      BoundRoundTrip(high);
      SetStringValue(withLow, Some(BoundText(high)), ParamMap.HighKey(name))
  }

  /** A bound written as text reads back as itself; a missing one as nothing. */
  lemma BoundRoundTrip(bound: Option<int>)
    ensures IntOrNil(if bound.Some? then Some(BoundText(bound)) else None) == bound
    ensures bound.Some? ==> ParseInt(BoundText(bound)) == bound
    ensures bound.None? ==> ParseInt(BoundText(bound)).None?
  {
    if bound.Some? { IntRoundTrip(bound.value); }
  }

  /** `queryItems(for: name).first?.value`. */
  function FirstValue(items: seq<QueryItem>, name: string): Option<string> {
    var named := Named(items, name);
    if |named| == 0 then None else named[0].value
  }

  /** `intOrNil(from:)`. */
  function IntOrNil(text: Option<string>): (r: Option<int>)
    ensures text.None? ==> r.None?
    ensures text.Some? ==> r == ParseInt(text.value)
  {
    match text
    case Some(t) => ParseInt(t)
    case None => None
  }

  /** The kinds of filter `value(for:)` tells apart. */
  datatype FilterKind = RangeFilter | ListItemFilter | OtherFilter

  /** `value(for:)`: a range filter always reads a range of the parsed bounds;
      a list item splits the first value on ","; any other filter reads the
      first value as a single selection. */
  function ValueFor(items: seq<QueryItem>, kind: FilterKind, parameter: Option<string>): (r: Option<SelectionValue>)
    ensures parameter.None? ==> r.None?
    ensures parameter.Some? && kind.RangeFilter? ==>
              r == Some(RangeSelection(IntOrNil(FirstValue(items, ParamMap.LowKey(parameter.value))),
                                       IntOrNil(FirstValue(items, ParamMap.HighKey(parameter.value)))))
    ensures parameter.Some? && !kind.RangeFilter? ==> (r.None? <==> FirstValue(items, parameter.value).None?)
    ensures parameter.Some? && kind.ListItemFilter? && r.Some? ==>
              r.value == MultipleSelection(Split(FirstValue(items, parameter.value).value, ','))
    ensures parameter.Some? && kind.OtherFilter? && r.Some? ==>
              r.value == SingleSelection(FirstValue(items, parameter.value).value)
  {
    match parameter
    case None => None
    case Some(name) =>
      if kind.RangeFilter? then
        Some(RangeSelection(IntOrNil(FirstValue(items, ParamMap.LowKey(name))),
                            IntOrNil(FirstValue(items, ParamMap.HighKey(name)))))
      else
        match FirstValue(items, name)
        case Some(v) => if kind.ListItemFilter? then Some(MultipleSelection(Split(v, ','))) else Some(SingleSelection(v))
        case None => None
  }

  /** A range written and read back gives the same bounds. */
  lemma RangeRoundTrip(items: seq<QueryItem>, low: Option<int>, high: Option<int>, name: string)
    ensures ValueFor(SetFilterSelectionValue(items, RangeSelection(low, high), name), RangeFilter, Some(name))
            == Some(RangeSelection(low, high))
  {
    ParamMap.RangeKeysDistinct(name);
    var withLow := SetStringValue(items, Some(BoundText(low)), ParamMap.LowKey(name));
    var r := SetStringValue(withLow, Some(BoundText(high)), ParamMap.HighKey(name));
    SetKeepsNamed(withLow, Some(BoundText(high)), ParamMap.HighKey(name), ParamMap.LowKey(name));
    if low.Some? { IntRoundTrip(low.value); }
    if high.Some? { IntRoundTrip(high.value); }
  }

  /** Writing one name leaves the items of another name as they were. */
  lemma SetKeepsNamed(items: seq<QueryItem>, value: Option<string>, name: string, other: string)
    requires other != name
    ensures Named(SetStringValue(items, value, name), other) == Named(items, other)
  {
    match value
    case Some(v) =>
      if v != "" { SetKeepsOtherNames(items, [v], name, other); }
      else { SetKeepsOtherNames(items, [], name, other); }
    case None => SetKeepsOtherNames(items, [], name, other);
  }

  /** A multiple selection of non-empty, comma-free values reads back
      unchanged from a list-item filter. */
  lemma MultipleRoundTrip(items: seq<QueryItem>, values: seq<string>, name: string)
    requires |values| >= 1
    requires forall i :: 0 <= i < |values| ==> |values[i]| > 0 && ',' !in values[i]
    ensures ValueFor(SetFilterSelectionValue(items, MultipleSelection(values), name), ListItemFilter, Some(name))
            == Some(MultipleSelection(values))
  {
    SplitOfJoin(values, ',');
  }

  /** A non-empty single value reads back unchanged from a plain filter. */
  lemma SingleRoundTrip(items: seq<QueryItem>, value: string, name: string)
    requires value != ""
    ensures ValueFor(SetFilterSelectionValue(items, SingleSelection(value), name), OtherFilter, Some(name))
            == Some(SingleSelection(value))
  {
  }
}
