/** `FilterSelectionTitleProvider`: the titles shown for a filter's current
    selection value. The range value formatters are a parameter. */
module TitleProvider {
  import opened Wrappers
  import opened Selection
  import opened ParamMap
  import opened DefaultDataSource

  /** One selectable value of a preference or list filter. */
  datatype FilterValue = FilterValue(title: string, value: string)

  /** A node of a multi-level filter; its value may be absent. */
  datatype LevelNode = LevelNode(title: string, value: Option<string>, children: seq<LevelNode>)

  /** The filters the provider tells apart. */
  datatype FilterInfo =
    | PreferenceInfo(values: seq<FilterValue>)
    | ListInfo(values: seq<FilterValue>)
    | MultiLevelInfo(node: LevelNode)
    | RangeInfo(isCurrency: bool)
    | OtherInfo

  /** The title of the first entry whose value is `v` (`first(where:)`). */
  function TitleOf(values: seq<FilterValue>, v: string): (r: Option<string>)
    ensures r.Some? <==> exists i :: 0 <= i < |values| && values[i].value == v
    ensures r.Some? ==>
              exists i :: 0 <= i < |values| && values[i] == FilterValue(r.value, v) &&
                          forall j :: 0 <= j < i ==> values[j].value != v
  {
    match FirstIndex(values, (e: FilterValue) => e.value == v)
    case Some(i) => Some(values[i].title)
    case None => None
  }

  /** The titles of the selected values that have an entry, in selection
      order; values without an entry are dropped. */
  function MultipleTitles(values: seq<FilterValue>, selected: seq<string>): (r: seq<string>)
    ensures |r| <= |selected|
    ensures forall t :: t in r ==> TitleOfSelected(values, selected, t)
    ensures (forall i :: 0 <= i < |selected| ==> TitleOf(values, selected[i]).Some?) ==>
              |r| == |selected| && forall i :: 0 <= i < |r| ==> Some(r[i]) == TitleOf(values, selected[i])
    decreases |selected|
  {
    if |selected| == 0 then []
    else
      var rest := MultipleTitles(values, selected[1..]);
      TitlesOfTail(values, selected, rest);
      match TitleOf(values, selected[0])
      case Some(t) =>
        TitlesPrepend(values, selected, t, rest);
        [t] + rest
      case None => rest
  }

  /** `t` is the title of one of the selected values. */
  predicate TitleOfSelected(values: seq<FilterValue>, selected: seq<string>, t: string) {
    exists v :: v in selected && TitleOf(values, v) == Some(t)
  }

  lemma TitlesOfTail(values: seq<FilterValue>, selected: seq<string>, rest: seq<string>)
    requires |selected| > 0
    requires forall t :: t in rest ==> TitleOfSelected(values, selected[1..], t)
    ensures forall t :: t in rest ==> TitleOfSelected(values, selected, t)
  {
    forall t | t in rest
      ensures TitleOfSelected(values, selected, t)
    {
      var v :| v in selected[1..] && TitleOf(values, v) == Some(t);
      assert v in selected;
    }
  }

  lemma TitlesPrepend(values: seq<FilterValue>, selected: seq<string>, t: string, rest: seq<string>)
    requires |selected| > 0 && TitleOf(values, selected[0]) == Some(t)
    requires (forall i :: 0 <= i < |selected| - 1 ==> TitleOf(values, selected[1..][i]).Some?) ==>
               |rest| == |selected| - 1 && forall i :: 0 <= i < |rest| ==> Some(rest[i]) == TitleOf(values, selected[1..][i])
    ensures (forall i :: 0 <= i < |selected| ==> TitleOf(values, selected[i]).Some?) ==>
              |[t] + rest| == |selected| && forall i :: 0 <= i < |rest| + 1 ==> Some(([t] + rest)[i]) == TitleOf(values, selected[i])
  {
    if forall i :: 0 <= i < |selected| ==> TitleOf(values, selected[i]).Some? {
      forall i | 0 <= i < |selected| - 1
        ensures TitleOf(values, selected[1..][i]).Some?
      {
        assert selected[1..][i] == selected[i + 1];
      }
      forall i | 1 <= i < |rest| + 1
        ensures ([t] + rest)[i] == rest[i - 1] && selected[i] == selected[1..][i - 1]
      {
      }
    }
  }

  /** Titles for a preference or list filter: the matching title of a single
      value, the matching titles of a multiple selection, nothing for a range. */
  function ValueTitles(values: seq<FilterValue>, selection: SelectionValue): (r: seq<string>)
    ensures selection.SingleSelection? ==>
              r == (match TitleOf(values, selection.value) case Some(t) => [t] case None => [])
    ensures selection.MultipleSelection? ==> r == MultipleTitles(values, selection.values)
    ensures selection.RangeSelection? ==> r == []
    ensures forall t :: t in r ==> exists i :: 0 <= i < |values| && values[i].title == t
    ensures selection.SingleSelection? ==>
              |r| <= 1 && (|r| == 1 <==> exists i :: 0 <= i < |values| && values[i].value == selection.value)
    ensures selection.MultipleSelection? ==> |r| <= |selection.values|
  {
    assert forall v, t :: TitleOf(values, v) == Some(t) ==> exists i :: 0 <= i < |values| && values[i].title == t;
    match selection
    case SingleSelection(v) => (match TitleOf(values, v) case Some(t) => [t] case None => [])
    case MultipleSelection(vs) => MultipleTitles(values, vs)
    case RangeSelection(_) => []
  }

  /** Whether a multi-level node's own value is part of the selection. */
  predicate LevelSelected(node: LevelNode, selection: SelectionValue) {
    node.value.Some? &&
    match selection
    case SingleSelection(v) => node.value.value == v
    case MultipleSelection(vs) => node.value.value in vs
    case RangeSelection(_) => false
  }

  function NodeCount(node: LevelNode): nat
    decreases node
  {
    1 + ChildrenCount(node.children)
  }

  function ChildrenCount(children: seq<LevelNode>): nat
    decreases children
  {
    if |children| == 0 then 0
    else NodeCount(children[0]) + ChildrenCount(children[1..])
  }

  /** Titles for a multi-level filter, in pre-order: the node's own title if
      its value is selected, then its children's titles in order. */
  function LevelTitles(node: LevelNode, selection: SelectionValue): (r: seq<string>)
    ensures |r| <= NodeCount(node)
    ensures LevelSelected(node, selection) ==> |r| >= 1 && r[0] == node.title
    ensures selection.RangeSelection? ==> r == []
    decreases node
  {
    (if LevelSelected(node, selection) then [node.title] else []) + ChildrenTitles(node.children, selection)
  }

  function ChildrenTitles(children: seq<LevelNode>, selection: SelectionValue): (r: seq<string>)
    ensures |r| <= ChildrenCount(children)
    ensures selection.RangeSelection? ==> r == []
    decreases children
  {
    if |children| == 0 then []
    else LevelTitles(children[0], selection) + ChildrenTitles(children[1..], selection)
  }

  /** A node whose value is selected and none of whose descendants is gives
      exactly its own title. */
  lemma {:induction false} OnlyOwnTitle(node: LevelNode, selection: SelectionValue)
    requires LevelSelected(node, selection)
    requires forall i :: 0 <= i < |node.children| ==> NoneSelected(node.children[i], selection)
    ensures LevelTitles(node, selection) == [node.title]
  {
    NoChildTitles(node.children, selection);
  }

  predicate NoneSelected(node: LevelNode, selection: SelectionValue)
    decreases node
  {
    !LevelSelected(node, selection) && forall i :: 0 <= i < |node.children| ==> NoneSelected(node.children[i], selection)
  }

  lemma {:induction false} NoneSelectedHasNoTitles(node: LevelNode, selection: SelectionValue)
    requires NoneSelected(node, selection)
    ensures LevelTitles(node, selection) == []
    decreases node, 1
  {
    NoChildTitles(node.children, selection);
  }

  lemma {:induction false} NoChildTitles(children: seq<LevelNode>, selection: SelectionValue)
    requires forall i :: 0 <= i < |children| ==> NoneSelected(children[i], selection)
    ensures ChildrenTitles(children, selection) == []
    decreases children, 0
  {
    if |children| > 0 {
      NoneSelectedHasNoTitles(children[0], selection);
      assert forall i :: 1 <= i < |children| ==> children[1..][i - 1] == children[i];
      NoChildTitles(children[1..], selection);
    }
  }

  /** Titles for a range filter: "low - ...", "... - high" or "low - high"
      with the bounds formatted (an unformattable bound shows as ""); any
      other selection gives nothing. `format(isCurrency, v)` stands for the
      currency or plain `RangeFilterValueFormatter`. */
  function RangeTitles(selection: SelectionValue, isCurrency: bool, format: (bool, int) -> Option<string>): (r: seq<string>)
    ensures !selection.RangeSelection? ==> r == []
    ensures selection.RangeSelection? ==> |r| == 1
    ensures selection.RangeSelection? && selection.range.Minimum? ==>
              r == RangeTitle(Some(format(isCurrency, selection.range.low).GetOr("")), None)
    ensures selection.RangeSelection? && selection.range.Maximum? ==>
              r == RangeTitle(None, Some(format(isCurrency, selection.range.high).GetOr("")))
    ensures selection.RangeSelection? && selection.range.Closed? ==>
              r == RangeTitle(Some(format(isCurrency, selection.range.lowValue).GetOr("")),
                              Some(format(isCurrency, selection.range.highValue).GetOr("")))
  {
    match selection
    case RangeSelection(range) =>
      (match range
       case Minimum(low) => [format(isCurrency, low).GetOr("") + " - " + Missing]
       case Maximum(high) => [Missing + " - " + format(isCurrency, high).GetOr("")]
       case Closed(low, high) => [format(isCurrency, low).GetOr("") + " - " + format(isCurrency, high).GetOr("")])
    case _ => []
  }

  /** `titlesForSelection`: dispatch on the kind of filter. */
  function TitlesForSelection(filter: FilterInfo, selection: SelectionValue, format: (bool, int) -> Option<string>): (r: seq<string>)
    ensures filter.OtherInfo? ==> r == []
    ensures (filter.PreferenceInfo? || filter.ListInfo?) ==> r == ValueTitles(filter.values, selection)
    ensures filter.MultiLevelInfo? ==> r == LevelTitles(filter.node, selection)
    ensures filter.RangeInfo? ==> r == RangeTitles(selection, filter.isCurrency, format)
    ensures selection.RangeSelection? ==> (|r| > 0 <==> filter.RangeInfo?)
  {
    match filter
    case PreferenceInfo(values) => ValueTitles(values, selection)
    case ListInfo(values) => ValueTitles(values, selection)
    case MultiLevelInfo(node) => LevelTitles(node, selection)
    case RangeInfo(isCurrency) => RangeTitles(selection, isCurrency, format)
    case OtherInfo => []
  }
}
