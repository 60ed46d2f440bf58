/** `MultiLevelListSelectionFilterInfo`: a node of a hierarchical list filter
    (category → subcategory → …) with a selection state derived from its
    children. The weak parent reference is modelled as a `hasParent` flag. */
module MultiLevel {
  import opened Wrappers

  /** Swift's `MultiLevelListItemSelectionState` (`.none`, `.partial`, `.selected`). */
  datatype SelectionState = Unselected | Partial | Selected

  datatype Info = Info(
    parameterName: string,
    title: string,
    isMultiSelect: bool,
    results: int,
    value: string,
    children: seq<Info>,
    state: SelectionState,
    hasParent: bool)

  /** `init`: no children, no parent, state `.none`. */
  function MakeInfo(parameterName: string, title: string, isMultiSelect: bool, results: int, value: string): (r: Info)
    ensures r.children == [] && r.state == Unselected && !r.hasParent
    ensures r.parameterName == parameterName && r.value == value && r.title == title
  {
    Info(parameterName, title, isMultiSelect, results, value, [], Unselected, false)
  }

  /** `setSubLevelFilters`: the node's children become `subs`, each now with
      this node as its parent; nothing else about the node or the children
      changes. */
  function SetSubLevelFilters(info: Info, subs: seq<Info>): (r: Info)
    ensures |r.children| == |subs|
    ensures forall i :: 0 <= i < |subs| ==> r.children[i].hasParent
    ensures forall i :: 0 <= i < |subs| ==> r.children[i].(hasParent := subs[i].hasParent) == subs[i]
    ensures r.(children := info.children) == info
  {
    info.(children := seq(|subs|, i requires 0 <= i < |subs| => subs[i].(hasParent := true)))
  }

  /** The number of children whose state is `.selected`. */
  function CountSelected(children: seq<Info>): (n: nat)
    ensures n <= |children|
    ensures n == |children| <==> forall i :: 0 <= i < |children| ==> children[i].state == Selected
    ensures n == 0 <==> forall i :: 0 <= i < |children| ==> children[i].state != Selected
    decreases |children|
  {
    if |children| == 0 then 0
    else
      var rest := CountSelected(children[1..]);
      assert forall i :: 1 <= i < |children| ==> children[i] == children[1..][i - 1];
      (if children[0].state == Selected then 1 else 0) + rest
  }

  /** `selectionStateOfChildren`: nothing without children; `.partial` as soon
      as one child is partial or some but not all are selected; `.selected`
      when every child is; `.none` when none is selected or partial. */
  function ChildrenState(children: seq<Info>): (r: Option<SelectionState>)
    ensures r.None? <==> |children| == 0
    ensures (exists i :: 0 <= i < |children| && children[i].state == Partial) ==> r == Some(Partial)
    ensures r == Some(Selected) <==> |children| > 0 && forall i :: 0 <= i < |children| ==> children[i].state == Selected
    ensures r == Some(Unselected) <==> |children| > 0 && forall i :: 0 <= i < |children| ==> children[i].state == Unselected
  {
    if exists i :: 0 <= i < |children| && children[i].state == Partial then Some(Partial)
    else if |children| > 0 then
      var full := CountSelected(children);
      if full == |children| then Some(Selected)
      else if full > 0 then Some(Partial)
      else Some(Unselected)
    else None
  }

  /** The key a node is registered under in the builder's lookup table. */
  datatype LookupKey = LookupKey(parameterName: string, value: string)

  function KeyOf(info: Info): LookupKey {
    LookupKey(info.parameterName, info.value)
  }

  /** `==`: same parameter name, same value, same number of children; title,
      state and the children themselves are not compared. */
  predicate Equal(a: Info, b: Info) {
    a.parameterName == b.parameterName && a.value == b.value && |a.children| == |b.children|
  }

  /** Equal nodes share their lookup key, and `==` is an equivalence. */
  lemma EqualProperties(a: Info, b: Info, c: Info)
    ensures Equal(a, a)
    ensures Equal(a, b) ==> Equal(b, a) && KeyOf(a) == KeyOf(b)
    ensures Equal(a, b) && Equal(b, c) ==> Equal(a, c)
  {
  }

  /** `updateSelectionStateForFilter` of the FINN data source: a node takes its
      children's state when that is partial or selected; otherwise it becomes
      selected when its own value is among the stored values of its key, and
      keeps its state when not. */
  function UpdateSelectionState(info: Info, storedValues: Option<seq<string>>): (r: Info)
    ensures r.(state := info.state) == info
    ensures ChildrenState(info.children) == Some(Selected) ==> r.state == Selected
    ensures ChildrenState(info.children) == Some(Partial) ==> r.state == Partial
    ensures (ChildrenState(info.children).None? || ChildrenState(info.children) == Some(Unselected)) ==>
              r.state == (if storedValues.Some? && info.value in storedValues.value then Selected else info.state)
  {
    var fromChildren := ChildrenState(info.children);
    if fromChildren.Some? && fromChildren.value != Unselected then info.(state := fromChildren.value)
    else if storedValues.Some? && info.value in storedValues.value then info.(state := Selected)
    else info
  }

  /** The update never clears a selection: a node ends up `.none` only if it
      already was, and a node whose value is stored ends up selected or partial. */
  lemma UpdateNeverClears(info: Info, storedValues: Option<seq<string>>)
    ensures UpdateSelectionState(info, storedValues).state == Unselected ==> info.state == Unselected
    ensures storedValues.Some? && info.value in storedValues.value ==>
              UpdateSelectionState(info, storedValues).state != Unselected
  {
  }
}
