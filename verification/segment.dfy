/** The inline segmented control, Sources/Charcoal/Filters/Inline/Segment.swift:
    one button per title, the selected indices and the split lines between
    neighbouring buttons. */
module Segment {

  datatype BorderStyle = First | Middle | Last | Single

  datatype Segment = Segment(
    titles: seq<string>,
    isMultiSelect: bool,
    selectedItems: seq<int>,
    buttonSelected: seq<bool>,
    lineHidden: seq<bool>,
    borderStyles: seq<BorderStyle>)
  {
    /** The button flags and split lines reflect `selectedItems`. */
    predicate Consistent() {
      ValidItems(selectedItems, |titles|)
      && buttonSelected == ButtonFlags(selectedItems, |titles|)
      && lineHidden == SplitLines(buttonSelected)
    }
  }

  /** Every selected index names a button (`buttons[$0]` traps otherwise). */
  predicate ValidItems(items: seq<int>, n: nat) {
    forall x :: x in items ==> 0 <= x < n
  }

  /** `updateSelectedItems()`: clear every button, then select the listed ones. */
  function ButtonFlags(items: seq<int>, n: nat): (flags: seq<bool>)
    ensures |flags| == n
    ensures forall i :: 0 <= i < n ==> (flags[i] <==> i in items)
  {
    seq(n, i => i in items)
  }

  /** `updateSplitLines()`: the line before button i (i >= 1) is hidden iff
      buttons i − 1 and i differ in selection. */
  function SplitLines(flags: seq<bool>): (hidden: seq<bool>)
    ensures |hidden| == if |flags| == 0 then 0 else |flags| - 1
    ensures forall i :: 1 <= i < |flags| ==> (hidden[i - 1] <==> flags[i - 1] != flags[i])
  {
    if |flags| == 0 then [] else seq(|flags| - 1, j requires 0 <= j < |flags| - 1 => flags[j] != flags[j + 1])
  }

  /** `addButtons()`: the first button is `.first`, the last is `.single`
      when it is the only one and `.last` otherwise; the rest keep the
      default `.middle`. */
  function BorderStyles(n: nat): (r: seq<BorderStyle>)
    ensures |r| == n
    ensures n == 1 ==> r == [Single]
    ensures n >= 2 ==> r[0] == First && r[n - 1] == Last
    ensures forall i :: 0 < i < n - 1 ==> r[i] == Middle
  {
    if n == 0 then []
    else if n == 1 then [Single]
    else [First] + seq(n - 2, _ => Middle) + [Last]
  }

  /** `addSplitLines()`: one line between each pair of neighbours. */
  function SplitLineCount(n: nat): (r: nat)
    ensures r == if n == 0 then 0 else n - 1
    ensures n > 0 ==> r + 1 == n
  {
    if n == 0 then 0 else |seq(n - 1, _ => 0)|
  }

  /** `init(titles:)`: nothing selected, every line shown. */
  function Init(titles: seq<string>): (s: Segment)
    ensures s.Consistent() && s.selectedItems == [] && s.isMultiSelect
    ensures |s.buttonSelected| == |titles|
    ensures forall i :: 0 <= i < |titles| ==> !s.buttonSelected[i]
    ensures |s.lineHidden| == SplitLineCount(|titles|)
    ensures forall i :: 0 <= i < |s.lineHidden| ==> !s.lineHidden[i]
    ensures s.borderStyles == BorderStyles(|titles|)
  {
    var flags := ButtonFlags([], |titles|);
    Segment(titles, true, [], flags, SplitLines(flags), BorderStyles(|titles|))
  }

  /** Setting `selectedItems`: its observer refreshes buttons and lines. */
  function SetSelectedItems(s: Segment, items: seq<int>): (r: Segment)
    requires ValidItems(items, |s.titles|)
    ensures r.Consistent() && |r.buttonSelected| == |s.titles|
    ensures r.selectedItems == items
    ensures forall i :: 0 <= i < |s.titles| ==> (r.buttonSelected[i] <==> i in items)
    ensures r.titles == s.titles && r.isMultiSelect == s.isMultiSelect && r.borderStyles == s.borderStyles
  {
    var flags := ButtonFlags(items, |s.titles|);
    s.(selectedItems := items, buttonSelected := flags, lineHidden := SplitLines(flags))
  }

  /** `selectedItems.removeAll { $0 == index }`. */
  function RemoveAll(items: seq<int>, index: int): (r: seq<int>)
    ensures index !in r
    ensures forall x :: x in r <==> x in items && x != index
    ensures |r| <= |items|
  {
    if |items| == 0 then []
    else if items[0] == index then RemoveAll(items[1..], index)
    else [items[0]] + RemoveAll(items[1..], index)
  }

  /** `setSelected(_:atIndex:)`: in multi-select, selecting appends the
      index and deselecting removes every occurrence of it; in single-select
      the selection becomes exactly that index. */
  function SetSelected(s: Segment, isSelected: bool, index: int): (r: Segment)
    requires ValidItems(s.selectedItems, |s.titles|) && 0 <= index < |s.titles|
    ensures r.Consistent()
    ensures s.isMultiSelect && isSelected ==> r.selectedItems == s.selectedItems + [index]
    ensures s.isMultiSelect && !isSelected ==> r.selectedItems == RemoveAll(s.selectedItems, index)
    ensures !s.isMultiSelect ==> r.selectedItems == [index]
  {
    if s.isMultiSelect then
      if isSelected then SetSelectedItems(s, s.selectedItems + [index])
      else SetSelectedItems(s, RemoveAll(s.selectedItems, index))
    else
      SetSelectedItems(SetSelectedItems(s, []), [index])
  }

  /** `handleButton(sender:)`: the tapped button flips its own flag, which
      is then passed to `setSelected`; the lines are refreshed. */
  function HandleButton(s: Segment, index: int): (r: Segment)
    requires s.Consistent() && 0 <= index < |s.titles|
    ensures r.Consistent() && |r.buttonSelected| == |s.titles|
    ensures s.isMultiSelect ==> (r.buttonSelected[index] <==> !s.buttonSelected[index])
    ensures s.isMultiSelect ==> forall i :: 0 <= i < |s.titles| && i != index ==>
      r.buttonSelected[i] == s.buttonSelected[i]
    ensures !s.isMultiSelect ==> forall i :: 0 <= i < |s.titles| ==> (r.buttonSelected[i] <==> i == index)
  {
    var flipped := !s.buttonSelected[index];
    var r := SetSelected(s.(buttonSelected := s.buttonSelected[index := flipped]), flipped, index);
    r.(lineHidden := SplitLines(r.buttonSelected))
  }

  /** Tapping the same button twice in multi-select restores the selected
      set of indices. */
  lemma TapTwiceRestores(s: Segment, index: int)
    requires s.Consistent() && s.isMultiSelect && 0 <= index < |s.titles|
    ensures HandleButton(HandleButton(s, index), index).buttonSelected == s.buttonSelected
  {
    var once := HandleButton(s, index);
    var twice := HandleButton(once, index);
    assert |twice.buttonSelected| == |s.buttonSelected|;
    forall i | 0 <= i < |s.titles| ensures twice.buttonSelected[i] == s.buttonSelected[i] {
    }
  }
}
