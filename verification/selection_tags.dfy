/** The row of selection tags under a filter,
    Sources/Charcoal/Selection/Views/SelectionTagsContainerView.swift. When
    the tags do not fit they collapse into one tag. */
module SelectionTags {
  import opened Wrappers
  import opened Text

  datatype SelectionTitle = SelectionTitle(value: string, accessibilityLabel: string)

  datatype Tags = Tags(titles: seq<SelectionTitle>, isValid: bool, isCollapsed: bool)

  function Values(ts: seq<SelectionTitle>): (r: seq<string>)
    ensures |r| == |ts| && forall i :: 0 <= i < |ts| ==> r[i] == ts[i].value
  {
    seq(|ts|, i requires 0 <= i < |ts| => ts[i].value)
  }

  function Labels(ts: seq<SelectionTitle>): (r: seq<string>)
    ensures |r| == |ts| && forall i :: 0 <= i < |ts| ==> r[i] == ts[i].accessibilityLabel
  {
    seq(|ts|, i requires 0 <= i < |ts| => ts[i].accessibilityLabel)
  }

  /** The "(n) " prefix shown on a collapsed tag of more than one title. */
  function CountPrefix(n: int): string {
    if n > 1 then "(" + IntToString(n) + ") " else ""
  }

  /** `joinedTitle`: one title is kept as it is; more are prefixed with their
      count and joined with ", ". The accessibility label has no prefix. */
  function JoinedTitle(ts: seq<SelectionTitle>): (r: SelectionTitle)
    ensures |ts| == 1 ==> r == ts[0]
    ensures |ts| > 1 ==> r.value == CountPrefix(|ts|) + Join(Values(ts), ", ")
    ensures r.accessibilityLabel == Join(Labels(ts), ", ")
  {
    SelectionTitle(CountPrefix(|ts|) + Join(Values(ts), ", "), Join(Labels(ts), ", "))
  }

  /** The count in a collapsed tag reads back as the number of titles. */
  lemma JoinedTitleCount(ts: seq<SelectionTitle>)
    requires |ts| > 1
    ensures var v := JoinedTitle(ts).value;
      var digits := IntToString(|ts|);
      |v| >= |digits| + 3 && v[0] == '(' && ParseInt(v[1..1 + |digits|]) == Some(|ts|)
      && v[1 + |digits|..3 + |digits|] == ") "
  {
    var digits := IntToString(|ts|);
    var v := JoinedTitle(ts).value;
    IntRoundTrip(|ts|);
    assert v == "(" + digits + ") " + Join(Values(ts), ", ");
    assert v[1..1 + |digits|] == digits;
  }

  /** `configure(with:isValid:)`: whether the tags overflow the view is a
      layout question, passed in. */
  function Configure(titles: seq<SelectionTitle>, isValid: bool, overflows: bool): (t: Tags)
    ensures t.titles == titles && t.isValid == isValid && t.isCollapsed == overflows
  {
    Tags(titles, isValid, overflows)
  }

  /** `collectionView(_:numberOfItemsInSection:)`. */
  function NumberOfItems(t: Tags): (n: nat)
    ensures |t.titles| == 0 ==> n == 0
    ensures |t.titles| > 0 && t.isCollapsed ==> n == 1
    ensures |t.titles| > 0 && !t.isCollapsed ==> n == |t.titles|
    ensures n <= |t.titles|
  {
    if |t.titles| == 0 then 0 else if t.isCollapsed then 1 else |t.titles|
  }

  /** `title(at:)`: the joined title when collapsed, else the item's own. */
  function TitleAt(t: Tags, item: nat): (r: SelectionTitle)
    requires item < NumberOfItems(t)
    ensures t.isCollapsed ==> r == JoinedTitle(t.titles)
    ensures !t.isCollapsed ==> r == t.titles[item]
    ensures !t.isCollapsed ==> r in t.titles
    ensures t.isCollapsed ==> item == 0 && r.accessibilityLabel == Join(Labels(t.titles), ", ")
    ensures t.isCollapsed && |t.titles| == 1 ==> r == t.titles[0]
  {
    if t.isCollapsed then JoinedTitle(t.titles) else t.titles[item]
  }

  /** The tags the collection view shows: every title once and in order, or,
      collapsed, the single joined tag. */
  lemma ShownTitles(t: Tags)
    ensures seq(NumberOfItems(t), i requires 0 <= i < NumberOfItems(t) => TitleAt(t, i))
            == if t.isCollapsed && |t.titles| > 0 then [JoinedTitle(t.titles)] else t.titles
  {
  }

  /** What the delegate hears after a tag's remove button is tapped. */
  datatype Notice = RemovedAll | RemovedAt(index: nat)

  /** `selectionTagViewCellDidSelectRemove(_:)`: collapsed, every title goes
      and "remove all" is reported; otherwise exactly the tapped title goes
      and its index is reported. */
  function RemoveTag(t: Tags, item: nat): (r: (Tags, Notice))
    requires item < NumberOfItems(t)
    ensures t.isCollapsed ==> r.0.titles == [] && r.1 == RemovedAll
    ensures !t.isCollapsed ==> r.0.titles == t.titles[..item] + t.titles[item + 1..] && r.1 == RemovedAt(item)
    ensures r.0.isCollapsed == t.isCollapsed && r.0.isValid == t.isValid
  {
    if t.isCollapsed then (t.(titles := []), RemovedAll)
    else (t.(titles := t.titles[..item] + t.titles[item + 1..]), RemovedAt(item))
  }

  /** Outside collapsed mode, a removal drops the item count by one and keeps
      every other title, in order. */
  lemma RemoveKeepsOthers(t: Tags, item: nat)
    requires item < NumberOfItems(t) && !t.isCollapsed
    ensures NumberOfItems(RemoveTag(t, item).0) == NumberOfItems(t) - 1
    ensures forall j :: 0 <= j < |t.titles| && j != item ==>
      t.titles[j] in RemoveTag(t, item).0.titles
  {
    var rest := RemoveTag(t, item).0.titles;
    forall j | 0 <= j < |t.titles| && j != item ensures t.titles[j] in rest {
      if j < item { assert rest[j] == t.titles[j]; } else { assert rest[j - 1] == t.titles[j]; }
    }
  }
}
