/** The older selection store of the Core target
    (Sources/Core/Selection/FilterSelectionStore.swift). Lookup and removal of
    items work as in the Charcoal store and are shared with it; selection,
    setting, toggling and titles differ. The Core `RangeFilter` and `MapFilter`
    classes are represented by the range and map kinds of `Filters.Filter`. */
module CoreStore {
  import opened Wrappers
  import opened Filters
  import opened Selection
  import CS = CharcoalStore
  import Text

  type Store = set<QueryItem>

  /** `isSelected`: an own item, or else for a map or range filter some
      selected subfilter, and for any other filter a non-empty list of
      subfilters that are all selected. */
  predicate IsSelected(s: Store, f: Filter)
    decreases f
  {
    CS.HasItem(s, f) ||
    if f.kind.Map? || f.kind.Range? then
      exists i :: 0 <= i < |f.subfilters| && IsSelected(s, f.subfilters[i])
    else
      |f.subfilters| > 0 && forall i :: 0 <= i < |f.subfilters| ==> IsSelected(s, f.subfilters[i])
  }

  /** `setValue`: remove the filter's values, then store `String(value)`
      whenever a value is given, the empty string included. */
  ghost function SetValue(s: Store, f: Filter, v: Option<string>): (r: Store)
    ensures v.Some? ==> QueryItem(f.key, v) in r
    ensures forall q :: q in r && q !in s ==> v.Some? && q == QueryItem(f.key, v)
  {
    var cleared := CS.RemoveValues(s, f);
    if v.Some? then cleared + {QueryItem(f.key, v)} else cleared
  }

  /** `toggleValue`: remove the values of a selected filter, or else set the
      filter's own value. */
  ghost function ToggleValue(s: Store, f: Filter): Store {
    if IsSelected(s, f) then CS.RemoveValues(s, f) else SetValue(s, f, f.value)
  }

  /** `titles(for:)`. */
  ghost function Titles(s: Store, f: Filter): seq<string>
    decreases f
  {
    match f.kind
    case Range(low, high) => RangeTitle(CS.ValueString(s, low), CS.ValueString(s, high))
    case _ => if IsSelected(s, f) then [f.title] else TitlesFrom(s, f, 0)
  }

  ghost function TitlesFrom(s: Store, f: Filter, i: nat): seq<string>
    requires i <= |f.subfilters|
    decreases f, |f.subfilters| - i
  {
    if i == |f.subfilters| then []
    else Titles(s, f.subfilters[i]) + TitlesFrom(s, f, i + 1)
  }

  /** `isValid`: only a range filter with two integer bounds low > high fails. */
  ghost function IsValid(s: Store, f: Filter): (r: bool)
    ensures !r ==> f.kind.Range?
  {
    match f.kind
    case Range(low, high) =>
      var l := CS.ValueInt(s, low);
      var h := CS.ValueInt(s, high);
      if l.Some? && h.Some? then l.value <= h.value else true
    case _ => true
  }

  /** `hasSelectedSubfilters(for:)`. */
  predicate HasSelectedSubfilters(s: Store, f: Filter)
    decreases f
  {
    IsSelected(s, f) || exists i :: 0 <= i < |f.subfilters| && HasSelectedSubfilters(s, f.subfilters[i])
  }

  /** `selectedSubfilters(for:)`: the topmost selected filters in tree order. */
  function SelectedSubfilters(s: Store, f: Filter): (r: seq<Filter>)
    ensures forall g :: g in r ==> IsSelected(s, g)
    decreases f
  {
    if IsSelected(s, f) then [f] else SelectedFrom(s, f, 0)
  }

  function SelectedFrom(s: Store, f: Filter, i: nat): (r: seq<Filter>)
    requires i <= |f.subfilters|
    ensures forall g :: g in r ==> IsSelected(s, g)
    decreases f, |f.subfilters| - i
  {
    if i == |f.subfilters| then []
    else SelectedSubfilters(s, f.subfilters[i]) + SelectedFrom(s, f, i + 1)
  }

  // ---------------------------------------------------------------------------
  // Properties

  /** Every leaf of the tree has an item of its own. */
  predicate LeavesSet(s: Store, f: Filter)
    decreases f
  {
    (|f.subfilters| == 0 ==> CS.HasItem(s, f)) &&
    forall i :: 0 <= i < |f.subfilters| ==> LeavesSet(s, f.subfilters[i])
  }

  /** A filter is selected as soon as every leaf below it is, with no item of
      its own needed: "all subfilters selected" propagates up the tree. */
  lemma {:induction false} LeavesSelectTree(s: Store, f: Filter)
    requires LeavesSet(s, f)
    ensures IsSelected(s, f)
    decreases f
  {
    if |f.subfilters| > 0 {
      forall i | 0 <= i < |f.subfilters| ensures IsSelected(s, f.subfilters[i]) {
        LeavesSelectTree(s, f.subfilters[i]);
      }
      assert IsSelected(s, f.subfilters[0]);
    }
  }

  /** A tree with no item anywhere is not selected. */
  lemma {:induction false} ClearedNotSelected(s: Store, f: Filter)
    requires CS.Cleared(s, f)
    ensures !IsSelected(s, f) && !HasSelectedSubfilters(s, f)
    decreases f
  {
    forall i | 0 <= i < |f.subfilters| ensures !IsSelected(s, f.subfilters[i]) && !HasSelectedSubfilters(s, f.subfilters[i]) {
      ClearedNotSelected(s, f.subfilters[i]);
    }
    assert !CS.HasItem(s, f);
    if |f.subfilters| > 0 {
      assert !IsSelected(s, f.subfilters[0]);
    }
  }

  /** A range filter built by the factory is selected iff some item names its
      low or high key; the same holds whichever kind carries those two leaves. */
  lemma RangeSelected(s: Store, title: string, key: string, lowKey: string, highKey: string, style: Style)
    ensures IsSelected(s, RangeFilter(title, key, lowKey, highKey, style)) <==>
            exists q :: q in s && (q.name == lowKey || q.name == highKey)
  {
    var f := RangeFilter(title, key, lowKey, highKey, style);
    assert IsSelected(s, f) <==> IsSelected(s, f.subfilters[0]) || IsSelected(s, f.subfilters[1]);
  }

  /** `setValue` leaves exactly one item for a leaf that had at most one, and
      reading it back gives the value, the empty string included. */
  lemma SetValueSingle(s: Store, f: Filter, v: string)
    requires f.value.None? && |f.subfilters| == 0 && CS.Single(s, f)
    ensures CS.Single(SetValue(s, f, Some(v)), f)
    ensures CS.ValueString(SetValue(s, f, Some(v)), f) == Some(v)
  {
    var cleared := CS.RemoveValues(s, f);
    assert cleared == CS.RemoveOwn(s, f);
    var r := SetValue(s, f, Some(v));
    assert forall q :: q in r && CS.Matches(f, q) ==> q == QueryItem(f.key, Some(v));
  }

  /** `toggleValue` on a filter with a value flips its selection. */
  lemma ToggleFlips(s: Store, f: Filter)
    requires f.value.Some? && CS.AllSingle(s, f)
    ensures IsSelected(ToggleValue(s, f), f) == !IsSelected(s, f)
  {
    if IsSelected(s, f) {
      CS.RemoveValuesClears(s, f);
      ClearedNotSelected(CS.RemoveValues(s, f), f);
    } else {
      assert CS.Matches(f, QueryItem(f.key, f.value));
    }
  }

  /** Titles of a selected non-range filter are its own title; otherwise the
      concatenation over the subfilters. For trees without range filters
      this is the titles of `selectedSubfilters`. */
  lemma {:induction false} PlainTitles(s: Store, f: Filter)
    requires NoRange(f)
    ensures Titles(s, f) == CS.TitlesOf(SelectedSubfilters(s, f))
    decreases f, 1
  {
    if !IsSelected(s, f) {
      PlainTitlesFrom(s, f, 0);
    }
  }

  lemma {:induction false} PlainTitlesFrom(s: Store, f: Filter, i: nat)
    requires NoRange(f) && i <= |f.subfilters|
    ensures TitlesFrom(s, f, i) == CS.TitlesOf(SelectedFrom(s, f, i))
    decreases f, 0, |f.subfilters| - i
  {
    if i < |f.subfilters| {
      PlainTitles(s, f.subfilters[i]);
      PlainTitlesFrom(s, f, i + 1);
      CS.TitlesOfAppend(SelectedSubfilters(s, f.subfilters[i]), SelectedFrom(s, f, i + 1));
    }
  }

  predicate NoRange(f: Filter)
    decreases f
  {
    !f.kind.Range? && forall i :: 0 <= i < |f.subfilters| ==> NoRange(f.subfilters[i])
  }

  /** The title of a range filter: empty without bounds, else "low - high"
      with "..." standing in for a missing bound. */
  lemma RangeTitles(s: Store, title: string, key: string, lowKey: string, highKey: string, style: Style)
    ensures var f := RangeFilter(title, key, lowKey, highKey, style);
      var l := CS.ValueString(s, f.kind.low);
      var h := CS.ValueString(s, f.kind.high);
      (Titles(s, f) == [] <==> l.None? && h.None?) &&
      (l.Some? || h.Some? ==> Titles(s, f) == [l.GetOr("...") + " - " + h.GetOr("...")])
  {
  }

  /** A range filter holding the integers `l` and `h` is valid iff l <= h. */
  lemma RangeValidity(s: Store, title: string, key: string, lowKey: string, highKey: string, style: Style, l: int, h: int)
    requires lowKey != highKey
    requires CS.Single(s, Leaf(lowKey)) && CS.Single(s, Leaf(highKey))
    ensures var f := RangeFilter(title, key, lowKey, highKey, style);
      IsValid(SetValue(SetValue(s, f.kind.low, Some(Text.IntToString(l))), f.kind.high, Some(Text.IntToString(h))), f)
      <==> l <= h
  {
    var f := RangeFilter(title, key, lowKey, highKey, style);
    var ls := Text.IntToString(l);
    var hs := Text.IntToString(h);
    var s1 := SetValue(s, f.kind.low, Some(ls));
    SetValueSingle(s, f.kind.low, ls);
    assert CS.Single(s1, f.kind.high) by {
      assert forall q :: q in s1 && q !in s ==> q.name == lowKey;
    }
    var s2 := SetValue(s1, f.kind.high, Some(hs));
    SetValueSingle(s1, f.kind.high, hs);
    assert forall q :: q in s2 && CS.Matches(f.kind.low, q) ==> q == QueryItem(lowKey, Some(ls)) by {
      assert forall q :: q in s1 && CS.Matches(f.kind.low, q) ==> q == QueryItem(lowKey, Some(ls));
    }
    assert QueryItem(lowKey, Some(ls)) in s2;
    Text.IntRoundTrip(l);
    Text.IntRoundTrip(h);
  }

  /** `hasSelectedSubfilters(f)` holds iff `selectedSubfilters(f)` is non-empty,
      that is iff f or some descendant is selected. */
  lemma {:induction false} HasSelectedIffSelected(s: Store, f: Filter)
    ensures HasSelectedSubfilters(s, f) <==> |SelectedSubfilters(s, f)| > 0
    decreases f, 1
  {
    if !IsSelected(s, f) {
      SelectedFromNonEmpty(s, f, 0);
    }
  }

  lemma {:induction false} SelectedFromNonEmpty(s: Store, f: Filter, i: nat)
    requires i <= |f.subfilters|
    ensures (exists j :: i <= j < |f.subfilters| && HasSelectedSubfilters(s, f.subfilters[j]))
            <==> |SelectedFrom(s, f, i)| > 0
    decreases f, 0, |f.subfilters| - i
  {
    if i < |f.subfilters| {
      HasSelectedIffSelected(s, f.subfilters[i]);
      SelectedFromNonEmpty(s, f, i + 1);
      if !HasSelectedSubfilters(s, f.subfilters[i]) {
        assert (exists j :: i <= j < |f.subfilters| && HasSelectedSubfilters(s, f.subfilters[j]))
           <==> (exists j :: i + 1 <= j < |f.subfilters| && HasSelectedSubfilters(s, f.subfilters[j]));
      }
    }
  }
}
