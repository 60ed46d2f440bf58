/** The Charcoal selection store (Sources/Charcoal/Selection/FilterSelectionStore.swift):
    a set of query items kept against the filter tree. */
module CharcoalStore {
  import opened Wrappers
  import opened Filters
  import opened Selection
  import Text

  type Store = set<QueryItem>

  /** The item `queryItem(for:)` looks for: with a value, the item with the
      filter's key and value; without one, for a leaf, any item named by the
      key; a value-less filter with subfilters has no item of its own. */
  predicate Matches(f: Filter, q: QueryItem) {
    if f.value.Some? then q.name == f.key && q.value == f.value
    else |f.subfilters| == 0 && q.name == f.key
  }

  predicate HasItem(s: Store, f: Filter) {
    exists q :: q in s && Matches(f, q)
  }

  /** At most one item of `s` belongs to `f`. Always so for a filter with a value. */
  predicate Single(s: Store, f: Filter) {
    forall q1, q2 :: q1 in s && q2 in s && Matches(f, q1) && Matches(f, q2) ==> q1 == q2
  }

  /** `Single` for `f` and every descendant. */
  predicate AllSingle(s: Store, f: Filter)
    decreases f
  {
    Single(s, f) && forall i :: 0 <= i < |f.subfilters| ==> AllSingle(s, f.subfilters[i])
  }

  /** No node of the tree rooted at `f` has an item in `s`. */
  predicate Cleared(s: Store, f: Filter)
    decreases f
  {
    !HasItem(s, f) && forall i :: 0 <= i < |f.subfilters| ==> Cleared(s, f.subfilters[i])
  }

  /** `q` belongs to some node of the tree rooted at `f`. */
  predicate MatchesInTree(f: Filter, q: QueryItem)
    decreases f
  {
    Matches(f, q) || exists i :: 0 <= i < |f.subfilters| && MatchesInTree(f.subfilters[i], q)
  }

  /** `k` is the key of some node of the tree rooted at `f`. */
  predicate KeyInTree(f: Filter, k: string)
    decreases f
  {
    f.key == k || exists i :: 0 <= i < |f.subfilters| && KeyInTree(f.subfilters[i], k)
  }

  /** `queryItem(for:)`: the first matching item. A set has no defined order, so
      which of several matching items is found is left open. */
  ghost function QueryItemFor(s: Store, f: Filter): (r: Option<QueryItem>)
    ensures r.Some? <==> HasItem(s, f)
    ensures r.Some? ==> r.value in s && Matches(f, r.value)
  {
    if HasItem(s, f) then
      var q :| q in s && Matches(f, q);
      Some(q)
    else None
  }

  /** `value(for:)` read as a `String`. */
  ghost function ValueString(s: Store, f: Filter): Option<string> {
    match QueryItemFor(s, f)
    case Some(q) => q.value
    case None => None
  }

  /** `value(for:)` read as an `Int`. */
  ghost function ValueInt(s: Store, f: Filter): Option<int> {
    match ValueString(s, f)
    case Some(v) => Text.ParseInt(v)
    case None => None
  }

  /** `isSelected`: a map filter follows its radius filter, a range filter is
      selected when some subfilter is, any other filter when it has an item. */
  predicate IsSelected(s: Store, f: Filter)
    decreases f
  {
    match f.kind
    case Map(_, _, radius, _) => IsSelected(s, radius)
    case Range(_, _) => exists i :: 0 <= i < |f.subfilters| && IsSelected(s, f.subfilters[i])
    case _ => HasItem(s, f)
  }

  /** `_removeValues(for:withSubfilters: false)`: drop the filter's own item. */
  ghost function RemoveOwn(s: Store, f: Filter): (r: Store)
    ensures r <= s
    ensures forall q :: q in s && q !in r ==> Matches(f, q)
    ensures Single(s, f) ==> !HasItem(r, f)
  {
    match QueryItemFor(s, f)
    case Some(q) => s - {q}
    case None => s
  }

  /** `_removeValues(for:)`: drop the filter's own item, then, in order, the
      items of every subfilter's tree. Only items of the tree go. */
  ghost function RemoveValues(s: Store, f: Filter): (r: Store)
    ensures r <= s
    ensures forall q :: q in s && q !in r ==> MatchesInTree(f, q)
    decreases f
  {
    RemoveFrom(RemoveOwn(s, f), f, 0)
  }

  ghost function RemoveFrom(s: Store, f: Filter, i: nat): (r: Store)
    requires i <= |f.subfilters|
    ensures r <= s
    ensures forall q :: q in s && q !in r ==> exists j :: i <= j < |f.subfilters| && MatchesInTree(f.subfilters[j], q)
    decreases f, |f.subfilters| - i
  {
    if i == |f.subfilters| then s
    else RemoveFrom(RemoveValues(s, f.subfilters[i]), f, i + 1)
  }

  /** `_setValue`: remove the filter's values, then store the rendered value
      under the filter's key unless it is missing or empty. */
  ghost function SetValue(s: Store, f: Filter, v: Option<string>): (r: Store)
    ensures v.Some? && v.value != "" ==> QueryItem(f.key, v) in r
    ensures forall q :: q in r && q !in s ==> q == QueryItem(f.key, v) && v.Some? && v.value != ""
  {
    var cleared := RemoveValues(s, f);
    if v.Some? && v.value != "" then cleared + {QueryItem(f.key, v)} else cleared
  }

  /** `toggleValue`: the new store and the returned flag. */
  ghost function ToggleValue(s: Store, f: Filter): (r: (Store, bool))
    ensures r.1 == !IsSelected(s, f)
  {
    var wasSelected := IsSelected(s, f);
    var cleared := RemoveValues(s, f);
    (if !wasSelected then SetValue(cleared, f, f.value) else cleared, !wasSelected)
  }

  /** `queryItems(for:)`: the filter's own item, or else the items of its
      subfilters in order. Every item returned is stored and belongs to the tree. */
  ghost function QueryItems(s: Store, f: Filter): (r: seq<QueryItem>)
    ensures forall q :: q in r ==> q in s && MatchesInTree(f, q)
    ensures HasItem(s, f) ==> |r| == 1 && Matches(f, r[0])
    decreases f
  {
    match QueryItemFor(s, f)
    case Some(q) => [q]
    case None => QueryItemsFrom(s, f, 0)
  }

  ghost function QueryItemsFrom(s: Store, f: Filter, i: nat): (r: seq<QueryItem>)
    requires i <= |f.subfilters|
    ensures forall q :: q in r ==> q in s && exists j :: i <= j < |f.subfilters| && MatchesInTree(f.subfilters[j], q)
    decreases f, |f.subfilters| - i
  {
    if i == |f.subfilters| then []
    else QueryItems(s, f.subfilters[i]) + QueryItemsFrom(s, f, i + 1)
  }

  /** `titles(for:)`. `distanceTitle` stands for the map distance formatter. */
  ghost function Titles(s: Store, f: Filter, distanceTitle: int -> string): seq<string>
    decreases f
  {
    match f.kind
    case Range(low, high) => RangeTitle(ValueString(s, low), ValueString(s, high))
    case Stepper =>
      (match ValueString(s, f)
       case Some(v) => [v]
       case None => [])
    case Map(_, _, radius, name) =>
      (match ValueString(s, name)
       case Some(n) => [n]
       case None =>
         match ValueInt(s, radius)
         case Some(r) => [distanceTitle(r)]
         case None => [])
    case _ =>
      if IsSelected(s, f) then [f.title] else TitlesFrom(s, f, distanceTitle, 0)
  }

  ghost function TitlesFrom(s: Store, f: Filter, distanceTitle: int -> string, i: nat): seq<string>
    requires i <= |f.subfilters|
    decreases f, |f.subfilters| - i
  {
    if i == |f.subfilters| then []
    else Titles(s, f.subfilters[i], distanceTitle) + TitlesFrom(s, f, distanceTitle, i + 1)
  }

  /** `isValid`: a range filter whose two bounds both read as integers must
      have low <= high; every other filter is valid. */
  ghost function IsValid(s: Store, f: Filter): (r: bool)
    ensures !r ==> f.kind.Range?
  {
    match f.kind
    case Range(low, high) =>
      var l := ValueInt(s, low);
      var h := ValueInt(s, high);
      if l.Some? && h.Some? then l.value <= h.value else true
    case _ => true
  }

  /** `hasSelectedSubfilters(for:where:)`: the filter or some descendant is
      selected and satisfies `p`. */
  predicate HasSelectedSubfilters(s: Store, f: Filter, p: Filter -> bool)
    decreases f
  {
    (IsSelected(s, f) && p(f)) ||
    exists i :: 0 <= i < |f.subfilters| && HasSelectedSubfilters(s, f.subfilters[i], p)
  }

  /** `selectedSubfilters(for:where:)`: the topmost selected nodes satisfying
      `p`, in tree order. */
  function SelectedSubfilters(s: Store, f: Filter, p: Filter -> bool): (r: seq<Filter>)
    ensures forall g :: g in r ==> IsSelected(s, g) && p(g)
    decreases f
  {
    if IsSelected(s, f) && p(f) then [f] else SelectedFrom(s, f, p, 0)
  }

  function SelectedFrom(s: Store, f: Filter, p: Filter -> bool, i: nat): (r: seq<Filter>)
    requires i <= |f.subfilters|
    ensures forall g :: g in r ==> IsSelected(s, g) && p(g)
    decreases f, |f.subfilters| - i
  {
    if i == |f.subfilters| then []
    else SelectedSubfilters(s, f.subfilters[i], p) + SelectedFrom(s, f, p, i + 1)
  }

  function AnyFilter(): Filter -> bool {
    (g: Filter) => true
  }

  /** The private `syncSelection(with: Filter)`: walking the subfilters in
      order, a filter still selected loses its own item as soon as the next
      subfilter's tree has a selection; the keys of every processed filter are
      returned. */
  ghost function SyncNode(s: Store, f: Filter): (r: (Store, set<string>))
    ensures r.0 <= s
    ensures forall q :: q in s && q !in r.0 ==> MatchesInTree(f, q)
    ensures forall k :: k in r.1 <==> KeyInTree(f, k)
    decreases f
  {
    var (cleaned, keys) := SyncFrom(s, f, IsSelected(s, f), 0);
    (cleaned, {f.key} + keys)
  }

  ghost function SyncFrom(s: Store, f: Filter, selected: bool, i: nat): (r: (Store, set<string>))
    requires i <= |f.subfilters|
    ensures r.0 <= s
    ensures forall q :: q in s && q !in r.0 ==>
      Matches(f, q) || exists j :: i <= j < |f.subfilters| && MatchesInTree(f.subfilters[j], q)
    ensures forall k :: k in r.1 <==> exists j :: i <= j < |f.subfilters| && KeyInTree(f.subfilters[j], k)
    decreases f, |f.subfilters| - i
  {
    if i == |f.subfilters| then (s, {})
    else
      var sub := f.subfilters[i];
      var clear := selected && HasSelectedSubfilters(s, sub, AnyFilter());
      var s1 := if clear then RemoveOwn(s, f) else s;
      var (s2, subKeys) := SyncNode(s1, sub);
      var (s3, restKeys) := SyncFrom(s2, f, selected && !clear, i + 1);
      (s3, subKeys + restKeys)
  }

  /** `syncSelection(with:)`: clean up the hierarchy, then keep only the items
      named by a key of the tree. Nothing is added; an item disappears only
      when its name is no key of the tree or when it belongs to a node. */
  ghost function SyncSelection(s: Store, root: Filter): (r: Store)
    ensures r <= s
    ensures forall q :: q in r ==> KeyInTree(root, q.name)
    ensures forall q :: q in s && KeyInTree(root, q.name) && !MatchesInTree(root, q) ==> q in r
  {
    var (cleaned, keys) := SyncNode(s, root);
    set q | q in cleaned && q.name in keys
  }

  // ---------------------------------------------------------------------------
  // Properties

  /** Removing items keeps a tree cleared and keeps `Single`/`AllSingle`. */
  lemma {:induction false} ClearedShrinks(s: Store, t: Store, f: Filter)
    requires t <= s && Cleared(s, f)
    ensures Cleared(t, f)
    decreases f
  {
    forall i | 0 <= i < |f.subfilters| ensures Cleared(t, f.subfilters[i]) {
      ClearedShrinks(s, t, f.subfilters[i]);
    }
  }

  lemma {:induction false} AllSingleShrinks(s: Store, t: Store, f: Filter)
    requires t <= s && AllSingle(s, f)
    ensures AllSingle(t, f)
    decreases f
  {
    forall i | 0 <= i < |f.subfilters| ensures AllSingle(t, f.subfilters[i]) {
      AllSingleShrinks(s, t, f.subfilters[i]);
    }
  }

  /** `removeValues(for:)` deselects the filter and every descendant, provided
      no node of the tree owns more than one item (a value-less leaf could own
      several items with its key, of which one call removes only one). */
  lemma {:induction false} RemoveValuesClears(s: Store, f: Filter)
    requires AllSingle(s, f)
    ensures Cleared(RemoveValues(s, f), f)
    decreases f, 1
  {
    var s1 := RemoveOwn(s, f);
    AllSingleShrinks(s, s1, f);
    RemoveFromClears(s1, f, 0);
    var r := RemoveValues(s, f);
    assert !HasItem(r, f);
  }

  lemma {:induction false} RemoveFromClears(s: Store, f: Filter, i: nat)
    requires i <= |f.subfilters|
    requires forall j :: i <= j < |f.subfilters| ==> AllSingle(s, f.subfilters[j])
    ensures forall j :: i <= j < |f.subfilters| ==> Cleared(RemoveFrom(s, f, i), f.subfilters[j])
    decreases f, 0, |f.subfilters| - i
  {
    if i < |f.subfilters| {
      var s1 := RemoveValues(s, f.subfilters[i]);
      RemoveValuesClears(s, f.subfilters[i]);
      forall j | i < j < |f.subfilters| ensures AllSingle(s1, f.subfilters[j]) {
        AllSingleShrinks(s, s1, f.subfilters[j]);
      }
      RemoveFromClears(s1, f, i + 1);
      ClearedShrinks(s1, RemoveFrom(s, f, i), f.subfilters[i]);
    }
  }

  /** Removing a filter's values leaves every item outside its tree in place. */
  lemma RemoveValuesFrame(s: Store, f: Filter, q: QueryItem)
    requires q in s && !MatchesInTree(f, q)
    ensures q in RemoveValues(s, f)
  {
  }

  /** After `setValue(v)` on a value-less leaf that owned at most one item,
      `value(for:)` reads back `v` and the leaf is selected. */
  lemma SetValueThenValue(s: Store, f: Filter, v: string)
    requires f.value.None? && |f.subfilters| == 0 && Single(s, f)
    requires v != ""
    ensures ValueString(SetValue(s, f, Some(v)), f) == Some(v)
    ensures HasItem(SetValue(s, f, Some(v)), f)
  {
    var cleared := RemoveValues(s, f);
    assert cleared == RemoveOwn(s, f);
    var r := SetValue(s, f, Some(v));
    assert r == cleared + {QueryItem(f.key, Some(v))};
    assert forall q :: q in r && Matches(f, q) ==> q == QueryItem(f.key, Some(v));
  }

  /** `setValue(10, for:)` followed by reading an `Int` gives 10 back. */
  lemma SetIntThenValue(s: Store, f: Filter, n: int)
    requires f.value.None? && |f.subfilters| == 0 && Single(s, f)
    ensures ValueInt(SetValue(s, f, Some(Text.IntToString(n))), f) == Some(n)
  {
    SetValueThenValue(s, f, Text.IntToString(n));
    Text.IntRoundTrip(n);
  }

  /** `setValue(from:)` selects a filter that carries a non-empty value. */
  lemma SetValueFromSelects(s: Store, f: Filter)
    requires f.value.Some? && f.value.value != ""
    ensures HasItem(SetValue(s, f, f.value), f)
    ensures ValueString(SetValue(s, f, f.value), f) == f.value
  {
    assert Matches(f, QueryItem(f.key, f.value));
  }

  /** `setValue` with nil or a value rendering to "" leaves the filter without
      an item of its own. */
  lemma SetEmptyDeselects(s: Store, f: Filter, v: Option<string>)
    requires v.None? || v == Some("")
    requires Single(s, f)
    ensures !HasItem(SetValue(s, f, v), f)
  {
    var s1 := RemoveOwn(s, f);
    assert !HasItem(s1, f);
    assert RemoveValues(s, f) <= s1;
  }

  /** `toggleValue` on a filter with a non-empty value flips its selection and
      returns the new state. */
  lemma ToggleFlips(s: Store, f: Filter)
    requires f.value.Some? && f.value.value != ""
    requires !f.kind.Range? && !f.kind.Map?
    ensures IsSelected(ToggleValue(s, f).0, f) == ToggleValue(s, f).1
    ensures ToggleValue(s, f).1 == !IsSelected(s, f)
  {
    var cleared := RemoveValues(s, f);
    assert Single(s, f);
    var s1 := RemoveOwn(s, f);
    assert !HasItem(s1, f);
    assert cleared <= s1;
    if !IsSelected(s, f) {
      SetValueFromSelects(cleared, f);
    }
  }

  /** A range filter built by the factory is selected iff some item names its
      low or its high key. */
  lemma RangeSelected(s: Store, title: string, key: string, lowKey: string, highKey: string, style: Style)
    ensures IsSelected(s, RangeFilter(title, key, lowKey, highKey, style)) <==>
            exists q :: q in s && (q.name == lowKey || q.name == highKey)
  {
    var f := RangeFilter(title, key, lowKey, highKey, style);
    assert IsSelected(s, f) <==> IsSelected(s, f.subfilters[0]) || IsSelected(s, f.subfilters[1]);
  }

  /** A map filter built by the factory is selected iff some item names its
      radius key. */
  lemma MapSelected(s: Store, title: Option<string>, key: string, latitudeKey: string, longitudeKey: string,
                    radiusKey: string, locationKey: string, defaultTitle: string)
    ensures IsSelected(s, MapFilter(title, key, latitudeKey, longitudeKey, radiusKey, locationKey, defaultTitle)) <==>
            exists q :: q in s && q.name == radiusKey
  {
  }

  /** Storing the integers `l` and `h` in a range filter's two bounds makes it
      valid exactly when l <= h, and titles it "l - h". */
  lemma RangeValidity(s: Store, title: string, key: string, lowKey: string, highKey: string, style: Style, l: int, h: int)
    requires lowKey != highKey
    requires Single(s, Leaf(lowKey)) && Single(s, Leaf(highKey))
    ensures var f := RangeFilter(title, key, lowKey, highKey, style);
      var s2 := SetValue(SetValue(s, f.kind.low, Some(Text.IntToString(l))), f.kind.high, Some(Text.IntToString(h)));
      (IsValid(s2, f) <==> l <= h) &&
      Titles(s2, f, (r: int) => "") == [Text.IntToString(l) + " - " + Text.IntToString(h)]
  {
    var f := RangeFilter(title, key, lowKey, highKey, style);
    var ls := Text.IntToString(l);
    var hs := Text.IntToString(h);
    var s1 := SetValue(s, f.kind.low, Some(ls));
    SetValueThenValue(s, f.kind.low, ls);
    assert Single(s1, f.kind.high) by {
      assert forall q :: q in s1 && q !in s ==> q.name == lowKey;
    }
    var s2 := SetValue(s1, f.kind.high, Some(hs));
    SetValueThenValue(s1, f.kind.high, hs);
    assert forall q :: q in s2 && Matches(f.kind.low, q) ==> q == QueryItem(lowKey, Some(ls)) by {
      assert forall q :: q in s1 && Matches(f.kind.low, q) ==> q == QueryItem(lowKey, Some(ls));
    }
    assert QueryItem(lowKey, Some(ls)) in s2;
    assert ValueString(s2, f.kind.low) == Some(ls);
    Text.IntRoundTrip(l);
    Text.IntRoundTrip(h);
  }

  /** `hasSelectedSubfilters` holds exactly when `selectedSubfilters` is non-empty. */
  lemma {:induction false} HasSelectedIffSelected(s: Store, f: Filter, p: Filter -> bool)
    ensures HasSelectedSubfilters(s, f, p) <==> |SelectedSubfilters(s, f, p)| > 0
    decreases f, 1
  {
    if !(IsSelected(s, f) && p(f)) {
      SelectedFromNonEmpty(s, f, p, 0);
    }
  }

  lemma {:induction false} SelectedFromNonEmpty(s: Store, f: Filter, p: Filter -> bool, i: nat)
    requires i <= |f.subfilters|
    ensures (exists j :: i <= j < |f.subfilters| && HasSelectedSubfilters(s, f.subfilters[j], p))
            <==> |SelectedFrom(s, f, p, i)| > 0
    decreases f, 0, |f.subfilters| - i
  {
    if i < |f.subfilters| {
      HasSelectedIffSelected(s, f.subfilters[i], p);
      SelectedFromNonEmpty(s, f, p, i + 1);
      if HasSelectedSubfilters(s, f.subfilters[i], p) {
      } else {
        assert (exists j :: i <= j < |f.subfilters| && HasSelectedSubfilters(s, f.subfilters[j], p))
           <==> (exists j :: i + 1 <= j < |f.subfilters| && HasSelectedSubfilters(s, f.subfilters[j], p));
      }
    }
  }

  /** A tree of plain filters: no range, stepper or map node anywhere. */
  predicate Plain(f: Filter)
    decreases f
  {
    !f.kind.Range? && !f.kind.Stepper? && !f.kind.Map? &&
    forall i :: 0 <= i < |f.subfilters| ==> Plain(f.subfilters[i])
  }

  function TitlesOf(fs: seq<Filter>): (r: seq<string>)
    ensures |r| == |fs|
    ensures forall i :: 0 <= i < |fs| ==> r[i] == fs[i].title
  {
    if |fs| == 0 then [] else [fs[0].title] + TitlesOf(fs[1..])
  }

  lemma TitlesOfAppend(a: seq<Filter>, b: seq<Filter>)
    ensures TitlesOf(a + b) == TitlesOf(a) + TitlesOf(b)
  {
  }

  /** For a tree of plain filters, `titles(for:)` is the titles of the
      topmost selected filters, in tree order. */
  lemma {:induction false} PlainTitles(s: Store, f: Filter, d: int -> string)
    requires Plain(f)
    ensures Titles(s, f, d) == TitlesOf(SelectedSubfilters(s, f, AnyFilter()))
    decreases f, 1
  {
    if !IsSelected(s, f) {
      PlainTitlesFrom(s, f, d, 0);
    }
  }

  lemma {:induction false} PlainTitlesFrom(s: Store, f: Filter, d: int -> string, i: nat)
    requires Plain(f) && i <= |f.subfilters|
    ensures TitlesFrom(s, f, d, i) == TitlesOf(SelectedFrom(s, f, AnyFilter(), i))
    decreases f, 0, |f.subfilters| - i
  {
    if i < |f.subfilters| {
      PlainTitles(s, f.subfilters[i], d);
      PlainTitlesFrom(s, f, d, i + 1);
      TitlesOfAppend(SelectedSubfilters(s, f.subfilters[i], AnyFilter()), SelectedFrom(s, f, AnyFilter(), i + 1));
    }
  }

  /** Selection only grows with the store. */
  lemma {:induction false} IsSelectedMonotone(w: Store, s: Store, f: Filter)
    requires w <= s && IsSelected(w, f)
    ensures IsSelected(s, f)
    decreases f
  {
    match f.kind
    case Map(_, _, radius, _) =>
      IsSelectedMonotone(w, s, radius);
    case Range(_, _) =>
      var i :| 0 <= i < |f.subfilters| && IsSelected(w, f.subfilters[i]);
      IsSelectedMonotone(w, s, f.subfilters[i]);
    case _ =>
  }

  lemma {:induction false} HasSelectedMonotone(w: Store, s: Store, f: Filter, p: Filter -> bool)
    requires w <= s && HasSelectedSubfilters(w, f, p)
    ensures HasSelectedSubfilters(s, f, p)
    decreases f
  {
    if IsSelected(w, f) && p(f) {
      IsSelectedMonotone(w, s, f);
    } else {
      var i :| 0 <= i < |f.subfilters| && HasSelectedSubfilters(w, f.subfilters[i], p);
      HasSelectedMonotone(w, s, f.subfilters[i], p);
    }
  }

  /** From subfilter `i` on, a still-selected filter loses its own item by
      the time the walk reaches subfilter `j`, as long as the items `w` that
      select something in subfilter `j`'s tree belong to none of the trees
      walked before it. */
  lemma {:induction false} SyncFromClears(s: Store, root: Filter, i: nat, j: nat, w: Store)
    requires Single(s, root)
    requires i <= j < |root.subfilters|
    requires w <= s && HasSelectedSubfilters(w, root.subfilters[j], AnyFilter())
    requires forall q, k :: q in w && i <= k < j ==> !MatchesInTree(root.subfilters[k], q)
    ensures !HasItem(SyncFrom(s, root, true, i).0, root)
    decreases j - i
  {
    var sub := root.subfilters[i];
    HasSelectedMonotone(w, s, root.subfilters[j], AnyFilter());
    if HasSelectedSubfilters(s, sub, AnyFilter()) {
      var s1 := RemoveOwn(s, root);
      var (s2, _) := SyncNode(s1, sub);
      var (s3, _) := SyncFrom(s2, root, false, i + 1);
      assert SyncFrom(s, root, true, i).0 == s3;
    } else {
      assert i < j;
      var (s2, _) := SyncNode(s, sub);
      assert w <= s2 by {
        forall q | q in w ensures q in s2 {
          assert !MatchesInTree(root.subfilters[i], q);
        }
      }
      SyncFromClears(s2, root, i + 1, j, w);
      assert SyncFrom(s, root, true, i).0 == SyncFrom(s2, root, true, i + 1).0;
    }
  }

  /** After `syncSelection`, a filter no longer has its own item once one of
      its subfilters' trees holds a selection, made by items `w` that belong to
      none of the earlier subfilters' trees (for the first subfilter, any
      selection). */
  lemma SyncClearsSelectedParent(s: Store, root: Filter, j: nat, w: Store)
    requires !root.kind.Range? && !root.kind.Map? && Single(s, root)
    requires j < |root.subfilters|
    requires w <= s && HasSelectedSubfilters(w, root.subfilters[j], AnyFilter())
    requires forall q, k :: q in w && 0 <= k < j ==> !MatchesInTree(root.subfilters[k], q)
    ensures !HasItem(SyncSelection(s, root), root)
  {
    var (cleaned, _) := SyncNode(s, root);
    if HasItem(s, root) {
      SyncFromClears(s, root, 0, j, w);
      assert cleaned == SyncFrom(s, root, true, 0).0;
    }
    assert !HasItem(cleaned, root);
  }

  /** `g` is reached from `f` without passing a node that owns an item. */
  predicate FreePath(s: Store, f: Filter, g: Filter)
    decreases f
  {
    f == g || (!HasItem(s, f) && exists i :: 0 <= i < |f.subfilters| && FreePath(s, f.subfilters[i], g))
  }

  lemma {:induction false} QueryItemsFromMember(s: Store, f: Filter, i: nat, q: QueryItem)
    requires i <= |f.subfilters|
    ensures q in QueryItemsFrom(s, f, i) <==> exists j :: i <= j < |f.subfilters| && q in QueryItems(s, f.subfilters[j])
    decreases |f.subfilters| - i
  {
    if i < |f.subfilters| {
      QueryItemsFromMember(s, f, i + 1, q);
    }
  }

  /** `queryItems(for:)` returns the items of the nodes reached without passing
      a node that owns an item: every item returned belongs to such a node,
      and such a node's item is returned when it is the node's only one. */
  lemma {:induction false} QueryItemsExact(s: Store, f: Filter, q: QueryItem)
    ensures q in QueryItems(s, f) ==> q in s && exists g :: FreePath(s, f, g) && Matches(g, q)
    ensures q in s && (exists g :: FreePath(s, f, g) && Matches(g, q) && Single(s, g)) ==> q in QueryItems(s, f)
    decreases f
  {
    if !HasItem(s, f) {
      QueryItemsFromMember(s, f, 0, q);
      if q in QueryItems(s, f) {
        var j :| 0 <= j < |f.subfilters| && q in QueryItems(s, f.subfilters[j]);
        QueryItemsExact(s, f.subfilters[j], q);
        var g :| FreePath(s, f.subfilters[j], g) && Matches(g, q);
        assert FreePath(s, f, g);
      }
      if q in s && exists g :: FreePath(s, f, g) && Matches(g, q) && Single(s, g) {
        var g :| FreePath(s, f, g) && Matches(g, q) && Single(s, g);
        assert f != g;
        var j :| 0 <= j < |f.subfilters| && FreePath(s, f.subfilters[j], g);
        QueryItemsExact(s, f.subfilters[j], q);
      }
    } else if q in QueryItems(s, f) {
      assert FreePath(s, f, f);
    }
  }
}
