/** The FINN `FilterInfoBuilder`: turns the decoded filter setup of a market
    into the list of filter infos the filter screens show, and registers
    every node of a hierarchical list in a lookup table keyed by parameter
    name and value. */
module FinnInfoBuilder {
  import opened Wrappers
  import opened FinnBackend
  import opened ParamMap
  import opened FinnSelectionData
  import FinnDataSource
  import opened MultiLevel

  /** The parts of the backend setup the builder reads. */
  datatype FinnSetup = FinnSetup(market: string, rawFilterKeys: seq<string>, filters: seq<FinnFilterData>)

  /** The two key lists of a `FilterMarket`. */
  datatype MarketKeys = MarketKeys(preferenceFilterKeys: seq<string>, supportedFiltersKeys: seq<string>)

  datatype PreferenceValue = PreferenceValue(title: string, results: int, value: string)
  datatype PreferenceInfo = PreferenceInfo(parameterName: string, title: string, values: seq<PreferenceValue>)
  datatype ListValue = ListValue(title: string, results: int, value: string)

  /** The filter infos the builder produces. `RangeInfo` stands for what the
      range-info builder makes of a range filter's data. */
  datatype FilterInfo =
    | SearchQueryInfo(parameterName: string, placeholderText: string, title: string)
    | PreferenceFilterInfo(preferences: seq<PreferenceInfo>, title: string)
    | StepperInfo(unit: string, steps: int, lowerLimit: int, upperLimit: int, title: string, parameterName: string)
    | RangeInfo(data: FinnFilterData)
    | MultiLevelInfo(root: Info)
    | ListInfo(parameterName: string, title: string, values: seq<ListValue>, isMultiSelect: bool)

  type NodeLookup = map<LookupKey, Info>

  const QueryKey: string := "q"
  const CategoryKey: string := "category"
  const BedroomsKey: string := "no_of_bedrooms"

  /** `filterData(forKey:)` of the setup. */
  function SetupData(setup: FinnSetup, key: string): (r: Option<FinnFilterData>)
    ensures r.Some? ==> r.value.parameterName == key && r.value in setup.filters
    ensures r.None? <==> forall i :: 0 <= i < |setup.filters| ==> setup.filters[i].parameterName != key
  {
    DataForKey(setup.filters, key)
  }

  /** `hasQueriesWithFilters`, as the source folds it: once `true`, stays `true`. */
  function HasQueriesWithFilters(queries: seq<FinnQuery>): bool
    decreases |queries|
  {
    if |queries| == 0 then false
    else
      var soFar := HasQueriesWithFilters(queries[..|queries| - 1]);
      if soFar then soFar else queries[|queries| - 1].filter.Some?
  }

  /** The fold answers whether some value carries a nested list. */
  lemma {:induction false} HasQueriesWithFiltersMeaning(queries: seq<FinnQuery>)
    ensures HasQueriesWithFilters(queries) <==> exists i :: 0 <= i < |queries| && queries[i].filter.Some?
    decreases |queries|
  {
    if |queries| > 0 {
      var init := queries[..|queries| - 1];
      HasQueriesWithFiltersMeaning(init);
      assert forall i :: 0 <= i < |init| ==> init[i] == queries[i];
    }
  }

  /** `isMultiLevelListSelectionFilter` and `isListSelectionFilter`: exactly
      one of the two holds for any filter. */
  predicate IsMultiLevel(data: FinnFilterData) {
    HasQueriesWithFilters(data.queries)
  }

  predicate IsList(data: FinnFilterData) {
    !HasQueriesWithFilters(data.queries)
  }

  lemma ListOrMultiLevel(data: FinnFilterData)
    ensures IsList(data) != IsMultiLevel(data)
    ensures IsMultiLevel(data) <==> exists i :: 0 <= i < |data.queries| && data.queries[i].filter.Some?
  {
    HasQueriesWithFiltersMeaning(data.queries);
  }

  /** `updateSelectionStateForFilter`: the node's state from its children, or
      from the values stored for its parameter. */
  function Refresh(info: Info, m: Values): Info {
    UpdateSelectionState(info, FinnDataSource.Value(m, OtherFilter, Some(info.parameterName)))
  }

  /** Every node of the tree is registered under its own key. */
  predicate Registered(info: Info, lookup: NodeLookup)
    decreases info
  {
    && KeyOf(info) in lookup
    && forall i :: 0 <= i < |info.children| ==> Registered(info.children[i], lookup)
  }

  /** Each entry is stored under the key of the node it holds. */
  predicate WellKeyed(lookup: NodeLookup) {
    forall k :: k in lookup ==> KeyOf(lookup[k]) == k
  }

  predicate Grows(before: NodeLookup, after: NodeLookup) {
    forall k :: k in before ==> k in after
  }

  lemma {:induction false} RegisteredGrows(info: Info, before: NodeLookup, after: NodeLookup)
    requires Registered(info, before) && Grows(before, after)
    ensures Registered(info, after)
    decreases info
  {
    forall i | 0 <= i < |info.children|
      ensures Registered(info.children[i], after)
    {
      RegisteredGrows(info.children[i], before, after);
    }
  }

  /** The nodes for the first `n` values of `data` (the `queries.map` of
      `buildMultiLevelListSelectionFilterInfo`), each with its own nested list
      built first; every node, once its children are set, is registered and
      its selection state refreshed. The source registers the node object,
      whose parent is set a moment later by the caller's
      `setSubLevelFilters`; the entry here is the node as its parent holds
      it. */
  function BuildNodes(data: FinnFilterData, n: nat, isMultiSelect: bool, m: Values, lookup: NodeLookup): (r: (seq<Info>, NodeLookup))
    requires n <= |data.queries|
    ensures |r.0| == n
    ensures forall i :: 0 <= i < n ==> MadeFrom(r.0[i], data.parameterName, data.queries[i], isMultiSelect)
    decreases data, n
  {
    if n == 0 then ([], lookup)
    else
      var (prev, lookup1) := BuildNodes(data, n - 1, isMultiSelect, m, lookup);
      var q := data.queries[n - 1];
      assert q in data.queries;
      var (subs, lookup2) := SubNodes(q, m, lookup1);
      var node := QueryNode(data.parameterName, q, isMultiSelect, subs, m);
      AppendMadeFrom(prev, node, data, isMultiSelect);
      (prev + [node], lookup2[KeyOf(node) := node.(hasParent := true)])
  }

  /** A node made from value `q` of a parameter: its fields are the value's,
      it has no parent yet, and a value without a nested list gives a leaf. */
  predicate MadeFrom(node: Info, parameterName: string, q: FinnQuery, isMultiSelect: bool) {
    && node.parameterName == parameterName
    && node.title == q.title
    && node.value == q.value
    && node.results == q.totalResults
    && node.isMultiSelect == isMultiSelect
    && !node.hasParent
    && (q.filter.None? ==> node.children == [])
  }

  lemma AppendMadeFrom(prev: seq<Info>, node: Info, data: FinnFilterData, isMultiSelect: bool)
    requires |prev| < |data.queries|
    requires forall i :: 0 <= i < |prev| ==> MadeFrom(prev[i], data.parameterName, data.queries[i], isMultiSelect)
    requires MadeFrom(node, data.parameterName, data.queries[|prev|], isMultiSelect)
    ensures forall i :: 0 <= i < |prev| + 1 ==> MadeFrom((prev + [node])[i], data.parameterName, data.queries[i], isMultiSelect)
  {
    var all := prev + [node];
    forall i | 0 <= i < |prev| + 1
      ensures MadeFrom(all[i], data.parameterName, data.queries[i], isMultiSelect)
    {
      if i < |prev| {
        assert all[i] == prev[i];
      }
    }
  }

  /** The nested list of one value, if it has one: its nodes are multi-select
      and named after the nested filter's parameter. */
  function SubNodes(q: FinnQuery, m: Values, lookup: NodeLookup): (r: (seq<Info>, NodeLookup))
    ensures q.filter.None? ==> r == ([], lookup)
    ensures q.filter.Some? ==> |r.0| == |q.filter.value.queries|
    decreases q, 0
  {
    match q.filter
    case None => ([], lookup)
    case Some(f) => BuildNodes(f, |f.queries|, true, m, lookup)
  }

  /** Building nodes only adds to the lookup, keeps every entry under its own
      node's key, and registers every node it builds, nested ones included. */
  lemma {:induction false} BuildNodesRegisters(data: FinnFilterData, n: nat, isMultiSelect: bool, m: Values, lookup: NodeLookup)
    requires n <= |data.queries|
    ensures forall i :: 0 <= i < n ==>
              Registered(BuildNodes(data, n, isMultiSelect, m, lookup).0[i], BuildNodes(data, n, isMultiSelect, m, lookup).1)
    ensures Grows(lookup, BuildNodes(data, n, isMultiSelect, m, lookup).1)
    ensures WellKeyed(lookup) ==> WellKeyed(BuildNodes(data, n, isMultiSelect, m, lookup).1)
    decreases data, n
  {
    if n > 0 {
      BuildNodesRegisters(data, n - 1, isMultiSelect, m, lookup);
      var (prev, lookup1) := BuildNodes(data, n - 1, isMultiSelect, m, lookup);
      var q := data.queries[n - 1];
      assert q in data.queries;
      SubNodesRegisters(q, m, lookup1);
      var (subs, lookup2) := SubNodes(q, m, lookup1);
      var node := QueryNode(data.parameterName, q, isMultiSelect, subs, m);
      var lookup3 := lookup2[KeyOf(node) := node.(hasParent := true)];
      assert BuildNodes(data, n, isMultiSelect, m, lookup) == (prev + [node], lookup3);
      InsertNode(lookup, lookup1, lookup2, node.(hasParent := true));
      ChildrenStayRegistered(subs, node.children, lookup2, lookup3);
      AppendRegistered(prev, node, lookup1, lookup3);
    }
  }

  /** Storing a node after two growth steps still only grows the lookup and
      keeps every entry under its node's key. */
  lemma InsertNode(lookup: NodeLookup, lookup1: NodeLookup, lookup2: NodeLookup, node: Info)
    requires Grows(lookup, lookup1) && Grows(lookup1, lookup2)
    requires WellKeyed(lookup) ==> WellKeyed(lookup1)
    requires WellKeyed(lookup1) ==> WellKeyed(lookup2)
    ensures Grows(lookup1, lookup2[KeyOf(node) := node])
    ensures Grows(lookup, lookup2[KeyOf(node) := node])
    ensures WellKeyed(lookup) ==> WellKeyed(lookup2[KeyOf(node) := node])
  {
  }

  lemma {:induction false} SubNodesRegisters(q: FinnQuery, m: Values, lookup: NodeLookup)
    ensures forall i :: 0 <= i < |SubNodes(q, m, lookup).0| ==> Registered(SubNodes(q, m, lookup).0[i], SubNodes(q, m, lookup).1)
    ensures Grows(lookup, SubNodes(q, m, lookup).1)
    ensures WellKeyed(lookup) ==> WellKeyed(SubNodes(q, m, lookup).1)
    decreases q, 0
  {
    match q.filter
    case None =>
    case Some(f) => BuildNodesRegisters(f, |f.queries|, true, m, lookup);
  }

  /** One node of a hierarchical list: made from a value, given its
      children, and with its selection state refreshed. */
  function QueryNode(parameterName: string, q: FinnQuery, isMultiSelect: bool, subs: seq<Info>, m: Values): (node: Info)
    ensures node.parameterName == parameterName && node.title == q.title && node.value == q.value
    ensures node.results == q.totalResults && node.isMultiSelect == isMultiSelect && !node.hasParent
    ensures |node.children| == |subs|
    ensures forall i :: 0 <= i < |subs| ==> node.children[i].hasParent
    ensures forall i :: 0 <= i < |subs| ==> node.children[i].(hasParent := subs[i].hasParent) == subs[i]
  {
    Refresh(SetSubLevelFilters(MakeInfo(parameterName, q.title, isMultiSelect, q.totalResults, q.value), subs), m)
  }

  /** Children re-parented by `setSubLevelFilters` keep their keys and
      children, so they stay registered as the lookup grows. */
  lemma ChildrenStayRegistered(subs: seq<Info>, children: seq<Info>, before: NodeLookup, after: NodeLookup)
    requires |children| == |subs|
    requires forall i :: 0 <= i < |subs| ==> children[i].(hasParent := subs[i].hasParent) == subs[i]
    requires forall i :: 0 <= i < |subs| ==> Registered(subs[i], before)
    requires Grows(before, after)
    ensures forall i :: 0 <= i < |children| ==> Registered(children[i], after)
  {
    forall i | 0 <= i < |children|
      ensures Registered(children[i], after)
    {
      RegisteredGrows(subs[i], before, after);
    }
  }

  /** A registered list with one more registered node appended stays
      registered. */
  lemma AppendRegistered(prev: seq<Info>, node: Info, before: NodeLookup, after: NodeLookup)
    requires forall i :: 0 <= i < |prev| ==> Registered(prev[i], before)
    requires Grows(before, after)
    requires KeyOf(node) in after
    requires forall i :: 0 <= i < |node.children| ==> Registered(node.children[i], after)
    ensures forall i :: 0 <= i < |prev| + 1 ==> Registered((prev + [node])[i], after)
  {
    AllStayRegistered(prev, before, after);
    assert Registered(node, after);
  }

  lemma AllStayRegistered(nodes: seq<Info>, before: NodeLookup, after: NodeLookup)
    requires forall i :: 0 <= i < |nodes| ==> Registered(nodes[i], before)
    requires Grows(before, after)
    ensures forall i :: 0 <= i < |nodes| ==> Registered(nodes[i], after)
  {
    forall i | 0 <= i < |nodes|
      ensures Registered(nodes[i], after)
    {
      RegisteredGrows(nodes[i], before, after);
    }
  }

  /** `buildMultiLevelListSelectionFilterInfo(fromFilterData:)`: nothing when
      the parameter name is not a known filter key; otherwise a root node with
      an empty value and no results whose children are the filter's values. */
  function BuildMultiLevel(data: FinnFilterData, isFilterKey: string -> bool, m: Values, lookup: NodeLookup): (r: Option<(Info, NodeLookup)>)
    ensures r.Some? <==> isFilterKey(data.parameterName)
    ensures r.Some? ==>
              && r.value.0.value == "" && r.value.0.results == 0
              && r.value.0.title == data.title && r.value.0.parameterName == data.parameterName
              && r.value.0.isMultiSelect == (data.parameterName != CategoryKey)
              && |r.value.0.children| == |data.queries|
              && (forall i :: 0 <= i < |data.queries| ==>
                    && r.value.0.children[i].value == data.queries[i].value
                    && r.value.0.children[i].hasParent
                    && r.value.0.children[i].isMultiSelect == r.value.0.isMultiSelect)
  {
    if !isFilterKey(data.parameterName) then None
    else
      var isMultiSelect := data.parameterName != CategoryKey;
      var (children, lookup1) := BuildNodes(data, |data.queries|, isMultiSelect, m, lookup);
      var root := QueryNode(data.parameterName, FinnQuery(data.title, "", 0, None), isMultiSelect, children, m);
      Some((root, lookup1[KeyOf(root) := root]))
  }

  /** The hierarchical list registers its root and every node below it, and
      only adds to the lookup. */
  lemma MultiLevelRegisters(data: FinnFilterData, isFilterKey: string -> bool, m: Values, lookup: NodeLookup)
    requires isFilterKey(data.parameterName)
    ensures var r := BuildMultiLevel(data, isFilterKey, m, lookup).value;
            Registered(r.0, r.1) && Grows(lookup, r.1) && (WellKeyed(lookup) ==> WellKeyed(r.1))
  {
    var isMultiSelect := data.parameterName != CategoryKey;
    var (children, lookup1) := BuildNodes(data, |data.queries|, isMultiSelect, m, lookup);
    BuildNodesRegisters(data, |data.queries|, isMultiSelect, m, lookup);
    var root := QueryNode(data.parameterName, FinnQuery(data.title, "", 0, None), isMultiSelect, children, m);
    var lookup2 := lookup1[KeyOf(root) := root];
    assert BuildMultiLevel(data, isFilterKey, m, lookup) == Some((root, lookup2));
    InsertNode(lookup, lookup, lookup1, root);
    ChildrenStayRegistered(children, root.children, lookup1, lookup2);
  }

  /** Every entry `after` adds or replaces holds a node that has a parent. */
  predicate AddsParented(before: NodeLookup, after: NodeLookup) {
    forall k :: k in after && (k !in before || after[k] != before[k]) ==> after[k].hasParent
  }

  lemma AddsParentedTrans(a: NodeLookup, b: NodeLookup, c: NodeLookup)
    requires AddsParented(a, b) && AddsParented(b, c)
    ensures AddsParented(a, c)
  {
  }

  /** Every node below the root of a hierarchical list ends up with a parent,
      and so does its lookup entry: building the nodes only adds or replaces
      entries with parented nodes, and the last node's entry is that node as
      its parent holds it. */
  lemma {:induction false} BuildNodesParents(data: FinnFilterData, n: nat, isMultiSelect: bool, m: Values, lookup: NodeLookup)
    requires n <= |data.queries|
    ensures AddsParented(lookup, BuildNodes(data, n, isMultiSelect, m, lookup).1)
    ensures var r := BuildNodes(data, n, isMultiSelect, m, lookup);
            n > 0 ==> KeyOf(r.0[n - 1]) in r.1 && r.1[KeyOf(r.0[n - 1])] == r.0[n - 1].(hasParent := true)
    decreases data, n
  {
    if n > 0 {
      BuildNodesParents(data, n - 1, isMultiSelect, m, lookup);
      var (prev, lookup1) := BuildNodes(data, n - 1, isMultiSelect, m, lookup);
      var q := data.queries[n - 1];
      assert q in data.queries;
      SubNodesParents(q, m, lookup1);
      var (subs, lookup2) := SubNodes(q, m, lookup1);
      var node := QueryNode(data.parameterName, q, isMultiSelect, subs, m);
      var lookup3 := lookup2[KeyOf(node) := node.(hasParent := true)];
      assert BuildNodes(data, n, isMultiSelect, m, lookup) == (prev + [node], lookup3);
      AddsParentedTrans(lookup, lookup1, lookup2);
      assert AddsParented(lookup2, lookup3);
      AddsParentedTrans(lookup, lookup2, lookup3);
    }
  }

  lemma {:induction false} SubNodesParents(q: FinnQuery, m: Values, lookup: NodeLookup)
    ensures AddsParented(lookup, SubNodes(q, m, lookup).1)
    decreases q, 0
  {
    match q.filter
    case None =>
    case Some(f) => BuildNodesParents(f, |f.queries|, true, m, lookup);
  }

  /** In the lookup of a hierarchical list, the root's entry is the root,
      which has no parent, and every other entry the build adds or replaces
      holds a parented node, as the shared node objects of the source do. */
  lemma MultiLevelParents(data: FinnFilterData, isFilterKey: string -> bool, m: Values, lookup: NodeLookup)
    requires isFilterKey(data.parameterName)
    ensures var r := BuildMultiLevel(data, isFilterKey, m, lookup).value;
            && KeyOf(r.0) in r.1 && r.1[KeyOf(r.0)] == r.0 && !r.0.hasParent
            && forall k :: k in r.1 && k != KeyOf(r.0) && (k !in lookup || r.1[k] != lookup[k]) ==> r.1[k].hasParent
  {
    var isMultiSelect := data.parameterName != CategoryKey;
    BuildNodesParents(data, |data.queries|, isMultiSelect, m, lookup);
  }

  /** A leaf value is selected exactly when its value is among the values
      stored for its parameter, or it already was. */
  lemma LeafState(info: Info, m: Values)
    requires info.children == []
    ensures Refresh(info, m).state ==
              if info.value in Lookup(m, info.parameterName) then Selected else info.state
  {
  }

  /** `buildPreferenceFilterInfo`: one preference per market preference key
      that has data, in key order. */
  function Preferences(setup: FinnSetup, keys: seq<string>): (r: seq<PreferenceInfo>)
    ensures |r| <= |keys|
    ensures forall p :: p in r ==> exists k :: k in keys && SetupData(setup, k).Some? && p.parameterName == k
    decreases |keys|
  {
    if |keys| == 0 then []
    else
      var rest := Preferences(setup, keys[1..]);
      assert forall k :: k in keys[1..] ==> k in keys;
      match SetupData(setup, keys[0])
      case None => rest
      case Some(d) =>
        var values := seq(|d.queries|, i requires 0 <= i < |d.queries| =>
          PreferenceValue(d.queries[i].title, d.queries[i].totalResults, d.queries[i].value));
        [PreferenceInfo(d.parameterName, d.title, values)] + rest
  }

  /** A preference shows the data's parameter and title, and one value per
      query of the data, in order. */
  predicate PreferenceOf(p: PreferenceInfo, d: FinnFilterData) {
    && p.parameterName == d.parameterName && p.title == d.title
    && |p.values| == |d.queries|
    && forall j :: 0 <= j < |d.queries| ==>
         p.values[j] == PreferenceValue(d.queries[j].title, d.queries[j].totalResults, d.queries[j].value)
  }

  /** `m` picks, in increasing order, the key of `keys` each preference of
      `r` is built from, and every key with data is picked. */
  predicate Picks(setup: FinnSetup, keys: seq<string>, r: seq<PreferenceInfo>, m: seq<nat>) {
    && |m| == |r|
    && PicksFrom(setup, keys, r, m)
    && (forall i, j :: 0 <= i < j < |m| ==> m[i] < m[j])
    && Covers(setup, keys, m)
  }

  predicate PicksFrom(setup: FinnSetup, keys: seq<string>, r: seq<PreferenceInfo>, m: seq<nat>)
    requires |m| == |r|
  {
    forall i :: 0 <= i < |m| ==>
      (m[i] < |keys| && SetupData(setup, keys[m[i]]).Some? && PreferenceOf(r[i], SetupData(setup, keys[m[i]]).value))
  }

  predicate Covers(setup: FinnSetup, keys: seq<string>, m: seq<nat>) {
    forall k :: 0 <= k < |keys| && SetupData(setup, keys[k]).Some? ==> k in m
  }

  function Shift(m: seq<nat>): (r: seq<nat>)
    ensures |r| == |m| && forall i :: 0 <= i < |m| ==> r[i] == m[i] + 1
  {
    seq(|m|, i requires 0 <= i < |m| => m[i] + 1)
  }

  lemma ConsShift(m: seq<nat>)
    ensures |[0] + Shift(m)| == |m| + 1 && ([0] + Shift(m))[0] == 0
    ensures forall i :: 1 <= i <= |m| ==> ([0] + Shift(m))[i] == m[i - 1] + 1
    ensures (forall i, j :: 0 <= i < j < |m| ==> m[i] < m[j]) ==>
              forall i, j :: 0 <= i < j < |m| + 1 ==> ([0] + Shift(m))[i] < ([0] + Shift(m))[j]
  {
  }

  /** Picking from the keys after the first is picking from all keys, one
      index further on. */
  lemma ShiftPicksFrom(setup: FinnSetup, keys: seq<string>, r: seq<PreferenceInfo>, m: seq<nat>)
    requires |keys| > 0 && |m| == |r|
    requires PicksFrom(setup, keys[1..], r, m)
    ensures PicksFrom(setup, keys, r, Shift(m))
  {
    var sm := Shift(m);
    forall i | 0 <= i < |sm|
      ensures sm[i] < |keys| && SetupData(setup, keys[sm[i]]).Some? && PreferenceOf(r[i], SetupData(setup, keys[sm[i]]).value)
    {
      assert keys[sm[i]] == keys[1..][m[i]];
    }
  }

  /** Covering the keys after the first, and the first when it has data. */
  lemma ShiftCovers(setup: FinnSetup, keys: seq<string>, m: seq<nat>, first: seq<nat>)
    requires |keys| > 0 && Covers(setup, keys[1..], m)
    requires first == [] || first == [0]
    requires SetupData(setup, keys[0]).Some? ==> first == [0]
    ensures Covers(setup, keys, first + Shift(m))
  {
    var sm := first + Shift(m);
    forall k | 0 <= k < |keys| && SetupData(setup, keys[k]).Some?
      ensures k in sm
    {
      if k == 0 {
        assert sm[0] == 0;
      } else {
        assert keys[k] == keys[1..][k - 1];
        var i :| 0 <= i < |m| && m[i] == k - 1;
        assert sm[|first| + i] == k;
      }
    }
  }

  /** A key without data adds no preference. */
  lemma PicksSkip(setup: FinnSetup, keys: seq<string>, r: seq<PreferenceInfo>, m: seq<nat>)
    requires |keys| > 0 && SetupData(setup, keys[0]).None?
    requires Picks(setup, keys[1..], r, m)
    ensures Picks(setup, keys, r, Shift(m))
  {
    ShiftPicksFrom(setup, keys, r, m);
    ShiftCovers(setup, keys, m, []);
    assert [] + Shift(m) == Shift(m);
  }

  /** A key with data adds its preference in front. */
  lemma PicksTake(setup: FinnSetup, keys: seq<string>, p: PreferenceInfo, r: seq<PreferenceInfo>, m: seq<nat>)
    requires |keys| > 0 && SetupData(setup, keys[0]).Some?
    requires PreferenceOf(p, SetupData(setup, keys[0]).value)
    requires Picks(setup, keys[1..], r, m)
    ensures Picks(setup, keys, [p] + r, [0] + Shift(m))
  {
    ConsShift(m);
    ShiftPicksFrom(setup, keys, r, m);
    ShiftCovers(setup, keys, m, [0]);
    var sm := [0] + Shift(m);
    var pr := [p] + r;
    forall i | 0 <= i < |sm|
      ensures sm[i] < |keys| && SetupData(setup, keys[sm[i]]).Some? && PreferenceOf(pr[i], SetupData(setup, keys[sm[i]]).value)
    {
      if i > 0 {
        assert sm[i] == Shift(m)[i - 1] && pr[i] == r[i - 1];
      }
    }
  }

  /** The preferences are exactly those of the keys that have data, in key
      order, each built from its key's data with one value per query. */
  lemma {:induction false} PreferencesExact(setup: FinnSetup, keys: seq<string>) returns (m: seq<nat>)
    ensures Picks(setup, keys, Preferences(setup, keys), m)
    decreases |keys|
  {
    if |keys| == 0 {
      m := [];
    } else {
      var m1 := PreferencesExact(setup, keys[1..]);
      var rest := Preferences(setup, keys[1..]);
      match SetupData(setup, keys[0])
      case None =>
        PicksSkip(setup, keys, rest, m1);
        m := Shift(m1);
      case Some(d) =>
        var p := Preferences(setup, keys)[0];
        assert Preferences(setup, keys) == [p] + rest;
        PicksTake(setup, keys, p, rest, m1);
        m := [0] + Shift(m1);
    }
  }

  /** One entry of `buildFilterInfo(fromKeys:)`: the bedroom count becomes a
      stepper whatever its data says; a range filter is handed to the range
      builder (`buildRange`); a filter with nested lists becomes a
      hierarchical list, any other a flat multi-select list. */
  function InfoForKey(setup: FinnSetup, key: string, isFilterKey: string -> bool, buildRange: FinnFilterData -> bool,
                      m: Values, lookup: NodeLookup): (r: (Option<FilterInfo>, NodeLookup))
    ensures SetupData(setup, key).None? ==> r.0.None? && r.1 == lookup
    ensures SetupData(setup, key).Some? && key == BedroomsKey ==>
              r.0 == Some(StepperInfo("soverom", 1, 0, 6, SetupData(setup, key).value.title, key))
    ensures r.0.Some? && r.0.value.RangeInfo? ==> key != BedroomsKey && r.0.value.data.isRange == Some(true)
    ensures r.0.Some? && r.0.value.MultiLevelInfo? ==>
              key != BedroomsKey && IsMultiLevel(SetupData(setup, key).value) && Registered(r.0.value.root, r.1)
    ensures r.0.Some? && r.0.value.ListInfo? ==>
              key != BedroomsKey && IsList(SetupData(setup, key).value) && r.0.value.isMultiSelect
              && |r.0.value.values| == |SetupData(setup, key).value.queries|
    ensures r.0.Some? ==> !r.0.value.SearchQueryInfo? && !r.0.value.PreferenceFilterInfo?
    ensures Grows(lookup, r.1) && (WellKeyed(lookup) ==> WellKeyed(r.1))
  {
    match SetupData(setup, key)
    case None => (None, lookup)
    case Some(data) =>
      if key == BedroomsKey then (Some(StepperInfo("soverom", 1, 0, 6, data.title, data.parameterName)), lookup)
      else if data.isRange == Some(true) then
        (if buildRange(data) then Some(RangeInfo(data)) else None, lookup)
      else if IsMultiLevel(data) then
        match BuildMultiLevel(data, isFilterKey, m, lookup)
        case Some((root, lookup1)) =>
          MultiLevelRegisters(data, isFilterKey, m, lookup);
          (Some(MultiLevelInfo(root)), lookup1)
        case None => (None, lookup)
      else
        var values := seq(|data.queries|, i requires 0 <= i < |data.queries| =>
          ListValue(data.queries[i].title, data.queries[i].totalResults, data.queries[i].value));
        (Some(ListInfo(data.parameterName, data.title, values, true)), lookup)
  }

  /** `buildFilterInfo(fromKeys:)`: the infos of the keys, in key order, each
      key giving at most one; the lookup collects every hierarchical node. */
  function InfosForKeys(setup: FinnSetup, keys: seq<string>, isFilterKey: string -> bool, buildRange: FinnFilterData -> bool,
                        m: Values, lookup: NodeLookup): (r: (seq<FilterInfo>, NodeLookup))
    ensures |r.0| <= |keys|
    ensures (forall k :: k in keys ==> SetupData(setup, k).None?) ==> r.0 == []
    ensures FromKeys(r.0, r.1)
    ensures Grows(lookup, r.1) && (WellKeyed(lookup) ==> WellKeyed(r.1))
    decreases |keys|
  {
    if |keys| == 0 then ([], lookup)
    else
      var (first, lookup1) := InfoForKey(setup, keys[0], isFilterKey, buildRange, m, lookup);
      var (rest, lookup2) := InfosForKeys(setup, keys[1..], isFilterKey, buildRange, m, lookup1);
      assert forall k :: k in keys[1..] ==> k in keys;
      match first
      case None => (rest, lookup2)
      case Some(info) =>
        PrependFromKeys(info, rest, lookup1, lookup2);
        ([info] + rest, lookup2)
  }

  /** What the per-key infos satisfy: hierarchical roots are registered, and
      none is a free-text search or a preference info. */
  predicate FromKeys(infos: seq<FilterInfo>, lookup: NodeLookup) {
    forall i :: 0 <= i < |infos| ==>
      && (infos[i].MultiLevelInfo? ==> Registered(infos[i].root, lookup))
      && !infos[i].SearchQueryInfo? && !infos[i].PreferenceFilterInfo?
  }

  lemma PrependFromKeys(info: FilterInfo, rest: seq<FilterInfo>, before: NodeLookup, after: NodeLookup)
    requires info.MultiLevelInfo? ==> Registered(info.root, before)
    requires !info.SearchQueryInfo? && !info.PreferenceFilterInfo?
    requires FromKeys(rest, after) && Grows(before, after)
    ensures FromKeys([info] + rest, after)
  {
    InfoStaysRegistered(info, before, after);
    var all := [info] + rest;
    forall i | 1 <= i < |all|
      ensures all[i] == rest[i - 1]
    {
    }
  }

  lemma InfoStaysRegistered(info: FilterInfo, before: NodeLookup, after: NodeLookup)
    requires info.MultiLevelInfo? ==> Registered(info.root, before)
    requires Grows(before, after)
    ensures info.MultiLevelInfo? ==> Registered(info.root, after)
  {
    if info.MultiLevelInfo? {
      RegisteredGrows(info.root, before, after);
    }
  }

  /** `build()`: nothing for an unknown market; otherwise the free-text
      search first when the raw keys hold `q`, then the preferences when there
      are any, then the market's supported filters. `markets` stands for
      `FilterMarket(market:)`. The lookup starts empty and ends up holding
      every hierarchical node. */
  function Build(setup: FinnSetup, markets: string -> Option<MarketKeys>, isFilterKey: string -> bool,
                 buildRange: FinnFilterData -> bool, m: Values): (r: (seq<FilterInfo>, NodeLookup))
    ensures markets(setup.market).None? ==> r.0 == [] && r.1 == map[]
    ensures markets(setup.market).Some? ==>
              (|r.0| > 0 && r.0[0].SearchQueryInfo? <==> QueryKey in setup.rawFilterKeys)
    ensures |r.0| > 0 && r.0[0].SearchQueryInfo? ==>
              r.0[0] == SearchQueryInfo(QueryKey, "Ord i annonsen", "Filtrer søket")
    ensures forall i :: 0 <= i < |r.0| && r.0[i].PreferenceFilterInfo? ==> |r.0[i].preferences| > 0
    ensures forall i :: 0 <= i < |r.0| && r.0[i].MultiLevelInfo? ==> Registered(r.0[i].root, r.1)
    ensures WellKeyed(r.1)
  {
    match markets(setup.market)
    case None => ([], map[])
    case Some(market) =>
      var search := if QueryKey in setup.rawFilterKeys then [SearchQueryInfo(QueryKey, "Ord i annonsen", "Filtrer søket")] else [];
      var preferences := Preferences(setup, market.preferenceFilterKeys);
      var preference := if |preferences| == 0 then [] else [PreferenceFilterInfo(preferences, "Preferences")];
      var (remaining, lookup) := InfosForKeys(setup, market.supportedFiltersKeys, isFilterKey, buildRange, m, map[]);
      ConcatInfos(search + preference, remaining, lookup);
      (search + preference + remaining, lookup)
  }

  /** What every built info satisfies: preference infos are non-empty and
      hierarchical roots are registered. */
  predicate Sound(infos: seq<FilterInfo>, lookup: NodeLookup) {
    forall i :: 0 <= i < |infos| ==>
      && (infos[i].PreferenceFilterInfo? ==> |infos[i].preferences| > 0)
      && (infos[i].MultiLevelInfo? ==> Registered(infos[i].root, lookup))
  }

  lemma ConcatInfos(front: seq<FilterInfo>, back: seq<FilterInfo>, lookup: NodeLookup)
    requires Sound(front, lookup) && FromKeys(back, lookup)
    ensures Sound(front + back, lookup)
    ensures |front| == 0 && |back| > 0 ==> !(front + back)[0].SearchQueryInfo?
    ensures |front| > 0 ==> (front + back)[0] == front[0]
  {
    var all := front + back;
    forall i | |front| <= i < |all|
      ensures all[i] == back[i - |front|]
    {
    }
  }
}
