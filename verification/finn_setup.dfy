/** The FINN backend setup (`FilterSetup` of the FINN setup): decoding it from
    the backend's dictionary and turning it into the Charcoal filter tree. */
module FinnSetup {
  import opened Wrappers
  import opened Text
  import opened Json
  import opened Filters
  import opened FinnBackend

  datatype SetupData = SetupData(market: string, hits: int, objectCount: Option<int>, filterTitle: string,
                                 filters: seq<FinnFilterData>)

  /** What the setup reads from a `FilterConfiguration`. The range and
      stepper configurations themselves are not modelled, only whether the
      configuration has one for a key. */
  datatype Configuration = Configuration(
    rootLevelFilterKeys: seq<string>,
    contextFilterKeys: set<string>,
    preferenceFilterKeys: seq<string>,
    mutuallyExclusiveFilters: string -> set<string>,
    hasRangeConfiguration: string -> bool,
    hasStepperConfiguration: string -> bool)

  /** `FilterContainer` as built by `filterContainer(using:)`. */
  datatype Container = Container(rootFilters: seq<Filter>, freeTextFilter: Filter, inlineFilter: Filter, numberOfResults: int)

  const MapKey: string := "map"
  const ShoeSizeKey: string := "shoe_size"
  const QueryKey: string := "q"
  const PreferencesKey: string := "preferences"

  /** The two values the FINN app shows as links to other searches. */
  const ExternalValues: set<string> := {"2.69.3964.268", "1.69.3965"}

  /** `makeListFilter(withKey:from:)`: a value becomes an external filter when
      it is one of the two link values, and otherwise a list filter holding
      the values of its nested filter under the nested filter's parameter. */
  function ListFilterOf(key: string, q: FinnQuery): (r: Filter)
    ensures Ident(r) == (key, Some(q.value)) && r.title == q.title && r.numberOfResults == q.totalResults
    ensures r.kind == External <==> q.value in ExternalValues
    ensures r.kind.External? ==> r.subfilters == []
    ensures r.kind.List? && q.filter.Some? ==>
              && |r.subfilters| == |q.filter.value.queries|
              && forall i :: 0 <= i < |r.subfilters| ==>
                   Ident(r.subfilters[i]) == (q.filter.value.parameterName, Some(q.filter.value.queries[i].value))
    ensures q.filter.None? ==> r.subfilters == []
    ensures r.kind == External || r.kind == List
    decreases q, 1
  {
    var subfilters := match q.filter
      case None => []
      case Some(f) => ListFiltersOf(f.parameterName, f, |f.queries|);
    if q.value in ExternalValues then ExternalFilter(q.title, key, Some(q.value), q.totalResults, Normal)
    else ListFilter(q.title, key, Some(q.value), q.totalResults, Normal, subfilters)
  }

  /** The list filters of the first `n` values of `data`, all under `key`. */
  function ListFiltersOf(key: string, data: FinnFilterData, n: nat): (r: seq<Filter>)
    requires n <= |data.queries|
    ensures |r| == n
    ensures forall i :: 0 <= i < n ==> r[i] == ListFilterOf(key, data.queries[i])
    decreases data, n
  {
    if n == 0 then []
    else
      assert data.queries[n - 1] in data.queries;
      ListFiltersOf(key, data, n - 1) + [ListFilterOf(key, data.queries[n - 1])]
  }

  /** `makeFilter(from:withKind:style:)`: one list filter per value; a
      context-style filter with fewer than two values is dropped. */
  function MakeFilter(data: FinnFilterData, kind: Kind, style: Style): (r: Option<Filter>)
    ensures r.None? <==> style == Context && |data.queries| < 2
    ensures r.Some? ==> r.value.kind == kind && r.value.style == style && r.value.title == data.title
    ensures r.Some? ==> Ident(r.value) == (data.parameterName, None) && r.value.mutuallyExclusiveKeys == {}
    ensures r.Some? ==> |r.value.subfilters| == |data.queries|
    ensures r.Some? ==> forall i :: 0 <= i < |data.queries| ==>
              Ident(r.value.subfilters[i]) == (data.parameterName, Some(data.queries[i].value))
  {
    var subfilters := ListFiltersOf(data.parameterName, data, |data.queries|);
    if style == Context && |subfilters| < 2 then None
    else Some(Node(data.title, data.parameterName, None, 0, kind, style).(subfilters := subfilters))
  }

  /** `makeRootLevelFilter(withKey:using:)`. The map key always gives the map
      filter (`mapTitle` is its localised title); any other key needs data.
      Shoe sizes become a grid; a range filter uses the key's range
      configuration, else its stepper configuration on the lower-bound key,
      and is dropped without either; anything else is a standard list. */
  function RootFilter(setup: SetupData, key: string, config: Configuration, mapTitle: string): (r: Option<Filter>)
    ensures key == MapKey ==> r.Some? && r.value.kind.Map? && r.value.key == MapKey
    ensures key != MapKey && DataForKey(setup.filters, key).None? ==> r.None?
    ensures r.Some? ==> r.value.key == key || r.value.key == LowKeyOf(key)
    ensures r.Some? && r.value.style == Context ==> key in config.contextFilterKeys
    ensures r.Some? && r.value.kind.Range? ==>
              config.hasRangeConfiguration(key) && r.value.kind.low.key == key + "_from" && r.value.kind.high.key == key + "_to"
    ensures r.Some? && r.value.kind.Stepper? ==>
              !config.hasRangeConfiguration(key) && config.hasStepperConfiguration(key) && r.value.key == key + "_from"
    ensures r.Some? && r.value.kind.Grid? ==> key == ShoeSizeKey
    ensures r.Some? && r.value.style == Context && (r.value.kind.Standard? || r.value.kind.Grid?) ==>
              |r.value.subfilters| >= 2
  {
    var style := if key in config.contextFilterKeys then Context else Normal;
    if key == MapKey then
      Some(MapFilter(None, key, "lat", "lon", "radius", "geoLocationName", mapTitle))
    else
      match DataForKey(setup.filters, key)
      case None => None
      case Some(data) =>
        if key == ShoeSizeKey then MakeFilter(data, Grid, style)
        else if data.isRange == Some(true) then
          if config.hasRangeConfiguration(key) then
            Some(RangeFilter(data.title, data.parameterName, data.parameterName + "_from", data.parameterName + "_to", style))
          else if config.hasStepperConfiguration(key) then
            Some(StepperFilter(data.title, data.parameterName + "_from", style))
          else None
        else MakeFilter(data, Standard, style)
  }

  /** The key a stepper root filter is stored under. */
  function LowKeyOf(key: string): string {
    key + "_from"
  }

  /** The root filters of the configured keys, in key order, each tagged
      with the keys it excludes. */
  function RootFilters(setup: SetupData, keys: seq<string>, config: Configuration, mapTitle: string): (r: seq<Filter>)
    ensures |r| <= |keys|
    ensures forall i :: 0 <= i < |r| ==> RootOfSome(r[i], keys, config)
    ensures MapKey in keys ==> exists i :: 0 <= i < |r| && r[i].kind.Map?
    ensures forall i :: 0 <= i < |r| ==> ContextHasChoices(r[i])
    decreases |keys|
  {
    if |keys| == 0 then []
    else
      var rest := RootFilters(setup, keys[1..], config, mapTitle);
      match RootFilter(setup, keys[0], config, mapTitle)
      case None =>
        forall i | 0 <= i < |rest|
          ensures RootOfSome(rest[i], keys, config)
        {
          RootOfTail(rest[i], keys, config);
        }
        rest
      case Some(f) =>
        var g := f.(mutuallyExclusiveKeys := config.mutuallyExclusiveFilters(keys[0]));
        PrependRoot(g, rest, keys, config);
        [g] + rest
  }

  /** `f` is the root filter of key `k`, tagged with the keys `k` excludes. */
  predicate RootOf(f: Filter, k: string, config: Configuration) {
    && (f.key == k || f.key == LowKeyOf(k))
    && f.mutuallyExclusiveKeys == config.mutuallyExclusiveFilters(k)
  }

  /** `f` is the root filter of one of `keys`. */
  predicate RootOfSome(f: Filter, keys: seq<string>, config: Configuration) {
    exists k :: k in keys && RootOf(f, k, config)
  }

  lemma RootOfTail(f: Filter, keys: seq<string>, config: Configuration)
    requires |keys| > 0 && RootOfSome(f, keys[1..], config)
    ensures RootOfSome(f, keys, config)
  {
    var k :| k in keys[1..] && RootOf(f, k, config);
    assert k in keys;
  }

  /** A context-style list or grid offers at least two values. */
  predicate ContextHasChoices(f: Filter) {
    f.style == Context && (f.kind.Standard? || f.kind.Grid?) ==> |f.subfilters| >= 2
  }

  lemma PrependRoot(g: Filter, rest: seq<Filter>, keys: seq<string>, config: Configuration)
    requires |keys| > 0 && RootOf(g, keys[0], config) && ContextHasChoices(g)
    requires forall i :: 0 <= i < |rest| ==> RootOfSome(rest[i], keys[1..], config)
    requires MapKey in keys[1..] ==> exists i :: 0 <= i < |rest| && rest[i].kind.Map?
    requires MapKey == keys[0] ==> g.kind.Map?
    requires forall i :: 0 <= i < |rest| ==> ContextHasChoices(rest[i])
    ensures forall i :: 0 <= i < |rest| + 1 ==> RootOfSome(([g] + rest)[i], keys, config)
    ensures MapKey in keys ==> exists i :: 0 <= i < |rest| + 1 && ([g] + rest)[i].kind.Map?
    ensures forall i :: 0 <= i < |rest| + 1 ==> ContextHasChoices(([g] + rest)[i])
  {
    var r := [g] + rest;
    assert r[0] == g && keys[0] in keys;
    forall i | 1 <= i < |r|
      ensures r[i] == rest[i - 1] && RootOfSome(r[i], keys, config)
    {
      RootOfTail(rest[i - 1], keys, config);
    }
    if MapKey in keys && MapKey != keys[0] {
      assert MapKey in keys[1..];
      var j :| 0 <= j < |rest| && rest[j].kind.Map?;
      assert r[j + 1].kind.Map?;
    }
  }

  /** The preference filters: a standard filter per preference key that has
      data, in key order. */
  function PreferenceFilters(setup: SetupData, keys: seq<string>): (r: seq<Filter>)
    ensures |r| <= |keys|
    ensures forall f :: f in r ==> f.kind == Standard && f.style == Normal && f.key in keys
    ensures (forall k :: k in keys ==> DataForKey(setup.filters, k).Some?) ==> |r| == |keys|
    decreases |keys|
  {
    if |keys| == 0 then []
    else
      var rest := PreferenceFilters(setup, keys[1..]);
      assert forall k :: k in keys[1..] ==> k in keys;
      match DataForKey(setup.filters, keys[0])
      case None => rest
      case Some(data) =>
        var f := MakeFilter(data, Standard, Normal);
        [f.value] + rest
  }

  /** `filterContainer(using:)`: the root filters, the free-text filter, the
      preferences gathered in one inline filter, and the result count, which
      prefers the object count over the hit count. `searchPlaceholder` is the
      free-text filter's localised title. */
  function MakeContainer(setup: SetupData, config: Configuration, mapTitle: string, searchPlaceholder: string): (r: Container)
    ensures r.numberOfResults == (if setup.objectCount.Some? then setup.objectCount.value else setup.hits)
    ensures r.inlineFilter.kind == Inline && Ident(r.inlineFilter) == (PreferencesKey, None) && r.inlineFilter.title == ""
    ensures forall f :: f in r.inlineFilter.subfilters ==> f.key in config.preferenceFilterKeys && f.kind == Standard
    ensures Ident(r.freeTextFilter) == (QueryKey, None) && r.freeTextFilter.kind == Search
    ensures |r.rootFilters| <= |config.rootLevelFilterKeys|
    ensures forall f :: f in r.rootFilters ==>
              exists k ::
                && k in config.rootLevelFilterKeys
                && f.mutuallyExclusiveKeys == config.mutuallyExclusiveFilters(k)
  {
    Container(
      RootFilters(setup, config.rootLevelFilterKeys, config, mapTitle),
      SearchFilter(None, QueryKey, searchPlaceholder),
      InlineFilter("", PreferencesKey, PreferenceFilters(setup, config.preferenceFilterKeys)),
      setup.objectCount.GetOr(setup.hits))
  }

  /** The filter data of the `filter-data` fields, in field order, keeping
      the fields whose name is a known filter key and whose value decodes;
      `decodeData` stands for `FilterData.decode(from:)`. */
  function DecodeFilterData(fields: seq<Field>, isFilterKey: string -> bool,
                            decodeData: Option<Json> -> Option<FinnFilterData>): (r: seq<FinnFilterData>)
    ensures |r| <= |fields|
    ensures forall d :: d in r ==>
              exists i ::
                && 0 <= i < |fields|
                && isFilterKey(fields[i].key)
                && decodeData(AsObject(Some(fields[i].value))) == Some(d)
    ensures forall i :: 0 <= i < |fields| && isFilterKey(fields[i].key) && decodeData(AsObject(Some(fields[i].value))).Some? ==>
              decodeData(AsObject(Some(fields[i].value))).value in r
    decreases |fields|
  {
    if |fields| == 0 then []
    else
      var rest := DecodeFilterData(fields[1..], isFilterKey, decodeData);
      assert forall i :: 1 <= i < |fields| ==> fields[i] == fields[1..][i - 1];
      var decoded := decodeData(AsObject(Some(fields[0].value)));
      if isFilterKey(fields[0].key) && decoded.Some? then [decoded.value] + rest else rest
  }

  /** `decode(from:)`: nothing without a market string or a `filter-data`
      dictionary; hits default to 0, the title to the empty string, and the
      object count is optional. */
  function Decode(dict: Option<Json>, isFilterKey: string -> bool,
                  decodeData: Option<Json> -> Option<FinnFilterData>): (r: Option<SetupData>)
    ensures r.Some? <==> dict.Some? && AsString(Get(dict.value, "market")).Some? && AsObject(Get(dict.value, "filter-data")).Some?
    ensures r.Some? ==> r.value.market == AsString(Get(dict.value, "market")).value
    ensures r.Some? ==> r.value.hits == AsInt(Get(dict.value, "hits")).GetOr(0)
    ensures r.Some? ==> r.value.filterTitle == AsString(Get(dict.value, "label")).GetOr("")
    ensures r.Some? ==> r.value.objectCount == AsInt(Get(dict.value, "objectCount"))
    ensures r.Some? ==> |r.value.filters| <= |AsObject(Get(dict.value, "filter-data")).value.fields|
  {
    match dict
    case None => None
    case Some(d) =>
      var market := AsString(Get(d, "market"));
      var data := AsObject(Get(d, "filter-data"));
      if market.None? || data.None? then None
      else
        Some(SetupData(market.value, AsInt(Get(d, "hits")).GetOr(0), AsInt(Get(d, "objectCount")),
                       AsString(Get(d, "label")).GetOr(""), DecodeFilterData(data.value.fields, isFilterKey, decodeData)))
  }
}
