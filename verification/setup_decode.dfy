/** The dictionary decoders of the default implementation's `FilterSetup`
    (Sources/DefaultFilterImplementation/FilterSetup.swift): a search setup
    with its market, hit count, title, filter keys and per-key filter data. */
module SetupDecode {
  import opened Wrappers
  import opened Text
  import opened Json

  /** A selectable value of a filter, possibly with a nested filter below it. */
  datatype Query = Query(title: string, value: string, totalResults: int, filter: Option<QueryFilter>)

  /** The nested filter of a query. */
  datatype QueryFilter = QueryFilter(title: string, parameterName: string, queries: seq<Query>)

  /** `PartialFilterDataElement`: the data under one key of "filter-data". */
  datatype Element = Element(title: string, parameterName: string, isRange: bool, queries: Option<seq<Query>>)

  /** `FilterData`: an element together with the key it was found under. */
  datatype FilterData = FilterData(key: string, title: string, parameterName: string, isRange: bool,
                                   queries: Option<seq<Query>>)

  datatype Setup = Setup(market: string, hits: int, filterTitle: string, rawFilterKeys: seq<string>,
                         filters: seq<FilterData>)

  /** `Query.decode(from:)`: title and value are required strings, the total
      defaults to 0, a nested filter is decoded when it is an object. */
  function DecodeQuery(j: Json): (r: Option<Query>)
    ensures r.Some? <==> AsString(Get(j, "title")).Some? && AsString(Get(j, "value")).Some?
    ensures r.Some? ==> r.value.title == AsString(Get(j, "title")).value
    ensures r.Some? ==> r.value.value == AsString(Get(j, "value")).value
    ensures r.Some? ==> r.value.totalResults == AsInt(Get(j, "total-results")).GetOr(0)
    ensures r.Some? && Get(j, "filter").None? ==> r.value.filter.None?
    ensures r.Some? && Get(j, "filter").Some? && Get(j, "filter").value.JObject? ==>
              r.value.filter == DecodeQueryFilter(Get(j, "filter").value)
    decreases j, 2
  {
    var title := AsString(Get(j, "title"));
    var value := AsString(Get(j, "value"));
    var total := AsInt(Get(j, "total-results"));
    var filter := match Get(j, "filter")
      case Some(f) => if f.JObject? then DecodeQueryFilter(f) else None
      case None => None;
    if title.Some? && value.Some? then Some(Query(title.value, value.value, total.GetOr(0), filter))
    else None
  }

  /** `QueryFilter.decode(from:)`: title and name are required; missing or
      malformed queries become the empty list. */
  function DecodeQueryFilter(j: Json): (r: Option<QueryFilter>)
    ensures r.Some? <==> AsString(Get(j, "title")).Some? && AsString(Get(j, "name")).Some?
    decreases j, 1
  {
    var title := AsString(Get(j, "title"));
    var name := AsString(Get(j, "name"));
    var queries := match Get(j, "queries") case Some(a) => DecodeQueries(a) case None => None;
    if title.Some? && name.Some? then Some(QueryFilter(title.value, name.value, queries.GetOr([])))
    else None
  }

  /** `Query.decode(from: [[AnyHashable: Any]]?)`: nothing unless the value is
      an array of objects; otherwise the queries that decode, in order. */
  function DecodeQueries(a: Json): (r: Option<seq<Query>>)
    ensures r.Some? <==> AsObjects(Some(a)).Some?
    ensures r.Some? ==> |r.value| <= |a.items|
    decreases a, 0
  {
    if AsObjects(Some(a)).Some? then
      Some(CompactMap(seq(|a.items|, i requires 0 <= i < |a.items| => DecodeQuery(a.items[i]))))
    else None
  }

  /** The inverse direction: a query as the backend sends it. */
  function EncodeQuery(q: Query): Json
    decreases q
  {
    JObject([Field("title", JString(q.title)), Field("value", JString(q.value)),
             Field("total-results", JInt(q.totalResults))]
            + match q.filter case Some(f) => [Field("filter", EncodeQueryFilter(f))] case None => [])
  }

  function EncodeQueryFilter(f: QueryFilter): Json
    decreases f
  {
    JObject([Field("title", JString(f.title)), Field("name", JString(f.parameterName)),
             Field("queries", JArray(seq(|f.queries|, i requires 0 <= i < |f.queries| => EncodeQuery(f.queries[i]))))])
  }

  /** Decoding an encoded query gives the query back, nested filters included. */
  lemma QueryRoundTrip(q: Query)
    ensures DecodeQuery(EncodeQuery(q)) == Some(q)
    decreases q, 1
  {
    var j := EncodeQuery(q);
    EncodedQueryFields(q);
    var r := DecodeQuery(j);
    assert r.Some? && r.value.title == q.title && r.value.value == q.value;
    assert AsInt(Get(j, "total-results")) == Some(q.totalResults);
    match q.filter
    case Some(f) =>
      QueryFilterRoundTrip(f);
      assert r.value.filter == Some(f);
    case None =>
      assert r.value.filter.None?;
  }

  /** What the decoder reads from an encoded query. */
  lemma EncodedQueryFields(q: Query)
    ensures Get(EncodeQuery(q), "title") == Some(JString(q.title))
    ensures Get(EncodeQuery(q), "value") == Some(JString(q.value))
    ensures Get(EncodeQuery(q), "total-results") == Some(JInt(q.totalResults))
    ensures q.filter.None? ==> Get(EncodeQuery(q), "filter").None?
    ensures q.filter.Some? ==> Get(EncodeQuery(q), "filter") == Some(EncodeQueryFilter(q.filter.value))
  {
    var fields := EncodeQuery(q).fields;
    HeadFields(fields, q.title, q.value, q.totalResults);
    if q.filter.Some? {
      GetField(fields, 3);
    } else {
      NoFilterField(fields);
    }
  }

  lemma HeadFields(fields: seq<Field>, title: string, value: string, total: int)
    requires |fields| >= 3
    requires fields[0] == Field("title", JString(title))
    requires fields[1] == Field("value", JString(value))
    requires fields[2] == Field("total-results", JInt(total))
    ensures Get(JObject(fields), "title") == Some(JString(title))
    ensures Get(JObject(fields), "value") == Some(JString(value))
    ensures Get(JObject(fields), "total-results") == Some(JInt(total))
  {
    GetField(fields, 0);
    GetField(fields, 1);
    GetField(fields, 2);
  }

  lemma NoFilterField(fields: seq<Field>)
    requires |fields| == 3
    requires fields[0].key == "title" && fields[1].key == "value" && fields[2].key == "total-results"
    ensures Get(JObject(fields), "filter").None?
  {
  }

  lemma QueryFilterRoundTrip(f: QueryFilter)
    ensures DecodeQueryFilter(EncodeQueryFilter(f)) == Some(f)
    decreases f, 0
  {
    var items := seq(|f.queries|, i requires 0 <= i < |f.queries| => EncodeQuery(f.queries[i]));
    EncodedFilterFields(f);
    forall i | 0 <= i < |f.queries|
      ensures DecodeQuery(items[i]) == Some(f.queries[i])
    {
      QueryRoundTrip(f.queries[i]);
    }
    DecodeDecodedQueries(items, f.queries);
  }

  /** What the decoder reads from an encoded nested filter. */
  lemma EncodedFilterFields(f: QueryFilter)
    ensures Get(EncodeQueryFilter(f), "title") == Some(JString(f.title))
    ensures Get(EncodeQueryFilter(f), "name") == Some(JString(f.parameterName))
    ensures Get(EncodeQueryFilter(f), "queries") ==
              Some(JArray(seq(|f.queries|, i requires 0 <= i < |f.queries| => EncodeQuery(f.queries[i]))))
  {
    var fields := EncodeQueryFilter(f).fields;
    GetField(fields, 0);
    GetField(fields, 1);
    GetField(fields, 2);
  }

  /** An array of objects that each decode gives all of them, in order. */
  lemma DecodeDecodedQueries(items: seq<Json>, qs: seq<Query>)
    requires |items| == |qs|
    requires forall i :: 0 <= i < |items| ==> items[i].JObject? && DecodeQuery(items[i]) == Some(qs[i])
    ensures DecodeQueries(JArray(items)) == Some(qs)
  {
    var a := JArray(items);
    assert AsObjects(Some(a)).Some?;
    var decoded := seq(|a.items|, i requires 0 <= i < |a.items| => DecodeQuery(a.items[i]));
    assert DecodeQueries(a) == Some(CompactMap(decoded));
    assert forall i :: 0 <= i < |decoded| ==> decoded[i] == Some(qs[i]);
    CompactMapAllSome(decoded);
    assert CompactMap(decoded) == qs;
  }

  /** `PartialFilterDataElement.decode(from:)`: nothing for a missing
      dictionary; title and name are required strings, `range` defaults to
      false, and queries are kept only when they are an array of objects. */
  function DecodeElement(j: Option<Json>): (r: Option<Element>)
    ensures r.Some? <==> j.Some? && AsString(Get(j.value, "title")).Some? && AsString(Get(j.value, "name")).Some?
    ensures r.Some? ==> r.value.title == AsString(Get(j.value, "title")).value
    ensures r.Some? ==> r.value.parameterName == AsString(Get(j.value, "name")).value
    ensures r.Some? ==> r.value.isRange == AsBool(Get(j.value, "range")).GetOr(false)
    ensures r.Some? ==> (r.value.queries.Some? <==> AsObjects(Get(j.value, "queries")).Some?)
  {
    match j
    case None => None
    case Some(dict) =>
      var title := AsString(Get(dict, "title"));
      var name := AsString(Get(dict, "name"));
      var isRange := AsBool(Get(dict, "range")).GetOr(false);
      var queries := match Get(dict, "queries") case Some(a) => DecodeQueries(a) case None => None;
      if title.Some? && name.Some? then Some(Element(title.value, name.value, isRange, queries))
      else None
  }

  function KeysOf(filters: seq<FilterData>): (r: seq<string>)
    ensures |r| == |filters| && forall i :: 0 <= i < |r| ==> r[i] == filters[i].key
  {
    seq(|filters|, i requires 0 <= i < |filters| => filters[i].key)
  }

  /** The element stored under `key` of the filter data, decoded. */
  function ElementAt(data: Json, key: string): Option<Element> {
    DecodeElement(AsObject(Get(data, key)))
  }

  /** `f` is the filter decoded from the data under its own key. */
  predicate DecodedFrom(f: FilterData, data: Json) {
    ElementAt(data, f.key) == Some(Element(f.title, f.parameterName, f.isRange, f.queries))
  }

  /** The filters of the given keys, in key order, each decoded from the data
      under its key; keys whose data is missing or does not decode are skipped. */
  function DecodeFilters(keys: seq<string>, data: Json): (r: seq<FilterData>)
    ensures IsSubsequence(KeysOf(r), keys)
    ensures forall i :: 0 <= i < |r| ==> r[i].key in keys && DecodedFrom(r[i], data)
    ensures forall k :: k in keys && ElementAt(data, k).Some? ==> k in KeysOf(r)
    decreases |keys|
  {
    if |keys| == 0 then []
    else
      var rest := DecodeFilters(keys[1..], data);
      match ElementAt(data, keys[0])
      case Some(e) =>
        var f := FilterData(keys[0], e.title, e.parameterName, e.isRange, e.queries);
        PrependFilter(f, rest, keys, data);
        [f] + rest
      case None =>
        assert forall k :: k in keys[1..] ==> k in keys;
        SubsequenceOfTail(KeysOf(rest), keys);
        rest
  }

  lemma PrependFilter(f: FilterData, rest: seq<FilterData>, keys: seq<string>, data: Json)
    requires |keys| > 0 && f.key == keys[0] && DecodedFrom(f, data)
    requires IsSubsequence(KeysOf(rest), keys[1..])
    requires forall i :: 0 <= i < |rest| ==> rest[i].key in keys[1..] && DecodedFrom(rest[i], data)
    requires forall k :: k in keys[1..] && ElementAt(data, k).Some? ==> k in KeysOf(rest)
    ensures IsSubsequence(KeysOf([f] + rest), keys)
    ensures forall i :: 0 <= i < |rest| + 1 ==> ([f] + rest)[i].key in keys && DecodedFrom(([f] + rest)[i], data)
    ensures forall k :: k in keys && ElementAt(data, k).Some? ==> k in KeysOf([f] + rest)
  {
    PrependKeys(f, rest, keys);
    PrependDecoded(f, rest, keys, data);
    PrependCovers(f, rest, keys, data);
  }

  lemma PrependKeys(f: FilterData, rest: seq<FilterData>, keys: seq<string>)
    requires |keys| > 0 && f.key == keys[0]
    requires IsSubsequence(KeysOf(rest), keys[1..])
    ensures IsSubsequence(KeysOf([f] + rest), keys)
  {
    var r := [f] + rest;
    assert KeysOf(r)[1..] == KeysOf(rest);
  }

  lemma PrependDecoded(f: FilterData, rest: seq<FilterData>, keys: seq<string>, data: Json)
    requires |keys| > 0 && f.key == keys[0] && DecodedFrom(f, data)
    requires forall i :: 0 <= i < |rest| ==> rest[i].key in keys[1..] && DecodedFrom(rest[i], data)
    ensures forall i :: 0 <= i < |rest| + 1 ==> ([f] + rest)[i].key in keys && DecodedFrom(([f] + rest)[i], data)
  {
    var r := [f] + rest;
    forall i | 0 <= i < |r|
      ensures r[i].key in keys && DecodedFrom(r[i], data)
    {
      if i > 0 {
        assert r[i] == rest[i - 1];
        assert rest[i - 1].key in keys[1..];
      }
    }
  }

  lemma PrependCovers(f: FilterData, rest: seq<FilterData>, keys: seq<string>, data: Json)
    requires |keys| > 0 && f.key == keys[0]
    requires forall k :: k in keys[1..] && ElementAt(data, k).Some? ==> k in KeysOf(rest)
    ensures forall k :: k in keys && ElementAt(data, k).Some? ==> k in KeysOf([f] + rest)
  {
    var r := [f] + rest;
    assert KeysOf(r) == [f.key] + KeysOf(rest);
    forall k | k in keys && ElementAt(data, k).Some?
      ensures k in KeysOf(r)
    {
      if k != keys[0] {
        var j :| 0 <= j < |keys| && keys[j] == k;
        assert keys[1..][j - 1] == k;
      }
    }
  }

  /** `FilterSetup.decode(from:)`: nothing unless market, hits, label,
      filters and filter-data are all present with the right types; the
      filters are those of the known raw keys, in raw-key order.
      `isFilterKey` stands for `FilterKey(stringValue:)`. */
  function DecodeSetup(dict: Option<Json>, isFilterKey: string -> bool): (r: Option<Setup>)
    ensures r.Some? <==>
              && dict.Some?
              && AsString(Get(dict.value, "market")).Some?
              && AsInt(Get(dict.value, "hits")).Some?
              && AsString(Get(dict.value, "label")).Some?
              && AsStrings(Get(dict.value, "filters")).Some?
              && AsObject(Get(dict.value, "filter-data")).Some?
    ensures r.Some? ==> r.value.market == AsString(Get(dict.value, "market")).value
                        && r.value.hits == AsInt(Get(dict.value, "hits")).value
                        && r.value.filterTitle == AsString(Get(dict.value, "label")).value
                        && r.value.rawFilterKeys == AsStrings(Get(dict.value, "filters")).value
    ensures r.Some? ==> forall f :: f in r.value.filters ==> f.key in r.value.rawFilterKeys && isFilterKey(f.key)
    ensures r.Some? ==> IsSubsequence(KeysOf(r.value.filters), Known(r.value.rawFilterKeys, isFilterKey))
    ensures r.Some? ==> forall f :: f in r.value.filters ==> DecodedFrom(f, AsObject(Get(dict.value, "filter-data")).value)
    ensures r.Some? ==> forall k :: k in r.value.rawFilterKeys && isFilterKey(k)
                                    && ElementAt(AsObject(Get(dict.value, "filter-data")).value, k).Some? ==>
                                      k in KeysOf(r.value.filters)
  {
    match dict
    case None => None
    case Some(d) =>
      var market := AsString(Get(d, "market"));
      var hits := AsInt(Get(d, "hits"));
      var title := AsString(Get(d, "label"));
      var rawKeys := AsStrings(Get(d, "filters"));
      var data := AsObject(Get(d, "filter-data"));
      if market.None? || hits.None? || title.None? || rawKeys.None? || data.None? then None
      else
        var keys := Known(rawKeys.value, isFilterKey);
        Some(Setup(market.value, hits.value, title.value, rawKeys.value, DecodeFilters(keys, data.value)))
  }

  /** `rawFilterKeys.compactMap { FilterKey(stringValue: $0) }`. */
  function Known(keys: seq<string>, isFilterKey: string -> bool): (r: seq<string>)
    ensures forall k :: k in r <==> k in keys && isFilterKey(k)
    ensures IsSubsequence(r, keys)
    decreases |keys|
  {
    if |keys| == 0 then []
    else
      var rest := Known(keys[1..], isFilterKey);
      if isFilterKey(keys[0]) then
        assert ([keys[0]] + rest)[1..] == rest;
        [keys[0]] + rest
      else
        SubsequenceOfTail(rest, keys);
        rest
  }

  /** `filterData(forKey:)`: the first decoded filter with that key. */
  function FilterDataForKey(setup: Setup, key: string): (r: Option<FilterData>)
    ensures r.Some? <==> exists i :: 0 <= i < |setup.filters| && setup.filters[i].key == key
    ensures r.Some? ==> r.value.key == key && r.value in setup.filters
    ensures r.Some? ==> exists i :: 0 <= i < |setup.filters| && setup.filters[i] == r.value &&
                          forall j :: 0 <= j < i ==> setup.filters[j].key != key
  {
    match FirstIndex(setup.filters, (f: FilterData) => f.key == key)
    case Some(i) => Some(setup.filters[i])
    case None => None
  }
}
