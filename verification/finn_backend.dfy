/** The FINN backend's description of a filter, as the FINN builders read
    it: a parameter name, a title, an optional range flag and the values,
    each of which may carry a nested filter one level down. */
module FinnBackend {
  import opened Wrappers

  /** One value of a filter (`FilterDataQuery`). */
  datatype FinnQuery = FinnQuery(title: string, value: string, totalResults: int, filter: Option<FinnFilterData>)

  /** One filter (`FilterData`). */
  datatype FinnFilterData = FinnFilterData(parameterName: string, title: string, isRange: Option<bool>, queries: seq<FinnQuery>)

  /** `filterData(forKey:)` of both FINN setups: the first filter whose
      parameter name is the key. */
  function DataForKey(filters: seq<FinnFilterData>, key: string): (r: Option<FinnFilterData>)
    ensures r.Some? <==> exists i :: 0 <= i < |filters| && filters[i].parameterName == key
    ensures r.Some? ==> r.value.parameterName == key && r.value in filters
    ensures r.Some? ==> exists i :: 0 <= i < |filters| && filters[i] == r.value &&
                          forall j :: 0 <= j < i ==> filters[j].parameterName != key
  {
    match FirstIndex(filters, (f: FinnFilterData) => f.parameterName == key)
    case Some(i) => Some(filters[i])
    case None => None
  }
}
