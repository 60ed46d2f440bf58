/** `FINNFilterSelectionData`: the mutable `name → [value]` selection behind
    the FINN data source, as pure updates of a `ParamMap.Values` map. */
module FinnSelectionData {
  import opened Wrappers
  import opened Text
  import opened ParamMap

  /** `xs` with every occurrence of `v` removed, the others kept in order. */
  function Without(xs: seq<string>, v: string): (r: seq<string>)
    ensures |r| <= |xs|
    ensures forall x :: x in r <==> x in xs && x != v
    decreases |xs|
  {
    if |xs| == 0 then []
    else if xs[0] == v then Without(xs[1..], v)
    else [xs[0]] + Without(xs[1..], v)
  }

  /** Removing a value that is absent changes nothing. */
  lemma {:induction false} WithoutAbsent(xs: seq<string>, v: string)
    requires v !in xs
    ensures Without(xs, v) == xs
    decreases |xs|
  {
    if |xs| > 0 {
      assert v !in xs[1..] by { assert forall x :: x in xs[1..] ==> x in xs; }
      WithoutAbsent(xs[1..], v);
    }
  }

  /** Removing `v` from a list that ends with `v` is removing it from the rest. */
  lemma {:induction false} WithoutAppended(xs: seq<string>, v: string)
    ensures Without(xs + [v], v) == Without(xs, v)
    decreases |xs|
  {
    if |xs| == 0 {
      assert Without([v], v) == Without([v][1..], v);
    } else {
      assert (xs + [v])[1..] == xs[1..] + [v];
      WithoutAppended(xs[1..], v);
    }
  }

  /** `addSelectionValue`: append `v` to the key's list, creating it if needed. */
  function AddValue(m: Values, key: string, v: string): (r: Values)
    ensures key in r && Lookup(r, key) == Lookup(m, key) + [v]
    ensures forall k :: k != key ==> (k in r <==> k in m) && Lookup(r, k) == Lookup(m, k)
  {
    m[key := Lookup(m, key) + [v]]
  }

  /** `removeSelectionValue`: drop every occurrence of `v` from the key's
      list; the key itself stays, and a missing key stays missing. */
  function RemoveValue(m: Values, key: string, v: string): (r: Values)
    ensures key in r <==> key in m
    ensures v !in Lookup(r, key)
    ensures forall x :: x != v ==> (x in Lookup(r, key) <==> x in Lookup(m, key))
    ensures v !in Lookup(m, key) ==> r == m
    ensures forall k :: k != key ==> (k in r <==> k in m) && Lookup(r, k) == Lookup(m, k)
  {
    if key in m then
      if v !in m[key] then WithoutAbsent(m[key], v); m
      else m[key := Without(m[key], v)]
    else m
  }

  /** Adding a value that was not selected and removing it again leaves the
      selection as it was, except that a key created by the add stays, empty. */
  lemma AddThenRemove(m: Values, key: string, v: string)
    requires v !in Lookup(m, key)
    ensures RemoveValue(AddValue(m, key, v), key, v) == m[key := Lookup(m, key)]
  {
    WithoutAppended(Lookup(m, key), v);
    WithoutAbsent(Lookup(m, key), v);
  }

  /** `removeSelectionValues`: delete the key and its list. */
  function RemoveKey(m: Values, key: string): (r: Values)
    ensures key !in r && Lookup(r, key) == []
    ensures forall k :: k != key ==> (k in r <==> k in m) && Lookup(r, k) == Lookup(m, k)
  {
    m - {key}
  }

  /** The keys of the map filter's stored location. */
  const LatitudeKey: string := "lat"
  const LongitudeKey: string := "lon"
  const RadiusKey: string := "radius"
  const LocationNameKey: string := "geoLocationName"

  /** A map selection. Coordinates are kept as exact numbers; `Double`'s
      printing and parsing are parameters of the functions below. */
  datatype GeoValue = GeoValue(latitude: real, longitude: real, radius: int, locationName: Option<string>)

  /** `setGeoLocation`: store latitude, longitude and radius as one-element
      lists, and the location name when there is one; without a name the
      name key is deleted. */
  function SetGeoLocation(m: Values, g: GeoValue, show: real -> string): (r: Values)
    ensures Lookup(r, LatitudeKey) == [show(g.latitude)]
    ensures Lookup(r, LongitudeKey) == [show(g.longitude)]
    ensures Lookup(r, RadiusKey) == [IntToString(g.radius)]
    ensures g.locationName.None? ==> LocationNameKey !in r
    ensures g.locationName.Some? ==> Lookup(r, LocationNameKey) == [g.locationName.value]
    ensures forall k :: k !in {LatitudeKey, LongitudeKey, RadiusKey, LocationNameKey} ==>
              (k in r <==> k in m) && Lookup(r, k) == Lookup(m, k)
  {
    var stored := m[LatitudeKey := [show(g.latitude)]][LongitudeKey := [show(g.longitude)]][RadiusKey := [IntToString(g.radius)]];
    match g.locationName
    case Some(name) => stored[LocationNameKey := [name]]
    case None => RemoveKey(stored, LocationNameKey)
  }

  /** The first stored value of a key, if any. */
  function First(m: Values, key: string): Option<string> {
    if |Lookup(m, key)| > 0 then Some(Lookup(m, key)[0]) else None
  }

  /** `geoLocation()`: nothing unless latitude, longitude and radius are all
      stored and parse; the location name is the first stored name, if any. */
  function GeoLocation(m: Values, parse: string -> Option<real>): (r: Option<GeoValue>)
    ensures r.Some? <==>
              && First(m, LatitudeKey).Some? && parse(First(m, LatitudeKey).value).Some?
              && First(m, LongitudeKey).Some? && parse(First(m, LongitudeKey).value).Some?
              && First(m, RadiusKey).Some? && ParseInt(First(m, RadiusKey).value).Some?
    ensures r.Some? ==> r.value.locationName == First(m, LocationNameKey)
    ensures r.Some? ==> Some(r.value.radius) == ParseInt(First(m, RadiusKey).value)
  {
    var lat := First(m, LatitudeKey);
    var lon := First(m, LongitudeKey);
    var rad := First(m, RadiusKey);
    if lat.None? || lon.None? || rad.None? then None
    else
      var latitude := parse(lat.value);
      var longitude := parse(lon.value);
      var radius := ParseInt(rad.value);
      if latitude.None? || longitude.None? || radius.None? then None
      else Some(GeoValue(latitude.value, longitude.value, radius.value, First(m, LocationNameKey)))
  }

  /** A stored location reads back as the same location, provided that parsing
      a printed coordinate gives the coordinate again. */
  lemma GeoRoundTrip(m: Values, g: GeoValue, show: real -> string, parse: string -> Option<real>)
    requires parse(show(g.latitude)) == Some(g.latitude)
    requires parse(show(g.longitude)) == Some(g.longitude)
    ensures GeoLocation(SetGeoLocation(m, g, show), parse) == Some(g)
  {
    IntRoundTrip(g.radius);
  }

  /** The kinds of filter `clearAll` tells apart. */
  datatype FilterKind = RangeFilter | StepperFilter | OtherFilter

  /** `clearAll(for:)`: a range filter loses both bound keys, a stepper only
      its lower-bound key, any other filter its own key. */
  function ClearAll(m: Values, kind: FilterKind, key: string): (r: Values)
    ensures kind.RangeFilter? ==> LowKey(key) !in r && HighKey(key) !in r
    ensures kind.StepperFilter? ==> LowKey(key) !in r
    ensures kind.OtherFilter? ==> key !in r
    ensures forall k :: k in r ==> k in m && r[k] == m[k]
    ensures forall k :: k in m && k !in {LowKey(key), HighKey(key), key} ==> k in r
    ensures kind.StepperFilter? ==> (HighKey(key) in r <==> HighKey(key) in m) && (key in r <==> key in m)
    ensures kind.OtherFilter? ==> (LowKey(key) in r <==> LowKey(key) in m) && (HighKey(key) in r <==> HighKey(key) in m)
  {
    RangeKeysDistinct(key);
    match kind
    case RangeFilter => RemoveKey(RemoveKey(m, LowKey(key)), HighKey(key))
    case StepperFilter => RemoveKey(m, LowKey(key))
    case OtherFilter => RemoveKey(m, key)
  }

  /** After `clearAll`, a range filter reads back as no range at all. */
  lemma ClearedRangeIsEmpty(m: Values, key: string)
    ensures RangeOf(ClearAll(m, RangeFilter, key), key).None?
  {
  }
}
