/** `PolygonData`: the query strings that carry a drawn map area (a closed
    polygon of `"lon lat"` points) and a bounding box (`"minLon,minLat,maxLon,maxLat"`).
    Coordinates are exact numbers; `String(Double)` and `Double(String)` are
    the parameters `show` and `parse`, and `removingPercentEncoding` is the
    parameter `unescape`. */
module Polygon {
  import opened Wrappers
  import opened Text

  datatype Coordinate = Coordinate(latitude: real, longitude: real)

  /** What the round trips need of number printing at `x`: parsing gives `x`
      back, and the text is non-empty and holds neither separator. */
  predicate Printable(show: real -> string, parse: string -> Option<real>, x: real) {
    parse(show(x)) == Some(x) && |show(x)| > 0 && ',' !in show(x) && ' ' !in show(x)
  }

  predicate PrintableAll(show: real -> string, parse: string -> Option<real>, cs: seq<Coordinate>) {
    forall i :: 0 <= i < |cs| ==> Printable(show, parse, cs[i].latitude) && Printable(show, parse, cs[i].longitude)
  }

  /** `string(for:)`: longitude, a space, latitude. */
  function PointText(c: Coordinate, show: real -> string): string {
    show(c.longitude) + " " + show(c.latitude)
  }

  function PointTexts(cs: seq<Coordinate>, show: real -> string): (r: seq<string>)
    ensures |r| == |cs| && forall i :: 0 <= i < |cs| ==> r[i] == PointText(cs[i], show)
  {
    seq(|cs|, i requires 0 <= i < |cs| => PointText(cs[i], show))
  }

  /** The loop of `createPolygonQuery`: every point followed by a comma. */
  function PointsWithCommas(cs: seq<Coordinate>, show: real -> string): string
    decreases |cs|
  {
    if |cs| == 0 then "" else PointText(cs[0], show) + "," + PointsWithCommas(cs[1..], show)
  }

  lemma {:induction false} PointsWithCommasJoin(cs: seq<Coordinate>, last: string, show: real -> string)
    ensures PointsWithCommas(cs, show) + last == Join(PointTexts(cs, show) + [last], ",")
    decreases |cs|
  {
    if |cs| > 0 {
      PointsWithCommasJoin(cs[1..], last, show);
      var parts := PointTexts(cs, show) + [last];
      assert parts[1..] == PointTexts(cs[1..], show) + [last];
      assert parts[0] == PointText(cs[0], show);
    }
  }

  /** `createPolygonQuery(for:)`: nothing for three points or fewer (no
      area); otherwise every point, then the first point again to close the
      polygon, separated by commas. */
  function PolygonQuery(cs: seq<Coordinate>, show: real -> string): (r: Option<string>)
    ensures r.None? <==> |cs| <= 3
    ensures r.Some? ==> r.value == Join(PointTexts(cs, show) + [PointText(cs[0], show)], ",")
  {
    if |cs| <= 3 then None
    else
      PointsWithCommasJoin(cs, PointText(cs[0], show), show);
      Some(PointsWithCommas(cs, show) + PointText(cs[0], show))
  }

  /** One point of a polygon query: the numbers among its space-separated
      pieces must be exactly two, longitude then latitude. */
  function ParsePoint(point: string, parse: string -> Option<real>): (r: Option<Coordinate>)
    ensures r.Some? <==> |CompactMap(Parsed(Components(point, ' '), parse))| == 2
    ensures r.Some? ==> var nums := CompactMap(Parsed(Components(point, ' '), parse));
              r.value == Coordinate(nums[1], nums[0])
  {
    var nums := CompactMap(Parsed(Components(point, ' '), parse));
    if |nums| == 2 then Some(Coordinate(nums[1], nums[0])) else None
  }

  function Parsed(pieces: seq<string>, parse: string -> Option<real>): (r: seq<Option<real>>)
    ensures |r| == |pieces| && forall i :: 0 <= i < |pieces| ==> r[i] == parse(pieces[i])
  {
    seq(|pieces|, i requires 0 <= i < |pieces| => parse(pieces[i]))
  }

  /** The points in order; nothing as soon as one point fails. */
  function ParsePoints(points: seq<string>, parse: string -> Option<real>): (r: Option<seq<Coordinate>>)
    ensures r.Some? <==> forall i :: 0 <= i < |points| ==> ParsePoint(points[i], parse).Some?
    ensures r.Some? ==> |r.value| == |points|
    ensures r.Some? ==> forall i :: 0 <= i < |points| ==> r.value[i] == ParsePoint(points[i], parse).value
    decreases |points|
  {
    if |points| == 0 then Some([])
    else
      var rest := ParsePoints(points[1..], parse);
      assert forall i :: 1 <= i < |points| ==> points[i] == points[1..][i - 1];
      match ParsePoint(points[0], parse)
      case None => None
      case Some(c) => if rest.None? then None else Some([c] + rest.value)
  }

  /** Every comma-separated piece but the last (closing) one reads as a point. */
  predicate PointsParse(pieces: seq<string>, parse: string -> Option<real>) {
    forall i :: 0 <= i < |pieces| - 1 ==> ParsePoint(pieces[i], parse).Some?
  }

  /** `createPolygonCoordinates(from:)`: undo the percent encoding, split at
      commas, drop the last (closing) point and read the rest. */
  function ParsePolygon(query: string, unescape: string -> Option<string>, parse: string -> Option<real>): (r: Option<seq<Coordinate>>)
    ensures unescape(query).None? ==> r.None?
    ensures r.Some? ==> |r.value| == |Components(unescape(query).value, ',')| - 1
    ensures r.Some? <==> (unescape(query).Some? && PointsParse(Components(unescape(query).value, ','), parse))
    ensures r.Some? ==> forall i :: 0 <= i < |r.value| ==>
      Some(r.value[i]) == ParsePoint(Components(unescape(query).value, ',')[i], parse)
  {
    match unescape(query)
    case None => None
    case Some(text) =>
      var pieces := Components(text, ',');
      var points := DropLast(pieces);
      assert forall i :: 0 <= i < |points| ==> ParsePoint(points[i], parse) == ParsePoint(pieces[i], parse);
      ParsePoints(points, parse)
  }

  /** A printed point reads back as the same coordinate. */
  lemma PointRoundTrip(c: Coordinate, show: real -> string, parse: string -> Option<real>)
    requires Printable(show, parse, c.latitude) && Printable(show, parse, c.longitude)
    ensures ParsePoint(PointText(c, show), parse) == Some(c)
  {
    var parts := [show(c.longitude), show(c.latitude)];
    assert parts[1..] == [show(c.latitude)];
    assert Join(parts, [' ']) == PointText(c, show);
    ComponentsOfJoin(parts, ' ');
    var decoded := Parsed(parts, parse);
    CompactMapAllSome(decoded);
  }

  /** Reading back the query of four or more coordinates gives them back,
      when number printing and parsing are inverse on them and the query
      carries no percent escapes. */
  lemma PolygonRoundTrip(cs: seq<Coordinate>, show: real -> string, parse: string -> Option<real>,
                         unescape: string -> Option<string>)
    requires |cs| > 3
    requires PrintableAll(show, parse, cs)
    requires unescape(PolygonQuery(cs, show).value) == PolygonQuery(cs, show)
    ensures ParsePolygon(PolygonQuery(cs, show).value, unescape, parse) == Some(cs)
  {
    var parts := PointTexts(cs, show) + [PointText(cs[0], show)];
    forall i | 0 <= i < |parts|
      ensures ',' !in parts[i]
    {
      var c := if i < |cs| then cs[i] else cs[0];
      assert parts[i] == PointText(c, show);
    }
    ComponentsOfJoin(parts, ',');
    var points := DropLast(parts);
    assert points == PointTexts(cs, show);
    forall i | 0 <= i < |cs|
      ensures ParsePoint(points[i], parse) == Some(cs[i])
    {
      PointRoundTrip(cs[i], show, parse);
    }
    var r := ParsePoints(points, parse);
    assert r.value == cs;
  }

  /** The least of a non-empty list. */
  function MinOf(xs: seq<real>): (r: real)
    requires |xs| > 0
    ensures r in xs && forall i :: 0 <= i < |xs| ==> r <= xs[i]
    decreases |xs|
  {
    if |xs| == 1 then xs[0]
    else
      var rest := MinOf(xs[1..]);
      assert forall i :: 1 <= i < |xs| ==> xs[i] == xs[1..][i - 1];
      if xs[0] <= rest then xs[0] else rest
  }

  /** The greatest of a non-empty list. */
  function MaxOf(xs: seq<real>): (r: real)
    requires |xs| > 0
    ensures r in xs && forall i :: 0 <= i < |xs| ==> xs[i] <= r
    decreases |xs|
  {
    if |xs| == 1 then xs[0]
    else
      var rest := MaxOf(xs[1..]);
      assert forall i :: 1 <= i < |xs| ==> xs[i] == xs[1..][i - 1];
      if xs[0] >= rest then xs[0] else rest
  }

  function Longitudes(cs: seq<Coordinate>): (r: seq<real>)
    ensures |r| == |cs| && forall i :: 0 <= i < |cs| ==> r[i] == cs[i].longitude
  {
    seq(|cs|, i requires 0 <= i < |cs| => cs[i].longitude)
  }

  function Latitudes(cs: seq<Coordinate>): (r: seq<real>)
    ensures |r| == |cs| && forall i :: 0 <= i < |cs| ==> r[i] == cs[i].latitude
  {
    seq(|cs|, i requires 0 <= i < |cs| => cs[i].latitude)
  }

  /** `min() ?? 0` and `max() ?? 0`. */
  function Lowest(xs: seq<real>): real {
    if |xs| == 0 then 0.0 else MinOf(xs)
  }

  function Highest(xs: seq<real>): real {
    if |xs| == 0 then 0.0 else MaxOf(xs)
  }

  /** The four bounds of the box around `cs`, in query order. */
  function Bounds(cs: seq<Coordinate>): (r: seq<real>)
    ensures |r| == 4
    ensures |cs| == 0 ==> r == [0.0, 0.0, 0.0, 0.0]
  {
    [Lowest(Longitudes(cs)), Lowest(Latitudes(cs)), Highest(Longitudes(cs)), Highest(Latitudes(cs))]
  }

  /** Every coordinate lies inside its box. */
  lemma BoundsContain(cs: seq<Coordinate>, i: nat)
    requires i < |cs|
    ensures Bounds(cs)[0] <= cs[i].longitude <= Bounds(cs)[2]
    ensures Bounds(cs)[1] <= cs[i].latitude <= Bounds(cs)[3]
  {
    assert Longitudes(cs)[i] == cs[i].longitude;
    assert Latitudes(cs)[i] == cs[i].latitude;
  }

  function Shown(xs: seq<real>, show: real -> string): (r: seq<string>)
    ensures |r| == |xs| && forall i :: 0 <= i < |xs| ==> r[i] == show(xs[i])
  {
    seq(|xs|, i requires 0 <= i < |xs| => show(xs[i]))
  }

  /** `createBBoxQuery(for:)`: the bounds joined with commas; nothing when
      any bound is exactly 0, which is also the case for no coordinates. */
  function BBoxQuery(cs: seq<Coordinate>, show: real -> string): (r: Option<string>)
    ensures r.None? <==> 0.0 in Bounds(cs)
    ensures |cs| == 0 ==> r.None?
    ensures r.Some? ==> r.value == Join(Shown(Bounds(cs), show), ",")
  {
    var bounds := Bounds(cs);
    if 0.0 in bounds then None else Some(Join(Shown(bounds, show), ","))
  }

  /** The corners `createBBoxCoordinates` builds from the four numbers, in its
      order and with its pairing of latitudes and longitudes. */
  function Corners(v: seq<real>): (r: seq<Coordinate>)
    requires |v| == 4
    ensures |r| == 4
  {
    [Coordinate(v[1], v[0]), Coordinate(v[1], v[2]), Coordinate(v[3], v[2]), Coordinate(v[3], v[0])]
  }

  /** `createBBoxCoordinates(from:)`: undo the percent encoding, split at
      commas dropping empty pieces, keep the pieces that are numbers, and
      require exactly four of them. */
  function ParseBBox(query: string, unescape: string -> Option<string>, parse: string -> Option<real>): (r: Option<seq<Coordinate>>)
    ensures r.Some? <==> unescape(query).Some? && |CompactMap(Parsed(Split(unescape(query).value, ','), parse))| == 4
    ensures r.Some? ==> r.value == Corners(CompactMap(Parsed(Split(unescape(query).value, ','), parse)))
  {
    match unescape(query)
    case None => None
    case Some(text) =>
      var values := CompactMap(Parsed(Split(text, ','), parse));
      if |values| == 4 then Some(Corners(values)) else None
  }

  /** Reading back a box query gives the corners of the box, when number
      printing and parsing are inverse on the bounds and the query carries no
      percent escapes. */
  lemma BBoxRoundTrip(cs: seq<Coordinate>, show: real -> string, parse: string -> Option<real>,
                      unescape: string -> Option<string>)
    requires BBoxQuery(cs, show).Some?
    requires forall i :: 0 <= i < 4 ==> Printable(show, parse, Bounds(cs)[i])
    requires unescape(BBoxQuery(cs, show).value) == BBoxQuery(cs, show)
    ensures ParseBBox(BBoxQuery(cs, show).value, unescape, parse) == Some(Corners(Bounds(cs)))
  {
    var bounds := Bounds(cs);
    ShownRoundTrip(bounds, show, parse);
  }

  /** Numbers joined with commas read back as the same numbers. */
  lemma ShownRoundTrip(xs: seq<real>, show: real -> string, parse: string -> Option<real>)
    requires |xs| >= 1
    requires forall i :: 0 <= i < |xs| ==> Printable(show, parse, xs[i])
    ensures CompactMap(Parsed(Split(Join(Shown(xs, show), ","), ','), parse)) == xs
  {
    var parts := Shown(xs, show);
    ShownSeparatorFree(xs, show, parse);
    SplitOfJoin(parts, ',');
    ParsedShown(xs, show, parse);
  }

  lemma ShownSeparatorFree(xs: seq<real>, show: real -> string, parse: string -> Option<real>)
    requires forall i :: 0 <= i < |xs| ==> Printable(show, parse, xs[i])
    ensures forall i :: 0 <= i < |xs| ==> |Shown(xs, show)[i]| > 0 && ',' !in Shown(xs, show)[i]
  {
    var parts := Shown(xs, show);
    forall i | 0 <= i < |xs|
      ensures |parts[i]| > 0 && ',' !in parts[i]
    {
      assert Printable(show, parse, xs[i]);
    }
  }

  lemma ParsedShown(xs: seq<real>, show: real -> string, parse: string -> Option<real>)
    requires forall i :: 0 <= i < |xs| ==> Printable(show, parse, xs[i])
    ensures CompactMap(Parsed(Shown(xs, show), parse)) == xs
  {
    var decoded := Parsed(Shown(xs, show), parse);
    forall i | 0 <= i < |xs|
      ensures decoded[i] == Some(xs[i])
    {
      assert Printable(show, parse, xs[i]);
    }
    CompactMapAllSome(decoded);
    var r := CompactMap(decoded);
    assert |r| == |xs| && forall i :: 0 <= i < |xs| ==> r[i] == xs[i];
  }

  /** The least and greatest of a list holding only `lo` and `hi`, both of
      them, with `lo <= hi`. */
  lemma ExtremesOfPair(xs: seq<real>, lo: real, hi: real)
    requires lo <= hi && |xs| > 0 && lo in xs && hi in xs
    requires forall i :: 0 <= i < |xs| ==> xs[i] == lo || xs[i] == hi
    ensures MinOf(xs) == lo && MaxOf(xs) == hi
  {
    var mn := MinOf(xs);
    var mx := MaxOf(xs);
    var i :| 0 <= i < |xs| && xs[i] == lo;
    var j :| 0 <= j < |xs| && xs[j] == hi;
    assert mn <= xs[i] && xs[j] <= mx;
  }

  /** The box of the corners read from a box query is the box that was read:
      with ordered, non-zero bounds, the query made from the corners is the
      query made from the bounds. */
  lemma CornersBounds(v: seq<real>, show: real -> string)
    requires |v| == 4 && v[0] <= v[2] && v[1] <= v[3]
    requires 0.0 !in v
    ensures BBoxQuery(Corners(v), show) == Some(Join(Shown(v, show), ","))
  {
    CornersBox(v);
  }

  lemma CornersBox(v: seq<real>)
    requires |v| == 4 && v[0] <= v[2] && v[1] <= v[3]
    ensures Bounds(Corners(v)) == v
  {
    var cs := Corners(v);
    CornerLongitudes(v);
    CornerLatitudes(v);
    var b := Bounds(cs);
    assert b == [Lowest(Longitudes(cs)), Lowest(Latitudes(cs)), Highest(Longitudes(cs)), Highest(Latitudes(cs))];
    assert b[0] == v[0] && b[2] == v[2];
    assert b[1] == v[1] && b[3] == v[3];
  }

  /** The longitudes of the corners: the box's west and east edges, each
      twice, and their extremes. */
  lemma CornerLongitudes(v: seq<real>)
    requires |v| == 4 && v[0] <= v[2]
    ensures Lowest(Longitudes(Corners(v))) == v[0] && Highest(Longitudes(Corners(v))) == v[2]
  {
    var lons := Longitudes(Corners(v));
    assert lons == [v[0], v[2], v[2], v[0]];
    PairExtremes(v[0], v[2], v[2], v[0]);
  }

  lemma CornerLatitudes(v: seq<real>)
    requires |v| == 4 && v[1] <= v[3]
    ensures Lowest(Latitudes(Corners(v))) == v[1] && Highest(Latitudes(Corners(v))) == v[3]
  {
    var lats := Latitudes(Corners(v));
    assert lats == [v[1], v[1], v[3], v[3]];
    PairExtremes(v[1], v[1], v[3], v[3]);
  }

  /** The extremes of four values that are each one of two ordered values,
      both present. */
  lemma PairExtremes(a: real, b: real, c: real, d: real)
    requires (a <= b && a == d && b == c) || (a <= c && a == b && c == d)
    ensures MinOf([a, b, c, d]) == a
    ensures MaxOf([a, b, c, d]) == (if a == b then c else b)
  {
    var xs := [a, b, c, d];
    if a == b {
      ExtremesOfPair(xs, a, c);
    } else {
      ExtremesOfPair(xs, a, b);
    }
  }
}
