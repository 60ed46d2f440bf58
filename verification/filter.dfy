/** The filter tree of Charcoal: every node has a title, a query key, an optional
    query value, a kind and ordered subfilters (Sources/Charcoal/Models/Filter.swift). */
module Filters {
  import opened Wrappers

  datatype Style = Normal | Context

  /** The kinds of a filter. A range filter carries its low and high value
      filters, a map filter its latitude, longitude, radius and location-name
      filters; the factories also put these children in `subfilters`.
      `Standard` and `Grid` are the kinds the backend setup builds. */
  datatype Kind =
    | List
    | Standard
    | Grid
    | Search
    | Inline
    | Stepper
    | External
    | Range(low: Filter, high: Filter)
    | Map(latitude: Filter, longitude: Filter, radius: Filter, locationName: Filter)

  datatype Filter = Filter(
    title: string,
    key: string,
    value: Option<string>,
    style: Style,
    kind: Kind,
    numberOfResults: int,
    mutuallyExclusiveKeys: set<string>,
    subfilters: seq<Filter>)

  /** What `==` on filters compares: the key and the value, nothing else. */
  function Ident(f: Filter): (string, Option<string>) {
    (f.key, f.value)
  }

  predicate Equal(a: Filter, b: Filter) {
    a.key == b.key && a.value == b.value
  }

  /** Filter equality ignores title, kind, style, counts and subfilters, and is an
      equivalence relation. */
  lemma EqualIsIdentity(a: Filter, b: Filter, c: Filter)
    ensures Equal(a, b) <==> Ident(a) == Ident(b)
    ensures Equal(a, a)
    ensures Equal(a, b) ==> Equal(b, a)
    ensures Equal(a, b) && Equal(b, c) ==> Equal(a, c)
    ensures Equal(a, a.(title := b.title, kind := b.kind, style := b.style,
                        numberOfResults := b.numberOfResults, subfilters := b.subfilters))
  {
  }

  /** A plain node: the private initialiser with its defaults. */
  function Node(title: string, key: string, value: Option<string>, numberOfResults: int,
                kind: Kind, style: Style): Filter
  {
    Filter(title, key, value, style, kind, numberOfResults, {}, [])
  }

  /** `subfilter(at:)`: the child at `index`, or nothing past the end. */
  function SubfilterAt(f: Filter, index: int): (r: Option<Filter>)
    requires 0 <= index
    ensures r.Some? <==> index < |f.subfilters|
    ensures r.Some? ==> r.value == f.subfilters[index] && r.value in f.subfilters
  {
    if index < |f.subfilters| then Some(f.subfilters[index]) else None
  }

  function ListFilter(title: string, key: string, value: Option<string>, numberOfResults: int,
                      style: Style, subfilters: seq<Filter>): (r: Filter)
    ensures r.kind == List && r.subfilters == subfilters
    ensures Ident(r) == (key, value) && r.title == title && r.style == style
    ensures r.numberOfResults == numberOfResults && r.mutuallyExclusiveKeys == {}
  {
    Node(title, key, value, numberOfResults, List, style).(subfilters := subfilters)
  }

  /** The free-text search filter; without a title it shows a localised
      placeholder, passed in as `placeholder`. */
  function SearchFilter(title: Option<string>, key: string, placeholder: string): (r: Filter)
    ensures r.kind == Search && r.subfilters == [] && Ident(r) == (key, None)
    ensures r.title == (if title.Some? then title.value else placeholder)
    ensures r.style == Normal && r.numberOfResults == 0
  {
    Node(title.GetOr(placeholder), key, None, 0, Search, Normal)
  }

  function InlineFilter(title: string, key: string, subfilters: seq<Filter>): (r: Filter)
    ensures r.kind == Inline && r.subfilters == subfilters && Ident(r) == (key, None)
    ensures r.title == title && r.style == Normal && r.numberOfResults == 0
  {
    Node(title, key, None, 0, Inline, Normal).(subfilters := subfilters)
  }

  function StepperFilter(title: string, key: string, style: Style): (r: Filter)
    ensures r.kind == Stepper && r.subfilters == [] && Ident(r) == (key, None)
    ensures r.title == title && r.style == style && r.numberOfResults == 0
  {
    Node(title, key, None, 0, Stepper, style)
  }

  function ExternalFilter(title: string, key: string, value: Option<string>, numberOfResults: int,
                          style: Style): (r: Filter)
    ensures r.kind == External && r.subfilters == [] && Ident(r) == (key, value)
    ensures r.title == title && r.style == style && r.numberOfResults == numberOfResults
  {
    Node(title, key, value, numberOfResults, External, style)
  }

  /** A value-less leaf with an empty title, as the range and map factories make. */
  function Leaf(key: string): (r: Filter)
    ensures Ident(r) == (key, None) && r.subfilters == [] && r.kind == List
  {
    Node("", key, None, 0, List, Normal)
  }

  /** A range filter: two value-less leaves for the low and the high bound, held
      both by the kind and, in that order, as subfilters. */
  function RangeFilter(title: string, key: string, lowKey: string, highKey: string,
                       style: Style): (r: Filter)
    ensures r.kind.Range? && r.subfilters == [r.kind.low, r.kind.high]
    ensures r.kind.low == Leaf(lowKey) && r.kind.high == Leaf(highKey)
    ensures Ident(r) == (key, None) && r.title == title && r.style == style
  {
    var low := Leaf(lowKey);
    var high := Leaf(highKey);
    Node(title, key, None, 0, Range(low, high), style).(subfilters := [low, high])
  }

  /** A map filter: four value-less leaves (latitude, longitude, radius,
      location name), in that order, and always the normal style. */
  function MapFilter(title: Option<string>, key: string, latitudeKey: string, longitudeKey: string,
                     radiusKey: string, locationKey: string, defaultTitle: string): (r: Filter)
    ensures r.kind.Map?
    ensures r.subfilters == [r.kind.latitude, r.kind.longitude, r.kind.radius, r.kind.locationName]
    ensures r.kind.radius == Leaf(radiusKey) && r.kind.locationName == Leaf(locationKey)
    ensures r.kind.latitude == Leaf(latitudeKey) && r.kind.longitude == Leaf(longitudeKey)
    ensures Ident(r) == (key, None) && r.style == Normal
    ensures r.title == (if title.Some? then title.value else defaultTitle)
  {
    var lat := Leaf(latitudeKey);
    var lon := Leaf(longitudeKey);
    var radius := Leaf(radiusKey);
    var name := Leaf(locationKey);
    Node(title.GetOr(defaultTitle), key, None, 0, Map(lat, lon, radius, name), Normal)
      .(subfilters := [lat, lon, radius, name])
  }

  /** The identities present among `subs`. */
  function Idents(subs: seq<Filter>): set<(string, Option<string>)> {
    set f | f in subs :: Ident(f)
  }

  lemma IdentsReplace(subs: seq<Filter>, j: nat, m: Filter)
    requires j < |subs| && Ident(m) == Ident(subs[j])
    ensures Idents(subs[j := m]) == Idents(subs)
  {
    var t := subs[j := m];
    forall x | x in Idents(t) ensures x in Idents(subs) {
      var f :| f in t && Ident(f) == x;
      var k :| 0 <= k < |t| && t[k] == f;
      if k == j { assert Ident(subs[j]) == x; } else { assert subs[k] == f; }
    }
    forall x | x in Idents(subs) ensures x in Idents(t) {
      var f :| f in subs && Ident(f) == x;
      var k :| 0 <= k < |subs| && subs[k] == f;
      if k == j { assert Ident(t[j]) == x; } else { assert t[k] == f; }
    }
  }

  lemma IdentsInsert(subs: seq<Filter>, i: nat, f: Filter)
    requires i <= |subs|
    ensures Idents(subs[..i] + [f] + subs[i..]) == Idents(subs) + {Ident(f)}
  {
    var t := subs[..i] + [f] + subs[i..];
    assert forall g :: g in t <==> g in subs || g == f by {
      assert subs == subs[..i] + subs[i..];
    }
  }

  /** `merge(with:)`: every subfilter of `other` is merged into an equal
      subfilter of `f` when there is one, and otherwise inserted at its own
      position, or appended when that position is past the end. The node's
      own fields are kept; no subfilter identity is lost and every identity
      of `other`'s subfilters ends up present. */
  function Merge(f: Filter, other: Filter): (r: Filter)
    ensures r == f.(subfilters := r.subfilters)
    ensures Idents(f.subfilters) <= Idents(r.subfilters)
    ensures forall k :: 0 <= k < |other.subfilters| ==> Ident(other.subfilters[k]) in Idents(r.subfilters)
    ensures |f.subfilters| <= |r.subfilters| <= |f.subfilters| + |other.subfilters|
    ensures Idents(other.subfilters) <= Idents(f.subfilters) ==> |r.subfilters| == |f.subfilters|
    decreases other
  {
    f.(subfilters := MergeFrom(f.subfilters, other, 0))
  }

  /** The loop of `merge(with:)` from position `index` of `other.subfilters` on. */
  function MergeFrom(subs: seq<Filter>, other: Filter, index: nat): (r: seq<Filter>)
    requires index <= |other.subfilters|
    ensures Idents(subs) <= Idents(r)
    ensures forall k :: index <= k < |other.subfilters| ==> Ident(other.subfilters[k]) in Idents(r)
    ensures |subs| <= |r| <= |subs| + (|other.subfilters| - index)
    ensures (forall k :: index <= k < |other.subfilters| ==> Ident(other.subfilters[k]) in Idents(subs))
              ==> |r| == |subs|
    decreases other, |other.subfilters| - index, 1
  {
    if index == |other.subfilters| then subs
    else
      var next := MergeOne(subs, other, index);
      MergeFrom(next, other, index + 1)
  }

  /** One step of that loop: subfilter `index` of `other` merged into its
      equal, or inserted at `index`, or appended. */
  function MergeOne(subs: seq<Filter>, other: Filter, index: nat): (r: seq<Filter>)
    requires index < |other.subfilters|
    ensures Idents(r) == Idents(subs) + {Ident(other.subfilters[index])}
    ensures |subs| <= |r| <= |subs| + 1
    ensures Ident(other.subfilters[index]) in Idents(subs) ==> |r| == |subs|
    decreases other, |other.subfilters| - index, 0
  {
    var filter := other.subfilters[index];
    match FirstIndex(subs, (g: Filter) => Equal(g, filter))
    case Some(j) =>
      IdentsReplace(subs, j, Merge(subs[j], filter));
      subs[j := Merge(subs[j], filter)]
    case None =>
      assert Ident(filter) !in Idents(subs);
      if index < |subs| then
        IdentsInsert(subs, index, filter);
        subs[..index] + [filter] + subs[index..]
      else
        IdentsInsert(subs, |subs|, filter);
        assert subs[..|subs|] + [filter] + subs[|subs|..] == subs + [filter];
        subs + [filter]
  }

  /** The shape of one merge step: the first equal subfilter is replaced by
      its merge with `other`'s subfilter; with no equal one, that subfilter is
      inserted at `index`, or appended when `index` is past the end. */
  lemma MergeOneShape(subs: seq<Filter>, other: Filter, index: nat, j: nat)
    requires index < |other.subfilters|
    ensures (j < |subs| && Equal(subs[j], other.subfilters[index])
             && forall i :: 0 <= i < j ==> !Equal(subs[i], other.subfilters[index]))
              ==> MergeOne(subs, other, index) == subs[j := Merge(subs[j], other.subfilters[index])]
    ensures (forall k :: 0 <= k < |subs| ==> !Equal(subs[k], other.subfilters[index]))
              ==> MergeOne(subs, other, index)
                  == if index < |subs| then subs[..index] + [other.subfilters[index]] + subs[index..]
                     else subs + [other.subfilters[index]]
  {
    var filter := other.subfilters[index];
    match FirstIndex(subs, (g: Filter) => Equal(g, filter))
    case Some(j') =>
      if j < |subs| && Equal(subs[j], filter) && (forall i :: 0 <= i < j ==> !Equal(subs[i], filter)) {
        assert j' == j;
      }
    case None =>
  }

  /** `a` sits in `b` in order: `a[i]` has the identity of `b[m[i]]`, and the
      positions `m` strictly increase. */
  predicate Embeds(a: seq<Filter>, b: seq<Filter>, m: seq<nat>) {
    && |m| == |a|
    && (forall i :: 0 <= i < |m| ==> m[i] < |b| && Ident(b[m[i]]) == Ident(a[i]))
    && (forall i, k :: 0 <= i < k < |m| ==> m[i] < m[k])
  }

  /** No subfilter of `other` from position `index` on equals `g`. */
  predicate Untouched(g: Filter, other: Filter, index: nat) {
    forall k :: index <= k < |other.subfilters| ==> !Equal(other.subfilters[k], g)
  }

  /** Replacing one element by another with its identity keeps every element in
      place. */
  lemma EmbedReplace(subs: seq<Filter>, j: nat, x: Filter) returns (m: seq<nat>)
    requires j < |subs| && Ident(x) == Ident(subs[j])
    ensures Embeds(subs, subs[j := x], m)
    ensures forall i :: 0 <= i < |subs| && i != j ==> subs[j := x][m[i]] == subs[i]
  {
    m := seq(|subs|, i => i);
  }

  /** Inserting an element shifts the ones after it by one and changes none. */
  lemma EmbedInsert(subs: seq<Filter>, index: nat, x: Filter) returns (m: seq<nat>)
    requires index <= |subs|
    ensures Embeds(subs, subs[..index] + [x] + subs[index..], m)
    ensures forall i :: 0 <= i < |subs| ==> (subs[..index] + [x] + subs[index..])[m[i]] == subs[i]
  {
    m := seq(|subs|, i => if i < index then i else i + 1);
  }

  /** One merge step keeps the subfilters in order, and leaves every subfilter
      that does not equal the merged one as it was. */
  lemma MergeOneEmbeds(subs: seq<Filter>, other: Filter, index: nat) returns (m: seq<nat>)
    requires index < |other.subfilters|
    ensures Embeds(subs, MergeOne(subs, other, index), m)
    ensures forall i :: 0 <= i < |subs| && !Equal(subs[i], other.subfilters[index])
              ==> MergeOne(subs, other, index)[m[i]] == subs[i]
  {
    var filter := other.subfilters[index];
    match FirstIndex(subs, (g: Filter) => Equal(g, filter))
    case Some(j) =>
      MergeOneShape(subs, other, index, j);
      m := EmbedReplace(subs, j, Merge(subs[j], filter));
    case None =>
      MergeOneShape(subs, other, index, 0);
      if index < |subs| {
        m := EmbedInsert(subs, index, filter);
      } else {
        m := EmbedInsert(subs, |subs|, filter);
        assert subs[..|subs|] + [filter] + subs[|subs|..] == subs + [filter];
      }
  }

  /** Embeddings compose: following `m1` and then `m2`. */
  lemma EmbedCompose(a: seq<Filter>, b: seq<Filter>, c: seq<Filter>, m1: seq<nat>, m2: seq<nat>) returns (m: seq<nat>)
    requires Embeds(a, b, m1) && Embeds(b, c, m2)
    ensures Embeds(a, c, m)
    ensures forall i :: 0 <= i < |a| ==> m[i] == m2[m1[i]]
  {
    m := seq(|a|, i requires 0 <= i < |a| => m2[m1[i]]);
  }

  /** The rest of the merge loop keeps the subfilters in order, and leaves every
      subfilter that no later subfilter of `other` equals as it was. */
  lemma {:induction false} MergeFromEmbeds(subs: seq<Filter>, other: Filter, index: nat) returns (m: seq<nat>)
    requires index <= |other.subfilters|
    ensures Embeds(subs, MergeFrom(subs, other, index), m)
    ensures forall i :: 0 <= i < |subs| && Untouched(subs[i], other, index)
              ==> MergeFrom(subs, other, index)[m[i]] == subs[i]
    decreases |other.subfilters| - index
  {
    if index == |other.subfilters| {
      m := seq(|subs|, i => i);
    } else {
      var next := MergeOne(subs, other, index);
      var m1 := MergeOneEmbeds(subs, other, index);
      var m2 := MergeFromEmbeds(next, other, index + 1);
      var r := MergeFrom(next, other, index + 1);
      assert r == MergeFrom(subs, other, index);
      m := EmbedCompose(subs, next, r, m1, m2);
      forall i | 0 <= i < |subs| && Untouched(subs[i], other, index)
        ensures r[m[i]] == subs[i]
      {
        assert !Equal(other.subfilters[index], subs[i]);
        assert next[m1[i]] == subs[i];
        assert Untouched(next[m1[i]], other, index + 1);
      }
    }
  }

  /** `merge(with:)` keeps the node's subfilters in their relative order, and a
      subfilter that no subfilter of `other` equals comes through unchanged. */
  lemma MergeKeepsOrder(f: Filter, other: Filter) returns (m: seq<nat>)
    ensures Embeds(f.subfilters, Merge(f, other).subfilters, m)
    ensures forall i :: 0 <= i < |f.subfilters| && Untouched(f.subfilters[i], other, 0)
              ==> Merge(f, other).subfilters[m[i]] == f.subfilters[i]
  {
    m := MergeFromEmbeds(f.subfilters, other, 0);
  }

  /** Merging `[subkey1, subkey2]` into `[subkey1, subkey3]` merges the common
      first subfilter and inserts the second at position 1, so there are three
      subfilters and `subkey3` is the last. The source's initialiser is private,
      so the nodes are built with the list factory. */
  lemma MergeExample()
    ensures var sub1 := ListFilter("Subtitle1", "subkey1", None, 0, Normal, []);
            var sub2 := ListFilter("Subtitle2", "subkey2", None, 0, Normal, []);
            var sub3 := ListFilter("Subtitle3", "subkey3", None, 0, Normal, []);
            var r := Merge(ListFilter("Title1", "key1", None, 0, Normal, [sub1, sub3]),
                           ListFilter("Title1", "key1", None, 0, Normal, [sub1, sub2]));
            |r.subfilters| == 3 && r.subfilters[2].key == "subkey3"
              && r.subfilters[1] == sub2 && r.subfilters[0].key == "subkey1"
  {
    var sub1 := ListFilter("Subtitle1", "subkey1", None, 0, Normal, []);
    var sub2 := ListFilter("Subtitle2", "subkey2", None, 0, Normal, []);
    var sub3 := ListFilter("Subtitle3", "subkey3", None, 0, Normal, []);
    var f1 := ListFilter("Title1", "key1", None, 0, Normal, [sub1, sub3]);
    var f2 := ListFilter("Title1", "key1", None, 0, Normal, [sub1, sub2]);
    var step1 := MergeOne(f1.subfilters, f2, 0);
    assert Equal(f1.subfilters[0], sub1);
    assert step1 == [Merge(sub1, sub1), sub3];
    assert Merge(sub1, sub1) == sub1;
    assert !Equal(step1[0], sub2) && !Equal(step1[1], sub2);
    var step2 := MergeOne(step1, f2, 1);
    assert step2 == [sub1, sub2, sub3];
    assert MergeFrom(step2, f2, 2) == step2;
    assert MergeFrom(step1, f2, 1) == step2;
    assert MergeFrom(f1.subfilters, f2, 0) == step2;
    assert Merge(f1, f2).subfilters == step2;
  }
}
