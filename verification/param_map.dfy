/** The `name → [value]` selection map that the parameter-based data sources
    keep, with the URL query items it is built from and turned back into. */
module ParamMap {
  import opened Wrappers
  import opened Text
  import opened Selection

  /** Selected values per parameter name (Swift's `[String: [String]]`). */
  type Values = map<string, seq<string>>

  /** `selectionValues(for:)`: the stored list, or `[]` for a missing key. */
  function Lookup(m: Values, key: string): seq<string> {
    if key in m then m[key] else []
  }

  /** The values of the items called `name`, in order, skipping items that
      carry no value: the reference reading of a list of query items. */
  function ValuesNamed(items: seq<QueryItem>, name: string): seq<string>
    decreases |items|
  {
    if |items| == 0 then []
    else
      var last := items[|items| - 1];
      ValuesNamed(items[..|items| - 1], name)
        + (if last.name == name && last.value.Some? then [last.value.value] else [])
  }

  /** `init(queryItems:)`: walk the items in order and append each present
      value to the list of its name; items without a value are skipped. */
  function Group(items: seq<QueryItem>): (m: Values)
    ensures forall name :: Lookup(m, name) == ValuesNamed(items, name)
    ensures forall name :: name in m ==> |m[name]| > 0
    decreases |items|
  {
    if |items| == 0 then map[]
    else
      var m := Group(items[..|items| - 1]);
      var last := items[|items| - 1];
      match last.value
      case None => m
      case Some(v) => m[last.name := Lookup(m, last.name) + [v]]
  }

  /** One query item per value of one name. */
  function ItemsFor(name: string, vs: seq<string>): (r: seq<QueryItem>)
    ensures |r| == |vs|
    ensures forall i :: 0 <= i < |vs| ==> r[i] == QueryItem(name, Some(vs[i]))
  {
    seq(|vs|, i requires 0 <= i < |vs| => QueryItem(name, Some(vs[i])))
  }

  /** `selectionAsQueryItems`: for each key, in the dictionary's iteration
      order `order`, one item per stored value. */
  function QueryItems(m: Values, order: seq<string>): seq<QueryItem>
    requires forall k :: k in order ==> k in m
  {
    if |order| == 0 then []
    else ItemsFor(order[0], m[order[0]]) + QueryItems(m, order[1..])
  }

  predicate Distinct(xs: seq<string>) {
    forall i, j :: 0 <= i < j < |xs| ==> xs[i] != xs[j]
  }

  lemma {:induction false} ValuesNamedAppend(a: seq<QueryItem>, b: seq<QueryItem>, name: string)
    ensures ValuesNamed(a + b, name) == ValuesNamed(a, name) + ValuesNamed(b, name)
    decreases |b|
  {
    if |b| == 0 {
      assert a + b == a;
    } else {
      var ab := a + b;
      assert ab[..|ab| - 1] == a + b[..|b| - 1];
      assert ab[|ab| - 1] == b[|b| - 1];
      ValuesNamedAppend(a, b[..|b| - 1], name);
    }
  }

  lemma {:induction false} ValuesNamedItemsFor(k: string, vs: seq<string>, name: string)
    ensures ValuesNamed(ItemsFor(k, vs), name) == if k == name then vs else []
    decreases |vs|
  {
    if |vs| > 0 {
      var items := ItemsFor(k, vs);
      assert items[..|items| - 1] == ItemsFor(k, vs[..|vs| - 1]);
      ValuesNamedItemsFor(k, vs[..|vs| - 1], name);
      if k == name {
        assert vs == vs[..|vs| - 1] + [vs[|vs| - 1]];
      }
    }
  }

  /** Reading the query items of a map back by name gives the key's list when
      the name is listed in `order`, and nothing otherwise. */
  lemma {:induction false} ValuesNamedQueryItems(m: Values, order: seq<string>, name: string)
    requires forall k :: k in order ==> k in m
    requires Distinct(order)
    ensures ValuesNamed(QueryItems(m, order), name) == if name in order then m[name] else []
    decreases |order|
  {
    if |order| > 0 {
      var k := order[0];
      var rest := order[1..];
      assert QueryItems(m, order) == ItemsFor(k, m[k]) + QueryItems(m, rest);
      ValuesNamedAppend(ItemsFor(k, m[k]), QueryItems(m, rest), name);
      ValuesNamedItemsFor(k, m[k], name);
      DistinctTail(order);
      ValuesNamedQueryItems(m, rest, name);
      assert name in order <==> name == k || name in rest by {
        assert order == [k] + rest;
      }
    }
  }

  /** The tail of a list without repeats has none and lacks the head. */
  lemma DistinctTail(xs: seq<string>)
    requires |xs| > 0 && Distinct(xs)
    ensures Distinct(xs[1..]) && xs[0] !in xs[1..]
  {
    var t := xs[1..];
    forall i, j | 0 <= i < j < |t|
      ensures t[i] != t[j]
    {
      assert t[i] == xs[i + 1] && t[j] == xs[j + 1];
    }
    forall j | 0 <= j < |t|
      ensures t[j] != xs[0]
    {
      assert t[j] == xs[j + 1];
    }
  }

  /** Building a data source from its own `selectionAsQueryItems` gives the
      same selection back, whatever order the dictionary lists its keys in. */
  lemma QueryItemsRoundTrip(m: Values, order: seq<string>)
    requires Distinct(order)
    requires forall k :: k in m <==> k in order
    requires forall k :: k in m ==> |m[k]| > 0
    ensures Group(QueryItems(m, order)) == m
  {
    var g := Group(QueryItems(m, order));
    forall name
      ensures Lookup(g, name) == Lookup(m, name)
    {
      ValuesNamedQueryItems(m, order, name);
    }
    assert forall k :: k in g <==> k in m by {
      forall k
        ensures k in g <==> k in m
      {
        assert Lookup(g, k) == Lookup(m, k);
      }
    }
    assert forall k :: k in g ==> g[k] == m[k] by {
      forall k | k in g
        ensures g[k] == m[k]
      {
        assert Lookup(g, k) == Lookup(m, k);
      }
    }
  }

  /** A range selection: only a lower bound, only an upper bound, or both. */
  datatype RangeValue = Minimum(low: int) | Maximum(high: int) | Closed(lowValue: int, highValue: int)

  /** The key holding a range's lower bound. */
  function LowKey(base: string): string {
    base + "_from"
  }

  /** The key holding a range's upper bound. */
  function HighKey(base: string): string {
    base + "_to"
  }

  /** The two bound keys of a range never collide with each other or with the
      base key, so writing one leaves the others alone. */
  lemma RangeKeysDistinct(base: string)
    ensures LowKey(base) != HighKey(base)
    ensures LowKey(base) != base && HighKey(base) != base
  {
    assert |LowKey(base)| == |base| + 5;
    assert |HighKey(base)| == |base| + 3;
  }

  /** `intOrNil(from: selectionValues(for: key).first)`. */
  function FirstInt(m: Values, key: string): (r: Option<int>)
    ensures r.Some? ==> |Lookup(m, key)| > 0 && ParseInt(Lookup(m, key)[0]) == r
    ensures |Lookup(m, key)| == 0 ==> r.None?
  {
    var vs := Lookup(m, key);
    if |vs| == 0 then None else ParseInt(vs[0])
  }

  /** The range stored under `base`: closed with both bounds, minimum or
      maximum with one, nothing with neither. */
  function RangeOf(m: Values, base: string): (r: Option<RangeValue>)
    ensures r.None? <==> FirstInt(m, LowKey(base)).None? && FirstInt(m, HighKey(base)).None?
    ensures r.Some? && r.value.Closed? <==> FirstInt(m, LowKey(base)).Some? && FirstInt(m, HighKey(base)).Some?
    ensures r.Some? && r.value.Minimum? ==> FirstInt(m, HighKey(base)).None? && FirstInt(m, LowKey(base)) == Some(r.value.low)
    ensures r.Some? && r.value.Maximum? ==> FirstInt(m, LowKey(base)).None? && FirstInt(m, HighKey(base)) == Some(r.value.high)
  {
    var low := FirstInt(m, LowKey(base));
    var high := FirstInt(m, HighKey(base));
    if low.Some? && high.Some? then Some(Closed(low.value, high.value))
    else if low.Some? then Some(Minimum(low.value))
    else if high.Some? then Some(Maximum(high.value))
    else None
  }

  /** Writing a range: each present bound is stored as its decimal text under
      its key, and the key of an absent bound is deleted. Every other key is
      untouched. */
  function SetRange(m: Values, base: string, range: RangeValue): (r: Values)
    ensures range.Minimum? ==> Lookup(r, LowKey(base)) == [IntToString(range.low)] && HighKey(base) !in r
    ensures range.Maximum? ==> LowKey(base) !in r && Lookup(r, HighKey(base)) == [IntToString(range.high)]
    ensures range.Closed? ==>
              Lookup(r, LowKey(base)) == [IntToString(range.lowValue)]
              && Lookup(r, HighKey(base)) == [IntToString(range.highValue)]
    ensures forall k :: k != LowKey(base) && k != HighKey(base) ==> Lookup(r, k) == Lookup(m, k) && (k in r <==> k in m)
  {
    RangeKeysDistinct(base);
    var lowKey := LowKey(base);
    var highKey := HighKey(base);
    match range
    case Minimum(low) => (m - {highKey})[lowKey := [IntToString(low)]]
    case Maximum(high) => (m - {lowKey})[highKey := [IntToString(high)]]
    case Closed(low, high) => m[lowKey := [IntToString(low)]][highKey := [IntToString(high)]]
  }

  /** Reading back a range that was just written gives that range. */
  lemma RangeRoundTrip(m: Values, base: string, range: RangeValue)
    ensures RangeOf(SetRange(m, base, range), base) == Some(range)
  {
    match range
    case Minimum(low) => IntRoundTrip(low);
    case Maximum(high) => IntRoundTrip(high);
    case Closed(low, high) => IntRoundTrip(low); IntRoundTrip(high);
  }
}
