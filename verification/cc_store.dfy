/** The CCFilter selection store
    (Sources/CCFilter/Models/Selection/CCFilterSelectionStore.swift): a
    dictionary from node name to selected value. `CCFilterNode` and
    `CCRangeFilterNode` are not part of this model; they are represented by
    `Node` below, a range node carrying its low and high value nodes. */
module CCStore {
  import opened Wrappers
  import opened Selection

  datatype NodeKind = PlainNode | RangeNode(low: Node, high: Node)

  datatype Node = Node(name: string, title: string, value: Option<string>, kind: NodeKind, children: seq<Node>)

  type Selections = map<string, string>

  /** `k` is the name of some node of the tree rooted at `n`. */
  predicate NameInTree(n: Node, k: string)
    decreases n
  {
    n.name == k || exists i :: 0 <= i < |n.children| && NameInTree(n.children[i], k)
  }

  /** `value(for:)`. */
  function Value(m: Selections, n: Node): (r: Option<string>)
    ensures r.Some? <==> n.name in m
    ensures r.Some? ==> r.value == m[n.name]
  {
    if n.name in m then Some(m[n.name]) else None
  }

  /** `isSelected(node:)`: the node's name has a stored value. */
  predicate IsSelected(m: Selections, n: Node) {
    Value(m, n).Some?
  }

  /** `select(node:value:)`: store the node's own value, falling back to the
      supplied one; when both are nil the assignment removes the name. */
  function Select(m: Selections, n: Node, value: Option<string>): (r: Selections)
    ensures n.value.Some? ==> r == m[n.name := n.value.value]
    ensures n.value.None? && value.Some? ==> r == m[n.name := value.value]
    ensures n.value.None? && value.None? ==> n.name !in r
    ensures forall k :: k != n.name ==> (k in r <==> k in m) && (k in r ==> r[k] == m[k])
  {
    if n.value.Some? then m[n.name := n.value.value]
    else if value.Some? then m[n.name := value.value]
    else m - {n.name}
  }

  /** `unselect(node:)`: remove the node's name and, recursively, the names of
      all descendants. Exactly the names of the tree go; other entries keep
      their values. */
  function Unselect(m: Selections, n: Node): (r: Selections)
    ensures forall k :: k in r <==> k in m && !NameInTree(n, k)
    ensures forall k :: k in r ==> r[k] == m[k]
    decreases n
  {
    UnselectFrom(m - {n.name}, n, 0)
  }

  function UnselectFrom(m: Selections, n: Node, i: nat): (r: Selections)
    requires i <= |n.children|
    ensures forall k :: k in r <==> k in m && !exists j :: i <= j < |n.children| && NameInTree(n.children[j], k)
    ensures forall k :: k in r ==> r[k] == m[k]
    decreases n, |n.children| - i
  {
    if i == |n.children| then m
    else UnselectFrom(Unselect(m, n.children[i]), n, i + 1)
  }

  /** `toggle(node:)`. */
  function Toggle(m: Selections, n: Node): Selections {
    if IsSelected(m, n) then Unselect(m, n)
    else if n.value.Some? then Select(m, n, None)
    else m
  }

  /** `urlItems(for:)`: "name=value" for the node if selected, else the
      children's items in order. */
  function UrlItems(m: Selections, n: Node): seq<string>
    decreases n
  {
    match Value(m, n)
    case Some(v) => [n.name + "=" + v]
    case None => UrlItemsFrom(m, n, 0)
  }

  function UrlItemsFrom(m: Selections, n: Node, i: nat): seq<string>
    requires i <= |n.children|
    decreases n, |n.children| - i
  {
    if i == |n.children| then [] else UrlItems(m, n.children[i]) + UrlItemsFrom(m, n, i + 1)
  }

  /** `queryItems(for:)`: the node's pair if selected, else the children's
      pairs in order. Every pair returned is a stored entry of the tree. */
  function QueryItems(m: Selections, n: Node): (r: seq<QueryItem>)
    ensures forall q :: q in r ==> q.value.Some? && q.name in m && m[q.name] == q.value.value && NameInTree(n, q.name)
    decreases n
  {
    match Value(m, n)
    case Some(v) => [QueryItem(n.name, Some(v))]
    case None => QueryItemsFrom(m, n, 0)
  }

  function QueryItemsFrom(m: Selections, n: Node, i: nat): (r: seq<QueryItem>)
    requires i <= |n.children|
    ensures forall q :: q in r ==>
      (q.value.Some? && q.name in m && m[q.name] == q.value.value &&
       exists j :: i <= j < |n.children| && NameInTree(n.children[j], q.name))
    decreases n, |n.children| - i
  {
    if i == |n.children| then [] else QueryItems(m, n.children[i]) + QueryItemsFrom(m, n, i + 1)
  }

  /** `buildTitles(for:)`: a range node's bounds as "low - high", "low - ...",
      "... - high" or nothing; any other node's title. */
  function BuildTitles(m: Selections, n: Node): seq<string> {
    match n.kind
    case RangeNode(low, high) => RangeTitle(Value(m, low), Value(m, high))
    case PlainNode => [n.title]
  }

  /** `titles(for:)`. */
  function Titles(m: Selections, n: Node): seq<string>
    decreases n
  {
    if IsSelected(m, n) then BuildTitles(m, n) else TitlesFrom(m, n, 0)
  }

  function TitlesFrom(m: Selections, n: Node, i: nat): seq<string>
    requires i <= |n.children|
    decreases n, |n.children| - i
  {
    if i == |n.children| then [] else Titles(m, n.children[i]) + TitlesFrom(m, n, i + 1)
  }

  /** `hasSelectedChildren(node:)`. */
  predicate HasSelectedChildren(m: Selections, n: Node)
    decreases n
  {
    IsSelected(m, n) || exists i :: 0 <= i < |n.children| && HasSelectedChildren(m, n.children[i])
  }

  /** `selectedChildren(for:)`. */
  function SelectedChildren(m: Selections, n: Node): (r: seq<Node>)
    ensures forall c :: c in r ==> IsSelected(m, c)
    decreases n
  {
    if IsSelected(m, n) then [n] else SelectedFrom(m, n, 0)
  }

  function SelectedFrom(m: Selections, n: Node, i: nat): (r: seq<Node>)
    requires i <= |n.children|
    ensures forall c :: c in r ==> IsSelected(m, c)
    decreases n, |n.children| - i
  {
    if i == |n.children| then [] else SelectedChildren(m, n.children[i]) + SelectedFrom(m, n, i + 1)
  }

  // ---------------------------------------------------------------------------
  // Properties

  function Format(q: QueryItem): string
    requires q.value.Some?
  {
    q.name + "=" + q.value.value
  }

  function FormatAll(qs: seq<QueryItem>): (r: seq<string>)
    requires forall q :: q in qs ==> q.value.Some?
    ensures |r| == |qs|
  {
    if |qs| == 0 then [] else [Format(qs[0])] + FormatAll(qs[1..])
  }

  lemma FormatAllAppend(a: seq<QueryItem>, b: seq<QueryItem>)
    requires forall q :: q in a + b ==> q.value.Some?
    ensures FormatAll(a + b) == FormatAll(a) + FormatAll(b)
  {
    if |a| > 0 {
      assert (a + b)[0] == a[0];
      assert (a + b)[1..] == a[1..] + b;
      FormatAllAppend(a[1..], b);
    } else {
      assert a + b == b;
    }
  }

  /** `urlItems` is `queryItems` with each pair written "name=value". */
  lemma {:induction false} UrlItemsAreQueryItems(m: Selections, n: Node)
    ensures UrlItems(m, n) == FormatAll(QueryItems(m, n))
    decreases n, 1
  {
    if !IsSelected(m, n) {
      UrlItemsFromAreQueryItems(m, n, 0);
    }
  }

  lemma {:induction false} UrlItemsFromAreQueryItems(m: Selections, n: Node, i: nat)
    requires i <= |n.children|
    ensures UrlItemsFrom(m, n, i) == FormatAll(QueryItemsFrom(m, n, i))
    decreases n, 0, |n.children| - i
  {
    if i < |n.children| {
      UrlItemsAreQueryItems(m, n.children[i]);
      UrlItemsFromAreQueryItems(m, n, i + 1);
      FormatAllAppend(QueryItems(m, n.children[i]), QueryItemsFrom(m, n, i + 1));
    }
  }

  /** `toggle` on a selected node unselects it and its descendants; on an
      unselected node it selects the node's value, or changes nothing when
      the node has none. */
  lemma ToggleEffect(m: Selections, n: Node)
    ensures IsSelected(m, n) ==> !IsSelected(Toggle(m, n), n)
    ensures IsSelected(m, n) ==> forall k :: NameInTree(n, k) ==> k !in Toggle(m, n)
    ensures !IsSelected(m, n) && n.value.None? ==> Toggle(m, n) == m
    ensures !IsSelected(m, n) && n.value.Some? ==> Value(Toggle(m, n), n) == n.value
  {
  }

  /** Titles of a selected range node follow its bounds. */
  lemma RangeNodeTitles(m: Selections, n: Node)
    requires n.kind.RangeNode? && IsSelected(m, n)
    ensures var l := Value(m, n.kind.low);
      var h := Value(m, n.kind.high);
      (l.Some? && h.Some? ==> Titles(m, n) == [l.value + " - " + h.value]) &&
      (l.Some? && h.None? ==> Titles(m, n) == [l.value + " - ..."]) &&
      (l.None? && h.Some? ==> Titles(m, n) == ["... - " + h.value]) &&
      (l.None? && h.None? ==> Titles(m, n) == [])
  {
    var l := Value(m, n.kind.low);
    var h := Value(m, n.kind.high);
    if l.Some? && h.None? {
      assert l.value + " - " + "..." == l.value + " - ...";
    }
    if l.None? && h.Some? {
      assert "..." + " - " + h.value == "... - " + h.value;
    }
  }

  /** `hasSelectedChildren` holds iff `selectedChildren` is non-empty. */
  lemma {:induction false} HasSelectedIffSelected(m: Selections, n: Node)
    ensures HasSelectedChildren(m, n) <==> |SelectedChildren(m, n)| > 0
    decreases n, 1
  {
    if !IsSelected(m, n) {
      SelectedFromNonEmpty(m, n, 0);
    }
  }

  lemma {:induction false} SelectedFromNonEmpty(m: Selections, n: Node, i: nat)
    requires i <= |n.children|
    ensures (exists j :: i <= j < |n.children| && HasSelectedChildren(m, n.children[j]))
            <==> |SelectedFrom(m, n, i)| > 0
    decreases n, 0, |n.children| - i
  {
    if i < |n.children| {
      HasSelectedIffSelected(m, n.children[i]);
      SelectedFromNonEmpty(m, n, i + 1);
      if !HasSelectedChildren(m, n.children[i]) {
        assert (exists j :: i <= j < |n.children| && HasSelectedChildren(m, n.children[j]))
           <==> (exists j :: i + 1 <= j < |n.children| && HasSelectedChildren(m, n.children[j]));
      }
    }
  }

  /** `g` is reached from `n` without passing a selected node: every node on
      the path above `g` is unselected. */
  predicate FreePath(m: Selections, n: Node, g: Node)
    decreases n
  {
    n == g || (!IsSelected(m, n) && exists i :: 0 <= i < |n.children| && FreePath(m, n.children[i], g))
  }

  lemma {:induction false} QueryItemsFromMember(m: Selections, n: Node, i: nat, q: QueryItem)
    requires i <= |n.children|
    ensures q in QueryItemsFrom(m, n, i) <==> exists j :: i <= j < |n.children| && q in QueryItems(m, n.children[j])
    decreases |n.children| - i
  {
    if i < |n.children| {
      QueryItemsFromMember(m, n, i + 1, q);
    }
  }

  /** `queryItems(for:)` returns exactly the stored pairs of the selected nodes
      reached without passing a selected node: a pair returned belongs to such
      a node, and every such node's pair is returned. */
  lemma QueryItemsExact(m: Selections, n: Node, q: QueryItem)
    ensures q in QueryItems(m, n) <==>
            exists g :: FreePath(m, n, g) && g.name in m && q == QueryItem(g.name, Some(m[g.name]))
  {
    if q in QueryItems(m, n) {
      var g := QueryItemsSound(m, n, q);
    }
    if exists g :: FreePath(m, n, g) && g.name in m && q == QueryItem(g.name, Some(m[g.name])) {
      var g :| FreePath(m, n, g) && g.name in m && q == QueryItem(g.name, Some(m[g.name]));
      QueryItemsComplete(m, n, g);
    }
  }

  /** Each returned pair is that of a node reached without passing a selected
      node. */
  lemma {:induction false} QueryItemsSound(m: Selections, n: Node, q: QueryItem) returns (g: Node)
    requires q in QueryItems(m, n)
    ensures FreePath(m, n, g) && g.name in m && q == QueryItem(g.name, Some(m[g.name]))
    decreases n
  {
    if IsSelected(m, n) {
      g := n;
    } else {
      QueryItemsFromMember(m, n, 0, q);
      var j :| 0 <= j < |n.children| && q in QueryItems(m, n.children[j]);
      g := QueryItemsSound(m, n.children[j], q);
    }
  }

  /** The pair of each selected node reached without passing another
      selected node is returned. */
  lemma {:induction false} QueryItemsComplete(m: Selections, n: Node, g: Node)
    requires FreePath(m, n, g) && g.name in m
    ensures QueryItem(g.name, Some(m[g.name])) in QueryItems(m, n)
    decreases n
  {
    if n != g {
      var j :| 0 <= j < |n.children| && FreePath(m, n.children[j], g);
      QueryItemsComplete(m, n.children[j], g);
      QueryItemsFromMember(m, n, 0, QueryItem(g.name, Some(m[g.name])));
    }
  }
}
