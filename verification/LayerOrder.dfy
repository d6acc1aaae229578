/**
 * Crossing reduction: ordering each layer by barycentre, in place
 * (scripts/excalidraw-gen.py, `_order_layers`).
 */
module LayerOrder {
  import opened Graph
  import opened Layering

  const BARY_SWEEPS := 4

  type Rows = map<nat, seq<Node>>

  // --------------------------------------------------------------------
  // Stable sorting by a precomputed key
  // --------------------------------------------------------------------

  function KeyOf(key: map<Node, real>, n: Node): real {
    if n in key then key[n] else 0.0
  }

  function InsertByKey(x: Node, s: seq<Node>, key: map<Node, real>): (r: seq<Node>)
    ensures multiset(r) == multiset{x} + multiset(s)
  {
    if s == [] || KeyOf(key, x) <= KeyOf(key, s[0]) then [x] + s
    else
      assert s == [s[0]] + s[1..];
      [s[0]] + InsertByKey(x, s[1..], key)
  }

  function StableSort(s: seq<Node>, key: map<Node, real>): (r: seq<Node>)
    ensures multiset(r) == multiset(s)
  {
    if s == [] then []
    else
      assert s == [s[0]] + s[1..];
      InsertByKey(s[0], StableSort(s[1..], key), key)
  }

  ghost predicate SortedByKey(s: seq<Node>, key: map<Node, real>) {
    forall i, j :: 0 <= i < j < |s| ==> KeyOf(key, s[i]) <= KeyOf(key, s[j])
  }

  ghost predicate NoneBelow(s: seq<Node>, key: map<Node, real>, bound: real) {
    forall n :: n in multiset(s) ==> bound <= KeyOf(key, n)
  }

  lemma PrependSorted(x: Node, s: seq<Node>, key: map<Node, real>)
    requires SortedByKey(s, key) && NoneBelow(s, key, KeyOf(key, x))
    ensures SortedByKey([x] + s, key)
  {
    forall i | 0 <= i < |s| ensures KeyOf(key, x) <= KeyOf(key, s[i]) {
      assert s[i] in multiset(s);
    }
  }

  lemma SortedTail(s: seq<Node>, key: map<Node, real>)
    requires s != [] && SortedByKey(s, key)
    ensures SortedByKey(s[1..], key) && NoneBelow(s, key, KeyOf(key, s[0]))
  {
    forall n | n in multiset(s) ensures KeyOf(key, s[0]) <= KeyOf(key, n) {
      assert n in s;
    }
  }

  lemma {:induction false} InsertKeepsSorted(x: Node, s: seq<Node>, key: map<Node, real>)
    requires SortedByKey(s, key)
    ensures SortedByKey(InsertByKey(x, s, key), key)
  {
    if s == [] {
    } else {
      SortedTail(s, key);
      if KeyOf(key, x) <= KeyOf(key, s[0]) {
        PrependSorted(x, s, key);
      } else {
        InsertKeepsSorted(x, s[1..], key);
        assert s == [s[0]] + s[1..];
        PrependSorted(s[0], InsertByKey(x, s[1..], key), key);
      }
    }
  }

  lemma {:induction false} StableSortSorts(s: seq<Node>, key: map<Node, real>)
    ensures SortedByKey(StableSort(s, key), key)
  {
    if s == [] {
    } else {
      StableSortSorts(s[1..], key);
      InsertKeepsSorted(s[0], StableSort(s[1..], key), key);
    }
  }

  /** Sorting a sorted row changes nothing: equal keys keep their order. */
  lemma {:induction false} SortedRowIsUnchanged(s: seq<Node>, key: map<Node, real>)
    requires SortedByKey(s, key)
    ensures StableSort(s, key) == s
  {
    if s == [] {
    } else {
      SortedTail(s, key);
      SortedRowIsUnchanged(s[1..], key);
      assert s == [s[0]] + s[1..];
    }
  }

  /** The nodes of the row with key `k`, in order. */
  function WithKey(s: seq<Node>, key: map<Node, real>, k: real): seq<Node> {
    if s == [] then []
    else (if KeyOf(key, s[0]) == k then [s[0]] else []) + WithKey(s[1..], key, k)
  }

  lemma WithKeyOfCons(x: Node, s: seq<Node>, key: map<Node, real>, k: real)
    ensures WithKey([x] + s, key, k) == (if KeyOf(key, x) == k then [x] else []) + WithKey(s, key, k)
  {
    assert ([x] + s)[1..] == s;
  }

  lemma {:induction false} InsertGoesFirst(x: Node, s: seq<Node>, key: map<Node, real>, k: real)
    ensures WithKey(InsertByKey(x, s, key), key, k) == (if KeyOf(key, x) == k then [x] else []) + WithKey(s, key, k)
  {
    hide KeyOf;
    if s == [] || KeyOf(key, x) <= KeyOf(key, s[0]) {
      WithKeyOfCons(x, s, key, k);
    } else {
      var rest := InsertByKey(x, s[1..], key);
      InsertGoesFirst(x, s[1..], key, k);
      WithKeyOfCons(s[0], rest, key, k);
      assert WithKey(s, key, k) == (if KeyOf(key, s[0]) == k then [s[0]] else []) + WithKey(s[1..], key, k);
    }
  }

  /** The sort is stable: nodes with equal keys keep their relative order. */
  lemma {:induction false} StableSortKeepsTies(s: seq<Node>, key: map<Node, real>, k: real)
    ensures WithKey(StableSort(s, key), key, k) == WithKey(s, key, k)
  {
    if s == [] {
    } else {
      StableSortKeepsTies(s[1..], key, k);
      InsertGoesFirst(s[0], StableSort(s[1..], key), key, k);
    }
  }

  lemma PermutationKeepsMembers(s: seq<Node>, r: seq<Node>)
    requires multiset(s) == multiset(r)
    ensures |s| == |r| && (forall n :: n in s <==> n in r) && (Distinct(s) ==> Distinct(r))
  {
    assert |multiset(s)| == |multiset(r)|;
    forall n ensures n in s <==> n in r {
      assert n in multiset(s) <==> n in multiset(r);
    }
    if Distinct(s) {
      forall i, j | 0 <= i < j < |r| ensures r[i] != r[j] {
        if r[i] == r[j] {
          TwoCopies(r, i, j);
          var k :| 0 <= k < |s| && s[k] == r[i];
          OneCopy(s, k);
        }
      }
    }
  }

  lemma OneCopy(s: seq<Node>, k: nat)
    requires Distinct(s) && k < |s|
    ensures multiset(s)[s[k]] == 1
  {
    assert s == s[..k] + [s[k]] + s[k + 1..];
    assert s[k] !in s[..k] && s[k] !in s[k + 1..];
  }

  lemma TwoCopies(s: seq<Node>, i: nat, j: nat)
    requires i < j < |s| && s[i] == s[j]
    ensures multiset(s)[s[i]] >= 2
  {
    assert s == s[..i] + [s[i]] + s[i + 1..j] + [s[j]] + s[j + 1..];
  }

  // --------------------------------------------------------------------
  // Neighbours and barycentres
  // --------------------------------------------------------------------

  /** The heads of the non-loop edges that leave `n`, in edge order. */
  function HeadsFrom(edges: seq<Edge>, n: Node): seq<Node> {
    if edges == [] then []
    else
      var rest, e := HeadsFrom(edges[..|edges| - 1], n), edges[|edges| - 1];
      if e.src == n && e.dst != n then rest + [e.dst] else rest
  }

  /** The tails of the non-loop edges that enter `n`, in edge order. */
  function TailsInto(edges: seq<Edge>, n: Node): seq<Node> {
    if edges == [] then []
    else
      var rest, e := TailsInto(edges[..|edges| - 1], n), edges[|edges| - 1];
      if e.dst == n && e.src != n then rest + [e.src] else rest
  }

  method Neighbours(order: seq<Node>, edges: seq<Edge>) returns (succ: Successors, pred: Successors)
    requires WellFormed(order, edges)
    ensures succ.Keys == pred.Keys == NodeSet(order)
    ensures forall n :: n in order ==> succ[n] == HeadsFrom(edges, n) && pred[n] == TailsInto(edges, n)
    ensures forall n, m :: n in order && (m in succ[n] || m in pred[n]) ==> m in order
  {
    succ := map n | n in order :: [];
    pred := map n | n in order :: [];
    for i := 0 to |edges|
      invariant succ.Keys == pred.Keys == NodeSet(order)
      invariant forall n :: n in order ==> succ[n] == HeadsFrom(edges[..i], n) && pred[n] == TailsInto(edges[..i], n)
      invariant forall n, m :: n in order && (m in succ[n] || m in pred[n]) ==> m in order
    {
      var e := edges[i];
      assert e in edges;
      assert edges[..i + 1][..i] == edges[..i] && edges[..i + 1][i] == e;
      if e.src != e.dst {
        succ := succ[e.src := succ[e.src] + [e.dst]];
        pred := pred[e.dst := pred[e.dst] + [e.src]];
      }
    }
    assert edges[..|edges|] == edges;
  }

  /** The positions of those neighbours that lie in layer `want`. */
  function PositionsIn(neighbours: seq<Node>, layer: map<Node, nat>, pos: map<Node, nat>, want: nat): seq<nat> {
    if neighbours == [] then []
    else
      var m := neighbours[0];
      (if m in layer && m in pos && layer[m] == want then [pos[m]] else [])
      + PositionsIn(neighbours[1..], layer, pos, want)
  }

  function Sum(s: seq<nat>): nat {
    if s == [] then 0 else s[0] + Sum(s[1..])
  }

  function NeighboursOf(neighbours: Successors, n: Node): seq<Node> {
    if n in neighbours then neighbours[n] else []
  }

  /** Mean position of the neighbours in layer `want`; a node without any keeps its own position. */
  function Barycentre(n: Node, neighbours: Successors, layer: map<Node, nat>, pos: map<Node, nat>, want: nat): real {
    var idx := PositionsIn(NeighboursOf(neighbours, n), layer, pos, want);
    if idx != [] then Sum(idx) as real / |idx| as real
    else if n in pos then pos[n] as real else 0.0
  }

  lemma {:induction false} PositionsDependOnOneRow(neighbours: seq<Node>, layer: map<Node, nat>,
                                                   pos: map<Node, nat>, pos': map<Node, nat>, want: nat)
    requires pos.Keys == pos'.Keys == layer.Keys
    requires forall m :: m in layer && layer[m] == want ==> pos[m] == pos'[m]
    ensures PositionsIn(neighbours, layer, pos, want) == PositionsIn(neighbours, layer, pos', want)
  {
    if neighbours == [] {
    } else {
      PositionsDependOnOneRow(neighbours[1..], layer, pos, pos', want);
    }
  }

  // --------------------------------------------------------------------
  // Rows
  // --------------------------------------------------------------------

  /** Row `l` lists exactly the nodes of layer `l`, each once. */
  ghost predicate IsRow(row: seq<Node>, order: seq<Node>, layer: map<Node, nat>, l: nat)
    requires layer.Keys == NodeSet(order)
  {
    Distinct(row) && forall n :: n in row <==> n in layer && layer[n] == l
  }

  ghost predicate Arranged(rows: Rows, order: seq<Node>, layer: map<Node, nat>, maxLayer: nat)
    requires layer.Keys == NodeSet(order)
  {
    && (forall l: nat :: l in rows <==> l <= maxLayer)
    && (forall n :: n in layer ==> layer[n] <= maxLayer)
    && (forall l: nat :: l <= maxLayer ==> IsRow(rows[l], order, layer, l))
  }

  ghost predicate Positioned(rows: Rows, layer: map<Node, nat>, pos: map<Node, nat>) {
    && pos.Keys == layer.Keys
    && forall l, i :: l in rows && 0 <= i < |rows[l]| ==> rows[l][i] in pos && pos[rows[l][i]] == i
  }

  /** If both nodes have neighbours in layer `want`, `a` does not have the larger barycentre. */
  ghost predicate InBalance(a: Node, b: Node, neighbours: Successors, layer: map<Node, nat>,
                            pos: map<Node, nat>, want: nat)
  {
    PositionsIn(NeighboursOf(neighbours, a), layer, pos, want) != []
    && PositionsIn(NeighboursOf(neighbours, b), layer, pos, want) != []
    ==> Barycentre(a, neighbours, layer, pos, want) <= Barycentre(b, neighbours, layer, pos, want)
  }

  /** The nodes of the row that have neighbours in layer `want` stand in order of their barycentres. */
  ghost predicate RowBalanced(row: seq<Node>, neighbours: Successors, layer: map<Node, nat>,
                              pos: map<Node, nat>, want: nat)
  {
    forall i, j :: 0 <= i < j < |row| ==> InBalance(row[i], row[j], neighbours, layer, pos, want)
  }

  lemma BalanceDependsOnOneRow(a: Node, b: Node, neighbours: Successors, layer: map<Node, nat>,
                               pos: map<Node, nat>, pos': map<Node, nat>, want: nat)
    requires pos.Keys == pos'.Keys == layer.Keys
    requires forall n :: n in layer && layer[n] == want ==> pos[n] == pos'[n]
    ensures InBalance(a, b, neighbours, layer, pos, want) == InBalance(a, b, neighbours, layer, pos', want)
  {
    PositionsDependOnOneRow(NeighboursOf(neighbours, a), layer, pos, pos', want);
    PositionsDependOnOneRow(NeighboursOf(neighbours, b), layer, pos, pos', want);
  }

  function Keys(row: seq<Node>, neighbours: Successors, layer: map<Node, nat>,
                pos: map<Node, nat>, want: nat): (key: map<Node, real>)
  {
    map n | n in row :: Barycentre(n, neighbours, layer, pos, want)
  }

  /** Sorts one row by barycentre over layer `want` and refreshes the positions of its nodes. */
  method SortRow(l: nat, want: nat, rows0: Rows, pos0: map<Node, nat>, neighbours: Successors,
                 order: seq<Node>, layer: map<Node, nat>, ghost maxLayer: nat)
    returns (rows: Rows, pos: map<Node, nat>)
    requires layer.Keys == NodeSet(order) && l <= maxLayer && l != want
    requires Arranged(rows0, order, layer, maxLayer) && Positioned(rows0, layer, pos0)
    ensures Arranged(rows, order, layer, maxLayer) && Positioned(rows, layer, pos)
    ensures rows == rows0[l := StableSort(rows0[l], Keys(rows0[l], neighbours, layer, pos0, want))]
    ensures forall n :: n in layer && layer[n] != l ==> pos[n] == pos0[n]
    ensures RowBalanced(rows[l], neighbours, layer, pos, want)
    ensures forall k :: WithKey(rows[l], Keys(rows0[l], neighbours, layer, pos0, want), k)
                     == WithKey(rows0[l], Keys(rows0[l], neighbours, layer, pos0, want), k)
  {
    var key := Keys(rows0[l], neighbours, layer, pos0, want);
    var row := StableSort(rows0[l], key);
    ReplacedRowStaysArranged(rows0, l, row, order, layer, maxLayer);
    rows := rows0[l := row];
    pos := Renumber(row, pos0);
    RenumberedRowsArePositioned(rows0, rows, l, order, layer, maxLayer, pos0, pos);
    SortedRowIsBalanced(rows0[l], neighbours, layer, pos0, pos, want);
    forall k ensures WithKey(row, key, k) == WithKey(rows0[l], key, k) {
      StableSortKeepsTies(rows0[l], key, k);
    }
  }

  lemma SortedRowIsBalanced(row0: seq<Node>, neighbours: Successors, layer: map<Node, nat>,
                            pos0: map<Node, nat>, pos: map<Node, nat>, want: nat)
    requires pos0.Keys == pos.Keys == layer.Keys
    requires forall n :: n in layer && layer[n] == want ==> pos[n] == pos0[n]
    ensures RowBalanced(StableSort(row0, Keys(row0, neighbours, layer, pos0, want)), neighbours, layer, pos, want)
  {
    var key := Keys(row0, neighbours, layer, pos0, want);
    var row := StableSort(row0, key);
    PermutationKeepsMembers(row0, row);
    StableSortSorts(row0, key);
    forall i, j | 0 <= i < j < |row| ensures InBalance(row[i], row[j], neighbours, layer, pos, want) {
      var a, b := row[i], row[j];
      assert a in row && b in row;
      BalanceDependsOnOneRow(a, b, neighbours, layer, pos0, pos, want);
      assert KeyOf(key, a) <= KeyOf(key, b);
      assert key[a] == Barycentre(a, neighbours, layer, pos0, want);
      assert key[b] == Barycentre(b, neighbours, layer, pos0, want);
    }
  }

  lemma ReplacedRowStaysArranged(rows0: Rows, l: nat, row: seq<Node>, order: seq<Node>,
                                 layer: map<Node, nat>, maxLayer: nat)
    requires layer.Keys == NodeSet(order) && Arranged(rows0, order, layer, maxLayer) && l <= maxLayer
    requires multiset(row) == multiset(rows0[l])
    ensures Arranged(rows0[l := row], order, layer, maxLayer)
    ensures Distinct(row) && forall n :: n in row <==> n in layer && layer[n] == l
  {
    assert IsRow(rows0[l], order, layer, l);
    PermutationKeepsMembers(rows0[l], row);
  }

  lemma RenumberedRowsArePositioned(rows0: Rows, rows: Rows, l: nat, order: seq<Node>, layer: map<Node, nat>,
                                    maxLayer: nat, pos0: map<Node, nat>, pos: map<Node, nat>)
    requires layer.Keys == NodeSet(order) && l <= maxLayer
    requires Arranged(rows0, order, layer, maxLayer) && Arranged(rows, order, layer, maxLayer)
    requires Positioned(rows0, layer, pos0) && pos.Keys == pos0.Keys
    requires forall m :: m in rows && m != l ==> rows[m] == rows0[m]
    requires forall i :: 0 <= i < |rows[l]| ==> rows[l][i] in pos && pos[rows[l][i]] == i
    requires forall n :: n in pos0 && n !in rows[l] ==> pos[n] == pos0[n]
    ensures Positioned(rows, layer, pos)
  {
    forall m, i | m in rows && 0 <= i < |rows[m]| ensures rows[m][i] in pos && pos[rows[m][i]] == i {
      if m != l {
        var n := rows[m][i];
        assert n in rows[m] && layer[n] == m;
        assert n !in rows[l];
        assert rows0[m][i] == n;
      }
    }
  }

  /** Writes each node's index in `row` into the position table. */
  method Renumber(row: seq<Node>, pos0: map<Node, nat>) returns (pos: map<Node, nat>)
    requires Distinct(row) && forall n :: n in row ==> n in pos0
    ensures pos.Keys == pos0.Keys
    ensures forall i :: 0 <= i < |row| ==> pos[row[i]] == i
    ensures forall n :: n in pos0 && n !in row ==> pos[n] == pos0[n]
  {
    pos := pos0;
    for i := 0 to |row|
      invariant pos.Keys == pos0.Keys
      invariant forall j :: 0 <= j < i ==> pos[row[j]] == j
      invariant forall n :: n in pos0 && n !in row ==> pos[n] == pos0[n]
    {
      pos := pos[row[i] := i];
    }
  }

  // --------------------------------------------------------------------
  // Initial grouping and the sweeps
  // --------------------------------------------------------------------

  /** The nodes of layer `l` in declaration order. */
  function InLayer(order: seq<Node>, layer: map<Node, nat>, l: nat): (row: seq<Node>)
    requires forall n :: n in order ==> n in layer
    ensures forall n :: n in row <==> n in order && layer[n] == l
    ensures |row| <= |order|
  {
    if order == [] then []
    else
      var rest, n := InLayer(order[..|order| - 1], layer, l), order[|order| - 1];
      if layer[n] == l then rest + [n] else rest
  }

  lemma {:induction false} InLayerDistinct(order: seq<Node>, layer: map<Node, nat>, l: nat)
    requires Distinct(order) && forall n :: n in order ==> n in layer
    ensures Distinct(InLayer(order, layer, l))
  {
    if order == [] {
    } else {
      InLayerDistinct(order[..|order| - 1], layer, l);
      assert order[|order| - 1] !in order[..|order| - 1];
    }
  }

  function DeepestLayer(order: seq<Node>, layer: map<Node, nat>): (d: nat)
    requires forall n :: n in order ==> n in layer
    ensures forall n :: n in order ==> layer[n] <= d
    ensures order != [] ==> exists n :: n in order && layer[n] == d
  {
    if order == [] then 0
    else
      var rest, n := DeepestLayer(order[..|order| - 1], layer), order[|order| - 1];
      assert forall m :: m in order ==> m in order[..|order| - 1] || m == n;
      if |order| == 1 || layer[n] >= rest then layer[n] else rest
  }

  /** Appends each node to the row of its layer, creating rows as they are first needed. */
  method GroupRows(order: seq<Node>, layer: map<Node, nat>) returns (rows: Rows)
    requires forall n :: n in order ==> n in layer
    ensures forall l: nat :: l in rows <==> InLayer(order, layer, l) != []
    ensures forall l: nat :: l in rows ==> rows[l] == InLayer(order, layer, l)
  {
    rows := map[];
    for i := 0 to |order|
      invariant forall l: nat :: l in rows <==> InLayer(order[..i], layer, l) != []
      invariant forall l: nat :: l in rows ==> rows[l] == InLayer(order[..i], layer, l)
    {
      var n := order[i];
      assert order[..i + 1][..i] == order[..i] && order[..i + 1][i] == n;
      rows := rows[layer[n] := (if layer[n] in rows then rows[layer[n]] else []) + [n]];
    }
    assert order[..|order|] == order;
  }

  /** Gives every layer up to the deepest a row, so that the keys are contiguous. */
  method FillGaps(order: seq<Node>, layer: map<Node, nat>, rows0: Rows) returns (rows: Rows, maxLayer: nat)
    requires Distinct(order) && layer.Keys == NodeSet(order)
    requires forall l: nat :: l in rows0 <==> InLayer(order, layer, l) != []
    requires forall l: nat :: l in rows0 ==> rows0[l] == InLayer(order, layer, l)
    ensures maxLayer == DeepestLayer(order, layer) && Arranged(rows, order, layer, maxLayer)
    ensures forall l: nat :: l <= maxLayer ==> rows[l] == InLayer(order, layer, l)
  {
    rows, maxLayer := rows0, DeepestLayer(order, layer);
    for l := 0 to maxLayer + 1
      invariant forall m: nat :: m in rows <==> m < l || InLayer(order, layer, m) != []
      invariant forall m :: m in rows ==> rows[m] == InLayer(order, layer, m)
    {
      if l !in rows {
        rows := rows[l := []];
      }
    }
    forall l: nat ensures l in rows <==> l <= maxLayer {
      ghost var row := InLayer(order, layer, l);
      assert row != [] ==> row[0] in row;
    }
    forall l: nat | l <= maxLayer ensures IsRow(rows[l], order, layer, l) {
      InLayerDistinct(order, layer, l);
    }
  }

  method NumberRows(rows: Rows, order: seq<Node>, layer: map<Node, nat>, maxLayer: nat) returns (pos: map<Node, nat>)
    requires layer.Keys == NodeSet(order) && Arranged(rows, order, layer, maxLayer)
    ensures Positioned(rows, layer, pos)
  {
    pos := map n | n in layer :: 0;
    for l := 0 to maxLayer + 1
      invariant pos.Keys == layer.Keys
      invariant forall m: nat, i :: m < l && 0 <= i < |rows[m]| ==> rows[m][i] in pos && pos[rows[m][i]] == i
    {
      assert IsRow(rows[l], order, layer, l);
      pos := Renumber(rows[l], pos);
      forall m: nat, i | m < l && 0 <= i < |rows[m]| ensures rows[m][i] in pos && pos[rows[m][i]] == i {
        assert IsRow(rows[m], order, layer, m);
        assert rows[m][i] in rows[m];
      }
    }
  }

  /** Rows `from` to the last but one are balanced against the row below them. */
  ghost predicate BalancedAbove(rows: Rows, succ: Successors, layer: map<Node, nat>,
                                pos: map<Node, nat>, from: nat, maxLayer: nat)
  {
    forall l: nat :: from <= l < maxLayer ==> l in rows && RowBalanced(rows[l], succ, layer, pos, l + 1)
  }

  /** Rows 1 to the last before `upTo` are balanced against the row above them. */
  ghost predicate BalancedBelow(rows: Rows, pred: Successors, layer: map<Node, nat>, pos: map<Node, nat>, upTo: nat) {
    forall l: nat :: 0 < l < upTo ==> l in rows && RowBalanced(rows[l], pred, layer, pos, l - 1)
  }

  // --------------------------------------------------------------------
  // What a sweep leaves, said of the edges
  // --------------------------------------------------------------------

  /** Where a node stands in a row. */
  function IndexIn(row: seq<Node>, n: Node): nat {
    if row == [] || row[0] == n then 0 else 1 + IndexIn(row[1..], n)
  }

  /** The number of edges from `n` into the row. */
  function HeadCount(edges: seq<Edge>, n: Node, row: seq<Node>): nat {
    if edges == [] then 0
    else
      var e := edges[|edges| - 1];
      HeadCount(edges[..|edges| - 1], n, row) + if e.src == n && e.dst in row then 1 else 0
  }

  /** The sum of the indices at which those edges arrive. */
  function HeadSum(edges: seq<Edge>, n: Node, row: seq<Node>): nat {
    if edges == [] then 0
    else
      var e := edges[|edges| - 1];
      HeadSum(edges[..|edges| - 1], n, row) + if e.src == n && e.dst in row then IndexIn(row, e.dst) else 0
  }

  /** Every edge turned round. */
  function Turned(edges: seq<Edge>): (r: seq<Edge>)
    ensures |r| == |edges| && forall i :: 0 <= i < |r| ==> r[i] == Edge(edges[i].dst, edges[i].src)
  {
    seq(|edges|, i requires 0 <= i < |edges| => Edge(edges[i].dst, edges[i].src))
  }

  /**
   * If two nodes of a row both have edges into the other row, the one that stands first has no larger
   * mean index there; means are compared by multiplying across.
   */
  ghost predicate RowFollows(row: seq<Node>, edges: seq<Edge>, other: seq<Node>) {
    forall i, j :: 0 <= i < j < |row| ==> Follows(row[i], row[j], edges, other)
  }

  ghost predicate Follows(a: Node, b: Node, edges: seq<Edge>, other: seq<Node>) {
    HeadCount(edges, a, other) > 0 && HeadCount(edges, b, other) > 0 ==>
      HeadSum(edges, a, other) * HeadCount(edges, b, other) <= HeadSum(edges, b, other) * HeadCount(edges, a, other)
  }

  /** Every row but the last follows the row below it. */
  ghost predicate FollowsBelow(rows: Rows, edges: seq<Edge>, maxLayer: nat) {
    forall l: nat, below: nat :: below == l + 1 && below <= maxLayer ==>
      l in rows && below in rows && RowFollows(rows[l], edges, rows[below])
  }

  /** Every row but the first follows the row above it. */
  ghost predicate FollowsAbove(rows: Rows, edges: seq<Edge>, maxLayer: nat) {
    forall l: nat, above: nat :: above + 1 == l && l <= maxLayer ==>
      l in rows && above in rows && RowFollows(rows[l], Turned(edges), rows[above])
  }

  lemma {:induction false} IndexInDistinct(row: seq<Node>, i: nat)
    requires Distinct(row) && i < |row|
    ensures IndexIn(row, row[i]) == i
  {
    if i == 0 {
    } else {
      IndexInDistinct(row[1..], i - 1);
    }
  }

  lemma {:induction false} TailsAreTurnedHeads(edges: seq<Edge>, n: Node)
    ensures TailsInto(edges, n) == HeadsFrom(Turned(edges), n)
  {
    if edges == [] {
    } else {
      TailsAreTurnedHeads(edges[..|edges| - 1], n);
      assert Turned(edges)[..|edges| - 1] == Turned(edges[..|edges| - 1]);
    }
  }

  lemma {:induction false} PositionsGrow(ms: seq<Node>, m: Node, layer: map<Node, nat>, pos: map<Node, nat>, want: nat)
    ensures PositionsIn(ms + [m], layer, pos, want)
         == PositionsIn(ms, layer, pos, want) + (if m in layer && m in pos && layer[m] == want then [pos[m]] else [])
  {
    if ms == [] {
      assert ms + [m] == [m];
    } else {
      assert (ms + [m])[1..] == ms[1..] + [m];
      PositionsGrow(ms[1..], m, layer, pos, want);
    }
  }

  lemma {:induction false} SumGrows(s: seq<nat>, k: nat)
    ensures Sum(s + [k]) == Sum(s) + k
  {
    if s == [] {
      assert s + [k] == [k];
    } else {
      assert (s + [k])[1..] == s[1..] + [k];
      SumGrows(s[1..], k);
    }
  }

  /** The neighbour positions that a barycentre averages are the indices at which the edges arrive. */
  lemma {:induction false} PositionsAreIndices(
    edges: seq<Edge>, n: Node, row: seq<Node>, layer: map<Node, nat>, pos: map<Node, nat>, want: nat)
    requires Distinct(row) && n !in row && forall m :: m in row <==> m in layer && layer[m] == want
    requires pos.Keys == layer.Keys && forall i :: 0 <= i < |row| ==> pos[row[i]] == i
    ensures var idx := PositionsIn(HeadsFrom(edges, n), layer, pos, want);
            |idx| == HeadCount(edges, n, row) && Sum(idx) == HeadSum(edges, n, row)
  {
    hide PositionsIn, Sum, Distinct, IndexIn;
    if edges == [] {
      NothingToSum(layer, pos, want);
    } else {
      var before, e := edges[..|edges| - 1], edges[|edges| - 1];
      PositionsAreIndices(before, n, row, layer, pos, want);
      if e.src == n && e.dst != n {
        PositionsGrow(HeadsFrom(before, n), e.dst, layer, pos, want);
        if e.dst in row {
          var i :| 0 <= i < |row| && row[i] == e.dst;
          IndexInDistinct(row, i);
          SumGrows(PositionsIn(HeadsFrom(before, n), layer, pos, want), i);
        } else {
          var idx := PositionsIn(HeadsFrom(before, n), layer, pos, want);
          assert idx + [] == idx;
        }
      }
    }
  }

  lemma NothingToSum(layer: map<Node, nat>, pos: map<Node, nat>, want: nat)
    ensures PositionsIn([], layer, pos, want) == [] && Sum([]) == 0
  {
  }

  lemma MeansMultiplyAcross(sumA: nat, countA: nat, sumB: nat, countB: nat)
    requires countA > 0 && countB > 0 && sumA as real / countA as real <= sumB as real / countB as real
    ensures sumA * countB <= sumB * countA
  {
    var a, b, c, d := sumA as real, countA as real, sumB as real, countB as real;
    assert a == (a / b) * b && c == (c / d) * d;
    MultiplyBoth(a / b, c / d, b * d);
    assert a * d == (a / b) * (b * d);
    assert c * b == (c / d) * (b * d);
    assert (sumA * countB) as real == a * d && (sumB * countA) as real == c * b;
  }

  lemma MultiplyBoth(x: real, y: real, k: real)
    requires x <= y && k >= 0.0
    ensures x * k <= y * k
  {
  }

  /** A row that is balanced by barycentres follows the other row by the edges. */
  lemma BalancedRowFollows(
    rows: Rows, order: seq<Node>, edges: seq<Edge>, neighbours: Successors, layer: map<Node, nat>, maxLayer: nat,
    pos: map<Node, nat>, l: nat, want: nat)
    requires layer.Keys == NodeSet(order) && Arranged(rows, order, layer, maxLayer) && Positioned(rows, layer, pos)
    requires l <= maxLayer && want <= maxLayer && l != want
    requires forall n :: n in order ==> n in neighbours && neighbours[n] == HeadsFrom(edges, n)
    requires RowBalanced(rows[l], neighbours, layer, pos, want)
    ensures RowFollows(rows[l], edges, rows[want])
  {
    hide HeadsFrom, PositionsIn, Sum, HeadCount, HeadSum, Distinct;
    var row, other := rows[l], rows[want];
    assert IsRow(row, order, layer, l) && IsRow(other, order, layer, want);
    forall i, j | 0 <= i < j < |row| ensures Follows(row[i], row[j], edges, other) {
      var a, b := row[i], row[j];
      assert a in row && b in row;
      assert InBalance(a, b, neighbours, layer, pos, want);
      PositionsAreIndices(edges, a, other, layer, pos, want);
      PositionsAreIndices(edges, b, other, layer, pos, want);
      if HeadCount(edges, a, other) > 0 && HeadCount(edges, b, other) > 0 {
        MeansMultiplyAcross(HeadSum(edges, a, other), HeadCount(edges, a, other),
                            HeadSum(edges, b, other), HeadCount(edges, b, other));
      }
    }
  }

  lemma BalancedAboveFollows(
    rows: Rows, order: seq<Node>, edges: seq<Edge>, succ: Successors, layer: map<Node, nat>, maxLayer: nat,
    pos: map<Node, nat>)
    requires layer.Keys == NodeSet(order) && Arranged(rows, order, layer, maxLayer) && Positioned(rows, layer, pos)
    requires forall n :: n in order ==> n in succ && succ[n] == HeadsFrom(edges, n)
    requires BalancedAbove(rows, succ, layer, pos, 0, maxLayer)
    ensures FollowsBelow(rows, edges, maxLayer)
  {
    hide RowBalanced, RowFollows, IsRow;
    forall l: nat | l < maxLayer ensures RowFollows(rows[l], edges, rows[l + 1]) {
      BalancedRowFollows(rows, order, edges, succ, layer, maxLayer, pos, l, l + 1);
    }
  }

  lemma BalancedBelowFollows(
    rows: Rows, order: seq<Node>, edges: seq<Edge>, pred: Successors, layer: map<Node, nat>, maxLayer: nat,
    pos: map<Node, nat>)
    requires layer.Keys == NodeSet(order) && Arranged(rows, order, layer, maxLayer) && Positioned(rows, layer, pos)
    requires forall n :: n in order ==> n in pred && pred[n] == TailsInto(edges, n)
    requires BalancedBelow(rows, pred, layer, pos, maxLayer + 1)
    ensures FollowsAbove(rows, edges, maxLayer)
  {
    hide RowBalanced, RowFollows, IsRow, TailsInto, HeadsFrom, Turned;
    forall n | n in order ensures n in pred && pred[n] == HeadsFrom(Turned(edges), n) {
      TailsAreTurnedHeads(edges, n);
    }
    forall l: nat | 0 < l <= maxLayer ensures RowFollows(rows[l], Turned(edges), rows[l - 1]) {
      BalancedRowFollows(rows, order, Turned(edges), pred, layer, maxLayer, pos, l, l - 1);
    }
  }

  /**
   * Four sweeps, each down the layers ordering by predecessors and then up ordering by successors.
   * Every row stays a permutation of its layer. In the result each row follows the row below it. The last
   * row is as the last down sweep left it, `down`, in which each row follows the row above it.
   */
  method OrderLayers(order: seq<Node>, edges: seq<Edge>, layer: map<Node, nat>)
    returns (rows: Rows, maxLayer: nat, ghost down: Rows)
    requires WellFormed(order, edges) && layer.Keys == NodeSet(order)
    ensures maxLayer == DeepestLayer(order, layer)
    ensures Arranged(rows, order, layer, maxLayer) && FollowsBelow(rows, edges, maxLayer)
    ensures Arranged(down, order, layer, maxLayer) && FollowsAbove(down, edges, maxLayer)
    ensures rows[maxLayer] == down[maxLayer]
  {
    hide RowBalanced, RowFollows, IsRow;
    var succ, pred := Neighbours(order, edges);
    rows := GroupRows(order, layer);
    rows, maxLayer := FillGaps(order, layer, rows);
    var pos := NumberRows(rows, order, layer, maxLayer);
    down := rows;
    for sweep := 0 to BARY_SWEEPS
      invariant Arranged(rows, order, layer, maxLayer) && Positioned(rows, layer, pos)
      invariant Arranged(down, order, layer, maxLayer) && rows[maxLayer] == down[maxLayer]
      invariant sweep > 0 ==> FollowsBelow(rows, edges, maxLayer) && FollowsAbove(down, edges, maxLayer)
    {
      rows, pos := SweepDown(rows, pos, pred, order, layer, maxLayer);
      BalancedBelowFollows(rows, order, edges, pred, layer, maxLayer, pos);
      down := rows;
      rows, pos := SweepUp(rows, pos, succ, order, layer, maxLayer);
      BalancedAboveFollows(rows, order, edges, succ, layer, maxLayer, pos);
    }
  }

  /** Orders every row but the first by the rows above it, from the top. */
  method SweepDown(rows0: Rows, pos0: map<Node, nat>, pred: Successors, order: seq<Node>,
                   layer: map<Node, nat>, maxLayer: nat)
    returns (rows: Rows, pos: map<Node, nat>)
    requires layer.Keys == NodeSet(order)
    requires Arranged(rows0, order, layer, maxLayer) && Positioned(rows0, layer, pos0)
    ensures Arranged(rows, order, layer, maxLayer) && Positioned(rows, layer, pos)
    ensures BalancedBelow(rows, pred, layer, pos, maxLayer + 1)
  {
    hide RowBalanced, IsRow, StableSort, Keys, WithKey;
    rows, pos := rows0, pos0;
    for l := 1 to maxLayer + 1
      invariant Arranged(rows, order, layer, maxLayer) && Positioned(rows, layer, pos)
      invariant BalancedBelow(rows, pred, layer, pos, l)
    {
      ghost var rowsWas, posWas := rows, pos;
      rows, pos := SortRow(l, l - 1, rows, pos, pred, order, layer, maxLayer);
      forall m: nat | 0 < m < l ensures RowBalanced(rows[m], pred, layer, pos, m - 1) {
        RowBalanceDependsOnOneRow(rowsWas[m], pred, layer, posWas, pos, m - 1);
      }
    }
  }

  /** Orders every row but the last by the rows below it, from the bottom. */
  method SweepUp(rows0: Rows, pos0: map<Node, nat>, succ: Successors, order: seq<Node>,
                 layer: map<Node, nat>, maxLayer: nat)
    returns (rows: Rows, pos: map<Node, nat>)
    requires layer.Keys == NodeSet(order)
    requires Arranged(rows0, order, layer, maxLayer) && Positioned(rows0, layer, pos0)
    ensures Arranged(rows, order, layer, maxLayer) && Positioned(rows, layer, pos)
    ensures BalancedAbove(rows, succ, layer, pos, 0, maxLayer) && rows[maxLayer] == rows0[maxLayer]
  {
    hide RowBalanced, IsRow, StableSort, Keys, WithKey;
    rows, pos := rows0, pos0;
    for l := maxLayer downto 0
      invariant Arranged(rows, order, layer, maxLayer) && Positioned(rows, layer, pos)
      invariant BalancedAbove(rows, succ, layer, pos, l, maxLayer) && rows[maxLayer] == rows0[maxLayer]
    {
      ghost var rowsWas, posWas := rows, pos;
      rows, pos := SortRow(l, l + 1, rows, pos, succ, order, layer, maxLayer);
      forall m: nat | l < m < maxLayer ensures RowBalanced(rows[m], succ, layer, pos, m + 1) {
        RowBalanceDependsOnOneRow(rowsWas[m], succ, layer, posWas, pos, m + 1);
      }
    }
  }

  /** Whether a row is balanced depends only on the positions in the row it is balanced against. */
  lemma RowBalanceDependsOnOneRow(row: seq<Node>, neighbours: Successors, layer: map<Node, nat>,
                                  pos: map<Node, nat>, pos': map<Node, nat>, want: nat)
    requires pos.Keys == pos'.Keys == layer.Keys
    requires forall n :: n in layer && layer[n] == want ==> pos[n] == pos'[n]
    requires RowBalanced(row, neighbours, layer, pos, want)
    ensures RowBalanced(row, neighbours, layer, pos', want)
  {
    hide InBalance;
    forall i, j | 0 <= i < j < |row| ensures InBalance(row[i], row[j], neighbours, layer, pos', want) {
      BalanceDependsOnOneRow(row[i], row[j], neighbours, layer, pos, pos', want);
    }
  }
}
