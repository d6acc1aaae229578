/**
 * Coordinates: rows are stacked along the flow axis, centred in their bands and about a common
 * axis, then shifted to the margin and rounded (scripts/excalidraw-gen.py, `_measure`, `layout`).
 * The flow axis is y and the cross axis is x, or the other way round for "LR" diagrams.
 */
module Layout {
  import opened Graph
  import opened Layering
  import opened LayerOrder

  const H_GAP := 60
  const V_GAP := 90
  const MARGIN := 60
  const MIN_W := 140
  const MIN_H := 64
  const PAD_X := 26
  const PAD_Y := 20
  const CHAR_W := 0.60
  const LINE_H := 1.25
  const FONT_SIZE := 20

  // --------------------------------------------------------------------
  // Measuring labels
  // --------------------------------------------------------------------

  datatype Dim = Dim(w: nat, h: nat)

  /** The pieces of `text` between newlines. */
  function Lines(text: string): (r: seq<string>)
    ensures |r| >= 1
  {
    if text == "" then [""]
    else
      var rest := Lines(text[1..]);
      if text[0] == '\n' then [""] + rest else [[text[0]] + rest[0]] + rest[1..]
  }

  function MaxLength(lines: seq<string>): (m: nat)
    ensures forall i :: 0 <= i < |lines| ==> |lines[i]| <= m
    ensures lines != [] ==> exists i :: 0 <= i < |lines| && |lines[i]| == m
  {
    if lines == [] then 0
    else
      var rest := MaxLength(lines[1..]);
      assert forall i :: 1 <= i < |lines| ==> lines[i] == lines[1..][i - 1];
      if |lines| == 1 || |lines[0]| >= rest then |lines[0]|
      else
        var i :| 0 <= i < |lines[1..]| && |lines[1..][i]| == rest;
        assert |lines[i + 1]| == rest;
        rest
  }

  function TextWidth(text: string, fontSize: nat): real {
    MaxLength(Lines(text)) as real * fontSize as real * CHAR_W
  }

  function TextHeight(text: string, fontSize: nat): real {
    |Lines(text)| as real * fontSize as real * LINE_H
  }

  function Ceil(x: real): (c: int)
    ensures c as real - 1.0 < x <= c as real
  {
    -((-x).Floor)
  }

  function Max(a: int, b: int): int {
    if a >= b then a else b
  }

  function BoxFor(caption: string): (d: Dim) {
    Dim(Max(MIN_W, Ceil(TextWidth(caption, FONT_SIZE) + (2 * PAD_X) as real)),
        Max(MIN_H, Ceil(TextHeight(caption, FONT_SIZE) + (2 * PAD_Y) as real)))
  }

  /** Every line of the caption fits its box with the padding on both sides, and the box is no larger
      than that except where the minimum size makes it so. */
  lemma LabelFitsItsBox(caption: string, i: nat)
    requires i < |Lines(caption)|
    ensures var d := BoxFor(caption);
      && |Lines(caption)[i]| as real * 12.0 + 52.0 <= d.w as real
      && |Lines(caption)| as real * 25.0 + 40.0 <= d.h as real
      && (d.w > MIN_W ==> exists k :: 0 <= k < |Lines(caption)| && d.w as real - 1.0 < |Lines(caption)[k]| as real * 12.0 + 52.0)
      && (d.h > MIN_H ==> d.h as real - 1.0 < |Lines(caption)| as real * 25.0 + 40.0)
  {
    var m := MaxLength(Lines(caption));
    assert TextWidth(caption, FONT_SIZE) == m as real * 12.0;
    assert TextHeight(caption, FONT_SIZE) == |Lines(caption)| as real * 25.0;
    var k :| 0 <= k < |Lines(caption)| && |Lines(caption)[k]| == m;
  }

  // --------------------------------------------------------------------
  // Rounding
  // --------------------------------------------------------------------

  /** Round half to even. */
  function Round(x: real): (r: int)
    ensures -0.5 <= r as real - x <= 0.5
    ensures x == x.Floor as real ==> r as real == x
  {
    var f := x.Floor;
    var d := x - f as real;
    if d < 0.5 then f
    else if d > 0.5 then f + 1
    else if f % 2 == 0 then f else f + 1
  }

  lemma RoundMonotone(x: real, y: real)
    requires x <= y
    ensures Round(x) <= Round(y)
  {
    assert x.Floor <= y.Floor;
    if x.Floor == y.Floor {
    } else {
      assert x.Floor + 1 <= y.Floor;
    }
  }

  // --------------------------------------------------------------------
  // Ideal placement in (flow, cross) space
  // --------------------------------------------------------------------

  function FlowExt(n: Node, dims: map<Node, Dim>, tb: bool): nat {
    if n !in dims then 0 else if tb then dims[n].h else dims[n].w
  }

  function CrossExt(n: Node, dims: map<Node, Dim>, tb: bool): nat {
    if n !in dims then 0 else if tb then dims[n].w else dims[n].h
  }

  /** Extent of the widest node of a row along the flow axis; 0 for an empty row. */
  function Band(row: seq<Node>, dims: map<Node, Dim>, tb: bool): (b: nat)
    ensures forall n :: n in row ==> FlowExt(n, dims, tb) <= b
    ensures row != [] ==> exists n :: n in row && FlowExt(n, dims, tb) == b
  {
    if row == [] then 0
    else
      var rest, n := Band(row[..|row| - 1], dims, tb), row[|row| - 1];
      assert forall m :: m in row ==> m in row[..|row| - 1] || m == n;
      if |row| == 1 then FlowExt(n, dims, tb) else Max(rest, FlowExt(n, dims, tb))
  }

  /** Sum of the cross extents of the first `i` nodes of a row. */
  function CrossSum(row: seq<Node>, dims: map<Node, Dim>, tb: bool, i: nat): nat
    requires i <= |row|
  {
    if i == 0 then 0 else CrossSum(row, dims, tb, i - 1) + CrossExt(row[i - 1], dims, tb)
  }

  /** Width of a row: its nodes and one gap between each two of them. */
  function RowWidth(row: seq<Node>, dims: map<Node, Dim>, tb: bool): nat {
    CrossSum(row, dims, tb, |row|) + H_GAP * Max(0, |row| - 1)
  }

  /** The row's i-th node starts after i nodes and i gaps, counted from minus half the row's width. */
  function CrossStart(row: seq<Node>, dims: map<Node, Dim>, tb: bool, i: nat): real
    requires i <= |row|
  {
    -(RowWidth(row, dims, tb) as real / 2.0) + (CrossSum(row, dims, tb, i) + H_GAP * i) as real
  }

  /** A layer without a row counts as empty. */
  function Row(rows: Rows, l: nat): seq<Node> {
    if l in rows then rows[l] else []
  }

  /** Rows are stacked with a gap between bands. */
  function FlowStart(rows: Rows, dims: map<Node, Dim>, tb: bool, l: nat): nat {
    if l == 0 then 0
    else FlowStart(rows, dims, tb, l - 1) + Band(Row(rows, l - 1), dims, tb) + V_GAP
  }

  datatype Spot = Spot(flow: real, cross: real)

  /** Where the i-th node of a row belongs when the row starts at `start`: centred in the row's band. */
  function SpotInRow(row: seq<Node>, start: int, dims: map<Node, Dim>, tb: bool, i: nat): Spot
    requires i < |row|
  {
    Spot(start as real + (Band(row, dims, tb) - FlowExt(row[i], dims, tb)) as real / 2.0, CrossStart(row, dims, tb, i))
  }

  function SpotOf(rows: Rows, dims: map<Node, Dim>, tb: bool, l: nat, i: nat): Spot
    requires i < |Row(rows, l)|
  {
    SpotInRow(Row(rows, l), FlowStart(rows, dims, tb, l), dims, tb, i)
  }

  ghost predicate AtSpotsBelow(spots: map<Node, Spot>, rows: Rows, dims: map<Node, Dim>, tb: bool, count: nat) {
    forall l: nat, i: nat {:trigger Row(rows, l)[i] in spots} {:trigger spots[Row(rows, l)[i]]} :: l < count && i < |Row(rows, l)| ==>
      Row(rows, l)[i] in spots && spots[Row(rows, l)[i]] == SpotOf(rows, dims, tb, l, i)
  }

  ghost predicate AtSpots(spots: map<Node, Spot>, rows: Rows, dims: map<Node, Dim>, tb: bool) {
    forall l: nat, i: nat {:trigger Row(rows, l)[i] in spots} {:trigger spots[Row(rows, l)[i]]} :: i < |Row(rows, l)| ==>
      Row(rows, l)[i] in spots && spots[Row(rows, l)[i]] == SpotOf(rows, dims, tb, l, i)
  }

  lemma {:induction false} FlowStartGap(rows: Rows, dims: map<Node, Dim>, tb: bool, l: nat, k: nat)
    requires l < k
    ensures FlowStart(rows, dims, tb, k) >= FlowStart(rows, dims, tb, l) + Band(Row(rows, l), dims, tb) + V_GAP
    decreases k
  {
    if l < k - 1 {
      FlowStartGap(rows, dims, tb, l, k - 1);
    }
  }

  lemma {:induction false} CrossSumMonotone(row: seq<Node>, dims: map<Node, Dim>, tb: bool, i: nat, j: nat)
    requires i < j <= |row|
    ensures CrossSum(row, dims, tb, j) >= CrossSum(row, dims, tb, i) + CrossExt(row[i], dims, tb)
    ensures j == i + 1 ==> CrossSum(row, dims, tb, j) == CrossSum(row, dims, tb, i) + CrossExt(row[i], dims, tb)
    decreases j
  {
    if i < j - 1 {
      CrossSumMonotone(row, dims, tb, i, j - 1);
    }
  }

  /** Rows stay a full gap apart, and everything in a row shares one centre line. */
  lemma SpotsOfDifferentRows(rows: Rows, dims: map<Node, Dim>, tb: bool, l: nat, i: nat, k: nat, j: nat)
    requires l < k && i < |Row(rows, l)| && j < |Row(rows, k)|
    ensures var a, b := Row(rows, l)[i], Row(rows, k)[j];
      SpotOf(rows, dims, tb, k, j).flow
      >= SpotOf(rows, dims, tb, l, i).flow + FlowExt(a, dims, tb) as real + V_GAP as real
  {
    FlowStartGap(rows, dims, tb, l, k);
    assert Row(rows, l)[i] in Row(rows, l) && Row(rows, k)[j] in Row(rows, k);
  }

  lemma SpotsOfOneRow(rows: Rows, dims: map<Node, Dim>, tb: bool, l: nat, i: nat, j: nat)
    requires i < j < |Row(rows, l)|
    ensures var a, b := Row(rows, l)[i], Row(rows, l)[j];
      && SpotOf(rows, dims, tb, l, j).cross
         >= SpotOf(rows, dims, tb, l, i).cross + CrossExt(a, dims, tb) as real + H_GAP as real
      && (j == i + 1 ==>
            SpotOf(rows, dims, tb, l, j).cross
            == SpotOf(rows, dims, tb, l, i).cross + CrossExt(a, dims, tb) as real + H_GAP as real)
      && SpotOf(rows, dims, tb, l, i).flow + FlowExt(a, dims, tb) as real / 2.0
         == SpotOf(rows, dims, tb, l, j).flow + FlowExt(b, dims, tb) as real / 2.0
  {
    CrossSumMonotone(Row(rows, l), dims, tb, i, j);
  }

  /** A row reaches as far to one side of the common axis as to the other. */
  lemma RowIsCentred(rows: Rows, dims: map<Node, Dim>, tb: bool, l: nat)
    requires Row(rows, l) != []
    ensures var row := Row(rows, l);
      var last := |row| - 1;
      SpotOf(rows, dims, tb, l, 0).cross
      + SpotOf(rows, dims, tb, l, last).cross + CrossExt(row[last], dims, tb) as real == 0.0
  {
    var row := Row(rows, l);
    CrossSumMonotone(row, dims, tb, |row| - 1, |row|);
  }

  // --------------------------------------------------------------------
  // The placing loops
  // --------------------------------------------------------------------

  /** Accumulates where each layer starts on the flow axis. */
  method StackRows(rows: Rows, maxLayer: nat, dims: map<Node, Dim>, tb: bool) returns (layerFlow: map<nat, nat>)
    ensures forall l: nat {:trigger l in layerFlow} {:trigger layerFlow[l]} :: l <= maxLayer ==> l in layerFlow && layerFlow[l] == FlowStart(rows, dims, tb, l)
  {
    layerFlow := map[];
    var acc := 0;
    for l := 0 to maxLayer + 1
      invariant forall k: nat {:trigger k in layerFlow} {:trigger layerFlow[k]} :: k < l ==> k in layerFlow && layerFlow[k] == FlowStart(rows, dims, tb, k)
      invariant acc == FlowStart(rows, dims, tb, l)
    {
      layerFlow := layerFlow[l := acc];
      acc := acc + Band(Row(rows, l), dims, tb) + V_GAP;
    }
  }

  /** The first `i` nodes of a row at their spots, over what was placed before. */
  ghost function Placed(row: seq<Node>, start: int, dims: map<Node, Dim>, tb: bool, i: nat,
                        spots: map<Node, Spot>): map<Node, Spot>
    requires i <= |row|
  {
    if i == 0 then spots
    else Placed(row, start, dims, tb, i - 1, spots)[row[i - 1] := SpotInRow(row, start, dims, tb, i - 1)]
  }

  lemma {:induction false} PlacedAt(row: seq<Node>, start: int, dims: map<Node, Dim>, tb: bool, i: nat,
                                    spots: map<Node, Spot>, j: nat)
    requires j < i <= |row| && Distinct(row)
    ensures var placed := Placed(row, start, dims, tb, i, spots);
      row[j] in placed && placed[row[j]] == SpotInRow(row, start, dims, tb, j)
  {
    if j < i - 1 {
      PlacedAt(row, start, dims, tb, i - 1, spots, j);
    }
  }

  lemma {:induction false} PlacedKeys(row: seq<Node>, start: int, dims: map<Node, Dim>, tb: bool, i: nat,
                                      spots: map<Node, Spot>)
    requires i <= |row|
    ensures var placed := Placed(row, start, dims, tb, i, spots);
      && placed.Keys == spots.Keys + NodeSet(row[..i])
      && (forall n :: n in spots && n !in row ==> placed[n] == spots[n])
  {
    if i == 0 {
    } else {
      PlacedKeys(row, start, dims, tb, i - 1, spots);
      assert row[..i] == row[..i - 1] + [row[i - 1]];
    }
  }

  /** Walks along one row, centring each node in the row's band. */
  method PlaceRow(row: seq<Node>, start: int, dims: map<Node, Dim>, tb: bool, spots0: map<Node, Spot>)
    returns (spots: map<Node, Spot>)
    ensures spots == Placed(row, start, dims, tb, |row|, spots0)
  {
    spots := spots0;
    var band := Band(row, dims, tb);
    var cross := -(RowWidth(row, dims, tb) as real / 2.0);
    for i := 0 to |row|
      invariant cross == CrossStart(row, dims, tb, i)
      invariant spots == Placed(row, start, dims, tb, i, spots0)
    {
      var n := row[i];
      spots := spots[n := Spot(start as real + (band - FlowExt(n, dims, tb)) as real / 2.0, cross)];
      cross := cross + (CrossExt(n, dims, tb) + H_GAP) as real;
    }
  }

  method PlaceRows(order: seq<Node>, layer: map<Node, nat>, rows: Rows, maxLayer: nat, dims: map<Node, Dim>, tb: bool)
    returns (spots: map<Node, Spot>)
    requires layer.Keys == NodeSet(order) && Arranged(rows, order, layer, maxLayer)
    ensures spots.Keys == NodeSet(order) && AtSpots(spots, rows, dims, tb)
  {
    var layerFlow := StackRows(rows, maxLayer, dims, tb);
    spots := map[];
    for l := 0 to maxLayer + 1
      invariant forall n :: n in spots <==> n in layer && layer[n] < l
      invariant AtSpotsBelow(spots, rows, dims, tb, l)
    {
      assert IsRow(rows[l], order, layer, l);
      ghost var was := spots;
      spots := PlaceRow(Row(rows, l), layerFlow[l], dims, tb, spots);
      PlacedKeys(Row(rows, l), layerFlow[l], dims, tb, |Row(rows, l)|, was);
      assert Row(rows, l)[..|Row(rows, l)|] == Row(rows, l);
      forall k: nat, i: nat | k < l + 1 && i < |Row(rows, k)|
        ensures Row(rows, k)[i] in spots && spots[Row(rows, k)[i]] == SpotOf(rows, dims, tb, k, i)
      {
        if k < l {
          assert IsRow(rows[k], order, layer, k);
          assert Row(rows, k)[i] in rows[k];
          assert Row(rows, k)[i] in was && was[Row(rows, k)[i]] == SpotOf(rows, dims, tb, k, i);
        } else {
          PlacedAt(Row(rows, l), layerFlow[l], dims, tb, |Row(rows, l)|, was, i);
        }
      }
    }
    assert forall l: nat :: l > maxLayer ==> Row(rows, l) == [];
  }

  // --------------------------------------------------------------------
  // Shifting to the margin and rounding
  // --------------------------------------------------------------------

  datatype Box = Box(x: int, y: int, w: nat, h: nat)

  function SpotX(s: Spot, tb: bool): real { if tb then s.cross else s.flow }

  function SpotY(s: Spot, tb: bool): real { if tb then s.flow else s.cross }

  function Least(s: seq<real>): (m: real)
    requires s != []
    ensures m in s && forall i :: 0 <= i < |s| ==> m <= s[i]
  {
    var last := s[|s| - 1];
    if |s| == 1 then last
    else
      var rest := Least(s[..|s| - 1]);
      if rest <= last then rest else last
  }

  /** A box at the rounded image of its spot under one common shift. */
  ghost predicate RoundedAt(box: Box, spot: Spot, dim: Dim, tb: bool, shift: Spot) {
    && box.w == dim.w && box.h == dim.h
    && BoxFlow(box, tb) == Round(spot.flow + shift.flow)
    && BoxCross(box, tb) == Round(spot.cross + shift.cross)
  }

  ghost predicate RoundedFrom(positions: map<Node, Box>, spots: map<Node, Spot>, dims: map<Node, Dim>,
                              tb: bool, shift: Spot)
  {
    && positions.Keys == spots.Keys == dims.Keys
    && forall n :: n in positions ==> RoundedAt(positions[n], spots[n], dims[n], tb, shift)
  }

  function BoxFlow(b: Box, tb: bool): int { if tb then b.y else b.x }

  function BoxCross(b: Box, tb: bool): int { if tb then b.x else b.y }

  /** The smallest x and the smallest y are the margin. */
  ghost predicate AtMargin(order: seq<Node>, positions: map<Node, Box>) {
    && positions.Keys == NodeSet(order)
    && (forall n :: n in order ==> positions[n].x >= MARGIN && positions[n].y >= MARGIN)
    && (exists n :: n in order && positions[n].x == MARGIN)
    && (exists n :: n in order && positions[n].y == MARGIN)
  }

  function BoxAt(s: Spot, minX: real, minY: real, d: Dim, tb: bool): Box {
    Box(Round(SpotX(s, tb) - minX + MARGIN as real), Round(SpotY(s, tb) - minY + MARGIN as real), d.w, d.h)
  }

  method Settle(order: seq<Node>, spots: map<Node, Spot>, dims: map<Node, Dim>, tb: bool)
    returns (positions: map<Node, Box>, ghost shift: Spot)
    requires order != [] && spots.Keys == dims.Keys == NodeSet(order)
    ensures AtMargin(order, positions) && RoundedFrom(positions, spots, dims, tb, shift)
    ensures positions.Keys == NodeSet(order)
  {
    hide Round, AtMargin, RoundedAt, BoxAt, SpotX, SpotY, Least;
    var xs := seq(|order|, i requires 0 <= i < |order| => SpotX(spots[order[i]], tb));
    var ys := seq(|order|, i requires 0 <= i < |order| => SpotY(spots[order[i]], tb));
    var minX, minY := Least(xs), Least(ys);
    positions := map[];
    for i := 0 to |order|
      invariant positions.Keys == NodeSet(order[..i])
      invariant forall n :: n in positions ==> positions[n] == BoxAt(spots[n], minX, minY, dims[n], tb)
    {
      var n := order[i];
      assert NodeSet(order[..i + 1]) == NodeSet(order[..i]) + {n};
      positions := positions[n := BoxAt(spots[n], minX, minY, dims[n], tb)];
    }
    assert order[..|order|] == order;
    shift := if tb then Spot(MARGIN as real - minY, MARGIN as real - minX)
             else Spot(MARGIN as real - minX, MARGIN as real - minY);
    SettledAtMargin(order, spots, dims, tb, minX, minY, positions, xs, ys);
    forall n | n in positions ensures RoundedAt(positions[n], spots[n], dims[n], tb, shift) {
      BoxAtIsRounded(spots[n], minX, minY, dims[n], tb);
    }
  }

  lemma BoxAtIsRounded(s: Spot, minX: real, minY: real, d: Dim, tb: bool)
    ensures RoundedAt(BoxAt(s, minX, minY, d, tb), s, d, tb,
                      if tb then Spot(MARGIN as real - minY, MARGIN as real - minX)
                      else Spot(MARGIN as real - minX, MARGIN as real - minY))
  {
    var m := MARGIN as real;
    assert SpotX(s, tb) - minX + m == SpotX(s, tb) + (m - minX);
    assert SpotY(s, tb) - minY + m == SpotY(s, tb) + (m - minY);
  }

  lemma SettledAtMargin(order: seq<Node>, spots: map<Node, Spot>, dims: map<Node, Dim>, tb: bool,
                        minX: real, minY: real, positions: map<Node, Box>, xs: seq<real>, ys: seq<real>)
    requires order != [] && positions.Keys == spots.Keys == NodeSet(order) && forall n :: n in order ==> n in dims
    requires |xs| == |ys| == |order|
    requires forall i :: 0 <= i < |order| ==> xs[i] == SpotX(spots[order[i]], tb) && ys[i] == SpotY(spots[order[i]], tb)
    requires minX == Least(xs) && minY == Least(ys)
    requires forall n :: n in positions ==> positions[n] == BoxAt(spots[n], minX, minY, dims[n], tb)
    ensures AtMargin(order, positions)
  {
    var m := MARGIN as real;
    forall n | n in order ensures positions[n].x >= MARGIN && positions[n].y >= MARGIN {
      var i :| 0 <= i < |order| && order[i] == n;
      RoundMonotone(m, xs[i] - minX + m);
      RoundMonotone(m, ys[i] - minY + m);
    }
    var i :| 0 <= i < |xs| && xs[i] == minX;
    assert order[i] in order && positions[order[i]].x == Round(m);
    var j :| 0 <= j < |ys| && ys[j] == minY;
    assert order[j] in order && positions[order[j]].y == Round(m);
  }

  // --------------------------------------------------------------------
  // What the layout promises
  // --------------------------------------------------------------------

  function FlowEnd(b: Box, tb: bool): int { BoxFlow(b, tb) + (if tb then b.h else b.w) }

  function CrossEnd(b: Box, tb: bool): int { BoxCross(b, tb) + (if tb then b.w else b.h) }

  /** Later layers start at least 89 beyond the end of every box of an earlier layer. */
  ghost predicate LayersApart(positions: map<Node, Box>, layer: map<Node, nat>, tb: bool)
    requires positions.Keys == layer.Keys
  {
    forall a, b :: a in layer && b in layer && layer[a] < layer[b] ==>
      BoxFlow(positions[b], tb) >= FlowEnd(positions[a], tb) + V_GAP - 1
  }

  /** Some box of a layer starts at most 91 beyond the end of some box of the layer before. */
  ghost predicate LayersClose(positions: map<Node, Box>, rows: Rows, maxLayer: nat, tb: bool) {
    forall l: nat, below: nat :: below == l + 1 && below <= maxLayer && Row(rows, l) != [] && Row(rows, below) != [] ==>
      CloseRows(positions, Row(rows, l), Row(rows, below), tb)
  }

  ghost predicate CloseRows(positions: map<Node, Box>, row: seq<Node>, below: seq<Node>, tb: bool) {
    exists a, b :: a in row && b in below && a in positions && b in positions
                   && BoxFlow(positions[b], tb) <= FlowEnd(positions[a], tb) + V_GAP + 1
  }

  /** Within a row, boxes follow each other in row order at least 59 apart, neighbours at most 61 apart,
      and share a centre line up to rounding. */
  ghost predicate RowLaidOut(positions: map<Node, Box>, row: seq<Node>, tb: bool)
    requires forall n :: n in row ==> n in positions
  {
    forall i, j :: 0 <= i < j < |row| ==> LaidOutPair(positions[row[i]], positions[row[j]], j == i + 1, tb)
  }

  /** Twice the cross coordinate of the middle of a row. */
  function RowMiddle2(positions: map<Node, Box>, row: seq<Node>, tb: bool): int
    requires row != [] && forall n :: n in row ==> n in positions
  {
    BoxCross(positions[row[0]], tb) + CrossEnd(positions[row[|row| - 1]], tb)
  }

  /** All rows are centred on one axis up to rounding. */
  ghost predicate RowsCentred(positions: map<Node, Box>, rows: Rows, maxLayer: nat, tb: bool)
    requires forall l: nat :: l <= maxLayer ==> forall n :: n in Row(rows, l) ==> n in positions
  {
    forall l: nat, k: nat :: l <= maxLayer && k <= maxLayer && Row(rows, l) != [] && Row(rows, k) != [] ==>
      RowMiddle2(positions, Row(rows, l), tb) - RowMiddle2(positions, Row(rows, k), tb) <= 2
  }

  lemma SpotKnown(spots: map<Node, Spot>, rows: Rows, dims: map<Node, Dim>, tb: bool, l: nat, i: nat)
    requires AtSpots(spots, rows, dims, tb) && i < |Row(rows, l)|
    ensures Row(rows, l)[i] in spots && spots[Row(rows, l)[i]] == SpotOf(rows, dims, tb, l, i)
  {
    assert Row(rows, l)[i] in spots;
  }

  lemma RoundedLayersApart(order: seq<Node>, layer: map<Node, nat>, rows: Rows, maxLayer: nat,
                           dims: map<Node, Dim>, tb: bool, spots: map<Node, Spot>, positions: map<Node, Box>, shift: Spot)
    requires layer.Keys == NodeSet(order) && Arranged(rows, order, layer, maxLayer)
    requires AtSpots(spots, rows, dims, tb)
    requires positions.Keys == layer.Keys && RoundedFrom(positions, spots, dims, tb, shift)
    ensures LayersApart(positions, layer, tb)
  {
    forall a, b | a in layer && b in layer && layer[a] < layer[b]
      ensures BoxFlow(positions[b], tb) >= FlowEnd(positions[a], tb) + V_GAP - 1
    {
      var l, k := layer[a], layer[b];
      assert IsRow(rows[l], order, layer, l) && IsRow(rows[k], order, layer, k);
      var i :| 0 <= i < |Row(rows, l)| && Row(rows, l)[i] == a;
      var j :| 0 <= j < |Row(rows, k)| && Row(rows, k)[j] == b;
      SpotsOfDifferentRows(rows, dims, tb, l, i, k, j);
      SpotKnown(spots, rows, dims, tb, l, i);
      SpotKnown(spots, rows, dims, tb, k, j);
    }
  }

  /** The widest box of a row starts where its layer does. */
  lemma WidestStartsTheLayer(rows: Rows, dims: map<Node, Dim>, tb: bool, spots: map<Node, Spot>, l: nat)
    returns (n: Node)
    requires AtSpots(spots, rows, dims, tb) && Row(rows, l) != []
    ensures n in Row(rows, l) && n in spots && FlowExt(n, dims, tb) == Band(Row(rows, l), dims, tb)
    ensures spots[n].flow == FlowStart(rows, dims, tb, l) as real
  {
    hide FlowStart;
    var row := Row(rows, l);
    var band := Band(row, dims, tb);
    n :| n in row && FlowExt(n, dims, tb) == band;
    var i :| 0 <= i < |row| && row[i] == n;
    SpotKnown(spots, rows, dims, tb, l, i);
  }

  lemma RoundedLayersClose(rows: Rows, maxLayer: nat, dims: map<Node, Dim>, tb: bool,
                           spots: map<Node, Spot>, positions: map<Node, Box>, shift: Spot)
    requires AtSpots(spots, rows, dims, tb) && RoundedFrom(positions, spots, dims, tb, shift)
    ensures LayersClose(positions, rows, maxLayer, tb)
  {
    hide AtSpots, Band, Round, FlowStart;
    forall l: nat, below: nat | below == l + 1 && below <= maxLayer && Row(rows, l) != [] && Row(rows, below) != []
      ensures CloseRows(positions, Row(rows, l), Row(rows, below), tb)
    {
      var a := WidestStartsTheLayer(rows, dims, tb, spots, l);
      var b := WidestStartsTheLayer(rows, dims, tb, spots, below);
      NextLayerStarts(rows, dims, tb, l);
      assert RoundedAt(positions[a], spots[a], dims[a], tb, shift);
      assert RoundedAt(positions[b], spots[b], dims[b], tb, shift);
    }
  }

  lemma NextLayerStarts(rows: Rows, dims: map<Node, Dim>, tb: bool, l: nat)
    ensures FlowStart(rows, dims, tb, l + 1) == FlowStart(rows, dims, tb, l) + Band(Row(rows, l), dims, tb) + V_GAP
  {
    hide Band;
  }

  ghost predicate LaidOutPair(a: Box, b: Box, adjacent: bool, tb: bool) {
    && BoxCross(b, tb) >= CrossEnd(a, tb) + H_GAP - 1
    && (adjacent ==> BoxCross(b, tb) <= CrossEnd(a, tb) + H_GAP + 1)
    && -2 <= (BoxFlow(a, tb) + FlowEnd(a, tb)) - (BoxFlow(b, tb) + FlowEnd(b, tb)) <= 2
  }

  lemma RoundedPair(a: Spot, b: Spot, da: Dim, db: Dim, boxA: Box, boxB: Box, adjacent: bool, tb: bool, shift: Spot)
    requires RoundedAt(boxA, a, da, tb, shift) && RoundedAt(boxB, b, db, tb, shift)
    requires b.cross >= a.cross + (if tb then da.w else da.h) as real + H_GAP as real
    requires adjacent ==> b.cross == a.cross + (if tb then da.w else da.h) as real + H_GAP as real
    requires a.flow + (if tb then da.h else da.w) as real / 2.0 == b.flow + (if tb then db.h else db.w) as real / 2.0
    ensures LaidOutPair(boxA, boxB, adjacent, tb)
  {
  }

  lemma RoundedRowLaidOut(rows: Rows, l: nat, dims: map<Node, Dim>, tb: bool,
                          spots: map<Node, Spot>, positions: map<Node, Box>, shift: Spot)
    requires AtSpots(spots, rows, dims, tb) && RoundedFrom(positions, spots, dims, tb, shift)
    ensures (forall n :: n in Row(rows, l) ==> n in positions) && RowLaidOut(positions, Row(rows, l), tb)
  {
    var row := Row(rows, l);
    forall n | n in row ensures n in positions {
      var i :| 0 <= i < |row| && row[i] == n;
      SpotKnown(spots, rows, dims, tb, l, i);
    }
    forall i, j | 0 <= i < j < |row|
      ensures LaidOutPair(positions[row[i]], positions[row[j]], j == i + 1, tb)
    {
      var a, b := row[i], row[j];
      SpotsOfOneRow(rows, dims, tb, l, i, j);
      SpotKnown(spots, rows, dims, tb, l, i);
      SpotKnown(spots, rows, dims, tb, l, j);
      RoundedPair(spots[a], spots[b], dims[a], dims[b], positions[a], positions[b], j == i + 1, tb, shift);
    }
  }

  lemma RoundedRowsCentred(rows: Rows, maxLayer: nat, dims: map<Node, Dim>, tb: bool,
                           spots: map<Node, Spot>, positions: map<Node, Box>, shift: Spot)
    requires AtSpots(spots, rows, dims, tb) && RoundedFrom(positions, spots, dims, tb, shift)
    requires forall l: nat :: l <= maxLayer ==> forall n :: n in Row(rows, l) ==> n in positions
    ensures RowsCentred(positions, rows, maxLayer, tb)
  {
    forall l: nat, k: nat | l <= maxLayer && k <= maxLayer && Row(rows, l) != [] && Row(rows, k) != []
      ensures RowMiddle2(positions, Row(rows, l), tb) - RowMiddle2(positions, Row(rows, k), tb) <= 2
    {
      RowMiddleNearShift(rows, l, dims, tb, spots, positions, shift);
      RowMiddleNearShift(rows, k, dims, tb, spots, positions, shift);
    }
  }

  lemma RowMiddleNearShift(rows: Rows, l: nat, dims: map<Node, Dim>, tb: bool,
                           spots: map<Node, Spot>, positions: map<Node, Box>, shift: Spot)
    requires AtSpots(spots, rows, dims, tb) && RoundedFrom(positions, spots, dims, tb, shift)
    requires Row(rows, l) != [] && forall n :: n in Row(rows, l) ==> n in positions
    ensures -1.0 <= RowMiddle2(positions, Row(rows, l), tb) as real - 2.0 * shift.cross <= 1.0
  {
    var row := Row(rows, l);
    var last := |row| - 1;
    RowIsCentred(rows, dims, tb, l);
    SpotKnown(spots, rows, dims, tb, l, 0);
    SpotKnown(spots, rows, dims, tb, l, last);
    var a, b := row[0], row[last];
    assert RoundedAt(positions[a], spots[a], dims[a], tb, shift);
    assert RoundedAt(positions[b], spots[b], dims[b], tb, shift);
  }

  /** Two boxes do not overlap when one ends before the other begins on some axis. */
  predicate Overlap(a: Box, b: Box) {
    !(a.x + a.w <= b.x || b.x + b.w <= a.x || a.y + a.h <= b.y || b.y + b.h <= a.y)
  }

  /** Separated rows and separated layers leave no two boxes overlapping. */
  lemma NoOverlap(order: seq<Node>, layer: map<Node, nat>, rows: Rows, maxLayer: nat, tb: bool,
                  positions: map<Node, Box>, a: Node, b: Node)
    requires layer.Keys == NodeSet(order) == positions.Keys && Arranged(rows, order, layer, maxLayer)
    requires LayersApart(positions, layer, tb)
    requires forall l: nat :: l <= maxLayer ==> (forall n :: n in Row(rows, l) ==> n in positions) && RowLaidOut(positions, Row(rows, l), tb)
    requires a in order && b in order && a != b
    ensures !Overlap(positions[a], positions[b])
  {
    if layer[a] == layer[b] {
      var l := layer[a];
      assert IsRow(rows[l], order, layer, l) && RowLaidOut(positions, Row(rows, l), tb);
      var i :| 0 <= i < |Row(rows, l)| && Row(rows, l)[i] == a;
      var j :| 0 <= j < |Row(rows, l)| && Row(rows, l)[j] == b;
      assert i < j || j < i;
    }
  }

  /** The edges of `dag` all run strictly forward along the flow axis. */
  ghost predicate FlowsForward(dag: set<Edge>, positions: map<Node, Box>, tb: bool) {
    forall e :: e in dag ==>
      && e.src in positions && e.dst in positions
      && BoxFlow(positions[e.dst], tb) >= FlowEnd(positions[e.src], tb) + V_GAP - 1
  }

  method MeasureLabels(order: seq<Node>, labels: map<Node, string>) returns (dims: map<Node, Dim>)
    requires labels.Keys == NodeSet(order)
    ensures dims.Keys == labels.Keys && forall n :: n in dims ==> dims[n] == BoxFor(labels[n])
  {
    dims := map[];
    for i := 0 to |order|
      invariant dims.Keys == NodeSet(order[..i])
      invariant forall n :: n in dims ==> dims[n] == BoxFor(labels[n])
    {
      assert NodeSet(order[..i + 1]) == NodeSet(order[..i]) + {order[i]};
      dims := dims[order[i] := BoxFor(labels[order[i]])];
    }
    assert order[..|order|] == order;
  }

  /** The edges the layout keeps: acyclic, without self-loops, and with a cycle for every other edge dropped. */
  ghost predicate KeptEdges(edges: seq<Edge>, dag: set<Edge>) {
    && Acyclic(dag)
    && (forall e :: e in dag ==> e in edges && e.src != e.dst)
    && (forall e :: e in edges && e.src != e.dst && e !in dag ==> Reaches(dag, e.dst, e.src))
  }

  /** How a diagram was arranged: the kept edges, the layers, the rows, and the rows after the last down sweep. */
  datatype Arrangement = Arrangement(dag: set<Edge>, layer: map<Node, nat>, rows: Rows, maxLayer: nat, down: Rows)

  /** Every node is in the layer of its longest walk, and the rows are ordered by the diagram's own edges. */
  ghost predicate Ordered(order: seq<Node>, edges: seq<Edge>, a: Arrangement) {
    && KeptEdges(edges, a.dag)
    && a.layer.Keys == NodeSet(order) && (forall n :: n in a.layer ==> LongestWalkTo(a.dag, n, a.layer[n]))
    && Arranged(a.rows, order, a.layer, a.maxLayer) && FollowsBelow(a.rows, edges, a.maxLayer)
    && Arranged(a.down, order, a.layer, a.maxLayer) && FollowsAbove(a.down, edges, a.maxLayer)
    && a.rows[a.maxLayer] == a.down[a.maxLayer]
  }

  /** Boxes that hold their labels, start at the margin and do not overlap. */
  ghost predicate BoxesFit(order: seq<Node>, labels: map<Node, string>, positions: map<Node, Box>)
    requires labels.Keys == positions.Keys == NodeSet(order)
  {
    && AtMargin(order, positions)
    && (forall n :: n in labels ==> Dim(positions[n].w, positions[n].h) == BoxFor(labels[n]))
    && (forall m, n :: m in order && n in order && m != n ==> !Overlap(positions[m], positions[n]))
  }

  ghost predicate RowsLaidOut(positions: map<Node, Box>, rows: Rows, maxLayer: nat, tb: bool) {
    forall l: nat :: l <= maxLayer ==>
      (forall n :: n in Row(rows, l) ==> n in positions) && RowLaidOut(positions, Row(rows, l), tb)
  }

  /** The boxes stand in their rows and layers, and the kept edges run forward. */
  ghost predicate BoxesInRows(positions: map<Node, Box>, tb: bool, a: Arrangement)
    requires a.layer.Keys == positions.Keys
  {
    && LayersApart(positions, a.layer, tb) && LayersClose(positions, a.rows, a.maxLayer, tb)
    && RowsLaidOut(positions, a.rows, a.maxLayer, tb)
    && RowsCentred(positions, a.rows, a.maxLayer, tb)
    && FlowsForward(a.dag, positions, tb)
  }

  ghost predicate LaidOut(order: seq<Node>, labels: map<Node, string>, tb: bool, positions: map<Node, Box>,
                          a: Arrangement)
  {
    && labels.Keys == positions.Keys == a.layer.Keys == NodeSet(order)
    && BoxesFit(order, labels, positions)
    && BoxesInRows(positions, tb, a)
  }

  /** Layers, row orders and boxes for a nonempty diagram. */
  method Arrange(order: seq<Node>, edges: seq<Edge>, labels: map<Node, string>, tb: bool)
    returns (positions: map<Node, Box>, ghost a: Arrangement)
    requires WellFormed(order, edges) && order != [] && labels.Keys == NodeSet(order)
    ensures Ordered(order, edges, a) && LaidOut(order, labels, tb, positions, a)
  {
    hide *;
    var dims := MeasureLabels(order, labels);
    ghost var kept;
    var layer;
    layer, kept := AssignLayers(order, edges);
    ghost var down;
    var rows, maxLayer;
    rows, maxLayer, down := OrderLayers(order, edges, layer);
    var spots := PlaceRows(order, layer, rows, maxLayer, dims, tb);
    ghost var shift;
    positions, shift := Settle(order, spots, dims, tb);
    a := Arrangement(EdgeSet(kept), layer, rows, maxLayer, down);
    OrderedHolds(order, edges, kept, a);
    LaidOutHolds(order, edges, labels, dims, tb, spots, positions, shift, a);
  }

  lemma OrderedHolds(order: seq<Node>, edges: seq<Edge>, kept: seq<Edge>, a: Arrangement)
    requires Acyclic(EdgeSet(kept)) && (forall e :: e in kept ==> e in edges && e.src != e.dst)
    requires forall e :: e in edges && e.src != e.dst && e !in kept ==> Reaches(EdgeSet(kept), e.dst, e.src)
    requires a.dag == EdgeSet(kept) && a.layer.Keys == NodeSet(order)
    requires forall n :: n in a.layer ==> LongestWalkTo(EdgeSet(kept), n, a.layer[n])
    requires Arranged(a.rows, order, a.layer, a.maxLayer) && FollowsBelow(a.rows, edges, a.maxLayer)
    requires Arranged(a.down, order, a.layer, a.maxLayer) && FollowsAbove(a.down, edges, a.maxLayer)
    requires a.rows[a.maxLayer] == a.down[a.maxLayer]
    ensures Ordered(order, edges, a)
  {
    hide Acyclic, Reaches, LongestWalkTo, Arranged, FollowsBelow, FollowsAbove;
  }

  lemma LaidOutHolds(
    order: seq<Node>, edges: seq<Edge>, labels: map<Node, string>, dims: map<Node, Dim>, tb: bool,
    spots: map<Node, Spot>, positions: map<Node, Box>, shift: Spot, a: Arrangement)
    requires WellFormed(order, edges) && labels.Keys == NodeSet(order) && Ordered(order, edges, a)
    requires AtSpots(spots, a.rows, dims, tb) && AtMargin(order, positions) && positions.Keys == NodeSet(order)
    requires RoundedFrom(positions, spots, dims, tb, shift)
    requires dims.Keys == labels.Keys && forall n :: n in dims ==> dims[n] == BoxFor(labels[n])
    ensures LaidOut(order, labels, tb, positions, a)
  {
    hide Acyclic, Reaches, LongestWalkTo, Arranged, FollowsBelow, FollowsAbove, AtSpots, RoundedFrom, LayersApart,
      LayersClose, RowLaidOut, RowsCentred, FlowsForward, Overlap, BoxFor;
    LayoutHolds(order, a.layer, a.rows, a.maxLayer, dims, tb, spots, positions, shift);
    SizesKept(order, labels, dims, spots, positions, tb, shift);
    assert RowsLaidOut(positions, a.rows, a.maxLayer, tb);
    RoundedLayersClose(a.rows, a.maxLayer, dims, tb, spots, positions, shift);
    assert forall e :: e in a.dag ==> e in edges;
    DagFlowsForward(a.dag, a.layer, positions, tb);
  }

  // --------------------------------------------------------------------
  // What the ordering means for the drawing
  // --------------------------------------------------------------------

  /** `e` is the node's only edge into the row. */
  ghost predicate OnlyEdgeInto(edges: seq<Edge>, e: Edge, row: seq<Node>) {
    e in edges && e.dst in row && forall x :: x in edges && x.src == e.src && x.dst in row ==> x == e
  }

  lemma {:induction false} OnlyEdgeGivesTheMean(edges: seq<Edge>, e: Edge, row: seq<Node>)
    requires e.dst in row && forall x :: x in edges && x.src == e.src && x.dst in row ==> x == e
    ensures HeadSum(edges, e.src, row) == HeadCount(edges, e.src, row) * IndexIn(row, e.dst)
    ensures e in edges ==> HeadCount(edges, e.src, row) > 0
  {
    hide IndexIn;
    if edges == [] {
    } else {
      var before, last := edges[..|edges| - 1], edges[|edges| - 1];
      assert last in edges && forall x :: x in edges <==> x in before || x == last;
      OnlyEdgeGivesTheMean(before, e, row);
      OneMore(HeadCount(before, e.src, row), IndexIn(row, e.dst));
    }
  }

  lemma OneMore(count: nat, index: nat)
    ensures (count + 1) * index == count * index + index
  {
  }

  lemma SmallerMean(ca: nat, ia: nat, cb: nat, ib: nat)
    requires ca > 0 && cb > 0 && (ca * ia) * cb <= (cb * ib) * ca
    ensures ia <= ib
  {
    assert (ca * ia) * cb == (ca * cb) * ia && (cb * ib) * ca == (ca * cb) * ib;
    CancelFactor(ca * cb, ia, ib);
  }

  lemma CancelFactor(k: nat, x: nat, y: nat)
    requires k > 0 && k * x <= k * y
    ensures x <= y
  {
  }

  /**
   * Two edges between neighbouring layers, each the only one of its tail there, do not cross: the edge
   * whose tail is drawn first has a head that is not drawn after the other's.
   */
  lemma SingleEdgesDoNotCross(
    order: seq<Node>, edges: seq<Edge>, labels: map<Node, string>, tb: bool, positions: map<Node, Box>, a: Arrangement,
    e: Edge, f: Edge)
    requires Ordered(order, edges, a) && LaidOut(order, labels, tb, positions, a)
    requires e.src in a.layer && f.src in a.layer && a.layer[e.src] == a.layer[f.src] < a.maxLayer
    requires OnlyEdgeInto(edges, e, Row(a.rows, a.layer[e.src] + 1))
    requires OnlyEdgeInto(edges, f, Row(a.rows, a.layer[e.src] + 1))
    requires BoxCross(positions[e.src], tb) < BoxCross(positions[f.src], tb)
    ensures e.dst in positions && f.dst in positions
    ensures BoxCross(positions[e.dst], tb) <= BoxCross(positions[f.dst], tb)
  {
    hide HeadSum, HeadCount, IndexIn, BoxCross, KeptEdges, FlowsForward, LayersApart, LayersClose, RowsCentred,
      AtMargin, Overlap, BoxFor;
    var l := a.layer[e.src];
    var row, below := Row(a.rows, l), Row(a.rows, l + 1);
    assert IsRow(a.rows[l], order, a.layer, l) && IsRow(a.rows[l + 1], order, a.layer, l + 1);
    var i := IndexFound(row, e.src);
    var j := IndexFound(row, f.src);
    var p := IndexFound(below, e.dst);
    var q := IndexFound(below, f.dst);
    EarlierIsDrawnFirst(positions, row, tb, j, i);
    assert i < j;
    assert Follows(row[i], row[j], edges, below) by {
      assert RowFollows(a.rows[l], edges, a.rows[l + 1]);
    }
    OnlyEdgeGivesTheMean(edges, e, below);
    OnlyEdgeGivesTheMean(edges, f, below);
    SmallerMean(HeadCount(edges, e.src, below), p, HeadCount(edges, f.src, below), q);
    EarlierIsDrawnFirst(positions, below, tb, p, q);
  }

  lemma IndexFound(row: seq<Node>, n: Node) returns (i: nat)
    requires Distinct(row) && n in row
    ensures i < |row| && row[i] == n && IndexIn(row, n) == i
  {
    i :| 0 <= i < |row| && row[i] == n;
    IndexInDistinct(row, i);
  }

  lemma EarlierIsDrawnFirst(positions: map<Node, Box>, row: seq<Node>, tb: bool, i: nat, j: nat)
    requires (forall n :: n in row ==> n in positions) && RowLaidOut(positions, row, tb) && i < |row| && j < |row|
    ensures i < j ==> BoxCross(positions[row[i]], tb) < BoxCross(positions[row[j]], tb)
  {
    if i < j {
      assert LaidOutPair(positions[row[i]], positions[row[j]], j == i + 1, tb);
    }
  }

  lemma SizesKept(order: seq<Node>, labels: map<Node, string>, dims: map<Node, Dim>, spots: map<Node, Spot>,
                  positions: map<Node, Box>, tb: bool, shift: Spot)
    requires labels.Keys == NodeSet(order) && RoundedFrom(positions, spots, dims, tb, shift)
    requires dims.Keys == labels.Keys && forall n :: n in dims ==> dims[n] == BoxFor(labels[n])
    ensures forall n :: n in order ==> n in positions && Dim(positions[n].w, positions[n].h) == BoxFor(labels[n])
  {
    forall n | n in order
      ensures n in positions && Dim(positions[n].w, positions[n].h) == BoxFor(labels[n])
    {
      assert n in labels.Keys && RoundedAt(positions[n], spots[n], dims[n], tb, shift);
    }
  }

  lemma DagFlowsForward(dag: set<Edge>, layer: map<Node, nat>, positions: map<Node, Box>, tb: bool)
    requires forall e :: e in dag ==> e.src in layer && e.dst in layer
    requires forall n :: n in layer ==> LongestWalkTo(dag, n, layer[n])
    requires positions.Keys == layer.Keys && LayersApart(positions, layer, tb)
    ensures FlowsForward(dag, positions, tb)
  {
    forall e | e in dag
      ensures BoxFlow(positions[e.dst], tb) >= FlowEnd(positions[e.src], tb) + V_GAP - 1
    {
      LayersIncreaseAlongEdges(dag, layer, e);
    }
  }

  lemma LayoutHolds(order: seq<Node>, layer: map<Node, nat>, rows: Rows, maxLayer: nat,
                    dims: map<Node, Dim>, tb: bool, spots: map<Node, Spot>, positions: map<Node, Box>, shift: Spot)
    requires layer.Keys == NodeSet(order) && Arranged(rows, order, layer, maxLayer)
    requires AtSpots(spots, rows, dims, tb) && positions.Keys == layer.Keys
    requires RoundedFrom(positions, spots, dims, tb, shift)
    ensures LayersApart(positions, layer, tb)
    ensures forall l: nat :: l <= maxLayer ==> (forall n :: n in Row(rows, l) ==> n in positions) && RowLaidOut(positions, Row(rows, l), tb)
    ensures RowsCentred(positions, rows, maxLayer, tb)
    ensures forall a, b :: a in order && b in order && a != b ==> !Overlap(positions[a], positions[b])
  {
    RoundedLayersApart(order, layer, rows, maxLayer, dims, tb, spots, positions, shift);
    forall l: nat | l <= maxLayer
      ensures (forall n :: n in Row(rows, l) ==> n in positions) && RowLaidOut(positions, Row(rows, l), tb)
    {
      RoundedRowLaidOut(rows, l, dims, tb, spots, positions, shift);
    }
    RoundedRowsCentred(rows, maxLayer, dims, tb, spots, positions, shift);
    forall a, b | a in order && b in order && a != b ensures !Overlap(positions[a], positions[b]) {
      NoOverlap(order, layer, rows, maxLayer, tb, positions, a, b);
    }
  }
}
