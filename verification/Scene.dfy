/**
 * Scene assembly and its checker (scripts/excalidraw-gen.py, `Spec`, `build_scene`, `validate`, `main`).
 * Elements are objects: arrows are wired to shapes by appending to the shapes' `boundElements` in place.
 */
module Scene {
  import opened Graph
  import opened Layering
  import opened Layout
  import opened Options

  // --------------------------------------------------------------------
  // The diagram specification
  // --------------------------------------------------------------------

  predicate KnownShape(shape: string) {
    shape in {"rectangle", "diamond", "ellipse"}
  }

  predicate KnownColor(color: string) {
    color in {"blue", "green", "amber", "orange", "purple", "red", "yellow", "teal", "pink", "gray", "grey", "none"}
  }

  const DEFAULT_COLOR := "blue"

  datatype NodeInfo = NodeInfo(text: string, shape: string, color: string)

  /** `text` is the edge's label; an empty label counts as none. */
  datatype EdgeInfo = EdgeInfo(src: Node, dst: Node, text: Option<string>)

  predicate Labelled(e: EdgeInfo) {
    e.text.Some? && e.text.value != ""
  }

  predicate SelfLoop(e: EdgeInfo) {
    e.src == e.dst
  }

  datatype SpecError = UnknownShape | UnknownColor

  class Spec {
    var tb: bool
    var title: Option<string>
    var nodeOrder: seq<Node>
    var nodes: map<Node, NodeInfo>
    var edges: seq<EdgeInfo>

    constructor ()
      ensures Valid() && tb && title == None && nodeOrder == [] && nodes == map[] && edges == []
    {
      tb, title, nodeOrder, nodes, edges := true, None, [], map[], [];
    }

    ghost predicate Valid()
      reads this
    {
      WellFormedSpec(nodeOrder, nodes, edges)
    }

    /** Creates the node with defaults when it is new. */
    method Ensure(nid: Node)
      requires Valid()
      modifies this`nodes, this`nodeOrder
      ensures Valid() && nid in nodes
      ensures old(nid in nodes) ==> nodes == old(nodes) && nodeOrder == old(nodeOrder)
      ensures old(nid !in nodes) ==> nodeOrder == old(nodeOrder) + [nid]
                                     && nodes == old(nodes)[nid := NodeInfo(nid, "rectangle", DEFAULT_COLOR)]
    {
      if nid !in nodes {
        nodes := nodes[nid := NodeInfo(nid, "rectangle", DEFAULT_COLOR)];
        nodeOrder := nodeOrder + [nid];
        assert forall n :: n in nodeOrder <==> n in old(nodeOrder) || n == nid;
      }
    }

    /** Overrides the given attributes, in order; an unknown shape or color stops after what was already set. */
    method SetNode(nid: Node, text: Option<string>, shape: string, color: string) returns (error: Option<SpecError>)
      requires Valid()
      modifies this`nodes, this`nodeOrder
      ensures Valid() && nid in nodes
      ensures nodeOrder == if old(nid in nodes) then old(nodeOrder) else old(nodeOrder) + [nid]
      ensures forall n :: n in old(nodes) && n != nid ==> n in nodes && nodes[n] == old(nodes)[n]
      ensures error == if shape != "" && !KnownShape(shape) then Some(UnknownShape)
                       else if color != "" && !KnownColor(color) then Some(UnknownColor) else None
      ensures var was := if old(nid in nodes) then old(nodes)[nid] else NodeInfo(nid, "rectangle", DEFAULT_COLOR);
        nodes[nid] == NodeInfo(if text.Some? then text.value else was.text,
                               if shape != "" && error != Some(UnknownShape) then shape else was.shape,
                               if color != "" && error == None then color else was.color)
    {
      hide KnownShape, KnownColor, WellFormedSpec;
      Ensure(nid);
      var n := nodes[nid];
      UpdateKeepsSpec(nodeOrder, nodes, edges, nid);
      error := None;
      if text.Some? {
        n := n.(text := text.value);
      }
      if shape != "" {
        if !KnownShape(shape) {
          nodes := nodes[nid := n];
          return Some(UnknownShape);
        }
        n := n.(shape := shape);
      }
      if color != "" {
        if !KnownColor(color) {
          nodes := nodes[nid := n];
          return Some(UnknownColor);
        }
        n := n.(color := color);
      }
      nodes := nodes[nid := n];
    }

    /** Adds an edge, and with defaults whichever of its ends is new, the source first. */
    method AddEdge(src: Node, dst: Node, text: Option<string>)
      requires Valid()
      modifies this`nodes, this`nodeOrder, this`edges
      ensures Valid() && src in nodes && dst in nodes
      ensures edges == old(edges) + [EdgeInfo(src, dst, text)]
      ensures nodeOrder == old(nodeOrder) + (if old(src in nodes) then [] else [src])
                           + (if old(dst in nodes) || dst == src then [] else [dst])
      ensures forall n :: n in old(nodes) ==> n in nodes && nodes[n] == old(nodes)[n]
      ensures forall n :: n in nodes && n !in old(nodes) ==> nodes[n] == NodeInfo(n, "rectangle", DEFAULT_COLOR)
    {
      Ensure(src);
      Ensure(dst);
      edges := edges + [EdgeInfo(src, dst, text)];
    }

    /**
     * Layout, assembly and validation. For every nonempty specification the scene passes validation,
     * so the "generated scene failed validation" exit is never taken. It draws exactly the nodes and edges
     * of the specification, each arrow from box to box, and every arrow but those of the dropped edges,
     * each of which closes a cycle, leads forward across the gap between two layers.
     */
    method Compile() returns (elements: seq<Element>, positions: map<Node, Box>, ok: bool, ghost a: Arrangement)
      requires Valid() && nodeOrder != []
      ensures ok
      ensures Ordered(nodeOrder, PlainEdges(edges), a) && LaidOut(nodeOrder, LabelsOf(nodes), tb, positions, a)
      ensures Shows(elements, SceneOf(nodeOrder, nodes, edges, title, positions, tb))
      ensures Draws(ViewsIn(elements), nodeOrder, nodes, edges, title, positions, tb)
      ensures KeptArrowsSpan(ViewsIn(elements), edges, a.dag, tb)
    {
      hide WellFormedSpec, Ordered, BoxesFit, BoxesInRows, Draws, KeptArrowsSpan, PlainEdges;
      positions, a := LayOut(nodeOrder, nodes, edges, tb);
      elements := BuildScene(nodeOrder, nodes, edges, title, positions, tb);
      SceneIsValid(nodeOrder, nodes, edges, title, positions, tb);
      KeptArrowsSpanGap(nodeOrder, nodes, edges, title, positions, tb, a);
      ghost var scene := SceneOf(nodeOrder, nodes, edges, title, positions, tb);
      assert ViewsIn(elements) == scene;
      ok := Validate(elements);
    }
  }

  function LabelsOf(nodes: map<Node, NodeInfo>): map<Node, string> {
    map n | n in nodes :: nodes[n].text
  }

  method LayOut(order: seq<Node>, nodes: map<Node, NodeInfo>, edges: seq<EdgeInfo>, tb: bool)
    returns (positions: map<Node, Box>, ghost a: Arrangement)
    requires WellFormedSpec(order, nodes, edges) && order != []
    ensures Ordered(order, PlainEdges(edges), a) && LaidOut(order, LabelsOf(nodes), tb, positions, a)
  {
    positions, a := Arrange(order, PlainEdges(edges), LabelsOf(nodes), tb);
  }

  ghost predicate Joined(order: seq<Node>, edges: seq<EdgeInfo>) {
    Distinct(order) && forall e :: e in edges ==> e.src in order && e.dst in order
  }

  ghost predicate WellFormedSpec(order: seq<Node>, nodes: map<Node, NodeInfo>, edges: seq<EdgeInfo>) {
    && Joined(order, edges)
    && nodes.Keys == NodeSet(order)
    && (forall n :: n in nodes ==> KnownShape(nodes[n].shape) && KnownColor(nodes[n].color))
  }

  lemma UpdateKeepsSpec(order: seq<Node>, nodes: map<Node, NodeInfo>, edges: seq<EdgeInfo>, nid: Node)
    requires WellFormedSpec(order, nodes, edges) && nid in nodes
    ensures KnownShape(nodes[nid].shape) && KnownColor(nodes[nid].color)
    ensures forall info: NodeInfo {:trigger nodes[nid := info]} :: KnownShape(info.shape) && KnownColor(info.color) ==>
      WellFormedSpec(order, nodes[nid := info], edges)
  {
    hide KnownShape, KnownColor;
  }

  function PlainEdges(edges: seq<EdgeInfo>): (r: seq<Edge>)
    ensures |r| == |edges| && forall i :: 0 <= i < |r| ==> r[i] == Edge(edges[i].src, edges[i].dst)
  {
    seq(|edges|, i requires 0 <= i < |edges| => Edge(edges[i].src, edges[i].dst))
  }

  // --------------------------------------------------------------------
  // Element ids
  // --------------------------------------------------------------------

  function Digit(d: nat): char
    requires d < 10
  {
    "0123456789"[d]
  }

  function Decimal(n: nat): (s: string)
    ensures |s| >= 1 && (|s| == 1 <==> n < 10)
  {
    if n < 10 then [Digit(n)] else Decimal(n / 10) + [Digit(n % 10)]
  }

  lemma {:induction false} DecimalInjective(a: nat, b: nat)
    requires Decimal(a) == Decimal(b)
    ensures a == b
  {
    if a >= 10 {
      var s, t := Decimal(a / 10), Decimal(b / 10);
      assert Decimal(a)[..|s|] == s && Decimal(b)[..|t|] == t;
      assert Decimal(a)[|s|] == Digit(a % 10) && Decimal(b)[|t|] == Digit(b % 10);
      DecimalInjective(a / 10, b / 10);
    }
  }

  /** Which part of the specification an element stands for. */
  datatype Origin = Title | ShapeOf(n: Node) | TextOf(n: Node) | ArrowOf(i: nat) | LabelOf(i: nat)

  function Id(o: Origin): string {
    match o
    case Title => "title"
    case ShapeOf(n) => "node:" + n
    case TextOf(n) => "text:" + n
    case ArrowOf(i) => "arrow:" + Decimal(i)
    case LabelOf(i) => "arrowlabel:" + Decimal(i)
  }

  lemma IdInjective(a: Origin, b: Origin)
    requires Id(a) == Id(b)
    ensures a == b
  {
    IdTag(a);
    IdTag(b);
    match a
    case Title =>
    case ShapeOf(n) => assert Id(a)[5..] == n && (b.ShapeOf? ==> Id(b)[5..] == b.n);
    case TextOf(n) => assert Id(a)[5..] == n && (b.TextOf? ==> Id(b)[5..] == b.n);
    case ArrowOf(i) =>
      assert Id(a)[6..] == Decimal(i) && (b.ArrowOf? ==> Id(b)[6..] == Decimal(b.i));
      if b.ArrowOf? { DecimalInjective(i, b.i); }
    case LabelOf(i) =>
      assert Id(a)[11..] == Decimal(i) && (b.LabelOf? ==> Id(b)[11..] == Decimal(b.i));
      if b.LabelOf? { DecimalInjective(i, b.i); }
  }

  lemma IdTag(o: Origin)
    ensures |Id(o)| >= 5
    ensures o.Title? <==> Id(o)[0] == 't' && Id(o)[1] == 'i'
    ensures o.TextOf? <==> Id(o)[0] == 't' && Id(o)[1] == 'e'
    ensures o.ShapeOf? <==> Id(o)[0] == 'n'
    ensures o.ArrowOf? <==> Id(o)[0] == 'a' && |Id(o)| >= 6 && Id(o)[5] == ':'
    ensures o.LabelOf? <==> Id(o)[0] == 'a' && |Id(o)| >= 6 && Id(o)[5] == 'l'
  {
  }

  // --------------------------------------------------------------------
  // Elements
  // --------------------------------------------------------------------

  datatype Ref = TextRef(id: string) | ArrowRef(id: string)

  datatype Place = BoxAt(box: Box) | ArrowAt(x: real, y: real, dx: real, dy: real) | Unplaced

  /** The load-critical part of an element. */
  datatype View = View(id: string, kind: string, place: Place, container: Option<string>,
                       start: Option<string>, end: Option<string>, bound: seq<Ref>)

  class Element {
    const id: string
    const kind: string
    const place: Place
    const container: Option<string>
    const start: Option<string>
    const end: Option<string>
    var bound: seq<Ref>

    constructor (id: string, kind: string, place: Place, container: Option<string>,
                 start: Option<string>, end: Option<string>, bound: seq<Ref>)
      ensures Shown() == View(id, kind, place, container, start, end, bound)
    {
      this.id, this.kind, this.place := id, kind, place;
      this.container, this.start, this.end, this.bound := container, start, end, bound;
    }

    function Shown(): View
      reads this
    {
      View(id, kind, place, container, start, end, bound)
    }
  }

  ghost predicate Shows(elements: seq<Element>, views: seq<View>)
    reads elements
  {
    |elements| == |views| && forall k :: 0 <= k < |views| ==> elements[k].Shown() == views[k]
  }

  // --------------------------------------------------------------------
  // What the scene is
  // --------------------------------------------------------------------

  /** References to the arrows among the first `upTo` edges that touch `n`. */
  function ArrowRefs(edges: seq<EdgeInfo>, n: Node, upTo: nat): seq<Ref>
  {
    if upTo == 0 then []
    else
      var e := EdgeAt(edges, upTo - 1);
      ArrowRefs(edges, n, upTo - 1) +
      (if !SelfLoop(e) && (e.src == n || e.dst == n) then [ArrowRef(Id(ArrowOf(upTo - 1)))] else [])
  }

  lemma {:induction false} ArrowRefsComplete(edges: seq<EdgeInfo>, n: Node, upTo: nat, i: nat)
    requires i < upTo && !SelfLoop(EdgeAt(edges, i)) && (EdgeAt(edges, i).src == n || EdgeAt(edges, i).dst == n)
    ensures ArrowRef(Id(ArrowOf(i))) in ArrowRefs(edges, n, upTo)
  {
    if i < upTo - 1 {
      ArrowRefsComplete(edges, n, upTo - 1, i);
    }
  }

  lemma {:induction false} ArrowRefsSound(edges: seq<EdgeInfo>, n: Node, upTo: nat, r: Ref)
    requires r in ArrowRefs(edges, n, upTo)
    ensures exists i: nat :: i < upTo && !SelfLoop(EdgeAt(edges, i)) && r == ArrowRef(Id(ArrowOf(i)))
  {
    if r in ArrowRefs(edges, n, upTo - 1) {
      ArrowRefsSound(edges, n, upTo - 1, r);
    }
  }

  /** From the middle of the source's far side to the middle of the target's near side. */
  function ArrowPlace(s: Box, t: Box, tb: bool): Place {
    var (ax, ay) := if tb then (s.x as real + s.w as real / 2.0, (s.y + s.h) as real)
                    else ((s.x + s.w) as real, s.y as real + s.h as real / 2.0);
    var (ex, ey) := if tb then (t.x as real + t.w as real / 2.0, t.y as real)
                    else (t.x as real, t.y as real + t.h as real / 2.0);
    ArrowAt(ax, ay, ex - ax, ey - ay)
  }

  // Look-ups with defaults; the defaults never show in the scene of a well-formed specification.

  function InfoOf(nodes: map<Node, NodeInfo>, n: Node): NodeInfo {
    if n in nodes then nodes[n] else NodeInfo(n, "rectangle", DEFAULT_COLOR)
  }

  function BoxOf(positions: map<Node, Box>, n: Node): Box {
    if n in positions then positions[n] else Box(0, 0, 0, 0)
  }

  function EdgeAt(edges: seq<EdgeInfo>, i: nat): EdgeInfo {
    if i < |edges| then edges[i] else EdgeInfo("", "", None)
  }

  /** An origin that the specification really has, counting the first `upTo` edges. */
  predicate Present(o: Origin, order: seq<Node>, edges: seq<EdgeInfo>, upTo: nat) {
    match o
    case Title => true
    case ShapeOf(n) => n in order
    case TextOf(n) => n in order
    case ArrowOf(i) => i < upTo && !SelfLoop(EdgeAt(edges, i))
    case LabelOf(i) => i < upTo && !SelfLoop(EdgeAt(edges, i)) && Labelled(EdgeAt(edges, i))
  }

  /** The element of an origin once the first `upTo` edges have been wired. */
  function ViewOf(o: Origin, nodes: map<Node, NodeInfo>, edges: seq<EdgeInfo>, upTo: nat,
                  positions: map<Node, Box>, tb: bool): View
  {
    match o
    case Title => View(Id(o), "text", Unplaced, None, None, None, [])
    case ShapeOf(n) =>
      View(Id(o), InfoOf(nodes, n).shape, BoxAt(BoxOf(positions, n)), None, None, None,
           [TextRef(Id(TextOf(n)))] + ArrowRefs(edges, n, upTo))
    case TextOf(n) => View(Id(o), "text", Unplaced, Some(Id(ShapeOf(n))), None, None, [])
    case ArrowOf(i) =>
      var e := EdgeAt(edges, i);
      View(Id(o), "arrow", ArrowPlace(BoxOf(positions, e.src), BoxOf(positions, e.dst), tb), None,
           Some(Id(ShapeOf(e.src))), Some(Id(ShapeOf(e.dst))),
           if Labelled(e) then [TextRef(Id(LabelOf(i)))] else [])
    case LabelOf(i) => View(Id(o), "text", Unplaced, Some(Id(ArrowOf(i))), None, None, [])
  }

  function NodeOrigins(order: seq<Node>): seq<Origin> {
    if order == [] then []
    else NodeOrigins(order[..|order| - 1]) + [ShapeOf(order[|order| - 1]), TextOf(order[|order| - 1])]
  }

  function ArrowOrigins(e: EdgeInfo, i: nat): seq<Origin> {
    if SelfLoop(e) then []
    else if Labelled(e) then [ArrowOf(i), LabelOf(i)] else [ArrowOf(i)]
  }

  function EdgeOrigins(edges: seq<EdgeInfo>, upTo: nat): seq<Origin> {
    if upTo == 0 then []
    else EdgeOrigins(edges, upTo - 1) + ArrowOrigins(EdgeAt(edges, upTo - 1), upTo - 1)
  }

  function HasTitle(title: Option<string>): bool {
    title.Some? && title.value != ""
  }

  function Body(order: seq<Node>, edges: seq<EdgeInfo>, upTo: nat): seq<Origin>
  {
    NodeOrigins(order) + EdgeOrigins(edges, upTo)
  }

  function Origins(order: seq<Node>, edges: seq<EdgeInfo>, title: Option<string>): seq<Origin> {
    if HasTitle(title) then [Title] + Body(order, edges, |edges|) else Body(order, edges, |edges|)
  }

  function ViewsOf(os: seq<Origin>, nodes: map<Node, NodeInfo>, edges: seq<EdgeInfo>, upTo: nat,
                   positions: map<Node, Box>, tb: bool): (vs: seq<View>)
    ensures |vs| == |os|
    ensures forall k :: 0 <= k < |os| ==> vs[k] == ViewOf(os[k], nodes, edges, upTo, positions, tb)
  {
    seq(|os|, k requires 0 <= k < |os| => ViewOf(os[k], nodes, edges, upTo, positions, tb))
  }

  /** Title, then each node's shape and text, then each arrow and its label. */
  function SceneOf(order: seq<Node>, nodes: map<Node, NodeInfo>, edges: seq<EdgeInfo>, title: Option<string>,
                   positions: map<Node, Box>, tb: bool): seq<View>
  {
    ViewsOf(Origins(order, edges, title), nodes, edges, |edges|, positions, tb)
  }

  lemma {:induction false} NodeOriginsExact(order: seq<Node>, o: Origin)
    ensures o in NodeOrigins(order) <==> (o.ShapeOf? || o.TextOf?) && o.n in order
  {
    if order == [] {
    } else {
      NodeOriginsExact(order[..|order| - 1], o);
      assert order == order[..|order| - 1] + [order[|order| - 1]];
    }
  }

  lemma {:induction false} EdgeOriginsExact(edges: seq<EdgeInfo>, upTo: nat, o: Origin)
    ensures o in EdgeOrigins(edges, upTo) <==>
      (o.ArrowOf? || o.LabelOf?) && o.i < upTo && !SelfLoop(EdgeAt(edges, o.i))
      && (o.LabelOf? ==> Labelled(EdgeAt(edges, o.i)))
  {
    if upTo == 0 {
    } else {
      EdgeOriginsExact(edges, upTo - 1, o);
    }
  }

  lemma OriginsPresent(order: seq<Node>, edges: seq<EdgeInfo>, title: Option<string>)
    ensures forall o :: o in Origins(order, edges, title) <==>
      Present(o, order, edges, |edges|) && (o.Title? ==> HasTitle(title))
  {
    forall o ensures o in Origins(order, edges, title) <==>
      Present(o, order, edges, |edges|) && (o.Title? ==> HasTitle(title))
    {
      NodeOriginsExact(order, o);
      EdgeOriginsExact(edges, |edges|, o);
    }
  }

  lemma {:induction false} NodeOriginsDistinct(order: seq<Node>)
    requires Distinct(order)
    ensures Distinct(NodeOrigins(order))
  {
    if order == [] {
    } else {
      var init, n := order[..|order| - 1], order[|order| - 1];
      NodeOriginsDistinct(init);
      NodeOriginsExact(init, ShapeOf(n));
      NodeOriginsExact(init, TextOf(n));
    }
  }

  lemma {:induction false} EdgeOriginsDistinct(edges: seq<EdgeInfo>, upTo: nat)
    ensures Distinct(EdgeOrigins(edges, upTo))
  {
    if upTo == 0 {
    } else {
      var rest, more := EdgeOrigins(edges, upTo - 1), ArrowOrigins(EdgeAt(edges, upTo - 1), upTo - 1);
      EdgeOriginsDistinct(edges, upTo - 1);
      EdgeOriginsExact(edges, upTo - 1, ArrowOf(upTo - 1));
      EdgeOriginsExact(edges, upTo - 1, LabelOf(upTo - 1));
      DisjointConcatDistinct(rest, more);
    }
  }

  lemma DisjointConcatDistinct(a: seq<Origin>, b: seq<Origin>)
    requires Distinct(a) && Distinct(b) && forall o :: !(o in a && o in b)
    ensures Distinct(a + b)
  {
    var c := a + b;
    forall i, j | 0 <= i < j < |c| ensures c[i] != c[j] {
      if i < |a| <= j {
        assert a[i] in a && b[j - |a|] in b;
      }
    }
  }

  lemma OriginsDistinct(order: seq<Node>, edges: seq<EdgeInfo>, title: Option<string>)
    requires Distinct(order)
    ensures Distinct(Origins(order, edges, title))
  {
    BodyOriginsDistinct(order, edges, |edges|);
    NodeOriginsExact(order, Title);
    EdgeOriginsExact(edges, |edges|, Title);
  }

  // --------------------------------------------------------------------
  // Assembly
  // --------------------------------------------------------------------

  /** The index finds every node's shape, which is every other element from the first. */
  ghost predicate ShapesIndexed(byId: map<string, Element>, elements: seq<Element>, order: seq<Node>) {
    2 * |order| <= |elements| && forall j :: 0 <= j < |order| ==> ShapeIndexed(byId, elements, order[j], 2 * j)
  }

  ghost predicate ShapeIndexed(byId: map<string, Element>, elements: seq<Element>, n: Node, k: nat)
    requires k < |elements|
  {
    Id(ShapeOf(n)) in byId && byId[Id(ShapeOf(n))] == elements[k]
  }

  lemma {:induction false} NodeOriginsIndex(order: seq<Node>, j: nat)
    requires j < |order|
    ensures |NodeOrigins(order)| == 2 * |order| && NodeOrigins(order)[2 * j] == ShapeOf(order[j])
  {
    if |order| > 1 {
      NodeOriginsIndex(order[..|order| - 1], if j < |order| - 1 then j else 0);
    }
  }

  lemma BodyIndex(order: seq<Node>, edges: seq<EdgeInfo>, upTo: nat, j: nat)
    requires j < |order|
    ensures 2 * j < |Body(order, edges, upTo)| && Body(order, edges, upTo)[2 * j] == ShapeOf(order[j])
  {
    NodeOriginsIndex(order, j);
  }

  function AppendRef(v: View, r: Ref): View {
    v.(bound := v.bound + [r])
  }

  /** Wiring one more edge appends its arrow to exactly the two shapes it joins. */
  lemma ViewAfterEdge(o: Origin, order: seq<Node>, nodes: map<Node, NodeInfo>, edges: seq<EdgeInfo>, i: nat,
                      positions: map<Node, Box>, tb: bool)
    ensures var e := EdgeAt(edges, i);
      var before := ViewOf(o, nodes, edges, i, positions, tb);
      ViewOf(o, nodes, edges, i + 1, positions, tb)
      == if !SelfLoop(e) && (o == ShapeOf(e.src) || o == ShapeOf(e.dst))
         then AppendRef(before, ArrowRef(Id(ArrowOf(i)))) else before
  {
    if o.ShapeOf? {
      var refs := ArrowRefs(edges, o.n, i);
      var more: seq<Ref> := [ArrowRef(Id(ArrowOf(i)))];
      assert [TextRef(Id(TextOf(o.n)))] + (refs + more) == ([TextRef(Id(TextOf(o.n)))] + refs) + more;
      assert refs + [] == refs;
    }
  }

  function ArrowViews(e: EdgeInfo, i: nat, place: Place): seq<View> {
    var arrow := View(Id(ArrowOf(i)), "arrow", place, None, Some(Id(ShapeOf(e.src))), Some(Id(ShapeOf(e.dst))), []);
    if Labelled(e) then
      [AppendRef(arrow, TextRef(Id(LabelOf(i)))),
       View(Id(LabelOf(i)), "text", Unplaced, Some(Id(ArrowOf(i))), None, None, [])]
    else [arrow]
  }

  function PlaceOfEdge(e: EdgeInfo, positions: map<Node, Box>, tb: bool): Place {
    ArrowPlace(BoxOf(positions, e.src), BoxOf(positions, e.dst), tb)
  }

  /** `vs` once the arrow of edge `i` has been appended to the shapes at `ks` and `kd` and to the list. */
  function WiredViews(vs: seq<View>, e: EdgeInfo, i: nat, place: Place, ks: nat, kd: nat): seq<View>
    requires ks < |vs| && kd < |vs|
  {
    var r := ArrowRef(Id(ArrowOf(i)));
    vs[ks := AppendRef(vs[ks], r)][kd := AppendRef(vs[kd], r)] + ArrowViews(e, i, place)
  }

  /** The views after edge `i`: two shapes gain a reference and the arrow's own elements follow. */
  lemma ViewsAfterEdge(os: seq<Origin>, order: seq<Node>, nodes: map<Node, NodeInfo>, edges: seq<EdgeInfo>, i: nat,
                       positions: map<Node, Box>, tb: bool, ks: nat, kd: nat)
    requires i < |edges| && !SelfLoop(edges[i]) && Distinct(os)
    requires ks < |os| && kd < |os| && os[ks] == ShapeOf(edges[i].src) && os[kd] == ShapeOf(edges[i].dst)
    ensures ViewsOf(os + ArrowOrigins(edges[i], i), nodes, edges, i + 1, positions, tb)
         == WiredViews(ViewsOf(os, nodes, edges, i, positions, tb), edges[i], i, PlaceOfEdge(edges[i], positions, tb), ks, kd)
  {
    var e := edges[i];
    var os' := os + ArrowOrigins(e, i);
    var before := ViewsOf(os, nodes, edges, i, positions, tb);
    var after := ViewsOf(os', nodes, edges, i + 1, positions, tb);
    var wired := WiredViews(before, e, i, PlaceOfEdge(e, positions, tb), ks, kd);
    forall k | 0 <= k < |os'| ensures after[k] == wired[k] {
      if k < |os| {
        assert os'[k] == os[k];
        ViewAfterEdge(os[k], order, nodes, edges, i, positions, tb);
      }
    }
  }

  lemma ViewsAfterSelfLoop(os: seq<Origin>, order: seq<Node>, nodes: map<Node, NodeInfo>, edges: seq<EdgeInfo>, i: nat,
                           positions: map<Node, Box>, tb: bool)
    requires i < |edges| && SelfLoop(edges[i])
    ensures ViewsOf(os, nodes, edges, i + 1, positions, tb) == ViewsOf(os, nodes, edges, i, positions, tb)
  {
    forall k | 0 <= k < |os|
      ensures ViewOf(os[k], nodes, edges, i + 1, positions, tb) == ViewOf(os[k], nodes, edges, i, positions, tb)
    {
      ViewAfterEdge(os[k], order, nodes, edges, i, positions, tb);
    }
  }

  /** One node's shape and its text, both sides of the link at once. */
  method AddShape(n: Node, info: NodeInfo, box: Box) returns (shape: Element, caption: Element)
    ensures fresh(shape) && fresh(caption) && shape != caption
    ensures shape.Shown() == View(Id(ShapeOf(n)), info.shape, BoxAt(box), None, None, None, [TextRef(Id(TextOf(n)))])
    ensures caption.Shown() == View(Id(TextOf(n)), "text", Unplaced, Some(Id(ShapeOf(n))), None, None, [])
  {
    shape := new Element(Id(ShapeOf(n)), info.shape, BoxAt(box), None, None, None, [TextRef(Id(TextOf(n)))]);
    caption := new Element(Id(TextOf(n)), "text", Unplaced, Some(Id(ShapeOf(n))), None, None, []);
  }

  lemma EmptyIndex()
    ensures ShapesIndexed(map[], [], [])
  {
  }

  lemma IndexOneMore(byId: map<string, Element>, elements: seq<Element>, order: seq<Node>, n: Node,
                     shape: Element, caption: Element)
    requires ShapesIndexed(byId, elements, order) && |elements| == 2 * |order| && n !in order
    ensures ShapesIndexed(byId[Id(ShapeOf(n)) := shape], elements + [shape, caption], order + [n])
  {
    var byId', els', order' := byId[Id(ShapeOf(n)) := shape], elements + [shape, caption], order + [n];
    forall j | 0 <= j < |order'| ensures ShapeIndexed(byId', els', order'[j], 2 * j) {
      if j < |order| {
        var m := order[j];
        assert order'[j] == m && ShapeIndexed(byId, elements, m, 2 * j);
        assert Id(ShapeOf(m))[5..] == m && Id(ShapeOf(n))[5..] == n;
      }
    }
  }

  method AddShapes(order: seq<Node>, nodes: map<Node, NodeInfo>, positions: map<Node, Box>)
    returns (elements: seq<Element>, byId: map<string, Element>)
    requires nodes.Keys == positions.Keys == NodeSet(order) && Distinct(order)
    ensures (forall k :: 0 <= k < |elements| ==> fresh(elements[k])) && Distinct(elements)
    ensures Shows(elements, NodeViews(order, nodes, positions))
    ensures ShapesIndexed(byId, elements, order)
  {
    hide Id, ShapesIndexed;
    elements, byId := [], map[];
    EmptyIndex();
    for i := 0 to |order|
      invariant (forall k :: 0 <= k < |elements| ==> fresh(elements[k])) && Distinct(elements)
      invariant Shows(elements, NodeViews(order[..i], nodes, positions))
      invariant |elements| == 2 * i && ShapesIndexed(byId, elements, order[..i])
    {
      var n := order[i];
      assert order[..i + 1] == order[..i] + [n];
      assert order[..i + 1][..i] == order[..i];
      var shape, caption := AddShape(n, nodes[n], positions[n]);
      IndexOneMore(byId, elements, order[..i], n, shape, caption);
      elements := elements + [shape, caption];
      byId := byId[Id(ShapeOf(n)) := shape];
    }
    assert order[..|order|] == order;
  }

  /** The views of the shapes and texts before any arrow is wired. */
  function NodeViews(order: seq<Node>, nodes: map<Node, NodeInfo>, positions: map<Node, Box>): (vs: seq<View>)
    ensures |vs| == |NodeOrigins(order)|
  {
    if order == [] then []
    else
      var n := order[|order| - 1];
      NodeViews(order[..|order| - 1], nodes, positions)
      + [View(Id(ShapeOf(n)), InfoOf(nodes, n).shape, BoxAt(BoxOf(positions, n)), None, None, None, [TextRef(Id(TextOf(n)))]),
         View(Id(TextOf(n)), "text", Unplaced, Some(Id(ShapeOf(n))), None, None, [])]
  }

  lemma {:induction false} NodeViewsAreViews(order: seq<Node>, nodes: map<Node, NodeInfo>,
                                             edges: seq<EdgeInfo>, positions: map<Node, Box>, tb: bool)
    ensures NodeViews(order, nodes, positions) == ViewsOf(NodeOrigins(order), nodes, edges, 0, positions, tb)
  {
    if order == [] {
    } else {
      NodeViewsAreViews(order[..|order| - 1], nodes, edges, positions, tb);
      var n := order[|order| - 1];
      assert [TextRef(Id(TextOf(n)))] + ArrowRefs(edges, n, 0) == [TextRef(Id(TextOf(n)))];
    }
  }

  /** Lists the arrow on both shapes, in place. */
  method ReferArrow(r: Ref, src: Element, dst: Element, elements: seq<Element>, ghost vs: seq<View>, ghost ks: nat, ghost kd: nat)
    requires Distinct(elements) && Shows(elements, vs)
    requires ks < |elements| && kd < |elements| && ks != kd && elements[ks] == src && elements[kd] == dst
    modifies src`bound, dst`bound
    ensures Shows(elements, vs[ks := AppendRef(vs[ks], r)][kd := AppendRef(vs[kd], r)])
  {
    assert src.Shown() == vs[ks] && dst.Shown() == vs[kd];
    src.bound := src.bound + [r];
    dst.bound := dst.bound + [r];
    ghost var wired := vs[ks := AppendRef(vs[ks], r)][kd := AppendRef(vs[kd], r)];
    forall k | 0 <= k < |wired| ensures elements[k].Shown() == wired[k] {
      assert k != ks ==> elements[k] != src;
      assert k != kd ==> elements[k] != dst;
    }
  }

  /** The arrow, and its label if it has one, bound to each other. */
  method DrawArrow(i: nat, e: EdgeInfo, place: Place) returns (drawn: seq<Element>)
    ensures Distinct(drawn) && Shows(drawn, ArrowViews(e, i, place))
    ensures forall k :: 0 <= k < |drawn| ==> fresh(drawn[k])
  {
    hide Id;
    var arrow := new Element(Id(ArrowOf(i)), "arrow", place, None,
                             Some(Id(ShapeOf(e.src))), Some(Id(ShapeOf(e.dst))), []);
    drawn := [arrow];
    if Labelled(e) {
      var caption := new Element(Id(LabelOf(i)), "text", Unplaced, Some(Id(ArrowOf(i))), None, None, []);
      arrow.bound := arrow.bound + [TextRef(Id(LabelOf(i)))];
      drawn := drawn + [caption];
    }
  }

  /** Adds one edge's arrow, its references on both shapes in place, and its label. */
  method AddArrow(i: nat, e: EdgeInfo, src: Element, dst: Element, place: Place, elements0: seq<Element>,
                  ghost vs: seq<View>, ghost ks: nat, ghost kd: nat)
    returns (elements: seq<Element>)
    requires Distinct(elements0) && Shows(elements0, vs)
    requires ks < |elements0| && kd < |elements0| && ks != kd && elements0[ks] == src && elements0[kd] == dst
    modifies src`bound, dst`bound
    ensures elements0 <= elements && forall k :: |elements0| <= k < |elements| ==> fresh(elements[k])
    ensures Distinct(elements) && Shows(elements, WiredViews(vs, e, i, place, ks, kd))
  {
    hide Id, ArrowViews, AppendRef;
    ReferArrow(ArrowRef(Id(ArrowOf(i))), src, dst, elements0, vs, ks, kd);
    var drawn := DrawArrow(i, e, place);
    elements := elements0 + drawn;
  }

  /** The whole scene, element by element, as its specification says. */
  method BuildScene(order: seq<Node>, nodes: map<Node, NodeInfo>, edges: seq<EdgeInfo>, title: Option<string>,
                    positions: map<Node, Box>, tb: bool)
    returns (elements: seq<Element>)
    requires WellFormedSpec(order, nodes, edges) && positions.Keys == NodeSet(order)
    ensures forall k :: 0 <= k < |elements| ==> fresh(elements[k])
    ensures Shows(elements, SceneOf(order, nodes, edges, title, positions, tb))
    ensures Draws(ViewsIn(elements), order, nodes, edges, title, positions, tb)
  {
    hide SceneOf, BodyViews, KnownShape, KnownColor, Shows, Id, Draws, HasTitle;
    elements := BuildBody(order, nodes, edges, positions, tb);
    if HasTitle(title) {
      var heading := new Element(Id(Title), "text", Unplaced, None, None, None, []);
      PrependShows(heading, elements, BodyViews(order, nodes, edges, |edges|, positions, tb));
      elements := [heading] + elements;
    }
    TitleComesFirst(order, nodes, edges, title, positions, tb);
    SceneDraws(order, nodes, edges, title, positions, tb);
    ShowsOnlyItsViews(elements, SceneOf(order, nodes, edges, title, positions, tb));
  }

  lemma ShowsOnlyItsViews(elements: seq<Element>, views: seq<View>)
    requires Shows(elements, views)
    ensures ViewsIn(elements) == views
  {
  }

  lemma PrependShows(first: Element, elements: seq<Element>, views: seq<View>)
    requires Shows(elements, views)
    ensures Shows([first] + elements, [first.Shown()] + views)
  {
  }

  lemma TitleComesFirst(order: seq<Node>, nodes: map<Node, NodeInfo>, edges: seq<EdgeInfo>, title: Option<string>,
                        positions: map<Node, Box>, tb: bool)
    ensures var scene, body := SceneOf(order, nodes, edges, title, positions, tb), BodyViews(order, nodes, edges, |edges|, positions, tb);
      scene == if HasTitle(title) then [View(Id(Title), "text", Unplaced, None, None, None, [])] + body else body
  {
    hide ArrowRefs, Id, NodeOrigins, EdgeOrigins;
    var os := Origins(order, edges, title);
    assert HasTitle(title) ==> os[1..] == Body(order, edges, |edges|);
  }

  method BuildBody(order: seq<Node>, nodes: map<Node, NodeInfo>, edges: seq<EdgeInfo>,
                   positions: map<Node, Box>, tb: bool)
    returns (elements: seq<Element>)
    requires Distinct(order) && Joined(order, edges) && nodes.Keys == positions.Keys == NodeSet(order)
    ensures forall k :: 0 <= k < |elements| ==> fresh(elements[k])
    ensures Shows(elements, BodyViews(order, nodes, edges, |edges|, positions, tb))
  {
    hide *;
    var byId;
    elements, byId := AddShapes(order, nodes, positions);
    NothingWired(elements, byId, order, nodes, edges, positions, tb);
    for i := 0 to |edges|
      invariant forall k :: 0 <= k < |elements| ==> fresh(elements[k])
      invariant BodyBuilt(elements, byId, order, nodes, edges, i, positions, tb)
    {
      elements := WireEdge(i, elements, byId, order, nodes, edges, positions, tb);
    }
    BuiltBodyShows(elements, byId, order, nodes, edges, |edges|, positions, tb);
  }

  /** Shapes and texts are in place, and the first `upTo` edges are wired. */
  ghost predicate BodyBuilt(elements: seq<Element>, byId: map<string, Element>, order: seq<Node>,
                            nodes: map<Node, NodeInfo>, edges: seq<EdgeInfo>, upTo: nat,
                            positions: map<Node, Box>, tb: bool)
    reads elements
  {
    && Distinct(elements) && Shows(elements, BodyViews(order, nodes, edges, upTo, positions, tb))
    && ShapesIndexed(byId, elements, order)
  }

  lemma BuiltBodyShows(elements: seq<Element>, byId: map<string, Element>, order: seq<Node>,
                       nodes: map<Node, NodeInfo>, edges: seq<EdgeInfo>, upTo: nat, positions: map<Node, Box>, tb: bool)
    ensures BodyBuilt(elements, byId, order, nodes, edges, upTo, positions, tb)
      ==> Shows(elements, BodyViews(order, nodes, edges, upTo, positions, tb))
  {
  }

  lemma NothingWired(elements: seq<Element>, byId: map<string, Element>, order: seq<Node>,
                     nodes: map<Node, NodeInfo>, edges: seq<EdgeInfo>, positions: map<Node, Box>, tb: bool)
    requires Distinct(elements) && Shows(elements, NodeViews(order, nodes, positions))
    requires ShapesIndexed(byId, elements, order)
    ensures BodyBuilt(elements, byId, order, nodes, edges, 0, positions, tb)
  {
    BodyStart(order, nodes, edges, positions, tb);
  }

  method WireEdge(i: nat, elements0: seq<Element>, byId: map<string, Element>, order: seq<Node>,
                  nodes: map<Node, NodeInfo>, edges: seq<EdgeInfo>, positions: map<Node, Box>, tb: bool)
    returns (elements: seq<Element>)
    requires Joined(order, edges) && nodes.Keys == positions.Keys == NodeSet(order) && i < |edges|
    requires BodyBuilt(elements0, byId, order, nodes, edges, i, positions, tb)
    modifies elements0
    ensures elements0 <= elements && forall k :: |elements0| <= k < |elements| ==> fresh(elements[k])
    ensures BodyBuilt(elements, byId, order, nodes, edges, i + 1, positions, tb)
  {
    hide Id, Distinct, Body, BodyViews, WiredViews, Shows;
    var e := edges[i];
    assert e in edges;
    if SelfLoop(e) {
      BodyAfterSelfLoop(order, nodes, edges, i, positions, tb);
      return elements0;
    }
    ghost var js :| 0 <= js < |order| && order[js] == e.src;
    ghost var jd :| 0 <= jd < |order| && order[jd] == e.dst;
    assert ShapeIndexed(byId, elements0, e.src, 2 * js) && ShapeIndexed(byId, elements0, e.dst, 2 * jd);
    BodyIndex(order, edges, i, js);
    BodyIndex(order, edges, i, jd);
    BodyAfterEdge(order, nodes, edges, i, positions, tb, 2 * js, 2 * jd);
    elements := AddArrow(i, e, byId[Id(ShapeOf(e.src))], byId[Id(ShapeOf(e.dst))],
                         PlaceOfEdge(e, positions, tb), elements0,
                         BodyViews(order, nodes, edges, i, positions, tb), 2 * js, 2 * jd);
  }

  function BodyViews(order: seq<Node>, nodes: map<Node, NodeInfo>, edges: seq<EdgeInfo>, upTo: nat,
                     positions: map<Node, Box>, tb: bool): (vs: seq<View>)
    ensures |vs| == |Body(order, edges, upTo)|
  {
    ViewsOf(Body(order, edges, upTo), nodes, edges, upTo, positions, tb)
  }

  lemma BodyStart(order: seq<Node>, nodes: map<Node, NodeInfo>, edges: seq<EdgeInfo>,
                  positions: map<Node, Box>, tb: bool)
    ensures NodeViews(order, nodes, positions) == BodyViews(order, nodes, edges, 0, positions, tb)
    ensures Body(order, edges, 0) == NodeOrigins(order)
  {
    NodeViewsAreViews(order, nodes, edges, positions, tb);
    assert NodeOrigins(order) + EdgeOrigins(edges, 0) == NodeOrigins(order);
  }

  lemma BodyAfterSelfLoop(order: seq<Node>, nodes: map<Node, NodeInfo>, edges: seq<EdgeInfo>, i: nat,
                          positions: map<Node, Box>, tb: bool)
    requires i < |edges| && SelfLoop(edges[i])
    ensures Body(order, edges, i + 1) == Body(order, edges, i)
    ensures BodyViews(order, nodes, edges, i + 1, positions, tb) == BodyViews(order, nodes, edges, i, positions, tb)
  {
    assert EdgeOrigins(edges, i + 1) == EdgeOrigins(edges, i);
    ViewsAfterSelfLoop(Body(order, edges, i), order, nodes, edges, i, positions, tb);
  }

  lemma BodyAfterEdge(order: seq<Node>, nodes: map<Node, NodeInfo>, edges: seq<EdgeInfo>, i: nat,
                      positions: map<Node, Box>, tb: bool, ks: nat, kd: nat)
    requires Distinct(order) && i < |edges| && !SelfLoop(edges[i])
    requires var os := Body(order, edges, i);
      ks < |os| && kd < |os| && os[ks] == ShapeOf(edges[i].src) && os[kd] == ShapeOf(edges[i].dst)
    ensures ks != kd && Body(order, edges, i) <= Body(order, edges, i + 1)
    ensures BodyViews(order, nodes, edges, i + 1, positions, tb)
         == WiredViews(BodyViews(order, nodes, edges, i, positions, tb), edges[i], i,
                       PlaceOfEdge(edges[i], positions, tb), ks, kd)
  {
    BodyOriginsDistinct(order, edges, i);
    assert Body(order, edges, i + 1) == Body(order, edges, i) + ArrowOrigins(edges[i], i);
    ViewsAfterEdge(Body(order, edges, i), order, nodes, edges, i, positions, tb, ks, kd);
  }

  lemma BodyOriginsDistinct(order: seq<Node>, edges: seq<EdgeInfo>, upTo: nat)
    requires Distinct(order)
    ensures Distinct(Body(order, edges, upTo))
  {
    var a, b := NodeOrigins(order), EdgeOrigins(edges, upTo);
    NodeOriginsDistinct(order);
    EdgeOriginsDistinct(edges, upTo);
    forall o ensures !(o in a && o in b) {
      NodeOriginsExact(order, o);
      EdgeOriginsExact(edges, upTo, o);
    }
    DisjointConcatDistinct(a, b);
  }

  // --------------------------------------------------------------------
  // Validation
  // --------------------------------------------------------------------

  /** Some element has this id and lists `el` among its bound elements. */
  ghost predicate BackReferenced(views: seq<View>, target: string, el: string) {
    exists k :: 0 <= k < |views| && views[k].id == target && exists r :: r in views[k].bound && r.id == el
  }

  ghost predicate Resolves(views: seq<View>, id: string) {
    exists k :: 0 <= k < |views| && views[k].id == id
  }

  ghost predicate WellBound(views: seq<View>, v: View) {
    && (v.kind == "text" && v.container.Some? && v.container.value != "" ==>
          BackReferenced(views, v.container.value, v.id))
    && (v.kind == "arrow" && v.start.Some? ==> BackReferenced(views, v.start.value, v.id))
    && (v.kind == "arrow" && v.end.Some? ==> BackReferenced(views, v.end.value, v.id))
    && (forall r :: r in v.bound ==> Resolves(views, r.id))
  }

  ghost predicate UniqueIds(views: seq<View>) {
    forall i, j :: 0 <= i < j < |views| ==> views[i].id != views[j].id
  }

  /** Every invariant an .excalidraw file must satisfy to load. */
  ghost predicate ValidScene(views: seq<View>) {
    UniqueIds(views) && forall k :: 0 <= k < |views| ==> WellBound(views, views[k])
  }

  /** Two-sided wiring holds for every specification. */
  lemma SceneIsValid(order: seq<Node>, nodes: map<Node, NodeInfo>, edges: seq<EdgeInfo>, title: Option<string>,
                     positions: map<Node, Box>, tb: bool)
    requires WellFormedSpec(order, nodes, edges)
    ensures ValidScene(SceneOf(order, nodes, edges, title, positions, tb))
  {
    hide Id, Distinct, Origins, WellBound;
    var os := Origins(order, edges, title);
    OriginsPresent(order, edges, title);
    OriginsDistinct(order, edges, title);
    var views := SceneOf(order, nodes, edges, title, positions, tb);
    forall i, j | 0 <= i < j < |views| ensures views[i].id != views[j].id {
      if views[i].id == views[j].id { IdInjective(os[i], os[j]); }
    }
    forall k | 0 <= k < |views| ensures WellBound(views, views[k]) {
      match os[k]
      case Title => TitleIsWellBound(views, nodes, edges, positions, tb);
      case ShapeOf(n) => NodeIsWellBound(order, nodes, edges, title, positions, tb, n);
      case TextOf(n) => NodeIsWellBound(order, nodes, edges, title, positions, tb, n);
      case ArrowOf(i) => ArrowIsWellBound(order, nodes, edges, title, positions, tb, i);
      case LabelOf(i) => ArrowIsWellBound(order, nodes, edges, title, positions, tb, i);
    }
  }

  /** An origin's element can be found by its id. */
  lemma FindView(order: seq<Node>, nodes: map<Node, NodeInfo>, edges: seq<EdgeInfo>, title: Option<string>,
                 positions: map<Node, Box>, tb: bool, o: Origin) returns (k: nat)
    requires Present(o, order, edges, |edges|) && (o.Title? ==> HasTitle(title))
    ensures var views := SceneOf(order, nodes, edges, title, positions, tb);
      k < |views| && views[k].id == Id(o)
      && views[k] == ViewOf(o, nodes, edges, |edges|, positions, tb)
  {
    OriginsPresent(order, edges, title);
    k :| 0 <= k < |Origins(order, edges, title)| && Origins(order, edges, title)[k] == o;
  }

  lemma TitleIsWellBound(views: seq<View>, nodes: map<Node, NodeInfo>, edges: seq<EdgeInfo>,
                         positions: map<Node, Box>, tb: bool)
    ensures WellBound(views, ViewOf(Title, nodes, edges, |edges|, positions, tb))
  {
  }

  /** The shape lists its text and every arrow; the text names the shape. */
  lemma NodeIsWellBound(order: seq<Node>, nodes: map<Node, NodeInfo>, edges: seq<EdgeInfo>, title: Option<string>,
                        positions: map<Node, Box>, tb: bool, n: Node)
    requires WellFormedSpec(order, nodes, edges) && n in order
    ensures var views := SceneOf(order, nodes, edges, title, positions, tb);
      && WellBound(views, ViewOf(ShapeOf(n), nodes, edges, |edges|, positions, tb))
      && WellBound(views, ViewOf(TextOf(n), nodes, edges, |edges|, positions, tb))
  {
    var views := SceneOf(order, nodes, edges, title, positions, tb);
    var shape := ViewOf(ShapeOf(n), nodes, edges, |edges|, positions, tb);
    var t := FindView(order, nodes, edges, title, positions, tb, TextOf(n));
    forall r | r in shape.bound ensures Resolves(views, r.id) {
      if r in ArrowRefs(edges, n, |edges|) {
        ArrowRefsSound(edges, n, |edges|, r);
        var i: nat :| i < |edges| && !SelfLoop(EdgeAt(edges, i)) && r == ArrowRef(Id(ArrowOf(i)));
        var k := FindView(order, nodes, edges, title, positions, tb, ArrowOf(i));
      }
    }
    var k := FindView(order, nodes, edges, title, positions, tb, ShapeOf(n));
    assert views[k].bound[0] == TextRef(Id(TextOf(n)));
  }

  /** A shape lists every arrow at it. */
  lemma ShapeListsArrow(order: seq<Node>, nodes: map<Node, NodeInfo>, edges: seq<EdgeInfo>, title: Option<string>,
                        positions: map<Node, Box>, tb: bool, n: Node, i: nat)
    requires i < |edges| && !SelfLoop(edges[i]) && n in {edges[i].src, edges[i].dst} && n in order
    ensures BackReferenced(SceneOf(order, nodes, edges, title, positions, tb), Id(ShapeOf(n)), Id(ArrowOf(i)))
  {
    hide Id, SceneOf, ArrowRefs;
    assert EdgeAt(edges, i) == edges[i];
    ArrowRefsComplete(edges, n, |edges|, i);
    var k := FindView(order, nodes, edges, title, positions, tb, ShapeOf(n));
    var r := ArrowRef(Id(ArrowOf(i)));
    assert r in SceneOf(order, nodes, edges, title, positions, tb)[k].bound && r.id == Id(ArrowOf(i));
  }

  /** A labelled arrow lists its label, which is there. */
  lemma ArrowListsLabel(order: seq<Node>, nodes: map<Node, NodeInfo>, edges: seq<EdgeInfo>, title: Option<string>,
                        positions: map<Node, Box>, tb: bool, i: nat)
    requires i < |edges| && !SelfLoop(edges[i]) && Labelled(edges[i])
    ensures var views := SceneOf(order, nodes, edges, title, positions, tb);
      BackReferenced(views, Id(ArrowOf(i)), Id(LabelOf(i))) && Resolves(views, Id(LabelOf(i)))
  {
    hide Id, SceneOf;
    assert EdgeAt(edges, i) == edges[i];
    var k := FindView(order, nodes, edges, title, positions, tb, LabelOf(i));
    var a := FindView(order, nodes, edges, title, positions, tb, ArrowOf(i));
    assert SceneOf(order, nodes, edges, title, positions, tb)[a].bound[0] == TextRef(Id(LabelOf(i)));
  }

  /** The arrow names two shapes that list it, and lists the label that names it. */
  lemma ArrowIsWellBound(order: seq<Node>, nodes: map<Node, NodeInfo>, edges: seq<EdgeInfo>, title: Option<string>,
                         positions: map<Node, Box>, tb: bool, i: nat)
    requires WellFormedSpec(order, nodes, edges) && i < |edges| && !SelfLoop(edges[i])
    ensures var views := SceneOf(order, nodes, edges, title, positions, tb);
      && WellBound(views, ViewOf(ArrowOf(i), nodes, edges, |edges|, positions, tb))
      && (Labelled(edges[i]) ==> WellBound(views, ViewOf(LabelOf(i), nodes, edges, |edges|, positions, tb)))
  {
    hide BackReferenced, Resolves, Id, SceneOf, ArrowPlace;
    var e := edges[i];
    assert e in edges && EdgeAt(edges, i) == e;
    ShapeListsArrow(order, nodes, edges, title, positions, tb, e.src, i);
    ShapeListsArrow(order, nodes, edges, title, positions, tb, e.dst, i);
    if Labelled(e) {
      ArrowListsLabel(order, nodes, edges, title, positions, tb, i);
    }
  }

  /** Along an edge that the layout runs forward, the arrow spans the gap between the two boxes. */
  lemma ArrowSpansGap(s: Box, t: Box, tb: bool)
    requires BoxFlow(t, tb) >= FlowEnd(s, tb) + V_GAP - 1
    ensures var a := ArrowPlace(s, t, tb);
      && (tb ==> a.y == FlowEnd(s, tb) as real && a.y + a.dy == BoxFlow(t, tb) as real && a.dy >= 89.0)
      && (!tb ==> a.x == FlowEnd(s, tb) as real && a.x + a.dx == BoxFlow(t, tb) as real && a.dx >= 89.0)
  {
    var a := ArrowPlace(s, t, tb);
    assert (BoxFlow(t, tb) - FlowEnd(s, tb)) as real >= 89.0;
  }

  /** The arrow leads forward along the flow axis by the width of a gap. */
  predicate SpansGap(p: Place, tb: bool) {
    p.ArrowAt? && (if tb then p.dy >= 89.0 else p.dx >= 89.0)
  }

  /** The arrow of every edge in `dag` is among the views and spans a gap. */
  ghost predicate KeptArrowsSpan(views: seq<View>, edges: seq<EdgeInfo>, dag: set<Edge>, tb: bool) {
    forall i: nat :: i < |edges| && Edge(edges[i].src, edges[i].dst) in dag ==> ArrowSpans(views, i, tb)
  }

  ghost predicate ArrowSpans(views: seq<View>, i: nat, tb: bool) {
    exists k :: 0 <= k < |views| && views[k].id == Id(ArrowOf(i)) && SpansGap(views[k].place, tb)
  }

  /** In the scene of a layout that runs its kept edges forward, their arrows span the gaps. */
  lemma KeptArrowsSpanGap(order: seq<Node>, nodes: map<Node, NodeInfo>, edges: seq<EdgeInfo>, title: Option<string>,
                          positions: map<Node, Box>, tb: bool, a: Arrangement)
    requires Ordered(order, PlainEdges(edges), a) && LaidOut(order, LabelsOf(nodes), tb, positions, a)
    ensures KeptArrowsSpan(SceneOf(order, nodes, edges, title, positions, tb), edges, a.dag, tb)
  {
    hide BoxesFit, LayersApart, LayersClose, RowsLaidOut, RowsCentred, LongestWalkTo, Acyclic,
      Reaches, SceneOf, ArrowSpans;
    forall i: nat | i < |edges| && Edge(edges[i].src, edges[i].dst) in a.dag
      ensures ArrowSpans(SceneOf(order, nodes, edges, title, positions, tb), i, tb)
    {
      OneArrowSpans(order, nodes, edges, title, positions, tb, i);
    }
  }

  lemma OneArrowSpans(order: seq<Node>, nodes: map<Node, NodeInfo>, edges: seq<EdgeInfo>, title: Option<string>,
                      positions: map<Node, Box>, tb: bool, i: nat)
    requires i < |edges| && !SelfLoop(edges[i]) && edges[i].src in positions && edges[i].dst in positions
    requires BoxFlow(positions[edges[i].dst], tb) >= FlowEnd(positions[edges[i].src], tb) + V_GAP - 1
    ensures ArrowSpans(SceneOf(order, nodes, edges, title, positions, tb), i, tb)
  {
    hide Id, SceneOf;
    var k := FindView(order, nodes, edges, title, positions, tb, ArrowOf(i));
    ArrowSpansGap(positions[edges[i].src], positions[edges[i].dst], tb);
  }

  // --------------------------------------------------------------------
  // What is drawn, said of the boxes
  // --------------------------------------------------------------------

  /** The place runs from the middle of the source box's far side to the middle of the target box's near side. */
  predicate JoinsSides(p: Place, s: Box, t: Box, tb: bool) {
    p.ArrowAt?
    && if tb then
         && 2.0 * p.x == (2 * s.x + s.w) as real && p.y == (s.y + s.h) as real
         && 2.0 * (p.x + p.dx) == (2 * t.x + t.w) as real && p.y + p.dy == t.y as real
       else
         && p.x == (s.x + s.w) as real && 2.0 * p.y == (2 * s.y + s.h) as real
         && p.x + p.dx == t.x as real && 2.0 * (p.y + p.dy) == (2 * t.y + t.h) as real
  }

  /** The node's shape in its box, and its text bound to the shape. */
  ghost predicate DrawsNode(views: seq<View>, n: Node, shape: string, box: Box) {
    && (exists k :: 0 <= k < |views| && IsShapeView(views[k], n, shape, box))
    && (exists k :: 0 <= k < |views| && IsTextView(views[k], "text:" + n, "node:" + n))
  }

  ghost predicate IsShapeView(v: View, n: Node, shape: string, box: Box) {
    v.id == "node:" + n && v.kind == shape && v.place == BoxAt(box) && TextRef("text:" + n) in v.bound
  }

  ghost predicate IsTextView(v: View, id: string, container: string) {
    v.id == id && v.kind == "text" && v.container == Some(container)
  }

  /** The arrow of edge `i`, bound to the shapes of its ends, and its label if it has one. */
  ghost predicate DrawsEdge(views: seq<View>, i: nat, e: EdgeInfo, s: Box, t: Box, tb: bool) {
    && (exists k :: 0 <= k < |views| && IsArrowView(views[k], i, e, s, t, tb))
    && (e.text.Some? && e.text.value != "" ==>
          exists k :: 0 <= k < |views| && IsTextView(views[k], "arrowlabel:" + Decimal(i), "arrow:" + Decimal(i)))
  }

  ghost predicate IsArrowView(v: View, i: nat, e: EdgeInfo, s: Box, t: Box, tb: bool) {
    && v.id == "arrow:" + Decimal(i) && v.kind == "arrow"
    && v.start == Some("node:" + e.src) && v.end == Some("node:" + e.dst)
    && JoinsSides(v.place, s, t, tb)
  }

  /** An id that something in the specification calls for. */
  ghost predicate CalledFor(id: string, order: seq<Node>, edges: seq<EdgeInfo>, title: Option<string>) {
    || (title.Some? && title.value != "" && id == "title")
    || (exists n :: n in order && (id == "node:" + n || id == "text:" + n))
    || (exists i: nat :: i < |edges| && edges[i].src != edges[i].dst
          && (id == "arrow:" + Decimal(i)
              || (edges[i].text.Some? && edges[i].text.value != "" && id == "arrowlabel:" + Decimal(i))))
  }

  /** Every node and every edge that is no self-loop is drawn between the right boxes, and nothing else is there. */
  ghost predicate Draws(views: seq<View>, order: seq<Node>, nodes: map<Node, NodeInfo>, edges: seq<EdgeInfo>,
                        title: Option<string>, positions: map<Node, Box>, tb: bool)
  {
    && (forall n :: n in order ==> n in nodes && n in positions && DrawsNode(views, n, nodes[n].shape, positions[n]))
    && (forall i: nat :: i < |edges| && edges[i].src != edges[i].dst ==>
          && edges[i].src in positions && edges[i].dst in positions
          && DrawsEdge(views, i, edges[i], positions[edges[i].src], positions[edges[i].dst], tb))
    && (title.Some? && title.value != "" ==> exists k :: 0 <= k < |views| && views[k].id == "title")
    && (forall k :: 0 <= k < |views| ==> CalledFor(views[k].id, order, edges, title))
  }

  lemma ArrowJoinsSides(s: Box, t: Box, tb: bool)
    ensures JoinsSides(ArrowPlace(s, t, tb), s, t, tb)
  {
  }

  lemma NodeIsDrawn(order: seq<Node>, nodes: map<Node, NodeInfo>, edges: seq<EdgeInfo>, title: Option<string>,
                    positions: map<Node, Box>, tb: bool, n: Node)
    requires n in order && n in nodes && n in positions
    ensures DrawsNode(SceneOf(order, nodes, edges, title, positions, tb), n, nodes[n].shape, positions[n])
  {
    hide SceneOf, ArrowRefs;
    var s := FindView(order, nodes, edges, title, positions, tb, ShapeOf(n));
    var c := FindView(order, nodes, edges, title, positions, tb, TextOf(n));
    var views := SceneOf(order, nodes, edges, title, positions, tb);
    assert views[s].bound[0] == TextRef("text:" + n);
    assert IsShapeView(views[s], n, nodes[n].shape, positions[n]);
    assert IsTextView(views[c], "text:" + n, "node:" + n);
  }

  lemma EdgeIsDrawn(order: seq<Node>, nodes: map<Node, NodeInfo>, edges: seq<EdgeInfo>, title: Option<string>,
                    positions: map<Node, Box>, tb: bool, i: nat)
    requires i < |edges| && edges[i].src != edges[i].dst && edges[i].src in positions && edges[i].dst in positions
    ensures DrawsEdge(SceneOf(order, nodes, edges, title, positions, tb), i, edges[i],
                      positions[edges[i].src], positions[edges[i].dst], tb)
  {
    hide SceneOf, ArrowRefs, ArrowPlace, JoinsSides, Decimal;
    var views := SceneOf(order, nodes, edges, title, positions, tb);
    var e := edges[i];
    var k := FindView(order, nodes, edges, title, positions, tb, ArrowOf(i));
    ArrowJoinsSides(positions[e.src], positions[e.dst], tb);
    assert IsArrowView(views[k], i, e, positions[e.src], positions[e.dst], tb);
    if Labelled(e) {
      var c := FindView(order, nodes, edges, title, positions, tb, LabelOf(i));
      assert IsTextView(views[c], "arrowlabel:" + Decimal(i), "arrow:" + Decimal(i));
    }
  }

  lemma PresentIsCalledFor(order: seq<Node>, edges: seq<EdgeInfo>, title: Option<string>, o: Origin)
    requires Present(o, order, edges, |edges|) && (o.Title? ==> HasTitle(title))
    ensures CalledFor(Id(o), order, edges, title)
  {
    hide Decimal;
    match o
    case Title =>
    case ShapeOf(n) =>
    case TextOf(n) =>
    case ArrowOf(i) => assert edges[i].src != edges[i].dst;
    case LabelOf(i) => assert edges[i].src != edges[i].dst;
  }

  lemma SceneDraws(order: seq<Node>, nodes: map<Node, NodeInfo>, edges: seq<EdgeInfo>, title: Option<string>,
                   positions: map<Node, Box>, tb: bool)
    requires WellFormedSpec(order, nodes, edges) && positions.Keys == NodeSet(order)
    ensures Draws(SceneOf(order, nodes, edges, title, positions, tb), order, nodes, edges, title, positions, tb)
  {
    hide DrawsNode, DrawsEdge, CalledFor, Id, Origins, Present, KnownShape, KnownColor, ViewOf;
    var views := SceneOf(order, nodes, edges, title, positions, tb);
    forall n | n in order ensures n in nodes && n in positions && DrawsNode(views, n, nodes[n].shape, positions[n]) {
      NodeIsDrawn(order, nodes, edges, title, positions, tb, n);
    }
    forall i: nat | i < |edges| && edges[i].src != edges[i].dst
      ensures edges[i].src in positions && edges[i].dst in positions
      ensures DrawsEdge(views, i, edges[i], positions[edges[i].src], positions[edges[i].dst], tb)
    {
      assert edges[i] in edges;
      EdgeIsDrawn(order, nodes, edges, title, positions, tb, i);
    }
    if title.Some? && title.value != "" {
      TitleIsDrawn(order, nodes, edges, title, positions, tb);
    }
    OriginsPresent(order, edges, title);
    forall k | 0 <= k < |views| ensures CalledFor(views[k].id, order, edges, title) {
      ViewHasItsId(Origins(order, edges, title)[k], nodes, edges, |edges|, positions, tb);
      PresentIsCalledFor(order, edges, title, Origins(order, edges, title)[k]);
    }
  }

  lemma TitleIsDrawn(order: seq<Node>, nodes: map<Node, NodeInfo>, edges: seq<EdgeInfo>, title: Option<string>,
                     positions: map<Node, Box>, tb: bool)
    requires title.Some? && title.value != ""
    ensures var views := SceneOf(order, nodes, edges, title, positions, tb);
            exists k :: 0 <= k < |views| && views[k].id == "title"
  {
    var k := FindView(order, nodes, edges, title, positions, tb, Title);
  }

  lemma ViewHasItsId(o: Origin, nodes: map<Node, NodeInfo>, edges: seq<EdgeInfo>, upTo: nat,
                     positions: map<Node, Box>, tb: bool)
    ensures ViewOf(o, nodes, edges, upTo, positions, tb).id == Id(o)
  {
    hide Id, ArrowRefs;
  }

  function HasRef(bound: seq<Ref>, id: string): (b: bool)
    ensures b <==> exists r :: r in bound && r.id == id
  {
    if bound == [] then false
    else
      assert bound == [bound[0]] + bound[1..];
      assert bound[0] in bound;
      bound[0].id == id || HasRef(bound[1..], id)
  }

  ghost predicate IndexOf(byId: map<string, Element>, elements: seq<Element>) {
    && (forall k :: 0 <= k < |elements| ==> elements[k].id in byId)
    && (forall id :: id in byId ==> byId[id] in elements && byId[id].id == id)
  }

  ghost function ViewsIn(elements: seq<Element>): (vs: seq<View>)
    reads elements
    ensures Shows(elements, vs)
  {
    seq(|elements|, k requires 0 <= k < |elements| reads elements => elements[k].Shown())
  }

  lemma LookUp(byId: map<string, Element>, elements: seq<Element>, target: string, el: string)
    requires IndexOf(byId, elements) && UniqueIds(ViewsIn(elements))
    ensures Resolves(ViewsIn(elements), target) <==> target in byId
    ensures BackReferenced(ViewsIn(elements), target, el) <==> target in byId && HasRef(byId[target].bound, el)
  {
    var views := ViewsIn(elements);
    if target in byId {
      var k :| 0 <= k < |elements| && elements[k] == byId[target];
      assert views[k].id == target;
    }
    forall k | 0 <= k < |views| && views[k].id == target
      ensures target in byId && byId[target] == elements[k]
    {
      assert elements[k].id == target;
      var m :| 0 <= m < |elements| && elements[m] == byId[target];
      assert views[m].id == views[k].id;
    }
  }

  /** One element's references, checked through the id index. */
  method ElementOk(byId: map<string, Element>, elements: seq<Element>, el: Element) returns (ok: bool)
    requires IndexOf(byId, elements) && UniqueIds(ViewsIn(elements))
    ensures ok <==> WellBound(ViewsIn(elements), el.Shown())
  {
    ghost var views := ViewsIn(elements);
    if el.kind == "text" && el.container.Some? && el.container.value != "" {
      LookUp(byId, elements, el.container.value, el.id);
      if el.container.value !in byId || !HasRef(byId[el.container.value].bound, el.id) {
        return false;
      }
    }
    if el.kind == "arrow" {
      if el.start.Some? {
        LookUp(byId, elements, el.start.value, el.id);
        if el.start.value !in byId || !HasRef(byId[el.start.value].bound, el.id) {
          return false;
        }
      }
      if el.end.Some? {
        LookUp(byId, elements, el.end.value, el.id);
        if el.end.value !in byId || !HasRef(byId[el.end.value].bound, el.id) {
          return false;
        }
      }
    }
    for j := 0 to |el.bound|
      invariant forall i :: 0 <= i < j ==> Resolves(views, el.bound[i].id)
    {
      LookUp(byId, elements, el.bound[j].id, el.id);
      if el.bound[j].id !in byId {
        assert el.bound[j] in el.bound;
        return false;
      }
    }
    return true;
  }

  /** Indexes the elements by id, unless two of them share one. */
  method IndexIds(elements: seq<Element>) returns (unique: bool, byId: map<string, Element>)
    ensures unique <==> UniqueIds(ViewsIn(elements))
    ensures unique ==> IndexOf(byId, elements)
  {
    byId := map[];
    ghost var views := ViewsIn(elements);
    for k := 0 to |elements|
      invariant forall i :: 0 <= i < k ==> elements[i].id in byId
      invariant forall id :: id in byId ==> byId[id].id == id && exists i :: 0 <= i < k && elements[i] == byId[id]
      invariant forall i, j :: 0 <= i < j < k ==> views[i].id != views[j].id
    {
      if elements[k].id in byId {
        ghost var i :| 0 <= i < k && elements[i] == byId[elements[k].id];
        assert views[i].id == views[k].id;
        return false, byId;
      }
      byId := byId[elements[k].id := elements[k]];
    }
    unique := true;
  }

  /** Accepts exactly the valid scenes. */
  method Validate(elements: seq<Element>) returns (ok: bool)
    ensures ok <==> ValidScene(ViewsIn(elements))
  {
    hide WellBound, UniqueIds, IndexOf;
    var unique, byId := IndexIds(elements);
    if !unique {
      return false;
    }
    ghost var views := ViewsIn(elements);
    for k := 0 to |elements|
      invariant forall i :: 0 <= i < k ==> WellBound(views, views[i])
    {
      var fine := ElementOk(byId, elements, elements[k]);
      if !fine {
        return false;
      }
    }
    return true;
  }
}
