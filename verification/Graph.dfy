/** Directed graphs over named nodes: walks, reachability and acyclicity. */
module Graph {
  type Node = string

  datatype Edge = Edge(src: Node, dst: Node)

  /** A walk is a nonempty sequence of nodes, each joined to the next by an edge. */
  ghost predicate IsWalk(es: set<Edge>, p: seq<Node>) {
    |p| > 0 && forall i, j {:trigger p[i], p[j]} :: 0 <= i && j == i + 1 && j < |p| ==> Edge(p[i], p[j]) in es
  }

  ghost predicate WalkFromTo(es: set<Edge>, p: seq<Node>, a: Node, b: Node) {
    IsWalk(es, p) && p[0] == a && p[|p| - 1] == b
  }

  /** `b` can be reached from `a`; every node reaches itself by the one-node walk. */
  ghost predicate Reaches(es: set<Edge>, a: Node, b: Node) {
    exists p :: WalkFromTo(es, p, a, b)
  }

  /** A directed cycle: a walk with at least one edge that ends where it began. */
  ghost predicate IsCycle(es: set<Edge>, p: seq<Node>) {
    IsWalk(es, p) && |p| >= 2 && p[0] == p[|p| - 1]
  }

  ghost predicate Acyclic(es: set<Edge>) {
    forall p :: !IsCycle(es, p)
  }

  function EdgeSet(es: seq<Edge>): set<Edge> {
    set e | e in es
  }

  function NodeSet(order: seq<Node>): set<Node> {
    set n | n in order
  }

  ghost predicate Distinct<T>(s: seq<T>) {
    forall i, j :: 0 <= i < j < |s| ==> s[i] != s[j]
  }

  lemma WalkMonotone(es: set<Edge>, fs: set<Edge>, p: seq<Node>)
    requires es <= fs && IsWalk(es, p)
    ensures IsWalk(fs, p)
  {
  }

  lemma ReachesMonotone(es: set<Edge>, fs: set<Edge>, a: Node, b: Node)
    requires es <= fs && Reaches(es, a, b)
    ensures Reaches(fs, a, b)
  {
    var p :| WalkFromTo(es, p, a, b);
    WalkMonotone(es, fs, p);
    assert WalkFromTo(fs, p, a, b);
  }

  lemma WalkExtend(es: set<Edge>, p: seq<Node>, n: Node)
    requires IsWalk(es, p) && Edge(p[|p| - 1], n) in es
    ensures IsWalk(es, p + [n])
  {
    var q := p + [n];
    forall i, j {:trigger q[i], q[j]} | 0 <= i && j == i + 1 && j < |q| ensures Edge(q[i], q[j]) in es {
      if j < |p| { assert q[i] == p[i] && q[j] == p[j]; }
    }
  }

  lemma WalkSlice(es: set<Edge>, p: seq<Node>, lo: nat, hi: nat)
    requires IsWalk(es, p) && lo < hi <= |p|
    ensures IsWalk(es, p[lo..hi])
  {
    var q := p[lo..hi];
    forall i, j {:trigger q[i], q[j]} | 0 <= i && j == i + 1 && j < |q| ensures Edge(q[i], q[j]) in es {
      assert q[i] == p[lo + i] && q[j] == p[lo + j];
    }
  }

  /** Getting anywhere else takes an edge out of the start. */
  lemma LeavesByAnEdge(es: set<Edge>, a: Node, b: Node)
    ensures Reaches(es, a, b) && a != b ==> exists e :: e in es && e.src == a
  {
    if p :| WalkFromTo(es, p, a, b) && a != b {
      assert Edge(p[0], p[1]) in es;
    }
  }

  /** An edge whose head reaches its tail closes a cycle. */
  lemma BackEdgeClosesCycle(es: set<Edge>, e: Edge)
    requires e in es && Reaches(es, e.dst, e.src)
    ensures !Acyclic(es)
  {
    var p :| WalkFromTo(es, p, e.dst, e.src);
    WalkExtend(es, p, e.dst);
    assert IsCycle(es, p + [e.dst]);
  }

  /** A numbering that strictly falls along every edge leaves no room for a cycle. */
  lemma RankFallsAlongWalk(es: set<Edge>, rank: map<Node, nat>, p: seq<Node>)
    requires forall e :: e in es ==> e.src in rank && e.dst in rank && rank[e.dst] < rank[e.src]
    requires IsWalk(es, p) && |p| >= 2
    ensures p[0] in rank && p[|p| - 1] in rank && rank[p[|p| - 1]] < rank[p[0]]
    decreases |p|
  {
    var last := |p| - 1;
    assert Edge(p[last - 1], p[last]) in es;
    if |p| > 2 {
      WalkSlice(es, p, 0, last);
      RankFallsAlongWalk(es, rank, p[..last]);
    }
  }

  lemma RankMakesAcyclic(es: set<Edge>, rank: map<Node, nat>)
    requires forall e :: e in es ==> e.src in rank && e.dst in rank && rank[e.dst] < rank[e.src]
    ensures Acyclic(es)
  {
    forall p ensures !IsCycle(es, p) {
      if IsCycle(es, p) { RankFallsAlongWalk(es, rank, p); }
    }
  }

  /** A walk of an acyclic graph never repeats a node, so it has at most as many nodes as the graph. */
  lemma AcyclicWalkIsShort(es: set<Edge>, nodes: set<Node>, p: seq<Node>)
    requires Acyclic(es) && IsWalk(es, p)
    requires forall i :: 0 <= i < |p| ==> p[i] in nodes
    ensures |p| <= |nodes|
  {
    forall i, j | 0 <= i < j < |p| ensures p[i] != p[j] {
      if p[i] == p[j] {
        WalkSlice(es, p, i, j + 1);
        assert IsCycle(es, p[i..j + 1]);
      }
    }
    DistinctFitsIn(p, nodes);
  }

  lemma {:induction false} DistinctFitsIn<T(!new)>(s: seq<T>, xs: set<T>)
    requires Distinct(s) && forall i :: 0 <= i < |s| ==> s[i] in xs
    ensures |s| <= |xs|
  {
    if s == [] {
    } else {
      var last := s[|s| - 1];
      DistinctFitsIn(s[..|s| - 1], xs - {last});
    }
  }

  lemma {:induction false} DistinctCardinality<T(!new)>(s: seq<T>)
    requires Distinct(s)
    ensures |set x | x in s| == |s|
  {
    if s == [] {
    } else {
      var init, last := s[..|s| - 1], s[|s| - 1];
      DistinctCardinality(init);
      assert (set x | x in s) == (set x | x in init) + {last};
    }
  }
}
