/**
 * Dropping back edges and layering by longest path
 * (scripts/excalidraw-gen.py, `_acyclic_edges` and `_assign_layers`).
 */
module Layering {
  import opened Graph

  /** The nodes in declaration order without repeats; every edge joins declared nodes. */
  ghost predicate WellFormed(order: seq<Node>, edges: seq<Edge>) {
    && Distinct(order)
    && forall e :: e in edges ==> e.src in order && e.dst in order
  }

  /** The edges outside `dropped`, in their original order. */
  function Without(edges: seq<Edge>, dropped: set<Edge>): (kept: seq<Edge>)
    ensures forall e :: e in kept <==> e in edges && e !in dropped
  {
    if edges == [] then []
    else (if edges[0] in dropped then [] else [edges[0]]) + Without(edges[1..], dropped)
  }

  // --------------------------------------------------------------------
  // Depth-first search
  // --------------------------------------------------------------------

  datatype Color = White | Grey | Black

  /** One entry of the explicit stack: a node and how far its successor iterator has advanced. */
  datatype Frame = Frame(node: Node, next: nat)

  type Successors = map<Node, seq<Node>>

  ghost predicate SuccessorsOf(succ: Successors, nodes: set<Node>, es: set<Edge>) {
    && succ.Keys == nodes
    && (forall n, k :: n in succ && 0 <= k < |succ[n]| ==> succ[n][k] in nodes && Edge(n, succ[n][k]) in es)
    && (forall e :: e in es ==> e.src in nodes && e.dst in nodes && e.dst in succ[e.src])
  }

  function Colored(state: map<Node, Color>, c: Color): set<Node> {
    set n | n in state && state[n] == c
  }

  /** What the search has established about the edges it has finished with. `tree` holds the edges
      along which a white node was entered; `finish` numbers nodes in the order they turned black. */
  ghost predicate Explored(nodes: set<Node>, es: set<Edge>, state: map<Node, Color>, back: set<Edge>,
                           tree: set<Edge>, finish: map<Node, nat>)
  {
    && state.Keys == nodes
    && finish.Keys == Colored(state, Black)
    && (forall n :: n in finish ==> finish[n] < |finish|)
    && back <= es && tree <= es && tree !! back
    && (forall e :: e in tree ==> e.dst in nodes)
    && (forall e :: e in es && e.src in finish ==>
          e in back || (e.dst in finish && finish[e.dst] < finish[e.src]))
    && (forall e :: e in back ==> Reaches(tree, e.dst, e.src))
  }

  ghost predicate Holds(stack: seq<Frame>, n: Node) {
    exists i :: 0 <= i < |stack| && stack[i].node == n
  }

  /** The stack holds exactly the grey nodes, each once. */
  ghost predicate StackIsGrey(state: map<Node, Color>, stack: seq<Frame>) {
    && (forall i, j :: 0 <= i < j < |stack| ==> stack[i].node != stack[j].node)
    && (forall i :: 0 <= i < |stack| ==> stack[i].node in state && state[stack[i].node] == Grey)
    && (forall n :: n in state && state[n] == Grey ==> Holds(stack, n))
  }

  /** The stack spells a walk of tree edges, and tree edges lead only to black nodes or up the stack. */
  ghost predicate StackIsTreeWalk(state: map<Node, Color>, tree: set<Edge>, stack: seq<Frame>) {
    && (forall i, j {:trigger stack[i], stack[j]} :: 0 <= i && j == i + 1 && j < |stack| ==>
          Edge(stack[i].node, stack[j].node) in tree)
    && (forall e :: e in tree ==> e.dst in state && state[e.dst] != White)
    && (forall e :: e in tree ==> e.src in state && state[e.src] != White)
    && (forall e, i :: e in tree && 0 <= i < |stack| && stack[i].node == e.dst ==>
          i >= 1 && stack[i - 1].node == e.src)
  }

  ghost predicate OnStack(state: map<Node, Color>, tree: set<Edge>, stack: seq<Frame>) {
    StackIsGrey(state, stack) && StackIsTreeWalk(state, tree, stack)
  }

  /** Every successor behind a frame's iterator is dropped, finished, or the frame just above. */
  ghost predicate IteratorsSettled(succ: Successors, state: map<Node, Color>, back: set<Edge>, stack: seq<Frame>) {
    forall i :: 0 <= i < |stack| ==>
      && stack[i].node in succ
      && stack[i].next <= |succ[stack[i].node]|
      && forall k :: 0 <= k < stack[i].next ==> Settled(succ[stack[i].node][k], state, back, stack, i)
  }

  ghost predicate Settled(v: Node, state: map<Node, Color>, back: set<Edge>, stack: seq<Frame>, i: nat)
    requires i < |stack|
  {
    || Edge(stack[i].node, v) in back
    || (v in state && state[v] == Black)
    || (i + 1 < |stack| && v == stack[i + 1].node)
  }

  /** A grey node further down the stack reaches the top along tree edges. */
  lemma GreyReachesTop(state: map<Node, Color>, tree: set<Edge>, stack: seq<Frame>, i: nat)
    requires OnStack(state, tree, stack) && i < |stack|
    ensures Reaches(tree, stack[i].node, stack[|stack| - 1].node)
  {
    var p := seq(|stack| - i, k requires 0 <= k < |stack| - i => stack[i + k].node);
    forall a, b {:trigger p[a], p[b]} | 0 <= a && b == a + 1 && b < |p| ensures Edge(p[a], p[b]) in tree {
      assert stack[i + b] == stack[(i + a) + 1];
      assert Edge(stack[i + a].node, stack[i + b].node) in tree;
    }
    assert WalkFromTo(tree, p, stack[i].node, stack[|stack| - 1].node);
  }

  lemma BackGrows(tree: set<Edge>, tree': set<Edge>, back: set<Edge>)
    requires tree <= tree' && forall e :: e in back ==> Reaches(tree, e.dst, e.src)
    ensures forall e :: e in back ==> Reaches(tree', e.dst, e.src)
  {
    forall e | e in back ensures Reaches(tree', e.dst, e.src) {
      ReachesMonotone(tree, tree', e.dst, e.src);
    }
  }

  /** The state of the search: colours and dropped edges, plus what the proof tracks. */
  ghost predicate Searching(nodes: set<Node>, es: set<Edge>, succ: Successors, state: map<Node, Color>,
                            back: set<Edge>, tree: set<Edge>, finish: map<Node, nat>, stack: seq<Frame>)
  {
    && SuccessorsOf(succ, nodes, es)
    && Explored(nodes, es, state, back, tree, finish)
    && OnStack(state, tree, stack)
    && IteratorsSettled(succ, state, back, stack)
  }

  function Advance(stack: seq<Frame>): seq<Frame>
    requires stack != []
  {
    var top := |stack| - 1;
    stack[top := Frame(stack[top].node, stack[top].next + 1)]
  }

  /** The top iterator yields a grey node: the edge is dropped. */
  lemma DropStep(nodes: set<Node>, es: set<Edge>, succ: Successors, state: map<Node, Color>,
                 back: set<Edge>, tree: set<Edge>, finish: map<Node, nat>, stack: seq<Frame>, u: Node, v: Node)
    requires Searching(nodes, es, succ, state, back, tree, finish, stack)
    requires stack != [] && stack[|stack| - 1].node == u
    requires stack[|stack| - 1].next < |succ[u]| && v == succ[u][stack[|stack| - 1].next]
    requires state[v] == Grey
    ensures Searching(nodes, es, succ, state, back + {Edge(u, v)}, tree, finish, Advance(stack))
  {
    DropExplored(nodes, es, succ, state, back, tree, finish, stack, u, v);
    AdvanceKeepsOrder(state, tree, stack);
    AdvanceSettles(succ, state, back, back + {Edge(u, v)}, stack);
  }

  lemma DropExplored(nodes: set<Node>, es: set<Edge>, succ: Successors, state: map<Node, Color>,
                     back: set<Edge>, tree: set<Edge>, finish: map<Node, nat>, stack: seq<Frame>, u: Node, v: Node)
    requires Explored(nodes, es, state, back, tree, finish) && OnStack(state, tree, stack)
    requires stack != [] && stack[|stack| - 1].node == u && Edge(u, v) in es
    requires v in state && state[v] == Grey
    ensures Explored(nodes, es, state, back + {Edge(u, v)}, tree, finish)
  {
    assert Holds(stack, v);
    var at :| 0 <= at < |stack| && stack[at].node == v;
    GreyReachesTop(state, tree, stack, at);
    assert at >= 1 ==> stack[at - 1].node != stack[|stack| - 1].node;
    assert Edge(u, v) !in tree;
  }

  lemma AdvanceKeepsOrder(state: map<Node, Color>, tree: set<Edge>, stack: seq<Frame>)
    requires OnStack(state, tree, stack) && stack != []
    ensures OnStack(state, tree, Advance(stack))
  {
    var stack' := Advance(stack);
    assert forall i :: 0 <= i < |stack| ==> stack'[i].node == stack[i].node;
    forall n | n in state && state[n] == Grey ensures Holds(stack', n) {
      assert Holds(stack, n);
      var i :| 0 <= i < |stack| && stack[i].node == n;
      assert stack'[i].node == n;
    }
    forall i, j {:trigger stack'[i], stack'[j]} | 0 <= i && j == i + 1 && j < |stack'|
      ensures Edge(stack'[i].node, stack'[j].node) in tree
    {
      assert Edge(stack[i].node, stack[j].node) in tree;
    }
  }

  lemma AdvanceSettles(succ: Successors, state: map<Node, Color>, back: set<Edge>, back': set<Edge>, stack: seq<Frame>)
    requires IteratorsSettled(succ, state, back, stack) && stack != [] && back <= back'
    requires var top := stack[|stack| - 1];
      top.next < |succ[top.node]| && Settled(succ[top.node][top.next], state, back', stack, |stack| - 1)
    ensures IteratorsSettled(succ, state, back', Advance(stack))
  {
    var stack' := Advance(stack);
    forall i | 0 <= i < |stack'|
      ensures stack'[i].next <= |succ[stack'[i].node]|
      ensures forall k :: 0 <= k < stack'[i].next ==> Settled(succ[stack'[i].node][k], state, back', stack', i)
    {
      assert stack'[i].node == stack[i].node;
      forall k | 0 <= k < stack'[i].next ensures Settled(succ[stack'[i].node][k], state, back', stack', i) {
        if k < stack[i].next { assert Settled(succ[stack[i].node][k], state, back, stack, i); }
      }
    }
  }

  /** The top iterator yields a finished node: nothing to do. */
  lemma SkipStep(nodes: set<Node>, es: set<Edge>, succ: Successors, state: map<Node, Color>,
                 back: set<Edge>, tree: set<Edge>, finish: map<Node, nat>, stack: seq<Frame>)
    requires Searching(nodes, es, succ, state, back, tree, finish, stack) && stack != []
    requires var top := stack[|stack| - 1]; top.next < |succ[top.node]| && state[succ[top.node][top.next]] == Black
    ensures Searching(nodes, es, succ, state, back, tree, finish, Advance(stack))
  {
    AdvanceKeepsOrder(state, tree, stack);
    AdvanceSettles(succ, state, back, back, stack);
  }

  /** The top iterator yields a white node: it turns grey and is pushed. */
  lemma EnterStep(nodes: set<Node>, es: set<Edge>, succ: Successors, state: map<Node, Color>,
                  back: set<Edge>, tree: set<Edge>, finish: map<Node, nat>, stack: seq<Frame>, u: Node, v: Node)
    requires Searching(nodes, es, succ, state, back, tree, finish, stack)
    requires stack != [] && stack[|stack| - 1].node == u
    requires stack[|stack| - 1].next < |succ[u]| && v == succ[u][stack[|stack| - 1].next]
    requires state[v] == White
    ensures Searching(nodes, es, succ, state[v := Grey], back, tree + {Edge(u, v)}, finish, Advance(stack) + [Frame(v, 0)])
    ensures Colored(state[v := Grey], White) < Colored(state, White)
    ensures Colored(state[v := Grey], Black) == Colored(state, Black)
  {
    var state', tree', stack' := state[v := Grey], tree + {Edge(u, v)}, Advance(stack) + [Frame(v, 0)];
    assert Colored(state', Black) == Colored(state, Black);
    assert v in Colored(state, White) && v !in Colored(state', White);
    BackGrows(tree, tree', back);
    LeavesByAnEdge(tree, v, u);
    assert Edge(u, v) !in back;
    assert Explored(nodes, es, state', back, tree', finish);
    AdvanceKeepsOrder(state, tree, stack);
    EnterKeepsOrder(state, tree, Advance(stack), u, v);
    EnterSettles(succ, state, back, stack, v);
  }

  lemma EnterSettles(succ: Successors, state: map<Node, Color>, back: set<Edge>, stack: seq<Frame>, v: Node)
    requires IteratorsSettled(succ, state, back, stack) && stack != []
    requires v in state && state[v] == White && v in succ
    requires var top := stack[|stack| - 1]; top.next < |succ[top.node]| && succ[top.node][top.next] == v
    ensures IteratorsSettled(succ, state[v := Grey], back, Advance(stack) + [Frame(v, 0)])
  {
    var stack' := Advance(stack) + [Frame(v, 0)];
    var state' := state[v := Grey];
    forall i | 0 <= i < |stack'|
      ensures stack'[i].node in succ && stack'[i].next <= |succ[stack'[i].node]|
      ensures forall k :: 0 <= k < stack'[i].next ==> Settled(succ[stack'[i].node][k], state', back, stack', i)
    {
      if i < |stack| {
        assert stack'[i].node == stack[i].node;
        forall k | 0 <= k < stack'[i].next ensures Settled(succ[stack'[i].node][k], state', back, stack', i) {
          if k < stack[i].next {
            assert Settled(succ[stack[i].node][k], state, back, stack, i);
            if i + 1 < |stack| { assert stack'[i + 1].node == stack[i + 1].node; }
          }
        }
      }
    }
  }

  lemma EnterKeepsOrder(state: map<Node, Color>, tree: set<Edge>, stack: seq<Frame>, u: Node, v: Node)
    requires OnStack(state, tree, stack) && stack != [] && stack[|stack| - 1].node == u
    requires v in state && state[v] == White
    ensures OnStack(state[v := Grey], tree + {Edge(u, v)}, stack + [Frame(v, 0)])
  {
    var stack' := stack + [Frame(v, 0)];
    var state', tree' := state[v := Grey], tree + {Edge(u, v)};
    assert StackIsGrey(state', stack') by {
      forall n | n in state' && state'[n] == Grey ensures Holds(stack', n) {
        if n == v {
          assert stack'[|stack|].node == n;
        } else {
          assert Holds(stack, n);
          var i :| 0 <= i < |stack| && stack[i].node == n;
          assert stack'[i].node == n;
        }
      }
    }
    assert StackIsTreeWalk(state', tree', stack') by {
      forall i, j {:trigger stack'[i], stack'[j]} | 0 <= i && j == i + 1 && j < |stack'|
        ensures Edge(stack'[i].node, stack'[j].node) in tree'
      {
        if j < |stack| { assert Edge(stack[i].node, stack[j].node) in tree; }
      }
    }
  }

  /** The top iterator is exhausted: its node is finished and popped. */
  lemma LeaveStep(nodes: set<Node>, es: set<Edge>, succ: Successors, state: map<Node, Color>,
                  back: set<Edge>, tree: set<Edge>, finish: map<Node, nat>, stack: seq<Frame>, u: Node)
    requires Searching(nodes, es, succ, state, back, tree, finish, stack)
    requires u in succ && stack != [] && stack[|stack| - 1] == Frame(u, |succ[u]|)
    ensures Searching(nodes, es, succ, state[u := Black], back, tree, finish[u := |finish|], stack[..|stack| - 1])
    ensures Colored(state[u := Black], White) == Colored(state, White)
    ensures Colored(state[u := Black], Black) == Colored(state, Black) + {u}
  {
    TopIsSettled(nodes, es, succ, state, back, tree, finish, stack, u);
    LeaveExplored(nodes, es, state, back, tree, finish, u);
    LeaveKeepsOrder(state, tree, stack);
    LeaveSettles(succ, state, back, stack, u);
  }

  lemma TopIsSettled(nodes: set<Node>, es: set<Edge>, succ: Successors, state: map<Node, Color>,
                     back: set<Edge>, tree: set<Edge>, finish: map<Node, nat>, stack: seq<Frame>, u: Node)
    requires Searching(nodes, es, succ, state, back, tree, finish, stack)
    requires u in succ && stack != [] && stack[|stack| - 1] == Frame(u, |succ[u]|)
    ensures u in state && state[u] == Grey
    ensures forall e :: e in es && e.src == u ==> e in back || (e.dst in state && state[e.dst] == Black)
  {
    forall e | e in es && e.src == u ensures e in back || (e.dst in state && state[e.dst] == Black) {
      var k :| 0 <= k < |succ[u]| && succ[u][k] == e.dst;
      assert Settled(succ[u][k], state, back, stack, |stack| - 1);
    }
  }

  lemma LeaveExplored(nodes: set<Node>, es: set<Edge>, state: map<Node, Color>, back: set<Edge>, tree: set<Edge>,
                      finish: map<Node, nat>, u: Node)
    requires Explored(nodes, es, state, back, tree, finish) && u in state && state[u] == Grey
    requires forall e :: e in es && e.src == u ==> e in back || (e.dst in state && state[e.dst] == Black)
    ensures Explored(nodes, es, state[u := Black], back, tree, finish[u := |finish|])
    ensures Colored(state[u := Black], White) == Colored(state, White)
    ensures Colored(state[u := Black], Black) == Colored(state, Black) + {u}
  {
    var state', finish' := state[u := Black], finish[u := |finish|];
    assert u !in finish.Keys;
    assert Colored(state', Black) == Colored(state, Black) + {u};
    assert |finish'| == |finish| + 1;
    forall e | e in es && e.src in finish'
      ensures e in back || (e.dst in finish' && finish'[e.dst] < finish'[e.src])
    {
      if e.src == u {
        assert e in back || e.dst in Colored(state, Black);
      }
    }
  }

  lemma LeaveSettles(succ: Successors, state: map<Node, Color>, back: set<Edge>, stack: seq<Frame>, u: Node)
    requires IteratorsSettled(succ, state, back, stack) && stack != [] && stack[|stack| - 1].node == u
    ensures IteratorsSettled(succ, state[u := Black], back, stack[..|stack| - 1])
  {
    var state', stack' := state[u := Black], stack[..|stack| - 1];
    forall i, k | 0 <= i < |stack'| && 0 <= k < stack'[i].next
      ensures Settled(succ[stack'[i].node][k], state', back, stack', i)
    {
      assert stack'[i] == stack[i];
      assert Settled(succ[stack[i].node][k], state, back, stack, i);
    }
  }

  lemma LeaveKeepsOrder(state: map<Node, Color>, tree: set<Edge>, stack: seq<Frame>)
    requires OnStack(state, tree, stack) && stack != []
    ensures OnStack(state[stack[|stack| - 1].node := Black], tree, stack[..|stack| - 1])
  {
    var u := stack[|stack| - 1].node;
    var state', stack' := state[u := Black], stack[..|stack| - 1];
    forall n | n in state' && state'[n] == Grey ensures Holds(stack', n) {
      assert Holds(stack, n);
      var i :| 0 <= i < |stack| && stack[i].node == n;
      assert stack'[i].node == n;
    }
  }

  /** Explores everything white that is reachable from a white root, with an explicit stack. */
  method Visit(root: Node, succ: Successors, state0: map<Node, Color>, back0: set<Edge>,
               ghost nodes: set<Node>, ghost es: set<Edge>, ghost tree0: set<Edge>, ghost finish0: map<Node, nat>)
    returns (state: map<Node, Color>, back: set<Edge>, ghost tree: set<Edge>, ghost finish: map<Node, nat>)
    requires Searching(nodes, es, succ, state0, back0, tree0, finish0, [])
    requires root in nodes && root in state0 && state0[root] == White
    ensures Searching(nodes, es, succ, state, back, tree, finish, [])
    ensures {root} + Colored(state0, Black) <= Colored(state, Black)
  {
    hide Explored, OnStack, StackIsGrey, StackIsTreeWalk, IteratorsSettled, SuccessorsOf, Searching;
    state, back, tree, finish := state0[root := Grey], back0, tree0, finish0;
    var stack := [Frame(root, 0)];
    StartStep(nodes, es, succ, state0, back0, tree0, finish0, root);
    while stack != []
      invariant Searching(nodes, es, succ, state, back, tree, finish, stack) && root in state
      invariant Colored(state0, Black) <= Colored(state, Black)
      invariant state[root] != White
      decreases Colored(state, White), |stack|
    {
      TopOfStack(nodes, es, succ, state, back, tree, finish, stack);
      var u := stack[|stack| - 1].node;
      var entered := false;
      ghost var stackIn, stateIn := stack, state;
      while stack[|stack| - 1].next < |succ[u]| && !entered
        invariant stack != [] && (!entered ==> |stack| == |stackIn| && stack[|stack| - 1].node == u && state == stateIn)
        invariant Searching(nodes, es, succ, state, back, tree, finish, stack) && root in state
        invariant Colored(state0, Black) <= Colored(state, Black)
        invariant state[root] != White
        invariant entered ==> Colored(state, White) < Colored(stateIn, White)
        decreases !entered, |succ[u]| - stack[|stack| - 1].next
      {
        TopOfStack(nodes, es, succ, state, back, tree, finish, stack);
        var v := succ[u][stack[|stack| - 1].next];
        if state[v] == Grey {
          DropStep(nodes, es, succ, state, back, tree, finish, stack, u, v);
          back := back + {Edge(u, v)};
          stack := Advance(stack);
        } else if state[v] == White {
          EnterStep(nodes, es, succ, state, back, tree, finish, stack, u, v);
          tree := tree + {Edge(u, v)};
          state := state[v := Grey];
          stack := Advance(stack) + [Frame(v, 0)];
          entered := true;
        } else {
          SkipStep(nodes, es, succ, state, back, tree, finish, stack);
          stack := Advance(stack);
        }
      }
      if !entered {
        TopOfStack(nodes, es, succ, state, back, tree, finish, stack);
        LeaveStep(nodes, es, succ, state, back, tree, finish, stack, u);
        state := state[u := Black];
        finish := finish[u := |finish|];
        stack := stack[..|stack| - 1];
      }
    }
    SearchAtRest(nodes, es, succ, state, back, tree, finish, root);
  }

  lemma TopOfStack(nodes: set<Node>, es: set<Edge>, succ: Successors, state: map<Node, Color>,
                   back: set<Edge>, tree: set<Edge>, finish: map<Node, nat>, stack: seq<Frame>)
    requires Searching(nodes, es, succ, state, back, tree, finish, stack) && stack != []
    ensures var top := stack[|stack| - 1];
      && top.node in succ && top.next <= |succ[top.node]|
      && forall k :: 0 <= k < |succ[top.node]| ==> succ[top.node][k] in state
  {
  }

  lemma SearchAtRest(nodes: set<Node>, es: set<Edge>, succ: Successors, state: map<Node, Color>,
                     back: set<Edge>, tree: set<Edge>, finish: map<Node, nat>, n: Node)
    requires Searching(nodes, es, succ, state, back, tree, finish, [])
    requires n in state && state[n] != White
    ensures n in Colored(state, Black)
  {
    assert state[n] == Grey ==> Holds([], n);
  }

  lemma StartStep(nodes: set<Node>, es: set<Edge>, succ: Successors, state: map<Node, Color>,
                  back: set<Edge>, tree: set<Edge>, finish: map<Node, nat>, root: Node)
    requires Searching(nodes, es, succ, state, back, tree, finish, [])
    requires root in nodes && state[root] == White
    ensures Searching(nodes, es, succ, state[root := Grey], back, tree, finish, [Frame(root, 0)])
    ensures Colored(state[root := Grey], Black) == Colored(state, Black)
  {
    var state', stack := state[root := Grey], [Frame(root, 0)];
    assert Colored(state', Black) == Colored(state, Black);
    assert stack[0].node == root;
    assert Explored(nodes, es, state', back, tree, finish);
    forall n | n in state' && state'[n] == Grey ensures Holds(stack, n) {
      assert state[n] == Grey ==> Holds([], n);
    }
  }

  /** `succ[u]` lists the heads of the edges leaving `u`, in edge order. */
  method BuildSuccessors(order: seq<Node>, edges: seq<Edge>) returns (succ: Successors)
    requires WellFormed(order, edges)
    ensures SuccessorsOf(succ, NodeSet(order), EdgeSet(edges))
  {
    succ := map n | n in order :: [];
    for i := 0 to |edges|
      invariant succ.Keys == NodeSet(order)
      invariant forall n, k :: n in succ && 0 <= k < |succ[n]| ==> Edge(n, succ[n][k]) in edges[..i]
      invariant forall e :: e in edges[..i] ==> e.dst in succ[e.src]
    {
      var e := edges[i];
      assert edges[..i + 1] == edges[..i] + [e];
      assert e in edges;
      succ := succ[e.src := succ[e.src] + [e.dst]];
    }
    assert edges[..|edges|] == edges;
  }

  /**
   * The edges that are left once every edge into a node on the search stack is dropped.
   * What remains has no cycle, and nothing can be put back: each dropped edge closes a
   * cycle with edges that were kept.
   */
  method AcyclicEdges(order: seq<Node>, edges: seq<Edge>) returns (kept: seq<Edge>, ghost back: set<Edge>)
    requires WellFormed(order, edges)
    ensures kept == Without(edges, back) && back <= EdgeSet(edges)
    ensures Acyclic(EdgeSet(kept))
    ensures forall e :: e in edges && e !in kept ==> Reaches(EdgeSet(kept), e.dst, e.src)
  {
    var succ := BuildSuccessors(order, edges);
    var dropped; ghost var state, tree, finish;
    dropped, state, tree, finish := Search(order, succ, EdgeSet(edges));
    kept, back := Without(edges, dropped), dropped;
    SearchConclusion(NodeSet(order), edges, succ, state, dropped, tree, finish, kept);
  }

  /** Visits every node that is still white, in declaration order. */
  method Search(order: seq<Node>, succ: Successors, ghost es: set<Edge>)
    returns (back: set<Edge>, ghost state': map<Node, Color>, ghost tree: set<Edge>, ghost finish: map<Node, nat>)
    requires SuccessorsOf(succ, NodeSet(order), es)
    ensures Searching(NodeSet(order), es, succ, state', back, tree, finish, [])
    ensures NodeSet(order) <= Colored(state', Black)
  {
    ghost var nodes := NodeSet(order);
    var state: map<Node, Color> := map n | n in order :: White;
    back, tree, finish := {}, {}, map[];
    NothingExplored(nodes, es, succ, state);
    for i := 0 to |order|
      invariant Searching(nodes, es, succ, state, back, tree, finish, [])
      invariant NodeSet(order[..i]) <= Colored(state, Black)
    {
      var n := order[i];
      assert n in nodes && NodeSet(order[..i + 1]) == NodeSet(order[..i]) + {n};
      if state[n] == White {
        state, back, tree, finish := Visit(n, succ, state, back, nodes, es, tree, finish);
      } else {
        SearchAtRest(nodes, es, succ, state, back, tree, finish, n);
      }
    }
    assert order[..|order|] == order;
    state' := state;
  }

  lemma NothingExplored(nodes: set<Node>, es: set<Edge>, succ: Successors, state: map<Node, Color>)
    requires SuccessorsOf(succ, nodes, es)
    requires state.Keys == nodes && forall n :: n in state ==> state[n] == White
    ensures Searching(nodes, es, succ, state, {}, {}, map[], [])
  {
    assert Colored(state, Black) == {};
  }

  lemma SearchConclusion(nodes: set<Node>, edges: seq<Edge>, succ: Successors, state: map<Node, Color>,
                         back: set<Edge>, tree: set<Edge>, finish: map<Node, nat>, kept: seq<Edge>)
    requires Searching(nodes, EdgeSet(edges), succ, state, back, tree, finish, [])
    requires nodes <= Colored(state, Black) && kept == Without(edges, back)
    ensures back <= EdgeSet(edges) && Acyclic(EdgeSet(kept))
    ensures forall e :: e in edges && e !in kept ==> Reaches(EdgeSet(kept), e.dst, e.src)
  {
    var es := EdgeSet(kept);
    forall e | e in es ensures e.src in finish && e.dst in finish && finish[e.dst] < finish[e.src] {
      assert e in EdgeSet(edges) && e !in back;
    }
    RankMakesAcyclic(es, finish);
    forall e | e in tree ensures e in es {
      assert e in EdgeSet(edges) && e !in back;
    }
    BackGrows(tree, es, back);
  }

  /** An acyclic input loses no edge; conversely an input that loses no edge was acyclic. */
  lemma AcyclicInputKeepsEverything(edges: seq<Edge>, kept: seq<Edge>, back: set<Edge>)
    requires kept == Without(edges, back) && Acyclic(EdgeSet(kept))
    requires forall e :: e in edges && e !in kept ==> Reaches(EdgeSet(kept), e.dst, e.src)
    ensures Acyclic(EdgeSet(edges)) <==> kept == edges
  {
    if Acyclic(EdgeSet(edges)) {
      forall e | e in edges ensures e !in back {
        if e in back {
          ReachesMonotone(EdgeSet(kept), EdgeSet(edges), e.dst, e.src);
          BackEdgeClosesCycle(EdgeSet(edges), e);
        }
      }
      NothingDropped(edges, back);
    }
  }

  lemma {:induction false} NothingDropped(edges: seq<Edge>, back: set<Edge>)
    requires forall e :: e in edges ==> e !in back
    ensures Without(edges, back) == edges
  {
    if edges == [] {
    } else {
      NothingDropped(edges[1..], back);
      assert edges[0] in edges;
      assert forall e :: e in edges[1..] ==> e in edges;
    }
  }

  // --------------------------------------------------------------------
  // Longest-path layers
  // --------------------------------------------------------------------

  /** `k` is the number of edges of a longest walk ending at `n`. */
  ghost predicate LongestWalkTo(es: set<Edge>, n: Node, k: nat) {
    && WalkOfLength(es, n, k)
    && forall p :: IsWalk(es, p) && p[|p| - 1] == n ==> |p| - 1 <= k
  }

  ghost predicate WalkOfLength(es: set<Edge>, n: Node, k: nat) {
    exists p :: IsWalk(es, p) && p[|p| - 1] == n && |p| == k + 1
  }

  /** Every layer is at least as deep as any walk of at most `rounds` edges that ends there. */
  ghost predicate CoversWalks(es: set<Edge>, layer: map<Node, nat>, rounds: nat) {
    forall p :: IsWalk(es, p) && |p| - 1 <= rounds && p[|p| - 1] in layer ==> |p| - 1 <= layer[p[|p| - 1]]
  }

  ghost predicate Attained(es: set<Edge>, layer: map<Node, nat>) {
    forall n :: n in layer ==> WalkOfLength(es, n, layer[n])
  }

  ghost predicate Relaxed(es: set<Edge>, layer: map<Node, nat>)
    requires forall e :: e in es ==> e.src in layer && e.dst in layer
  {
    forall e :: e in es ==> layer[e.src] + 1 <= layer[e.dst]
  }

  lemma {:induction false} RelaxedCoversWalk(es: set<Edge>, layer: map<Node, nat>, p: seq<Node>)
    requires forall e :: e in es ==> e.src in layer && e.dst in layer
    requires Relaxed(es, layer) && IsWalk(es, p) && p[|p| - 1] in layer
    ensures |p| - 1 <= layer[p[|p| - 1]]
    decreases |p|
  {
    if |p| > 1 {
      var last := |p| - 1;
      assert Edge(p[last - 1], p[last]) in es;
      WalkSlice(es, p, 0, last);
      RelaxedCoversWalk(es, layer, p[..last]);
    }
  }

  lemma NextRoundCovers(dag: seq<Edge>, before: map<Node, nat>, after: map<Node, nat>, rounds: nat)
    requires before.Keys == after.Keys
    requires forall e :: e in dag ==> e.src in before && e.dst in before
    requires CoversWalks(EdgeSet(dag), before, rounds)
    requires forall n :: n in before ==> before[n] <= after[n]
    requires forall e :: e in dag ==> before[e.src] + 1 <= after[e.dst]
    ensures CoversWalks(EdgeSet(dag), after, rounds + 1)
  {
    var es := EdgeSet(dag);
    forall p | IsWalk(es, p) && |p| - 1 <= rounds + 1 && p[|p| - 1] in after
      ensures |p| - 1 <= after[p[|p| - 1]]
    {
      if |p| - 1 == rounds + 1 {
        var last := |p| - 1;
        assert Edge(p[last - 1], p[last]) in es;
        WalkSlice(es, p, 0, last);
        var q := p[..last];
        assert q[|q| - 1] == p[last - 1] && |q| - 1 == rounds;
      }
    }
  }

  lemma ExtendAttained(es: set<Edge>, u: Node, v: Node, k: nat)
    requires WalkOfLength(es, u, k) && Edge(u, v) in es
    ensures WalkOfLength(es, v, k + 1)
  {
    var p :| IsWalk(es, p) && p[|p| - 1] == u && |p| == k + 1;
    WalkExtend(es, p, v);
    var q := p + [v];
    assert IsWalk(es, q) && q[|q| - 1] == v && |q| == k + 2;
  }

  lemma WalkStaysInside(es: set<Edge>, nodes: set<Node>, p: seq<Node>)
    requires IsWalk(es, p) && p[|p| - 1] in nodes
    requires forall e :: e in es ==> e.src in nodes && e.dst in nodes
    ensures forall i :: 0 <= i < |p| ==> p[i] in nodes
  {
    forall i | 0 <= i < |p| ensures p[i] in nodes {
      if i < |p| - 1 { assert Edge(p[i], p[i + 1]) in es; }
    }
  }

  lemma FixpointIsLongest(es: set<Edge>, layer: map<Node, nat>)
    requires forall e :: e in es ==> e.src in layer && e.dst in layer
    requires Attained(es, layer) && Relaxed(es, layer)
    ensures forall n :: n in layer ==> LongestWalkTo(es, n, layer[n])
  {
    forall n | n in layer ensures LongestWalkTo(es, n, layer[n]) {
      forall p | IsWalk(es, p) && p[|p| - 1] == n ensures |p| - 1 <= layer[n] {
        RelaxedCoversWalk(es, layer, p);
      }
    }
  }

  lemma EnoughRounds(es: set<Edge>, layer: map<Node, nat>, rounds: nat)
    requires forall e :: e in es ==> e.src in layer && e.dst in layer
    requires Acyclic(es) && Attained(es, layer) && CoversWalks(es, layer, rounds) && |layer.Keys| <= rounds
    ensures Relaxed(es, layer)
  {
    forall e | e in es ensures layer[e.src] + 1 <= layer[e.dst] {
      ExtendAttained(es, e.src, e.dst, layer[e.src]);
      var p :| IsWalk(es, p) && p[|p| - 1] == e.dst && |p| == layer[e.src] + 2;
      WalkStaysInside(es, layer.Keys, p);
      AcyclicWalkIsShort(es, layer.Keys, p);
    }
  }

  /** One relaxation pass over the edges, in order, raising layers in place. */
  method RelaxOnce(dag: seq<Edge>, before: map<Node, nat>) returns (layer: map<Node, nat>, changed: bool)
    requires forall e :: e in dag ==> e.src in before && e.dst in before
    requires Attained(EdgeSet(dag), before)
    ensures layer.Keys == before.Keys && Attained(EdgeSet(dag), layer)
    ensures forall n :: n in before ==> before[n] <= layer[n]
    ensures forall e :: e in dag ==> before[e.src] + 1 <= layer[e.dst]
    ensures changed <==> layer != before
  {
    layer, changed := before, false;
    for i := 0 to |dag|
      invariant layer.Keys == before.Keys && Attained(EdgeSet(dag), layer)
      invariant forall n :: n in before ==> before[n] <= layer[n]
      invariant forall j :: 0 <= j < i ==> before[dag[j].src] + 1 <= layer[dag[j].dst]
      invariant changed <==> exists n :: n in before && before[n] < layer[n]
    {
      var e := dag[i];
      assert e in dag;
      if layer[e.dst] < layer[e.src] + 1 {
        ExtendAttained(EdgeSet(dag), e.src, e.dst, layer[e.src]);
        layer := layer[e.dst := layer[e.src] + 1];
        changed := true;
        assert before[e.dst] < layer[e.dst];
      }
    }
  }

  /** Relaxation over the acyclic edges, at most one round per node. */
  method LongestPathLayers(order: seq<Node>, dag: seq<Edge>) returns (layer: map<Node, nat>)
    requires WellFormed(order, dag) && Acyclic(EdgeSet(dag))
    ensures layer.Keys == NodeSet(order)
    ensures forall n :: n in layer ==> LongestWalkTo(EdgeSet(dag), n, layer[n])
  {
    ghost var es := EdgeSet(dag);
    layer := map n | n in order :: 0;
    ZeroLayers(es, layer);
    var changed, rounds := true, 0;
    while rounds < |order| && changed
      invariant rounds <= |order|
      invariant layer.Keys == NodeSet(order)
      invariant Attained(es, layer) && CoversWalks(es, layer, rounds)
      invariant !changed ==> Relaxed(es, layer)
      decreases |order| - rounds
    {
      ghost var before := layer;
      layer, changed := RelaxOnce(dag, layer);
      NextRoundCovers(dag, before, layer, rounds);
      rounds := rounds + 1;
    }
    if changed {
      DistinctCardinality(order);
      EnoughRounds(es, layer, rounds);
    }
    FixpointIsLongest(es, layer);
  }

  lemma ZeroLayers(es: set<Edge>, layer: map<Node, nat>)
    requires forall n :: n in layer ==> layer[n] == 0
    ensures Attained(es, layer) && CoversWalks(es, layer, 0)
  {
    forall n | n in layer ensures WalkOfLength(es, n, 0) {
      var p := [n];
      assert IsWalk(es, p) && p[|p| - 1] == n && |p| == 1;
    }
  }

  function DropSelfLoops(edges: seq<Edge>): (straight: seq<Edge>)
    ensures forall e :: e in straight <==> e in edges && e.src != e.dst
  {
    if edges == [] then []
    else (if edges[0].src != edges[0].dst then [edges[0]] else []) + DropSelfLoops(edges[1..])
  }

  /** Layers of the whole diagram: longest paths over what is left after dropping self-loops and back edges. */
  method AssignLayers(order: seq<Node>, edges: seq<Edge>) returns (layer: map<Node, nat>, ghost dag: seq<Edge>)
    requires WellFormed(order, edges)
    ensures layer.Keys == NodeSet(order)
    ensures Acyclic(EdgeSet(dag)) && (forall e :: e in dag ==> e in edges && e.src != e.dst)
    ensures forall e :: e in edges && e.src != e.dst && e !in dag ==> Reaches(EdgeSet(dag), e.dst, e.src)
    ensures forall n :: n in layer ==> LongestWalkTo(EdgeSet(dag), n, layer[n])
  {
    var kept, _ := AcyclicEdges(order, DropSelfLoops(edges));
    dag := kept;
    layer := LongestPathLayers(order, kept);
  }

  /** A longest-path layering sends every kept edge to a strictly deeper layer ... */
  lemma LayersIncreaseAlongEdges(es: set<Edge>, layer: map<Node, nat>, e: Edge)
    requires forall n :: n in layer ==> LongestWalkTo(es, n, layer[n])
    requires e in es && e.src in layer && e.dst in layer
    ensures layer[e.src] < layer[e.dst]
  {
    ExtendAttained(es, e.src, e.dst, layer[e.src]);
  }

  /** ... and leaves no layer empty: a node at layer k > 0 has a predecessor at layer k - 1. */
  lemma PredecessorOneLayerUp(es: set<Edge>, layer: map<Node, nat>, n: Node) returns (u: Node)
    requires forall e :: e in es ==> e.src in layer && e.dst in layer
    requires forall m :: m in layer ==> LongestWalkTo(es, m, layer[m])
    requires n in layer && layer[n] > 0
    ensures Edge(u, n) in es && u in layer && layer[u] == layer[n] - 1
  {
    var p :| IsWalk(es, p) && p[|p| - 1] == n && |p| == layer[n] + 1;
    var last := |p| - 1;
    u := p[last - 1];
    assert Edge(p[last - 1], p[last]) in es;
    WalkSlice(es, p, 0, last);
    LayersIncreaseAlongEdges(es, layer, Edge(u, n));
    assert |p[..last]| - 1 <= layer[u];
  }

  lemma {:induction false} EveryLayerInhabited(es: set<Edge>, layer: map<Node, nat>, n: Node, k: nat)
    requires forall e :: e in es ==> e.src in layer && e.dst in layer
    requires forall m :: m in layer ==> LongestWalkTo(es, m, layer[m])
    requires n in layer && k <= layer[n]
    ensures exists m :: m in layer && layer[m] == k
    decreases layer[n]
  {
    if k >= layer[n] {
    } else {
      var u := PredecessorOneLayerUp(es, layer, n);
      EveryLayerInhabited(es, layer, u, k);
    }
  }
}
