/** The contradiction graph of a falsification ledger and the depth-first cycle test
    that guards every new edge (`has_cycle` in falsify_ledger.py). */
module ContraGraph {

  /** One persisted edge triple; only `rel == "contra"` edges belong to the graph. */
  datatype Edge = Edge(src: string, rel: string, dst: string)

  function Contra(src: string, dst: string): Edge {
    Edge(src, "contra", dst)
  }

  /** A non-empty walk along contra edges. */
  ghost predicate IsPath(edges: seq<Edge>, p: seq<string>) {
    |p| >= 1 && forall i :: 0 <= i < |p| - 1 ==> Contra(p[i], p[i + 1]) in edges
  }

  ghost predicate IsPathBetween(edges: seq<Edge>, p: seq<string>, a: string, b: string) {
    IsPath(edges, p) && p[0] == a && p[|p| - 1] == b
  }

  ghost predicate Reaches(edges: seq<Edge>, a: string, b: string) {
    exists p :: IsPathBetween(edges, p, a, b)
  }

  /** No walk of at least one edge returns to where it began. */
  ghost predicate Acyclic(edges: seq<Edge>) {
    forall p :: IsPath(edges, p) && |p| >= 2 ==> p[0] != p[|p| - 1]
  }

  lemma ReachStep(edges: seq<Edge>, a: string, b: string, c: string)
    requires Reaches(edges, a, b) && Contra(b, c) in edges
    ensures Reaches(edges, a, c)
  {
    var p :| IsPathBetween(edges, p, a, b);
    assert IsPathBetween(edges, p + [c], a, c);
  }

  /** A set closed under successors traps every walk that starts in it. */
  lemma {:induction false} ClosedSetTraps(edges: seq<Edge>, s: set<string>, p: seq<string>, k: nat)
    requires IsPath(edges, p) && p[0] in s && k < |p|
    requires forall a, b :: a in s && Contra(a, b) in edges ==> b in s
    ensures p[k] in s
  {
    if k > 0 {
      ClosedSetTraps(edges, s, p, k - 1);
      assert Contra(p[k - 1], p[k]) in edges;
    }
  }

  /** A walk that avoids the last edge is a walk of the graph without it. */
  lemma PathWithoutNewEdge(edges: seq<Edge>, e: Edge, p: seq<string>)
    requires IsPath(edges + [e], p)
    requires forall i :: 0 <= i < |p| - 1 ==> Contra(p[i], p[i + 1]) != e
    ensures IsPath(edges, p)
  {
  }

  /** Walking back from `dst` to `src` and then over the new edge is a cycle. */
  lemma ReturnPathIsCycle(edges: seq<Edge>, src: string, dst: string, p: seq<string>)
    requires IsPathBetween(edges, p, dst, src) && Contra(src, dst) in edges
    ensures !Acyclic(edges)
  {
    var loop := [src] + p;
    assert IsPath(edges, loop) && |loop| >= 2 && loop[0] == loop[|loop| - 1];
  }

  /** A cycle, started right after one of its edges, leads back to that edge's source. */
  lemma RotateCycle(edges: seq<Edge>, p: seq<string>, i: nat)
    requires IsPath(edges, p) && i < |p| - 1 && p[0] == p[|p| - 1]
    ensures Reaches(edges, p[i + 1], p[i])
  {
    var q := p[i + 1..] + p[1..i + 1];
    var tail := |p| - (i + 1);
    forall k | 0 <= k < |q| - 1 ensures Contra(q[k], q[k + 1]) in edges {
      if k < tail - 1 {
        assert Contra(p[i + 1 + k], p[i + 1 + k + 1]) in edges;
      } else if k == tail - 1 {
        assert Contra(p[0], p[1]) in edges;
      } else {
        assert Contra(p[1 + k - tail], p[1 + k - tail + 1]) in edges;
      }
    }
    assert IsPathBetween(edges, q, p[i + 1], p[i]);
  }

  /** Adding `src -> dst` to an acyclic graph closes a cycle exactly when `dst`
      already leads back to `src` (a self edge included). */
  lemma NewEdgeClosesCycle(edges: seq<Edge>, src: string, dst: string)
    requires Acyclic(edges)
    ensures Reaches(edges + [Contra(src, dst)], dst, src) <==> !Acyclic(edges + [Contra(src, dst)])
  {
    var e := Contra(src, dst);
    var es := edges + [e];
    if Reaches(es, dst, src) {
      var p :| IsPathBetween(es, p, dst, src);
      ReturnPathIsCycle(es, src, dst, p);
    }
    if !Acyclic(es) {
      var p :| IsPath(es, p) && |p| >= 2 && p[0] == p[|p| - 1];
      if i :| 0 <= i < |p| - 1 && Contra(p[i], p[i + 1]) == e {
        RotateCycle(es, p, i);
      } else {
        PathWithoutNewEdge(edges, e, p);
        assert false;
      }
    }
  }

  /** The successors recorded for every node are exactly the contra edges seen so far. */
  ghost predicate AdjacencyOf(adj: map<string, seq<string>>, edges: seq<Edge>) {
    forall a, b :: Contra(a, b) in edges <==> a in adj && b in adj[a]
  }

  function Append(adj: map<string, seq<string>>, a: string, b: string): map<string, seq<string>> {
    adj[a := (if a in adj then adj[a] else []) + [b]]
  }

  /** The search frontier: everything reached so far is on `seen` or `stack`, and every
      successor of a visited node is too. `pending` is a node popped but not yet visited. */
  ghost predicate FrontierWith(edges: seq<Edge>, dst: string, nodes: set<string>, seen: set<string>,
                               stack: seq<string>, pending: set<string>) {
    && seen <= nodes
    && (forall n :: n in stack || n in pending ==> n in nodes && Reaches(edges, dst, n))
    && (dst in seen || dst in stack || dst in pending)
    && (forall a, b :: a in seen && Contra(a, b) in edges ==> b in seen || b in stack || b in pending)
  }

  ghost predicate Frontier(edges: seq<Edge>, dst: string, nodes: set<string>, seen: set<string>,
                           stack: seq<string>) {
    FrontierWith(edges, dst, nodes, seen, stack, {})
  }

  lemma StartFrontier(edges: seq<Edge>, src: string, dst: string, nodes: set<string>)
    requires Contra(src, dst) in edges && nodes == set e | e in edges :: e.dst
    ensures Frontier(edges, dst, nodes, {}, [dst])
  {
    assert Contra(src, dst).dst == dst;
    assert IsPathBetween(edges, [dst], dst, dst);
  }

  lemma PopFrontier(edges: seq<Edge>, dst: string, nodes: set<string>, seen: set<string>, stack: seq<string>)
    requires stack != [] && Frontier(edges, dst, nodes, seen, stack)
    ensures FrontierWith(edges, dst, nodes, seen, stack[..|stack| - 1], {stack[|stack| - 1]})
    ensures stack[|stack| - 1] in nodes && Reaches(edges, dst, stack[|stack| - 1])
  {
    var top := stack[|stack| - 1];
    var rest := stack[..|stack| - 1];
    assert stack == rest + [top];
    assert forall n :: n in stack <==> n in rest || n == top;
  }

  lemma ExpandFrontier(edges: seq<Edge>, dst: string, nodes: set<string>, seen: set<string>,
                       stack: seq<string>, node: string, next: seq<string>)
    requires FrontierWith(edges, dst, nodes, seen, stack, {node})
    requires nodes == set e | e in edges :: e.dst
    requires forall b :: b in next <==> Contra(node, b) in edges
    ensures Frontier(edges, dst, nodes, seen + {node}, stack + next)
  {
    forall n | n in next ensures n in nodes && Reaches(edges, dst, n) {
      assert Contra(node, n) in edges;
      assert Contra(node, n).dst == n;
      ReachStep(edges, dst, node, n);
    }
  }

  lemma SkipFrontier(edges: seq<Edge>, dst: string, nodes: set<string>, seen: set<string>,
                     stack: seq<string>, node: string)
    requires FrontierWith(edges, dst, nodes, seen, stack, {node}) && node in seen
    ensures Frontier(edges, dst, nodes, seen, stack)
  {
  }

  /** An exhausted search has visited everything that can be reached. */
  lemma ExhaustedFrontier(edges: seq<Edge>, src: string, dst: string, nodes: set<string>, seen: set<string>)
    requires Frontier(edges, dst, nodes, seen, []) && src !in seen
    ensures !Reaches(edges, dst, src)
  {
    if Reaches(edges, dst, src) {
      var p :| IsPathBetween(edges, p, dst, src);
      ClosedSetTraps(edges, seen, p, |p| - 1);
      assert false;
    }
  }

  /** The adjacency map of the existing contra edges plus the proposed one. */
  method BuildAdjacency(edges: seq<Edge>, src: string, dst: string) returns (adj: map<string, seq<string>>)
    ensures AdjacencyOf(adj, edges + [Contra(src, dst)])
  {
    adj := map[];
    for i := 0 to |edges|
      invariant AdjacencyOf(adj, edges[..i])
    {
      if edges[i].rel == "contra" {
        adj := Append(adj, edges[i].src, edges[i].dst);
      }
      assert edges[..i + 1] == edges[..i] + [edges[i]];
    }
    assert edges[..|edges|] == edges;
    adj := Append(adj, src, dst);
  }

  /** `has_cycle`: iterative depth-first search from `dst` over the existing contra edges
      plus the proposed one. Sound and complete on every graph, terminating on every graph. */
  method HasCycle(edges: seq<Edge>, src: string, dst: string) returns (found: bool)
    ensures found <==> Reaches(edges + [Contra(src, dst)], dst, src)
    ensures Acyclic(edges) ==> (found <==> !Acyclic(edges + [Contra(src, dst)]))
  {
    hide FrontierWith, Acyclic;
    if Acyclic(edges) {
      NewEdgeClosesCycle(edges, src, dst);
    }
    ghost var es := edges + [Contra(src, dst)];
    var adj := BuildAdjacency(edges, src, dst);
    ghost var nodes := set e | e in es :: e.dst;
    var seen: set<string> := {};
    var stack := [dst];
    StartFrontier(es, src, dst, nodes);
    while stack != []
      invariant Frontier(es, dst, nodes, seen, stack)
      invariant src !in seen && seen <= nodes
      decreases |nodes - seen|, |stack|
    {
      var node := stack[|stack| - 1];
      PopFrontier(es, dst, nodes, seen, stack);
      stack := stack[..|stack| - 1];
      if node == src {
        return true;
      }
      if node in seen {
        SkipFrontier(es, dst, nodes, seen, stack, node);
        continue;
      }
      var next := if node in adj then adj[node] else [];
      ExpandFrontier(es, dst, nodes, seen, stack, node, next);
      assert nodes - (seen + {node}) == (nodes - seen) - {node};
      seen := seen + {node};
      stack := stack + next;
    }
    ExhaustedFrontier(es, src, dst, nodes, seen);
    return false;
  }
}
