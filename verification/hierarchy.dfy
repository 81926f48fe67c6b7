/** Reachability along one or more edges, the notion both traversals of the role hierarchy compute. */
module Graphs {
  type Node = nat
  type Graph = set<(Node, Node)>

  ghost predicate Path(g: Graph, p: seq<Node>, a: Node, b: Node) {
    && |p| >= 2 && p[0] == a && p[|p| - 1] == b
    && forall i :: 0 <= i < |p| - 1 ==> (p[i], p[i + 1]) in g
  }

  ghost predicate Reaches(g: Graph, a: Node, b: Node) {
    exists p: seq<Node> :: Path(g, p, a, b)
  }

  ghost predicate ReachesOrIs(g: Graph, a: Node, b: Node) {
    a == b || Reaches(g, a, b)
  }

  ghost predicate Acyclic(g: Graph) {
    forall r :: !Reaches(g, r, r)
  }

  function Targets(g: Graph): set<Node> {
    set e | e in g :: e.1
  }

  lemma Hop(g: Graph, a: Node, b: Node)
    requires (a, b) in g
    ensures Reaches(g, a, b)
  {
    assert Path(g, [a, b], a, b);
  }

  lemma FirstArc(g: Graph, a: Node)
    ensures (exists b :: Reaches(g, a, b)) ==> exists e :: e in g && e.0 == a
  {
    if b :| Reaches(g, a, b) {
      var p :| Path(g, p, a, b);
      assert (p[0], p[1]) in g;
    }
  }

  lemma Joined(g: Graph, a: Node, b: Node, c: Node)
    requires Reaches(g, a, b) && Reaches(g, b, c)
    ensures Reaches(g, a, c)
  {
    var p :| Path(g, p, a, b);
    var q :| Path(g, q, b, c);
    assert Path(g, p + q[1..], a, c);
  }

  lemma Extended(g: Graph, a: Node, b: Node, c: Node)
    requires ReachesOrIs(g, a, b) && (b, c) in g
    ensures Reaches(g, a, c)
  {
    Hop(g, b, c);
    if a != b { Joined(g, a, b, c); }
  }

  /** A set that holds every child of `a` and is closed under edges holds all that `a` reaches. */
  lemma ClosedHolds(g: Graph, s: set<Node>, a: Node, b: Node)
    requires forall e :: e in g && (e.0 == a || e.0 in s) ==> e.1 in s
    requires Reaches(g, a, b)
    ensures b in s
  {
    var p :| Path(g, p, a, b);
    PathStaysIn(g, s, p, |p| - 1);
  }

  lemma {:induction false} PathStaysIn(g: Graph, s: set<Node>, p: seq<Node>, i: nat)
    requires |p| >= 2 && Path(g, p, p[0], p[|p| - 1]) && 1 <= i < |p|
    requires forall e :: e in g && (e.0 == p[0] || e.0 in s) ==> e.1 in s
    ensures p[i] in s
  {
    assert (p[i - 1], p[i]) in g;
    if i > 1 { PathStaysIn(g, s, p, i - 1); }
  }

  lemma MoreEdgesReachMore(g: Graph, h: Graph, a: Node, b: Node)
    requires g <= h && Reaches(g, a, b)
    ensures Reaches(h, a, b)
  {
    var p :| Path(g, p, a, b);
    assert Path(h, p, a, b);
  }

  /** A path in the graph with one more edge either avoids that edge or splits at it. */
  lemma {:induction false} SplitAtEdge(g: Graph, parent: Node, child: Node, p: seq<Node>, a: Node, b: Node)
    requires Path(g + {(parent, child)}, p, a, b)
    ensures Reaches(g, a, b) || (ReachesOrIs(g, a, parent) && ReachesOrIs(g, child, b))
    decreases p
  {
    var h := g + {(parent, child)};
    assert (p[0], p[1]) in h;
    if |p| == 2 {
      if (a, b) in g { Hop(g, a, b); }
    } else {
      assert Path(h, p[1..], p[1], b);
      SplitAtEdge(g, parent, child, p[1..], p[1], b);
      if (a, p[1]) in g {
        Hop(g, a, p[1]);
        if Reaches(g, p[1], b) { Joined(g, a, p[1], b); }
        else if p[1] != parent { Joined(g, a, p[1], parent); }
      }
    }
  }

  /** On any graph: the new edge lies on a cycle exactly when its source is its target or is reached from it. */
  lemma EdgeOnCycleIff(g: Graph, parent: Node, child: Node)
    ensures ReachesOrIs(g, child, parent) <==> ReachesOrIs(g + {(parent, child)}, child, parent)
  {
    var h := g + {(parent, child)};
    if Reaches(g, child, parent) { MoreEdgesReachMore(g, h, child, parent); }
    if child != parent && Reaches(h, child, parent) {
      var p :| Path(h, p, child, parent);
      SplitAtEdge(g, parent, child, p, child, parent);
    }
  }

  /** On an acyclic graph: the edge closes a cycle exactly when its source is its target or is reached from it. */
  lemma CycleIff(g: Graph, parent: Node, child: Node)
    requires Acyclic(g)
    ensures ReachesOrIs(g, child, parent) <==> !Acyclic(g + {(parent, child)})
  {
    var h := g + {(parent, child)};
    if ReachesOrIs(g, child, parent) {
      Hop(h, parent, child);
      if child != parent {
        MoreEdgesReachMore(g, h, child, parent);
        Joined(h, parent, child, parent);
      }
      assert Reaches(h, parent, parent);
    }
    if r :| Reaches(h, r, r) {
      var p :| Path(h, p, r, r);
      SplitAtEdge(g, parent, child, p, r, r);
      if child != r && r != parent { Joined(g, child, r, parent); }
    }
  }

  lemma FewerEdgesStayAcyclic(g: Graph, h: Graph)
    requires g <= h && Acyclic(h)
    ensures Acyclic(g)
  {
    forall r ensures !Reaches(g, r, r) {
      if Reaches(g, r, r) { MoreEdgesReachMore(g, h, r, r); }
    }
  }
}

/** The role hierarchy (backend/app/authorization/services.py:408-480) and the permission engine's own
    traversal of it (backend/app/authorization/engine.py:137-165). */
module Hierarchy {
  import opened Wrappers
  import opened Graphs

  type RoleId = Node

  datatype Edge = Edge(id: nat, parent: RoleId, child: RoleId)

  function Arcs(rows: seq<Edge>): Graph {
    set e | e in rows :: (e.parent, e.child)
  }

  /** The children of a role in row order. */
  function ChildrenOf(rows: seq<Edge>, role: RoleId): seq<RoleId> {
    if rows == [] then []
    else ChildrenOf(rows[..|rows| - 1], role)
         + if rows[|rows| - 1].parent == role then [rows[|rows| - 1].child] else []
  }

  lemma {:induction false} ChildrenAreArcs(rows: seq<Edge>, role: RoleId)
    ensures forall c :: c in ChildrenOf(rows, role) <==> (role, c) in Arcs(rows)
  {
    if rows != [] {
      var last := rows[|rows| - 1];
      ChildrenAreArcs(rows[..|rows| - 1], role);
      assert rows == rows[..|rows| - 1] + [last];
      assert Arcs(rows) == Arcs(rows[..|rows| - 1]) + {(last.parent, last.child)};
    }
  }

  /** Breadth first, marking a child when it is queued. */
  method ReachableChildren(rows: seq<Edge>, start: RoleId) returns (seen: set<RoleId>)
    ensures forall r :: r in seen <==> Reaches(Arcs(rows), start, r)
  {
    ghost var g := Arcs(rows);
    seen := {};
    var queue := [start];
    while queue != []
      invariant forall q :: q in queue ==> q == start || q in seen
      invariant seen <= Targets(g)
      invariant forall r :: r in seen ==> Reaches(g, start, r)
      invariant forall e :: e in g && (e.0 == start || e.0 in seen) && e.0 !in queue ==> e.1 in seen
      decreases Targets(g) - seen, |queue|
    {
      var node := queue[0];
      var rest := queue[1..];
      assert queue == [node] + rest;
      queue := rest;
      var children := ChildrenOf(rows, node);
      ChildrenAreArcs(rows, node);
      ghost var before := seen;
      for i := 0 to |children|
        invariant before <= seen <= Targets(g)
        invariant seen == before ==> queue == rest
        invariant forall j :: 0 <= j < i ==> children[j] in seen
        invariant forall r :: r in seen ==> Reaches(g, start, r)
        invariant forall q :: q in rest || q in seen - before ==> q in queue
        invariant forall q :: q in queue ==> q == start || q in seen
      {
        var child := children[i];
        assert child in children;
        if child !in seen {
          Extended(g, start, node, child);
          seen := seen + {child};
          queue := queue + [child];
        }
      }
    }
    forall r | Reaches(g, start, r) ensures r in seen {
      ClosedHolds(g, seen, start, r);
    }
  }

  /** The engine's adjacency lists, built row by row. */
  method ChildLists(rows: seq<Edge>) returns (children: map<RoleId, seq<RoleId>>)
    ensures forall r :: (if r in children then children[r] else []) == ChildrenOf(rows, r)
  {
    children := map[];
    for i := 0 to |rows|
      invariant forall r :: (if r in children then children[r] else []) == ChildrenOf(rows[..i], r)
    {
      var e := rows[i];
      assert rows[..i + 1][..i] == rows[..i];
      children := children[e.parent := (if e.parent in children then children[e.parent] else []) + [e.child]];
    }
    assert rows[..|rows|] == rows;
  }

  /** Everything marked or stacked is reached, and every edge out of a marked role leads to one of them. */
  ghost predicate Frontier(g: Graph, root: RoleId, seen: set<RoleId>, stack: seq<RoleId>) {
    && (forall r :: r in seen ==> Reaches(g, root, r) && r in Targets(g))
    && (forall r :: r in stack ==> Reaches(g, root, r) && r in Targets(g))
    && (forall e :: e in g && (e.0 == root || e.0 in seen) ==> e.1 in seen || e.1 in stack)
  }

  lemma Visit(g: Graph, root: RoleId, seen: set<RoleId>, rest: seq<RoleId>, node: RoleId, more: seq<RoleId>)
    requires Frontier(g, root, seen, rest + [node])
    requires forall c :: c in more <==> (node, c) in g
    ensures Frontier(g, root, seen + {node}, rest + more)
  {
    assert node in rest + [node];
    forall c | c in more ensures Reaches(g, root, c) && c in Targets(g) {
      Extended(g, root, node, c);
      assert (node, c) in g;
    }
    forall e | e in g && (e.0 == root || e.0 in seen + {node})
      ensures e.1 in seen + {node} || e.1 in rest + more
    {
      if e.0 == node {
        assert (node, e.1) in g;
      }
    }
  }

  /** Depth first, marking a role when it is taken off the stack. */
  method Descendants(rows: seq<Edge>, role: RoleId) returns (seen: set<RoleId>)
    ensures forall r :: r in seen <==> Reaches(Arcs(rows), role, r)
  {
    ghost var g := Arcs(rows);
    var children := ChildLists(rows);
    seen := {};
    var stack := if role in children then children[role] else [];
    ChildrenAreArcs(rows, role);
    StartFrontier(g, role, stack);
    while stack != []
      invariant Frontier(g, role, seen, stack)
      decreases Targets(g) - seen, |stack|
    {
      var node := stack[|stack| - 1];
      var rest := stack[..|stack| - 1];
      assert stack == rest + [node];
      assert node in stack;
      if node in seen {
        stack := rest;
      } else {
        var more := if node in children then children[node] else [];
        ChildrenAreArcs(rows, node);
        Visit(g, role, seen, rest, node, more);
        seen := seen + {node};
        stack := rest + more;
      }
    }
    forall r | Reaches(g, role, r) ensures r in seen {
      ClosedHolds(g, seen, role, r);
    }
  }

  lemma StartFrontier(g: Graph, root: RoleId, stack: seq<RoleId>)
    requires forall c :: c in stack <==> (root, c) in g
    ensures Frontier(g, root, {}, stack)
  {
    forall c | c in stack ensures Reaches(g, root, c) && c in Targets(g) {
      Hop(g, root, c);
    }
    forall e | e in g && e.0 == root ensures e.1 in stack {
      assert (root, e.1) in g;
    }
  }

  // ----- Edits -----

  datatype Op = Add(id: nat, parent: RoleId, child: RoleId) | Remove(id: nat) | DropRole(role: RoleId)

  predicate Deletes(op: Op, e: Edge) {
    match op
    case Add(_, _, _) => false
    case Remove(id) => e.id == id
    case DropRole(role) => e.parent == role || e.child == role
  }

  function Without(rows: seq<Edge>, op: Op): seq<Edge> {
    if rows == [] then []
    else Without(rows[..|rows| - 1], op) + if Deletes(op, rows[|rows| - 1]) then [] else [rows[|rows| - 1]]
  }

  lemma {:induction false} WithoutKeeps(rows: seq<Edge>, op: Op)
    ensures forall e :: e in Without(rows, op) <==> e in rows && !Deletes(op, e)
  {
    if rows != [] {
      WithoutKeeps(rows[..|rows| - 1], op);
      assert rows == rows[..|rows| - 1] + [rows[|rows| - 1]];
    }
  }

  lemma {:induction false} WithoutCounts(rows: seq<Edge>, op: Op)
    ensures forall e :: multiset(Without(rows, op))[e] == if Deletes(op, e) then 0 else multiset(rows)[e]
  {
    if rows != [] {
      WithoutCounts(rows[..|rows| - 1], op);
      assert rows == rows[..|rows| - 1] + [rows[|rows| - 1]];
    }
  }

  lemma {:induction false} NothingToDelete(rows: seq<Edge>, op: Op)
    requires forall e :: e in rows ==> !Deletes(op, e)
    ensures Without(rows, op) == rows
  {
    if rows != [] {
      assert rows[|rows| - 1] in rows;
      NothingToDelete(rows[..|rows| - 1], op);
    }
  }

  /** Deleting a role takes away exactly the edges that lead from it or to it. */
  lemma DroppedRoleLosesItsEdges(rows: seq<Edge>, role: RoleId)
    ensures forall e :: e in Apply(rows, DropRole(role)) <==> e in rows && e.parent != role && e.child != role
    ensures forall r :: !Reaches(Arcs(Apply(rows, DropRole(role))), role, r)
  {
    WithoutKeeps(rows, DropRole(role));
    FirstArc(Arcs(Apply(rows, DropRole(role))), role);
  }

  /** An edge is added unless it would close a cycle or is there already; deleting a role drops its edges. */
  ghost function Apply(rows: seq<Edge>, op: Op): seq<Edge> {
    match op
    case Add(id, parent, child) =>
      if ReachesOrIs(Arcs(rows), child, parent) || (parent, child) in Arcs(rows) then rows
      else rows + [Edge(id, parent, child)]
    case Remove(_) => Without(rows, op)
    case DropRole(_) => Without(rows, op)
  }

  ghost function ApplyAll(rows: seq<Edge>, ops: seq<Op>): seq<Edge> {
    if ops == [] then rows else Apply(ApplyAll(rows, ops[..|ops| - 1]), ops[|ops| - 1])
  }

  lemma EditKeepsAcyclic(rows: seq<Edge>, op: Op)
    requires Acyclic(Arcs(rows))
    ensures Acyclic(Arcs(Apply(rows, op)))
  {
    match op
    case Add(id, parent, child) =>
      CycleIff(Arcs(rows), parent, child);
      assert Arcs(rows + [Edge(id, parent, child)]) == Arcs(rows) + {(parent, child)};
    case Remove(_) =>
      WithoutKeeps(rows, op);
      FewerEdgesStayAcyclic(Arcs(Apply(rows, op)), Arcs(rows));
    case DropRole(_) =>
      WithoutKeeps(rows, op);
      FewerEdgesStayAcyclic(Arcs(Apply(rows, op)), Arcs(rows));
  }

  /** From an acyclic hierarchy every serialized run of edits stays acyclic. */
  lemma {:induction false} RunsStayAcyclic(rows: seq<Edge>, ops: seq<Op>)
    requires Acyclic(Arcs(rows))
    ensures Acyclic(Arcs(ApplyAll(rows, ops)))
  {
    if ops != [] {
      RunsStayAcyclic(rows, ops[..|ops| - 1]);
      EditKeepsAcyclic(ApplyAll(rows, ops[..|ops| - 1]), ops[|ops| - 1]);
    }
  }

  datatype Refusal = RoleNotFound | CircularHierarchy | EdgeNotFound

  class RoleHierarchy {
    var roles: set<RoleId>
    var edges: seq<Edge>

    constructor (roles: set<RoleId>)
      ensures this.roles == roles && edges == []
    {
      this.roles, edges := roles, [];
    }

    method WouldCreateCycle(parent: RoleId, child: RoleId) returns (cycle: bool)
      ensures cycle <==> ReachesOrIs(Arcs(edges), child, parent)
    {
      if parent == child {
        return true;
      }
      var below := ReachableChildren(edges, child);
      return parent in below;
    }

    method AddEdge(id: nat, parent: RoleId, child: RoleId) returns (r: Result<Edge, Refusal>)
      modifies this`edges
      ensures r.Ok? ==> r.value.parent == parent && r.value.child == child
      ensures r.Ok? ==>
                if (parent, child) in old(Arcs(edges)) then edges == old(edges) && r.value in edges
                else edges == old(edges) + [Edge(id, parent, child)] && r.value == Edge(id, parent, child)
      ensures r.Err? ==> edges == old(edges)
      ensures r == Err(RoleNotFound) <==> parent !in roles || child !in roles
      ensures r == Err(CircularHierarchy) <==>
                parent in roles && child in roles && (child == parent || old(Reaches(Arcs(edges), child, parent)))
      ensures r != Err(EdgeNotFound)
      ensures r != Err(RoleNotFound) ==> edges == Apply(old(edges), Add(id, parent, child))
      ensures old(Acyclic(Arcs(edges))) ==>
                && Acyclic(Arcs(edges))
                && (r == Err(CircularHierarchy) <==>
                      parent in roles && child in roles && !Acyclic(old(Arcs(edges)) + {(parent, child)}))
    {
      if parent !in roles || child !in roles {
        return Err(RoleNotFound);
      }
      if Acyclic(Arcs(edges)) {
        CycleIff(Arcs(edges), parent, child);
        EditKeepsAcyclic(edges, Add(id, parent, child));
      }
      var cycle := WouldCreateCycle(parent, child);
      if cycle {
        return Err(CircularHierarchy);
      }
      for i := 0 to |edges|
        invariant forall j :: 0 <= j < i ==> !(edges[j].parent == parent && edges[j].child == child)
      {
        if edges[i].parent == parent && edges[i].child == child {
          return Ok(edges[i]);
        }
      }
      edges := edges + [Edge(id, parent, child)];
      return Ok(Edge(id, parent, child));
    }

    method RemoveEdge(id: nat) returns (r: Result<(), Refusal>)
      modifies this`edges
      ensures forall e :: e in edges <==> e in old(edges) && e.id != id
      ensures forall e :: multiset(edges)[e] == if e.id == id then 0 else old(multiset(edges)[e])
      ensures edges == Apply(old(edges), Remove(id))
      ensures r.Err? <==> forall e :: e in old(edges) ==> e.id != id
      ensures r.Err? ==> r.error == EdgeNotFound && edges == old(edges)
    {
      WithoutKeeps(edges, Remove(id));
      WithoutCounts(edges, Remove(id));
      if forall e :: e in edges ==> e.id != id {
        NothingToDelete(edges, Remove(id));
      }
      var found := exists e :: e in edges && e.id == id;
      edges := Without(edges, Remove(id));
      return if found then Ok(()) else Err(EdgeNotFound);
    }
  }
}
