/** Which relations a view shows (packages/studio-ui/src/scope.lib.ts). */
module StudioScope {
  import opened Wrappers
  import opened Sequences
  import opened StudioGraph
  import opened StudioView

  // ---------- tracing ----------

  datatype End = FromEnd | ToEnd

  function At(e: Relation, end: End): string {
    if end == FromEnd then e.from else e.to
  }

  ghost predicate Joined(a: string, b: string, edges: seq<Relation>, tail: End, head: End) {
    exists e :: e in edges && At(e, tail) == a && At(e, head) == b
  }

  ghost predicate IsPath(p: seq<string>, seeds: seq<string>, edges: seq<Relation>, tail: End, head: End) {
    && p != [] && p[0] in seeds
    && forall i :: 0 <= i < |p| - 1 ==> Joined(p[i], p[i + 1], edges, tail, head)
  }

  /** Some chain of edges leads from a seed to the node. */
  ghost predicate Reachable(id: string, seeds: seq<string>, edges: seq<Relation>, tail: End, head: End) {
    exists p :: IsPath(p, seeds, edges, tail, head) && p[|p| - 1] == id
  }

  function Ends(edges: seq<Relation>): set<string> {
    set e, end | e in edges && end in {FromEnd, ToEnd} :: At(e, end)
  }

  /** Nodes found so far are distinct, reachable, and include the seeds. */
  ghost predicate Found(nodes: seq<string>, seeds: seq<string>, edges: seq<Relation>, tail: End, head: End) {
    && Distinct(nodes)
    && (forall n :: n in nodes ==> Reachable(n, seeds, edges, tail, head) && n in Universe(seeds, edges))
    && (forall s :: s in seeds ==> s in nodes)
  }

  /** Every edge leaving a visited node has been traversed and its other end found. */
  ghost predicate Followed(n: string, nodes: seq<string>, traversed: set<Relation>, edges: seq<Relation>, tail: End, head: End) {
    forall e :: e in edges && At(e, tail) == n ==> e in traversed && At(e, head) in nodes
  }

  ghost predicate OnlyFrom(traversed: set<Relation>, nodes: seq<string>, edges: seq<Relation>, tail: End) {
    forall e :: e in traversed ==> e in edges && At(e, tail) in nodes
  }

  /** The set of nodes grows while it is iterated; what was traversed is exactly the edges leaving reachable nodes. */
  method Trace(seeds: seq<string>, edges: seq<Relation>, tail: End, head: End) returns (traversed: set<Relation>)
    ensures forall e :: e in traversed <==> e in edges && Reachable(At(e, tail), seeds, edges, tail, head)
  {
    var nodes := Start(seeds, edges, tail, head);
    traversed := {};
    var i := 0;
    ghost var visited: set<string> := {};
    while i < |nodes|
      invariant 0 <= i <= |nodes| && Found(nodes, seeds, edges, tail, head)
      invariant Visited(visited, nodes, i)
      invariant AllFollowed(visited, nodes, traversed, edges, tail, head)
      invariant OnlyFrom(traversed, nodes, edges, tail)
      decreases Universe(seeds, edges) - visited
    {
      ghost var before, beforeTraversed := nodes, traversed;
      nodes, traversed := FollowFrom(nodes[i], nodes, traversed, seeds, edges, tail, head);
      VisitNext(visited, before, nodes, i);
      visited := visited + {nodes[i]};
      i := i + 1;
    }
    assert nodes[..i] == nodes;
    Exhausted(nodes, traversed, seeds, edges, tail, head);
  }

  function Universe(seeds: seq<string>, edges: seq<Relation>): set<string> {
    (set s | s in seeds) + Ends(edges)
  }

  ghost predicate Visited(visited: set<string>, nodes: seq<string>, i: nat)
    requires i <= |nodes|
  {
    forall n :: n in visited <==> n in nodes[..i]
  }

  ghost predicate AllFollowed(visited: set<string>, nodes: seq<string>, traversed: set<Relation>, edges: seq<Relation>, tail: End, head: End) {
    forall n :: n in visited ==> Followed(n, nodes, traversed, edges, tail, head)
  }

  lemma VisitNext(visited: set<string>, nodes: seq<string>, nodes': seq<string>, i: nat)
    requires i < |nodes| && nodes <= nodes' && Visited(visited, nodes, i)
    ensures Visited(visited + {nodes[i]}, nodes', i + 1)
  {
    assert nodes'[..i + 1] == nodes[..i] + [nodes[i]];
  }

  method Start(seeds: seq<string>, ghost edges: seq<Relation>, ghost tail: End, ghost head: End) returns (nodes: seq<string>)
    ensures Found(nodes, seeds, edges, tail, head)
  {
    nodes := [];
    for i := 0 to |seeds|
      invariant Distinct(nodes)
      invariant forall n :: n in nodes <==> n in seeds[..i]
    {
      nodes := Add(nodes, seeds[i]);
      assert seeds[..i + 1] == seeds[..i] + [seeds[i]];
    }
    assert seeds[..|seeds|] == seeds;
    forall n | n in nodes ensures Reachable(n, seeds, edges, tail, head) { SeedReachable(n, seeds, edges, tail, head); }
  }

  /** The inner loop: one node's edges. */
  method FollowFrom(n: string, nodes: seq<string>, traversed: set<Relation>,
                    ghost seeds: seq<string>, edges: seq<Relation>, tail: End, head: End)
    returns (nodes': seq<string>, traversed': set<Relation>)
    requires n in nodes && Found(nodes, seeds, edges, tail, head) && OnlyFrom(traversed, nodes, edges, tail)
    ensures nodes <= nodes' && traversed <= traversed'
    ensures Found(nodes', seeds, edges, tail, head) && OnlyFrom(traversed', nodes', edges, tail)
    ensures Followed(n, nodes', traversed', edges, tail, head)
  {
    nodes', traversed' := nodes, traversed;
    for j := 0 to |edges|
      invariant nodes <= nodes' && traversed <= traversed'
      invariant Following(n, nodes', traversed', seeds, edges, j, tail, head)
    {
      if At(edges[j], tail) == n {
        TakeEdge(n, nodes', traversed', seeds, edges, j, tail, head);
        traversed' := traversed' + {edges[j]};
        nodes' := Add(nodes', At(edges[j], head));
      } else {
        PassEdge(n, nodes', traversed', seeds, edges, j, tail, head);
      }
    }
    assert edges[..|edges|] == edges;
  }

  ghost predicate Following(n: string, nodes: seq<string>, traversed: set<Relation>,
                            seeds: seq<string>, edges: seq<Relation>, j: nat, tail: End, head: End)
    requires j <= |edges|
  {
    && n in nodes && Found(nodes, seeds, edges, tail, head) && OnlyFrom(traversed, nodes, edges, tail)
    && Followed(n, nodes, traversed, edges[..j], tail, head)
  }

  lemma AddKeepsFound(nodes: seq<string>, id: string, seeds: seq<string>, edges: seq<Relation>, tail: End, head: End)
    requires Found(nodes, seeds, edges, tail, head) && Reachable(id, seeds, edges, tail, head) && id in Ends(edges)
    ensures Found(Add(nodes, id), seeds, edges, tail, head)
  {
  }

  lemma FollowedNext(n: string, nodes: seq<string>, traversed: set<Relation>, edges: seq<Relation>, j: nat, tail: End, head: End)
    requires j < |edges| && Followed(n, nodes, traversed, edges[..j], tail, head)
    requires At(edges[j], tail) == n ==> edges[j] in traversed && At(edges[j], head) in nodes
    ensures Followed(n, nodes, traversed, edges[..j + 1], tail, head)
  {
    assert edges[..j + 1] == edges[..j] + [edges[j]];
  }

  lemma TakeEdge(n: string, nodes: seq<string>, traversed: set<Relation>,
                 seeds: seq<string>, edges: seq<Relation>, j: nat, tail: End, head: End)
    requires j < |edges| && At(edges[j], tail) == n && Following(n, nodes, traversed, seeds, edges, j, tail, head)
    ensures Following(n, Add(nodes, At(edges[j], head)), traversed + {edges[j]}, seeds, edges, j + 1, tail, head)
  {
    NextReachable(n, edges[j], seeds, edges, tail, head);
    AddKeepsFound(nodes, At(edges[j], head), seeds, edges, tail, head);
    FollowedNext(n, Add(nodes, At(edges[j], head)), traversed + {edges[j]}, edges, j, tail, head);
  }

  lemma PassEdge(n: string, nodes: seq<string>, traversed: set<Relation>,
                 seeds: seq<string>, edges: seq<Relation>, j: nat, tail: End, head: End)
    requires j < |edges| && At(edges[j], tail) != n && Following(n, nodes, traversed, seeds, edges, j, tail, head)
    ensures Following(n, nodes, traversed, seeds, edges, j + 1, tail, head)
  {
    FollowedNext(n, nodes, traversed, edges, j, tail, head);
  }

  lemma SeedReachable(n: string, seeds: seq<string>, edges: seq<Relation>, tail: End, head: End)
    requires n in seeds
    ensures Reachable(n, seeds, edges, tail, head)
  {
    assert IsPath([n], seeds, edges, tail, head);
  }

  lemma NextReachable(n: string, e: Relation, seeds: seq<string>, edges: seq<Relation>, tail: End, head: End)
    requires Reachable(n, seeds, edges, tail, head) && e in edges && At(e, tail) == n
    ensures Reachable(At(e, head), seeds, edges, tail, head) && At(e, head) in Ends(edges)
  {
    var p :| IsPath(p, seeds, edges, tail, head) && p[|p| - 1] == n;
    var q := p + [At(e, head)];
    assert Joined(n, At(e, head), edges, tail, head);
    assert IsPath(q, seeds, edges, tail, head) && q[|q| - 1] == At(e, head);
  }

  /** A path never leaves the nodes once all of them are followed. */
  lemma {:induction false} PathStays(p: seq<string>, nodes: seq<string>, traversed: set<Relation>,
                                     seeds: seq<string>, edges: seq<Relation>, tail: End, head: End)
    requires IsPath(p, seeds, edges, tail, head) && Found(nodes, seeds, edges, tail, head)
    requires forall n :: n in nodes ==> Followed(n, nodes, traversed, edges, tail, head)
    ensures p[|p| - 1] in nodes
  {
    if |p| > 1 {
      var init := p[..|p| - 1];
      assert IsPath(init, seeds, edges, tail, head) by {
        forall i | 0 <= i < |init| - 1 ensures Joined(init[i], init[i + 1], edges, tail, head) {
          assert Joined(p[i], p[i + 1], edges, tail, head);
        }
      }
      PathStays(init, nodes, traversed, seeds, edges, tail, head);
      assert Joined(p[|p| - 2], p[|p| - 2 + 1], edges, tail, head);
    }
  }

  lemma Exhausted(nodes: seq<string>, traversed: set<Relation>, seeds: seq<string>, edges: seq<Relation>, tail: End, head: End)
    requires Found(nodes, seeds, edges, tail, head) && OnlyFrom(traversed, nodes, edges, tail)
    requires forall n :: n in nodes ==> Followed(n, nodes, traversed, edges, tail, head)
    ensures forall e :: e in traversed <==> e in edges && Reachable(At(e, tail), seeds, edges, tail, head)
  {
    forall e | e in edges && Reachable(At(e, tail), seeds, edges, tail, head)
      ensures e in traversed
    {
      var p :| IsPath(p, seeds, edges, tail, head) && p[|p| - 1] == At(e, tail);
      PathStays(p, nodes, traversed, seeds, edges, tail, head);
      assert Followed(At(e, tail), nodes, traversed, edges, tail, head);
    }
  }

  // ---------- scopes ----------

  function RelationKind(e: Relation): string {
    match e.origin
    case FromPlugin(kind, _) => kind
    case FromTypeScript(kind, meanings) => if meanings == [] then kind else meanings[0]
  }

  function GrantedKind(e: Relation): Option<string> {
    if e.origin.FromPlugin? then Some(e.origin.kind) else None
  }

  function Focus(v: View): Option<string> {
    if v.scope.Locked? then Some(v.scope.anchor) else v.node
  }

  /** A group stands for itself and its members. */
  function Seeds(g: Graph, id: string): seq<string> {
    if id in g.groups then
      var members := g.groups[id].members;
      [id] + seq(|members|, i requires 0 <= i < |members| => members[i].id)
    else [id]
  }

  predicate NotMiddleware(e: Relation) {
    GrantedKind(e) != Some("middleware")
  }

  function IsNear(start: seq<string>): Relation -> bool {
    (e: Relation) => e.from in start || e.to in start
  }

  /** Downstream of the start, or upstream of it. */
  ghost function IsInFlow(start: seq<string>, edges: seq<Relation>): Relation -> bool {
    (e: Relation) => Reachable(e.from, start, edges, FromEnd, ToEnd) || Reachable(e.to, start, edges, ToEnd, FromEnd)
  }

  ghost function ScopeRelations(g: Graph, v: View): seq<Relation> {
    if v.scope.mode == All then g.relations
    else
      match Focus(v)
      case None => []
      case Some(id) =>
        var edges := Filter(g.relations, NotMiddleware);
        if v.scope.mode == Near then Filter(edges, IsNear(Seeds(g, id)))
        else Filter(edges, IsInFlow(Seeds(g, id), edges))
  }

  method ComputeScopeRelations(g: Graph, v: View) returns (r: seq<Relation>)
    ensures r == ScopeRelations(g, v)
  {
    if v.scope.mode == All { return g.relations; }
    var id := Focus(v);
    if id.None? { return []; }
    var start := Seeds(g, id.value);
    var edges := Filter(g.relations, NotMiddleware);
    if v.scope.mode == Near { return Filter(edges, IsNear(start)); }
    var use := Trace(start, edges, FromEnd, ToEnd);
    var usedBy := Trace(start, edges, ToEnd, FromEnd);
    r := Filter(edges, (e: Relation) => e in use || e in usedBy);
    FilterSame(edges, (e: Relation) => e in use || e in usedBy, IsInFlow(start, edges));
  }

  /** The near scope is the part of the flow scope that touches the focus, and both keep the order of the graph. */
  lemma ScopesNest(g: Graph, v: View, id: string)
    requires Focus(v) == Some(id)
    ensures var near := ScopeRelations(g, v.(scope := v.scope.(mode := Near)));
            var flow := ScopeRelations(g, v.(scope := v.scope.(mode := Flow)));
            var all := ScopeRelations(g, v.(scope := v.scope.(mode := All)));
            var edges := Filter(all, NotMiddleware);
            && near == Filter(flow, IsNear(Seeds(g, id)))
            && flow == Filter(edges, IsInFlow(Seeds(g, id), edges))
            && all == g.relations
            && (forall e :: e in near ==> e in flow) && (forall e :: e in flow ==> e in all)
  {
    var start, edges := Seeds(g, id), Filter(g.relations, NotMiddleware);
    forall e | e in edges && IsNear(start)(e) ensures IsInFlow(start, edges)(e) {
      if e.from in start { SeedReachable(e.from, start, edges, FromEnd, ToEnd); }
      else { SeedReachable(e.to, start, edges, ToEnd, FromEnd); }
    }
    FilterThrough(edges, IsInFlow(start, edges), IsNear(start));
    forall e
      ensures e in Filter(edges, IsNear(start)) ==> e in Filter(edges, IsInFlow(start, edges))
      ensures e in Filter(edges, IsInFlow(start, edges)) ==> e in g.relations
    {
      FilterMember(edges, IsNear(start), e);
      FilterMember(edges, IsInFlow(start, edges), e);
      FilterMember(g.relations, NotMiddleware, e);
    }
  }
}
