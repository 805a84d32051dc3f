/** Undirected multigraphs, as the passage table describes them.

    An edge is known by its row number in the table, so two rows between the same
    seats are two edges.  A graph is a forest when no edge's end points stay connected
    once that one edge is taken away; this also forbids self-loops and parallel edges. */
module Graphs {

  type Node = int

  datatype Edge = Edge(a: Node, b: Node)

  type Graph = map<nat, Edge>

  predicate Joins(e: Edge, u: Node, v: Node) {
    (e.a == u && e.b == v) || (e.a == v && e.b == u)
  }

  ghost predicate Adjacent(g: Graph, u: Node, v: Node) {
    exists i :: i in g && Joins(g[i], u, v)
  }

  /** `w` lists the nodes visited after `u`, ending in `v`. */
  ghost predicate Walk(g: Graph, u: Node, w: seq<Node>, v: Node)
    decreases |w|
  {
    if w == [] then u == v else Adjacent(g, u, w[0]) && Walk(g, w[0], w[1..], v)
  }

  ghost predicate Connected(g: Graph, u: Node, v: Node) {
    exists w :: Walk(g, u, w, v)
  }

  ghost predicate Forest(g: Graph) {
    forall i :: i in g ==> !Connected(g - {i}, g[i].a, g[i].b)
  }

  ghost predicate Subgraph(g: Graph, h: Graph) {
    forall i :: i in g ==> i in h && g[i] == h[i]
  }

  lemma {:induction false} WalkAppend(g: Graph, u: Node, w: seq<Node>, v: Node, w': seq<Node>, x: Node)
    requires Walk(g, u, w, v) && Walk(g, v, w', x)
    ensures Walk(g, u, w + w', x)
    decreases |w|
  {
    if w == [] {
      assert w + w' == w';
    } else {
      WalkAppend(g, w[0], w[1..], v, w', x);
      assert (w + w')[1..] == w[1..] + w';
    }
  }

  lemma ConnectedTrans(g: Graph, u: Node, v: Node, x: Node)
    requires Connected(g, u, v) && Connected(g, v, x)
    ensures Connected(g, u, x)
  {
    var w :| Walk(g, u, w, v);
    var w' :| Walk(g, v, w', x);
    WalkAppend(g, u, w, v, w', x);
  }

  lemma ConnectedRefl(g: Graph, u: Node)
    ensures Connected(g, u, u)
  {
    assert Walk(g, u, [], u);
  }

  lemma AdjacentConnected(g: Graph, u: Node, v: Node)
    requires Adjacent(g, u, v)
    ensures Connected(g, u, v)
  {
    assert Walk(g, v, [v][1..], v);
    assert Walk(g, u, [v], v);
  }

  lemma {:induction false} WalkReversed(g: Graph, u: Node, w: seq<Node>, v: Node)
    requires Walk(g, u, w, v)
    ensures Connected(g, v, u)
    decreases |w|
  {
    if w == [] {
      ConnectedRefl(g, u);
    } else {
      WalkReversed(g, w[0], w[1..], v);
      var i :| i in g && Joins(g[i], u, w[0]);
      assert Joins(g[i], w[0], u);
      AdjacentConnected(g, w[0], u);
      ConnectedTrans(g, v, w[0], u);
    }
  }

  lemma ConnectedSym(g: Graph, u: Node, v: Node)
    requires Connected(g, u, v)
    ensures Connected(g, v, u)
  {
    var w :| Walk(g, u, w, v);
    WalkReversed(g, u, w, v);
  }

  /** A map of nodes and edges that keeps end points keeps walks.  The edge map need
      not be onto; `MappedWalk` below is used with it to pull a walk in a copied graph
      back to the graph it was copied from. */
  ghost predicate Maps(g: Graph, h: Graph, edge: map<nat, nat>, node: map<Node, Node>) {
    forall i :: i in g ==>
      && i in edge && edge[i] in h && g[i].a in node && g[i].b in node
      && Joins(h[edge[i]], node[g[i].a], node[g[i].b])
  }

  lemma {:induction false} MappedWalk(g: Graph, h: Graph, edge: map<nat, nat>, node: map<Node, Node>,
                                      u: Node, w: seq<Node>, v: Node)
    requires Maps(g, h, edge, node) && Walk(g, u, w, v)
    requires u in node && v in node
    ensures Connected(h, node[u], node[v])
    decreases |w|
  {
    if w == [] {
      ConnectedRefl(h, node[u]);
    } else {
      var i :| i in g && Joins(g[i], u, w[0]);
      MappedWalk(g, h, edge, node, w[0], w[1..], v);
      assert Joins(h[edge[i]], node[u], node[w[0]]);
      AdjacentConnected(h, node[u], node[w[0]]);
      ConnectedTrans(h, node[u], node[w[0]], node[v]);
    }
  }

  lemma SubgraphConnected(g: Graph, h: Graph, u: Node, v: Node)
    requires Subgraph(g, h) && Connected(g, u, v)
    ensures Connected(h, u, v)
  {
    var w :| Walk(g, u, w, v);
    SubgraphWalk(g, h, u, w, v);
  }

  lemma {:induction false} SubgraphWalk(g: Graph, h: Graph, u: Node, w: seq<Node>, v: Node)
    requires Subgraph(g, h) && Walk(g, u, w, v)
    ensures Walk(h, u, w, v)
    decreases |w|
  {
    if w != [] {
      var i :| i in g && Joins(g[i], u, w[0]);
      assert i in h && Joins(h[i], u, w[0]);
      SubgraphWalk(g, h, w[0], w[1..], v);
    }
  }

  /** Taking edges away keeps a forest a forest. */
  lemma SubgraphForest(g: Graph, h: Graph)
    requires Subgraph(g, h) && Forest(h)
    ensures Forest(g)
  {
    forall i | i in g ensures !Connected(g - {i}, g[i].a, g[i].b) {
      if Connected(g - {i}, g[i].a, g[i].b) {
        SubgraphConnected(g - {i}, h - {i}, g[i].a, g[i].b);
      }
    }
  }

  /** An injective edge map into a forest makes the domain a forest. */
  lemma MappedForest(g: Graph, h: Graph, edge: map<nat, nat>, node: map<Node, Node>)
    requires Maps(g, h, edge, node) && Forest(h)
    requires forall i, j :: i in g && j in g && i != j ==> edge[i] != edge[j]
    ensures Forest(g)
  {
    forall i | i in g ensures !Connected(g - {i}, g[i].a, g[i].b) {
      if Connected(g - {i}, g[i].a, g[i].b) {
        var g', h', e := g - {i}, h - {edge[i]}, h[edge[i]];
        var w :| Walk(g', g[i].a, w, g[i].b);
        assert Maps(g', h', edge, node);
        MappedWalk(g', h', edge, node, g[i].a, w, g[i].b);
        if e.a != node[g[i].a] {
          ConnectedSym(h', node[g[i].a], node[g[i].b]);
        }
      }
    }
  }

  /** What one more edge can connect. */
  lemma {:induction false} WalkThroughNewEdge(g: Graph, i: nat, e: Edge, u: Node, w: seq<Node>, v: Node)
    requires i !in g && Walk(g[i := e], u, w, v)
    ensures || Connected(g, u, v)
            || (Connected(g, u, e.a) && Connected(g, e.b, v))
            || (Connected(g, u, e.b) && Connected(g, e.a, v))
    decreases |w|
  {
    if w == [] {
      ConnectedRefl(g, u);
    } else {
      var g' := g[i := e];
      var j :| j in g' && Joins(g'[j], u, w[0]);
      WalkThroughNewEdge(g, i, e, w[0], w[1..], v);
      if j == i {
        ConnectedRefl(g, u);
      } else {
        assert j in g && Joins(g[j], u, w[0]);
        AdjacentConnected(g, u, w[0]);
        forall x | Connected(g, w[0], x) ensures Connected(g, u, x) {
          ConnectedTrans(g, u, w[0], x);
        }
      }
    }
  }

  lemma NewEdgeBypass(g: Graph, i: nat, e: Edge, f: nat)
    requires i !in g && f in g && !Connected(g, e.a, e.b) && !Connected(g - {f}, g[f].a, g[f].b)
    ensures !Connected(g[i := e] - {f}, g[f].a, g[f].b)
  {
    var h, x, y := g - {f}, g[f].a, g[f].b;
    assert g[i := e] - {f} == h[i := e];
    if Connected(h[i := e], x, y) {
      var w :| Walk(h[i := e], x, w, y);
      WalkThroughNewEdge(h, i, e, x, w, y);
      assert Joins(g[f], x, y) && Joins(g[f], y, x);
      AdjacentConnected(g, x, y);
      AdjacentConnected(g, y, x);
      if Connected(h, x, e.a) && Connected(h, e.b, y) {
        Detour(h, g, e.a, x, y, e.b);
      } else {
        Detour(h, g, e.b, x, y, e.a);
        ConnectedSym(g, e.b, e.a);
      }
    }
  }

  lemma Detour(h: Graph, g: Graph, p: Node, x: Node, y: Node, q: Node)
    requires Subgraph(h, g) && Connected(h, x, p) && Connected(h, q, y) && Connected(g, x, y)
    ensures Connected(g, p, q)
  {
    SubgraphConnected(h, g, x, p);
    SubgraphConnected(h, g, q, y);
    ConnectedSym(g, x, p);
    ConnectedSym(g, q, y);
    ConnectedTrans(g, p, x, y);
    ConnectedTrans(g, p, y, q);
  }

  /** The law behind the guard: one more edge keeps a forest exactly when its end
      points were not connected already. */
  lemma ForestExtension(g: Graph, i: nat, e: Edge)
    requires i !in g && Forest(g)
    ensures Forest(g[i := e]) <==> !Connected(g, e.a, e.b)
  {
    var g' := g[i := e];
    assert g' - {i} == g;
    if !Connected(g, e.a, e.b) {
      forall f | f in g' ensures !Connected(g' - {f}, g'[f].a, g'[f].b) {
        if f != i {
          NewEdgeBypass(g, i, e, f);
        }
      }
    }
  }
}
