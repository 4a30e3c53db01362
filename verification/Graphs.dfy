/** Undirected graphs, walks and distance, independent of any search. */
module Graphs {
  import opened Ids

  /** Adjacency sets, as the source's map of string sets. */
  type Graph = map<Id, set<Id>>

  function Neighbours(g: Graph, v: Id): set<Id>
  {
    if v in g then g[v] else {}
  }

  function Degree(g: Graph, v: Id): nat
  {
    |Neighbours(g, v)|
  }

  /** Symmetric, loop-free, and without the empty id. */
  ghost predicate WellFormed(g: Graph)
  {
    && (forall u, v :: v in Neighbours(g, u) ==> u in Neighbours(g, v))
    && (forall u, v :: v in Neighbours(g, u) ==> u != v && v != "")
  }

  ghost predicate Walk(g: Graph, p: seq<Id>)
  {
    p != [] && forall i :: 0 <= i < |p| - 1 ==> p[i + 1] in Neighbours(g, p[i])
  }

  ghost predicate WalkBetween(g: Graph, p: seq<Id>, u: Id, v: Id)
  {
    Walk(g, p) && p[0] == u && p[|p| - 1] == v
  }

  ghost predicate Connected(g: Graph, u: Id, v: Id)
  {
    exists p :: WalkBetween(g, p, u, v)
  }

  /** `d` edges is the length of a shortest walk from `u` to `v`. */
  ghost predicate Distance(g: Graph, u: Id, v: Id, d: nat)
  {
    && (exists p :: WalkBetween(g, p, u, v) && |p| == d + 1)
    && (forall p :: WalkBetween(g, p, u, v) ==> d + 1 <= |p|)
  }

  lemma WalkConcat(g: Graph, p: seq<Id>, q: seq<Id>, u: Id, v: Id, w: Id)
    requires WalkBetween(g, p, u, v) && WalkBetween(g, q, v, w)
    ensures WalkBetween(g, p + q[1..], u, w)
  {
  }

  function Reverse(p: seq<Id>): (r: seq<Id>)
    ensures |r| == |p| && forall i :: 0 <= i < |p| ==> r[i] == p[|p| - 1 - i]
  {
    seq(|p|, i requires 0 <= i < |p| => p[|p| - 1 - i])
  }

  lemma WalkReverse(g: Graph, p: seq<Id>, u: Id, v: Id)
    requires WellFormed(g) && WalkBetween(g, p, u, v)
    ensures WalkBetween(g, Reverse(p), v, u)
  {
  }

  lemma ConnectedTransitive(g: Graph, u: Id, v: Id, w: Id)
    requires Connected(g, u, v) && Connected(g, v, w)
    ensures Connected(g, u, w)
  {
    var p :| WalkBetween(g, p, u, v);
    var q :| WalkBetween(g, q, v, w);
    WalkConcat(g, p, q, u, v, w);
  }

  lemma ConnectedSymmetric(g: Graph, u: Id, v: Id)
    requires WellFormed(g) && Connected(g, u, v)
    ensures Connected(g, v, u)
  {
    var p :| WalkBetween(g, p, u, v);
    WalkReverse(g, p, u, v);
  }

  /** The connected component of `v` inside the node set `vs`. */
  ghost function Component(g: Graph, vs: set<Id>, v: Id): set<Id>
  {
    set u | u in vs && Connected(g, u, v)
  }

  ghost function Components(g: Graph, vs: set<Id>): set<set<Id>>
  {
    set v | v in vs :: Component(g, vs, v)
  }

  // --- Building the graph from link rows -------------------------------------

  /** Whether `b` becomes a neighbour of `a`: some row joins them, in either direction. */
  predicate Joined(edges: seq<(Id, Id)>, a: Id, b: Id)
  {
    a != "" && b != "" && a != b && ((a, b) in edges || (b, a) in edges)
  }

  function AddEdge(g: Graph, a: Id, b: Id): (r: Graph)
    ensures forall u, v :: v in Neighbours(r, u) <==>
      v in Neighbours(g, u) || (u == a && v == b && a != "" && b != "" && a != b)
  {
    if a == "" || b == "" || a == b then g
    else g[a := Neighbours(g, a) + {b}]
  }

  /** The adjacency built from the edge rows is exactly the symmetric closure of the rows. */
  method BuildAdjacency(edges: seq<(Id, Id)>) returns (g: Graph)
    ensures WellFormed(g)
    ensures forall u, v :: v in Neighbours(g, u) <==> Joined(edges, u, v)
  {
    g := map[];
    for i := 0 to |edges|
      invariant forall u, v :: v in Neighbours(g, u) <==> Joined(edges[..i], u, v)
    {
      var (s, d) := edges[i];
      assert edges[..i + 1] == edges[..i] + [edges[i]];
      g := AddEdge(g, s, d);
      g := AddEdge(g, d, s);
    }
    assert edges[..|edges|] == edges;
  }
}
