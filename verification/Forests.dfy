/**
 The multi-component breadth-first search of fwDCS/internal/store/hierarchy.go and what
 its parent map means: shortest paths to a component root, one root per component.
 */
module Forests {
  import opened Ids
  import opened Graphs

  /** The source's `parent` map; a root maps to the empty id. */
  type Parents = map<Id, Id>

  // --- One breadth-first search ------------------------------------------------

  /** Every node of `vs` has all its neighbours in `vs`. */
  ghost predicate Closed(g: Graph, vs: set<Id>)
  {
    forall u, v :: u in vs && v in Neighbours(g, u) ==> v in vs
  }

  /** Queue order: depths never fall along the queue and span at most two levels. */
  ghost predicate Layered(depth: map<Id, nat>, queue: seq<Id>)
  {
    && (forall x :: x in queue ==> x in depth)
    && (forall i, j :: 0 <= i < j < |queue| ==> depth[queue[i]] <= depth[queue[j]])
    && (queue != [] ==> forall v :: v in depth ==> depth[v] <= depth[queue[0]] + 1)
  }

  /** The nodes reached so far form a tree under `root`, each one level below its parent. */
  ghost predicate Tree(g: Graph, root: Id, parent: Parents, depth: map<Id, nat>)
  {
    && root in depth && depth[root] == 0
    && (forall v :: v in depth ==> v in parent)
    && parent[root] == ""
    && (forall v :: v in depth && v != root ==>
          parent[v] in depth && v in Neighbours(g, parent[v]) && depth[v] == depth[parent[v]] + 1)
  }

  /** All neighbours of `u` have been reached, at most one level deeper. */
  ghost predicate Settled(g: Graph, depth: map<Id, nat>, u: Id)
    requires u in depth
  {
    forall v :: v in Neighbours(g, u) ==> v in depth && depth[v] <= depth[u] + 1
  }

  /** The search's loop invariant; `queue` lists the nodes not yet expanded. */
  ghost predicate Exploring(g: Graph, base: set<Id>, root: Id, parent: Parents,
                            visited: set<Id>, depth: map<Id, nat>, queue: seq<Id>)
  {
    && parent.Keys == visited && base <= visited
    && depth.Keys == visited - base
    && visited <= base + g.Keys + {root}
    && Tree(g, root, parent, depth)
    && Layered(depth, queue)
    && (forall u :: u in depth && u !in queue ==> Settled(g, depth, u))
  }

  /** The queue stays layered when a node one level below its head joins at the tail. */
  lemma DiscoverKeepsLayers(depth: map<Id, nat>, queue: seq<Id>, n: Id)
    requires queue != [] && Layered(depth, queue) && n !in depth
    ensures Layered(depth[n := depth[queue[0]] + 1], queue + [n])
  {
  }

  lemma DiscoverKeepsTree(g: Graph, root: Id, parent: Parents, depth: map<Id, nat>, cur: Id, n: Id)
    requires Tree(g, root, parent, depth)
    requires cur in depth && n !in depth && n in Neighbours(g, cur)
    ensures Tree(g, root, parent[n := cur], depth[n := depth[cur] + 1])
  {
  }

  lemma DiscoverKeepsExploring(g: Graph, base: set<Id>, root: Id, parent: Parents,
                               visited: set<Id>, depth: map<Id, nat>, cur: Id, rest: seq<Id>, n: Id)
    requires WellFormed(g)
    requires Exploring(g, base, root, parent, visited, depth, [cur] + rest)
    requires n !in visited && n in Neighbours(g, cur)
    requires cur in depth
    ensures Exploring(g, base, root, parent[n := cur], visited + {n},
                      depth[n := depth[cur] + 1], [cur] + (rest + [n]))
  {
    hide Tree, Layered, Settled;
    var queue, depth', queue' := [cur] + rest, depth[n := depth[cur] + 1], [cur] + (rest + [n]);
    assert cur in queue && queue[0] == cur;
    assert queue' == queue + [n];
    DiscoverKeepsLayers(depth, queue, n);
    DiscoverKeepsTree(g, root, parent, depth, cur, n);
    DiscoverKeepsSettled(g, depth, queue, n, depth[cur] + 1);
    InGraph(g, cur, n);
  }

  lemma InGraph(g: Graph, u: Id, v: Id)
    requires WellFormed(g) && v in Neighbours(g, u)
    ensures v in g
  {
    assert u in Neighbours(g, v);
  }

  lemma DiscoverKeepsSettled(g: Graph, depth: map<Id, nat>, queue: seq<Id>, n: Id, d: nat)
    requires n !in depth && forall u :: u in depth && u !in queue ==> Settled(g, depth, u)
    ensures forall u :: u in depth[n := d] && u !in queue + [n] ==> Settled(g, depth[n := d], u)
  {
    forall u | u in depth[n := d] && u !in queue + [n]
      ensures Settled(g, depth[n := d], u)
    {
      assert u in depth && u !in queue;
      assert Settled(g, depth, u);
    }
  }

  lemma ExpandedKeepsExploring(g: Graph, base: set<Id>, root: Id, parent: Parents,
                               visited: set<Id>, depth: map<Id, nat>, cur: Id, rest: seq<Id>)
    requires WellFormed(g) && Closed(g, base)
    requires Exploring(g, base, root, parent, visited, depth, [cur] + rest)
    requires Neighbours(g, cur) <= visited
    ensures Exploring(g, base, root, parent, visited, depth, rest)
  {
    var queue := [cur] + rest;
    assert queue[0] == cur && queue[1..] == rest;
    forall v | v in Neighbours(g, cur)
      ensures v in depth
    {
      assert cur in Neighbours(g, v);
    }
    assert Settled(g, depth, cur);
    assert forall x :: x in queue ==> x == cur || x in queue[1..];
    if |queue| > 1 {
      assert depth[queue[0]] <= depth[queue[1]];
    }
  }

  /** Whether `later` extends `earlier` without changing it on the nodes of `vs`. */
  ghost predicate SameOn(vs: set<Id>, earlier: Parents, later: Parents)
  {
    forall v :: v in vs ==> v in earlier && v in later && later[v] == earlier[v]
  }

  // --- The search as a function ----------------------------------------------------

  /** A search under way: all parents so far, the depths of its own tree, and its queue. */
  datatype Search = Search(parent: Parents, depth: map<Id, nat>, queue: seq<Id>)

  /** Discovers `n` from `cur`, unless it has been visited. */
  ghost function Visit(s: Search, cur: Id, n: Id): Search
    requires cur in s.depth
  {
    if n in s.parent then s
    else Search(s.parent[n := cur], s.depth[n := s.depth[cur] + 1], s.queue + [n])
  }

  ghost function VisitAll(s: Search, cur: Id, ns: seq<Id>): (t: Search)
    requires cur in s.depth
    ensures cur in t.depth
  {
    if ns == [] then s else Visit(VisitAll(s, cur, ns[..|ns| - 1]), cur, ns[|ns| - 1])
  }

  lemma VisitNone(s: Search, cur: Id, ns: seq<Id>)
    requires cur in s.depth
    ensures VisitAll(s, cur, ns[..0]) == s
  {
  }

  lemma VisitAllUnfolds(s: Search, cur: Id, ns: seq<Id>)
    requires cur in s.depth
    ensures ns == [] ==> VisitAll(s, cur, ns) == s
    ensures ns != [] ==> VisitAll(s, cur, ns) == Visit(VisitAll(s, cur, ns[..|ns| - 1]), cur, ns[|ns| - 1])
  {
    hide Visit;
  }

  lemma VisitOneMore(s: Search, cur: Id, ns: seq<Id>, i: nat)
    requires cur in s.depth && i < |ns|
    ensures VisitAll(s, cur, ns[..i + 1]) == Visit(VisitAll(s, cur, ns[..i]), cur, ns[i])
  {
    hide *;
    assert ns[..i + 1][..i] == ns[..i];
    VisitAllUnfolds(s, cur, ns[..i + 1]);
  }

  /** What keeps a search going: the queued nodes have depths, and its tree is visited. */
  ghost predicate Running(s: Search)
  {
    (forall x :: x in s.queue ==> x in s.depth) && s.depth.Keys <= s.parent.Keys
  }

  lemma {:induction false} VisitAllGrows(s: Search, cur: Id, ns: seq<Id>)
    requires cur in s.depth && Running(s)
    ensures var t := VisitAll(s, cur, ns);
            && Running(t) && s.parent.Keys <= t.parent.Keys
            && (t.parent.Keys == s.parent.Keys ==> t == s)
            && (forall n :: n in ns ==> n in t.parent)
            && (forall n :: n in t.parent ==> n in s.parent || n in ns)
  {
    if ns != [] {
      VisitAllGrows(s, cur, ns[..|ns| - 1]);
      assert ns == ns[..|ns| - 1] + [ns[|ns| - 1]];
    }
  }

  lemma {:induction false} VisitAllKeeps(s: Search, cur: Id, ns: seq<Id>)
    requires cur in s.depth
    ensures SameOn(s.parent.Keys, s.parent, VisitAll(s, cur, ns).parent)
  {
    if ns != [] { VisitAllKeeps(s, cur, ns[..|ns| - 1]); }
  }

  /** The search after dequeuing its first node. */
  ghost function Dequeued(g: Graph, s: Search): Search
    requires Running(s) && s.queue != []
  {
    VisitAll(s.(queue := s.queue[1..]), s.queue[0], Sorted(Neighbours(g, s.queue[0])))
  }

  lemma {:induction false} SortedMembers(s: set<Id>)
    ensures forall x :: x in Sorted(s) <==> x in s
  {
    if s != {} { SortedMembers(s - {LeastOf(s)}); }
  }

  lemma DequeuedGrows(g: Graph, s: Search)
    requires WellFormed(g) && Running(s) && s.queue != []
    ensures var t := Dequeued(g, s);
            && Running(t) && s.parent.Keys <= t.parent.Keys && SameOn(s.parent.Keys, s.parent, t.parent)
            && t.parent.Keys <= s.parent.Keys + g.Keys
            && (t.parent.Keys == s.parent.Keys ==> |t.queue| < |s.queue|)
  {
    hide VisitAll, Sorted, SameOn;
    var cur := s.queue[0];
    SortedMembers(Neighbours(g, cur));
    VisitAllGrows(s.(queue := s.queue[1..]), cur, Sorted(Neighbours(g, cur)));
    VisitAllKeeps(s.(queue := s.queue[1..]), cur, Sorted(Neighbours(g, cur)));
    forall n | n in Neighbours(g, cur)
      ensures n in g
    {
      assert cur in Neighbours(g, n);
    }
  }

  lemma Shrinks(all: set<Id>, earlier: set<Id>, later: set<Id>)
    requires earlier <= later <= earlier + all
    ensures earlier == later || all - later < all - earlier
  {
    if earlier != later {
      var x :| x in later && x !in earlier;
      assert x in all - earlier && x !in all - later;
    }
  }

  /** The search to its end. */
  ghost function Explored(g: Graph, s: Search): Search
    requires WellFormed(g) && Running(s)
    decreases g.Keys - s.parent.Keys, |s.queue|
  {
    if s.queue == [] then s
    else
      DequeuedGrows(g, s);
      Shrinks(g.Keys, s.parent.Keys, Dequeued(g, s).parent.Keys);
      Explored(g, Dequeued(g, s))
  }

  ghost function Begun(parent: Parents, r: Id): (s: Search)
    ensures Running(s)
  {
    Search(parent[r := ""], map[r := 0], [r])
  }

  // --- The order of a search -----------------------------------------------------------

  /** The nodes of a tree in the order they were reached, the root first and none twice. */
  ghost predicate Listed(root: Id, depth: map<Id, nat>, order: seq<Id>)
  {
    && order != [] && order[0] == root && Members(order) == depth.Keys
    && forall i, j :: 0 <= i < j < |order| ==> order[i] != order[j]
  }

  /** Each node but the root was reached from the one at position `via`, among the first `done`. */
  ghost predicate Linked(parent: Parents, order: seq<Id>, via: seq<nat>, done: nat)
  {
    && |via| == |order| && done <= |order| && Members(order) <= parent.Keys
    && forall i :: 1 <= i < |order| ==> via[i] < done && via[i] < i && parent[order[i]] == order[via[i]]
  }

  /** Parents do not fall along the order, and siblings ascend. */
  ghost predicate Sequenced(order: seq<Id>, via: seq<nat>)
    requires |via| == |order|
  {
    forall i, j :: 1 <= i < j < |order| ==> via[i] < via[j] || (via[i] == via[j] && Less(order[i], order[j]))
  }

  /** No node has a neighbour before its parent. */
  ghost predicate Earliest(g: Graph, order: seq<Id>, via: seq<nat>)
    requires |via| == |order|
  {
    forall i, j :: 1 <= i < |order| && 0 <= j < via[i] && j < |order| ==> order[i] !in Neighbours(g, order[j])
  }

  ghost predicate Visited(g: Graph, parent: Parents, order: seq<Id>, done: nat)
  {
    forall j :: 0 <= j < done && j < |order| ==> Neighbours(g, order[j]) <= parent.Keys
  }

  /** What a search keeps when the first `done` nodes of `order` have been expanded and the rest are queued. */
  ghost predicate Orderly(g: Graph, root: Id, s: Search, order: seq<Id>, via: seq<nat>, done: nat)
  {
    && Listed(root, s.depth, order) && Linked(s.parent, order, via, done)
    && Sequenced(order, via) && Earliest(g, order, via) && Visited(g, s.parent, order, done)
    && s.queue == order[done..]
  }

  lemma {:induction false} SortedAscending(s: set<Id>)
    ensures Ascending(Sorted(s))
  {
    if s != {} {
      var m := LeastOf(s);
      SortedAscending(s - {m});
      SortedMembers(s - {m});
      hide Less;
      forall j | 0 <= j < |Sorted(s - {m})|
        ensures Less(m, Sorted(s - {m})[j])
      {
        assert Sorted(s - {m})[j] in s - {m};
      }
    }
  }

  /** `found` are the nodes of `ns` that were unvisited, in the order of `ns`. */
  ghost predicate Finds(s: Search, t: Search, cur: Id, ns: seq<Id>, found: seq<Id>)
  {
    && t.queue == s.queue + found && Ascending(found)
    && (forall n :: n in found ==> n in ns && n !in s.parent && n in t.parent && t.parent[n] == cur)
    && t.depth.Keys == s.depth.Keys + Members(found)
    && t.parent.Keys == s.parent.Keys + Members(ns)
  }

  lemma {:induction false} VisitAllFinds(s: Search, cur: Id, ns: seq<Id>) returns (found: seq<Id>)
    requires cur in s.depth && Ascending(ns)
    ensures Finds(s, VisitAll(s, cur, ns), cur, ns, found)
  {
    hide Finds, Ascending, VisitAll, Visit;
    found := [];
    VisitAllUnfolds(s, cur, ns);
    if ns == [] {
      FindsNothing(s, cur);
    } else {
      var front, n := ns[..|ns| - 1], ns[|ns| - 1];
      AscendingFront(ns);
      var before := VisitAllFinds(s, cur, front);
      assert ns == front + [n];
      FindsOneMore(s, VisitAll(s, cur, front), cur, front, n, before);
      found := before + if n in VisitAll(s, cur, front).parent then [] else [n];
    }
  }

  lemma FindsNothing(s: Search, cur: Id)
    ensures Finds(s, s, cur, [], [])
  {
  }

  ghost predicate AllBelow(ns: seq<Id>, n: Id)
  {
    forall x :: x in ns ==> Less(x, n)
  }

  lemma AscendingFront(ns: seq<Id>)
    requires Ascending(ns) && ns != []
    ensures Ascending(ns[..|ns| - 1]) && AllBelow(ns[..|ns| - 1], ns[|ns| - 1])
  {
    hide Less;
  }

  lemma FindsOneMore(s: Search, t: Search, cur: Id, front: seq<Id>, n: Id, found: seq<Id>)
    requires Finds(s, t, cur, front, found) && cur in t.depth && AllBelow(front, n)
    ensures Finds(s, Visit(t, cur, n), cur, front + [n], found + if n in t.parent then [] else [n])
  {
    hide Less, Ascending;
    MembersOneMore(front, n);
    if n in t.parent {
      assert found + [] == found;
    } else {
      MembersOneMore(found, n);
      AscendingMore(found, n);
      hide Members;
      FindsNew(s, t, cur, front, n, found);
    }
  }

  lemma MembersOneMore(ns: seq<Id>, n: Id)
    ensures Members(ns + [n]) == Members(ns) + {n}
  {
  }

  lemma AscendingMore(ns: seq<Id>, n: Id)
    ensures Ascending(ns) && AllBelow(ns, n) ==> Ascending(ns + [n])
  {
    hide Less;
  }

  lemma FindsNew(s: Search, t: Search, cur: Id, front: seq<Id>, n: Id, found: seq<Id>)
    requires Finds(s, t, cur, front, found) && cur in t.depth && n !in t.parent
    requires Ascending(found + [n]) && Members(front + [n]) == Members(front) + {n}
    requires Members(found + [n]) == Members(found) + {n}
    ensures Finds(s, Visit(t, cur, n), cur, front + [n], found + [n])
  {
    hide Less, Ascending, Members;
    assert n !in s.parent;
    assert Visit(t, cur, n).queue == s.queue + (found + [n]);
  }

  lemma DequeuedOrderly(g: Graph, root: Id, s: Search, order: seq<Id>, via: seq<nat>, done: nat)
    returns (order': seq<Id>, via': seq<nat>)
    requires Running(s) && s.queue != [] && Orderly(g, root, s, order, via, done)
    ensures Orderly(g, root, Dequeued(g, s), order', via', done + 1)
  {
    hide *;
    var found := DequeuedFinds(g, s);
    order', via' := order + found, via + Repeated(done, |found|);
    OrderlyParts(g, root, s, order, via, done);
    var t := Dequeued(g, s);
    assert s.queue[0] == order[done] && s.queue[1..] == order[done + 1..];
    DiscoversParts(g, s, t, order[done], found);
    ListedMore(root, s, t, order, found);
    LinkedMore(s, t, order, via, done, found);
    SequencedMore(order, via, done, found);
    EarliestMore(g, s.parent, order, via, done, found);
    VisitedMore(g, s, t, order, done, found);
    assert (order + found)[done + 1..] == order[done + 1..] + found;
    OrderlyOf(g, root, t, order', via', done + 1);
  }

  lemma DiscoversParts(g: Graph, s: Search, t: Search, cur: Id, found: seq<Id>)
    requires Discovers(g, s, t, cur, found)
    ensures Ascending(found) && SameOn(s.parent.Keys, s.parent, t.parent)
    ensures forall n :: n in found ==> n !in s.parent && n in t.parent && t.parent[n] == cur
    ensures s.depth.Keys <= s.parent.Keys <= t.parent.Keys && t.depth.Keys == s.depth.Keys + Members(found)
    ensures Neighbours(g, cur) <= t.parent.Keys
  {
  }

  function Repeated(x: nat, n: nat): (r: seq<nat>)
    ensures |r| == n && forall i :: 0 <= i < n ==> r[i] == x
  {
    seq(n, i => x)
  }

  lemma OrderlyParts(g: Graph, root: Id, s: Search, order: seq<Id>, via: seq<nat>, done: nat)
    requires Orderly(g, root, s, order, via, done)
    ensures Listed(root, s.depth, order) && Linked(s.parent, order, via, done) && |via| == |order| && done <= |order|
    ensures Sequenced(order, via) && Earliest(g, order, via) && Visited(g, s.parent, order, done)
    ensures s.queue == order[done..] && Members(order) == s.depth.Keys
    ensures forall i :: 1 <= i < |order| ==> via[i] < done
  {
  }

  lemma OrderlyOf(g: Graph, root: Id, s: Search, order: seq<Id>, via: seq<nat>, done: nat)
    requires Listed(root, s.depth, order) && Linked(s.parent, order, via, done) && |via| == |order|
    requires Sequenced(order, via) && Earliest(g, order, via) && Visited(g, s.parent, order, done)
    requires done <= |order| && s.queue == order[done..]
    ensures Orderly(g, root, s, order, via, done)
  {
  }

  /** What one pass of the outer loop discovers. */
  ghost predicate Discovers(g: Graph, s: Search, t: Search, cur: Id, found: seq<Id>)
  {
    && Ascending(found) && SameOn(s.parent.Keys, s.parent, t.parent)
    && (forall n :: n in found ==> n in Neighbours(g, cur) && n !in s.parent && n in t.parent && t.parent[n] == cur)
    && s.depth.Keys <= s.parent.Keys && t.depth.Keys == s.depth.Keys + Members(found)
    && t.parent.Keys == s.parent.Keys + Neighbours(g, cur)
  }

  lemma DequeuedFinds(g: Graph, s: Search) returns (found: seq<Id>)
    requires Running(s) && s.queue != []
    ensures Dequeued(g, s).queue == s.queue[1..] + found
    ensures Discovers(g, s, Dequeued(g, s), s.queue[0], found)
  {
    var cur, ns := s.queue[0], Sorted(Neighbours(g, s.queue[0]));
    var rest := s.(queue := s.queue[1..]);
    SortedMembers(Neighbours(g, cur));
    SortedAscending(Neighbours(g, cur));
    hide Sorted, VisitAll, Ascending, SameOn;
    VisitAllKeeps(rest, cur, ns);
    found := VisitAllFinds(rest, cur, ns);
    assert Members(ns) == Neighbours(g, cur);
  }

  lemma ListedMore(root: Id, s: Search, t: Search, order: seq<Id>, found: seq<Id>)
    requires Listed(root, s.depth, order) && Ascending(found)
    requires s.depth.Keys <= s.parent.Keys && t.depth.Keys == s.depth.Keys + Members(found)
    requires forall n :: n in found ==> n !in s.parent
    ensures Listed(root, t.depth, order + found)
  {
    hide Less;
    forall i, j | 0 <= i < j < |found|
      ensures found[i] != found[j]
    {
      LessAsymmetric(found[i], found[j]);
    }
    forall i | 0 <= i < |order|
      ensures order[i] !in found
    {
      assert order[i] in Members(order);
    }
    hide Ascending;
  }

  lemma LinkedMore(s: Search, t: Search, order: seq<Id>, via: seq<nat>, done: nat, found: seq<Id>)
    requires Linked(s.parent, order, via, done) && done < |order| && SameOn(s.parent.Keys, s.parent, t.parent)
    requires forall n :: n in found ==> n in t.parent && t.parent[n] == order[done]
    ensures Linked(t.parent, order + found, via + Repeated(done, |found|), done + 1)
  {
    var order', via' := order + found, via + Repeated(done, |found|);
    forall i | 1 <= i < |order'|
      ensures order'[i] in t.parent && via'[i] < done + 1 && via'[i] < i && t.parent[order'[i]] == order'[via'[i]]
    {
      if i < |order| {
        assert order[i] in Members(order);
      } else {
        assert order'[i] == found[i - |order|] && via'[i] == done;
      }
    }
    forall x | x in Members(order')
      ensures x in t.parent
    {
      if x !in found { assert x in Members(order); }
    }
  }

  lemma SequencedMore(order: seq<Id>, via: seq<nat>, done: nat, found: seq<Id>)
    requires |via| == |order| && Sequenced(order, via) && Ascending(found) && done < |order|
    requires forall i :: 1 <= i < |order| ==> via[i] < done
    ensures Sequenced(order + found, via + Repeated(done, |found|))
  {
    hide Less;
    var order', via' := order + found, via + Repeated(done, |found|);
    forall i, j | 1 <= i < j < |order'|
      ensures via'[i] < via'[j] || (via'[i] == via'[j] && Less(order'[i], order'[j]))
    {
      if j >= |order| {
        assert via'[j] == done;
        if i >= |order| { assert Less(found[i - |order|], found[j - |order|]); }
      }
    }
  }

  lemma EarliestMore(g: Graph, parent: Parents, order: seq<Id>, via: seq<nat>, done: nat, found: seq<Id>)
    requires |via| == |order| && Earliest(g, order, via) && Visited(g, parent, order, done) && done < |order|
    requires forall i :: 1 <= i < |order| ==> via[i] < done
    requires forall n :: n in found ==> n !in parent
    ensures Earliest(g, order + found, via + Repeated(done, |found|))
  {
    hide Neighbours;
    var order', via' := order + found, via + Repeated(done, |found|);
    forall i, j | 1 <= i < |order'| && 0 <= j < via'[i] && j < |order'|
      ensures order'[i] !in Neighbours(g, order'[j])
    {
      if i < |order| {
        assert j < via[i];
      } else {
        assert order'[i] == found[i - |order|] && j < done && order'[j] == order[j];
      }
    }
  }

  lemma VisitedMore(g: Graph, s: Search, t: Search, order: seq<Id>, done: nat, found: seq<Id>)
    requires Visited(g, s.parent, order, done) && done < |order|
    requires s.parent.Keys <= t.parent.Keys && Neighbours(g, order[done]) <= t.parent.Keys
    ensures Visited(g, t.parent, order + found, done + 1)
  {
    hide Neighbours;
  }

  /** A finished search has an order. */
  lemma {:induction false} ExploredOrderly(g: Graph, root: Id, s: Search, order: seq<Id>, via: seq<nat>, done: nat)
    returns (order': seq<Id>, via': seq<nat>)
    requires WellFormed(g) && Running(s) && Orderly(g, root, s, order, via, done)
    ensures Orderly(g, root, Explored(g, s), order', via', |order'|)
    decreases g.Keys - s.parent.Keys, |s.queue|
  {
    hide WellFormed, Running, Dequeued, Orderly;
    order', via' := order, via;
    if s.queue == [] {
      OrderlyParts(g, root, s, order, via, done);
    } else {
      var t := Dequeued(g, s);
      DequeuedGrows(g, s);
      Shrinks(g.Keys, s.parent.Keys, t.parent.Keys);
      order', via' := DequeuedOrderly(g, root, s, order, via, done);
      order', via' := ExploredOrderly(g, root, t, order', via', done + 1);
    }
  }

  // --- Least walks ------------------------------------------------------------------------

  /** Whether the id sequence `p` comes before `q`, of the same length, in lexicographic order. */
  ghost predicate LexLess(p: seq<Id>, q: seq<Id>)
  {
    |p| == |q| && exists i :: 0 <= i < |p| && p[..i] == q[..i] && Less(p[i], q[i])
  }

  ghost predicate LexLeq(p: seq<Id>, q: seq<Id>)
  {
    p == q || LexLess(p, q)
  }

  lemma LexAppendSame(p: seq<Id>, q: seq<Id>, x: Id)
    requires LexLeq(p, q)
    ensures LexLeq(p + [x], q + [x])
  {
    if p != q { LexAppend(p, q, x, x); }
  }

  lemma LexAppend(p: seq<Id>, q: seq<Id>, x: Id, y: Id)
    requires LexLess(p, q)
    ensures LexLess(p + [x], q + [y])
  {
    hide Less;
    var i :| 0 <= i < |p| && p[..i] == q[..i] && Less(p[i], q[i]);
    assert (p + [x])[..i] == p[..i] && (q + [y])[..i] == q[..i];
    assert Less((p + [x])[i], (q + [y])[i]);
  }

  lemma LexSiblings(p: seq<Id>, x: Id, y: Id)
    requires Less(x, y)
    ensures LexLess(p + [x], p + [y])
  {
    hide Less;
    var i := |p|;
    assert (p + [x])[..i] == p == (p + [y])[..i];
    assert Less((p + [x])[i], (p + [y])[i]);
  }

  lemma LexTransitive(p: seq<Id>, q: seq<Id>, r: seq<Id>)
    requires LexLeq(p, q) && LexLeq(q, r)
    ensures LexLeq(p, r)
  {
    if p != q && q != r {
      hide Less;
      var i :| 0 <= i < |p| && p[..i] == q[..i] && Less(p[i], q[i]);
      var j :| 0 <= j < |q| && q[..j] == r[..j] && Less(q[j], r[j]);
      var k := if i < j then i else j;
      assert p[..k] == p[..i][..k] == q[..i][..k] == q[..j][..k] == r[..k] && p[..k] == r[..k] by {
        assert q[..i][..k] == q[..k] && q[..j][..k] == q[..k] && p[..i][..k] == p[..k] && r[..j][..k] == r[..k];
      }
      if i < j {
        assert q[i] == q[..j][i] == r[..j][i] == r[i];
      } else if j < i {
        assert p[j] == p[..i][j] == q[..i][j] == q[j];
      } else {
        LessTransitive(p[i], q[i], r[i]);
      }
      assert Less(p[k], r[k]);
    }
  }

  /** The ids from the node `d` parents above `v` down to `v`. */
  ghost function PathDown(parent: Parents, v: Id, d: nat): (p: seq<Id>)
    ensures |p| == d + 1 && p[d] == v
    decreases d
  {
    if d == 0 then [v] else PathDown(parent, if v in parent then parent[v] else "", d - 1) + [v]
  }

  /** Where a node stands in a finished search's order. */
  lemma NodeAt(g: Graph, root: Id, s: Search, order: seq<Id>, via: seq<nat>, k: nat)
    requires Orderly(g, root, s, order, via, |order|) && Tree(g, root, s.parent, s.depth) && k < |order|
    ensures |via| == |order| && order[k] in s.depth && order[k] in s.parent
    ensures k == 0 ==> s.depth[order[k]] == 0
    ensures k > 0 ==>
      && via[k] < k && s.parent[order[k]] == order[via[k]]
      && order[via[k]] in s.depth && s.depth[order[k]] == s.depth[order[via[k]]] + 1
  {
    OrderlyParts(g, root, s, order, via, |order|);
    hide Sequenced, Earliest, Visited, Less, Orderly;
    assert order[k] in Members(order);
    if k > 0 { assert order[0] != order[k]; }
  }

  lemma SiblingsAscend(g: Graph, root: Id, s: Search, order: seq<Id>, via: seq<nat>, i: nat, j: nat)
    requires Orderly(g, root, s, order, via, |order|) && 1 <= i < j < |order|
    ensures |via| == |order| && (via[i] < via[j] || (via[i] == via[j] && Less(order[i], order[j])))
    ensures forall a, b :: 0 <= a < b < |order| ==> order[a] != order[b]
  {
    hide Less;
  }

  /** The path of a node ends with the node, below its parent's. */
  lemma PathStep(parent: Parents, v: Id, d: nat)
    requires v in parent
    ensures PathDown(parent, v, d + 1) == PathDown(parent, parent[v], d) + [v]
    ensures PathDown(parent, v, 0) == [v]
  {
  }

  /** In a search's order nodes of one depth come by their paths. */
  lemma {:induction false} OrderIsLex(g: Graph, root: Id, s: Search, order: seq<Id>, via: seq<nat>, i: nat, j: nat)
    requires Orderly(g, root, s, order, via, |order|) && Tree(g, root, s.parent, s.depth)
    requires i <= j < |order| && order[i] in s.depth && order[j] in s.depth && s.depth[order[i]] == s.depth[order[j]]
    ensures var d := s.depth[order[i]];
            LexLeq(PathDown(s.parent, order[i], d), PathDown(s.parent, order[j], d))
    decreases j
  {
    hide Orderly, Tree, LexLess, Less, PathDown;
    if i != j {
      NodeAt(g, root, s, order, via, i);
      NodeAt(g, root, s, order, via, j);
      SiblingsAscend(g, root, s, order, via, i, j);
      var d := s.depth[order[i]] - 1;
      PathStep(s.parent, order[i], d);
      PathStep(s.parent, order[j], d);
      var a, b := PathDown(s.parent, order[via[i]], d), PathDown(s.parent, order[via[j]], d);
      if via[i] == via[j] {
        LexSiblings(a, order[i], order[j]);
      } else {
        OrderIsLex(g, root, s, order, via, via[i], via[j]);
        assert a[d] == order[via[i]] && b[d] == order[via[j]];
        LexAppend(a, b, order[i], order[j]);
      }
    }
  }

  // --- The search as a loop -------------------------------------------------------

  /** The search's inner loop: discovers the unvisited neighbours of `cur`, the node just dequeued. */
  method Expand(g: Graph, cur: Id, parent0: Parents, visited0: set<Id>, queue0: seq<Id>,
                ghost depth0: map<Id, nat>, ghost base: set<Id>, ghost root: Id)
    returns (parent: Parents, visited: set<Id>, queue: seq<Id>, ghost depth: map<Id, nat>)
    requires visited0 == parent0.Keys && cur in depth0
    ensures Search(parent, depth, queue)
         == VisitAll(Search(parent0, depth0, queue0), cur, Sorted(Neighbours(g, cur)))
    ensures visited == parent.Keys
    ensures WellFormed(g) && Closed(g, base) && Exploring(g, base, root, parent0, visited0, depth0, [cur] + queue0) ==>
      Exploring(g, base, root, parent, visited, depth, queue)
  {
    hide Sorted, Ascending, VisitAll, WellFormed, Closed, Exploring;
    ghost var s := Search(parent0, depth0, queue0);
    parent, visited, queue, depth := parent0, visited0, queue0, depth0;
    var ns := SortIds(Neighbours(g, cur));
    VisitNone(s, cur, ns);
    for i := 0 to |ns|
      invariant Search(parent, depth, queue) == VisitAll(s, cur, ns[..i])
      invariant visited == parent.Keys
    {
      var n := ns[i];
      VisitOneMore(s, cur, ns, i);
      if n !in visited {
        depth := depth[n := depth[cur] + 1];
        visited := visited + {n};
        parent := parent[n := cur];
        queue := queue + [n];
      }
    }
    assert ns[..|ns|] == ns;
    if WellFormed(g) && Closed(g, base) && Exploring(g, base, root, parent0, visited0, depth0, [cur] + queue0) {
      HeadExplores(g, base, root, s, cur);
    }
  }

  /** The `bfs` closure: explores the whole component of `root`. */
  method Bfs(g: Graph, root: Id, parent0: Parents, visited0: set<Id>)
    returns (parent: Parents, visited: set<Id>, ghost depth: map<Id, nat>)
    requires WellFormed(g) && root !in visited0 && visited0 == parent0.Keys
    ensures Search(parent, depth, []) == Explored(g, Begun(parent0, root)) && visited == parent.Keys
    ensures Closed(g, visited0) ==>
      && visited0 <= visited && SameOn(visited0, parent0, parent) && Closed(g, visited)
      && depth.Keys == visited - visited0 && Tree(g, root, parent, depth)
      && forall u :: u in depth ==> Settled(g, depth, u)
  {
    hide WellFormed, VisitAll, Sorted, Closed, Exploring, Tree, Settled, SameOn;
    visited := visited0 + {root};
    parent := parent0[root := ""];
    depth := map[root := 0];
    var queue := [root];
    while |queue| > 0
      invariant visited == parent.Keys && Running(Search(parent, depth, queue))
      invariant Explored(g, Search(parent, depth, queue)) == Explored(g, Begun(parent0, root))
      decreases g.Keys - visited, |queue|
    {
      ghost var s := Search(parent, depth, queue);
      DequeuedGrows(g, s);
      Shrinks(g.Keys, s.parent.Keys, Dequeued(g, s).parent.Keys);
      var cur := queue[0];
      assert cur in queue;
      parent, visited, queue, depth := Expand(g, cur, parent, visited, queue[1..], depth, visited0, root);
      assert Search(parent, depth, queue) == Dequeued(g, s);
    }
    if Closed(g, visited0) { SearchIsTree(g, parent0, root); }
  }

  // --- What a search reaches --------------------------------------------------------

  /** The loop invariant of a search, as a property of its state. */
  ghost predicate Explores(g: Graph, base: set<Id>, root: Id, s: Search)
  {
    Exploring(g, base, root, s.parent, s.parent.Keys, s.depth, s.queue)
  }

  lemma VisitExplores(g: Graph, base: set<Id>, root: Id, s: Search, cur: Id, n: Id)
    requires WellFormed(g) && cur in s.depth && n in Neighbours(g, cur)
    requires Explores(g, base, root, s.(queue := [cur] + s.queue))
    ensures var t := Visit(s, cur, n); Explores(g, base, root, t.(queue := [cur] + t.queue))
  {
    hide Exploring, WellFormed;
    if n !in s.parent {
      DiscoverKeepsExploring(g, base, root, s.parent, s.parent.Keys, s.depth, cur, s.queue, n);
      assert s.parent[n := cur].Keys == s.parent.Keys + {n};
    }
  }

  lemma {:induction false} VisitAllExplores(g: Graph, base: set<Id>, root: Id, s: Search, cur: Id, ns: seq<Id>)
    requires WellFormed(g) && cur in s.depth && forall n :: n in ns ==> n in Neighbours(g, cur)
    requires Explores(g, base, root, s.(queue := [cur] + s.queue))
    ensures var t := VisitAll(s, cur, ns); Explores(g, base, root, t.(queue := [cur] + t.queue))
  {
    hide Explores, WellFormed, Visit;
    if ns != [] {
      var front, n := ns[..|ns| - 1], ns[|ns| - 1];
      VisitAllExplores(g, base, root, s, cur, front);
      VisitExplores(g, base, root, VisitAll(s, cur, front), cur, n);
    }
  }

  lemma DequeuedExplores(g: Graph, base: set<Id>, root: Id, s: Search)
    requires WellFormed(g) && Closed(g, base) && Running(s) && s.queue != [] && Explores(g, base, root, s)
    ensures Explores(g, base, root, Dequeued(g, s))
  {
    hide Closed, Exploring, WellFormed, Sorted, VisitAll;
    var cur, rest := s.queue[0], s.(queue := s.queue[1..]);
    assert s.queue == [cur] + rest.queue && cur in s.queue;
    SortedMembers(Neighbours(g, cur));
    VisitAllExplores(g, base, root, rest, cur, Sorted(Neighbours(g, cur)));
    VisitAllGrows(rest, cur, Sorted(Neighbours(g, cur)));
    var t := Dequeued(g, s);
    ExpandedKeepsExploring(g, base, root, t.parent, t.parent.Keys, t.depth, cur, t.queue);
  }

  lemma HeadExplores(g: Graph, base: set<Id>, root: Id, s: Search, cur: Id)
    requires WellFormed(g) && Closed(g, base) && Explores(g, base, root, s.(queue := [cur] + s.queue))
    ensures cur in s.depth && Explores(g, base, root, VisitAll(s, cur, Sorted(Neighbours(g, cur))))
  {
    hide Closed, WellFormed, Sorted, VisitAll, Exploring;
    var whole := s.(queue := [cur] + s.queue);
    ExplorerRuns(g, base, root, whole);
    assert whole.queue[0] == cur && whole.(queue := whole.queue[1..]) == s && cur in whole.queue;
    DequeuedExplores(g, base, root, whole);
  }

  lemma ExplorerRuns(g: Graph, base: set<Id>, root: Id, s: Search)
    requires Explores(g, base, root, s)
    ensures Running(s)
  {
  }

  lemma {:induction false} ExploredExplores(g: Graph, base: set<Id>, root: Id, s: Search)
    requires WellFormed(g) && Closed(g, base) && Running(s) && Explores(g, base, root, s)
    ensures Explores(g, base, root, Explored(g, s)) && Explored(g, s).queue == []
    decreases g.Keys - s.parent.Keys, |s.queue|
  {
    hide WellFormed, Closed, Explores, Running, Dequeued;
    if s.queue != [] {
      var t := Dequeued(g, s);
      DequeuedGrows(g, s);
      Shrinks(g.Keys, s.parent.Keys, t.parent.Keys);
      DequeuedExplores(g, base, root, s);
      ExploredExplores(g, base, root, t);
    }
  }

  lemma {:induction false} ExploredKeeps(g: Graph, s: Search)
    requires WellFormed(g) && Running(s)
    ensures s.parent.Keys <= Explored(g, s).parent.Keys
    ensures SameOn(s.parent.Keys, s.parent, Explored(g, s).parent)
    decreases g.Keys - s.parent.Keys, |s.queue|
  {
    hide WellFormed, Running, Dequeued;
    if s.queue != [] {
      var t := Dequeued(g, s);
      DequeuedGrows(g, s);
      Shrinks(g.Keys, s.parent.Keys, t.parent.Keys);
      ExploredKeeps(g, t);
    }
  }

  /** A finished search has reached the whole component of its root and left the other trees alone. */
  lemma SearchIsTree(g: Graph, parent0: Parents, r: Id)
    requires WellFormed(g) && Closed(g, parent0.Keys) && r !in parent0
    ensures var s := Explored(g, Begun(parent0, r));
            && parent0.Keys + {r} <= s.parent.Keys && SameOn(parent0.Keys, parent0, s.parent)
            && s.depth.Keys == s.parent.Keys - parent0.Keys && Closed(g, s.parent.Keys)
            && Tree(g, r, s.parent, s.depth) && forall u :: u in s.depth ==> Settled(g, s.depth, u)
  {
    hide Explored, Closed, WellFormed;
    var b := Begun(parent0, r);
    var s := Explored(g, b);
    BegunExplores(g, parent0, r);
    ExploredExplores(g, parent0.Keys, r, b);
    ExploredKeeps(g, b);
    ExploredEnds(g, parent0.Keys, r, s);
  }

  lemma BegunExplores(g: Graph, parent: Parents, r: Id)
    requires r !in parent
    ensures Explores(g, parent.Keys, r, Begun(parent, r))
  {
  }

  lemma ExploredEnds(g: Graph, base: set<Id>, root: Id, s: Search)
    requires Closed(g, base) && Explores(g, base, root, s) && s.queue == []
    ensures base <= s.parent.Keys && s.depth.Keys == s.parent.Keys - base && Closed(g, s.parent.Keys)
    ensures Tree(g, root, s.parent, s.depth)
    ensures forall u :: u in s.depth ==> Settled(g, s.depth, u)
  {
    hide Tree;
    forall u, v | u in s.parent.Keys && v in Neighbours(g, u)
      ensures v in s.parent.Keys
    {
      if u !in base { assert Settled(g, s.depth, u); }
    }
  }

  // --- The forest over all components --------------------------------------------

  /** What `root` and `depth` certify about one node of the forest. */
  ghost predicate Node(g: Graph, parent: Parents, root: map<Id, Id>, depth: map<Id, nat>, v: Id)
    requires root.Keys == parent.Keys && depth.Keys == parent.Keys && v in parent
  {
    && root[v] in parent && parent[root[v]] == "" && root[root[v]] == root[v] && depth[root[v]] == 0
    && (parent[v] == "" ==> root[v] == v && depth[v] == 0)
    && (parent[v] != "" ==>
          parent[v] in parent && v in Neighbours(g, parent[v]) &&
          depth[v] == depth[parent[v]] + 1 && root[parent[v]] == root[v])
    && (forall u :: u in Neighbours(g, v) ==> u in parent && root[u] == root[v] && depth[u] <= depth[v] + 1)
  }

  ghost predicate Forest(g: Graph, parent: Parents, root: map<Id, Id>, depth: map<Id, nat>)
  {
    && root.Keys == parent.Keys && depth.Keys == parent.Keys
    && forall v :: v in parent ==> Node(g, parent, root, depth, v)
  }

  ghost function Constant(vs: set<Id>, r: Id): map<Id, Id>
  {
    map v | v in vs :: r
  }

  /** One finished search grafts a whole new tree onto the forest. */
  lemma Graft(g: Graph, parent0: Parents, root0: map<Id, Id>, depth0: map<Id, nat>,
              r: Id, parent: Parents, depth: map<Id, nat>)
    requires WellFormed(g) && r != ""
    requires Forest(g, parent0, root0, depth0)
    requires depth.Keys == parent.Keys - parent0.Keys && parent0.Keys <= parent.Keys
    requires SameOn(parent0.Keys, parent0, parent)
    requires Tree(g, r, parent, depth) && forall u :: u in depth ==> Settled(g, depth, u)
    ensures Forest(g, parent, root0 + Constant(depth.Keys, r), depth0 + depth)
  {
    hide Node, Tree, Settled, WellFormed;
    assert root0.Keys == parent0.Keys == depth0.Keys;
    var root' := root0 + Constant(depth.Keys, r);
    var depth' := depth0 + depth;
    forall v | v in parent
      ensures Node(g, parent, root', depth', v)
    {
      if v in parent0 {
        OldNodeStays(g, parent0, root0, depth0, parent, root', depth', v);
      } else {
        NewNodeFits(g, parent0, r, parent, depth, root', depth', v);
      }
    }
  }

  lemma OldNodeStays(g: Graph, parent0: Parents, root0: map<Id, Id>, depth0: map<Id, nat>,
                     parent: Parents, root: map<Id, Id>, depth: map<Id, nat>, v: Id)
    requires Forest(g, parent0, root0, depth0) && v in parent0
    requires root.Keys == parent.Keys && depth.Keys == parent.Keys
    requires forall u :: u in parent0 ==>
      u in parent && parent[u] == parent0[u] && root[u] == root0[u] && depth[u] == depth0[u]
    ensures Node(g, parent, root, depth, v)
  {
  }

  lemma NewNodeFits(g: Graph, parent0: Parents, r: Id, parent: Parents, tree: map<Id, nat>,
                    root: map<Id, Id>, depth: map<Id, nat>, v: Id)
    requires WellFormed(g) && r != "" && tree.Keys == parent.Keys - parent0.Keys && v in tree
    requires Tree(g, r, parent, tree) && Settled(g, tree, v)
    requires root.Keys == parent.Keys && depth.Keys == parent.Keys
    requires forall u :: u in tree ==> root[u] == r && depth[u] == tree[u]
    ensures Node(g, parent, root, depth, v)
  {
  }

  /** `r` wins against `u` as an automatic root: more neighbours, or as many and the lower id. */
  ghost predicate Preferred(g: Graph, r: Id, u: Id)
  {
    Degree(g, u) < Degree(g, r) || (Degree(g, u) == Degree(g, r) && Leq(r, u))
  }

  ghost function Members(ids: seq<Id>): set<Id>
  {
    set x | x in ids
  }

  /** `best` is the automatic root among the candidates, empty when there are none. */
  ghost predicate BestOf(g: Graph, candidates: set<Id>, best: Id)
  {
    if best == "" then candidates == {}
    else best in candidates && forall u :: u in candidates ==> Preferred(g, best, u)
  }

  method HighestDegreeUnvisited(ids: seq<Id>, visited: set<Id>, g: Graph) returns (best: Id)
    requires Ascending(ids) && "" !in ids
    ensures BestOf(g, Members(ids) - visited, best)
  {
    best := "";
    var bestDeg: int := -1;
    for i := 0 to |ids|
      invariant best == "" <==> forall j :: 0 <= j < i ==> ids[j] in visited
      invariant best == "" <==> bestDeg == -1
      invariant best != "" ==> best in ids[..i] && best !in visited && bestDeg == Degree(g, best)
      invariant best != "" ==> forall j :: 0 <= j < i && ids[j] !in visited ==> Preferred(g, best, ids[j])
    {
      if ids[i] !in visited {
        var d := Degree(g, ids[i]);
        assert best != "" ==> Less(best, ids[i]);
        if d > bestDeg {
          best, bestDeg := ids[i], d;
        }
      }
    }
  }

  lemma BestIsMember(g: Graph, candidates: set<Id>, best: Id)
    requires BestOf(g, candidates, best)
    ensures if best == "" then candidates == {} else best in candidates
  {
  }

  lemma BestUnique(g: Graph, candidates: set<Id>, a: Id, b: Id)
    requires BestOf(g, candidates, a) && BestOf(g, candidates, b)
    ensures a == b
  {
    if a != "" && b != "" {
      assert Preferred(g, a, b) && Preferred(g, b, a);
      if a != b { LessAsymmetric(a, b); }
    }
  }

  lemma PreferredTransitive(g: Graph, a: Id, b: Id, c: Id)
    requires Preferred(g, a, b) && Preferred(g, b, c)
    ensures Preferred(g, a, c)
  {
    if a != b && b != c && Less(a, b) && Less(b, c) { LessTransitive(a, b, c); }
  }

  lemma {:induction false} BestExists(g: Graph, candidates: set<Id>)
    requires "" !in candidates
    ensures exists b :: BestOf(g, candidates, b)
    decreases candidates
  {
    if candidates == {} {
      assert BestOf(g, candidates, "");
    } else {
      var x :| x in candidates;
      BestExists(g, candidates - {x});
      var b :| BestOf(g, candidates - {x}, b);
      BetterOf(g, candidates, x, b);
    }
  }

  lemma BetterOf(g: Graph, candidates: set<Id>, x: Id, b: Id)
    requires "" !in candidates && x in candidates && BestOf(g, candidates - {x}, b)
    ensures exists c :: BestOf(g, candidates, c)
  {
    assert candidates == (candidates - {x}) + {x};
    LessTotal(x, b);
    if b != "" && Preferred(g, b, x) {
      assert BestOf(g, candidates, b);
    } else {
      forall u | u in candidates - {x}
        ensures Preferred(g, x, u)
      {
        PreferredTransitive(g, x, b, u);
      }
      assert BestOf(g, candidates, x);
    }
  }

  /** The automatic root of a set of devices. */
  ghost function Best(g: Graph, candidates: set<Id>): (b: Id)
    requires "" !in candidates
    ensures BestOf(g, candidates, b)
  {
    BestExists(g, candidates);
    var b :| BestOf(g, candidates, b);
    b
  }

  // --- The component loop -----------------------------------------------------------

  /** A forest under way; `roots` lists its roots in the order they were chosen. */
  datatype Growth = Growth(parent: Parents, root: map<Id, Id>, depth: map<Id, nat>, roots: seq<Id>)

  const NO_FOREST: Growth := Growth(map[], map[], map[], [])

  /** One search from `r`, added to the forest. */
  ghost function Grown(g: Graph, f: Growth, r: Id): Growth
    requires WellFormed(g) && r !in f.parent
  {
    var s := Explored(g, Begun(f.parent, r));
    Growth(s.parent, f.root + Constant(s.depth.Keys, r), f.depth + s.depth, f.roots + [r])
  }

  /** The devices that no tree of the given roots has reached. */
  ghost function Unclaimed(ids: set<Id>, root: map<Id, Id>, roots: seq<Id>): set<Id>
  {
    set u | u in ids && !(u in root && root[u] in roots)
  }

  /** Every node has one of the roots, each root is a tenant device and its own, and none is listed twice. */
  ghost predicate RootsListed(ids: set<Id>, root: map<Id, Id>, roots: seq<Id>)
  {
    && (forall v :: v in root ==> root[v] in roots)
    && (forall i :: 0 <= i < |roots| ==> roots[i] in ids && roots[i] in root && root[roots[i]] == roots[i])
    && (forall i, j :: 0 <= i < j < |roots| ==> roots[i] != roots[j])
  }

  /** Each root but a hinted first one is the best of all the devices no earlier tree has reached. */
  ghost predicate RootOrder(g: Graph, ids: set<Id>, hinted: Id, root: map<Id, Id>, roots: seq<Id>)
  {
    && RootsListed(ids, root, roots)
    && (forall i :: 0 <= i < |roots| ==>
          (i == 0 && roots[0] == hinted) || BestOf(g, Unclaimed(ids, root, roots[..i]), roots[i]))
  }

  /** What the component loop keeps. */
  ghost predicate GrowthOk(g: Graph, ids: set<Id>, hinted: Id, f: Growth)
  {
    && Closed(g, f.parent.Keys) && Forest(g, f.parent, f.root, f.depth)
    && RootOrder(g, ids, hinted, f.root, f.roots)
  }

  lemma GrownOrder(g: Graph, ids: set<Id>, hinted: Id, root: map<Id, Id>, roots: seq<Id>, r: Id, added: set<Id>)
    requires RootOrder(g, ids, hinted, root, roots)
    requires r in ids && r in added && added !! root.Keys
    requires (roots == [] && r == hinted) || BestOf(g, ids - root.Keys, r)
    ensures RootOrder(g, ids, hinted, root + Constant(added, r), roots + [r])
  {
    hide BestOf, Unclaimed, Constant, RootsListed;
    var root', roots' := root + Constant(added, r), roots + [r];
    GrownListed(ids, root, roots, r, added);
    LateUnclaimed(ids, root, roots, r, added);
    forall i | 0 <= i < |roots'|
      ensures (i == 0 && roots'[0] == hinted) || BestOf(g, Unclaimed(ids, root', roots'[..i]), roots'[i])
    {
      if i < |roots| {
        EarlierUnclaimed(ids, root, roots[..i], r, added);
        assert roots'[i] == roots[i] && roots'[..i] == roots[..i];
      } else {
        assert roots'[..i] == roots;
      }
    }
  }

  lemma GrownListed(ids: set<Id>, root: map<Id, Id>, roots: seq<Id>, r: Id, added: set<Id>)
    requires RootsListed(ids, root, roots) && r in ids && r in added && added !! root.Keys
    ensures RootsListed(ids, root + Constant(added, r), roots + [r])
    ensures r !in roots && forall v :: v in root ==> root[v] in roots
  {
    assert r !in roots;
  }

  lemma LateUnclaimed(ids: set<Id>, root: map<Id, Id>, roots: seq<Id>, r: Id, added: set<Id>)
    requires added !! root.Keys && r !in roots && forall v :: v in root ==> root[v] in roots
    ensures Unclaimed(ids, root + Constant(added, r), roots) == ids - root.Keys
  {
  }

  lemma EarlierUnclaimed(ids: set<Id>, root: map<Id, Id>, roots: seq<Id>, r: Id, added: set<Id>)
    requires added !! root.Keys && r !in roots
    ensures Unclaimed(ids, root + Constant(added, r), roots) == Unclaimed(ids, root, roots)
  {
  }

  lemma ForestKeys(g: Graph, parent: Parents, root: map<Id, Id>, depth: map<Id, nat>)
    requires Forest(g, parent, root, depth)
    ensures root.Keys == parent.Keys == depth.Keys
  {
  }

  lemma GrownOk(g: Graph, ids: set<Id>, hinted: Id, f: Growth, r: Id)
    requires WellFormed(g) && GrowthOk(g, ids, hinted, f) && r !in f.parent && r in ids && r != ""
    requires (f.roots == [] && r == hinted) || BestOf(g, ids - f.parent.Keys, r)
    ensures GrowthOk(g, ids, hinted, Grown(g, f, r))
  {
    hide Closed, Forest, RootOrder, WellFormed, Explored, BestOf, Settled, Begun, Unclaimed;
    SearchIsTree(g, f.parent, r);
    ForestKeys(g, f.parent, f.root, f.depth);
    var s := Explored(g, Begun(f.parent, r));
    Graft(g, f.parent, f.root, f.depth, r, s.parent, s.depth);
    GrownOrder(g, ids, hinted, f.root, f.roots, r, s.depth.Keys);
  }

  lemma GrownReaches(g: Graph, f: Growth, r: Id)
    requires WellFormed(g) && r !in f.parent
    ensures f.parent.Keys + {r} <= Grown(g, f, r).parent.Keys
  {
    hide Explored, WellFormed;
    ExploredKeeps(g, Begun(f.parent, r));
  }

  /** A search from the best unvisited device until there is none. */
  ghost function GrownAll(g: Graph, ids: set<Id>, f: Growth): Growth
    requires WellFormed(g) && "" !in ids
    decreases ids - f.parent.Keys
  {
    var next := Best(g, ids - f.parent.Keys);
    if next == "" then f
    else
      GrownReaches(g, f, next);
      LessLeft(ids, f.parent.Keys, Grown(g, f, next).parent.Keys, next);
      GrownAll(g, ids, Grown(g, f, next))
  }

  lemma LessLeft<T>(all: set<T>, earlier: set<T>, later: set<T>, x: T)
    requires x in all - earlier && earlier + {x} <= later
    ensures all - later < all - earlier
  {
    assert x !in all - later;
  }

  lemma NothingLeft<T>(a: set<T>, b: set<T>)
    requires a - b == {}
    ensures a <= b
  {
    forall x | x in a
      ensures x in b
    {
      assert x in b || x in a - b;
    }
  }

  lemma {:induction false} GrownAllOk(g: Graph, ids: set<Id>, hinted: Id, f: Growth)
    requires WellFormed(g) && "" !in ids && GrowthOk(g, ids, hinted, f)
    ensures var e := GrownAll(g, ids, f);
            GrowthOk(g, ids, hinted, e) && ids <= e.parent.Keys && f.roots <= e.roots
    decreases ids - f.parent.Keys
  {
    hide WellFormed, GrowthOk, Grown, BestOf;
    var next := Best(g, ids - f.parent.Keys);
    BestIsMember(g, ids - f.parent.Keys, next);
    if next == "" {
      NothingLeft(ids, f.parent.Keys);
    } else {
      var f' := Grown(g, f, next);
      GrownOk(g, ids, hinted, f, next);
      GrownReaches(g, f, next);
      GrownAddsRoot(g, f, next);
      LessLeft(ids, f.parent.Keys, f'.parent.Keys, next);
      GrownAllOk(g, ids, hinted, f');
    }
  }

  lemma GrownAddsRoot(g: Graph, f: Growth, r: Id)
    requires WellFormed(g) && r !in f.parent
    ensures Grown(g, f, r).roots == f.roots + [r]
  {
    hide WellFormed;
  }

  /** What the source computes: the hinted or the best device first, then the best of the rest. */
  ghost function ForestOf(g: Graph, ids: set<Id>, hinted: Id): Growth
    requires WellFormed(g) && "" !in ids && ids != {}
  {
    GrownAll(g, ids, Grown(g, NO_FOREST, if hinted == "" then Best(g, ids) else hinted))
  }

  /** The forest covers the tenant, its roots were chosen in the order of preference, and a hint comes first. */
  lemma ForestOfOk(g: Graph, ids: set<Id>, hinted: Id)
    requires WellFormed(g) && "" !in ids && ids != {} && (hinted == "" || hinted in ids)
    ensures var f := ForestOf(g, ids, hinted);
            && Forest(g, f.parent, f.root, f.depth) && ids <= f.parent.Keys
            && RootOrder(g, ids, hinted, f.root, f.roots) && RootsChosen(g, ids, hinted, f.root)
            && f.roots != [] && f.roots[0] == (if hinted == "" then Best(g, ids) else hinted)
            && f.roots[0] in f.parent && f.parent[f.roots[0]] == ""
  {
    var first := if hinted == "" then Best(g, ids) else hinted;
    BestIsMember(g, ids, Best(g, ids));
    NoForestOk(g, ids, hinted);
    assert ids - NO_FOREST.parent.Keys == ids;
    GrownOk(g, ids, hinted, NO_FOREST, first);
    GrownAddsRoot(g, NO_FOREST, first);
    GrownAllOk(g, ids, hinted, Grown(g, NO_FOREST, first));
    FirstRoot(g, ids, hinted, ForestOf(g, ids, hinted));
    hide *;
  }

  lemma NoForestOk(g: Graph, ids: set<Id>, hinted: Id)
    ensures GrowthOk(g, ids, hinted, NO_FOREST)
  {
  }

  lemma FirstRoot(g: Graph, ids: set<Id>, hinted: Id, f: Growth)
    requires GrowthOk(g, ids, hinted, f) && f.roots != []
    ensures f.roots[0] in f.parent && f.parent[f.roots[0]] == ""
    ensures Forest(g, f.parent, f.root, f.depth) && RootOrder(g, ids, hinted, f.root, f.roots)
    ensures RootsChosen(g, ids, hinted, f.root)
  {
    hide BestOf, Closed;
    OrderChooses(g, ids, hinted, f.root, f.roots);
    assert Node(g, f.parent, f.root, f.depth, f.roots[0]);
  }

  /** Every root but the hinted one beats all tenant devices of its own component. */
  ghost predicate RootsChosen(g: Graph, ids: set<Id>, hinted: Id, root: map<Id, Id>)
  {
    forall v :: v in root ==>
      root[v] in ids &&
      (root[v] == hinted || forall u :: u in ids && u in root && root[u] == root[v] ==> Preferred(g, root[v], u))
  }

  /** In particular each root but a hinted one beats the devices of its own component. */
  lemma OrderChooses(g: Graph, ids: set<Id>, hinted: Id, root: map<Id, Id>, roots: seq<Id>)
    requires RootOrder(g, ids, hinted, root, roots)
    ensures RootsChosen(g, ids, hinted, root)
  {
    hide Preferred;
    forall v | v in root
      ensures root[v] in ids
      ensures root[v] == hinted || forall u :: u in ids && u in root && root[u] == root[v] ==> Preferred(g, root[v], u)
    {
      var i :| 0 <= i < |roots| && roots[i] == root[v];
      assert roots[i] !in roots[..i];
      if root[v] != hinted {
        assert BestOf(g, Unclaimed(ids, root, roots[..i]), roots[i]);
        forall u | u in ids && u in root && root[u] == root[v]
          ensures Preferred(g, root[v], u)
        {
          assert u in Unclaimed(ids, root, roots[..i]);
        }
      }
    }
  }

  // --- The forest follows least walks --------------------------------------------------

  /**
   The ids met from a root down to any of its nodes are the lexicographically least among all walks of
   that length between the two. This fixes the parents of mesh nodes.
   */
  ghost predicate LeastWalks(g: Graph, parent: Parents, root: map<Id, Id>, depth: map<Id, nat>)
  {
    && root.Keys == parent.Keys == depth.Keys
    && forall v, w :: v in parent && WalkBetween(g, w, root[v], v) && |w| == depth[v] + 1 ==>
         LexLeq(PathDown(parent, v, depth[v]), w)
  }

  /** A walk from the root leaves it one level per edge at most, and stays among the nodes reached. */
  lemma {:induction false} WalkFromRoot(g: Graph, root: Id, parent: Parents, depth: map<Id, nat>, w: seq<Id>)
    requires Tree(g, root, parent, depth) && forall u :: u in depth ==> Settled(g, depth, u)
    requires Walk(g, w) && w[0] == root
    ensures w[|w| - 1] in depth && depth[w[|w| - 1]] <= |w| - 1
  {
    hide Tree;
    TreeRoot(g, root, parent, depth);
    if |w| > 1 {
      var front := w[..|w| - 1];
      WalkFront(g, w);
      WalkFromRoot(g, root, parent, depth, front);
      assert Settled(g, depth, front[|front| - 1]);
    }
  }

  lemma TreeRoot(g: Graph, root: Id, parent: Parents, depth: map<Id, nat>)
    requires Tree(g, root, parent, depth)
    ensures root in depth && depth[root] == 0
  {
  }

  lemma WalkFront(g: Graph, w: seq<Id>)
    requires Walk(g, w) && |w| > 1
    ensures Walk(g, w[..|w| - 1]) && w[|w| - 1] in Neighbours(g, w[..|w| - 1][|w| - 2])
    ensures w == w[..|w| - 1] + [w[|w| - 1]]
  {
    var n := |w| - 2;
    assert w[n + 1] in Neighbours(g, w[n]);
  }

  lemma NotBeforeParent(g: Graph, root: Id, s: Search, order: seq<Id>, via: seq<nat>, i: nat, j: nat)
    requires Orderly(g, root, s, order, via, |order|) && 1 <= i < |order| && j < |order|
    requires order[i] in Neighbours(g, order[j])
    ensures |via| == |order| && via[i] <= j
  {
    hide Listed, Linked, Sequenced, Visited, Neighbours;
    OrderlyParts(g, root, s, order, via, |order|);
  }

  lemma Position(g: Graph, root: Id, s: Search, order: seq<Id>, via: seq<nat>, u: Id) returns (j: nat)
    requires Orderly(g, root, s, order, via, |order|) && u in s.depth
    ensures j < |order| && order[j] == u
  {
    OrderlyParts(g, root, s, order, via, |order|);
    hide Orderly;
    assert u in Members(order);
    j :| 0 <= j < |order| && order[j] == u;
  }

  lemma {:induction false} LeastInTree(g: Graph, root: Id, s: Search, order: seq<Id>, via: seq<nat>, i: nat, w: seq<Id>)
    requires Orderly(g, root, s, order, via, |order|) && Tree(g, root, s.parent, s.depth)
    requires forall u :: u in s.depth ==> Settled(g, s.depth, u)
    requires i < |order| && order[i] in s.depth && WalkBetween(g, w, root, order[i]) && |w| == s.depth[order[i]] + 1
    ensures LexLeq(PathDown(s.parent, order[i], s.depth[order[i]]), w)
    decreases |w|
  {
    hide Orderly, Tree, LexLeq, PathDown, Walk, Less;
    NodeAt(g, root, s, order, via, i);
    var v, d := order[i], s.depth[order[i]];
    if d == 0 {
      PathStep(s.parent, v, 0);
      assert w == [v];
      LexSame(w);
    } else {
      var front := w[..d];
      WalkFront(g, w);
      var u := front[d - 1];
      WalkFromRoot(g, root, s.parent, s.depth, front);
      assert Settled(g, s.depth, u);
      var j := Position(g, root, s, order, via, u);
      NotBeforeParent(g, root, s, order, via, i, j);
      OrderIsLex(g, root, s, order, via, via[i], j);
      LeastInTree(g, root, s, order, via, j, front);
      PathStep(s.parent, v, d - 1);
      LexTransitive(PathDown(s.parent, order[via[i]], d - 1), PathDown(s.parent, u, d - 1), front);
      LexAppendSame(PathDown(s.parent, order[via[i]], d - 1), front, v);
    }
  }

  lemma LexSame(p: seq<Id>)
    ensures LexLeq(p, p)
  {
  }

  lemma BegunOrderly(g: Graph, parent: Parents, r: Id)
    ensures Orderly(g, r, Begun(parent, r), [r], [0], 0)
  {
  }

  lemma SearchIsLeast(g: Graph, parent0: Parents, r: Id, v: Id, w: seq<Id>)
    requires WellFormed(g) && Closed(g, parent0.Keys) && r !in parent0
    requires var s := Explored(g, Begun(parent0, r));
             v in s.depth && WalkBetween(g, w, r, v) && |w| == s.depth[v] + 1
    ensures var s := Explored(g, Begun(parent0, r)); LexLeq(PathDown(s.parent, v, s.depth[v]), w)
  {
    hide *;
    var s := Explored(g, Begun(parent0, r));
    SearchIsTree(g, parent0, r);
    BegunOrderly(g, parent0, r);
    var order, via := ExploredOrderly(g, r, Begun(parent0, r), [r], [0], 0);
    var i := Position(g, r, s, order, via, v);
    LeastInTree(g, r, s, order, via, i, w);
  }

  /** A tree's paths stay as they are when another tree is added. */
  lemma {:induction false} PathStays(g: Graph, parent: Parents, root: map<Id, Id>, depth: map<Id, nat>,
                                     later: Parents, v: Id, d: nat)
    requires Forest(g, parent, root, depth) && v in parent && v in depth && d <= depth[v]
    requires SameOn(parent.Keys, parent, later)
    ensures PathDown(later, v, d) == PathDown(parent, v, d)
    decreases d
  {
    hide Forest, PathDown;
    OwnStep(g, parent, root, depth, v);
    PathStep(parent, v, 0);
    PathStep(later, v, 0);
    if d > 0 {
      PathStays(g, parent, root, depth, later, parent[v], d - 1);
      PathStep(parent, v, d - 1);
      PathStep(later, v, d - 1);
    }
  }

  lemma GrownLeast(g: Graph, ids: set<Id>, hinted: Id, f: Growth, r: Id)
    requires WellFormed(g) && GrowthOk(g, ids, hinted, f) && r !in f.parent
    requires LeastWalks(g, f.parent, f.root, f.depth)
    ensures var e := Grown(g, f, r); LeastWalks(g, e.parent, e.root, e.depth)
  {
    hide WellFormed, Closed, Forest, RootOrder, Explored, Begun, PathDown, LexLeq, Tree, Settled, WalkBetween;
    var s, e := Explored(g, Begun(f.parent, r)), Grown(g, f, r);
    SearchIsTree(g, f.parent, r);
    forall v, w | v in e.parent && WalkBetween(g, w, e.root[v], v) && |w| == e.depth[v] + 1
      ensures LexLeq(PathDown(e.parent, v, e.depth[v]), w)
    {
      if v in s.depth {
        SearchIsLeast(g, f.parent, r, v, w);
      } else {
        PathStays(g, f.parent, f.root, f.depth, s.parent, v, f.depth[v]);
      }
    }
  }

  lemma {:induction false} GrownAllLeast(g: Graph, ids: set<Id>, hinted: Id, f: Growth)
    requires WellFormed(g) && "" !in ids && GrowthOk(g, ids, hinted, f) && LeastWalks(g, f.parent, f.root, f.depth)
    ensures var e := GrownAll(g, ids, f); LeastWalks(g, e.parent, e.root, e.depth)
    decreases ids - f.parent.Keys
  {
    hide WellFormed, GrowthOk, Grown, BestOf, LeastWalks;
    var next := Best(g, ids - f.parent.Keys);
    BestIsMember(g, ids - f.parent.Keys, next);
    if next != "" {
      var f' := Grown(g, f, next);
      GrownOk(g, ids, hinted, f, next);
      GrownLeast(g, ids, hinted, f, next);
      GrownReaches(g, f, next);
      LessLeft(ids, f.parent.Keys, f'.parent.Keys, next);
      GrownAllLeast(g, ids, hinted, f');
    }
  }

  lemma NoForestLeast(g: Graph)
    ensures LeastWalks(g, NO_FOREST.parent, NO_FOREST.root, NO_FOREST.depth)
  {
  }

  /** From its root down to every device the forest takes the least of the shortest walks. */
  lemma ForestIsLeast(g: Graph, ids: set<Id>, hinted: Id)
    requires WellFormed(g) && "" !in ids && ids != {} && (hinted == "" || hinted in ids)
    ensures var f := ForestOf(g, ids, hinted); LeastWalks(g, f.parent, f.root, f.depth)
  {
    var first := if hinted == "" then Best(g, ids) else hinted;
    BestIsMember(g, ids, Best(g, ids));
    NoForestOk(g, ids, hinted);
    NoForestLeast(g);
    assert ids - NO_FOREST.parent.Keys == ids;
    GrownOk(g, ids, hinted, NO_FOREST, first);
    GrownLeast(g, ids, hinted, NO_FOREST, first);
    GrownAllLeast(g, ids, hinted, Grown(g, NO_FOREST, first));
    hide *;
  }

  // --- The component loop as a loop --------------------------------------------------

  /**
   Section 3 of the source: the primary root (hinted, or the best device overall), then one
   search per remaining component until no tenant device is unvisited.
   */
  method SpanningForest(g: Graph, ids: seq<Id>, hinted: Id)
    returns (rootId: Id, parent: Parents, ghost f: Growth)
    requires WellFormed(g) && Ascending(ids) && "" !in ids && ids != []
    requires hinted == "" || hinted in ids
    ensures Members(ids) != {} && f == ForestOf(g, Members(ids), hinted) && parent == f.parent
    ensures Forest(g, parent, f.root, f.depth) && Members(ids) <= parent.Keys
    ensures RootOrder(g, Members(ids), hinted, f.root, f.roots) && RootsChosen(g, Members(ids), hinted, f.root)
    ensures LeastWalks(g, parent, f.root, f.depth)
    ensures f.roots != [] && rootId == f.roots[0] && rootId in ids && parent[rootId] == ""
    ensures if hinted != "" then rootId == hinted else BestOf(g, Members(ids), rootId)
  {
    hide WellFormed, Ascending, BestOf, Explored, Forest, RootOrder, RootsChosen, GrownAll, LeastWalks;
    ghost var tenant := Members(ids);
    assert ids[0] in tenant;
    var visited: set<Id> := {};
    parent := map[];
    rootId := hinted;
    if rootId == "" {
      rootId := HighestDegreeUnvisited(ids, visited, g);
      assert tenant - visited == tenant;
      BestUnique(g, tenant, rootId, Best(g, tenant));
    }
    ForestOfOk(g, tenant, hinted);
    ForestIsLeast(g, tenant, hinted);
    ghost var depth;
    parent, visited, depth := Bfs(g, rootId, parent, visited);
    f := Grown(g, NO_FOREST, rootId);
    parent, f := GrowRest(g, ids, hinted, parent, visited, f);
  }

  /** The component loop: a search from the best unvisited device until there is none. */
  method GrowRest(g: Graph, ids: seq<Id>, ghost hinted: Id, parent0: Parents, visited0: set<Id>, ghost f0: Growth)
    returns (parent: Parents, ghost f: Growth)
    requires WellFormed(g) && Ascending(ids) && "" !in ids
    requires parent0 == f0.parent && visited0 == parent0.Keys
    ensures "" !in Members(ids) && f == GrownAll(g, Members(ids), f0) && parent == f.parent
    ensures GrowthOk(g, Members(ids), hinted, f0) ==>
      GrowthOk(g, Members(ids), hinted, f) && Members(ids) <= parent.Keys && f0.roots <= f.roots
  {
    hide WellFormed, Ascending, BestOf, Explored, Members, GrowthOk;
    ghost var tenant := Members(ids);
    NoEmptyId(ids);
    var visited := visited0;
    parent, f := parent0, f0;
    var next := HighestDegreeUnvisited(ids, visited, g);
    BestUnique(g, tenant - visited, next, Best(g, tenant - visited));
    while next != ""
      invariant parent == f.parent && visited == parent.Keys
      invariant GrownAll(g, tenant, f) == GrownAll(g, tenant, f0)
      invariant next == Best(g, tenant - visited)
      decreases tenant - visited
    {
      BestIsMember(g, tenant - visited, next);
      GrownReaches(g, f, next);
      LessLeft(tenant, visited, Grown(g, f, next).parent.Keys, next);
      ghost var depth;
      parent, visited, depth := Bfs(g, next, parent, visited);
      f := Grown(g, f, next);
      next := HighestDegreeUnvisited(ids, visited, g);
      BestUnique(g, tenant - visited, next, Best(g, tenant - visited));
    }
    if GrowthOk(g, tenant, hinted, f0) { GrownAllOk(g, tenant, hinted, f0); }
  }

  lemma NoEmptyId(ids: seq<Id>)
    requires "" !in ids
    ensures "" !in Members(ids)
  {
  }

  // --- What the parent map means -------------------------------------------------

  /** The node `k` parents above `v`. */
  function Climb(parent: Parents, v: Id, k: nat): Id
    decreases k
  {
    if k == 0 then v
    else if v in parent then Climb(parent, parent[v], k - 1)
    else ""
  }

  /** The nodes met on the climb, `v` first. */
  function ClimbPath(parent: Parents, v: Id, k: nat): (p: seq<Id>)
    ensures |p| == k + 1
    decreases k
  {
    if k == 0 then [v]
    else [v] + ClimbPath(parent, if v in parent then parent[v] else "", k - 1)
  }

  /** The facts of one node's certificate that concern its own climb. */
  lemma OwnStep(g: Graph, parent: Parents, root: map<Id, Id>, depth: map<Id, nat>, v: Id)
    requires Forest(g, parent, root, depth) && v in parent
    ensures root.Keys == parent.Keys && depth.Keys == parent.Keys
    ensures root[v] in parent && parent[root[v]] == "" && root[root[v]] == root[v] && depth[root[v]] == 0
    ensures parent[v] == "" <==> depth[v] == 0
    ensures parent[v] == "" ==> root[v] == v
    ensures parent[v] != "" ==>
      parent[v] in parent && v in Neighbours(g, parent[v]) &&
      depth[v] == depth[parent[v]] + 1 && root[parent[v]] == root[v]
  {
  }

  /** Neighbours lie in the same tree, at most one level deeper. */
  lemma NeighbourStep(g: Graph, parent: Parents, root: map<Id, Id>, depth: map<Id, nat>, v: Id, u: Id)
    requires Forest(g, parent, root, depth) && v in parent && u in Neighbours(g, v)
    ensures root.Keys == parent.Keys && depth.Keys == parent.Keys
    ensures u in parent && root[u] == root[v] && depth[u] <= depth[v] + 1
  {
    assert Node(g, parent, root, depth, v);
  }

  /** Each step up loses one level and stays in the same tree. */
  lemma {:induction false} ClimbDepth(g: Graph, parent: Parents, root: map<Id, Id>, depth: map<Id, nat>, v: Id, k: nat)
    requires Forest(g, parent, root, depth) && v in parent && k <= depth[v]
    ensures Climb(parent, v, k) in parent
    ensures depth[Climb(parent, v, k)] == depth[v] - k
    ensures root[Climb(parent, v, k)] == root[v]
    decreases k
  {
    hide Forest, Node;
    OwnStep(g, parent, root, depth, v);
    if k > 0 {
      ClimbDepth(g, parent, root, depth, parent[v], k - 1);
    }
  }

  lemma WalkExtends(g: Graph, u: Id, v: Id, p: seq<Id>, w: Id)
    requires WellFormed(g) && u in Neighbours(g, v) && WalkBetween(g, p, v, w)
    ensures WalkBetween(g, [u] + p, u, w)
  {
  }

  lemma WalkOfOne(g: Graph, v: Id)
    ensures WalkBetween(g, [v], v, v)
  {
  }

  lemma Symmetric(g: Graph, u: Id, v: Id)
    requires WellFormed(g) && v in Neighbours(g, u)
    ensures u in Neighbours(g, v)
  {
  }

  lemma {:induction false} ClimbIsWalk(g: Graph, parent: Parents, root: map<Id, Id>, depth: map<Id, nat>, v: Id, k: nat)
    requires WellFormed(g) && Forest(g, parent, root, depth) && v in parent && k <= depth[v]
    ensures WalkBetween(g, ClimbPath(parent, v, k), v, Climb(parent, v, k))
    decreases k
  {
    hide Forest, Node, WellFormed, WalkBetween;
    OwnStep(g, parent, root, depth, v);
    if k == 0 {
      WalkOfOne(g, v);
    } else {
      Symmetric(g, parent[v], v);
      ClimbIsWalk(g, parent, root, depth, parent[v], k - 1);
      WalkExtends(g, v, parent[v], ClimbPath(parent, parent[v], k - 1), Climb(parent, parent[v], k - 1));
    }
  }

  /** A walk leaves a tree node one level per edge at most, and never leaves its tree. */
  lemma {:induction false} WalkStaysInTree(g: Graph, parent: Parents, root: map<Id, Id>, depth: map<Id, nat>,
                                           p: seq<Id>)
    requires Forest(g, parent, root, depth) && Walk(g, p) && p[0] in parent
    ensures p[|p| - 1] in parent && root[p[|p| - 1]] == root[p[0]]
    ensures depth[p[|p| - 1]] <= depth[p[0]] + |p| - 1
  {
    hide Forest, Node;
    OwnStep(g, parent, root, depth, p[0]);
    if |p| > 1 {
      assert p[0 + 1] in Neighbours(g, p[0]);
      NeighbourStep(g, parent, root, depth, p[0], p[1]);
      WalkStaysInTree(g, parent, root, depth, p[1..]);
    }
  }

  /**
   Following `parent` from any visited device reaches its component's root without repeating a
   node, in exactly as many hops as the graph distance between them.
   */
  lemma ParentsAreShortestPaths(g: Graph, parent: Parents, root: map<Id, Id>, depth: map<Id, nat>, v: Id)
    requires WellFormed(g) && Forest(g, parent, root, depth) && v in parent
    ensures Climb(parent, v, depth[v]) == root[v] && parent[root[v]] == ""
    ensures Distance(g, v, root[v], depth[v])
    ensures forall i, j :: 0 <= i < j <= depth[v] ==> Climb(parent, v, i) != Climb(parent, v, j)
    ensures forall i :: 0 <= i < depth[v] ==> Climb(parent, v, i) in parent && parent[Climb(parent, v, i)] != ""
  {
    forall i | 0 <= i <= depth[v]
      ensures Climb(parent, v, i) in parent && depth[Climb(parent, v, i)] == depth[v] - i
      ensures root[Climb(parent, v, i)] == root[v]
      ensures i < depth[v] ==> parent[Climb(parent, v, i)] != ""
    {
      ClimbDepth(g, parent, root, depth, v, i);
      assert Node(g, parent, root, depth, Climb(parent, v, i));
    }
    var top := Climb(parent, v, depth[v]);
    assert Node(g, parent, root, depth, top) && Node(g, parent, root, depth, v);
    ClimbIsWalk(g, parent, root, depth, v, depth[v]);
    forall p | WalkBetween(g, p, v, root[v])
      ensures depth[v] + 1 <= |p|
    {
      WalkReverse(g, p, v, root[v]);
      WalkStaysInTree(g, parent, root, depth, Reverse(p));
    }
  }

  /** Two visited devices have the same root exactly when they are connected. */
  lemma SameRootIffConnected(g: Graph, parent: Parents, root: map<Id, Id>, depth: map<Id, nat>, u: Id, v: Id)
    requires WellFormed(g) && Forest(g, parent, root, depth) && u in parent && v in parent
    ensures root[u] == root[v] <==> Connected(g, u, v)
  {
    if Connected(g, u, v) {
      var p :| WalkBetween(g, p, u, v);
      WalkStaysInTree(g, parent, root, depth, p);
    }
    if root[u] == root[v] {
      ParentsAreShortestPaths(g, parent, root, depth, u);
      ParentsAreShortestPaths(g, parent, root, depth, v);
      assert Connected(g, u, root[u]) && Connected(g, v, root[v]);
      ConnectedSymmetric(g, v, root[v]);
      ConnectedTransitive(g, u, root[u], v);
    }
  }

  /** Each component has exactly one parentless node, its root. */
  lemma OneRootPerComponent(g: Graph, parent: Parents, root: map<Id, Id>, depth: map<Id, nat>, v: Id)
    requires WellFormed(g) && Forest(g, parent, root, depth) && v in parent
    ensures root[v] in Component(g, parent.Keys, v)
    ensures forall u :: u in Component(g, parent.Keys, v) && parent[u] == "" ==> u == root[v]
  {
    assert Node(g, parent, root, depth, v);
    SameRootIffConnected(g, parent, root, depth, root[v], v);
    forall u | u in Component(g, parent.Keys, v) && parent[u] == ""
      ensures u == root[v]
    {
      SameRootIffConnected(g, parent, root, depth, u, v);
      assert Node(g, parent, root, depth, u);
    }
  }

  ghost function Roots(parent: Parents): set<Id>
  {
    set v | v in parent && parent[v] == ""
  }

  ghost function TreeEdges(parent: Parents): set<(Id, Id)>
  {
    Uplinks(parent, parent.Keys - Roots(parent))
  }

  ghost function Uplinks(parent: Parents, vs: set<Id>): set<(Id, Id)>
    requires vs <= parent.Keys
  {
    set v | v in vs :: (v, parent[v])
  }

  lemma {:induction false} UplinkCount(parent: Parents, vs: set<Id>)
    requires vs <= parent.Keys
    ensures |Uplinks(parent, vs)| == |vs|
  {
    if vs != {} {
      var c :| c in vs;
      var rest := vs - {c};
      UplinkCount(parent, rest);
      assert Uplinks(parent, vs) == Uplinks(parent, rest) + {(c, parent[c])};
    }
  }

  lemma {:induction false} DistinctComponents(g: Graph, vs: set<Id>, rs: set<Id>)
    requires forall a, b :: a in rs && b in rs && Component(g, vs, a) == Component(g, vs, b) ==> a == b
    ensures |set r | r in rs :: Component(g, vs, r)| == |rs|
  {
    if rs == {} {
      assert (set r | r in rs :: Component(g, vs, r)) == {};
    } else {
      var c :| c in rs;
      var rest := rs - {c};
      DistinctComponents(g, vs, rest);
      assert (set r | r in rs :: Component(g, vs, r))
          == (set r | r in rest :: Component(g, vs, r)) + {Component(g, vs, c)};
    }
  }

  lemma RootsNameComponents(g: Graph, parent: Parents, root: map<Id, Id>, depth: map<Id, nat>)
    requires WellFormed(g) && Forest(g, parent, root, depth)
    ensures Components(g, parent.Keys) == set r | r in Roots(parent) :: Component(g, parent.Keys, r)
  {
    var vs := parent.Keys;
    forall v | v in vs
      ensures root[v] in Roots(parent) && Component(g, vs, v) == Component(g, vs, root[v])
    {
      assert Node(g, parent, root, depth, v);
      forall u | u in vs
        ensures Connected(g, u, v) <==> Connected(g, u, root[v])
      {
        SameRootIffConnected(g, parent, root, depth, u, v);
        SameRootIffConnected(g, parent, root, depth, u, root[v]);
      }
    }
  }

  lemma ComponentCount(g: Graph, parent: Parents, root: map<Id, Id>, depth: map<Id, nat>)
    requires WellFormed(g) && Forest(g, parent, root, depth)
    ensures |Components(g, parent.Keys)| == |Roots(parent)|
  {
    var vs, roots := parent.Keys, Roots(parent);
    forall a, b | a in roots && b in roots && Component(g, vs, a) == Component(g, vs, b)
      ensures a == b
    {
      OneRootPerComponent(g, parent, root, depth, a);
      OneRootPerComponent(g, parent, root, depth, b);
    }
    DistinctComponents(g, vs, roots);
    RootsNameComponents(g, parent, root, depth);
  }

  /** The forest has one tree edge per visited node, less one per connected component. */
  lemma TreeEdgeCount(g: Graph, parent: Parents, root: map<Id, Id>, depth: map<Id, nat>)
    requires WellFormed(g) && Forest(g, parent, root, depth)
    ensures |TreeEdges(parent)| == |parent.Keys| - |Components(g, parent.Keys)|
  {
    ComponentCount(g, parent, root, depth);
    UplinkCount(parent, parent.Keys - Roots(parent));
  }
}
