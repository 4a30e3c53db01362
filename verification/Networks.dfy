/**
 One cycle of the hierarchy runner in fwDCS/main.go: the networks of an organisation are recomputed one
 after another over one link table, in which links may join devices of different networks.
 */
module Networks {
  import opened Ids
  import opened Graphs
  import opened Forests
  import opened Hierarchy

  /** The recomputation of one network: its devices, their graph, and the forest computed from it. */
  datatype Turn = Turn(tenant: set<Id>, graph: Graph, forest: Growth)

  /** What `RecomputeHierarchy` ensures of a turn that succeeds. */
  ghost predicate Recomputed(before: seq<LinkRow>, after: seq<LinkRow>, t: Turn)
  {
    && GraphOf(t.graph, before, t.tenant) && "" !in t.tenant
    && Forest(t.graph, t.forest.parent, t.forest.root, t.forest.depth) && t.tenant <= t.forest.parent.Keys
    && Labelled(before, after, t.tenant, t.forest.parent)
  }

  /** The link tables before, between and after the turns of a cycle over disjoint networks. */
  ghost predicate Cycle(tables: seq<seq<LinkRow>>, turns: seq<Turn>)
  {
    && |tables| == |turns| + 1
    && (forall i :: 0 <= i < |turns| ==> Recomputed(tables[i], tables[i + 1], turns[i]))
    && (forall i, j :: 0 <= i < j < |turns| ==> turns[i].tenant !! turns[j].tenant)
    && (forall r :: r in tables[0] ==> r.src != "")
  }

  ghost function Devices(turns: seq<Turn>): set<Id>
  {
    if turns == [] then {} else Devices(turns[..|turns| - 1]) + turns[|turns| - 1].tenant
  }

  /** Some network's forest has `c` as the parent of its own device `p`. */
  ghost predicate Claimed(turns: seq<Turn>, p: Id, c: Id)
  {
    exists t :: t in turns && IsParent(t.tenant, t.forest.parent, p, c)
  }

  ghost function Unclaimed(ps: set<Id>, turns: seq<Turn>, c: Id): set<Id>
  {
    set p | p in ps && !Claimed(turns, p, c)
  }

  // --- One turn, seen from a device --------------------------------------------------------

  /** The turn of another network takes away its own devices' downlinks, and the uplinks it claims back. */
  lemma ForeignTurn(before: seq<LinkRow>, after: seq<LinkRow>, t: Turn, c: Id)
    requires Recomputed(before, after, t) && c !in t.tenant
    ensures DownlinkSources(after, c) == DownlinkSources(before, c) - t.tenant
    ensures UplinkTargets(after, c) == Unclaimed(UplinkTargets(before, c), [t], c)
  {
    hide Forest, GraphOf;
    var parent := t.forest.parent;
    forall x
      ensures x in DownlinkSources(after, c) <==> x in DownlinkSources(before, c) - t.tenant
    {
      ForeignDownlinks(before, after, t.tenant, parent, c, x);
    }
    forall x
      ensures Claimed([t], x, c) <==> IsParent(t.tenant, parent, x, c)
      ensures x in UplinkTargets(after, c) <==>
              x in UplinkTargets(before, c) && !IsParent(t.tenant, parent, x, c)
    {
      assert t in [t];
      ForeignUplinks(before, after, t.tenant, parent, c, x);
    }
    hide Labelled, IsParent, UplinkTargets, DownlinkSources, Claimed;
  }

  lemma ForeignDownlinks(before: seq<LinkRow>, after: seq<LinkRow>, tenant: set<Id>, parent: Parents, c: Id, x: Id)
    requires Labelled(before, after, tenant, parent) && c !in tenant
    ensures x in DownlinkSources(after, c) <==> x in DownlinkSources(before, c) - tenant
  {
    if x in DownlinkSources(after, c) {
      var r :| r in after && r.relation == Downlink && r.dst == c && r.src == x;
      var i :| 0 <= i < |after| && after[i] == r;
      assert before[i] in before;
    }
    if x in DownlinkSources(before, c) - tenant {
      var r :| r in before && r.relation == Downlink && r.dst == c && r.src == x;
      var i :| 0 <= i < |before| && before[i] == r;
      assert after[i] in after;
    }
  }

  lemma ForeignUplinks(before: seq<LinkRow>, after: seq<LinkRow>, tenant: set<Id>, parent: Parents, c: Id, x: Id)
    requires Labelled(before, after, tenant, parent) && c !in tenant
    ensures x in UplinkTargets(after, c) <==> x in UplinkTargets(before, c) && !IsParent(tenant, parent, x, c)
  {
    if x in UplinkTargets(after, c) {
      var r :| r in after && r.relation == Uplink && r.src == c && r.dst == x;
      var i :| 0 <= i < |after| && after[i] == r;
      assert before[i] in before;
    }
    if x in UplinkTargets(before, c) && !IsParent(tenant, parent, x, c) {
      var r :| r in before && r.relation == Uplink && r.src == c && r.dst == x;
      var i :| 0 <= i < |before| && before[i] == r;
      assert after[i] in after;
    }
  }

  /** After its own turn a device has its forest parent and whatever stale foreign downlinks it had. */
  lemma OwnTurn(before: seq<LinkRow>, after: seq<LinkRow>, t: Turn, c: Id)
    requires Recomputed(before, after, t) && c in t.tenant
    ensures var p, downs := t.forest.parent[c], DownlinkSources(after, c);
            && UplinkTargets(after, c) <= (if p == "" then {} else {p})
            && DownlinkSources(before, c) - t.tenant <= downs
            && downs <= DownlinkSources(before, c) - t.tenant + (if p == "" then {} else {p})
            && (p != "" ==> p in UplinkTargets(after, c) || (p in t.tenant && p in downs))
  {
    var p := t.forest.parent[c];
    hide *;
    if p != "" { ParentIsShown(before, after, t, c); }
    forall x
      ensures x in UplinkTargets(after, c) ==> x == p != ""
      ensures x in DownlinkSources(before, c) - t.tenant ==> x in DownlinkSources(after, c)
      ensures x in DownlinkSources(after, c) ==> x in DownlinkSources(before, c) - t.tenant || x == p != ""
    {
      OwnLabels(before, after, t, c, x);
    }
  }

  lemma OwnLabels(before: seq<LinkRow>, after: seq<LinkRow>, t: Turn, c: Id, x: Id)
    requires Recomputed(before, after, t) && c in t.tenant
    ensures var p := t.forest.parent[c];
            && (x in UplinkTargets(after, c) ==> x == p != "")
            && (x in DownlinkSources(before, c) - t.tenant ==> x in DownlinkSources(after, c))
            && (x in DownlinkSources(after, c) ==> x in DownlinkSources(before, c) - t.tenant || x == p != "")
  {
    hide Forest, GraphOf;
    if x in DownlinkSources(before, c) - t.tenant {
      var r :| r in before && r.relation == Downlink && r.dst == c && r.src == x;
      var i :| 0 <= i < |before| && before[i] == r;
      assert after[i] in after;
    }
    if x in DownlinkSources(after, c) {
      var r :| r in after && r.relation == Downlink && r.dst == c && r.src == x;
      var i :| 0 <= i < |after| && after[i] == r;
      assert before[i] in before;
    }
  }

  /** The parent of a device shows as an uplink of its own, or it is a device of its own network. */
  lemma ParentIsShown(before: seq<LinkRow>, after: seq<LinkRow>, t: Turn, c: Id)
    requires Recomputed(before, after, t) && c in t.tenant && t.forest.parent[c] != ""
    ensures var p := t.forest.parent[c];
            p in UplinkTargets(after, c) || (p in t.tenant && p in DownlinkSources(after, c))
  {
    var p := t.forest.parent[c];
    var r := ParentRow(before, t, c);
    var i :| 0 <= i < |before| && before[i] == r;
    hide Forest, GraphOf, ParentCandidates;
    assert after[i] in after && after[i].src == r.src && after[i].dst == r.dst;
  }

  /** Some row of the network carries the tree edge of a device. */
  lemma ParentRow(before: seq<LinkRow>, t: Turn, c: Id) returns (r: LinkRow)
    requires GraphOf(t.graph, before, t.tenant)
    requires Forest(t.graph, t.forest.parent, t.forest.root, t.forest.depth)
    requires c in t.forest.parent && t.forest.parent[c] != ""
    ensures var p := t.forest.parent[c];
            r in before && r.src in t.tenant && ((r.src == c && r.dst == p) || (r.src == p && r.dst == c))
  {
    var p := t.forest.parent[c];
    OwnStep(t.graph, t.forest.parent, t.forest.root, t.forest.depth, c);
    hide Forest;
    assert Joined(TenantEdges(before, t.tenant), p, c);
    var e :| e in TenantEdges(before, t.tenant) && (e == (c, p) || e == (p, c));
    r :| r in before && r.src in t.tenant && r.layer == "network" && e == (r.src, r.dst);
  }

  // --- The turns of a cycle --------------------------------------------------------------------

  lemma CycleTurn(tables: seq<seq<LinkRow>>, turns: seq<Turn>, i: nat)
    requires Cycle(tables, turns) && i < |turns|
    ensures |tables| == |turns| + 1 && Recomputed(tables[i], tables[i + 1], turns[i])
  {
  }

  /** What a run of turns of other networks does to the labels around a device. */
  lemma {:induction false} ForeignTurns(tables: seq<seq<LinkRow>>, turns: seq<Turn>, c: Id, lo: nat, hi: nat)
    requires Cycle(tables, turns) && lo <= hi <= |turns|
    requires forall j :: lo <= j < hi ==> c !in turns[j].tenant
    ensures |tables| == |turns| + 1
    ensures DownlinkSources(tables[hi], c) == DownlinkSources(tables[lo], c) - Devices(turns[lo..hi])
    ensures UplinkTargets(tables[hi], c) == Unclaimed(UplinkTargets(tables[lo], c), turns[lo..hi], c)
    decreases hi
  {
    hide *;
    CycleTables(tables, turns);
    if lo < hi {
      ForeignTurns(tables, turns, c, lo, hi - 1);
      CycleTurn(tables, turns, hi - 1);
      ForeignTurn(tables[hi - 1], tables[hi], turns[hi - 1], c);
      var ts, t := turns[lo..hi - 1], turns[hi - 1];
      assert turns[lo..hi] == ts + [t];
      DevicesOneMore(ts, t);
      UnclaimedTwice(UplinkTargets(tables[lo], c), ts, t, c);
    } else {
      assert turns[lo..hi] == [];
      NoTurns(UplinkTargets(tables[lo], c), c);
    }
  }

  lemma CycleTables(tables: seq<seq<LinkRow>>, turns: seq<Turn>)
    requires Cycle(tables, turns)
    ensures |tables| == |turns| + 1
  {
  }

  lemma DevicesOneMore(ts: seq<Turn>, t: Turn)
    ensures Devices(ts + [t]) == Devices(ts) + t.tenant
  {
    assert (ts + [t])[..|ts|] == ts;
  }

  lemma NoTurns(ps: set<Id>, c: Id)
    ensures Devices([]) == {} && Unclaimed(ps, [], c) == ps
  {
  }

  lemma UnclaimedTwice(ps: set<Id>, ts: seq<Turn>, t: Turn, c: Id)
    ensures Unclaimed(Unclaimed(ps, ts, c), [t], c) == Unclaimed(ps, ts + [t], c)
  {
    hide IsParent;
    forall p
      ensures Claimed(ts + [t], p, c) <==> Claimed(ts, p, c) || Claimed([t], p, c)
    {
      assert t in [t] && t in ts + [t];
    }
  }

  lemma {:induction false} DevicesOf(turns: seq<Turn>, x: Id)
    ensures x in Devices(turns) <==> exists t :: t in turns && x in t.tenant
  {
    if turns != [] {
      DevicesOf(turns[..|turns| - 1], x);
      assert turns == turns[..|turns| - 1] + [turns[|turns| - 1]];
    }
  }

  /** Sources outside every network of the cycle whose rows into `c` still carry a downlink. */
  ghost function Outsiders(tables: seq<seq<LinkRow>>, turns: seq<Turn>, c: Id): set<Id>
    requires tables != []
  {
    DownlinkSources(tables[0], c) - Devices(turns)
  }

  /**
   After a whole cycle the view may choose, for a device of the i-th network, among its forest parent,
   unless a later network claimed the device back, and the stale outsiders. Stale rows of the
   organisation's own networks are gone, wherever they stood in the cycle.
   */
  lemma CandidatesAfterCycle(tables: seq<seq<LinkRow>>, turns: seq<Turn>, i: nat, c: Id)
    requires Cycle(tables, turns) && i < |turns| && c in turns[i].tenant
    ensures |tables| == |turns| + 1 && c in turns[i].forest.parent
    ensures var p := turns[i].forest.parent[c];
            ParentCandidates(tables[|turns|], c) ==
            (if p == "" || Claimed(turns[i + 1..], p, c) then {} else {p}) + Outsiders(tables, turns, c)
  {
    hide *;
    CycleTurn(tables, turns, i);
    OwnParent(tables[i], tables[i + 1], turns[i], c);
    InOneNetwork(tables, turns, i, c);
    ForeignTurns(tables, turns, c, 0, i);
    OwnTurn(tables[i], tables[i + 1], turns[i], c);
    ForeignTurns(tables, turns, c, i + 1, |turns|);
    var t, later, p := turns[i], turns[i + 1..], turns[i].forest.parent[c];
    assert turns[0..i] == turns[..i] && turns[i + 1..|turns|] == later;
    DevicesSplit(turns, i);
    if p in t.tenant { InOneNetwork(tables, turns, i, p); }
    var stale := DownlinkSources(tables[i], c) - t.tenant;
    Settle(UplinkTargets(tables[i + 1], c), DownlinkSources(tables[i + 1], c), stale, t.tenant, later, p, c);
    OutsidersAre(tables, turns, i, c);
    CandidatesAre(tables[|turns|], c);
  }

  lemma OwnParent(before: seq<LinkRow>, after: seq<LinkRow>, t: Turn, c: Id)
    requires Recomputed(before, after, t) && c in t.tenant
    ensures c in t.forest.parent
  {
  }

  lemma CandidatesAre(rows: seq<LinkRow>, c: Id)
    ensures ParentCandidates(rows, c) == UplinkTargets(rows, c) + DownlinkSources(rows, c)
  {
  }

  lemma OutsidersAre(tables: seq<seq<LinkRow>>, turns: seq<Turn>, i: nat, c: Id)
    requires tables != [] && i < |turns|
    ensures DownlinkSources(tables[0], c) - Devices(turns[..i]) - turns[i].tenant - Devices(turns[i + 1..])
         == Outsiders(tables, turns, c)
  {
    hide Devices, DownlinkSources;
    DevicesSplit(turns, i);
  }

  lemma Settle(up: set<Id>, down: set<Id>, stale: set<Id>, tenant: set<Id>, later: seq<Turn>, p: Id, c: Id)
    requires up <= (if p == "" then {} else {p})
    requires stale <= down <= stale + (if p == "" then {} else {p})
    requires p != "" ==> p in up || (p in tenant && p in down)
    requires p in tenant ==> p !in Devices(later)
    ensures Unclaimed(up, later, c) + (down - Devices(later))
         == (if p == "" || Claimed(later, p, c) then {} else {p}) + (stale - Devices(later))
  {
    hide Devices, Claimed;
    ClaimedIsInNetwork(later, p, c);
  }

  /** A device of the i-th network is in no other. */
  lemma InOneNetwork(tables: seq<seq<LinkRow>>, turns: seq<Turn>, i: nat, x: Id)
    requires Cycle(tables, turns) && i < |turns| && x in turns[i].tenant
    ensures forall j :: 0 <= j < |turns| && j != i ==> x !in turns[j].tenant
    ensures x !in Devices(turns[i + 1..])
  {
    hide Recomputed;
    DevicesOf(turns[i + 1..], x);
  }

  lemma DevicesSplit(turns: seq<Turn>, i: nat)
    requires i < |turns|
    ensures Devices(turns) == Devices(turns[..i]) + turns[i].tenant + Devices(turns[i + 1..])
  {
    hide Devices;
    forall x
      ensures x in Devices(turns) <==> x in Devices(turns[..i]) + turns[i].tenant + Devices(turns[i + 1..])
    {
      DevicesOf(turns, x);
      DevicesOf(turns[..i], x);
      DevicesOf(turns[i + 1..], x);
      MembersSplit(turns, i, x);
    }
  }

  lemma MembersSplit(turns: seq<Turn>, i: nat, x: Id)
    requires i < |turns|
    ensures (exists t :: t in turns && x in t.tenant) <==>
            (exists t :: t in turns[..i] && x in t.tenant) || x in turns[i].tenant
            || (exists t :: t in turns[i + 1..] && x in t.tenant)
  {
    assert turns == turns[..i] + [turns[i]] + turns[i + 1..];
  }

  lemma ClaimedIsInNetwork(turns: seq<Turn>, p: Id, c: Id)
    ensures Claimed(turns, p, c) ==> p in Devices(turns)
  {
    DevicesOf(turns, p);
  }

  /**
   After a whole cycle the view gives a device its forest parent exactly when no later network has the
   device as the parent of that parent, and no outsider that still claims the device comes before it.
   */
  lemma CycleReadBackIff(tables: seq<seq<LinkRow>>, turns: seq<Turn>, i: nat, c: Id)
    requires Cycle(tables, turns) && i < |turns| && c in turns[i].tenant
    ensures |tables| == |turns| + 1 && c in turns[i].forest.parent
    ensures var p := turns[i].forest.parent[c];
            ViewParent(tables[|turns|], c, p) <==>
            !Claimed(turns[i + 1..], p, c) &&
            forall x :: x in Outsiders(tables, turns, c) ==> p != "" && Leq(p, x)
  {
    hide *;
    CandidatesAfterCycle(tables, turns, i, c);
    var p, later := turns[i].forest.parent[c], turns[i + 1..];
    ClaimedIsInNetwork(later, p, c);
    if Claimed(later, p, c) { ClaimedIsInside(tables, turns, i, p, c); }
    NoEmptySource(tables, turns, c);
    NobodyClaimsNothing(tables, turns, i + 1, c);
    LeastCandidate(tables[|turns|], c, p, Outsiders(tables, turns, c), Claimed(later, p, c));
  }

  lemma ClaimedIsInside(tables: seq<seq<LinkRow>>, turns: seq<Turn>, i: nat, p: Id, c: Id)
    requires tables != [] && i < |turns| && p in Devices(turns[i + 1..])
    ensures p !in Outsiders(tables, turns, c)
  {
    hide Devices;
    DevicesSplit(turns, i);
  }

  lemma LeastCandidate(rows: seq<LinkRow>, c: Id, p: Id, outsiders: set<Id>, claimed: bool)
    requires ParentCandidates(rows, c) == (if p == "" || claimed then {} else {p}) + outsiders
    requires "" !in outsiders && (claimed ==> p != "" && p !in outsiders)
    ensures ViewParent(rows, c, p) <==> !claimed && forall x :: x in outsiders ==> p != "" && Leq(p, x)
  {
    hide ParentCandidates, Less;
  }

  lemma NoEmptySource(tables: seq<seq<LinkRow>>, turns: seq<Turn>, c: Id)
    requires Cycle(tables, turns)
    ensures tables != [] && "" !in Outsiders(tables, turns, c)
  {
  }

  lemma NobodyClaimsNothing(tables: seq<seq<LinkRow>>, turns: seq<Turn>, i: nat, c: Id)
    requires Cycle(tables, turns) && i <= |turns|
    ensures !Claimed(turns[i..], "", c)
  {
    hide Forest, GraphOf, Labelled;
    forall t | t in turns[i..]
      ensures "" !in t.tenant
    {
      var j :| i <= j < |turns| && turns[j] == t;
      assert Recomputed(tables[j], tables[j + 1], turns[j]);
    }
  }

  lemma {:induction false} LinksStay(tables: seq<seq<LinkRow>>, turns: seq<Turn>, k: nat, r: LinkRow)
    requires Cycle(tables, turns) && k <= |turns| && r in tables[k]
    ensures exists r0 :: r0 in tables[0] && r0 == r.(relation := r0.relation)
    decreases k
  {
    hide *;
    if k > 0 {
      CycleTurn(tables, turns, k - 1);
      var r1 := RowBefore(tables[k - 1], tables[k], turns[k - 1], r);
      LinksStay(tables, turns, k - 1, r1);
    } else {
      assert r == r.(relation := r.relation);
    }
  }

  lemma RowBefore(before: seq<LinkRow>, after: seq<LinkRow>, t: Turn, r: LinkRow) returns (r0: LinkRow)
    requires Recomputed(before, after, t) && r in after
    ensures r0 in before && r0 == r.(relation := r0.relation)
  {
    hide GraphOf, Forest, IsParent;
    var i :| 0 <= i < |after| && after[i] == r;
    r0 := before[i];
  }

  /** Only a link between two networks that both its ends report can be claimed back. */
  lemma ClaimNeedsBothRows(tables: seq<seq<LinkRow>>, turns: seq<Turn>, i: nat, c: Id)
    requires Cycle(tables, turns) && i < |turns| && c in turns[i].tenant
    ensures c in turns[i].forest.parent
    ensures var p := turns[i].forest.parent[c];
            Claimed(turns[i + 1..], p, c) ==>
            && p !in turns[i].tenant
            && (exists r :: r in tables[0] && r.src == c && r.dst == p)
            && (exists r :: r in tables[0] && r.src == p && r.dst == c)
  {
    hide *;
    CycleTurn(tables, turns, i);
    OwnParent(tables[i], tables[i + 1], turns[i], c);
    var p := turns[i].forest.parent[c];
    if Claimed(turns[i + 1..], p, c) {
      NobodyClaimsNothing(tables, turns, i + 1, c);
      var j := Claimant(turns, i, p, c);
      CycleTurn(tables, turns, j);
      InOneNetwork(tables, turns, i, c);
      InOneNetwork(tables, turns, j, p);
      SomeRow(tables, turns, i, c);
      SomeRow(tables, turns, j, p);
    }
  }

  lemma Claimant(turns: seq<Turn>, i: nat, p: Id, c: Id) returns (j: nat)
    requires i < |turns| && Claimed(turns[i + 1..], p, c)
    ensures i < j < |turns| && p in turns[j].tenant && p in turns[j].forest.parent
    ensures turns[j].forest.parent[p] == c && c != ""
  {
    var t :| t in turns[i + 1..] && IsParent(t.tenant, t.forest.parent, p, c);
    j :| i < j < |turns| && turns[j] == t;
  }

  lemma SomeRow(tables: seq<seq<LinkRow>>, turns: seq<Turn>, i: nat, c: Id)
    requires Cycle(tables, turns) && i < |turns| && c in turns[i].tenant
    requires c in turns[i].forest.parent && turns[i].forest.parent[c] !in turns[i].tenant + {""}
    ensures exists r :: r in tables[0] && r.src == c && r.dst == turns[i].forest.parent[c]
  {
    CycleTurn(tables, turns, i);
    var r := ParentRow(tables[i], turns[i], c);
    hide Cycle, GraphOf, Forest, Labelled;
    LinksStay(tables, turns, i, r);
  }

  // --- Witnesses -----------------------------------------------------------------------------------

  /** Two devices of a network that are joined through a foreign one, `y`. */
  ghost predicate PathNames(x: Id, y: Id, z: Id)
  {
    x != "" && y != "" && z != "" && Less(x, z) && x != y && y != z && x != z
  }

  function PathOf(x: Id, y: Id, z: Id): Graph
  {
    map[x := {y}, y := {x, z}, z := {y}]
  }

  ghost predicate IsPath(g: Graph, x: Id, y: Id, z: Id)
  {
    && WellFormed(g) && PathNames(x, y, z)
    && Neighbours(g, x) == {y} && Neighbours(g, y) == {x, z} && Neighbours(g, z) == {y}
  }

  lemma PathGraph(x: Id, y: Id, z: Id)
    requires PathNames(x, y, z)
    ensures IsPath(PathOf(x, y, z), x, y, z)
  {
    hide Less;
    var g := PathOf(x, y, z);
    assert Neighbours(g, x) == {y} && Neighbours(g, y) == {x, z} && Neighbours(g, z) == {y};
    assert forall u :: u in g <==> u == x || u == y || u == z;
    hide PathOf;
  }

  /** The lower of the two is the root, and the tree runs along the path. */
  lemma PathForest(g: Graph, x: Id, y: Id, z: Id)
    requires IsPath(g, x, y, z)
    ensures WellFormed(g) && "" !in {x, z}
    ensures var parent := ForestOf(g, {x, z}, "").parent;
            && x in parent && y in parent && z in parent
            && parent[x] == "" && parent[y] == x && parent[z] == y
  {
    hide *;
    PathParts(g, x, y, z);
    var f := ForestOf(g, {x, z}, "");
    ForestOfOk(g, {x, z}, "");
    PathBest(g, x, y, z);
    PathParents(g, f.parent, f.root, f.depth, x, y, z);
  }

  lemma PathParts(g: Graph, x: Id, y: Id, z: Id)
    requires IsPath(g, x, y, z)
    ensures WellFormed(g) && "" !in {x, z} && x != y && y != z && x != z
  {
    hide Less;
  }

  lemma PathBest(g: Graph, x: Id, y: Id, z: Id)
    requires IsPath(g, x, y, z)
    ensures "" !in {x, z} && Best(g, {x, z}) == x
  {
    hide Less, Neighbours, WellFormed;
    assert BestOf(g, {x, z}, x);
    BestUnique(g, {x, z}, x, Best(g, {x, z}));
  }

  lemma PathParents(g: Graph, parent: Parents, root: map<Id, Id>, depth: map<Id, nat>, x: Id, y: Id, z: Id)
    requires Forest(g, parent, root, depth) && x in parent && parent[x] == "" && IsPath(g, x, y, z)
    ensures y in parent && z in parent && parent[y] == x && parent[z] == y
  {
    PathParts(g, x, y, z);
    hide Forest, WellFormed, Neighbours, Less;
    OwnStep(g, parent, root, depth, x);
    NeighbourStep(g, parent, root, depth, x, y);
    NeighbourStep(g, parent, root, depth, y, z);
    OwnStep(g, parent, root, depth, y);
    OwnStep(g, parent, root, depth, z);
    if parent[y] != "" { Symmetric(g, parent[y], y); }
    if parent[z] != "" { Symmetric(g, parent[z], z); }
  }

  /** The turn of the path's network without a hint. */
  ghost function PathTurn(x: Id, y: Id, z: Id): Turn
    requires PathNames(x, y, z)
  {
    PathGraph(x, y, z);
    PathParts(PathOf(x, y, z), x, y, z);
    Turn({x, z}, PathOf(x, y, z), ForestOf(PathOf(x, y, z), {x, z}, ""))
  }

  /** What that turn makes of a row. */
  function PathLabel(r: LinkRow, x: Id, y: Id, z: Id): LinkRow
  {
    if r.src == y && r.dst == z then r.(relation := Downlink)
    else if r.src !in {x, z} then r
    else r.(relation := if r.src == z && r.dst == y then Uplink else Peer)
  }

  function Row(src: Id, dst: Id, relation: Relation): LinkRow
  {
    LinkRow(src, dst, "network", relation)
  }

  lemma PathGraphOf(rows: seq<LinkRow>, x: Id, y: Id, z: Id)
    requires PathNames(x, y, z)
    requires forall e :: e in TenantEdges(rows, {x, z}) <==> e == (x, y) || e == (z, y)
    ensures GraphOf(PathOf(x, y, z), rows, {x, z})
  {
    hide TenantEdges, Less, WellFormed;
    var g, edges := PathOf(x, y, z), TenantEdges(rows, {x, z});
    PathGraph(x, y, z);
    forall u, v
      ensures v in Neighbours(g, u) <==> Joined(edges, u, v)
    {
      assert (u, v) in edges <==> (u, v) == (x, y) || (u, v) == (z, y);
      assert (v, u) in edges <==> (v, u) == (x, y) || (v, u) == (z, y);
    }
  }

  /** A table whose rows from {x, z} lead to `y` becomes, by the network's turn, the table of path labels. */
  lemma PathTurnLabels(before: seq<LinkRow>, after: seq<LinkRow>, x: Id, y: Id, z: Id)
    requires PathNames(x, y, z) && |after| == |before|
    requires forall e :: e in TenantEdges(before, {x, z}) <==> e == (x, y) || e == (z, y)
    requires forall i :: 0 <= i < |before| ==> after[i] == PathLabel(before[i], x, y, z)
    ensures Recomputed(before, after, PathTurn(x, y, z))
    ensures z in PathTurn(x, y, z).forest.parent && PathTurn(x, y, z).forest.parent[z] == y
  {
    hide *;
    PathGraph(x, y, z);
    var g, t := PathOf(x, y, z), PathTurn(x, y, z);
    PathTurnIs(x, y, z);
    PathParts(g, x, y, z);
    ForestOfOk(g, {x, z}, "");
    PathForest(g, x, y, z);
    PathGraphOf(before, x, y, z);
    PathLabels(before, after, x, y, z, t.forest.parent);
    WrittenBackIsLabelled(before, {x, z}, g, t.forest.parent, t.forest.root, t.forest.depth);
    RecomputedBy(before, after, t);
  }

  lemma PathTurnIs(x: Id, y: Id, z: Id)
    requires PathNames(x, y, z)
    ensures WellFormed(PathOf(x, y, z)) && "" !in {x, z}
    ensures PathTurn(x, y, z) == Turn({x, z}, PathOf(x, y, z), ForestOf(PathOf(x, y, z), {x, z}, ""))
  {
    hide ForestOf, Less, PathOf;
    PathGraph(x, y, z);
    PathParts(PathOf(x, y, z), x, y, z);
  }

  lemma PathLabels(before: seq<LinkRow>, after: seq<LinkRow>, x: Id, y: Id, z: Id, parent: Parents)
    requires PathNames(x, y, z) && x in parent && y in parent && z in parent
    requires parent[x] == "" && parent[y] == x && parent[z] == y && |after| == |before|
    requires forall i :: 0 <= i < |before| ==> after[i] == PathLabel(before[i], x, y, z)
    ensures after == WrittenBack(before, {x, z}, parent)
  {
    hide Less;
    forall r: LinkRow
      ensures PathLabel(r, x, y, z) == Relabelled(r, {x, z}, parent)
    {
    }
  }

  lemma RecomputedBy(before: seq<LinkRow>, after: seq<LinkRow>, t: Turn)
    requires GraphOf(t.graph, before, t.tenant) && "" !in t.tenant
    requires Forest(t.graph, t.forest.parent, t.forest.root, t.forest.depth) && t.tenant <= t.forest.parent.Keys
    requires Labelled(before, after, t.tenant, t.forest.parent)
    ensures Recomputed(before, after, t)
  {
  }

  function TwoNetworks(a: Id, b: Id, c: Id, d: Id): seq<LinkRow>
  {
    [Row(a, d, Peer), Row(b, d, Peer), Row(c, b, Peer), Row(d, b, Peer)]
  }

  function AfterFirst(a: Id, b: Id, c: Id, d: Id): seq<LinkRow>
  {
    [Row(a, d, Peer), Row(b, d, Uplink), Row(c, b, Peer), Row(d, b, Downlink)]
  }

  function AfterSecond(a: Id, b: Id, c: Id, d: Id): seq<LinkRow>
  {
    [Row(a, d, Peer), Row(b, d, Downlink), Row(c, b, Peer), Row(d, b, Uplink)]
  }

  /**
   Two networks {a, b} and {c, d} whose devices reach each other through b and d, with no downlink to
   begin with. The first makes d the parent of b, the second b the parent of d, and the view then gives
   b no parent at all.
   */
  lemma LaterNetworkTakesParent(a: Id, b: Id, c: Id, d: Id)
    requires PathNames(a, d, b) && PathNames(c, b, d) && a != c
    ensures
      var tables := [TwoNetworks(a, b, c, d), AfterFirst(a, b, c, d), AfterSecond(a, b, c, d)];
      var turns := [PathTurn(a, d, b), PathTurn(c, b, d)];
      && Cycle(tables, turns) && turns[0].tenant == {a, b} && turns[1].tenant == {c, d}
      && b in turns[0].forest.parent && turns[0].forest.parent[b] == d
      && ViewParent(tables[1], b, d) && ViewParent(tables[2], b, "")
  {
    hide *;
    var rows0, rows1, rows2 := TwoNetworks(a, b, c, d), AfterFirst(a, b, c, d), AfterSecond(a, b, c, d);
    FirstTurn(a, b, c, d);
    SecondTurn(a, b, c, d);
    TwoTurns(rows0, rows1, rows2, PathTurn(a, d, b), PathTurn(c, b, d));
    TwoViews(a, b, c, d);
  }

  lemma TwoTurns(rows0: seq<LinkRow>, rows1: seq<LinkRow>, rows2: seq<LinkRow>, t: Turn, u: Turn)
    requires Recomputed(rows0, rows1, t) && Recomputed(rows1, rows2, u) && t.tenant !! u.tenant
    requires forall r :: r in rows0 ==> r.src != ""
    ensures Cycle([rows0, rows1, rows2], [t, u])
  {
    hide Recomputed;
  }

  lemma FirstTurn(a: Id, b: Id, c: Id, d: Id)
    requires PathNames(a, d, b) && PathNames(c, b, d) && a != c
    ensures var t, rows := PathTurn(a, d, b), TwoNetworks(a, b, c, d);
            && Recomputed(rows, AfterFirst(a, b, c, d), t) && t.tenant == {a, b}
            && b in t.forest.parent && t.forest.parent[b] == d && forall r :: r in rows ==> r.src != ""
  {
    hide Recomputed, PathTurn, TenantEdges, Less, PathLabel, TwoNetworks, AfterFirst;
    var before, after := TwoNetworks(a, b, c, d), AfterFirst(a, b, c, d);
    FirstLabels(a, b, c, d);
    FirstEdges(before, a, b, c, d);
    PathTurnLabels(before, after, a, d, b);
    PathTurnIs(a, d, b);
  }

  lemma FirstLabels(a: Id, b: Id, c: Id, d: Id)
    requires PathNames(a, d, b) && PathNames(c, b, d) && a != c
    ensures var before, after := TwoNetworks(a, b, c, d), AfterFirst(a, b, c, d);
            && |after| == |before| && (forall r :: r in before ==> r.src != "")
            && forall i :: 0 <= i < |before| ==> after[i] == PathLabel(before[i], a, d, b)
  {
    hide Less;
  }

  lemma SecondTurn(a: Id, b: Id, c: Id, d: Id)
    requires PathNames(a, d, b) && PathNames(c, b, d) && a != c
    ensures var t := PathTurn(c, b, d);
            && Recomputed(AfterFirst(a, b, c, d), AfterSecond(a, b, c, d), t) && t.tenant == {c, d}
            && {a, b} !! {c, d}
  {
    hide Recomputed, PathTurn, TenantEdges, Less, PathLabel, AfterFirst, AfterSecond;
    SecondLabels(a, b, c, d);
    SecondEdges(AfterFirst(a, b, c, d), a, b, c, d);
    PathTurnLabels(AfterFirst(a, b, c, d), AfterSecond(a, b, c, d), c, b, d);
    PathTurnIs(c, b, d);
  }

  lemma SecondLabels(a: Id, b: Id, c: Id, d: Id)
    requires PathNames(a, d, b) && PathNames(c, b, d) && a != c
    ensures var before, after := AfterFirst(a, b, c, d), AfterSecond(a, b, c, d);
            |after| == |before| && forall i :: 0 <= i < |before| ==> after[i] == PathLabel(before[i], c, b, d)
  {
    hide Less;
  }

  lemma FirstEdges(rows: seq<LinkRow>, a: Id, b: Id, c: Id, d: Id)
    requires rows == TwoNetworks(a, b, c, d) && {a, b} !! {c, d}
    ensures forall e :: e in TenantEdges(rows, {a, b}) <==> e == (a, d) || e == (b, d)
  {
    hide TenantEdges;
    assert rows[0] in rows && rows[1] in rows;
  }

  lemma SecondEdges(rows: seq<LinkRow>, a: Id, b: Id, c: Id, d: Id)
    requires rows == AfterFirst(a, b, c, d) && {a, b} !! {c, d}
    ensures forall e :: e in TenantEdges(rows, {c, d}) <==> e == (c, b) || e == (d, b)
  {
    hide TenantEdges;
    assert rows[2] in rows && rows[3] in rows;
  }

  lemma TwoViews(a: Id, b: Id, c: Id, d: Id)
    requires PathNames(a, d, b) && PathNames(c, b, d) && a != c
    ensures ViewParent(AfterFirst(a, b, c, d), b, d)
    ensures ViewParent(AfterSecond(a, b, c, d), b, "")
  {
    hide Less;
    var rows1, rows2 := AfterFirst(a, b, c, d), AfterSecond(a, b, c, d);
    assert rows1[1] in rows1;
    assert ParentCandidates(rows1, b) == {d};
    assert ParentCandidates(rows2, b) == {};
  }

  /** Links b-a and c-a of the network {b, c}, and the foreign device's own report of the second. */
  function OneNetwork(a: Id, b: Id, c: Id): seq<LinkRow>
  {
    [Row(b, a, Peer), Row(c, a, Peer), Row(a, c, Peer)]
  }

  function AfterOne(a: Id, b: Id, c: Id): seq<LinkRow>
  {
    [Row(b, a, Peer), Row(c, a, Uplink), Row(a, c, Downlink)]
  }

  /** After the link b-c was added, and the network recomputed again. */
  function AfterTwo(a: Id, b: Id, c: Id): seq<LinkRow>
  {
    [Row(b, a, Peer), Row(c, a, Peer), Row(a, c, Downlink), Row(b, c, Downlink)]
  }

  function TriangleOf(a: Id, b: Id, c: Id): Graph
  {
    map[a := {b, c}, b := {a, c}, c := {a, b}]
  }

  ghost predicate TriangleNames(a: Id, b: Id, c: Id)
  {
    a != "" && b != "" && c != "" && Less(a, b) && Less(b, c) && a != b && b != c && a != c
  }

  lemma TriangleGraph(a: Id, b: Id, c: Id)
    requires TriangleNames(a, b, c)
    ensures WellFormed(TriangleOf(a, b, c)) && "" !in {b, c}
  {
    hide Less;
    var g := TriangleOf(a, b, c);
    assert Neighbours(g, a) == {b, c} && Neighbours(g, b) == {a, c} && Neighbours(g, c) == {a, b};
    assert forall u :: u in g <==> u == a || u == b || u == c;
    hide TriangleOf;
  }

  ghost function TriangleTurn(a: Id, b: Id, c: Id): Turn
    requires TriangleNames(a, b, c)
  {
    TriangleGraph(a, b, c);
    Turn({b, c}, TriangleOf(a, b, c), ForestOf(TriangleOf(a, b, c), {b, c}, ""))
  }

  lemma TriangleForest(a: Id, b: Id, c: Id)
    requires TriangleNames(a, b, c)
    ensures var f := TriangleTurn(a, b, c).forest;
            && Forest(TriangleOf(a, b, c), f.parent, f.root, f.depth) && {b, c} <= f.parent.Keys
            && f.parent[b] == "" && f.parent[c] == b
  {
    hide Less, ForestOf, Forest, WellFormed, RootOrder, RootsChosen;
    var g := TriangleOf(a, b, c);
    TriangleGraph(a, b, c);
    ForestOfOk(g, {b, c}, "");
    TriangleBest(a, b, c);
    var f := ForestOf(g, {b, c}, "");
    assert c in Neighbours(g, b);
    OwnStep(g, f.parent, f.root, f.depth, b);
    NeighbourStep(g, f.parent, f.root, f.depth, b, c);
    OwnStep(g, f.parent, f.root, f.depth, c);
    if f.parent[c] != "" { OwnStep(g, f.parent, f.root, f.depth, f.parent[c]); }
  }

  lemma TriangleBest(a: Id, b: Id, c: Id)
    requires TriangleNames(a, b, c)
    ensures "" !in {b, c} && Best(TriangleOf(a, b, c), {b, c}) == b
  {
    hide Less;
    var g := TriangleOf(a, b, c);
    assert |Neighbours(g, b)| == 2 && |Neighbours(g, c)| == 2;
    hide Neighbours;
    assert BestOf(g, {b, c}, b);
    BestUnique(g, {b, c}, b, Best(g, {b, c}));
  }

  /**
   Two runs over one network, between them the link b-c. The first run labels the foreign row a→c, since
   then a is the parent of c. The second makes b the parent, and the view goes on answering a.
   */
  lemma StaleForeignRowMisleads(a: Id, b: Id, c: Id)
    requires TriangleNames(a, b, c)
    ensures PathNames(b, a, c) && Recomputed(OneNetwork(a, b, c), AfterOne(a, b, c), PathTurn(b, a, c))
    ensures var t := TriangleTurn(a, b, c);
            && Recomputed(AfterOne(a, b, c) + [Row(b, c, Peer)], AfterTwo(a, b, c), t)
            && c in t.forest.parent && t.forest.parent[c] == b && ViewParent(AfterTwo(a, b, c), c, a)
  {
    hide *;
    TriangleIsPath(a, b, c);
    FirstRun(a, b, c);
    SecondRun(a, b, c);
    StaleView(a, b, c);
  }

  lemma TriangleIsPath(a: Id, b: Id, c: Id)
    requires TriangleNames(a, b, c)
    ensures PathNames(b, a, c)
  {
    hide Less;
  }

  lemma FirstRun(a: Id, b: Id, c: Id)
    requires PathNames(b, a, c)
    ensures Recomputed(OneNetwork(a, b, c), AfterOne(a, b, c), PathTurn(b, a, c))
  {
    hide Recomputed, TenantEdges, Less, PathTurn;
    var before, after := OneNetwork(a, b, c), AfterOne(a, b, c);
    assert forall e :: e in TenantEdges(before, {b, c}) <==> e == (b, a) || e == (c, a) by {
      assert before[0] in before && before[1] in before;
    }
    PathTurnLabels(before, after, b, a, c);
  }

  lemma SecondRun(a: Id, b: Id, c: Id)
    requires TriangleNames(a, b, c)
    ensures var t := TriangleTurn(a, b, c);
            && Recomputed(AfterOne(a, b, c) + [Row(b, c, Peer)], AfterTwo(a, b, c), t)
            && c in t.forest.parent && t.forest.parent[c] == b
  {
    hide *;
    var before, t := AfterOne(a, b, c) + [Row(b, c, Peer)], TriangleTurn(a, b, c);
    TriangleTurnIs(a, b, c);
    TriangleGraph(a, b, c);
    TriangleForest(a, b, c);
    TriangleGraphOf(a, b, c);
    TriangleLabels(a, b, c, t.forest.parent);
    WrittenBackIsLabelled(before, {b, c}, t.graph, t.forest.parent, t.forest.root, t.forest.depth);
    RecomputedBy(before, AfterTwo(a, b, c), t);
  }

  lemma TriangleTurnIs(a: Id, b: Id, c: Id)
    requires TriangleNames(a, b, c)
    ensures TriangleTurn(a, b, c).tenant == {b, c} && TriangleTurn(a, b, c).graph == TriangleOf(a, b, c)
  {
    hide ForestOf, Less, TriangleOf;
  }

  lemma TriangleGraphOf(a: Id, b: Id, c: Id)
    requires TriangleNames(a, b, c)
    ensures GraphOf(TriangleOf(a, b, c), AfterOne(a, b, c) + [Row(b, c, Peer)], {b, c})
  {
    hide TenantEdges, Less, WellFormed;
    var g, rows := TriangleOf(a, b, c), AfterOne(a, b, c) + [Row(b, c, Peer)];
    TriangleGraph(a, b, c);
    var edges := TenantEdges(rows, {b, c});
    assert forall e :: e in edges <==> e == (b, a) || e == (c, a) || e == (b, c) by {
      assert rows[0] in rows && rows[1] in rows && rows[3] in rows;
    }
    forall u, v
      ensures v in Neighbours(g, u) <==> Joined(edges, u, v)
    {
      assert (u, v) in edges <==> (u, v) == (b, a) || (u, v) == (c, a) || (u, v) == (b, c);
      assert (v, u) in edges <==> (v, u) == (b, a) || (v, u) == (c, a) || (v, u) == (b, c);
    }
  }

  lemma TriangleLabels(a: Id, b: Id, c: Id, parent: Parents)
    requires TriangleNames(a, b, c) && b in parent && c in parent && parent[b] == "" && parent[c] == b
    ensures WrittenBack(AfterOne(a, b, c) + [Row(b, c, Peer)], {b, c}, parent) == AfterTwo(a, b, c)
  {
    hide Less;
  }

  lemma StaleView(a: Id, b: Id, c: Id)
    requires TriangleNames(a, b, c)
    ensures ViewParent(AfterTwo(a, b, c), c, a)
  {
    hide Less;
    var rows := AfterTwo(a, b, c);
    assert rows[2] in rows && rows[3] in rows;
    assert ParentCandidates(rows, c) == {a, b};
  }
}
