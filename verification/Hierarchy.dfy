/**
 fwDCS/internal/store/hierarchy.go end to end: load a tenant's devices and links, compute
 the spanning forest, write it back as link relations, and read those relations back the
 way the `topology_tree` view does.
 */
module Hierarchy {
  import opened Ids
  import opened Graphs
  import opened Forests

  datatype Relation = Peer | Uplink | Downlink

  datatype LinkRow = LinkRow(src: Id, dst: Id, layer: string, relation: Relation)

  /** One tenant device; `ips` are its management, production, loopback and OOB addresses. */
  datatype DeviceRow = DeviceRow(id: Id, host: string, ips: seq<string>)

  // --- Resolving the root hint -------------------------------------------------------

  /** `unicode.IsSpace`. */
  predicate IsSpace(c: char)
  {
    var u := c as int;
    9 <= u <= 13 || 0x2000 <= u <= 0x200A || u in {0x20, 0x85, 0xA0, 0x1680, 0x2028, 0x2029, 0x202F, 0x205F, 0x3000}
  }

  predicate Blank(s: string)
  {
    forall c :: c in s ==> IsSpace(c)
  }

  function TrimLeft(s: string): (r: string)
    ensures r == "" || !IsSpace(r[0])
  {
    if s != "" && IsSpace(s[0]) then TrimLeft(s[1..]) else s
  }

  function TrimRight(s: string): (r: string)
    ensures r <= s && (r == "" || !IsSpace(r[|r| - 1]))
  {
    if s != "" && IsSpace(s[|s| - 1]) then TrimRight(s[..|s| - 1]) else s
  }

  /** `strings.TrimSpace`. */
  function Trimmed(s: string): (r: string)
    ensures r == "" || (!IsSpace(r[0]) && !IsSpace(r[|r| - 1]))
  {
    TrimRight(TrimLeft(s))
  }

  lemma {:induction false} TrimLeftCuts(s: string) returns (a: string)
    ensures s == a + TrimLeft(s) && Blank(a)
  {
    hide IsSpace;
    a := "";
    if s != "" && IsSpace(s[0]) {
      var rest := TrimLeftCuts(s[1..]);
      a := [s[0]] + rest;
    }
  }

  lemma {:induction false} TrimRightCuts(s: string) returns (b: string)
    ensures s == TrimRight(s) + b && Blank(b)
  {
    hide IsSpace;
    b := "";
    if s != "" && IsSpace(s[|s| - 1]) {
      var rest := TrimRightCuts(s[..|s| - 1]);
      b := rest + [s[|s| - 1]];
    }
  }

  /** Trimming takes the white space off both ends, all of it and nothing else. */
  lemma TrimmedIsCut(s: string) returns (a: string, b: string)
    ensures s == a + Trimmed(s) + b && Blank(a) && Blank(b)
    ensures Trimmed(s) != "" ==> !IsSpace(Trimmed(s)[0]) && !IsSpace(Trimmed(s)[|Trimmed(s)| - 1])
  {
    hide Blank, IsSpace, TrimLeft, TrimRight;
    a := TrimLeftCuts(s);
    b := TrimRightCuts(TrimLeft(s));
  }

  /** The text before the first '/', or all of it. */
  function StripMask(s: string): (r: string)
    ensures '/' !in r && r <= s && (r == s || s[|r|] == '/')
  {
    if s == "" || s[0] == '/' then ""
    else [s[0]] + StripMask(s[1..])
  }

  predicate IpMatch(stored: string, hint: string)
  {
    stored != "" && StripMask(stored) == hint
  }

  predicate HintMatches(d: DeviceRow, hint: string)
  {
    d.host == hint || exists i :: 0 <= i < |d.ips| && IpMatch(d.ips[i], hint)
  }

  /** A stored address matches exactly when it is the hint, or the hint with a mask. */
  lemma IpMatchIff(stored: string, hint: string)
    ensures IpMatch(stored, hint) <==>
      stored != "" && '/' !in hint && (stored == hint || exists mask :: stored == hint + "/" + mask)
  {
    var r := StripMask(stored);
    if r != stored {
      assert stored == r + "/" + stored[|r| + 1..];
    }
    if '/' !in hint {
      StripsTo(hint, "");
      if mask :| stored == hint + "/" + mask { StripsTo(hint, mask); }
    }
  }

  lemma {:induction false} StripsTo(r: string, mask: string)
    requires '/' !in r
    ensures StripMask(r) == r && StripMask(r + "/" + mask) == r
  {
    if r != "" {
      StripsTo(r[1..], mask);
      assert (r + "/" + mask)[1..] == r[1..] + "/" + mask;
    }
  }

  /** A hint names a device by its hostname or by a stored address, with or without a mask. */
  lemma HintMatchesIff(d: DeviceRow, hint: string)
    ensures HintMatches(d, hint) <==>
      (d.host == hint || exists ip :: ip in d.ips && ip != "" && '/' !in hint &&
                                      (ip == hint || exists mask :: ip == hint + "/" + mask))
  {
    hide IpMatch;
    forall ip | ip in d.ips
      ensures IpMatch(ip, hint) <==>
        ip != "" && '/' !in hint && (ip == hint || exists mask :: ip == hint + "/" + mask)
    {
      IpMatchIff(ip, hint);
    }
  }

  ghost predicate FirstMatch(devices: seq<DeviceRow>, hint: string, id: Id)
  {
    exists k ::
      && 0 <= k < |devices| && devices[k].id == id && HintMatches(devices[k], hint)
      && forall j :: 0 <= j < k ==> !HintMatches(devices[j], hint)
  }

  ghost predicate Resolved(devices: seq<DeviceRow>, hint: string, id: Id)
  {
    if hint == "" || forall j :: 0 <= j < |devices| ==> !HintMatches(devices[j], hint) then id == ""
    else id != "" && FirstMatch(devices, hint, id)
  }

  /** The first device, in query order, that the trimmed hint names; none for a blank hint. */
  method ResolveRoot(devices: seq<DeviceRow>, rootHint: string) returns (rootId: Id)
    requires forall d :: d in devices ==> d.id != ""
    ensures Resolved(devices, Trimmed(rootHint), rootId)
  {
    hide Trimmed, IsSpace;
    var hint := Trimmed(rootHint);
    rootId := "";
    for i := 0 to |devices|
      invariant rootId == "" <==> hint == "" || forall j :: 0 <= j < i ==> !HintMatches(devices[j], hint)
      invariant rootId != "" ==> FirstMatch(devices, hint, rootId)
    {
      if rootId == "" && hint != "" && HintMatches(devices[i], hint) {
        rootId := devices[i].id;
      }
    }
  }

  // --- The three UPDATE statements ---------------------------------------------------

  function ResetToPeer(rows: seq<LinkRow>, tenant: set<Id>): seq<LinkRow>
  {
    seq(|rows|, i requires 0 <= i < |rows| =>
      if rows[i].src in tenant then rows[i].(relation := Peer) else rows[i])
  }

  /** Whether (child, parent) is one of the pairs unnested from the two arrays. */
  predicate Paired(children: seq<Id>, parents: seq<Id>, child: Id, parent: Id)
    requires |children| == |parents|
  {
    exists i :: 0 <= i < |children| && children[i] == child && parents[i] == parent
  }

  function MarkUplinks(rows: seq<LinkRow>, children: seq<Id>, parents: seq<Id>): seq<LinkRow>
    requires |children| == |parents|
  {
    seq(|rows|, i requires 0 <= i < |rows| =>
      if Paired(children, parents, rows[i].src, rows[i].dst) then rows[i].(relation := Uplink) else rows[i])
  }

  function MarkDownlinks(rows: seq<LinkRow>, children: seq<Id>, parents: seq<Id>): seq<LinkRow>
    requires |children| == |parents|
  {
    seq(|rows|, i requires 0 <= i < |rows| =>
      if Paired(children, parents, rows[i].dst, rows[i].src) then rows[i].(relation := Downlink) else rows[i])
  }

  // --- What the labels mean ----------------------------------------------------------

  ghost predicate IsParent(tenant: set<Id>, parent: Parents, child: Id, p: Id)
  {
    child in tenant && child in parent && parent[child] == p && p != ""
  }

  /** A row differs from what it was at most in its relation. */
  ghost predicate SameLinks(before: seq<LinkRow>, after: seq<LinkRow>)
  {
    |after| == |before| && forall i :: 0 <= i < |before| ==> after[i] == before[i].(relation := after[i].relation)
  }

  /** The labels written for one tenant: exactly the parent map, and nothing foreign lost. */
  ghost predicate Labelled(before: seq<LinkRow>, after: seq<LinkRow>, tenant: set<Id>, parent: Parents)
  {
    && SameLinks(before, after)
    && (forall r :: r in after && r.src in tenant ==>
          (r.relation == Uplink <==> IsParent(tenant, parent, r.src, r.dst)) &&
          (r.relation == Downlink <==> IsParent(tenant, parent, r.dst, r.src)))
    && (forall i :: 0 <= i < |before| && before[i].src !in tenant ==>
          after[i].relation == if IsParent(tenant, parent, before[i].dst, before[i].src)
                               then Downlink else before[i].relation)
  }

  /** A tree edge points one way only, so no row can be both uplink and downlink. */
  lemma NoMutualParents(g: Graph, parent: Parents, root: map<Id, Id>, depth: map<Id, nat>, u: Id, v: Id)
    requires Forest(g, parent, root, depth) && u in parent && v in parent
    requires parent[u] == v && v != ""
    ensures parent[v] != u || u == ""
  {
    assert Node(g, parent, root, depth, u) && Node(g, parent, root, depth, v);
  }

  lemma LabelsFollowParents(before: seq<LinkRow>, tenant: set<Id>, parent: Parents,
                            children: seq<Id>, parents: seq<Id>,
                            g: Graph, root: map<Id, Id>, depth: map<Id, nat>)
    requires Forest(g, parent, root, depth) && tenant <= parent.Keys
    requires |children| == |parents|
    requires forall c, p :: Paired(children, parents, c, p) <==> IsParent(tenant, parent, c, p)
    ensures Labelled(before,
                     MarkDownlinks(MarkUplinks(ResetToPeer(before, tenant), children, parents), children, parents),
                     tenant, parent)
  {
    hide Forest, Paired;
    forall u, v | IsParent(tenant, parent, u, v) && IsParent(tenant, parent, v, u)
      ensures false
    {
      NoMutualParents(g, parent, root, depth, u, v);
    }
  }

  // --- The store ---------------------------------------------------------------------

  /** The network edges whose source is a tenant device (the edge query). */
  function TenantEdges(links: seq<LinkRow>, tenant: set<Id>): (es: seq<(Id, Id)>)
    ensures forall e :: e in es <==>
      exists r :: r in links && r.src in tenant && r.layer == "network" && e == (r.src, r.dst)
  {
    if links == [] then []
    else
      var r := links[0];
      (if r.src in tenant && r.layer == "network" then [(r.src, r.dst)] else []) + TenantEdges(links[1..], tenant)
  }

  ghost predicate GraphOf(g: Graph, links: seq<LinkRow>, tenant: set<Id>)
  {
    WellFormed(g) && forall u, v :: v in Neighbours(g, u) <==> Joined(TenantEdges(links, tenant), u, v)
  }

  function TenantIds(devices: seq<DeviceRow>): set<Id>
  {
    set d | d in devices :: d.id
  }

  /** The statement that fails, if any: loading the rows, or one of the three updates. */
  datatype Fault = NoFault | LoadFails | ResetFails | UplinkFails | DownlinkFails

  class TopologyStore {
    var devices: seq<DeviceRow>  // the tenant's device rows, in query order
    var links: seq<LinkRow>      // the whole topology_links table

    constructor (devices: seq<DeviceRow>, links: seq<LinkRow>)
      ensures this.devices == devices && this.links == links
    {
      this.devices, this.links := devices, links;
    }

    /**
     Rebuilds the spanning forest and relabels the link table; `ok` is false for an error. The ghost
     results certify that the labels written are those of the breadth-first forest of the tenant's
     network graph.
     */
    method RecomputeHierarchy(rootHint: string, fault: Fault)
      returns (rootHost: string, count: nat, ok: bool, ghost g: Graph, ghost f: Growth, ghost hinted: Id)
      requires forall d :: d in devices ==> d.id != ""
      modifies this`links
      ensures ok <==> fault == NoFault || (fault != LoadFails && devices == [])
                      || (fault in {UplinkFails, DownlinkFails} && Children(TenantIds(devices), f.parent) == {})
      ensures !ok ==> Interrupted(old(links), links, TenantIds(devices)) && rootHost == "" && count == 0
      ensures GraphOf(g, old(links), TenantIds(devices)) && "" !in TenantIds(devices)
      ensures Resolved(devices, Trimmed(rootHint), hinted)
      ensures f == if TenantIds(devices) == {} then NO_FOREST else ForestOf(g, TenantIds(devices), hinted)
      ensures Forest(g, f.parent, f.root, f.depth) && TenantIds(devices) <= f.parent.Keys
      ensures RootOrder(g, TenantIds(devices), hinted, f.root, f.roots)
      ensures RootsChosen(g, TenantIds(devices), hinted, f.root) && LeastWalks(g, f.parent, f.root, f.depth)
      ensures hinted != "" ==> hinted in f.parent && f.parent[hinted] == ""
      ensures ok ==> Labelled(old(links), links, TenantIds(devices), f.parent)
      ensures ok && devices == [] ==> rootHost == "" && count == 0
      ensures ok && devices != [] ==> count == |TenantIds(devices)|
      ensures ok && devices != [] ==>
        f.roots != [] && exists d :: d in devices && d.host == rootHost && d.id == f.roots[0]
    {
      hide Forest, RootOrder, RootsChosen, ForestOf, Labelled, WellFormed, Closed, Resolved, Interrupted, Children,
           Trimmed, LeastWalks;
      var tenant := TenantIds(devices);
      rootHost, count, ok := "", 0, false;
      var edges := TenantEdges(links, tenant);
      var adj := BuildAdjacency(edges);
      g := adj;
      StillWhole(links, tenant);
      if |devices| == 0 {
        f, hinted := NO_FOREST, "";
        NothingToDo(g, tenant, devices, links, rootHint);
        ok := fault != LoadFails;
        return;
      }
      var rootId, tree, children, parents;
      rootId, tree, children, parents, f, hinted := PlanTree(devices, adj, rootHint);
      if fault == LoadFails || fault == ResetFails {
        return;
      }
      LabelsFollowParents(links, tenant, tree, children, parents, adj, f.root, f.depth);
      PairsAreTreeEdges(tenant, tree, children, parents);
      links := ResetToPeer(links, tenant);
      ResetInterrupts(old(links), tenant, tree, children, parents);
      if |children| > 0 {
        if fault == UplinkFails {
          return;
        }
        links := MarkUplinks(links, children, parents);
        if fault == DownlinkFails {
          return;
        }
        links := MarkDownlinks(links, children, parents);
      } else {
        NothingMarked(links, children, parents);
      }
      rootHost := HostOf(devices, rootId);
      count := |tenant|;
      ok := true;
    }
  }

  /** The tenant devices that hang below another. */
  ghost function Children(tenant: set<Id>, parent: Parents): set<Id>
  {
    set c | c in tenant && c in parent && parent[c] != ""
  }

  /** What an interrupted write-back leaves: the same links, and the relations of foreign rows as they were. */
  ghost predicate Interrupted(before: seq<LinkRow>, after: seq<LinkRow>, tenant: set<Id>)
  {
    SameLinks(before, after) && forall i :: 0 <= i < |before| && before[i].src !in tenant ==> after[i] == before[i]
  }

  lemma StillWhole(links: seq<LinkRow>, tenant: set<Id>)
    ensures Interrupted(links, links, tenant)
  {
  }

  lemma ResetInterrupts(links: seq<LinkRow>, tenant: set<Id>, parent: Parents, children: seq<Id>, parents: seq<Id>)
    requires |children| == |parents|
    requires forall c, p :: Paired(children, parents, c, p) <==> IsParent(tenant, parent, c, p)
    ensures Interrupted(links, ResetToPeer(links, tenant), tenant)
    ensures Interrupted(links, MarkUplinks(ResetToPeer(links, tenant), children, parents), tenant)
  {
    hide Paired;
  }

  lemma PairsAreTreeEdges(tenant: set<Id>, parent: Parents, children: seq<Id>, parents: seq<Id>)
    requires |children| == |parents| && tenant <= parent.Keys
    requires forall c, p :: Paired(children, parents, c, p) <==> IsParent(tenant, parent, c, p)
    ensures children == [] <==> Children(tenant, parent) == {}
  {
    if children != [] {
      assert Paired(children, parents, children[0], parents[0]);
      assert children[0] in Children(tenant, parent);
    } else if c :| c in Children(tenant, parent) {
      assert IsParent(tenant, parent, c, parent[c]);
      assert false;
    }
  }

  lemma NothingMarked(rows: seq<LinkRow>, children: seq<Id>, parents: seq<Id>)
    requires children == [] && parents == []
    ensures MarkDownlinks(MarkUplinks(rows, children, parents), children, parents) == rows
  {
  }

  /** The run after an interrupted one labels the table as if there had been no interruption. */
  lemma NextRunRepairs(before: seq<LinkRow>, broken: seq<LinkRow>, after: seq<LinkRow>, tenant: set<Id>,
                       parent: Parents, g: Graph)
    requires Interrupted(before, broken, tenant) && Labelled(broken, after, tenant, parent)
    ensures Labelled(before, after, tenant, parent)
    ensures GraphOf(g, broken, tenant) <==> GraphOf(g, before, tenant)
  {
    SameEdges(before, broken, tenant);
    hide TenantEdges, IsParent, WellFormed;
  }

  lemma {:induction false} SameEdges(before: seq<LinkRow>, after: seq<LinkRow>, tenant: set<Id>)
    requires SameLinks(before, after)
    ensures TenantEdges(before, tenant) == TenantEdges(after, tenant)
  {
    if before != [] { SameEdges(before[1..], after[1..], tenant); }
  }

  /** Without tenant devices there is no tree, and no label changes. */
  lemma NothingToDo(g: Graph, tenant: set<Id>, devices: seq<DeviceRow>, links: seq<LinkRow>, rootHint: string)
    requires devices == [] && tenant == {}
    ensures Resolved(devices, Trimmed(rootHint), "")
    ensures Forest(g, map[], map[], map[]) && RootOrder(g, tenant, "", map[], []) && RootsChosen(g, tenant, "", map[])
    ensures LeastWalks(g, map[], map[], map[]) && Labelled(links, links, tenant, map[])
  {
    hide Trimmed, HintMatches;
  }

  /** Sections 3 and 4 up to the SQL: the forest of the loaded graph, and its tree edges as arrays. */
  method PlanTree(devices: seq<DeviceRow>, g: Graph, rootHint: string)
    returns (rootId: Id, tree: Parents, children: seq<Id>, parents: seq<Id>, ghost f: Growth, ghost hinted: Id)
    requires devices != [] && WellFormed(g)
    requires forall d :: d in devices ==> d.id != ""
    ensures TenantIds(devices) != {} && "" !in TenantIds(devices)
    ensures Resolved(devices, Trimmed(rootHint), hinted)
    ensures f == ForestOf(g, TenantIds(devices), hinted) && tree == f.parent
    ensures Forest(g, tree, f.root, f.depth) && TenantIds(devices) <= tree.Keys
    ensures RootOrder(g, TenantIds(devices), hinted, f.root, f.roots)
    ensures RootsChosen(g, TenantIds(devices), hinted, f.root) && LeastWalks(g, tree, f.root, f.depth)
    ensures hinted != "" ==> hinted in tree && tree[hinted] == ""
    ensures rootId in TenantIds(devices) && tree[rootId] == "" && f.roots != [] && rootId == f.roots[0]
    ensures |children| == |parents|
    ensures forall c, p :: Paired(children, parents, c, p) <==> IsParent(TenantIds(devices), tree, c, p)
  {
    hide Forest, RootOrder, RootsChosen, ForestOf, WellFormed, Ascending, Trimmed, BestOf, LeastWalks;
    var ids := SortIds(TenantIds(devices));
    assert Members(ids) == TenantIds(devices);
    assert devices[0].id in TenantIds(devices);
    var hint := ResolveRoot(devices, rootHint);
    hinted := hint;
    rootId, tree, f := SpanningForest(g, ids, hint);
    children, parents := Flatten(ids, tree);
  }

  /** `hostByID[rootID]`; a later row of the same id overwrites an earlier one. */
  method HostOf(devices: seq<DeviceRow>, id: Id) returns (host: string)
    requires exists d :: d in devices && d.id == id
    ensures exists d :: d in devices && d.id == id && d.host == host
  {
    host := "";
    for i := 0 to |devices|
      invariant (exists j :: 0 <= j < i && devices[j].id == id) ==>
                 exists j :: 0 <= j < i && devices[j].id == id && devices[j].host == host
    {
      if devices[i].id == id {
        host := devices[i].host;
      }
    }
  }

  /** Flattens the tree edges of the tenant's devices into parallel arrays. */
  method Flatten(ids: seq<Id>, parent: Parents) returns (children: seq<Id>, parents: seq<Id>)
    requires forall x :: x in ids ==> x in parent
    ensures |children| == |parents|
    ensures forall c, p :: Paired(children, parents, c, p) <==> c in ids && parent[c] == p && p != ""
  {
    children, parents := [], [];
    for i := 0 to |ids|
      invariant |children| == |parents|
      invariant forall k :: 0 <= k < |children| ==>
        children[k] in ids[..i] && parent[children[k]] == parents[k] && parents[k] != ""
      invariant forall j :: 0 <= j < i && parent[ids[j]] != "" ==> ids[j] in children
    {
      if parent[ids[i]] != "" {
        children := children + [ids[i]];
        parents := parents + [parent[ids[i]]];
      }
    }
    forall c, p | c in ids && parent[c] == p && p != ""
      ensures Paired(children, parents, c, p)
    {
      var k :| 0 <= k < |children| && children[k] == c;
    }
  }

  // --- Reading the labels back -------------------------------------------------------

  /** All parents the `parent_of` subquery lists for a child, over the whole table. */
  ghost function ParentCandidates(rows: seq<LinkRow>, c: Id): set<Id>
  {
    UplinkTargets(rows, c) + DownlinkSources(rows, c)
  }

  ghost function UplinkTargets(rows: seq<LinkRow>, c: Id): set<Id>
  {
    set r | r in rows && r.relation == Uplink && r.src == c :: r.dst
  }

  ghost function DownlinkSources(rows: seq<LinkRow>, c: Id): set<Id>
  {
    set r | r in rows && r.relation == Downlink && r.dst == c :: r.src
  }

  /** The view keeps the least candidate; "" when the child has none. */
  ghost predicate ViewParent(rows: seq<LinkRow>, c: Id, p: Id)
  {
    var ps := ParentCandidates(rows, c);
    if ps == {} then p == "" else IsLeast(p, ps)
  }

  /** Foreign sources of rows into `c` that already carried the downlink label. */
  ghost function StaleSources(rows: seq<LinkRow>, tenant: set<Id>, c: Id): set<Id>
  {
    DownlinkSources(rows, c) - tenant
  }

  /** Every tree edge of a tenant device is carried by some labelled row. */
  lemma TreeEdgeHasRow(before: seq<LinkRow>, after: seq<LinkRow>, tenant: set<Id>, parent: Parents,
                       g: Graph, root: map<Id, Id>, depth: map<Id, nat>, c: Id)
    requires GraphOf(g, before, tenant) && Forest(g, parent, root, depth)
    requires Labelled(before, after, tenant, parent)
    requires c in tenant && c in parent && parent[c] != ""
    ensures parent[c] in ParentCandidates(after, c)
  {
    var p := parent[c];
    assert Node(g, parent, root, depth, c);
    assert Joined(TenantEdges(before, tenant), p, c);
    var e :| e in TenantEdges(before, tenant) && (e == (c, p) || e == (p, c));
    var r :| r in before && r.src in tenant && r.layer == "network" && e == (r.src, r.dst);
    var i :| 0 <= i < |before| && before[i] == r;
    assert after[i] in after && after[i].src == r.src && after[i].dst == r.dst;
  }

  /** Conversely, a row that lists `p` as the parent of `c` either says so truly or was stale. */
  lemma CandidateIsParentOrStale(before: seq<LinkRow>, after: seq<LinkRow>, tenant: set<Id>, parent: Parents,
                                 c: Id, p: Id)
    requires Labelled(before, after, tenant, parent)
    requires c in tenant && p in ParentCandidates(after, c)
    ensures IsParent(tenant, parent, c, p) || p in StaleSources(before, tenant, c)
  {
  }

  /** The write-back leaves stale foreign rows in place. */
  lemma StaleSurvives(before: seq<LinkRow>, after: seq<LinkRow>, tenant: set<Id>, parent: Parents, c: Id, p: Id)
    requires Labelled(before, after, tenant, parent)
    requires c in tenant && p in StaleSources(before, tenant, c)
    ensures p in ParentCandidates(after, c)
  {
  }

  lemma CandidatesAfterWriteBack(before: seq<LinkRow>, after: seq<LinkRow>, tenant: set<Id>, parent: Parents,
                                 g: Graph, root: map<Id, Id>, depth: map<Id, nat>, c: Id)
    requires GraphOf(g, before, tenant) && Forest(g, parent, root, depth)
    requires Labelled(before, after, tenant, parent)
    requires c in tenant && c in parent
    ensures ParentCandidates(after, c) ==
            (if parent[c] == "" then {} else {parent[c]}) + StaleSources(before, tenant, c)
  {
    hide Forest, GraphOf, Labelled, ParentCandidates, StaleSources;
    var found := ParentCandidates(after, c);
    var stale := StaleSources(before, tenant, c);
    assert forall p :: p in found ==> IsParent(tenant, parent, c, p) || p in stale by {
      forall p | p in found { CandidateIsParentOrStale(before, after, tenant, parent, c, p); }
    }
    assert forall p :: p in stale ==> p in found by {
      forall p | p in stale { StaleSurvives(before, after, tenant, parent, c, p); }
    }
    if parent[c] != "" { TreeEdgeHasRow(before, after, tenant, parent, g, root, depth, c); }
  }

  /** A stale foreign row does no harm to `c` when `c` has a parent that sorts no later. */
  ghost predicate Harmless(rows: seq<LinkRow>, tenant: set<Id>, parent: Parents, c: Id)
    requires c in parent
  {
    forall x :: x in StaleSources(rows, tenant, c) ==> parent[c] != "" && Leq(parent[c], x)
  }

  /**
   Reading the labels back gives a tenant device its forest parent exactly when every foreign row
   into it that already was a downlink is harmless; in particular when there is none.
   */
  lemma ReadBackIff(before: seq<LinkRow>, after: seq<LinkRow>, tenant: set<Id>, parent: Parents,
                    g: Graph, root: map<Id, Id>, depth: map<Id, nat>, c: Id)
    requires GraphOf(g, before, tenant) && Forest(g, parent, root, depth)
    requires Labelled(before, after, tenant, parent)
    requires forall r :: r in before ==> r.src != ""
    requires c in tenant && c in parent
    ensures ViewParent(after, c, parent[c]) <==> Harmless(before, tenant, parent, c)
    ensures StaleSources(before, tenant, c) == {} ==> forall p :: ViewParent(after, c, p) <==> p == parent[c]
  {
    hide Forest, GraphOf, Labelled, ParentCandidates, Less;
    CandidatesAfterWriteBack(before, after, tenant, parent, g, root, depth, c);
    var stale := StaleSources(before, tenant, c);
    if stale == {} {
      forall p | ViewParent(after, c, p)
        ensures p == parent[c]
      {
        if parent[c] != "" { LeastUnique(p, parent[c], ParentCandidates(after, c)); }
      }
    }
    if parent[c] == "" && stale != {} {
      assert "" !in stale;
    }
  }

  // --- When the view can be trusted ---------------------------------------------------

  /** The relation a row has after the write-back. */
  ghost function Relabelled(r: LinkRow, tenant: set<Id>, parent: Parents): LinkRow
  {
    r.(relation := if IsParent(tenant, parent, r.dst, r.src) then Downlink
                   else if r.src !in tenant then r.relation
                   else if IsParent(tenant, parent, r.src, r.dst) then Uplink
                   else Peer)
  }

  ghost function WrittenBack(rows: seq<LinkRow>, tenant: set<Id>, parent: Parents): seq<LinkRow>
  {
    seq(|rows|, i requires 0 <= i < |rows| => Relabelled(rows[i], tenant, parent))
  }

  lemma WrittenBackIsLabelled(rows: seq<LinkRow>, tenant: set<Id>, g: Graph, parent: Parents,
                              root: map<Id, Id>, depth: map<Id, nat>)
    requires Forest(g, parent, root, depth) && tenant <= parent.Keys
    ensures Labelled(rows, WrittenBack(rows, tenant, parent), tenant, parent)
  {
    hide Forest;
    forall u, v | IsParent(tenant, parent, u, v) && IsParent(tenant, parent, v, u)
      ensures false
    {
      NoMutualParents(g, parent, root, depth, u, v);
    }
  }

  /** The view gives every tenant device the parent the write-back recorded. */
  ghost predicate Recovers(after: seq<LinkRow>, tenant: set<Id>, parent: Parents)
  {
    forall c :: c in tenant ==> c in parent && ViewParent(after, c, parent[c])
  }

  /** Whatever device the hint names, if any, the view reads the forest back. */
  ghost predicate AlwaysRecovers(before: seq<LinkRow>, tenant: set<Id>, g: Graph)
    requires WellFormed(g) && "" !in tenant && tenant != {}
  {
    forall hinted, after | hinted == "" || hinted in tenant ::
      Labelled(before, after, tenant, ForestOf(g, tenant, hinted).parent) ==>
        Recovers(after, tenant, ForestOf(g, tenant, hinted).parent)
  }

  /** The view can be trusted, whatever the hint, exactly when no tenant device has a stale foreign downlink. */
  lemma AlwaysRecoversIff(before: seq<LinkRow>, tenant: set<Id>, g: Graph)
    requires GraphOf(g, before, tenant) && "" !in tenant && tenant != {}
    requires forall r :: r in before ==> r.src != ""
    ensures AlwaysRecovers(before, tenant, g) <==> forall c :: c in tenant ==> StaleSources(before, tenant, c) == {}
  {
    hide Forest, ForestOf, RootOrder, RootsChosen, Labelled, ViewParent, StaleSources, Recovers;
    if forall c :: c in tenant ==> StaleSources(before, tenant, c) == {} {
      forall hinted, after | (hinted == "" || hinted in tenant)
                             && Labelled(before, after, tenant, ForestOf(g, tenant, hinted).parent)
        ensures Recovers(after, tenant, ForestOf(g, tenant, hinted).parent)
      {
        CleanRecovers(before, after, tenant, g, hinted);
      }
    } else {
      var c :| c in tenant && StaleSources(before, tenant, c) != {};
      StaleMisleads(before, tenant, g, c);
    }
  }

  lemma CleanRecovers(before: seq<LinkRow>, after: seq<LinkRow>, tenant: set<Id>, g: Graph, hinted: Id)
    requires GraphOf(g, before, tenant) && "" !in tenant && tenant != {} && (hinted == "" || hinted in tenant)
    requires forall r :: r in before ==> r.src != ""
    requires Labelled(before, after, tenant, ForestOf(g, tenant, hinted).parent)
    requires forall c :: c in tenant ==> StaleSources(before, tenant, c) == {}
    ensures Recovers(after, tenant, ForestOf(g, tenant, hinted).parent)
  {
    hide Forest, ForestOf, RootOrder, RootsChosen, Labelled, ViewParent, StaleSources;
    var f := ForestOf(g, tenant, hinted);
    ForestOfOk(g, tenant, hinted);
    forall c | c in tenant
      ensures c in f.parent && ViewParent(after, c, f.parent[c])
    {
      ReadBackIff(before, after, tenant, f.parent, g, f.root, f.depth, c);
    }
  }

  /** Hinting a device that a stale row claims makes it a root, and the view still gives it a parent. */
  lemma StaleMisleads(before: seq<LinkRow>, tenant: set<Id>, g: Graph, c: Id)
    requires GraphOf(g, before, tenant) && "" !in tenant && c in tenant
    requires forall r :: r in before ==> r.src != ""
    requires StaleSources(before, tenant, c) != {}
    ensures !AlwaysRecovers(before, tenant, g)
  {
    hide Forest, ForestOf, RootOrder, RootsChosen, Labelled, ViewParent, StaleSources;
    var f := ForestOf(g, tenant, c);
    ForestOfOk(g, tenant, c);
    var after := WrittenBack(before, tenant, f.parent);
    WrittenBackIsLabelled(before, tenant, g, f.parent, f.root, f.depth);
    ReadBackIff(before, after, tenant, f.parent, g, f.root, f.depth, c);
    assert !Recovers(after, tenant, f.parent);
  }
}
