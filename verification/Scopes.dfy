/**
 `buildPayloads` of fwDCS/internal/forwarder/forwarder.go: rows are grouped into one payload per
 (datacenter, floor) scope. Nested interfaces and plain columns are kept as one opaque body.
 */
module Scopes {
  import opened Chunks
  import opened Options
  import opened Posting
  import opened PostingLaws

  datatype Config = Config(org: string, grp: string, defaultDc: string, defaultFloor: string)

  datatype FwdDevice = FwdDevice(id: string, hostname: string, deviceType: string, reachable: bool,
                                 body: string, dc: string, floor: string)

  datatype FwdEvent = FwdEvent(event: Event, dc: string, floor: string)

  type Key = (string, string)

  const SCOPE_FALLBACK := "unknown"

  /** `dcOrDefault` and `floorOrDefault`: no row is ever shipped with an empty scope key. */
  function OrDefault(s: string, default: string): (r: string)
    ensures r != "" && (s != "" ==> r == s)
  {
    if s != "" then s else if default != "" then default else SCOPE_FALLBACK
  }

  function KeyOf(cfg: Config, dc: string, floor: string): Key
  {
    (OrDefault(dc, cfg.defaultDc), OrDefault(floor, cfg.defaultFloor))
  }

  function DeviceKey(cfg: Config, d: FwdDevice): Key
  {
    KeyOf(cfg, d.dc, d.floor)
  }

  function EventKey(cfg: Config, e: FwdEvent): Key
  {
    KeyOf(cfg, e.dc, e.floor)
  }

  /** The readings queried this cycle, by device id. */
  datatype Delta = Delta(metrics: map<string, seq<Metric>>, energy: map<string, seq<Energy>>)

  function Convert(q: Delta, d: FwdDevice): Device
  {
    Device(d.id, d.hostname, d.deviceType, d.reachable, d.body,
           if d.id in q.metrics then q.metrics[d.id] else [],
           if d.id in q.energy then q.energy[d.id] else [])
  }

  // --- What belongs to one scope -----------------------------------------------------------

  function DevicesIn(cfg: Config, q: Delta, ds: seq<FwdDevice>, k: Key): seq<Device>
  {
    if ds == [] then []
    else
      var d := ds[|ds| - 1];
      DevicesIn(cfg, q, ds[..|ds| - 1], k) + (if DeviceKey(cfg, d) == k then [Convert(q, d)] else [])
  }

  function EventsIn(cfg: Config, es: seq<FwdEvent>, k: Key): seq<Event>
  {
    if es == [] then []
    else
      var e := es[|es| - 1];
      EventsIn(cfg, es[..|es| - 1], k) + (if EventKey(cfg, e) == k then [e.event] else [])
  }

  /** The scope a hostname resolves to: that of the last device carrying it. */
  function HostKey(cfg: Config, ds: seq<FwdDevice>, host: string): Option<Key>
  {
    if ds == [] then None
    else if ds[|ds| - 1].hostname == host then Some(DeviceKey(cfg, ds[|ds| - 1]))
    else HostKey(cfg, ds[..|ds| - 1], host)
  }

  predicate LinkBelongs(cfg: Config, ds: seq<FwdDevice>, l: Link, k: Key)
  {
    HostKey(cfg, ds, l.src) == Some(k) && HostKey(cfg, ds, l.dst) == Some(k)
  }

  function LinksIn(cfg: Config, ds: seq<FwdDevice>, ls: seq<Link>, k: Key): seq<Link>
  {
    if ls == [] then []
    else
      var l := ls[|ls| - 1];
      LinksIn(cfg, ds, ls[..|ls| - 1], k) + (if LinkBelongs(cfg, ds, l, k) then [l] else [])
  }

  function IdsOf(cfg: Config, net: string, k: Key): ScopeIds
  {
    ScopeIds(cfg.org, k.0, k.1, net, cfg.grp)
  }

  ghost predicate HasDevice(cfg: Config, ds: seq<FwdDevice>, k: Key)
  {
    exists d :: d in ds && DeviceKey(cfg, d) == k
  }

  ghost predicate HasEvent(cfg: Config, es: seq<FwdEvent>, k: Key)
  {
    exists e :: e in es && EventKey(cfg, e) == k
  }

  /** The payloads built from the rows: one per scope that has a device or an event, each with exactly its rows. */
  ghost predicate Grouped(cfg: Config, net: string, q: Delta, ds: seq<FwdDevice>, ls: seq<Link>, es: seq<FwdEvent>,
                          groups: map<Key, Payload>)
  {
    && (forall k :: k in groups <==> HasDevice(cfg, ds, k) || HasEvent(cfg, es, k))
    && (forall k :: k in groups ==>
          groups[k] ==
          Payload(IdsOf(cfg, net, k), DevicesIn(cfg, q, ds, k), LinksIn(cfg, ds, ls, k), EventsIn(cfg, es, k)))
  }

  // --- The loops ----------------------------------------------------------------------------

  function GetGroup(cfg: Config, net: string, groups: map<Key, Payload>, k: Key): Payload
  {
    if k in groups then groups[k] else Payload(IdsOf(cfg, net, k), [], [], [])
  }

  method BuildHostScope(cfg: Config, ds: seq<FwdDevice>) returns (hostScope: map<string, Key>)
    ensures forall h :: HostKey(cfg, ds, h) == if h in hostScope then Some(hostScope[h]) else None
  {
    hostScope := map[];
    for i := 0 to |ds|
      invariant forall h :: HostKey(cfg, ds[..i], h) == if h in hostScope then Some(hostScope[h]) else None
    {
      assert ds[..i + 1][..i] == ds[..i];
      hostScope := hostScope[ds[i].hostname := DeviceKey(cfg, ds[i])];
    }
    assert ds[..|ds|] == ds;
  }

  method BuildPayloads(cfg: Config, net: string, q: Delta, ds: seq<FwdDevice>, ls: seq<Link>, es: seq<FwdEvent>)
    returns (groups: map<Key, Payload>)
    ensures Grouped(cfg, net, q, ds, ls, es, groups)
  {
    var hostScope := BuildHostScope(cfg, ds);
    groups := AddDevices(cfg, net, q, ds);
    groups := AddLinks(cfg, net, q, ds, ls, hostScope, groups);
    groups := AddEvents(cfg, net, q, ds, ls, es, groups);
  }

  lemma DeviceAdded(cfg: Config, net: string, q: Delta, ds: seq<FwdDevice>, d: FwdDevice, groups: map<Key, Payload>)
    requires Grouped(cfg, net, q, ds, [], [], groups)
    ensures var k := DeviceKey(cfg, d); var g := GetGroup(cfg, net, groups, k);
            Grouped(cfg, net, q, ds + [d], [], [], groups[k := g.(devices := g.devices + [Convert(q, d)])])
  {
    hide DevicesIn, DeviceKey, Convert;
    var k := DeviceKey(cfg, d);
    forall j
      ensures HasDevice(cfg, ds + [d], j) <==> HasDevice(cfg, ds, j) || j == k
      ensures DevicesIn(cfg, q, ds + [d], j) == DevicesIn(cfg, q, ds, j) + (if j == k then [Convert(q, d)] else [])
    {
      assert d in ds + [d];
      DevicesInOneMore(cfg, q, ds, d, j);
    }
    forall j
      ensures LinksIn(cfg, ds, [], j) == LinksIn(cfg, ds + [d], [], j) == [] && !HasEvent(cfg, [], j)
    {
    }
    NoneIn(cfg, q, ds, k);
  }

  lemma {:induction false} NoneIn(cfg: Config, q: Delta, ds: seq<FwdDevice>, k: Key)
    ensures HasDevice(cfg, ds, k) <==> DevicesIn(cfg, q, ds, k) != []
  {
    if ds != [] {
      var n := |ds| - 1;
      NoneIn(cfg, q, ds[..n], k);
      assert ds == ds[..n] + [ds[n]];
    }
  }

  method AddDevices(cfg: Config, net: string, q: Delta, ds: seq<FwdDevice>) returns (groups: map<Key, Payload>)
    ensures Grouped(cfg, net, q, ds, [], [], groups)
  {
    groups := map[];
    for i := 0 to |ds|
      invariant Grouped(cfg, net, q, ds[..i], [], [], groups)
    {
      DeviceAdded(cfg, net, q, ds[..i], ds[i], groups);
      assert ds[..i + 1] == ds[..i] + [ds[i]];
      hide Grouped;
      var k := DeviceKey(cfg, ds[i]);
      var g := GetGroup(cfg, net, groups, k);
      groups := groups[k := g.(devices := g.devices + [Convert(q, ds[i])])];
    }
    assert ds[..|ds|] == ds;
  }

  lemma {:induction false} ResolvedHasDevice(cfg: Config, ds: seq<FwdDevice>, host: string)
    ensures HostKey(cfg, ds, host).Some? ==>
      exists d :: d in ds && d.hostname == host && DeviceKey(cfg, d) == HostKey(cfg, ds, host).value
  {
    if ds != [] {
      ResolvedHasDevice(cfg, ds[..|ds| - 1], host);
      assert ds == ds[..|ds| - 1] + [ds[|ds| - 1]];
    }
  }

  lemma LinkAdded(cfg: Config, net: string, q: Delta, ds: seq<FwdDevice>, ls: seq<Link>, l: Link,
                  groups: map<Key, Payload>)
    requires Grouped(cfg, net, q, ds, ls, [], groups)
    ensures
      var s, d := HostKey(cfg, ds, l.src), HostKey(cfg, ds, l.dst);
      && (s.None? || s != d ==> Grouped(cfg, net, q, ds, ls + [l], [], groups))
      && (s.Some? && s == d ==>
            s.value in groups &&
            Grouped(cfg, net, q, ds, ls + [l], [],
                    groups[s.value := groups[s.value].(links := groups[s.value].links + [l])]))
  {
    hide LinksIn, DevicesIn, HostKey, IdsOf, DeviceKey;
    ResolvedHasDevice(cfg, ds, l.src);
    forall k
      ensures LinksIn(cfg, ds, ls + [l], k)
           == LinksIn(cfg, ds, ls, k) + (if LinkBelongs(cfg, ds, l, k) then [l] else [])
    {
      LinksInOneMore(cfg, ds, ls, l, k);
    }
  }

  lemma LinksInOneMore(cfg: Config, ds: seq<FwdDevice>, ls: seq<Link>, l: Link, k: Key)
    ensures LinksIn(cfg, ds, ls + [l], k) == LinksIn(cfg, ds, ls, k) + (if LinkBelongs(cfg, ds, l, k) then [l] else [])
  {
  }

  /** Cross-scope and unresolved links are skipped. */
  method AddLinks(cfg: Config, net: string, q: Delta, ds: seq<FwdDevice>, ls: seq<Link>,
                  hostScope: map<string, Key>, groups0: map<Key, Payload>) returns (groups: map<Key, Payload>)
    requires forall h :: HostKey(cfg, ds, h) == if h in hostScope then Some(hostScope[h]) else None
    requires Grouped(cfg, net, q, ds, [], [], groups0)
    ensures Grouped(cfg, net, q, ds, ls, [], groups)
  {
    hide Grouped;
    groups := groups0;
    for i := 0 to |ls|
      invariant Grouped(cfg, net, q, ds, ls[..i], [], groups)
    {
      var l := ls[i];
      LinkAdded(cfg, net, q, ds, ls[..i], l, groups);
      assert ls[..i + 1] == ls[..i] + [l];
      if l.src in hostScope && l.dst in hostScope && hostScope[l.src] == hostScope[l.dst] {
        var k := hostScope[l.src];
        groups := groups[k := groups[k].(links := groups[k].links + [l])];
      }
    }
    assert ls[..|ls|] == ls;
  }

  lemma EventAdded(cfg: Config, net: string, q: Delta, ds: seq<FwdDevice>, ls: seq<Link>, es: seq<FwdEvent>,
                   e: FwdEvent, groups: map<Key, Payload>)
    requires Grouped(cfg, net, q, ds, ls, es, groups)
    ensures var k := EventKey(cfg, e); var g := GetGroup(cfg, net, groups, k);
            Grouped(cfg, net, q, ds, ls, es + [e], groups[k := g.(events := g.events + [e.event])])
  {
    hide DevicesIn, LinksIn, EventsIn, EventKey, IdsOf;
    var k := EventKey(cfg, e);
    forall j
      ensures HasEvent(cfg, es + [e], j) <==> HasEvent(cfg, es, j) || j == k
      ensures EventsIn(cfg, es + [e], j) == EventsIn(cfg, es, j) + (if j == k then [e.event] else [])
    {
      assert e in es + [e];
      EventsInOneMore(cfg, es, e, j);
    }
    NoneIn(cfg, q, ds, k);
    NoEventIn(cfg, es, k);
    NoLinkIn(cfg, ds, ls, k);
  }

  lemma {:induction false} NoEventIn(cfg: Config, es: seq<FwdEvent>, k: Key)
    ensures HasEvent(cfg, es, k) <==> EventsIn(cfg, es, k) != []
  {
    if es != [] {
      var n := |es| - 1;
      NoEventIn(cfg, es[..n], k);
      assert es == es[..n] + [es[n]];
    }
  }

  lemma {:induction false} NoLinkIn(cfg: Config, ds: seq<FwdDevice>, ls: seq<Link>, k: Key)
    ensures LinksIn(cfg, ds, ls, k) != [] ==> HasDevice(cfg, ds, k)
  {
    if ls != [] {
      NoLinkIn(cfg, ds, ls[..|ls| - 1], k);
      ResolvedHasDevice(cfg, ds, ls[|ls| - 1].src);
    }
  }

  method AddEvents(cfg: Config, net: string, q: Delta, ds: seq<FwdDevice>, ls: seq<Link>, es: seq<FwdEvent>,
                   groups0: map<Key, Payload>) returns (groups: map<Key, Payload>)
    requires Grouped(cfg, net, q, ds, ls, [], groups0)
    ensures Grouped(cfg, net, q, ds, ls, es, groups)
  {
    hide Grouped;
    groups := groups0;
    for i := 0 to |es|
      invariant Grouped(cfg, net, q, ds, ls, es[..i], groups)
    {
      EventAdded(cfg, net, q, ds, ls, es[..i], es[i], groups);
      assert es[..i + 1] == es[..i] + [es[i]];
      var k := EventKey(cfg, es[i]);
      var g := GetGroup(cfg, net, groups, k);
      groups := groups[k := g.(events := g.events + [es[i].event])];
    }
    assert es[..|es|] == es;
  }

  // --- Conservation over scopes ---------------------------------------------------------------

  function Converted(q: Delta, ds: seq<FwdDevice>): seq<Device>
  {
    seq(|ds|, i requires 0 <= i < |ds| => Convert(q, ds[i]))
  }

  function RawEvents(es: seq<FwdEvent>): seq<Event>
  {
    seq(|es|, i requires 0 <= i < |es| => es[i].event)
  }

  ghost predicate Distinct<T>(xs: seq<T>)
  {
    forall i, j :: 0 <= i < j < |xs| ==> xs[i] != xs[j]
  }

  /** All devices of the listed scopes, counted with multiplicity. */
  ghost function DevicesOver(cfg: Config, q: Delta, ds: seq<FwdDevice>, ks: seq<Key>): multiset<Device>
  {
    if ks == [] then multiset{}
    else multiset(DevicesIn(cfg, q, ds, ks[0])) + DevicesOver(cfg, q, ds, ks[1..])
  }

  ghost function EventsOver(cfg: Config, es: seq<FwdEvent>, ks: seq<Key>): multiset<Event>
  {
    if ks == [] then multiset{}
    else multiset(EventsIn(cfg, es, ks[0])) + EventsOver(cfg, es, ks[1..])
  }

  lemma DevicesInOneMore(cfg: Config, q: Delta, ds: seq<FwdDevice>, d: FwdDevice, k: Key)
    ensures DevicesIn(cfg, q, ds + [d], k) ==
            DevicesIn(cfg, q, ds, k) + (if DeviceKey(cfg, d) == k then [Convert(q, d)] else [])
  {
  }

  lemma {:induction false} DevicesOverOneMore(cfg: Config, q: Delta, ds: seq<FwdDevice>, d: FwdDevice, ks: seq<Key>)
    requires Distinct(ks)
    ensures DevicesOver(cfg, q, ds + [d], ks) ==
            DevicesOver(cfg, q, ds, ks) + (if DeviceKey(cfg, d) in ks then multiset{Convert(q, d)} else multiset{})
    decreases |ks|
  {
    hide DevicesIn, DeviceKey, Convert;
    if ks != [] {
      DevicesInOneMore(cfg, q, ds, d, ks[0]);
      DevicesOverOneMore(cfg, q, ds, d, ks[1..]);
      assert DeviceKey(cfg, d) in ks <==> DeviceKey(cfg, d) == ks[0] || DeviceKey(cfg, d) in ks[1..];
    }
  }

  lemma {:induction false} NoDevicesOver(cfg: Config, q: Delta, ks: seq<Key>)
    ensures DevicesOver(cfg, q, [], ks) == multiset{}
  {
    if ks != [] {
      NoDevicesOver(cfg, q, ks[1..]);
    }
  }

  /** Every input device lands in exactly one of the scopes, with its readings attached. */
  lemma {:induction false} EveryDeviceOnce(cfg: Config, q: Delta, ds: seq<FwdDevice>, ks: seq<Key>)
    requires Distinct(ks) && forall i :: 0 <= i < |ds| ==> DeviceKey(cfg, ds[i]) in ks
    ensures DevicesOver(cfg, q, ds, ks) == multiset(Converted(q, ds))
  {
    hide DevicesOver, DeviceKey, Convert, Distinct;
    if ds == [] {
      NoDevicesOver(cfg, q, ks);
    } else {
      var n := |ds| - 1;
      EveryDeviceOnce(cfg, q, ds[..n], ks);
      DevicesOverOneMore(cfg, q, ds[..n], ds[n], ks);
      assert ds == ds[..n] + [ds[n]];
      assert Converted(q, ds) == Converted(q, ds[..n]) + [Convert(q, ds[n])];
    }
  }

  lemma EventsInOneMore(cfg: Config, es: seq<FwdEvent>, e: FwdEvent, k: Key)
    ensures EventsIn(cfg, es + [e], k) == EventsIn(cfg, es, k) + (if EventKey(cfg, e) == k then [e.event] else [])
  {
  }

  lemma {:induction false} EventsOverOneMore(cfg: Config, es: seq<FwdEvent>, e: FwdEvent, ks: seq<Key>)
    requires Distinct(ks)
    ensures EventsOver(cfg, es + [e], ks) ==
            EventsOver(cfg, es, ks) + (if EventKey(cfg, e) in ks then multiset{e.event} else multiset{})
    decreases |ks|
  {
    hide EventsIn, EventKey;
    if ks != [] {
      EventsInOneMore(cfg, es, e, ks[0]);
      EventsOverOneMore(cfg, es, e, ks[1..]);
      assert EventKey(cfg, e) in ks <==> EventKey(cfg, e) == ks[0] || EventKey(cfg, e) in ks[1..];
    }
  }

  lemma {:induction false} NoEventsOver(cfg: Config, ks: seq<Key>)
    ensures EventsOver(cfg, [], ks) == multiset{}
  {
    if ks != [] {
      NoEventsOver(cfg, ks[1..]);
    }
  }

  /** Every input event lands in exactly one of the scopes. */
  lemma {:induction false} EveryEventOnce(cfg: Config, es: seq<FwdEvent>, ks: seq<Key>)
    requires Distinct(ks) && forall i :: 0 <= i < |es| ==> EventKey(cfg, es[i]) in ks
    ensures EventsOver(cfg, es, ks) == multiset(RawEvents(es))
  {
    hide EventsOver, EventKey, Distinct;
    if es == [] {
      NoEventsOver(cfg, ks);
    } else {
      var n := |es| - 1;
      EveryEventOnce(cfg, es[..n], ks);
      EventsOverOneMore(cfg, es[..n], es[n], ks);
      assert es == es[..n] + [es[n]];
      assert RawEvents(es) == RawEvents(es[..n]) + [es[n].event];
    }
  }

  /** A link lands in a scope exactly when both its hostnames resolve to it, as often as it was queried. */
  lemma {:induction false} LinkLandsIff(cfg: Config, ds: seq<FwdDevice>, ls: seq<Link>, l: Link, k: Key)
    ensures multiset(LinksIn(cfg, ds, ls, k))[l] == if LinkBelongs(cfg, ds, l, k) then multiset(ls)[l] else 0
  {
    if ls != [] {
      var n := |ls| - 1;
      LinkLandsIff(cfg, ds, ls[..n], l, k);
      assert ls == ls[..n] + [ls[n]];
    }
  }

  /** The devices of a built payload have distinct ids when the rows do. */
  lemma {:induction false} ScopeIdsDistinct(cfg: Config, q: Delta, ds: seq<FwdDevice>, k: Key)
    requires forall i, j :: 0 <= i < j < |ds| ==> ds[i].id != ds[j].id
    ensures DistinctIds(DevicesIn(cfg, q, ds, k))
    ensures forall d :: d in DevicesIn(cfg, q, ds, k) ==> exists i :: 0 <= i < |ds| && ds[i].id == d.id
  {
    if ds != [] {
      var n := |ds| - 1;
      ScopeIdsDistinct(cfg, q, ds[..n], k);
      var r := DevicesIn(cfg, q, ds[..n], k);
      forall d | d in r
        ensures d.id != ds[n].id
      {
        var i :| 0 <= i < n && ds[..n][i].id == d.id;
      }
    }
  }

  lemma {:induction false} DeviceInScope(cfg: Config, q: Delta, ds: seq<FwdDevice>, d: FwdDevice)
    requires d in ds
    ensures Convert(q, d) in DevicesIn(cfg, q, ds, DeviceKey(cfg, d))
  {
    var n := |ds| - 1;
    assert ds == ds[..n] + [ds[n]];
    if d != ds[n] {
      DeviceInScope(cfg, q, ds[..n], d);
    }
  }

  /**
   End to end: whenever a link is posted, devices with its source and its destination hostname have
   been posted earlier in the same scope.
   */
  lemma PostedLinkEndpoints(c: Costs, cfg: Config, net: string, q: Delta, ds: seq<FwdDevice>, ls: seq<Link>,
                            es: seq<FwdEvent>, groups: map<Key, Payload>, k: Key, post: nat, l: Link, host: string)
    requires Grouped(cfg, net, q, ds, ls, es, groups) && k in groups
    requires forall i, j :: 0 <= i < j < |ds| ==> ds[i].id != ds[j].id
    requires post < |Posts(c, groups[k])| && l in Posts(c, groups[k])[post].links
    requires host == l.src || host == l.dst
    ensures exists i :: 0 <= i < post && exists e :: e in Posts(c, groups[k])[i].devices && e.hostname == host
  {
    hide Posts;
    var p := groups[k];
    ScopeIdsDistinct(cfg, q, ds, k);
    PostedLinkIsInPayload(c, p, post, l);
    LinkLandsIff(cfg, ds, ls, l, k);
    assert l in multiset(LinksIn(cfg, ds, ls, k));
    ResolvedHasDevice(cfg, ds, host);
    var d :| d in ds && d.hostname == host && DeviceKey(cfg, d) == k;
    DeviceInScope(cfg, q, ds, d);
    EndpointsGoFirst(c, p, l, post, host);
  }

  lemma PostedLinkIsInPayload(c: Costs, p: Payload, post: nat, l: Link)
    requires DistinctIds(p.devices)
    requires post < |Posts(c, p)| && l in Posts(c, p)[post].links
    ensures l in p.links
  {
    PostsConserve(c, p);
    LinkInAll(Posts(c, p), post, l);
  }

  lemma {:induction false} LinkInAll(ps: seq<Payload>, i: nat, l: Link)
    requires i < |ps| && l in ps[i].links
    ensures l in AllLinks(ps)
  {
    if i < |ps| - 1 { LinkInAll(ps[..|ps| - 1], i, l); }
  }

  // --- What a cycle without failures delivers -----------------------------------------------

  /** Reading a scope's posts back gives its devices, links and events. */
  lemma ScopePosts(c: Costs, cfg: Config, net: string, q: Delta, ds: seq<FwdDevice>, ls: seq<Link>, es: seq<FwdEvent>,
                   groups: map<Key, Payload>, k: Key)
    requires Grouped(cfg, net, q, ds, ls, es, groups) && k in groups
    requires forall i, j :: 0 <= i < j < |ds| ==> ds[i].id != ds[j].id
    ensures Rejoin(AllDevices(Posts(c, groups[k]))) == DevicesIn(cfg, q, ds, k)
    ensures AllLinks(Posts(c, groups[k])) == LinksIn(cfg, ds, ls, k)
    ensures AllEvents(Posts(c, groups[k])) == EventsIn(cfg, es, k)
  {
    hide DevicesIn, LinksIn, EventsIn, Posts, DistinctIds, HasDevice, HasEvent, Rejoin, AllDevices, AllLinks, AllEvents;
    ScopeIdsDistinct(cfg, q, ds, k);
    PostsConserve(c, groups[k]);
  }

  /** Every device of the cycle is posted, with all the readings queried for it. */
  lemma DeviceIsPosted(c: Costs, cfg: Config, net: string, q: Delta, ds: seq<FwdDevice>, ls: seq<Link>,
                       es: seq<FwdEvent>, groups: map<Key, Payload>, d: FwdDevice)
    requires Grouped(cfg, net, q, ds, ls, es, groups) && d in ds
    requires forall i, j :: 0 <= i < j < |ds| ==> ds[i].id != ds[j].id
    ensures var k := DeviceKey(cfg, d);
            k in groups && Convert(q, d) in Rejoin(AllDevices(Posts(c, groups[k])))
  {
    hide DevicesIn, LinksIn, EventsIn, Posts, Convert, DeviceKey, Rejoin, AllDevices;
    DeviceInScope(cfg, q, ds, d);
    ScopePosts(c, cfg, net, q, ds, ls, es, groups, DeviceKey(cfg, d));
  }

  lemma {:induction false} EventInScope(cfg: Config, es: seq<FwdEvent>, e: FwdEvent)
    requires e in es
    ensures e.event in EventsIn(cfg, es, EventKey(cfg, e))
  {
    var n := |es| - 1;
    assert es == es[..n] + [es[n]];
    if e != es[n] {
      EventInScope(cfg, es[..n], e);
    }
  }

  /** Every event of the cycle is posted. */
  lemma EventIsPosted(c: Costs, cfg: Config, net: string, q: Delta, ds: seq<FwdDevice>, ls: seq<Link>,
                      es: seq<FwdEvent>, groups: map<Key, Payload>, e: FwdEvent)
    requires Grouped(cfg, net, q, ds, ls, es, groups) && e in es
    requires forall i, j :: 0 <= i < j < |ds| ==> ds[i].id != ds[j].id
    ensures var k := EventKey(cfg, e); k in groups && e.event in AllEvents(Posts(c, groups[k]))
  {
    hide DevicesIn, LinksIn, EventsIn, Posts, EventKey, AllEvents;
    EventInScope(cfg, es, e);
    ScopePosts(c, cfg, net, q, ds, ls, es, groups, EventKey(cfg, e));
  }

  /** Whether some post of the cycle carries a link. */
  ghost predicate LinkPosted(c: Costs, groups: map<Key, Payload>, l: Link, k: Key)
  {
    k in groups && l in AllLinks(Posts(c, groups[k]))
  }

  lemma LinkPostedAtIff(c: Costs, cfg: Config, net: string, q: Delta, ds: seq<FwdDevice>, ls: seq<Link>,
                        es: seq<FwdEvent>, groups: map<Key, Payload>, l: Link, k: Key)
    requires Grouped(cfg, net, q, ds, ls, es, groups) && l in ls
    requires forall i, j :: 0 <= i < j < |ds| ==> ds[i].id != ds[j].id
    ensures LinkPosted(c, groups, l, k) <==> LinkBelongs(cfg, ds, l, k)
  {
    hide DevicesIn, LinksIn, EventsIn, Posts, AllLinks, HostKey, DeviceKey;
    LinkLandsIff(cfg, ds, ls, l, k);
    assert l in multiset(ls);
    if k in groups {
      ScopePosts(c, cfg, net, q, ds, ls, es, groups, k);
      assert l in AllLinks(Posts(c, groups[k])) <==> l in multiset(LinksIn(cfg, ds, ls, k));
    } else if LinkBelongs(cfg, ds, l, k) {
      ResolvedHasDevice(cfg, ds, l.src);
      assert false;
    }
  }

  /** The links a cycle leaves out are exactly those whose hostnames do not resolve to one common scope. */
  lemma LinkIsPostedIff(c: Costs, cfg: Config, net: string, q: Delta, ds: seq<FwdDevice>, ls: seq<Link>,
                        es: seq<FwdEvent>, groups: map<Key, Payload>, l: Link)
    requires Grouped(cfg, net, q, ds, ls, es, groups) && l in ls
    requires forall i, j :: 0 <= i < j < |ds| ==> ds[i].id != ds[j].id
    ensures (exists k :: LinkPosted(c, groups, l, k)) <==>
      HostKey(cfg, ds, l.src).Some? && HostKey(cfg, ds, l.src) == HostKey(cfg, ds, l.dst)
  {
    hide Grouped, LinkPosted, HostKey;
    if HostKey(cfg, ds, l.src).Some? && HostKey(cfg, ds, l.src) == HostKey(cfg, ds, l.dst) {
      LinkPostedAtIff(c, cfg, net, q, ds, ls, es, groups, l, HostKey(cfg, ds, l.src).value);
    }
    forall k | LinkPosted(c, groups, l, k)
      ensures LinkBelongs(cfg, ds, l, k)
    {
      LinkPostedAtIff(c, cfg, net, q, ds, ls, es, groups, l, k);
    }
  }

  // --- The scope a row is posted under -----------------------------------------------------------

  /** The scope ids of a row with these columns: its own, else the configured default, else "unknown". */
  ghost predicate ShippedUnder(ids: ScopeIds, cfg: Config, dc: string, floor: string)
  {
    && ids.dc == (if dc != "" then dc else if cfg.defaultDc != "" then cfg.defaultDc else "unknown")
    && ids.floor == (if floor != "" then floor else if cfg.defaultFloor != "" then cfg.defaultFloor else "unknown")
  }

  lemma GroupIds(cfg: Config, net: string, q: Delta, ds: seq<FwdDevice>, ls: seq<Link>, es: seq<FwdEvent>,
                 groups: map<Key, Payload>, k: Key, dc: string, floor: string)
    requires Grouped(cfg, net, q, ds, ls, es, groups) && k in groups
    ensures groups[k].ids.org == cfg.org && groups[k].ids.net == net && groups[k].ids.grp == cfg.grp
    ensures k == KeyOf(cfg, dc, floor) ==> ShippedUnder(groups[k].ids, cfg, dc, floor)
  {
    hide DevicesIn, LinksIn, EventsIn, HasDevice, HasEvent;
  }

  lemma {:induction false} ScopeDeviceHasRow(cfg: Config, q: Delta, ds: seq<FwdDevice>, k: Key, e: Device)
    returns (d: FwdDevice)
    requires e in DevicesIn(cfg, q, ds, k)
    ensures d in ds && DeviceKey(cfg, d) == k && e == Convert(q, d)
  {
    var n := |ds| - 1;
    assert ds == ds[..n] + [ds[n]];
    hide DeviceKey, Convert;
    if e in DevicesIn(cfg, q, ds[..n], k) {
      d := ScopeDeviceHasRow(cfg, q, ds[..n], k, e);
    } else {
      d := ds[n];
    }
  }

  lemma {:induction false} ScopeEventHasRow(cfg: Config, es: seq<FwdEvent>, k: Key, x: Event) returns (e: FwdEvent)
    requires x in EventsIn(cfg, es, k)
    ensures e in es && EventKey(cfg, e) == k && e.event == x
  {
    var n := |es| - 1;
    assert es == es[..n] + [es[n]];
    hide EventKey;
    if x in EventsIn(cfg, es[..n], k) {
      e := ScopeEventHasRow(cfg, es[..n], k, x);
    } else {
      e := es[n];
    }
  }

  /** Each post of a scope carries the ids of the network and the configuration. */
  lemma PostIds(c: Costs, cfg: Config, net: string, q: Delta, ds: seq<FwdDevice>, ls: seq<Link>, es: seq<FwdEvent>,
                groups: map<Key, Payload>, k: Key, i: nat)
    requires Grouped(cfg, net, q, ds, ls, es, groups) && k in groups && i < |Posts(c, groups[k])|
    ensures var ids := Posts(c, groups[k])[i].ids;
            ids == groups[k].ids && ids.org == cfg.org && ids.net == net && ids.grp == cfg.grp
  {
    DevicesFirst(c, groups[k]);
    hide Posts, DeviceGroups, Grouped;
    GroupIds(cfg, net, q, ds, ls, es, groups, k, "", "");
  }

  /** A device in a post is that of a row, and the post's scope is the row's datacenter and floor. */
  lemma DeviceScope(c: Costs, cfg: Config, net: string, q: Delta, ds: seq<FwdDevice>, ls: seq<Link>, es: seq<FwdEvent>,
                    groups: map<Key, Payload>, k: Key, i: nat, e: Device) returns (d: FwdDevice)
    requires Grouped(cfg, net, q, ds, ls, es, groups) && k in groups
    requires i < |Posts(c, groups[k])| && e in Posts(c, groups[k])[i].devices
    ensures d in ds && d.id == e.id && d.hostname == e.hostname && d.deviceType == e.deviceType
    ensures d.reachable == e.reachable && (e.body == d.body || e.body == "")
    ensures ShippedUnder(Posts(c, groups[k])[i].ids, cfg, d.dc, d.floor)
  {
    PostIds(c, cfg, net, q, ds, ls, es, groups, k, i);
    PostedDeviceRepeats(c, groups[k], i, e);
    hide Posts, DevicesIn, LinksIn, EventsIn, HasDevice, HasEvent, KeyOf, ShippedUnder;
    var p :| p in groups[k].devices && Repeats(e, p);
    d := ScopeDeviceHasRow(cfg, q, ds, k, p);
    GroupIds(cfg, net, q, ds, ls, es, groups, k, d.dc, d.floor);
  }

  /** An event in a post is that of a row, and the post's scope is the row's datacenter and floor. */
  lemma EventScope(c: Costs, cfg: Config, net: string, q: Delta, ds: seq<FwdDevice>, ls: seq<Link>, es: seq<FwdEvent>,
                   groups: map<Key, Payload>, k: Key, i: nat, x: Event) returns (e: FwdEvent)
    requires Grouped(cfg, net, q, ds, ls, es, groups) && k in groups
    requires i < |Posts(c, groups[k])| && x in Posts(c, groups[k])[i].events
    ensures e in es && e.event == x && ShippedUnder(Posts(c, groups[k])[i].ids, cfg, e.dc, e.floor)
  {
    PostIds(c, cfg, net, q, ds, ls, es, groups, k, i);
    PostedEventIsOwn(c, groups[k], i, x);
    hide Posts, DevicesIn, LinksIn, EventsIn, HasDevice, HasEvent, KeyOf, ShippedUnder;
    e := ScopeEventHasRow(cfg, es, k, x);
    GroupIds(cfg, net, q, ds, ls, es, groups, k, e.dc, e.floor);
  }

  // --- Order within a scope -----------------------------------------------------------------------

  /** A scope's devices come in the order of the rows: row by row, each its own device or none. */
  lemma {:induction false} DevicesInOrder(cfg: Config, q: Delta, a: seq<FwdDevice>, b: seq<FwdDevice>, k: Key)
    ensures DevicesIn(cfg, q, a + b, k) == DevicesIn(cfg, q, a, k) + DevicesIn(cfg, q, b, k)
    ensures |b| == 1 ==> DevicesIn(cfg, q, b, k) == if DeviceKey(cfg, b[0]) == k then [Convert(q, b[0])] else []
  {
    if b == [] {
      assert a + b == a;
    } else {
      var n := |b| - 1;
      assert a + b == (a + b[..n]) + [b[n]] && b == b[..n] + [b[n]];
      DevicesInOrder(cfg, q, a, b[..n], k);
      DevicesInOneMore(cfg, q, a + b[..n], b[n], k);
      DevicesInOneMore(cfg, q, b[..n], b[n], k);
    }
  }

  /** So do its links. */
  lemma {:induction false} LinksInOrder(cfg: Config, ds: seq<FwdDevice>, a: seq<Link>, b: seq<Link>, k: Key)
    ensures LinksIn(cfg, ds, a + b, k) == LinksIn(cfg, ds, a, k) + LinksIn(cfg, ds, b, k)
    ensures |b| == 1 ==> LinksIn(cfg, ds, b, k) == if LinkBelongs(cfg, ds, b[0], k) then [b[0]] else []
  {
    if b == [] {
      assert a + b == a;
    } else {
      var n := |b| - 1;
      assert a + b == (a + b[..n]) + [b[n]] && b == b[..n] + [b[n]];
      LinksInOrder(cfg, ds, a, b[..n], k);
      LinksInOneMore(cfg, ds, a + b[..n], b[n], k);
      LinksInOneMore(cfg, ds, b[..n], b[n], k);
    }
  }

  /** And its events. */
  lemma {:induction false} EventsInOrder(cfg: Config, a: seq<FwdEvent>, b: seq<FwdEvent>, k: Key)
    ensures EventsIn(cfg, a + b, k) == EventsIn(cfg, a, k) + EventsIn(cfg, b, k)
    ensures |b| == 1 ==> EventsIn(cfg, b, k) == if EventKey(cfg, b[0]) == k then [b[0].event] else []
  {
    hide EventKey;
    if b == [] {
      assert a + b == a;
    } else {
      var n := |b| - 1;
      assert a + b == (a + b[..n]) + [b[n]] && b == b[..n] + [b[n]];
      EventsInOrder(cfg, a, b[..n], k);
      EventsInOneMore(cfg, a + b[..n], b[n], k);
      EventsInOneMore(cfg, b[..n], b[n], k);
    }
  }

  /** A hostname resolves to the scope of the last row that carries it, and to none when no row does. */
  lemma {:induction false} HostKeyIsLast(cfg: Config, ds: seq<FwdDevice>, host: string, i: nat)
    requires i < |ds| && ds[i].hostname == host
    requires forall j :: i < j < |ds| ==> ds[j].hostname != host
    ensures HostKey(cfg, ds, host) == Some(DeviceKey(cfg, ds[i]))
  {
    hide DeviceKey;
    if i < |ds| - 1 { HostKeyIsLast(cfg, ds[..|ds| - 1], host, i); }
  }
}
