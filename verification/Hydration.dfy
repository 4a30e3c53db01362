/**
 Steps 3 and 3b of `pushNetwork` in fwDCS/internal/forwarder/forwarder.go: readings are grouped by device,
 and the devices they and the links refer to are fetched beside the changed ones. `byId` and `byHost` stand
 for the devices table as each of the two lookups sees it, in the order it returns rows.
 */
module Hydration {
  import opened Chunks
  import opened Posting
  import opened PostingLaws
  import opened Scopes

  /** A queried reading and its device. */
  datatype Queried<T> = Queried(device: string, value: T)

  // --- Grouping -------------------------------------------------------------------------------

  function ReadingsOf<T>(rows: seq<Queried<T>>, id: string): seq<T>
  {
    if rows == [] then []
    else
      var r := rows[|rows| - 1];
      ReadingsOf(rows[..|rows| - 1], id) + (if r.device == id then [r.value] else [])
  }

  ghost predicate HasReading<T>(rows: seq<Queried<T>>, id: string)
  {
    exists r :: r in rows && r.device == id
  }

  /** Each device with a reading has exactly its readings, in the order they were queried. */
  ghost predicate ByDevice<T>(rows: seq<Queried<T>>, m: map<string, seq<T>>)
  {
    && (forall id :: id in m <==> HasReading(rows, id))
    && (forall id :: id in m ==> m[id] == ReadingsOf(rows, id))
  }

  method GroupByDevice<T>(rows: seq<Queried<T>>) returns (m: map<string, seq<T>>)
    ensures ByDevice(rows, m)
  {
    m := map[];
    for i := 0 to |rows|
      invariant ByDevice(rows[..i], m)
    {
      OneMoreReading(rows[..i], m, rows[i]);
      assert rows[..i + 1] == rows[..i] + [rows[i]];
      var r := rows[i];
      m := m[r.device := (if r.device in m then m[r.device] else []) + [r.value]];
    }
    assert rows[..|rows|] == rows;
  }

  lemma OneMoreReading<T>(rows: seq<Queried<T>>, m: map<string, seq<T>>, r: Queried<T>)
    requires ByDevice(rows, m)
    ensures ByDevice(rows + [r], m[r.device := (if r.device in m then m[r.device] else []) + [r.value]])
  {
    assert (rows + [r])[..|rows|] == rows;
    forall id
      ensures HasReading(rows + [r], id) <==> HasReading(rows, id) || id == r.device
    {
      assert r in rows + [r];
    }
    NoReadings(rows, r.device);
  }

  lemma {:induction false} NoReadings<T>(rows: seq<Queried<T>>, id: string)
    ensures !HasReading(rows, id) ==> ReadingsOf(rows, id) == []
  {
    if rows != [] {
      NoReadings(rows[..|rows| - 1], id);
      assert rows[|rows| - 1] in rows;
    }
  }

  lemma {:induction false} ReadingIsThere<T>(rows: seq<Queried<T>>, r: Queried<T>)
    requires r in rows
    ensures r.value in ReadingsOf(rows, r.device)
  {
    var n := |rows| - 1;
    if r != rows[n] {
      assert rows == rows[..n] + [rows[n]];
      ReadingIsThere(rows[..n], r);
    }
  }

  /** The readings of a device come in the order of the rows: row by row, its own or none. */
  lemma {:induction false} ReadingsInOrder<T>(a: seq<Queried<T>>, b: seq<Queried<T>>, id: string)
    ensures ReadingsOf(a + b, id) == ReadingsOf(a, id) + ReadingsOf(b, id)
    ensures |b| == 1 ==> ReadingsOf(b, id) == if b[0].device == id then [b[0].value] else []
  {
    if b == [] {
      assert a + b == a;
    } else {
      var n := |b| - 1;
      assert (a + b)[..|a + b| - 1] == a + b[..n];
      ReadingsInOrder(a, b[..n], id);
    }
  }

  // --- Lookups ------------------------------------------------------------------------------------

  function DeviceIds(ds: seq<FwdDevice>): set<string>
  {
    set d | d in ds :: d.id
  }

  /** Ids are a primary key. */
  ghost predicate DistinctRows(ds: seq<FwdDevice>)
  {
    forall i, j :: 0 <= i < j < |ds| ==> ds[i].id != ds[j].id
  }

  /** `DevicesByIDs`. */
  function WhereId(table: seq<FwdDevice>, ids: set<string>): seq<FwdDevice>
  {
    if table == [] then []
    else
      var d := table[|table| - 1];
      WhereId(table[..|table| - 1], ids) + (if d.id in ids then [d] else [])
  }

  /** `DevicesByHostnames`. */
  function WhereHost(table: seq<FwdDevice>, hosts: set<string>): seq<FwdDevice>
  {
    if table == [] then []
    else
      var d := table[|table| - 1];
      WhereHost(table[..|table| - 1], hosts) + (if d.hostname in hosts then [d] else [])
  }

  lemma {:induction false} WhereIdLaws(table: seq<FwdDevice>, ids: set<string>)
    ensures forall d :: d in WhereId(table, ids) <==> d in table && d.id in ids
    ensures DistinctRows(table) ==> DistinctRows(WhereId(table, ids))
  {
    if table != [] {
      var n := |table| - 1;
      WhereIdLaws(table[..n], ids);
      assert table == table[..n] + [table[n]];
    }
  }

  lemma {:induction false} WhereHostLaws(table: seq<FwdDevice>, hosts: set<string>)
    ensures forall d :: d in WhereHost(table, hosts) <==> d in table && d.hostname in hosts
  {
    if table != [] {
      var n := |table| - 1;
      WhereHostLaws(table[..n], hosts);
      assert table == table[..n] + [table[n]];
    }
  }

  // --- The devices of a cycle ------------------------------------------------------------------------

  /** The devices with readings that are not among the changed ones. */
  function ExtraIds(changed: seq<FwdDevice>, q: Delta): set<string>
  {
    q.metrics.Keys + q.energy.Keys - DeviceIds(changed)
  }

  /** The hostnames at the ends of the links. */
  function LinkHosts(links: seq<Link>): set<string>
  {
    (set l | l in links :: l.src) + (set l | l in links :: l.dst) - {""}
  }

  function AppendNew(all: seq<FwdDevice>, ds: seq<FwdDevice>): seq<FwdDevice>
    decreases |ds|
  {
    if ds == [] then all
    else
      var d, a := ds[|ds| - 1], AppendNew(all, ds[..|ds| - 1]);
      if d.id in DeviceIds(a) then a else a + [d]
  }

  function Hydrated(changed: seq<FwdDevice>, q: Delta, links: seq<Link>,
                    byId: seq<FwdDevice>, byHost: seq<FwdDevice>): seq<FwdDevice>
  {
    AppendNew(changed + WhereId(byId, ExtraIds(changed, q)), WhereHost(byHost, LinkHosts(links)))
  }

  method CollectIds(ds: seq<FwdDevice>) returns (ids: set<string>)
    ensures ids == DeviceIds(ds)
  {
    ids := {};
    for i := 0 to |ds|
      invariant ids == DeviceIds(ds[..i])
    {
      ids := ids + {ds[i].id};
    }
    assert ds[..|ds|] == ds;
  }

  /** `addExtra` over the keys of one grouping, in any order. */
  method AddExtras(keys: set<string>, changedIds: set<string>, extra0: set<string>) returns (extra: set<string>)
    ensures extra == extra0 + (keys - changedIds)
  {
    extra := extra0;
    var rest := keys;
    while rest != {}
      invariant rest <= keys && extra == extra0 + (keys - rest - changedIds)
      decreases rest
    {
      var id :| id in rest;
      if id !in changedIds && id !in extra {
        extra := extra + {id};
      }
      rest := rest - {id};
    }
  }

  method CollectHosts(links: seq<Link>) returns (hosts: set<string>)
    ensures hosts == LinkHosts(links)
  {
    hosts := {};
    for i := 0 to |links|
      invariant hosts == LinkHosts(links[..i])
    {
      assert links[..i + 1] == links[..i] + [links[i]];
      if links[i].src != "" {
        hosts := hosts + {links[i].src};
      }
      if links[i].dst != "" {
        hosts := hosts + {links[i].dst};
      }
    }
    assert links[..|links|] == links;
  }

  /** The loop over the link-endpoint devices. */
  method AppendUnseen(all0: seq<FwdDevice>, found: seq<FwdDevice>) returns (all: seq<FwdDevice>)
    ensures all == AppendNew(all0, found)
  {
    all := all0;
    var seen := CollectIds(all);
    for i := 0 to |found|
      invariant all == AppendNew(all0, found[..i]) && seen == DeviceIds(all)
    {
      assert found[..i + 1][..i] == found[..i];
      if found[i].id !in seen {
        IdsOfConcat(all, [found[i]]);
        seen := seen + {found[i].id};
        all := all + [found[i]];
      }
    }
    assert found[..|found|] == found;
  }

  /** `idle` when there is nothing to push; otherwise all devices of the cycle. */
  method Hydrate(changed: seq<FwdDevice>, q: Delta, links: seq<Link>, events: seq<FwdEvent>,
                 byId: seq<FwdDevice>, byHost: seq<FwdDevice>) returns (idle: bool, all: seq<FwdDevice>)
    ensures all == Hydrated(changed, q, links, byId, byHost)
    ensures idle <==> all == [] && links == [] && events == []
  {
    hide WhereId, WhereHost, DeviceIds;
    var changedIds := CollectIds(changed);
    var extra := AddExtras(q.metrics.Keys, changedIds, {});
    extra := AddExtras(q.energy.Keys, changedIds, extra);
    assert extra == ExtraIds(changed, q);
    all := changed + WhereId(byId, extra);
    idle := |all| == 0 && |links| == 0 && |events| == 0;
    if |links| == 0 {
      assert LinkHosts(links) == {};
      assert AppendNew(all, []) == all;
      NoHosts(byHost);
      return;
    }
    var hosts := CollectHosts(links);
    all := AppendUnseen(all, WhereHost(byHost, hosts));
  }

  lemma {:induction false} NoHosts(table: seq<FwdDevice>)
    ensures WhereHost(table, {}) == []
  {
    if table != [] { NoHosts(table[..|table| - 1]); }
  }

  lemma IdsOfConcat(a: seq<FwdDevice>, b: seq<FwdDevice>)
    ensures DeviceIds(a + b) == DeviceIds(a) + DeviceIds(b)
  {
    forall x
      ensures x in DeviceIds(a + b) <==> x in DeviceIds(a) + DeviceIds(b)
    {
      assert forall d :: d in a + b <==> d in a || d in b;
    }
  }

  lemma {:induction false} AppendNewLaws(all: seq<FwdDevice>, ds: seq<FwdDevice>)
    ensures all <= AppendNew(all, ds)
    ensures DeviceIds(AppendNew(all, ds)) == DeviceIds(all) + DeviceIds(ds)
    ensures DistinctRows(all) ==> DistinctRows(AppendNew(all, ds))
    ensures forall d :: d in AppendNew(all, ds) ==> d in all || d in ds
    decreases |ds|
  {
    if ds != [] {
      var n := |ds| - 1;
      AppendNewLaws(all, ds[..n]);
      assert ds == ds[..n] + [ds[n]];
      IdsOfConcat(ds[..n], [ds[n]]);
      IdsOfConcat(AppendNew(all, ds[..n]), [ds[n]]);
      assert ds[n] in [ds[n]];
      hide DistinctRows;
      AppendedDistinct(AppendNew(all, ds[..n]), ds[n]);
    }
  }

  lemma AppendedDistinct(a: seq<FwdDevice>, d: FwdDevice)
    ensures DistinctRows(a) && d.id !in DeviceIds(a) ==> DistinctRows(a + [d])
  {
    forall i | 0 <= i < |a|
      ensures a[i].id in DeviceIds(a)
    {
      assert a[i] in a;
    }
  }

  /**
   No device comes twice; the changed ones come first, as queried; and the rest are exactly those with
   readings and those at the end of a link, as far as the lookups find them.
   */
  lemma HydratedLaws(changed: seq<FwdDevice>, q: Delta, links: seq<Link>, byId: seq<FwdDevice>, byHost: seq<FwdDevice>)
    requires DistinctRows(changed) && DistinctRows(byId)
    ensures var all := Hydrated(changed, q, links, byId, byHost);
            && DistinctRows(all) && changed <= all
            && (forall id :: id in DeviceIds(all) <==>
                  || id in DeviceIds(changed)
                  || (id in q.metrics.Keys + q.energy.Keys && id in DeviceIds(byId))
                  || (exists d, l :: d in byHost && d.id == id && l in links && EndsAt(l, d.hostname)))
  {
    var extra, hosts := ExtraIds(changed, q), LinkHosts(links);
    var some, found := WhereId(byId, extra), WhereHost(byHost, hosts);
    WhereIdLaws(byId, extra);
    WhereHostLaws(byHost, hosts);
    AppendNewLaws(changed + some, found);
    IdsOfConcat(changed, some);
    DisjointConcat(changed, some);
    hide AppendNew, WhereId, WhereHost, DistinctRows, LinkHosts;
    var all := AppendNew(changed + some, found);
    forall id
      ensures id in DeviceIds(all) <==>
              || id in DeviceIds(changed)
              || (id in q.metrics.Keys + q.energy.Keys && id in DeviceIds(byId))
              || (exists d, l :: d in byHost && d.id == id && l in links && EndsAt(l, d.hostname))
    {
      HostsAreEnds(links);
      assert id in DeviceIds(some) <==> id in DeviceIds(byId) && id in extra;
      assert id in DeviceIds(found) <==> exists d :: d in byHost && d.id == id && d.hostname in hosts;
    }
  }

  /** A link is found by the hostname at either of its ends, not by an empty one. */
  ghost predicate EndsAt(l: Link, host: string)
  {
    host != "" && (l.src == host || l.dst == host)
  }

  lemma HostsAreEnds(links: seq<Link>)
    ensures forall h :: h in LinkHosts(links) <==> exists l :: l in links && EndsAt(l, h)
  {
  }

  lemma DisjointConcat(a: seq<FwdDevice>, b: seq<FwdDevice>)
    ensures DistinctRows(a) && DistinctRows(b) && DeviceIds(a) !! DeviceIds(b) ==> DistinctRows(a + b)
  {
    forall i, j | 0 <= i < |a| && 0 <= j < |b|
      ensures a[i].id in DeviceIds(a) && b[j].id in DeviceIds(b)
    {
      assert a[i] in a && b[j] in b;
    }
  }

  // --- From queried rows to posts -----------------------------------------------------------------------

  /**
   End to end for readings: a device that was changed, or that the lookup by id finds, is posted in its
   scope with every metric and energy reading queried for it.
   */
  lemma ReadingsArePosted(c: Costs, cfg: Config, net: string, ms: seq<Queried<Metric>>, es: seq<Queried<Energy>>,
                          q: Delta, changed: seq<FwdDevice>, links: seq<Link>, events: seq<FwdEvent>,
                          byId: seq<FwdDevice>, byHost: seq<FwdDevice>, groups: map<Key, Payload>, id: string)
    requires ByDevice(ms, q.metrics) && ByDevice(es, q.energy)
    requires DistinctRows(changed) && DistinctRows(byId)
    requires Grouped(cfg, net, q, Hydrated(changed, q, links, byId, byHost), links, events, groups)
    requires id in DeviceIds(changed) || (id in q.metrics.Keys + q.energy.Keys && id in DeviceIds(byId))
    ensures exists k, d :: k in groups && d in Rejoin(AllDevices(Posts(c, groups[k]))) && d.id == id
                           && d.metrics == ReadingsOf(ms, id) && d.energy == ReadingsOf(es, id)
    ensures forall r :: r in ms && r.device == id ==> r.value in ReadingsOf(ms, id)
    ensures forall r :: r in es && r.device == id ==> r.value in ReadingsOf(es, id)
  {
    hide *;
    var all := Hydrated(changed, q, links, byId, byHost);
    HydratedLaws(changed, q, links, byId, byHost);
    var d := RowOf(all, id);
    RowsDiffer(all);
    DeviceIsPosted(c, cfg, net, q, all, links, events, groups, d);
    ConvertedReadings(ms, es, q, d);
    forall r | r in ms && r.device == id
      ensures r.value in ReadingsOf(ms, id)
    {
      ReadingIsThere(ms, r);
    }
    forall r | r in es && r.device == id
      ensures r.value in ReadingsOf(es, id)
    {
      ReadingIsThere(es, r);
    }
    var k := DeviceKey(cfg, d);
    assert Convert(q, d) in Rejoin(AllDevices(Posts(c, groups[k])));
  }

  lemma RowOf(ds: seq<FwdDevice>, id: string) returns (d: FwdDevice)
    requires id in DeviceIds(ds)
    ensures d in ds && d.id == id
  {
    d :| d in ds && d.id == id;
  }

  lemma RowsDiffer(ds: seq<FwdDevice>)
    requires DistinctRows(ds)
    ensures forall i, j :: 0 <= i < j < |ds| ==> ds[i].id != ds[j].id
  {
  }

  lemma ConvertedReadings(ms: seq<Queried<Metric>>, es: seq<Queried<Energy>>, q: Delta, d: FwdDevice)
    requires ByDevice(ms, q.metrics) && ByDevice(es, q.energy)
    ensures Convert(q, d).id == d.id
    ensures Convert(q, d).metrics == ReadingsOf(ms, d.id) && Convert(q, d).energy == ReadingsOf(es, d.id)
  {
    hide HasReading;
    NoReadings(ms, d.id);
    NoReadings(es, d.id);
  }
}
