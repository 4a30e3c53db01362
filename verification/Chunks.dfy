/**
 `chunkPayload` and `splitDevice` of fwDCS/internal/forwarder/forwarder.go: one scope payload
 becomes a list of byte-bounded posts. Serialized sizes are an arbitrary cost function.
 */
module Chunks {
  import opened Packing

  const ENVELOPE: nat := 512
  const MAX_POST_BYTES: nat := 512 * 1024

  datatype Metric = Metric(row: string)
  datatype Energy = Energy(row: string)
  datatype Link = Link(id: string, src: string, dst: string, row: string)
  datatype Event = Event(id: string, row: string)

  /** `body` stands for every device field that is not in the identity stub, interfaces included. */
  datatype Device = Device(id: string, hostname: string, deviceType: string, reachable: bool,
                           body: string, metrics: seq<Metric>, energy: seq<Energy>)

  datatype ScopeIds = ScopeIds(org: string, dc: string, floor: string, net: string, grp: string)

  datatype Payload = Payload(ids: ScopeIds, devices: seq<Device>, links: seq<Link>, events: seq<Event>)

  /** `jsonLen` of each kind of item. */
  datatype Costs = Costs(device: Device -> nat, metric: Metric -> nat, energy: Energy -> nat,
                         link: Link -> nat, event: Event -> nat)

  // --- Fragments of one oversized device ----------------------------------------------------

  datatype Reading = OfMetric(m: Metric) | OfEnergy(e: Energy)

  function CostOfReading(c: Costs, r: Reading): nat
  {
    match r
    case OfMetric(m) => c.metric(m)
    case OfEnergy(e) => c.energy(e)
  }

  function ReadingCost(c: Costs): Reading -> nat
  {
    (r: Reading) => CostOfReading(c, r)
  }

  function Readings(ms: seq<Metric>, es: seq<Energy>): (rs: seq<Reading>)
    ensures |rs| == |ms| + |es|
  {
    seq(|ms| + |es|, i requires 0 <= i < |ms| + |es| => if i < |ms| then OfMetric(ms[i]) else OfEnergy(es[i - |ms|]))
  }

  function MetricsOf(rs: seq<Reading>): seq<Metric>
  {
    if rs == [] then []
    else MetricsOf(rs[..|rs| - 1]) + (if rs[|rs| - 1].OfMetric? then [rs[|rs| - 1].m] else [])
  }

  function EnergyOf(rs: seq<Reading>): seq<Energy>
  {
    if rs == [] then []
    else EnergyOf(rs[..|rs| - 1]) + (if rs[|rs| - 1].OfEnergy? then [rs[|rs| - 1].e] else [])
  }

  lemma {:induction false} ReadingsSplit(ms: seq<Metric>, es: seq<Energy>)
    ensures MetricsOf(Readings(ms, es)) == ms && EnergyOf(Readings(ms, es)) == es
  {
    hide *;
    if es != [] {
      var front, x := es[..|es| - 1], es[|es| - 1];
      assert front + [x] == es;
      ReadingsSplit(ms, front);
      ReadingsGrowEnergy(ms, front, x);
      OneMoreReading(Readings(ms, front), OfEnergy(x));
    } else if ms != [] {
      var front, x := ms[..|ms| - 1], ms[|ms| - 1];
      assert front + [x] == ms;
      ReadingsSplit(front, es);
      ReadingsGrowMetric(front, x);
      OneMoreReading(Readings(front, es), OfMetric(x));
    } else {
      NoReadings();
    }
  }

  lemma ReadingsGrowEnergy(ms: seq<Metric>, es: seq<Energy>, x: Energy)
    ensures Readings(ms, es + [x]) == Readings(ms, es) + [OfEnergy(x)]
  {
  }

  lemma ReadingsGrowMetric(ms: seq<Metric>, x: Metric)
    ensures Readings(ms + [x], []) == Readings(ms, []) + [OfMetric(x)]
  {
  }

  lemma NoReadings()
    ensures MetricsOf(Readings([], [])) == [] && EnergyOf(Readings([], [])) == []
  {
  }

  lemma OneMoreReading(rs: seq<Reading>, r: Reading)
    ensures MetricsOf(rs + [r]) == MetricsOf(rs) + if r.OfMetric? then [r.m] else []
    ensures EnergyOf(rs + [r]) == EnergyOf(rs) + if r.OfEnergy? then [r.e] else []
  {
    assert (rs + [r])[..|rs|] == rs;
  }

  lemma {:induction false} ReadingsConcat(a: seq<Reading>, b: seq<Reading>)
    ensures MetricsOf(a + b) == MetricsOf(a) + MetricsOf(b)
    ensures EnergyOf(a + b) == EnergyOf(a) + EnergyOf(b)
  {
    if b == [] {
      assert a + b == a;
    } else {
      assert (a + b)[..|a + b| - 1] == a + b[..|b| - 1];
      ReadingsConcat(a, b[..|b| - 1]);
    }
  }

  /** The device without its readings. */
  function Head(d: Device): Device
  {
    d.(metrics := [], energy := [])
  }

  /** The identity repeated by later fragments. */
  function Stub(d: Device): Device
  {
    Device(d.id, d.hostname, d.deviceType, d.reachable, "", [], [])
  }

  function Fill(d: Device, rs: seq<Reading>): Device
  {
    d.(metrics := MetricsOf(rs), energy := EnergyOf(rs))
  }

  function FragmentLimits(c: Costs, d: Device, budget: nat): Limits
  {
    Limits(c.device(Head(d)), c.device(Stub(d)), budget)
  }

  /** The readings of each fragment; a device without readings still makes one fragment. */
  function FragmentGroups(c: Costs, d: Device, budget: nat, items: seq<Reading>): (gs: seq<seq<Reading>>)
    ensures gs != []
  {
    var gs := Pack(ReadingCost(c), FragmentLimits(c, d, budget), items);
    if gs == [] then [[]] else gs
  }

  function Fragment(d: Device, k: nat, g: seq<Reading>): Device
  {
    Fill(if k == 0 then Head(d) else Stub(d), g)
  }

  function Fragments(d: Device, gs: seq<seq<Reading>>): (fs: seq<Device>)
    ensures |fs| == |gs|
  {
    seq(|gs|, k requires 0 <= k < |gs| => Fragment(d, k, gs[k]))
  }

  /** The locals of `splitDevice`: finished fragments, the open one, and its running cost. */
  datatype Splitter = Splitter(frags: seq<Device>, cur: Device, curBytes: nat)

  /** The loop body, for a metric or an energy reading: flush when it would overflow, then append. */
  function AddReading(c: Costs, d: Device, budget: nat, s: Splitter, x: Reading): Splitter
  {
    var b := ReadingCost(c)(x);
    var s' := if |s.cur.metrics| + |s.cur.energy| > 0 && s.curBytes + b > budget
              then Splitter(s.frags + [s.cur], Stub(d), c.device(Stub(d)))
              else s;
    var cur := match x
               case OfMetric(m) => s'.cur.(metrics := s'.cur.metrics + [m])
               case OfEnergy(e) => s'.cur.(energy := s'.cur.energy + [e]);
    Splitter(s'.frags, cur, s'.curBytes + b)
  }

  /** After the readings `items`, the locals hold the packer's groups as fragments. */
  ghost predicate Filling(c: Costs, d: Device, budget: nat, items: seq<Reading>, s: Splitter)
  {
    var gs := FragmentGroups(c, d, budget, items);
    && s.frags == Fragments(d, gs[..|gs| - 1])
    && s.cur == Fragment(d, |gs| - 1, gs[|gs| - 1])
    && s.curBytes == Base(FragmentLimits(c, d, budget), |gs| - 1) + Sum(ReadingCost(c), gs[|gs| - 1])
  }

  lemma {:induction false} ReadingCount(rs: seq<Reading>)
    ensures |MetricsOf(rs)| + |EnergyOf(rs)| == |rs|
  {
    if rs != [] { ReadingCount(rs[..|rs| - 1]); }
  }

  lemma FillOneMore(d: Device, g: seq<Reading>, x: Reading)
    ensures Fill(d, g + [x]) == match x
                                case OfMetric(m) => Fill(d, g).(metrics := MetricsOf(g) + [m])
                                case OfEnergy(e) => Fill(d, g).(energy := EnergyOf(g) + [e])
  {
  }

  lemma SumOneMore<T>(cost: T -> nat, g: seq<T>, x: T)
    ensures Sum(cost, g + [x]) == Sum(cost, g) + cost(x)
  {
  }

  lemma GroupsOneMore(c: Costs, d: Device, budget: nat, items: seq<Reading>, x: Reading)
    ensures
      var gs, l, cost := FragmentGroups(c, d, budget, items), FragmentLimits(c, d, budget), ReadingCost(c);
      var n := |gs| - 1;
      FragmentGroups(c, d, budget, items + [x]) ==
        if gs[n] != [] && Base(l, n) + Sum(cost, gs[n]) + cost(x) > budget then gs + [[x]]
        else gs[..n] + [gs[n] + [x]]
  {
    hide Pack, Sum, ReadingCost, Head, Stub;
    var l, cost := FragmentLimits(c, d, budget), ReadingCost(c);
    PackOneMore(cost, l, items, x);
    if Pack(cost, l, items) == [] {
      assert [] + [x] == [x] && [[]][..0] + [[x]] == [[x]];
    }
  }

  lemma FillingStep(c: Costs, d: Device, budget: nat, items: seq<Reading>, s: Splitter, x: Reading)
    requires Filling(c, d, budget, items, s)
    ensures Filling(c, d, budget, items + [x], AddReading(c, d, budget, s, x))
  {
    hide FragmentGroups, ReadingCost, Head, MetricsOf, EnergyOf, Sum;
    var gs, cost := FragmentGroups(c, d, budget, items), ReadingCost(c);
    var n := |gs| - 1;
    GroupsOneMore(c, d, budget, items, x);
    ReadingCount(gs[n]);
    var gs' := FragmentGroups(c, d, budget, items + [x]);
    if gs[n] != [] && s.curBytes + cost(x) > budget {
      FragmentsOneMore(d, gs);
      assert gs'[..n + 1] == gs;
      EmptyFill(Stub(d));
      SumOneMore(cost, [], x);
      FillOneMore(Stub(d), [], x);
      assert [] + [x] == [x];
      EmptySum(cost);
    } else {
      FillOneMore(if n == 0 then Head(d) else Stub(d), gs[n], x);
      SumOneMore(cost, gs[n], x);
      assert gs'[..n] == gs[..n];
    }
  }

  lemma EmptySum<T>(cost: T -> nat)
    ensures Sum(cost, []) == 0
  {
  }

  lemma FragmentsOneMore(d: Device, gs: seq<seq<Reading>>)
    requires gs != []
    ensures Fragments(d, gs) == Fragments(d, gs[..|gs| - 1]) + [Fragment(d, |gs| - 1, gs[|gs| - 1])]
  {
  }

  lemma EmptyFill(d: Device)
    ensures MetricsOf([]) == [] && EnergyOf([]) == [] && Fill(d, []) == d.(metrics := [], energy := [])
  {
  }

  /** The two loops of `splitDevice`, one over metrics and one over energy readings. */
  method SplitDevice(c: Costs, d: Device, budget: nat) returns (frags: seq<Device>)
    ensures frags == Fragments(d, FragmentGroups(c, d, budget, Readings(d.metrics, d.energy)))
  {
    hide FragmentGroups, AddReading;
    ghost var ms, es := d.metrics, d.energy;
    var s := Splitter([], Head(d), c.device(Head(d)));
    FillingStarts(c, d, budget);
    for i := 0 to |d.metrics|
      invariant Filling(c, d, budget, Readings(ms[..i], []), s)
    {
      FillingStep(c, d, budget, Readings(ms[..i], []), s, OfMetric(d.metrics[i]));
      assert Readings(ms[..i + 1], []) == Readings(ms[..i], []) + [OfMetric(ms[i])];
      s := AddReading(c, d, budget, s, OfMetric(d.metrics[i]));
    }
    assert ms[..|ms|] == ms && es[..0] == [];
    for i := 0 to |d.energy|
      invariant Filling(c, d, budget, Readings(ms, es[..i]), s)
    {
      FillingStep(c, d, budget, Readings(ms, es[..i]), s, OfEnergy(d.energy[i]));
      assert Readings(ms, es[..i + 1]) == Readings(ms, es[..i]) + [OfEnergy(es[i])];
      s := AddReading(c, d, budget, s, OfEnergy(d.energy[i]));
    }
    assert es[..|es|] == es;
    frags := s.frags + [s.cur];
  }

  lemma FillingStarts(c: Costs, d: Device, budget: nat)
    ensures Filling(c, d, budget, Readings([], []), Splitter([], Head(d), c.device(Head(d))))
  {
  }
}
