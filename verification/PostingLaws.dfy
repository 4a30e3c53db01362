/** What the chunks guarantee: byte bounds, fewest posts, nothing lost or reordered, devices first. */
module PostingLaws {
  import opened Packing
  import opened Chunks
  import opened Posting

  // --- Bounds ---------------------------------------------------------------------------------

  /** `f` is a fragment of some oversized device. */
  ghost predicate IsPart(c: Costs, ds: seq<Device>, f: Device)
  {
    exists d :: d in ds && Oversized(c, d) && f in Parts(c, d)
  }

  lemma {:induction false} DeviceGroupBound(c: Costs, ds: seq<Device>, k: nat)
    requires k < |DeviceGroups(c, ds)|
    ensures ds != []
    ensures var g := DeviceGroups(c, ds)[k];
            && g != []
            && (|g| >= 2 ==> ENVELOPE + Sum(c.device, g) <= MAX_POST_BYTES)
            && (|g| == 1 ==> !Oversized(c, g[0]) || IsPart(c, ds, g[0]))
    decreases |ds|
  {
    hide DeviceGroups, Parts, Sum, Place, IsPart;
    var n := |ds| - 1;
    if n < 0 {
      DeviceGroupsNonempty(c, ds);
    } else {
      var d := ds[n];
      assert ds[..n] + [d] == ds;
      DeviceGroupsOneMore(c, ds[..n], d);
      var gs, all := DeviceGroups(c, ds[..n]), DeviceGroups(c, ds);
      if k < |gs| && all[k] == gs[k] {
        DeviceGroupBound(c, ds[..n], k);
        PartOfMore(c, ds[..n], d);
      } else if Oversized(c, d) {
        assert all[k] == [Parts(c, d)[k - |gs|]];
        PartOfOwn(c, ds, d, Parts(c, d)[k - |gs|]);
      } else if n > 0 && !Oversized(c, ds[n - 1]) {
        PlacedBound(c, gs, d, k);
      } else {
        assert all[k] == [d];
      }
    }
  }

  lemma PartOfMore(c: Costs, ds: seq<Device>, d: Device)
    ensures forall f :: IsPart(c, ds, f) ==> IsPart(c, ds + [d], f)
  {
  }

  lemma PartOfOwn(c: Costs, ds: seq<Device>, d: Device, f: Device)
    requires d in ds && Oversized(c, d) && f in Parts(c, d)
    ensures IsPart(c, ds, f)
  {
  }

  /** The group a normal device joins or opens. */
  lemma PlacedBound(c: Costs, gs: seq<seq<Device>>, d: Device, k: nat)
    requires !Oversized(c, d)
    requires k < |Place(c.device, LIMITS, gs, d)| && (k < |gs| ==> Place(c.device, LIMITS, gs, d)[k] != gs[k])
    ensures var g := Place(c.device, LIMITS, gs, d)[k];
            && g != [] && (|g| >= 2 ==> ENVELOPE + Sum(c.device, g) <= MAX_POST_BYTES)
            && (|g| == 1 ==> !Oversized(c, g[0]))
  {
  }

  /**
   Every chunk of two or more devices fits the budget; a lone unfragmented device overshoots by the
   envelope at most.
   */
  lemma DevicePostBound(c: Costs, p: Payload, k: nat)
    requires k < |Posts(c, p)| && Posts(c, p)[k].devices != []
    ensures var g := Posts(c, p)[k].devices;
            && (|g| >= 2 ==> 512 + Sum(c.device, g) <= 524288)
            && (|g| == 1 ==> Sum(c.device, g) <= 524288 || IsPart(c, p.devices, g[0]))
  {
    var g := Posts(c, p)[k].devices;
    assert g == DeviceGroups(c, p.devices)[k];
    DeviceGroupBound(c, p.devices, k);
    if |g| == 1 {
      SumSingle(c.device, g[0]);
      assert g == [g[0]];
    }
  }

  /** A fragment of two or more readings costs at most the fragment budget, identity included. */
  lemma FragmentBound(c: Costs, d: Device, k: nat)
    requires k < |Parts(c, d)|
    ensures var f := Parts(c, d)[k];
            |f.metrics| + |f.energy| >= 2 ==>
              c.device(if k == 0 then Head(d) else Stub(d)) + Sum(c.metric, f.metrics) + Sum(c.energy, f.energy)
                <= 524288 - 512
  {
    var items := Readings(d.metrics, d.energy);
    var budget := MAX_POST_BYTES - ENVELOPE;
    var gs := FragmentGroups(c, d, budget, items);
    PackIsGreedy(ReadingCost(c), FragmentLimits(c, d, budget), items);
    ReadingCount(gs[k]);
    ReadingSums(c, gs[k]);
    assert Parts(c, d)[k] == Fragment(d, k, gs[k]);
  }

  lemma {:induction false} ReadingSums(c: Costs, g: seq<Reading>)
    ensures Sum(ReadingCost(c), g) == Sum(c.metric, MetricsOf(g)) + Sum(c.energy, EnergyOf(g))
  {
    if g != [] {
      var n := |g| - 1;
      ReadingSums(c, g[..n]);
      assert ReadingCost(c)(g[n]) == CostOfReading(c, g[n]);
      if g[n].OfMetric? {
        SumOneMore(c.metric, MetricsOf(g[..n]), g[n].m);
        assert EnergyOf(g) == EnergyOf(g[..n]);
      } else {
        SumOneMore(c.energy, EnergyOf(g[..n]), g[n].e);
        assert MetricsOf(g) == MetricsOf(g[..n]);
      }
    }
  }

  /** Every tail chunk of two or more links and events fits the budget. */
  lemma TailPostBound(c: Costs, p: Payload, k: nat)
    requires k < |Posts(c, p)| && Posts(c, p)[k].devices == []
    ensures var t := Posts(c, p)[k];
            |t.links| + |t.events| >= 2 ==>
              512 + Sum(c.link, t.links) + Sum(c.event, t.events) <= 524288
  {
    hide DeviceGroups, TailGroups, TailItems, Sum;
    var dgs := DeviceGroups(c, p.devices);
    var gs := TailGroups(c, TailItems(p.links, p.events));
    DeviceGroupsNonempty(c, p.devices);
    assert forall i :: 0 <= i < |dgs| ==> dgs[i] in dgs && Posts(c, p)[i].devices == dgs[i];
    assert k >= |dgs| && Posts(c, p)[k] == TailChunk(p.ids, gs[k - |dgs|]);
    TailGroupFits(c, TailItems(p.links, p.events), k - |dgs|);
    TailSums(c, gs[k - |dgs|]);
  }

  lemma TailGroupFits(c: Costs, ts: seq<TailItem>, k: nat)
    requires k < |TailGroups(c, ts)|
    ensures Fits(TailCost(c), ENVELOPE, MAX_POST_BYTES, TailGroups(c, ts)[k])
  {
    PackIsGreedy(TailCost(c), LIMITS, ts);
    assert Fits(TailCost(c), Base(LIMITS, k), LIMITS.max, TailGroups(c, ts)[k]);
  }

  // --- Fewest posts ----------------------------------------------------------------------------

  /** One step of any plan to post devices in order: a batch, or one oversized device in parts. */
  datatype Piece = Batch(devices: seq<Device>) | InParts(device: Device, groups: seq<seq<Reading>>)

  ghost predicate LegalPiece(c: Costs, p: Piece)
  {
    match p
    case Batch(ds) =>
      ds != [] && (forall d :: d in ds ==> c.device(d) <= 524288) && Fits(c.device, 512, 524288, ds)
    case InParts(d, gs) =>
      && c.device(d) > 524288 && Flatten(gs) == Readings(d.metrics, d.energy)
      && (gs == [[]]
          || (gs != []
              && ValidSplit(ReadingCost(c), Limits(c.device(Head(d)), c.device(Stub(d)), 524288 - 512), gs)))
  }

  ghost predicate LegalPlan(c: Costs, plan: seq<Piece>)
  {
    forall p :: p in plan ==> LegalPiece(c, p)
  }

  function PlanDevices(plan: seq<Piece>): seq<Device>
  {
    if plan == [] then []
    else
      var p := plan[|plan| - 1];
      PlanDevices(plan[..|plan| - 1]) + (if p.Batch? then p.devices else [p.device])
  }

  function PlanPosts(plan: seq<Piece>): nat
  {
    if plan == [] then 0
    else
      var p := plan[|plan| - 1];
      PlanPosts(plan[..|plan| - 1]) + (if p.Batch? then 1 else |p.groups|)
  }

  /** A run of normal devices after an oversized one, or at the start, is packed by itself. */
  lemma {:induction false} RunPackedAlone(c: Costs, pre: seq<Device>, run: seq<Device>)
    requires pre == [] || Oversized(c, pre[|pre| - 1])
    requires forall d :: d in run ==> !Oversized(c, d)
    ensures DeviceGroups(c, pre + run) == DeviceGroups(c, pre) + Pack(c.device, LIMITS, run)
    decreases |run|
  {
    hide DeviceGroups, Place, Pack;
    PackSteps(c.device, LIMITS, run);
    if run == [] {
      assert pre + run == pre;
    } else {
      var n := |run| - 1;
      RunPackedAlone(c, pre, run[..n]);
      var before := pre + run[..n];
      assert pre + run == before + [run[n]];
      DeviceGroupsOneMore(c, before, run[n]);
      if n > 0 {
        assert before[|before| - 1] == run[n - 1] && run[n - 1] in run;
        PackSteps(c.device, LIMITS, run[..n]);
        PlaceAtEnd(c.device, LIMITS, DeviceGroups(c, pre), Pack(c.device, LIMITS, run[..n]), run[n]);
      } else {
        assert run[..0] == [] && before == pre;
        PackSteps(c.device, LIMITS, []);
      }
    }
  }

  lemma PackSteps<T>(cost: T -> nat, l: Limits, items: seq<T>)
    ensures items == [] ==> Pack(cost, l, items) == []
    ensures items != [] ==>
      Pack(cost, l, items) == Place(cost, l, Pack(cost, l, items[..|items| - 1]), items[|items| - 1])
    ensures items != [] ==> Pack(cost, l, items) != []
    ensures |items| == 1 ==> Pack(cost, l, items) == [[items[0]]]
  {
  }

  lemma PlaceAtEnd<T>(cost: T -> nat, l: Limits, a: seq<seq<T>>, b: seq<seq<T>>, x: T)
    requires l.first == l.rest && b != []
    ensures Place(cost, l, a + b, x) == a + Place(cost, l, b, x)
  {
  }

  lemma BatchesAreSplit(c: Costs, batches: seq<seq<Device>>)
    requires forall b :: b in batches ==> LegalPiece(c, Batch(b))
    ensures ValidSplit(c.device, LIMITS, batches)
    ensures forall d :: d in Flatten(batches) ==> !Oversized(c, d)
  {
    forall k | 0 <= k < |batches|
      ensures batches[k] != [] && Fits(c.device, Base(LIMITS, k), LIMITS.max, batches[k])
    {
      assert LegalPiece(c, Batch(batches[k]));
    }
    FlattenMembers(batches);
    forall d | d in Flatten(batches)
      ensures !Oversized(c, d)
    {
      var b :| b in batches && d in b;
      assert LegalPiece(c, Batch(b));
    }
  }

  lemma {:induction false} FlattenMembers<T>(gs: seq<seq<T>>)
    ensures forall x :: x in Flatten(gs) ==> exists g :: g in gs && x in g
  {
    if gs != [] {
      FlattenMembers(gs[..|gs| - 1]);
      assert gs == gs[..|gs| - 1] + [gs[|gs| - 1]];
    }
  }

  lemma PartsAreFewest(c: Costs, d: Device, gs: seq<seq<Reading>>)
    requires LegalPiece(c, InParts(d, gs))
    ensures |Parts(c, d)| <= |gs|
  {
    var items := Readings(d.metrics, d.energy);
    if gs == [[]] {
      FlattenLast(gs);
      EmptyFlatten<Reading>();
      assert gs[..0] == [] && items == [];
    } else {
      PackIsMinimal(ReadingCost(c), FragmentLimits(c, d, MAX_POST_BYTES - ENVELOPE), items, gs);
    }
  }

  lemma {:induction false} FewestWithOpenBatches(c: Costs, plan: seq<Piece>, batches: seq<seq<Device>>)
    requires LegalPlan(c, plan) && forall b :: b in batches ==> LegalPiece(c, Batch(b))
    ensures |DeviceGroups(c, PlanDevices(plan) + Flatten(batches))| <= PlanPosts(plan) + |batches|
    decreases |plan|
  {
    hide DeviceGroups, Flatten, Pack, LegalPiece, Parts;
    var pre, run := PlanDevices(plan), Flatten(batches);
    BatchesAreSplit(c, batches);
    if plan == [] {
      assert pre + run == run;
      RunPackedAlone(c, [], run);
      assert [] + run == run;
      PackIsMinimal(c.device, LIMITS, run, batches);
      DeviceGroupsNonempty(c, []);
    } else {
      var n := |plan| - 1;
      var p := plan[n];
      assert LegalPiece(c, p);
      assert LegalPlan(c, plan[..n]);
      if p.Batch? {
        FlattenFrontOne(p.devices, batches);
        assert pre + run == PlanDevices(plan[..n]) + Flatten([p.devices] + batches);
        FewestWithOpenBatches(c, plan[..n], [p.devices] + batches);
      } else {
        InPartsIsOversized(c, p);
        RunPackedAlone(c, pre, run);
        PackIsMinimal(c.device, LIMITS, run, batches);
        DeviceGroupsOneMore(c, PlanDevices(plan[..n]), p.device);
        PartsAreFewest(c, p.device, p.groups);
        EmptyFlatten<Device>();
        assert PlanDevices(plan[..n]) + [] == PlanDevices(plan[..n]);
        FewestWithOpenBatches(c, plan[..n], []);
      }
    }
  }

  lemma EmptyFlatten<T>()
    ensures Flatten<T>([]) == []
  {
  }

  lemma InPartsIsOversized(c: Costs, p: Piece)
    requires LegalPiece(c, p) && p.InParts?
    ensures Oversized(c, p.device)
  {
  }

  lemma FlattenFrontOne<T>(g: seq<T>, gs: seq<seq<T>>)
    ensures Flatten([g] + gs) == g + Flatten(gs)
  {
    FlattenFront([g] + gs);
    assert ([g] + gs)[1..] == gs;
  }

  /**
   No plan that posts the same devices in the same order, batching normal devices under the byte
   rule and splitting each oversized one under the fragment rule, uses fewer device posts.
   */
  lemma FewestDevicePosts(c: Costs, plan: seq<Piece>)
    requires LegalPlan(c, plan)
    ensures |DeviceGroups(c, PlanDevices(plan))| <= PlanPosts(plan)
  {
    FewestWithOpenBatches(c, plan, []);
    EmptyFlatten<Device>();
    assert PlanDevices(plan) + [] == PlanDevices(plan);
  }

  /** Nor does any split of the links and events that obeys the rule use fewer tail posts. */
  lemma FewestTailPosts(c: Costs, p: Payload, other: seq<seq<TailItem>>)
    requires ValidSplit(TailCost(c), LIMITS, other) && Flatten(other) == TailItems(p.links, p.events)
    ensures |TailGroups(c, TailItems(p.links, p.events))| <= |other|
  {
    PackIsMinimal(TailCost(c), LIMITS, TailItems(p.links, p.events), other);
  }

  // --- Nothing lost, nothing reordered ----------------------------------------------------------

  /** The receiver's merge: neighbouring posts of one device id append their readings to the first. */
  function Rejoin(ds: seq<Device>): seq<Device>
  {
    if ds == [] then []
    else
      var r, d := Rejoin(ds[..|ds| - 1]), ds[|ds| - 1];
      if r != [] && r[|r| - 1].id == d.id then
        var last := r[|r| - 1];
        r[..|r| - 1] + [last.(metrics := last.metrics + d.metrics, energy := last.energy + d.energy)]
      else r + [d]
  }

  lemma RejoinOneMore(ds: seq<Device>, d: Device)
    ensures
      var r := Rejoin(ds);
      Rejoin(ds + [d]) ==
        if r != [] && r[|r| - 1].id == d.id
        then r[..|r| - 1] + [r[|r| - 1].(metrics := r[|r| - 1].metrics + d.metrics,
                                         energy := r[|r| - 1].energy + d.energy)]
        else r + [d]
  {
  }

  /** Merging the first fragments of a device gives the device with the readings they carry. */
  lemma {:induction false} RejoinFragments(before: seq<Device>, d: Device, gs: seq<seq<Reading>>)
    requires gs != [] && (Rejoin(before) != [] ==> Rejoin(before)[|Rejoin(before)| - 1].id != d.id)
    ensures Rejoin(before + Fragments(d, gs)) == Rejoin(before) + [Fill(Head(d), Flatten(gs))]
    decreases |gs|
  {
    var n := |gs| - 1;
    hide Rejoin, Head, MetricsOf, EnergyOf;
    FlattenLast(gs);
    FragmentsOneMore(d, gs);
    var fs := Fragments(d, gs[..n]);
    assert before + Fragments(d, gs) == (before + fs) + [Fragment(d, n, gs[n])];
    RejoinOneMore(before + fs, Fragment(d, n, gs[n]));
    HeadKeepsId(d);
    if n == 0 {
      assert fs == [] && before + fs == before;
      assert gs[..0] == [];
      EmptyFlatten<Reading>();
      assert [] + gs[0] == gs[0];
    } else {
      RejoinFragments(before, d, gs[..n]);
      ReadingsConcat(Flatten(gs[..n]), gs[n]);
    }
  }

  lemma HeadKeepsId(d: Device)
    ensures Head(d).id == d.id
  {
  }

  lemma FlattenLast<T>(gs: seq<seq<T>>)
    requires gs != []
    ensures Flatten(gs) == Flatten(gs[..|gs| - 1]) + gs[|gs| - 1]
  {
  }

  lemma RejoinParts(c: Costs, before: seq<Device>, d: Device)
    requires Rejoin(before) != [] ==> Rejoin(before)[|Rejoin(before)| - 1].id != d.id
    ensures Rejoin(before + Parts(c, d)) == Rejoin(before) + [d]
  {
    hide Rejoin;
    var items, budget := Readings(d.metrics, d.energy), MAX_POST_BYTES - ENVELOPE;
    var gs := FragmentGroups(c, d, budget, items);
    PackIsGreedy(ReadingCost(c), FragmentLimits(c, d, budget), items);
    assert Flatten(gs) == items by {
      if items == [] { assert gs[..0] == []; }
    }
    ReadingsSplit(d.metrics, d.energy);
    RejoinFragments(before, d, gs);
  }

  ghost predicate DistinctIds(ds: seq<Device>)
  {
    forall i, j :: 0 <= i < j < |ds| ==> ds[i].id != ds[j].id
  }

  lemma {:induction false} GroupsRejoin(c: Costs, ds: seq<Device>)
    requires DistinctIds(ds)
    ensures Rejoin(Flatten(DeviceGroups(c, ds))) == ds
    decreases |ds|
  {
    hide *;
    if ds == [] {
      NothingRejoins(c);
    } else {
      var front, d := ds[..|ds| - 1], ds[|ds| - 1];
      assert front + [d] == ds;
      DistinctFront(ds);
      GroupsRejoin(c, front);
      GroupRejoinStep(c, front, d);
    }
  }

  lemma NothingRejoins(c: Costs)
    ensures Rejoin(Flatten(DeviceGroups(c, []))) == []
  {
  }

  lemma DistinctFront(ds: seq<Device>)
    requires DistinctIds(ds) && ds != []
    ensures DistinctIds(ds[..|ds| - 1]) && (|ds| > 1 ==> ds[|ds| - 2].id != ds[|ds| - 1].id)
  {
  }

  lemma GroupRejoinStep(c: Costs, ds: seq<Device>, d: Device)
    requires Rejoin(Flatten(DeviceGroups(c, ds))) == ds
    requires ds != [] ==> ds[|ds| - 1].id != d.id
    ensures Rejoin(Flatten(DeviceGroups(c, ds + [d]))) == ds + [d]
  {
    GroupsFlattenOneMore(c, ds, d);
    hide DeviceGroups, Flatten, Parts, Rejoin;
    var before := Flatten(DeviceGroups(c, ds));
    if Oversized(c, d) {
      RejoinParts(c, before, d);
    } else {
      RejoinOneMore(before, d);
    }
  }

  lemma GroupsFlattenOneMore(c: Costs, ds: seq<Device>, d: Device)
    ensures Flatten(DeviceGroups(c, ds + [d])) ==
            Flatten(DeviceGroups(c, ds)) + (if Oversized(c, d) then Parts(c, d) else [d])
  {
    DeviceGroupsOneMore(c, ds, d);
    hide DeviceGroups, Parts;
    var gs := DeviceGroups(c, ds);
    if Oversized(c, d) {
      FlattenConcat(gs, Singles(Parts(c, d)));
      FlattenSingles(Parts(c, d));
    } else if ds == [] || Oversized(c, ds[|ds| - 1]) {
      FlattenConcat(gs, [[d]]);
      assert [[d]][..0] == [];
    } else {
      PlaceAppends(c.device, LIMITS, gs, d);
    }
  }

  lemma {:induction false} FlattenSingles<T>(xs: seq<T>)
    ensures Flatten(Singles(xs)) == xs
  {
    if xs != [] {
      var n := |xs| - 1;
      FlattenSingles(xs[..n]);
      assert Singles(xs)[..n] == Singles(xs[..n]);
      assert xs == xs[..n] + [xs[n]];
    }
  }

  function AllDevices(ps: seq<Payload>): seq<Device>
  {
    if ps == [] then [] else AllDevices(ps[..|ps| - 1]) + ps[|ps| - 1].devices
  }

  function AllLinks(ps: seq<Payload>): seq<Link>
  {
    if ps == [] then [] else AllLinks(ps[..|ps| - 1]) + ps[|ps| - 1].links
  }

  function AllEvents(ps: seq<Payload>): seq<Event>
  {
    if ps == [] then [] else AllEvents(ps[..|ps| - 1]) + ps[|ps| - 1].events
  }

  lemma {:induction false} DeviceChunkContents(ids: ScopeIds, gs: seq<seq<Device>>)
    ensures AllDevices(DeviceChunks(ids, gs)) == Flatten(gs)
    ensures AllLinks(DeviceChunks(ids, gs)) == [] && AllEvents(DeviceChunks(ids, gs)) == []
  {
    if gs != [] {
      DeviceChunkContents(ids, gs[..|gs| - 1]);
      assert DeviceChunks(ids, gs)[..|gs| - 1] == DeviceChunks(ids, gs[..|gs| - 1]);
    }
  }

  lemma {:induction false} TailItemsConcat(a: seq<TailItem>, b: seq<TailItem>)
    ensures LinksOf(a + b) == LinksOf(a) + LinksOf(b) && EventsOf(a + b) == EventsOf(a) + EventsOf(b)
  {
    if b == [] {
      assert a + b == a;
    } else {
      assert (a + b)[..|a + b| - 1] == a + b[..|b| - 1];
      TailItemsConcat(a, b[..|b| - 1]);
    }
  }

  lemma {:induction false} TailItemsSplit(ls: seq<Link>, es: seq<Event>)
    ensures LinksOf(TailItems(ls, es)) == ls && EventsOf(TailItems(ls, es)) == es
    decreases |ls| + |es|
  {
    hide *;
    if es != [] {
      var front, x := es[..|es| - 1], es[|es| - 1];
      assert front + [x] == es;
      TailItemsSplit(ls, front);
      TailItemsGrowEvent(ls, front, x);
      OneMoreTailItem(TailItems(ls, front), OfEvent(x));
    } else if ls != [] {
      var front, x := ls[..|ls| - 1], ls[|ls| - 1];
      assert front + [x] == ls;
      TailItemsSplit(front, es);
      TailItemsGrowLink(front, x);
      OneMoreTailItem(TailItems(front, es), OfLink(x));
    } else {
      NoTailItems();
    }
  }

  lemma TailItemsGrowEvent(ls: seq<Link>, es: seq<Event>, x: Event)
    ensures TailItems(ls, es + [x]) == TailItems(ls, es) + [OfEvent(x)]
  {
  }

  lemma TailItemsGrowLink(ls: seq<Link>, x: Link)
    ensures TailItems(ls + [x], []) == TailItems(ls, []) + [OfLink(x)]
  {
  }

  lemma NoTailItems()
    ensures LinksOf(TailItems([], [])) == [] && EventsOf(TailItems([], [])) == []
  {
  }

  lemma OneMoreTailItem(ts: seq<TailItem>, t: TailItem)
    ensures LinksOf(ts + [t]) == LinksOf(ts) + if t.OfLink? then [t.l] else []
    ensures EventsOf(ts + [t]) == EventsOf(ts) + if t.OfEvent? then [t.e] else []
  {
    assert (ts + [t])[..|ts|] == ts;
  }

  /** Appending tail chunks adds their items, in order, and no device. */
  lemma {:induction false} TailChunkContents(ids: ScopeIds, front: seq<Payload>, gs: seq<seq<TailItem>>)
    ensures var all := front + TailChunks(ids, gs);
            && AllDevices(all) == AllDevices(front)
            && AllLinks(all) == AllLinks(front) + LinksOf(Flatten(gs))
            && AllEvents(all) == AllEvents(front) + EventsOf(Flatten(gs))
    decreases |gs|
  {
    hide AllDevices, AllLinks, AllEvents, LinksOf, EventsOf, Flatten;
    var all := front + TailChunks(ids, gs);
    if gs == [] {
      assert all == front;
      EmptyFlatten<TailItem>();
      NoItems();
    } else {
      var n := |gs| - 1;
      TailChunkContents(ids, front, gs[..n]);
      assert all == (front + TailChunks(ids, gs[..n])) + [TailChunk(ids, gs[n])];
      AllOneMore(front + TailChunks(ids, gs[..n]), TailChunk(ids, gs[n]));
      FlattenLast(gs);
      TailItemsConcat(Flatten(gs[..n]), gs[n]);
    }
  }

  lemma NoItems()
    ensures LinksOf([]) == [] && EventsOf([]) == []
  {
  }

  lemma AllOneMore(ps: seq<Payload>, p: Payload)
    ensures AllDevices(ps + [p]) == AllDevices(ps) + p.devices
    ensures AllLinks(ps + [p]) == AllLinks(ps) + p.links
    ensures AllEvents(ps + [p]) == AllEvents(ps) + p.events
  {
  }

  lemma AllPosted(c: Costs, p: Payload)
    ensures AllDevices(Posts(c, p)) == Flatten(DeviceGroups(c, p.devices))
    ensures AllLinks(Posts(c, p)) == p.links && AllEvents(Posts(c, p)) == p.events
  {
    hide DeviceGroups, TailGroups, Flatten, AllDevices, AllLinks, AllEvents, LinksOf, EventsOf, TailItems;
    var dgs, items := DeviceGroups(c, p.devices), TailItems(p.links, p.events);
    DeviceChunkContents(p.ids, dgs);
    TailChunkContents(p.ids, DeviceChunks(p.ids, dgs), TailGroups(c, items));
    TailFlattens(c, items);
    TailItemsSplit(p.links, p.events);
  }

  /** Reading the posts in order and rejoining fragments by device gives back exactly the scope's payload. */
  lemma PostsConserve(c: Costs, p: Payload)
    requires DistinctIds(p.devices)
    ensures Rejoin(AllDevices(Posts(c, p))) == p.devices
    ensures AllLinks(Posts(c, p)) == p.links && AllEvents(Posts(c, p)) == p.events
  {
    hide *;
    AllPosted(c, p);
    GroupsRejoin(c, p.devices);
  }

  lemma TailFlattens(c: Costs, ts: seq<TailItem>)
    ensures Flatten(TailGroups(c, ts)) == ts
  {
    PackIsGreedy(TailCost(c), LIMITS, ts);
  }

  /** No post mixes devices with links or events, every device post precedes every other, and all carry the scope. */
  lemma DevicesFirst(c: Costs, p: Payload)
    ensures var ps, k := Posts(c, p), |DeviceGroups(c, p.devices)|;
            && k <= |ps|
            && (forall i :: 0 <= i < k ==> ps[i].devices != [] && ps[i].links == [] && ps[i].events == [])
            && (forall i :: k <= i < |ps| ==> ps[i].devices == [])
            && (forall i :: 0 <= i < |ps| ==> ps[i].ids == p.ids)
  {
    var dgs := DeviceGroups(c, p.devices);
    DeviceGroupsNonempty(c, p.devices);
    assert forall i :: 0 <= i < |dgs| ==> dgs[i] in dgs;
    hide DeviceGroups, TailGroups;
  }

  function Hosts(ds: seq<Device>): set<string>
  {
    set d | d in ds :: d.hostname
  }

  lemma {:induction false} RejoinKeepsHosts(ds: seq<Device>)
    ensures Hosts(Rejoin(ds)) <= Hosts(ds)
  {
    if ds != [] {
      var n := |ds| - 1;
      var d, r := ds[n], Rejoin(ds[..n]);
      RejoinKeepsHosts(ds[..n]);
      assert ds == ds[..n] + [d];
      RejoinOneMore(ds[..n], d);
      hide Rejoin;
      forall h | h in Hosts(Rejoin(ds))
        ensures h in Hosts(ds)
      {
        var e :| e in Rejoin(ds) && e.hostname == h;
        if e in r {
          assert h in Hosts(r);
        } else if r != [] && r[|r| - 1].id == d.id {
          assert r[|r| - 1] in r && h in Hosts(r);
        }
      }
    }
  }

  lemma {:induction false} HostInSomePost(ps: seq<Payload>, d: Device)
    requires d in AllDevices(ps)
    ensures exists i :: 0 <= i < |ps| && d in ps[i].devices
  {
    if d !in ps[|ps| - 1].devices {
      HostInSomePost(ps[..|ps| - 1], d);
      var i :| 0 <= i < |ps| - 1 && d in ps[i].devices;
    }
  }

  /** A link's endpoints, when they are devices of the scope, sit in posts before the link's own. */
  lemma EndpointsGoFirst(c: Costs, p: Payload, l: Link, k: nat, host: string)
    requires DistinctIds(p.devices)
    requires k < |Posts(c, p)| && l in Posts(c, p)[k].links
    requires exists d :: d in p.devices && d.hostname == host
    ensures exists i :: 0 <= i < k && exists e :: e in Posts(c, p)[i].devices && e.hostname == host
  {
    hide Posts, Rejoin, DeviceGroups;
    var ps := Posts(c, p);
    PostsConserve(c, p);
    DevicesFirst(c, p);
    RejoinKeepsHosts(AllDevices(ps));
    assert host in Hosts(p.devices);
    var e :| e in AllDevices(ps) && e.hostname == host;
    HostInSomePost(ps, e);
    var i :| 0 <= i < |ps| && e in ps[i].devices;
  }

  // --- What a posted device is ---------------------------------------------------------------------

  /** `e` repeats the identity of `d`, and either its other columns or none of them. */
  ghost predicate Repeats(e: Device, d: Device)
  {
    && e.id == d.id && e.hostname == d.hostname && e.deviceType == d.deviceType && e.reachable == d.reachable
    && (e.body == d.body || e.body == "")
  }

  lemma PartsRepeat(c: Costs, d: Device)
    ensures forall e :: e in Parts(c, d) ==> Repeats(e, d)
  {
    hide FragmentGroups, Readings, MetricsOf, EnergyOf;
  }

  lemma {:induction false} GroupedRepeat(c: Costs, ds: seq<Device>, e: Device)
    requires e in Flatten(DeviceGroups(c, ds))
    ensures exists d :: d in ds && Repeats(e, d)
  {
    hide *;
    if ds == [] {
      NoGroups(c);
    } else {
      var front, d := ds[..|ds| - 1], ds[|ds| - 1];
      assert front + [d] == ds && d in ds;
      GroupsFlattenOneMore(c, front, d);
      if e in Flatten(DeviceGroups(c, front)) {
        GroupedRepeat(c, front, e);
      } else if Oversized(c, d) {
        PartsRepeat(c, d);
      } else {
        RepeatsItself(d);
      }
    }
  }

  lemma NoGroups(c: Costs)
    ensures Flatten(DeviceGroups(c, [])) == []
  {
  }

  lemma RepeatsItself(d: Device)
    ensures Repeats(d, d)
  {
  }

  lemma {:induction false} DeviceInAll(ps: seq<Payload>, i: nat, e: Device)
    requires i < |ps| && e in ps[i].devices
    ensures e in AllDevices(ps)
  {
    if i < |ps| - 1 { DeviceInAll(ps[..|ps| - 1], i, e); }
  }

  lemma {:induction false} EventInAll(ps: seq<Payload>, i: nat, x: Event)
    requires i < |ps| && x in ps[i].events
    ensures x in AllEvents(ps)
  {
    if i < |ps| - 1 { EventInAll(ps[..|ps| - 1], i, x); }
  }

  /** Every device in a post, whole or fragment, carries the identity of a device of the payload. */
  lemma PostedDeviceRepeats(c: Costs, p: Payload, i: nat, e: Device)
    requires i < |Posts(c, p)| && e in Posts(c, p)[i].devices
    ensures exists d :: d in p.devices && Repeats(e, d)
  {
    hide *;
    AllPosted(c, p);
    DeviceInAll(Posts(c, p), i, e);
    GroupedRepeat(c, p.devices, e);
  }

  /** Every event in a post is one of the payload's. */
  lemma PostedEventIsOwn(c: Costs, p: Payload, i: nat, x: Event)
    requires i < |Posts(c, p)| && x in Posts(c, p)[i].events
    ensures x in p.events
  {
    hide *;
    AllPosted(c, p);
    EventInAll(Posts(c, p), i, x);
  }

  lemma {:induction false} SmallIsGrouped(c: Costs, ds: seq<Device>, d: Device)
    requires d in ds && c.device(d) <= 524288
    ensures d in Flatten(DeviceGroups(c, ds))
  {
    var front, last := ds[..|ds| - 1], ds[|ds| - 1];
    assert front + [last] == ds;
    hide DeviceGroups, Flatten, Parts;
    GroupsFlattenOneMore(c, front, last);
    if d in front { SmallIsGrouped(c, front, d); }
  }

  /** A device of at most 512 KiB is never fragmented: some post carries all of it. */
  lemma SmallDeviceIsWhole(c: Costs, p: Payload, d: Device)
    requires d in p.devices && c.device(d) <= 524288
    ensures exists i :: 0 <= i < |Posts(c, p)| && d in Posts(c, p)[i].devices
  {
    hide *;
    AllPosted(c, p);
    SmallIsGrouped(c, p.devices, d);
    HostInSomePost(Posts(c, p), d);
  }

  // --- Order inside a payload -------------------------------------------------------------------------

  lemma HasMetric(rs: seq<Reading>) returns (i: nat)
    requires MetricsOf(rs) != []
    ensures i < |rs| && rs[i].OfMetric?
  {
    i := |rs| - 1;
    if !rs[i].OfMetric? { i := HasMetric(rs[..|rs| - 1]); }
  }

  lemma HasEnergy(rs: seq<Reading>) returns (i: nat)
    requires EnergyOf(rs) != []
    ensures i < |rs| && rs[i].OfEnergy?
  {
    i := |rs| - 1;
    if !rs[i].OfEnergy? { i := HasEnergy(rs[..|rs| - 1]); }
  }

  lemma NothingFlattens()
    ensures Flatten<Reading>([[]]) == []
  {
    var gs: seq<seq<Reading>> := [[]];
    assert gs[..0] == [];
  }

  lemma PartsFlatten(c: Costs, d: Device)
    ensures var gs := FragmentGroups(c, d, MAX_POST_BYTES - ENVELOPE, Readings(d.metrics, d.energy));
            Flatten(gs) == Readings(d.metrics, d.energy) && |Parts(c, d)| == |gs|
  {
    var items, budget := Readings(d.metrics, d.energy), MAX_POST_BYTES - ENVELOPE;
    PackIsGreedy(ReadingCost(c), FragmentLimits(c, d, budget), items);
    NothingFlattens();
  }

  lemma ReadingOrder(ms: seq<Metric>, es: seq<Energy>, x: nat, y: nat)
    requires x < y < |Readings(ms, es)|
    ensures Readings(ms, es)[x].OfEnergy? ==> Readings(ms, es)[y].OfEnergy?
  {
  }

  /** A device's metrics go before its energy readings: no fragment behind one with energy holds a metric. */
  lemma MetricsBeforeEnergy(c: Costs, d: Device, k: nat, j: nat)
    requires k < j < |Parts(c, d)| && Parts(c, d)[k].energy != []
    ensures Parts(c, d)[j].metrics == []
  {
    var gs := FragmentGroups(c, d, MAX_POST_BYTES - ENVELOPE, Readings(d.metrics, d.energy));
    PartsFlatten(c, d);
    hide FragmentGroups, Flatten, MetricsOf, EnergyOf, Head, Stub, Readings;
    if MetricsOf(gs[j]) != [] {
      var a := HasEnergy(gs[k]);
      var b := HasMetric(gs[j]);
      var p, q := GroupsInOrder(gs, k, j, a, b);
      ReadingOrder(d.metrics, d.energy, p, q);
    }
  }

  lemma HasLink(ts: seq<TailItem>) returns (i: nat)
    requires LinksOf(ts) != []
    ensures i < |ts| && ts[i].OfLink?
  {
    i := |ts| - 1;
    if !ts[i].OfLink? { i := HasLink(ts[..|ts| - 1]); }
  }

  lemma HasEvent(ts: seq<TailItem>) returns (i: nat)
    requires EventsOf(ts) != []
    ensures i < |ts| && ts[i].OfEvent?
  {
    i := |ts| - 1;
    if !ts[i].OfEvent? { i := HasEvent(ts[..|ts| - 1]); }
  }

  lemma TailPost(c: Costs, p: Payload, i: nat) returns (k: nat)
    requires i < |Posts(c, p)| && Posts(c, p)[i].devices == []
    ensures var gs := TailGroups(c, TailItems(p.links, p.events));
            && k < |gs| && i == |DeviceGroups(c, p.devices)| + k
            && Posts(c, p)[i].links == LinksOf(gs[k]) && Posts(c, p)[i].events == EventsOf(gs[k])
  {
    DevicesFirst(c, p);
    hide DeviceGroups, TailGroups, TailItems;
    k := i - |DeviceGroups(c, p.devices)|;
  }

  /** Links go before events: no post behind one with events holds a link. */
  lemma LinksBeforeEvents(c: Costs, p: Payload, i: nat, j: nat)
    requires i < j < |Posts(c, p)| && Posts(c, p)[i].events != []
    ensures Posts(c, p)[j].links == []
  {
    hide *;
    EventPostIsTail(c, p, i, j);
    var gs := TailGroups(c, TailItems(p.links, p.events));
    var k := TailPost(c, p, i);
    var l := TailPost(c, p, j);
    TailFlattens(c, TailItems(p.links, p.events));
    if LinksOf(gs[l]) != [] {
      var a := HasEvent(gs[k]);
      var b := HasLink(gs[l]);
      var x, y := GroupsInOrder(gs, k, l, a, b);
      TailOrder(p.links, p.events, x, y);
    }
  }

  lemma EventPostIsTail(c: Costs, p: Payload, i: nat, j: nat)
    requires i < j < |Posts(c, p)| && Posts(c, p)[i].events != []
    ensures Posts(c, p)[i].devices == [] && Posts(c, p)[j].devices == []
  {
    DevicesFirst(c, p);
    hide DeviceGroups, Posts;
  }

  lemma TailOrder(ls: seq<Link>, es: seq<Event>, x: nat, y: nat)
    requires x < y < |TailItems(ls, es)|
    ensures TailItems(ls, es)[x].OfEvent? ==> TailItems(ls, es)[y].OfEvent?
  {
  }
}
