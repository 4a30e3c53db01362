/**
 The whole of `chunkPayload`: device chunks with oversized devices fragmented, then chunks of
 links and events, and what the resulting posts guarantee.
 */
module Posting {
  import opened Packing
  import opened Chunks

  const LIMITS := Limits(ENVELOPE, ENVELOPE, MAX_POST_BYTES)

  predicate Oversized(c: Costs, d: Device)
  {
    c.device(d) > MAX_POST_BYTES
  }

  function Parts(c: Costs, d: Device): seq<Device>
  {
    Fragments(d, FragmentGroups(c, d, MAX_POST_BYTES - ENVELOPE, Readings(d.metrics, d.energy)))
  }

  function Singles<T>(xs: seq<T>): (gs: seq<seq<T>>)
    ensures |gs| == |xs|
  {
    seq(|xs|, i requires 0 <= i < |xs| => [xs[i]])
  }

  /** The device groups, one per device chunk. A run of normal devices starts a fresh group. */
  function DeviceGroups(c: Costs, ds: seq<Device>): seq<seq<Device>>
  {
    if ds == [] then []
    else
      var n := |ds| - 1;
      var gs := DeviceGroups(c, ds[..n]);
      if Oversized(c, ds[n]) then gs + Singles(Parts(c, ds[n]))
      else if n == 0 || Oversized(c, ds[n - 1]) then gs + [[ds[n]]]
      else Place(c.device, LIMITS, gs, ds[n])
  }

  datatype TailItem = OfLink(l: Link) | OfEvent(e: Event)

  function CostOfTail(c: Costs, t: TailItem): nat
  {
    match t
    case OfLink(l) => c.link(l)
    case OfEvent(e) => c.event(e)
  }

  function TailCost(c: Costs): TailItem -> nat
  {
    (t: TailItem) => CostOfTail(c, t)
  }

  function TailItems(ls: seq<Link>, es: seq<Event>): (ts: seq<TailItem>)
    ensures |ts| == |ls| + |es|
  {
    seq(|ls| + |es|, i requires 0 <= i < |ls| + |es| => if i < |ls| then OfLink(ls[i]) else OfEvent(es[i - |ls|]))
  }

  function LinksOf(ts: seq<TailItem>): seq<Link>
  {
    if ts == [] then []
    else LinksOf(ts[..|ts| - 1]) + (if ts[|ts| - 1].OfLink? then [ts[|ts| - 1].l] else [])
  }

  function EventsOf(ts: seq<TailItem>): seq<Event>
  {
    if ts == [] then []
    else EventsOf(ts[..|ts| - 1]) + (if ts[|ts| - 1].OfEvent? then [ts[|ts| - 1].e] else [])
  }

  function TailGroups(c: Costs, ts: seq<TailItem>): seq<seq<TailItem>>
  {
    Pack(TailCost(c), LIMITS, ts)
  }

  function DeviceChunks(ids: ScopeIds, gs: seq<seq<Device>>): (ps: seq<Payload>)
    ensures |ps| == |gs|
  {
    seq(|gs|, i requires 0 <= i < |gs| => Payload(ids, gs[i], [], []))
  }

  function TailChunk(ids: ScopeIds, g: seq<TailItem>): Payload
  {
    Payload(ids, [], LinksOf(g), EventsOf(g))
  }

  function TailChunks(ids: ScopeIds, gs: seq<seq<TailItem>>): (ps: seq<Payload>)
    ensures |ps| == |gs|
  {
    seq(|gs|, i requires 0 <= i < |gs| => TailChunk(ids, gs[i]))
  }

  /** What `chunkPayload` returns. */
  function Posts(c: Costs, p: Payload): seq<Payload>
  {
    DeviceChunks(p.ids, DeviceGroups(c, p.devices)) + TailChunks(p.ids, TailGroups(c, TailItems(p.links, p.events)))
  }

  // --- The loops ------------------------------------------------------------------------------

  method SumOf<T>(cost: T -> nat, xs: seq<T>) returns (n: nat)
    ensures n == Sum(cost, xs)
  {
    n := 0;
    for i := 0 to |xs|
      invariant n == Sum(cost, xs[..i])
    {
      assert xs[..i + 1][..i] == xs[..i];
      n := n + cost(xs[i]);
    }
    assert xs[..|xs|] == xs;
  }

  predicate TailOverflows(c: Costs, last: Payload, addBytes: nat)
  {
    && (last.links != [] || last.events != [])
    && ENVELOPE + Sum(c.link, last.links) + Sum(c.event, last.events) + addBytes > MAX_POST_BYTES
  }

  method LastTailFull(c: Costs, chunks: seq<Payload>, addBytes: nat) returns (full: bool)
    requires chunks != []
    ensures var last := chunks[|chunks| - 1];
            full == (last.devices != [] || TailOverflows(c, last, addBytes))
  {
    var last := chunks[|chunks| - 1];
    if |last.devices| > 0 { return true; }
    var links := SumOf(c.link, last.links);
    var events := SumOf(c.event, last.events);
    var hasContent := |last.links| > 0 || |last.events| > 0;
    full := hasContent && ENVELOPE + links + events + addBytes > MAX_POST_BYTES;
  }

  /** The state of the device loop: finished chunks, the open chunk's devices, and its running cost. */
  ghost predicate Packed(c: Costs, ids: ScopeIds, ds: seq<Device>, chunks: seq<Payload>,
                         cur: seq<Device>, curBytes: nat)
  {
    && (cur == [] <==> ds == [] || Oversized(c, ds[|ds| - 1]))
    && chunks + (if cur == [] then [] else [Payload(ids, cur, [], [])]) == DeviceChunks(ids, DeviceGroups(c, ds))
    && curBytes == ENVELOPE + Sum(c.device, cur)
  }

  lemma PackedGroups(c: Costs, ids: ScopeIds, ds: seq<Device>, chunks: seq<Payload>, cur: seq<Device>, curBytes: nat)
    requires Packed(c, ids, ds, chunks, cur, curBytes)
    ensures var gs := DeviceGroups(c, ds);
            if cur == [] then chunks == DeviceChunks(ids, gs)
            else gs != [] && gs[|gs| - 1] == cur && chunks == DeviceChunks(ids, gs[..|gs| - 1])
  {
    hide DeviceGroups, Sum;
    var gs := DeviceGroups(c, ds);
    var all := DeviceChunks(ids, gs);
    if cur != [] {
      assert all[|all| - 1] == Payload(ids, cur, [], []);
      assert chunks == all[..|all| - 1];
    }
  }

  lemma DeviceGroupsOneMore(c: Costs, ds: seq<Device>, d: Device)
    ensures
      DeviceGroups(c, ds + [d]) ==
        var gs := DeviceGroups(c, ds);
        if Oversized(c, d) then gs + Singles(Parts(c, d))
        else if ds == [] || Oversized(c, ds[|ds| - 1]) then gs + [[d]]
        else Place(c.device, LIMITS, gs, d)
  {
  }

  lemma DeviceChunksConcat(ids: ScopeIds, a: seq<seq<Device>>, b: seq<seq<Device>>)
    ensures DeviceChunks(ids, a + b) == DeviceChunks(ids, a) + DeviceChunks(ids, b)
  {
  }

  lemma DeviceChunksOne(ids: ScopeIds, g: seq<Device>)
    ensures DeviceChunks(ids, [g]) == [Payload(ids, g, [], [])]
  {
  }

  lemma PackedOversized(c: Costs, ids: ScopeIds, ds: seq<Device>, chunks: seq<Payload>,
                        cur: seq<Device>, curBytes: nat, d: Device)
    requires Packed(c, ids, ds, chunks, cur, curBytes) && Oversized(c, d)
    ensures Packed(c, ids, ds + [d],
                   chunks + (if cur == [] then [] else [Payload(ids, cur, [], [])])
                     + DeviceChunks(ids, Singles(Parts(c, d))),
                   [], ENVELOPE)
  {
    hide DeviceGroups, DeviceChunks, Sum, Parts, Place;
    DeviceGroupsOneMore(c, ds, d);
    DeviceChunksConcat(ids, DeviceGroups(c, ds), Singles(Parts(c, d)));
    EmptySum(c.device);
  }

  lemma PackedNormal(c: Costs, ids: ScopeIds, ds: seq<Device>, chunks: seq<Payload>,
                     cur: seq<Device>, curBytes: nat, d: Device)
    requires Packed(c, ids, ds, chunks, cur, curBytes) && !Oversized(c, d)
    ensures
      if cur != [] && curBytes + c.device(d) > MAX_POST_BYTES
      then Packed(c, ids, ds + [d], chunks + [Payload(ids, cur, [], [])], [d], ENVELOPE + c.device(d))
      else Packed(c, ids, ds + [d], chunks, cur + [d], curBytes + c.device(d))
  {
    hide DeviceGroups, DeviceChunks, Sum;
    PackedGroups(c, ids, ds, chunks, cur, curBytes);
    DeviceGroupsOneMore(c, ds, d);
    var gs := DeviceGroups(c, ds);
    SumSingle(c.device, d);
    if cur == [] || curBytes + c.device(d) > MAX_POST_BYTES {
      assert DeviceGroups(c, ds + [d]) == gs + [[d]];
      DeviceChunksConcat(ids, gs, [[d]]);
      DeviceChunksOne(ids, [d]);
      if cur == [] { assert cur + [d] == [d]; EmptySum(c.device); }
    } else {
      SumOneMore(c.device, cur, d);
      var n := |gs| - 1;
      assert DeviceGroups(c, ds + [d]) == gs[..n] + [cur + [d]];
      DeviceChunksConcat(ids, gs[..n], [cur + [d]]);
      DeviceChunksOne(ids, cur + [d]);
    }
  }

  lemma SumSingle<T>(cost: T -> nat, x: T)
    ensures Sum(cost, [x]) == cost(x)
  {
  }

  method ChunkPayload(c: Costs, p: Payload) returns (chunks: seq<Payload>)
    ensures chunks == Posts(c, p)
  {
    chunks := PackDevices(c, p.ids, p.devices);
    chunks := PackTail(c, p, chunks);
  }

  /** The device loop. */
  method PackDevices(c: Costs, ids: ScopeIds, ds: seq<Device>) returns (chunks: seq<Payload>)
    ensures chunks == DeviceChunks(ids, DeviceGroups(c, ds))
  {
    hide DeviceGroups, Sum, Parts;
    chunks := [];
    var cur: seq<Device>, curBytes: nat := [], ENVELOPE;
    NothingPacked(c, ids);
    EmptySum(c.device);
    for i := 0 to |ds|
      invariant Packed(c, ids, ds[..i], chunks, cur, curBytes)
    {
      var d := ds[i];
      var db := c.device(d);
      assert ds[..i + 1] == ds[..i] + [d];
      if db > MAX_POST_BYTES {
        PackedOversized(c, ids, ds[..i], chunks, cur, curBytes, d);
        assert chunks + [] == chunks;
        if |cur| > 0 {
          chunks := chunks + [Payload(ids, cur, [], [])];
          cur := [];
          curBytes := ENVELOPE;
        }
        chunks := PostFragments(c, ids, chunks, d);
      } else {
        PackedNormal(c, ids, ds[..i], chunks, cur, curBytes, d);
        assert [] + [d] == [d];
        if |cur| > 0 && curBytes + db > MAX_POST_BYTES {
          chunks := chunks + [Payload(ids, cur, [], [])];
          cur := [];
          curBytes := ENVELOPE;
        }
        cur := cur + [d];
        curBytes := curBytes + db;
      }
    }
    assert ds[..|ds|] == ds;
    if |cur| > 0 {
      chunks := chunks + [Payload(ids, cur, [], [])];
    }
  }

  /** An oversized device's fragments, each in a chunk of its own. */
  method PostFragments(c: Costs, ids: ScopeIds, chunks0: seq<Payload>, d: Device) returns (chunks: seq<Payload>)
    ensures chunks == chunks0 + DeviceChunks(ids, Singles(Parts(c, d)))
  {
    var frags := SplitDevice(c, d, MAX_POST_BYTES - ENVELOPE);
    chunks := chunks0;
    for k := 0 to |frags|
      invariant chunks == chunks0 + DeviceChunks(ids, Singles(frags[..k]))
    {
      assert Singles(frags[..k + 1]) == Singles(frags[..k]) + [[frags[k]]];
      chunks := chunks + [Payload(ids, [frags[k]], [], [])];
    }
    assert frags[..|frags|] == frags;
  }

  lemma NothingPacked(c: Costs, ids: ScopeIds)
    ensures Packed(c, ids, [], [], [], ENVELOPE)
  {
  }

  // --- The tail -------------------------------------------------------------------------------

  lemma {:induction false} TailSums(c: Costs, g: seq<TailItem>)
    ensures Sum(TailCost(c), g) == Sum(c.link, LinksOf(g)) + Sum(c.event, EventsOf(g))
    ensures |g| == |LinksOf(g)| + |EventsOf(g)|
  {
    if g != [] {
      var n := |g| - 1;
      TailSums(c, g[..n]);
      assert TailCost(c)(g[n]) == CostOfTail(c, g[n]);
      if g[n].OfLink? {
        SumOneMore(c.link, LinksOf(g[..n]), g[n].l);
        assert EventsOf(g) == EventsOf(g[..n]);
      } else {
        SumOneMore(c.event, EventsOf(g[..n]), g[n].e);
        assert LinksOf(g) == LinksOf(g[..n]);
      }
    }
  }

  /** Chunks while the tail is being filled: all device chunks, then the groups of `ts`. */
  ghost predicate Tailing(c: Costs, ids: ScopeIds, dgs: seq<seq<Device>>, ts: seq<TailItem>, chunks: seq<Payload>)
  {
    chunks == DeviceChunks(ids, dgs) + TailChunks(ids, TailGroups(c, ts))
  }

  /** One more tail item, with the decision `lastTailFull` takes on the chunks so far. */
  function AddTail(ids: ScopeIds, chunks: seq<Payload>, opens: bool, x: TailItem): seq<Payload>
    requires !opens ==> chunks != []
  {
    var cs := if opens then chunks + [Payload(ids, [], [], [])] else chunks;
    var last := cs[|cs| - 1];
    cs[..|cs| - 1] + [match x
                      case OfLink(l) => last.(links := last.links + [l])
                      case OfEvent(e) => last.(events := last.events + [e])]
  }

  predicate OpensChunk(c: Costs, chunks: seq<Payload>, x: TailItem)
  {
    || chunks == []
    || chunks[|chunks| - 1].devices != []
    || TailOverflows(c, chunks[|chunks| - 1], CostOfTail(c, x))
  }

  lemma TailChunkOneMore(ids: ScopeIds, g: seq<TailItem>, x: TailItem)
    ensures TailChunk(ids, g + [x]) == match x
                                       case OfLink(l) => TailChunk(ids, g).(links := LinksOf(g) + [l])
                                       case OfEvent(e) => TailChunk(ids, g).(events := EventsOf(g) + [e])
  {
  }

  lemma TailGroupsOneMore(c: Costs, ts: seq<TailItem>, x: TailItem)
    ensures TailGroups(c, ts + [x]) == Place(TailCost(c), LIMITS, TailGroups(c, ts), x)
  {
  }

  lemma TailChunksConcat(ids: ScopeIds, gs: seq<seq<TailItem>>, g: seq<TailItem>)
    ensures TailChunks(ids, gs + [g]) == TailChunks(ids, gs) + [TailChunk(ids, g)]
  {
  }

  /** A fresh tail chunk holding one item. */
  lemma FreshTail(ids: ScopeIds, chunks: seq<Payload>, x: TailItem)
    ensures AddTail(ids, chunks, true, x) == chunks + [TailChunk(ids, [x])]
  {
    TailChunkOneMore(ids, [], x);
    assert [] + [x] == [x];
  }

  /** The last tail chunk taking one more item. */
  lemma GrownTail(ids: ScopeIds, before: seq<Payload>, g: seq<TailItem>, x: TailItem)
    ensures AddTail(ids, before + [TailChunk(ids, g)], false, x) == before + [TailChunk(ids, g + [x])]
  {
    TailChunkOneMore(ids, g, x);
    var cs := before + [TailChunk(ids, g)];
    assert cs[..|cs| - 1] == before;
  }

  lemma TailOverflowsIff(c: Costs, ids: ScopeIds, g: seq<TailItem>, x: TailItem)
    requires g != []
    ensures TailOverflows(c, TailChunk(ids, g), CostOfTail(c, x)) <==>
            ENVELOPE + Sum(TailCost(c), g) + TailCost(c)(x) > MAX_POST_BYTES
  {
    TailSums(c, g);
  }

  lemma {:induction false} TailGroupsNonempty(c: Costs, ts: seq<TailItem>)
    ensures forall k :: 0 <= k < |TailGroups(c, ts)| ==> TailGroups(c, ts)[k] != []
  {
    PackIsGreedy(TailCost(c), LIMITS, ts);
  }

  lemma TailStep(c: Costs, ids: ScopeIds, dgs: seq<seq<Device>>, ts: seq<TailItem>, chunks: seq<Payload>, x: TailItem)
    requires Tailing(c, ids, dgs, ts, chunks)
    requires forall g :: g in dgs ==> g != []
    ensures Tailing(c, ids, dgs, ts + [x], AddTail(ids, chunks, OpensChunk(c, chunks, x), x))
  {
    hide TailGroups, TailChunks, AddTail, TailOverflows, Sum, DeviceChunks, TailCost, CostOfTail;
    var gs, front := TailGroups(c, ts), DeviceChunks(ids, dgs);
    TailGroupsOneMore(c, ts, x);
    if gs == [] {
      assert chunks == front;
      TailOpens(c, ids, dgs, chunks, x);
      FreshTail(ids, chunks, x);
      TailChunksConcat(ids, [], [x]);
      assert [] + [[x]] == [[x]];
    } else {
      var n := |gs| - 1;
      TailGroupsNonempty(c, ts);
      assert gs == gs[..n] + [gs[n]];
      TailChunksConcat(ids, gs[..n], gs[n]);
      var before := front + TailChunks(ids, gs[..n]);
      assert chunks == before + [TailChunk(ids, gs[n])];
      TailOverflowsIff(c, ids, gs[n], x);
      if OpensChunk(c, chunks, x) {
        FreshTail(ids, chunks, x);
        TailChunksConcat(ids, gs, [x]);
      } else {
        GrownTail(ids, before, gs[n], x);
        TailChunksConcat(ids, gs[..n], gs[n] + [x]);
      }
    }
  }

  lemma TailOpens(c: Costs, ids: ScopeIds, dgs: seq<seq<Device>>, chunks: seq<Payload>, x: TailItem)
    requires chunks == DeviceChunks(ids, dgs) && forall g :: g in dgs ==> g != []
    ensures OpensChunk(c, chunks, x)
  {
    if chunks != [] {
      assert dgs[|dgs| - 1] in dgs;
    }
  }

  /** The two trailing loops: links first, then events. */
  method PackTail(c: Costs, p: Payload, chunks0: seq<Payload>) returns (chunks: seq<Payload>)
    requires chunks0 == DeviceChunks(p.ids, DeviceGroups(c, p.devices))
    ensures chunks == Posts(c, p)
  {
    hide DeviceGroups, TailGroups, AddTail;
    ghost var dgs := DeviceGroups(c, p.devices);
    DeviceGroupsNonempty(c, p.devices);
    chunks := chunks0;
    NoTail(c, p.ids, dgs);
    for i := 0 to |p.links|
      invariant Tailing(c, p.ids, dgs, TailItems(p.links[..i], []), chunks)
    {
      var x := OfLink(p.links[i]);
      TailStep(c, p.ids, dgs, TailItems(p.links[..i], []), chunks, x);
      assert TailItems(p.links[..i + 1], []) == TailItems(p.links[..i], []) + [x];
      var opens := |chunks| == 0;
      if !opens {
        opens := LastTailFull(c, chunks, c.link(p.links[i]));
      }
      chunks := AddTail(p.ids, chunks, opens, x);
    }
    assert p.links[..|p.links|] == p.links && p.events[..0] == [];
    for i := 0 to |p.events|
      invariant Tailing(c, p.ids, dgs, TailItems(p.links, p.events[..i]), chunks)
    {
      var x := OfEvent(p.events[i]);
      TailStep(c, p.ids, dgs, TailItems(p.links, p.events[..i]), chunks, x);
      assert TailItems(p.links, p.events[..i + 1]) == TailItems(p.links, p.events[..i]) + [x];
      var opens := |chunks| == 0;
      if !opens {
        opens := LastTailFull(c, chunks, c.event(p.events[i]));
      }
      chunks := AddTail(p.ids, chunks, opens, x);
    }
    assert p.events[..|p.events|] == p.events;
  }

  lemma NoTail(c: Costs, ids: ScopeIds, dgs: seq<seq<Device>>)
    ensures Tailing(c, ids, dgs, TailItems([], []), DeviceChunks(ids, dgs))
  {
  }

  lemma {:induction false} DeviceGroupsNonempty(c: Costs, ds: seq<Device>)
    ensures forall g :: g in DeviceGroups(c, ds) ==> g != []
    ensures DeviceGroups(c, ds) == [] <==> ds == []
  {
    if ds != [] {
      var n := |ds| - 1;
      DeviceGroupsNonempty(c, ds[..n]);
      hide Place, Singles, Parts;
      var gs := DeviceGroups(c, ds[..n]);
      PlaceNonempty(c.device, LIMITS, gs, ds[n]);
      SinglesNonempty(Parts(c, ds[n]));
      SomePart(c, ds[n]);
    }
  }

  lemma PlaceNonempty<T>(cost: T -> nat, l: Limits, gs: seq<seq<T>>, x: T)
    requires forall g :: g in gs ==> g != []
    ensures Place(cost, l, gs, x) != [] && forall g :: g in Place(cost, l, gs, x) ==> g != []
  {
    hide Sum;
    var p := Place(cost, l, gs, x);
    forall k | 0 <= k < |p|
      ensures p[k] != []
    {
      if k < |gs| { assert gs[k] in gs; }
    }
  }

  lemma SinglesNonempty<T>(xs: seq<T>)
    ensures forall g :: g in Singles(xs) ==> g != []
  {
  }

  lemma SomePart(c: Costs, d: Device)
    ensures Parts(c, d) != []
  {
    hide FragmentGroups, Fragments;
  }
}
