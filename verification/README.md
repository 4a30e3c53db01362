# Collector and hub: a verified model

This project models the algorithms and state machines of an infrastructure-monitoring pair. EDR, the
collector, polls devices, queues packets on disk and pushes them to DCS, the hub. DCS stores them,
keeps a topology graph and forwards everything upstream to an Aggregator. What is proved here is the
part of that pair that is not I/O: graph search, byte decoding, packing, cursors, queues, breakers,
semaphores, work queues and caches.

`dafny verify dfyconfig.toml` checks the whole project.

## How it is laid out

| file | component |
|---|---|
| `Options`, `Sets` | absent values; cardinalities of finite sets |
| `Ids`, `Graphs`, `Forests`, `Hierarchy` | the spanning forest of the topology graph, its write-back as link labels, and the view that reads the labels |
| `Networks` | a cycle of the hierarchy runner: the networks of an organisation, one after another over one link table |
| `Bytes`, `Bacnet`, `BacnetRoundTrip` | the BACnet codec, a reference encoder, and the round trips |
| `Packing`, `Chunks`, `Posting`, `PostingLaws` | the forwarder's byte-budget packer and device fragmentation |
| `Hydration`, `Scopes` | fetching the devices of a cycle, and grouping rows into one payload per datacenter and floor |
| `Cursor` | the per-table, per-network cursor protocol |
| `Backoff` | the idle backoff of table queries |
| `Rollups` | the 5-minute, 1-hour and 1-day aggregates |
| `Slots`, `Breaker` | locks and semaphores of concurrent SNMP polls; the circuit breakers |
| `Queue`, `Publisher` | the on-disk queue and the senders that drain it |
| `Commands` | the device-command work queue |
| `Ports`, `Links` | link traps against the topology table |
| `Lru` | the lookup cache |

Loops and objects of the source are loops and classes here, each proved against a specification
function; what the source promises is then proved about those functions. Concurrent parts are
transition systems over single steps. One SQL statement is one step on a set of rows.

## What the proofs found

Where a promise does not hold of the code, the model follows the code, and the project proves exactly
when the promise holds.

* **Labels between networks** (`Networks.CycleReadBackIff`, `Hierarchy.AlwaysRecoversIff`). Links may join devices
  of two networks, and a row carries one label. Right after its own recomputation a network can be trusted, for
  every hint, exactly when no `downlink` row into it was left over from a source outside it
  (`Networks.StaleForeignRowMisleads`). Such rows go when the source's own network is recomputed, which may be
  later in the same cycle; but a later network may also relabel an earlier one's `uplink`
  (`Networks.LaterNetworkTakesParent`). After a whole cycle the view gives a device its forest parent exactly when
  no later network has the device as the parent of that parent, and no leftover from outside all networks comes
  before it. Only links that both ends report can be claimed in this way (`Networks.ClaimNeedsBothRows`).
* **Booleans** (`BacnetRoundTrip.RpmReads`, `BacnetRoundTrip.RpmRoundTripIff`, `BacnetRoundTrip.TrueSwallowsTheNext`,
  `BacnetRoundTrip.TrueHidesPresentValue`). A boolean's value stands in the length field of its tag (clause 20.2.3 of
  ANSI/ASHRAE 135). fwEDR/internal/bacnet/codec.go:358-359 reads it so, but line 486 skips that many octets: behind the
  value true the closing tag is jumped over, and everything up to the next value's closing tag is lost with it, even
  the head of the next object, whose results then carry the ids of the one before. An acknowledgement comes back
  whole exactly when no property stands behind a true.
* **Long bit strings** (`BacnetRoundTrip.RpmRoundTripIff`, `BacnetRoundTrip.CovRoundTripIff`,
  `BacnetRoundTrip.LongBitStringMisread`). A bit string with four or more flag octets uses an extended length form,
  and the decoder takes its flags from the wrong octet.
* **Frames** (`Bacnet.FrameRoundTripIff`, `Bacnet.ParseBvllPanicsIff`). Frames of 65536 bytes and more do
  not survive, and a declared length under four makes the parser slice out of range.
* **Routed frames** (`Bacnet.RoutedRoundTripIff`). Section 6.2.2 of ANSI/ASHRAE 135 puts the hop count behind both
  network addresses; fwEDR/internal/bacnet/codec.go:173 expects it behind the first. A frame that names both its
  destination and its source is therefore cut in the wrong place, unless one octet happens to equal another.
* **Lost rows** (`Cursor.RunsAccountForEveryRow`). fwDCS/internal/store/forward.go:3-5 says that no row is missed.
  Two kinds are, and no others. Rows that share the last timestamp of a full batch and are cut off by its limit
  (`Cursor.CutsOffIff`), and rows that arrive stamped at or below the cursor (`Cursor.ArriveKeeps`,
  `Cursor.LateRowIsMissed`): readings and events carry the collector's own stamp, which may be up to 24 hours old
  (fwDCS/internal/ingest/normalizer.go:18-25), so what a collector drains after an outage, behind others of its
  network, is not forwarded; updates carry the start of their transaction. With distinct timestamps exactly the late
  rows are missed (`Cursor.DistinctTimesMissOnlyLate`).
* **Unreadable cursors** (`Cursor.RewindsIff`). Any error while a cursor is read counts as "never pushed", so one failed
  query can move a cursor back to rows sent long ago. Nothing is lost by it; rows are sent again.
* **Socket cap** (`Slots.CapHoldsIff`, `Slots.ReconfiguringExceedsTheCap`, `Slots.CapOfOneStarves`). Reconfiguring
  replaces the semaphore, as fwEDR/internal/poller/poller.go:156 does after fwEDR/main.go:69. The new cap holds
  exactly when no poll then has or awaits a slot of an older semaphore; and a global cap of one leaves nothing
  for the heartbeat.
* **Breaker race** (`Breaker.RaceIsSerialIff`, `Breaker.OverlapEnds`, `Breaker.ReopensAfterThreshold`). A check and a
  failure whose operations interleave may end as no serial order of the two would, and this loses the failure's count,
  and the opening with it if the check zeroes the deadline last. After the cooldown a breaker is closed, not on
  probation.
* **Byte counter** (`Queue.SeedKeepsDistanceIff`). Over every run the counter keeps its distance to the stored bytes
  exactly when it was seeded at or above them.
* **Link traps.** A new row for a pair of devices that is down starts active (`Links.UpsertKeepsCommonIff`,
  `Links.NewRowRepeatsDown`). A rewired port keeps its old row, so a lookup by port need not be unique
  (`Links.PicksAgreeIff`, `Links.RewiredPortIsAmbiguous`). The raw ifIndex is a key after all when the
  interface name ends in it (`Ports.RawIndexIsKeyIff`). When the event of a transition cannot be written, the
  trap leaves no event at all (`Links.TopologyTable.HandleLinkTrap`).

## Model

| member | source | states |
|---|---|---|
| Graphs.BuildAdjacency | fwDCS/internal/store/hierarchy.go:80-102 | the adjacency is the symmetric closure of the edge rows, without empty ids and self loops |
| Ids.SortIds | fwDCS/internal/store/hierarchy.go:105-112 | the ids in strictly ascending order, none lost and none added |
| Ids.LessIff | fwDCS/internal/store/hierarchy.go:63-63 | ids compare at the first place where they differ, a proper prefix first |
| Forests.Expand | fwDCS/internal/store/hierarchy.go:126-134 | one dequeued node's unvisited neighbours join the search in id order, and what makes it a breadth-first search is kept |
| Forests.Bfs | fwDCS/internal/store/hierarchy.go:119-135 | a search ends; it reaches the whole component of its root, each node with a parent one level up, and leaves other trees alone |
| Forests.SearchIsTree | fwDCS/internal/store/hierarchy.go:119-135 | the search as a function of graph, earlier parents and root: a breadth-first tree of the whole component |
| Forests.HighestDegreeUnvisited | fwDCS/internal/store/hierarchy.go:209-221 | the unvisited id of greatest degree, the least id on ties, the empty id when all are visited |
| Forests.SpanningForest | fwDCS/internal/store/hierarchy.go:137-152 | a certified forest over the tenant whose first root is the hint or the best device, each later root the best of all devices no earlier tree reached, and whose paths from the roots are the least of all shortest walks |
| Forests.GrowRest | fwDCS/internal/store/hierarchy.go:144-152 | the loop over the remaining components ends with every tenant device visited, and keeps the forest and the order of its roots |
| Forests.GrownOrder | fwDCS/internal/store/hierarchy.go:137-152 | adding a tree keeps every root the best of the devices that were unvisited when it was chosen |
| Forests.ForestOfOk | fwDCS/internal/store/hierarchy.go:119-152 | what the two loops compute is a breadth-first forest covering the tenant, with its roots in order of preference and a hint first |
| Forests.ParentsAreShortestPaths | fwDCS/internal/store/hierarchy.go:119-152 | following parents reaches the root, never repeats a node, and takes exactly the graph distance in hops |
| Forests.ForestIsLeast | fwDCS/internal/store/hierarchy.go:104-135 | from its root down to every device the forest takes, among all shortest walks, the one that comes first in id order: this fixes the parents of mesh nodes |
| Forests.SameRootIffConnected | fwDCS/internal/store/hierarchy.go:144-152 | two devices share a root exactly when a path of links joins them |
| Forests.OneRootPerComponent | fwDCS/internal/store/hierarchy.go:144-152 | each component has exactly one parentless node, its root |
| Forests.TreeEdgeCount | fwDCS/internal/store/hierarchy.go:119-152 | tree edges number visited nodes minus connected components |
| Hierarchy.ResolveRoot | fwDCS/internal/store/hierarchy.go:40-55 | the first device in query order whose hostname or one of whose addresses is the trimmed hint |
| Hierarchy.TrimmedIsCut | fwDCS/internal/store/hierarchy.go:40-40 | trimming the hint takes the white space off both its ends, all of it and nothing else |
| Hierarchy.StripMask | fwDCS/internal/store/hierarchy.go:224-232 | an address compares without its mask: the text before the first slash |
| Hierarchy.HintMatchesIff | fwDCS/internal/store/hierarchy.go:40-57 | the hint names a device by its hostname or by a stored address, with or without a mask |
| Hierarchy.IpMatchIff | fwDCS/internal/store/hierarchy.go:223-232 | a stored address matches exactly when it is the hint, or the hint and a mask |
| Hierarchy.Flatten | fwDCS/internal/store/hierarchy.go:158-165 | the two arrays pair exactly the tenant devices with a parent and those parents |
| Hierarchy.PlanTree | fwDCS/internal/store/hierarchy.go:115-165 | the forest of graph, tenant and resolved hint, with a certificate, its primary root, and its tree edges as arrays |
| Hierarchy.LabelsFollowParents | fwDCS/internal/store/hierarchy.go:167-202 | after the three statements a tenant row is uplink iff it points at the parent, downlink iff it points at a child, peer otherwise |
| Hierarchy.TopologyStore.RecomputeHierarchy | fwDCS/internal/store/hierarchy.go:23-205 | end to end: the links are labelled by the certified forest of the tenant's graph, whose paths are the least of all shortest walks, and the result names the primary root and the device count; when a statement fails, foreign rows are as they were |
| Hierarchy.NextRunRepairs | fwDCS/internal/store/hierarchy.go:167-203 | a run after one that failed part-way labels the table as if there had been no failure |
| Hierarchy.NoMutualParents | fwDCS/internal/store/hierarchy.go:180-202 | no two devices are each other's parent, so no row is both uplink and downlink |
| Hierarchy.CandidatesAfterWriteBack | fwDCS/migrations/003_device_role.sql:76-83 | the parents the view may choose from are the forest parent and the sources of stale foreign downlinks, no others |
| Hierarchy.ReadBackIff | fwDCS/migrations/003_device_role.sql:76-86 | for one forest and one device: right after the write-back the view gives the forest parent exactly when every stale foreign row into the device is harmless |
| Hierarchy.AlwaysRecoversIff | fwDCS/migrations/003_device_role.sql:76-86 | whatever the hint, right after the tenant's own write-back the view reads the whole forest back exactly when no tenant device has a stale foreign downlink |
| Networks.ForeignTurn | fwDCS/internal/store/hierarchy.go:170-202 | what another network's recomputation does to the labels around a device: its downlinks from that network go, and so do the uplinks that network claims back |
| Networks.CandidatesAfterCycle | fwDCS/main.go:221-229 | after all networks were recomputed the view may choose, for a device, its forest parent unless a later network claimed the device back, and stale sources outside all networks |
| Networks.CycleReadBackIff | fwDCS/main.go:221-229 | after a whole cycle the view gives a device its forest parent exactly when no later network has the device as the parent of that parent, and no stale source outside all networks sorts before it |
| Networks.ClaimNeedsBothRows | fwDCS/internal/store/timescale.go:988-994 | a device can lose its parent to a later network only over a link between the two that both ends report |
| Networks.LaterNetworkTakesParent | fwDCS/internal/store/hierarchy.go:194-202 | two networks and four links, none labelled, after which a device of the first has no parent in the view |
| Networks.StaleForeignRowMisleads | fwDCS/internal/store/hierarchy.go:170-202 | two runs over one network, with a link added between them, after which the view names a foreign device that is no longer the parent |
| Bacnet.BitLen | fwEDR/internal/bacnet/codec.go:114-121 | the shifting loop computes the bit length |
| Bacnet.BitLengthIsLeast | fwEDR/internal/bacnet/codec.go:114-121 | the bit length is the least k with v below 2^k |
| Bacnet.ByteLenByRange | fwEDR/internal/bacnet/codec.go:58-61 | how many octets an integer is encoded in, by its range |
| Bacnet.BuiltFrame | fwEDR/internal/bacnet/codec.go:125-140 | a built frame carries its length, whether an answer is expected, whether it is a broadcast, and the APDU |
| Bacnet.FrameRoundTripIff | fwEDR/internal/bacnet/codec.go:125-186 | unwrapping a built frame returns the APDU exactly when the frame length fits 16 bits |
| Bacnet.ForwardedRoundTripIff | fwEDR/internal/bacnet/codec.go:142-157 | a forwarded frame gives its content back exactly when its length fits 16 bits |
| Bacnet.RoutedRoundTripIff | fwEDR/internal/bacnet/codec.go:159-186 | a routed frame gives its content back exactly when it does not name both ends, or the octet behind the source's length equals that length |
| Bacnet.RejectedFrames | fwEDR/internal/bacnet/codec.go:142-186 | another type or version, too large a declared length, and network messages are refused |
| Bacnet.ParseBvllPanicsIff | fwEDR/internal/bacnet/codec.go:142-157 | the frame parser slices out of range exactly on non-forwarded frames that declare under four bytes |
| Bacnet.ReadTagHdr | fwEDR/internal/bacnet/codec.go:294-344 | a parsed header ends in bounds and past its start; opening and closing tags are context tags without content |
| Bacnet.ExtendedTagReads | fwEDR/internal/bacnet/codec.go:294-344 | a header whose tag number has an octet of its own reads as a short one with that number, one octet later |
| Bacnet.DecodeAppValue | fwEDR/internal/bacnet/codec.go:349-384 | total on every input and equal to the specification the round trips use |
| Bacnet.SkipToClose | fwEDR/internal/bacnet/codec.go:473-489 | the skipping loop ends on every input, where the recursive specification does |
| Bacnet.RpmStep | fwEDR/internal/bacnet/codec.go:424-467 | each pass of the inner loop advances or is at the end of the data |
| Bacnet.DecodeResult | fwEDR/internal/bacnet/codec.go:425-466 | one pass of the inner loop, with its id fold and body skip, stays in bounds and equals its specification |
| Bacnet.DecodeList | fwEDR/internal/bacnet/codec.go:424-467 | the inner loop ends and appends exactly the results of the list |
| Bacnet.DecodeReadPropertyMultipleAck | fwEDR/internal/bacnet/codec.go:400-470 | the nested loops end and stay in bounds on every byte sequence, and compute the specification |
| Bacnet.DecodeReadPropertyAck | fwEDR/internal/bacnet/codec.go:493-515 | the scan for the value ends and stays in bounds on every byte sequence |
| Bacnet.CovStep | fwEDR/internal/bacnet/codec.go:583-620 | each pass of the notification loop advances or is at the end of the data |
| Bacnet.DecodeCovNotification | fwEDR/internal/bacnet/codec.go:540-622 | the notification decoder ends and stays in bounds on every byte sequence |
| BacnetRoundTrip.RpmReads | fwEDR/internal/bacnet/codec.go:395-489 | what any encoded acknowledgement decodes to, the properties and object heads swallowed behind a value true included |
| BacnetRoundTrip.RpmRoundTripIff | fwEDR/internal/bacnet/codec.go:395-489 | decoding an encoded acknowledgement returns every object, property, order and error flag exactly when no property stands behind a value true, and every value too exactly when, besides, no long bit string is misread |
| BacnetRoundTrip.TrueSwallowsTheNext | fwEDR/internal/bacnet/codec.go:473-489 | two objects of which the second one's first value is lost behind a true, and its second value is reported of the first object |
| BacnetRoundTrip.LongBitStringMisread | fwEDR/internal/bacnet/codec.go:374-381 | a four-octet bit string whose first flag is set reads as no flag set |
| BacnetRoundTrip.ReadPropertyRoundTripIff | fwEDR/internal/bacnet/codec.go:493-515 | a ReadProperty acknowledgement decodes to its value exactly when that value is read faithfully |
| BacnetRoundTrip.CovReads | fwEDR/internal/bacnet/codec.go:540-622 | what any encoded notification decodes to: its device, object and the last present value that is not right behind a true |
| BacnetRoundTrip.CovRoundTripIff | fwEDR/internal/bacnet/codec.go:540-622 | a notification decodes to its device, object and last present value exactly when the last present value seen reads as that one, which without a true before another entry is exactly when it is read faithfully; and to nothing without one |
| BacnetRoundTrip.TrueHidesPresentValue | fwEDR/internal/bacnet/codec.go:586-620 | a notification whose present value stands behind a true decodes to nothing |
| BacnetRoundTrip.CtxOidReads | fwEDR/internal/bacnet/codec.go:103-109 | an encoded object id reads back as the same type and instance wherever it stands |
| BacnetRoundTrip.CtxUintReads | fwEDR/internal/bacnet/codec.go:90-101 | an encoded unsigned reads back as its number wherever it stands |
| Packing.PackIsGreedy | fwDCS/internal/forwarder/forwarder.go:1042-1049 | packing keeps every item in order, and a group ends only where the next item would not have fit |
| Packing.PackIsMinimal | fwDCS/internal/forwarder/forwarder.go:1042-1049 | no order-preserving split that obeys the budget rule has fewer groups |
| Chunks.SplitDevice | fwDCS/internal/forwarder/forwarder.go:1081-1118 | the two loops produce the greedy groups of the device's metrics then energy readings, the first with the device's identity and interfaces |
| Posting.LastTailFull | fwDCS/internal/forwarder/forwarder.go:1134-1148 | full exactly when the last chunk holds devices or the next item would overflow a non-empty tail |
| Posting.PackDevices | fwDCS/internal/forwarder/forwarder.go:1018-1052 | the device loop posts exactly the greedy groups of each run of normal devices, and each fragment of an oversized one by itself |
| Posting.PackTail | fwDCS/internal/forwarder/forwarder.go:1054-1069 | links, then events, go in greedy tail groups after all device chunks |
| Posting.ChunkPayload | fwDCS/internal/forwarder/forwarder.go:1001-1072 | the whole chunker computes the posts the laws below are about |
| PostingLaws.DevicePostBound | fwDCS/internal/forwarder/forwarder.go:992-1052 | a chunk of two or more devices fits the budget; a lone unfragmented device exceeds it by the envelope at most |
| PostingLaws.FragmentBound | fwDCS/internal/forwarder/forwarder.go:1074-1118 | a fragment of two or more readings fits its budget, identity included |
| PostingLaws.TailPostBound | fwDCS/internal/forwarder/forwarder.go:1054-1069 | a tail chunk of two or more items fits the budget |
| PostingLaws.FewestDevicePosts | fwDCS/internal/forwarder/forwarder.go:1018-1052 | no legal plan for the same devices in the same order uses fewer device posts |
| PostingLaws.FewestTailPosts | fwDCS/internal/forwarder/forwarder.go:1054-1069 | no legal split of the links and events uses fewer tail posts |
| PostingLaws.RejoinParts | fwDCS/internal/forwarder/forwarder.go:1081-1118 | the fragments of a device, rejoined, are that device |
| PostingLaws.PostedDeviceRepeats | fwDCS/internal/forwarder/forwarder.go:1070-1110 | every device in a post, whole or fragment, has the id, hostname, type and reachability of a device of the payload, and all or none of its other columns |
| PostingLaws.SmallDeviceIsWhole | fwDCS/internal/forwarder/forwarder.go:1018-1038 | a device of at most 512 KiB is never fragmented |
| PostingLaws.PostsConserve | fwDCS/internal/forwarder/forwarder.go:1001-1118 | reading the posts in order and rejoining fragments gives back exactly the payload's devices, links and events |
| PostingLaws.DevicesFirst | fwDCS/internal/forwarder/forwarder.go:1001-1072 | no post mixes devices with links or events, device posts come first, and all carry the scope |
| PostingLaws.EndpointsGoFirst | fwDCS/internal/forwarder/forwarder.go:1054-1061 | a link's endpoint devices sit in earlier posts |
| PostingLaws.MetricsBeforeEnergy | fwDCS/internal/forwarder/forwarder.go:1100-1117 | a device's metrics go before its energy readings, across fragments too |
| PostingLaws.LinksBeforeEvents | fwDCS/internal/forwarder/forwarder.go:1053-1066 | links go before events, across posts too |
| Hydration.GroupByDevice | fwDCS/internal/forwarder/forwarder.go:497-504 | each device with a reading has exactly its readings, in the order they were queried |
| Hydration.ReadingsInOrder | fwDCS/internal/forwarder/forwarder.go:497-504 | a device's readings come in the order of the rows, each row giving its own reading or none |
| Hydration.Hydrate | fwDCS/internal/forwarder/forwarder.go:506-574 | the loops and lookups that collect the devices of a cycle compute their specification, and there is nothing to push exactly when they find no device, link or event |
| Hydration.HydratedLaws | fwDCS/internal/forwarder/forwarder.go:506-574 | no device comes twice, the changed ones come first, and the rest are exactly those with readings and those at a link's end that the lookups find |
| Hydration.ReadingsArePosted | fwDCS/internal/forwarder/forwarder.go:496-611 | a changed device, or one with readings that the lookup finds, is posted in its scope with every metric and energy reading queried for it |
| Scopes.OrDefault | fwDCS/internal/forwarder/forwarder.go:742-760 | no row is shipped with an empty scope key |
| Scopes.BuildHostScope | fwDCS/internal/forwarder/forwarder.go:780-783 | a hostname resolves to the scope of the last device that carries it |
| Scopes.AddDevices | fwDCS/internal/forwarder/forwarder.go:804-908 | the device loop leaves each scope with exactly its own devices and their readings, in input order |
| Scopes.AddLinks | fwDCS/internal/forwarder/forwarder.go:915-944 | the link loop adds exactly the links whose two hostnames resolve to the scope, in order |
| Scopes.AddEvents | fwDCS/internal/forwarder/forwarder.go:953-976 | the event loop adds exactly the scope's events, opening scopes that hold no device |
| Scopes.BuildPayloads | fwDCS/internal/forwarder/forwarder.go:766-983 | the payloads are exactly the grouping of devices, links and events by scope |
| Scopes.HostKeyIsLast | fwDCS/internal/forwarder/forwarder.go:780-783 | a hostname on several rows resolves to the scope of the last |
| Scopes.DevicesInOrder | fwDCS/internal/forwarder/forwarder.go:804-908 | a scope's devices come in the order of the rows, each row giving its own device or none |
| Scopes.LinksInOrder | fwDCS/internal/forwarder/forwarder.go:915-944 | a scope's links come in the order of the rows |
| Scopes.EventsInOrder | fwDCS/internal/forwarder/forwarder.go:953-976 | a scope's events come in the order of the rows |
| Scopes.EveryDeviceOnce | fwDCS/internal/forwarder/forwarder.go:804-908 | every device, with its readings, lands in exactly one scope |
| Scopes.EveryEventOnce | fwDCS/internal/forwarder/forwarder.go:953-976 | every event lands in exactly one scope |
| Scopes.LinkLandsIff | fwDCS/internal/forwarder/forwarder.go:915-927 | a link lands in a scope iff both hostnames resolve to it |
| Scopes.PostedLinkEndpoints | fwDCS/internal/forwarder/forwarder.go:616-626 | from rows to posts: when a link is posted, devices with both its hostnames were posted before it in its scope |
| Scopes.DeviceIsPosted | fwDCS/internal/forwarder/forwarder.go:605-611 | every device of a cycle is in the posts of its scope, with all the readings queried for it |
| Scopes.EventIsPosted | fwDCS/internal/forwarder/forwarder.go:605-611 | every event of a cycle is in the posts of its scope |
| Scopes.PostIds | fwDCS/internal/forwarder/forwarder.go:784-801 | every post carries the organisation, network and group it was built for |
| Scopes.DeviceScope | fwDCS/internal/forwarder/forwarder.go:780-906 | a device in a post is that of a row, and the post's datacenter and floor are the row's, else the configured ones, else "unknown" |
| Scopes.EventScope | fwDCS/internal/forwarder/forwarder.go:949-976 | an event in a post is that of a row, and the post's datacenter and floor are the row's, else the configured ones, else "unknown" |
| Scopes.LinkIsPostedIff | fwDCS/internal/forwarder/forwarder.go:910-920 | some post carries a link exactly when its two hostnames resolve to one scope; these are the links the cursor protocol does not count as skipped |
| Cursor.CursorTable.GetForwarderCursor | fwDCS/internal/store/forward.go:569-581 | a cursor that is absent, or whose query fails, reads as the zero time |
| Cursor.CursorTable.SetForwarderCursor | fwDCS/internal/store/forward.go:585-595 | the upsert changes one cursor, or none when the write fails |
| Cursor.CursorTable.AdvanceCursors | fwDCS/internal/forwarder/forwarder.go:662-726 | after a cycle exactly the polled non-empty tables move, each to its batch's last timestamp, and only if no post failed |
| Cursor.CycleMovesCursors | fwDCS/internal/forwarder/forwarder.go:711-726 | the state machine's cursors are those the method writes |
| Cursor.FreshIsAccounted | fwDCS/internal/store/forward.go:566-568 | a table whose rows are all above its cursor starts the run with nothing missed |
| Cursor.ArriveKeeps | fwDCS/internal/store/forward.go:342-362 | a row is missed from the start exactly when it arrives stamped at or below the cursor, and the account of missed rows stays exact |
| Cursor.RunsAccountForEveryRow | fwDCS/internal/forwarder/forwarder.go:627-726 | over every run, with arrivals of any timestamp and any failed posts and failed cursor reads and writes, the rows at or below a cursor that were neither delivered nor skipped are exactly those a limit cut off at a batch's last timestamp and those that arrived late |
| Cursor.OnlyLinksAreSkipped | fwDCS/internal/forwarder/forwarder.go:910-920 | nothing but links left out as cross-scope ever counts as skipped |
| Cursor.CursorsOnlyAdvance | fwDCS/internal/forwarder/forwarder.go:711-726 | a cursor that is read never moves back, and any stays put after a failed cycle |
| Cursor.RewindsIff | fwDCS/internal/store/forward.go:574-579 | after a failed read a successful cycle moves the cursor back exactly when the limit fills up behind it or nothing newer exists |
| Cursor.MissedForGood | fwDCS/internal/store/forward.go:186-198 | over every run in which the cursor can be read, a missed row is not delivered while it exists |
| Cursor.DistinctTimesMissOnlyLate | fwDCS/internal/store/forward.go:342-362 | with distinct timestamps a run misses exactly the rows that arrived late |
| Cursor.CutsOffIff | fwDCS/internal/store/forward.go:342-362 | a query leaves tied rows behind at its last timestamp exactly when the limit falls inside a tie: fewer rows than the limit due before some instant, more by it |
| Cursor.TiedRowIsMissed | fwDCS/internal/store/forward.go:342-362 | two tied rows and a limit of one: the second is missed |
| Cursor.LateRowIsMissed | fwDCS/internal/ingest/normalizer.go:18-25 | a row stamped before the cursor is missed, with no tie and no limit in sight |
| Cursor.CycleDrains | fwDCS/internal/forwarder/forwarder.go:711-726 | a successful cycle over distinct timestamps takes exactly a batch off the pending rows |
| Cursor.CyclesDrain | fwDCS/internal/forwarder/forwarder.go:711-726 | a backlog of n rows with distinct timestamps takes n/limit successful cycles, rounded up: by then every row of it was delivered or skipped, and before that exactly the rest is pending |
| Backoff.PollGates.ShouldPoll | fwDCS/internal/forwarder/forwarder.go:227-242 | refuses exactly while the gate has skips left, consuming one, and touches no other gate |
| Backoff.PollGates.RecordPoll | fwDCS/internal/forwarder/forwarder.go:247-267 | sets the gate from one result and touches no other gate |
| Backoff.PollGates.VisitTable | fwDCS/internal/forwarder/forwarder.go:446-454 | a forced cycle bypasses the gate and still records; a failing query records nothing |
| Backoff.GateIsStreak | fwDCS/internal/forwarder/forwarder.go:225-267 | over every run a gate holds the streak of empty results and what is left of the window it earned |
| Backoff.TickRefusedIff | fwDCS/internal/forwarder/forwarder.go:227-242 | a tick is refused exactly while fewer than min(streak, cap) were refused since the last result |
| Backoff.FewRefusedInARow | fwDCS/internal/forwarder/forwarder.go:227-242 | at most the cap of ticks is refused between two queries, none when the backoff is off |
| Backoff.WindowAfterEmptyPoll | fwDCS/internal/forwarder/forwarder.go:257-266 | after the m-th empty poll in a row exactly min(m, cap) ticks are refused and the next one queries |
| Backoff.IdleWindow | fwDCS/internal/forwarder/forwarder.go:287-298 | the widest gap between queries fits the idle interval, and one more tick would not |
| Backoff.NoSkipsIff | fwDCS/internal/forwarder/forwarder.go:291-298 | the backoff is off exactly when the idle interval is under two ticks |
| Backoff.OffGateRests | fwDCS/internal/forwarder/forwarder.go:223-250 | with the backoff off no gate ever moves |
| Backoff.GatesAreIndependent | fwDCS/internal/forwarder/forwarder.go:231-235 | each (table, network) gate runs on its own visits alone |
| Backoff.KeysDiffer | fwDCS/internal/forwarder/forwarder.go:231-231 | two (table, network) pairs never share a gate key |
| Rollups.BucketsNest | fwDCS/migrations/010_metric_rollups.sql:70-70 | bucketing at the narrower width first gives the same wider bucket, before the epoch too |
| Rollups.BucketHolds | fwDCS/migrations/010_metric_rollups.sql:45-45 | a bucket starts at a multiple of the width and holds the times up to the next one |
| Rollups.GroupSums | fwDCS/migrations/010_metric_rollups.sql:74-78 | weighted sums and counts over lower rows are sums and counts over the samples behind them |
| Rollups.CombinedIsAggregate | fwDCS/migrations/010_metric_rollups.sql:67-81 | one upper row is the direct aggregate of its raw samples in every column |
| Rollups.RollupIsDirect | fwDCS/migrations/010_metric_rollups.sql:92-106 | rolling up a tier gives the tier that aggregates the raw rows at the wider width |
| Rollups.TierUnique | fwDCS/migrations/010_metric_rollups.sql:42-56 | with distinct timestamps per group one tier, and only one, aggregates the rows |
| Rollups.TierExists | fwDCS/migrations/010_metric_rollups.sql:42-56 | every set of rows has a tier at every width |
| Rollups.TiersEqualDirect | fwDCS/migrations/010_metric_rollups.sql:42-106 | the 1-hour and 1-day tiers equal direct aggregation: groups, counts, minima, maxima, exact averages, last values |
| Rollups.TierRowHolds | fwDCS/migrations/010_metric_rollups.sql:42-56 | a tier has one row for each key and bucket with a sample, and the row aggregates exactly the samples of its key in the bucket |
| Rollups.ViewRowsHold | fwDCS/migrations/010_metric_rollups.sql:42-106 | in the three views a row aggregates exactly the samples of its key in its five minutes, hour or day |
| Rollups.RollupIff | fwDCS/migrations/010_metric_rollups.sql:67-106 | with distinct timestamps the rollups of a tier are exactly the tiers of the raw rows at the wider width |
| Rollups.ViewsExist | fwDCS/migrations/010_metric_rollups.sql:42-106 | over any rows with distinct timestamps the three views exist together |
| Rollups.TiesLeaveLastOpen | fwDCS/migrations/010_metric_rollups.sql:52-52 | samples tied at the newest time leave the last value open |
| Slots.EffCap | fwEDR/internal/poller/poller.go:102-118 | the global cap is the configured one, 50 by default, or twice the shards if that is less and there are several; at least two unless configured to one |
| Slots.HeavyCap | fwEDR/internal/poller/poller.go:119-124 | the heavy cap is one below the global cap, but at least one; below it exactly when that is two or more |
| Slots.ConfigureInstalls | fwEDR/internal/snmp/limit.go:18-25 | reconfiguring installs an empty semaphore of the cap asked for, at least one, and leaves the older ones and the polls alone |
| Slots.StepKeepsInv | fwEDR/internal/poller/poller.go:584-611 | every step of every poll keeps each semaphore's count equal to its holders and within its cap |
| Slots.CapsHold | fwEDR/internal/snmp/limit.go:18-39 | in every interleaving of any polls: socket holders within each semaphore's cap, heavy holders within theirs, one poll per session |
| Slots.HeartbeatHasASlot | fwEDR/internal/poller/poller.go:119-124 | configured while no poll has or awaits a socket and not again since, sockets stay within the cap and heavy polls alone never fill it when it is two or more |
| Slots.CapHoldsIff | fwEDR/internal/snmp/limit.go:18-39 | until the next reconfiguration sockets in use never exceed the cap configured last, exactly when no poll waits for or holds a slot of an earlier semaphore |
| Slots.CapOfOneStarves | fwEDR/internal/poller/poller.go:119-124 | with a cap of one a heavy poll reaches a state where it holds the only slot |
| Slots.ReconfiguringExceedsTheCap | fwEDR/internal/snmp/limit.go:18-25 | a run on which two sockets are out under a cap of one |
| Slots.NeverDeadlocked | fwEDR/internal/poller/poller.go:584-611 | unless every poll is done, some poll can move |
| Slots.ProgressRunsEnd | fwEDR/internal/poller/poller.go:584-611 | a run of progress steps takes at most six per poll |
| Slots.AllPollsComplete | fwEDR/internal/poller/poller.go:584-611 | when polls move and none can move any more, all are done |
| Breaker.CircuitBreaker.Tripped | fwEDR/internal/poller/poller.go:817-829 | whether the breaker refuses, and the closing of an elapsed one by whoever asks |
| Breaker.CircuitBreaker.RecordFailure | fwEDR/internal/poller/poller.go:834-842 | the new fields, and whether this failure is reported as an opening |
| Breaker.Breakers.GetBreaker | fwEDR/internal/poller/poller.go:853-874 | the same breaker every time for a target and class; heartbeat and heavy breakers are never one object |
| Breaker.FieldsAreStreak | fwEDR/internal/poller/poller.go:810-847 | over every run the fields hold the streak of failures and the cooldown from its latest |
| Breaker.RefusedIff | fwEDR/internal/poller/poller.go:817-829 | a poll is refused exactly when a threshold of failures in a row has its latest within the cooldown |
| Breaker.ReportedOnce | fwEDR/internal/poller/poller.go:831-842 | an opening is reported by exactly the failure that reaches the threshold |
| Breaker.ReopensAfterThreshold | fwEDR/internal/poller/poller.go:825-828 | after the cooldown it takes a whole new threshold of failures to refuse polls |
| Breaker.RaceIsSerialIff | fwEDR/internal/poller/poller.go:817-842 | every interleaving of the atomic operations of a check and a failure leaves behind and returns what a serial order does, exactly when the calls did not overlap, or the store came before the check's zeroes and its cooldown is over too |
| Breaker.OverlapEnds | fwEDR/internal/poller/poller.go:817-842 | an overlap leaves a failure count of zero, and the breaker open exactly when the store came after the check zeroed the deadline |
| Breaker.RaceLosesOpening | fwEDR/internal/poller/poller.go:817-842 | an interleaving that ends with the breaker closed, where failing first always and, with a threshold of one, failing last leaves it open |
| Queue.KeyOrderIsSequenceOrder | fwEDR/internal/queue/queue.go:133-135 | big-endian keys sort as the sequence numbers they spell |
| Queue.PersistentQueue.constructor | fwEDR/internal/queue/queue.go:46-78 | the cap's default and the counter's seed |
| Queue.PersistentQueue.PushBatch | fwEDR/internal/queue/queue.go:88-147 | the marshalling loop and the transaction compute the batch push, counter included |
| Queue.PersistentQueue.PopBatch | fwEDR/internal/queue/queue.go:165-217 | the cursor loop pops the oldest entries and decodes them, counter included; what callers get is the subject of the rows below |
| Queue.FailedBatchChangesNothing | fwEDR/internal/queue/queue.go:110-147 | a batch that reports an error leaves bucket, sequence and counter as they were |
| Queue.FirstEvictable | fwEDR/internal/queue/queue.go:235-251 | the entry evicted is the oldest one that reads as neither critical nor major |
| Queue.RefusedIff | fwEDR/internal/queue/queue.go:118-128 | an item is refused exactly at the cap, when unprotected or when nothing can be evicted |
| Queue.PacketRefusedIff | fwEDR/internal/queue/queue.go:110-141 | a packet is refused exactly at the cap, when it is neither critical nor major or nothing queued reads as less |
| Queue.PushOneLaws | fwEDR/internal/queue/queue.go:117-139 | an accepted item moves the counter with the stored bytes, and at the cap leaves the entry count as it was |
| Queue.PushOneKeepsFifo | fwEDR/internal/queue/queue.go:117-139 | an accepted item keeps the queue the stored stream minus evictions and pops |
| Queue.PushAllLaws | fwEDR/internal/queue/queue.go:115-141 | so does a whole batch, and it never disturbs what was popped |
| Queue.StoredIsAppended | fwEDR/internal/queue/queue.go:129-138 | an accepted batch stores its payloads in order under the next sequence numbers |
| Queue.OpenedIsFifo | fwEDR/internal/queue/queue.go:69-77 | a queue just opened has stored what it holds, so the laws over runs apply to it |
| Queue.PopLaws | fwEDR/internal/queue/queue.go:165-217 | a pop takes exactly the oldest entries, as many as asked for or as there are, and reports empty exactly on an empty queue |
| Queue.QueueRunLaws | fwEDR/internal/queue/queue.go:88-217 | for any mix of pushes and pops the popped entries and the queue are the stored stream minus evictions, and the counter keeps its distance to the stored bytes |
| Queue.PacketsComeOutInOrder | fwEDR/internal/queue/queue.go:88-217 | for any mix of pushes and pops the packets returned, then those still queued, are the packets of the accepted batches in push order, minus the evicted ones |
| Queue.DecodesEachEntry | fwEDR/internal/queue/queue.go:207-216 | an entry that does not decode drops itself and nothing else |
| Queue.MarshalledAre | fwEDR/internal/queue/queue.go:102-108 | a batch marshals exactly when each packet does, item by item and with its own severity |
| Queue.SeedKeepsDistanceIff | fwEDR/internal/queue/queue.go:69-76 | over every run the counter keeps its distance to the stored bytes exactly when it was seeded at or above them |
| Queue.LowSeedDrifts | fwEDR/internal/queue/queue.go:203-205 | seeded below the stored bytes, emptying the queue changes the counter's distance |
| Publisher.HealthRecorder.RecordResult | fwEDR/internal/publisher/publisher.go:88-109 | the streak and the gate after a result; nothing without a gate |
| Publisher.RecordKeepsGate | fwEDR/internal/publisher/publisher.go:88-109 | the gate stays down exactly when the streak has reached the threshold |
| Publisher.HealthIsStreak | fwEDR/internal/publisher/publisher.go:88-109 | over every sequence of results the streak is the number of failures since the last success, and the gate is down exactly when the last `downAfter` results all failed |
| Publisher.StepKeepsInv | fwEDR/internal/publisher/publisher.go:196-282 | every step of the drain loop, the senders and the probe keeps conservation, the slot bound and the gate rule |
| Publisher.LedgerMoves | fwEDR/internal/publisher/publisher.go:258-282 | packets count as accepted when their call returns, and as put back or lost by whether the push reports success |
| Publisher.DeliveryAccounts | fwEDR/internal/publisher/publisher.go:196-282 | in every interleaving each popped packet is held, in flight, accepted, put back or lost to a refused put-back, exactly once; sends never exceed MaxInFlight; the gate is down exactly when the last `downAfter` sends and probes all failed |
| Publisher.PausedDrainPopsNothing | fwEDR/internal/publisher/publisher.go:209-222 | while the gate is down no batch is popped, but for one whose check came before |
| Publisher.PutBackIsStored | fwEDR/internal/publisher/publisher.go:267-275 | a put-back that succeeds stores every packet's payload, in order, behind what was stored |
| Commands.CommandTable.InsertCommands | fwDCS/internal/store/commands.go:36-67 | the batch upsert over the edits that name a device and a field, and how many it wrote |
| Commands.CommandTable.PendingCommands | fwDCS/internal/store/commands.go:70-97 | the oldest pending ids up to the limit, 100 when none is given |
| Commands.CommandTable.MarkCommand | fwDCS/internal/store/commands.go:103-133 | other rows are untouched; an applied row is done; a failed one has one more try, and is failed exactly at its fifth |
| Commands.EditLands | fwDCS/internal/store/commands.go:36-52 | after an edit that names a device and a field one row is pending for them, new or overwritten, with its value; other rows are untouched, and other edits change nothing |
| Commands.QueuedCounts | fwDCS/internal/store/commands.go:42-45 | each edit that names a device and a field is queued and counted once |
| Commands.PullTakesTheOldest | fwDCS/internal/store/commands.go:74-80 | a pull takes the oldest pending commands in order, as many as the limit allows |
| Commands.StepKeepsInv | fwDCS/migrations/008_device_commands.sql:34-36 | every edit, pull and acknowledgement, edits in between included, keeps one pending row per device and field, at most four tries on it, and the puller's ids pending |
| Commands.TerminalRowsStay | fwDCS/internal/store/commands.go:103-133 | an applied or failed row never changes again |
| Commands.RunKeepsInv | fwDCS/internal/store/commands.go:36-133 | both over every run |
| Commands.TickOnce | fwEDR/internal/command/loop.go:73-113 | pull, apply and acknowledge in turn tries each of the oldest pending commands exactly once |
| Commands.MarkEachIsTick | fwEDR/internal/command/loop.go:83-108 | acknowledging one id after another equals one tick on the table |
| Commands.FiveTicksTakeTheHead | fwDCS/internal/store/commands.go:119-133 | five ticks finish the oldest batch, whatever succeeds and fails |
| Commands.QueueDrains | fwDCS/internal/store/commands.go:70-133 | five ticks per round drain a limit of commands per round |
| Commands.DrainTime | fwDCS/internal/store/commands.go:70-133 | with no new edits n pending rows are gone after five times n/limit ticks, rounded up |
| Commands.FourTicksMayNotDrain | fwDCS/internal/store/commands.go:131-133 | four ticks do not always suffice |
| Ports.FindTrailingDigits | fwDCS/internal/store/timescale.go:844-850 | the backwards loop finds the trailing digits |
| Ports.TrailingDigitsIff | fwDCS/internal/store/timescale.go:841-850 | the result is the longest suffix of digits |
| Ports.PortCandidates | fwDCS/internal/store/timescale.go:825-839 | the name's number, then ifIndex-1, without empty or repeated keys |
| Ports.KeysInOrder | fwDCS/internal/store/timescale.go:821-839 | the name's number comes first, then ifIndex-1 unless that is the same |
| Ports.OnlyKeyIff | fwDCS/internal/store/timescale.go:821-839 | ifIndex p+1 gives p as the only key exactly when the name has no number or ends in p |
| Ports.NameGivesPort | fwDCS/internal/store/timescale.go:821-839 | so for an empty name, and for a prefix without a final digit followed by p |
| Ports.RawIndexIsKeyIff | fwDCS/internal/store/timescale.go:823-824 | the raw ifIndex is a key exactly when the name ends in it |
| Ports.ItoaInjective | fwDCS/internal/store/timescale.go:836-836 | different ports have different keys |
| Links.TopologyTable.CorrelateLinkByPort | fwDCS/internal/store/timescale.go:781-819 | some row of the first key that matches any; none exactly when no key matches |
| Links.KeyFoundIsFirst | fwDCS/internal/store/timescale.go:805-819 | the key used is the first at which some network link has an end, and none exactly when no key has one |
| Links.TopologyTable.SetLinkActive | fwDCS/internal/store/timescale.go:859-875 | all rows of the two devices on the layer take the state, and whether one of them changed |
| Links.TopologyTable.UpsertLinks | fwDCS/internal/store/timescale.go:908-955 | a known link keeps its state, a new one starts active |
| Links.UpsertLands | fwDCS/internal/store/timescale.go:908-948 | an upsert updates the far port of the row with the link's key, or adds the link as a new row that is up |
| Links.TopologyTable.HandleLinkTrap | fwDCS/internal/ingest/worker.go:477-535 | owned exactly when correlated without a fault; one event in the row's own direction per change, none for a repeat or when writing fails |
| Links.TopologyTable.StoreTrap | fwDCS/internal/ingest/worker.go:278-291 | a trap is stored plain exactly when it was not taken over |
| Links.TrapFindsItsPort | fwDCS/internal/store/timescale.go:765-819 | a trap with ifIndex p+1 and a name without a number or ending in p finds exactly the rows of port p |
| Links.RepeatIsNoChange | fwDCS/internal/ingest/worker.go:507-510 | the peer's trap for the same transition, from either end, changes nothing |
| Links.DownThenUp | fwDCS/internal/store/timescale.go:859-875 | taking a link up after down, from either end, restores the table |
| Links.UpsertKeepsCommonIff | fwDCS/internal/store/timescale.go:918-948 | an upsert keeps a pair's rows in one state exactly when the link is known or the pair is not down |
| Links.StepKeepsInv | fwDCS/internal/ingest/worker.go:477-535 | every trap, whichever row it picks, and every guarded re-emit keeps one state per pair and ties it to the parity of its transitions |
| Links.TransitionsAlternate | fwDCS/internal/ingest/worker.go:466-475 | over every run the transitions of a pair alternate, down first |
| Links.NewRowRepeatsDown | fwDCS/internal/store/timescale.go:918-936 | the guard is exact: an unguarded emit of a new link for a pair that is down lets a repeated linkDown make two downs in a row |
| Links.PicksAgreeIff | fwDCS/internal/store/timescale.go:761-763 | two matching rows give the same table exactly when they join the same devices or neither changes |
| Links.RewiredPortIsAmbiguous | fwDCS/internal/store/timescale.go:761-804 | a concrete table on which one lookup may take down either of two links |
| Lru.LRU.constructor | fwDCS/internal/ingest/cache.go:40-50 | empty, with a capacity of 1024 when none is given |
| Lru.LRU.Get | fwDCS/internal/ingest/cache.go:52-68 | a live entry moves to the front and is returned, an expired one is dropped, and index and list stay in step |
| Lru.LRU.Put | fwDCS/internal/ingest/cache.go:70-93 | a known key is overwritten in place and moved, a new one pushed and the last one dropped on overflow |
| Lru.LRU.Invalidate | fwDCS/internal/ingest/cache.go:95-102 | exactly that key leaves list and index |
| Lru.LRU.Flush | fwDCS/internal/ingest/cache.go:106-113 | everything leaves, and how much it was |
| Lru.IndexIsList | fwDCS/internal/ingest/cache.go:20-26 | index and list hold the same keys, and the index points at each key's own node |
| Lru.RunFits | fwDCS/internal/ingest/cache.go:85-92 | after any operations the keys are distinct and within the capacity |
| Lru.EntriesAreLatestPuts | fwDCS/internal/ingest/cache.go:52-113 | after any operations every entry is the one a dictionary without eviction would hold |
| Lru.HitIsLatestPut | fwDCS/internal/ingest/cache.go:52-68 | a hit returns the latest put with no later invalidate or flush, not expired |
| Lru.PutIsHitUntilTtl | fwDCS/internal/ingest/cache.go:52-78 | a value that was put is found until its time to live is over and not after, and at any time without one |
| Lru.ListIsByRecency | fwDCS/internal/ingest/cache.go:66-93 | the list is ordered by latest touch after any operations |
| Lru.OverflowRemovesLeastRecent | fwDCS/internal/ingest/cache.go:85-92 | an overflow removes exactly the key touched before all others |
| Lru.Retention | fwDCS/internal/ingest/cache.go:52-113 | a key that was put and not removed on purpose is missing only if a capacity of other keys was touched since |

## Left out

- The SQL engine, HTTP, gRPC, Redis, sockets of SNMP, gNMI, Redfish and BACnet, configuration and logging: foreign libraries and I/O; failures of statements and calls are parameters of the steps.
- Targets: opaque. The module fwEDR/internal/target is not part of this model.
- Role classifier, type inference, metric naming and OID tables: lookup tables and regular expressions.
- Hierarchy.TopologyStore.RecomputeHierarchy: labels only; the timestamps of rows are not modelled, and the claim that a settled tree updates no rows is not made, since the reset re-stamps every tree row.
- Networks.CycleReadBackIff: cycles whose recomputations all succeed, with no link arriving between them; a network that fails keeps the labels of its last run.
- Hierarchy.ReadBackIff: the parent choice of the view; its recursion to a depth of 100 is left out.
- BacnetRoundTrip.RpmRoundTripIff: array indices are not encoded, because the code does not read them.
- Bacnet.FrameRoundTripIff: built frames carry no routing fields; the request builders and APDU headers are left out.
- Posting.ChunkPayload: the cost of an item is an arbitrary number, as computed by the source's own estimate; actual JSON text length, with commas and nested keys, is not.
- Hydration.ReadingsArePosted: a reading whose device is deleted between the queries of one cycle is not posted, though its cursor moves.
- Scopes.BuildPayloads: the plain columns, interfaces and addresses of a device travel as one opaque body.
- Retries of a post, the rate limiter and the pause of heavy walks by the health monitor.
- Rollups.TiersEqualDirect: real numbers, not floating point; refresh and retention policies are left out.
- Slots.CapsHold: a poll reads the current semaphore in the step that takes its previous lock.
- Breaker.FieldsAreStreak: the 32-bit failure counter does not wrap in the model, and times are after the epoch.
- Queue.QueueRunLaws: sequence numbers stay below 2^64; that critical packets are never evicted is not claimed, since eviction reads stored protobuf bytes as JSON. The severity it reads is an arbitrary function of the bytes, and entries that do not decode are dropped by a pop.
- Publisher.DeliveryAccounts: accepted means that the call returned no error; the count of rejected packets in the reply is ignored by the source.
- Commands.TickOnce: one puller whose acknowledgements arrive; that the newest edit is what was applied is not claimed, since an edit may land between pull and acknowledgement. The state machine behind Commands.StepKeepsInv has such edits and lost acknowledgements.
- Links.TransitionsAlternate: new rows are admitted only for pairs that are not down, by the exact condition of Links.UpsertKeepsCommonIff; speed, type and protocol columns are left out.
- Lru.LRU.Put: one operation at a time, as its mutex has it.
