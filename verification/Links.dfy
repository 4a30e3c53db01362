/**
 Link traps against the topology table: `handleLinkTrap` of fwDCS/internal/ingest/worker.go with
 `CorrelateLinkByPort`, `SetLinkActive` and the conflict clause of `UpsertLinks` of
 fwDCS/internal/store/timescale.go.
 */
module Links {
  import opened Options
  import Ports

  /** A directed row of `topology_links`. */
  datatype Link = Link(id: nat, layer: string, src: string, srcPort: string, dst: string, dstPort: string, active: bool)

  const NETWORK: string := "network"

  /** The unique key of the table. */
  predicate SameKey(r: Link, l: Link)
  {
    r.layer == l.layer && r.src == l.src && r.srcPort == l.srcPort && r.dst == l.dst
  }

  predicate Known(rows: seq<Link>, l: Link)
  {
    exists i :: 0 <= i < |rows| && SameKey(rows[i], l)
  }

  /** Whether a row joins the two devices on the layer, in either direction. */
  predicate Joins(r: Link, layer: string, a: string, b: string)
  {
    r.layer == layer && ((r.src == a && r.dst == b) || (r.src == b && r.dst == a))
  }

  predicate Matches(r: Link, dev: string, port: string)
  {
    r.layer == NETWORK && ((r.src == dev && r.srcPort == port) || (r.dst == dev && r.dstPort == port))
  }

  predicate HasMatch(rows: seq<Link>, dev: string, port: string)
  {
    exists i :: 0 <= i < |rows| && Matches(rows[i], dev, port)
  }

  // --- The statements ------------------------------------------------------------------------------

  /** A re-emitted link keeps its state; a new one starts active. */
  function Upsert(rows: seq<Link>, nextId: nat, l: Link): seq<Link>
  {
    if Known(rows, l) then
      seq(|rows|, i requires 0 <= i < |rows| => if SameKey(rows[i], l) then rows[i].(dstPort := l.dstPort) else rows[i])
    else
      rows + [l.(id := nextId, active := true)]
  }

  function SetActive(rows: seq<Link>, layer: string, a: string, b: string, desired: bool): seq<Link>
  {
    seq(|rows|, i requires 0 <= i < |rows| =>
      if Joins(rows[i], layer, a, b) then rows[i].(active := desired) else rows[i])
  }

  /** Whether that statement changes a row. */
  predicate Changes(rows: seq<Link>, layer: string, a: string, b: string, desired: bool)
  {
    exists i :: 0 <= i < |rows| && Joins(rows[i], layer, a, b) && rows[i].active != desired
  }

  /** The key of the first candidate that some row matches. */
  function KeyFound(rows: seq<Link>, dev: string, keys: seq<string>): Option<string>
  {
    if keys == [] then None
    else if HasMatch(rows, dev, keys[0]) then Some(keys[0])
    else KeyFound(rows, dev, keys[1..])
  }

  /** `LIMIT 1` may return any row that matches. */
  predicate MayPick(rows: seq<Link>, dev: string, keys: seq<string>, pick: int)
  {
    KeyFound(rows, dev, keys).Some? && 0 <= pick < |rows| && Matches(rows[pick], dev, KeyFound(rows, dev, keys).value)
  }

  // --- Runs of traps and re-emits ------------------------------------------------------------------

  /** A transition the hub owned: the link between two devices went down or came up. */
  datatype Flip = Flip(a: string, b: string, down: bool)

  datatype State = State(rows: seq<Link>, nextId: nat, log: seq<Flip>)

  datatype Step =
    | Trap(dev: string, ifIndex: int, ifName: string, down: bool, pick: nat)
    | Emit(link: Link)

  /** Whether a row between the two devices is down. */
  predicate PairDown(rows: seq<Link>, layer: string, a: string, b: string)
  {
    Changes(rows, layer, a, b, true)
  }

  /** Emits are of known links, or of links between devices whose links are up. */
  predicate Enabled(s: State, step: Step)
  {
    match step
    case Trap(dev, ifIndex, ifName, _, pick) =>
      var keys := Ports.Candidates(ifIndex, ifName);
      KeyFound(s.rows, dev, keys).Some? ==> MayPick(s.rows, dev, keys, pick)
    case Emit(l) => Known(s.rows, l) || !PairDown(s.rows, l.layer, l.src, l.dst)
  }

  function AfterTrap(s: State, r: Link, down: bool): State
  {
    if Changes(s.rows, r.layer, r.src, r.dst, !down) then
      State(SetActive(s.rows, r.layer, r.src, r.dst, !down), s.nextId, s.log + [Flip(r.src, r.dst, down)])
    else s
  }

  function Apply(s: State, step: Step): State
    requires Enabled(s, step)
  {
    match step
    case Trap(dev, ifIndex, ifName, down, pick) =>
      if KeyFound(s.rows, dev, Ports.Candidates(ifIndex, ifName)).Some? then AfterTrap(s, s.rows[pick], down) else s
    case Emit(l) => State(Upsert(s.rows, s.nextId, l), s.nextId + 1, s.log)
  }

  /** All rows between two devices on a layer are in one state. */
  ghost predicate Common(rows: seq<Link>)
  {
    forall i, j :: 0 <= i < |rows| && 0 <= j < |rows| && Joins(rows[i], rows[j].layer, rows[j].src, rows[j].dst) ==>
      rows[i].active == rows[j].active
  }

  predicate OfPair(f: Flip, a: string, b: string)
  {
    (f.a == a && f.b == b) || (f.a == b && f.b == a)
  }

  /** The transitions of one pair of devices, in order. */
  function Flips(log: seq<Flip>, a: string, b: string): seq<bool>
  {
    if log == [] then []
    else Flips(log[..|log| - 1], a, b) + if OfPair(log[|log| - 1], a, b) then [log[|log| - 1].down] else []
  }

  /** Down, up, down, up, … */
  predicate Alternates(flips: seq<bool>)
  {
    forall i :: 0 <= i < |flips| ==> (flips[i] <==> i % 2 == 0)
  }

  /** Each row's state is what the number of its pair's transitions says. */
  ghost predicate Accounted(rows: seq<Link>, log: seq<Flip>)
  {
    forall i :: 0 <= i < |rows| ==>
      (rows[i].active <==> rows[i].layer != NETWORK || |Flips(log, rows[i].src, rows[i].dst)| % 2 == 0)
  }

  predicate Linked(rows: seq<Link>, a: string, b: string)
  {
    exists i :: 0 <= i < |rows| && Joins(rows[i], NETWORK, a, b)
  }

  ghost predicate Logged(rows: seq<Link>, log: seq<Flip>)
  {
    forall a, b :: Alternates(Flips(log, a, b)) && (Flips(log, a, b) != [] ==> Linked(rows, a, b))
  }

  ghost predicate Inv(s: State)
  {
    Common(s.rows) && Accounted(s.rows, s.log) && Logged(s.rows, s.log)
  }

  lemma {:induction false} FlipsSymmetric(log: seq<Flip>, a: string, b: string)
    ensures Flips(log, a, b) == Flips(log, b, a)
    decreases |log|
  {
    if log != [] { FlipsSymmetric(log[..|log| - 1], a, b); }
  }

  // --- One statement ----------------------------------------------------------------------------------

  lemma SetActiveAt(rows: seq<Link>, layer: string, a: string, b: string, desired: bool, i: nat)
    requires i < |rows|
    ensures |SetActive(rows, layer, a, b, desired)| == |rows|
    ensures SetActive(rows, layer, a, b, desired)[i]
         == rows[i].(active := if Joins(rows[i], layer, a, b) then desired else rows[i].active)
  {
  }

  lemma SetActiveKeepsCommon(rows: seq<Link>, layer: string, a: string, b: string, desired: bool)
    requires Common(rows)
    ensures Common(SetActive(rows, layer, a, b, desired))
  {
  }

  /** The peer's trap for the same transition, or a repeat, changes nothing. */
  lemma RepeatIsNoChange(rows: seq<Link>, layer: string, a: string, b: string, desired: bool)
    ensures var rows' := SetActive(rows, layer, a, b, desired);
            && !Changes(rows', layer, a, b, desired) && !Changes(rows', layer, b, a, desired)
            && SetActive(rows', layer, b, a, desired) == rows'
  {
  }

  /** Putting a link up again after taking it down restores the table, when its pair was up. */
  lemma DownThenUp(rows: seq<Link>, layer: string, a: string, b: string)
    requires !PairDown(rows, layer, a, b)
    ensures SetActive(SetActive(rows, layer, a, b, false), layer, b, a, true) == rows
  {
  }

  /** A re-emit of a known link leaves every state alone. */
  lemma KnownKeepsStates(rows: seq<Link>, nextId: nat, l: Link, i: nat)
    requires Known(rows, l) && i < |rows|
    ensures var r := Upsert(rows, nextId, l)[i];
            && |Upsert(rows, nextId, l)| == |rows|
            && r.active == rows[i].active && SameKey(r, rows[i]) && r.id == rows[i].id
  {
  }

  /** An upsert keeps the rows of every pair in one state exactly when the link is known or its pair is not down. */
  lemma UpsertKeepsCommonIff(rows: seq<Link>, nextId: nat, l: Link)
    requires Common(rows)
    ensures Common(Upsert(rows, nextId, l)) <==> Known(rows, l) || !PairDown(rows, l.layer, l.src, l.dst)
  {
    var rows' := Upsert(rows, nextId, l);
    if Known(rows, l) {
      assert forall i :: 0 <= i < |rows| ==> SameKey(rows'[i], rows[i]) && rows'[i].active == rows[i].active;
    } else {
      var n := |rows|;
      assert rows'[n] == l.(id := nextId, active := true);
      assert forall i :: 0 <= i < n ==> rows'[i] == rows[i];
      if PairDown(rows, l.layer, l.src, l.dst) {
        var i :| 0 <= i < n && Joins(rows[i], l.layer, l.src, l.dst) && rows[i].active != true;
        assert rows'[i] == rows[i] && Joins(rows'[i], rows'[n].layer, rows'[n].src, rows'[n].dst);
      }
    }
  }

  // --- One step ------------------------------------------------------------------------------------------

  lemma FlipsStep(log: seq<Flip>, f: Flip, a: string, b: string)
    ensures Flips(log + [f], a, b) == Flips(log, a, b) + if OfPair(f, a, b) then [f.down] else []
  {
  }

  lemma AlternatesStep(flips: seq<bool>, down: bool)
    requires Alternates(flips) && (down <==> |flips| % 2 == 0)
    ensures Alternates(flips + [down])
  {
  }

  /** A change takes the pair from its one state to the other. */
  lemma ChangeIsTurn(s: State, r: Link, down: bool)
    requires Inv(s) && r in s.rows && r.layer == NETWORK && Changes(s.rows, r.layer, r.src, r.dst, !down)
    ensures down <==> |Flips(s.log, r.src, r.dst)| % 2 == 0
  {
  }

  lemma TrapAccountedAt(s: State, r: Link, down: bool, i: nat)
    requires Accounted(s.rows, s.log) && Common(s.rows) && r.layer == NETWORK && i < |s.rows|
    requires down <==> |Flips(s.log, r.src, r.dst)| % 2 == 0
    ensures var row, log := SetActive(s.rows, r.layer, r.src, r.dst, !down)[i], s.log + [Flip(r.src, r.dst, down)];
            row.active <==> row.layer != NETWORK || |Flips(log, row.src, row.dst)| % 2 == 0
  {
    FlipsSymmetric(s.log, r.src, r.dst);
    SetActiveAt(s.rows, r.layer, r.src, r.dst, !down, i);
    FlipsStep(s.log, Flip(r.src, r.dst, down), s.rows[i].src, s.rows[i].dst);
    hide Flips, Common, SetActive;
  }

  lemma TrapAccounted(s: State, r: Link, down: bool)
    requires Inv(s) && r in s.rows && r.layer == NETWORK && Changes(s.rows, r.layer, r.src, r.dst, !down)
    ensures Accounted(AfterTrap(s, r, down).rows, AfterTrap(s, r, down).log)
  {
    ChangeIsTurn(s, r, down);
    SetActiveLength(s.rows, r.layer, r.src, r.dst, !down);
    hide Flips, Logged, Common, SetActive, Changes;
    var rows', log' := SetActive(s.rows, r.layer, r.src, r.dst, !down), s.log + [Flip(r.src, r.dst, down)];
    forall i | 0 <= i < |rows'|
      ensures rows'[i].active <==> rows'[i].layer != NETWORK || |Flips(log', rows'[i].src, rows'[i].dst)| % 2 == 0
    {
      TrapAccountedAt(s, r, down, i);
    }
  }

  lemma SetActiveLength(rows: seq<Link>, layer: string, a: string, b: string, desired: bool)
    ensures |SetActive(rows, layer, a, b, desired)| == |rows|
  {
  }

  lemma TrapLogged(s: State, r: Link, down: bool)
    requires Inv(s) && r in s.rows && r.layer == NETWORK && Changes(s.rows, r.layer, r.src, r.dst, !down)
    ensures Logged(AfterTrap(s, r, down).rows, AfterTrap(s, r, down).log)
  {
    ChangeIsTurn(s, r, down);
    var f, t := Flip(r.src, r.dst, down), AfterTrap(s, r, down);
    FlipsSymmetric(s.log, r.src, r.dst);
    var k :| 0 <= k < |s.rows| && s.rows[k] == r;
    forall a, b
      ensures Alternates(Flips(t.log, a, b)) && (Flips(t.log, a, b) != [] ==> Linked(t.rows, a, b))
    {
      FlipsStep(s.log, f, a, b);
      hide Flips, SetActive, Changes, Alternates, Common, Accounted;
      if OfPair(f, a, b) {
        AlternatesStep(Flips(s.log, a, b), down);
        SetActiveAt(s.rows, r.layer, r.src, r.dst, !down, k);
        assert Joins(t.rows[k], NETWORK, a, b);
      } else if Linked(s.rows, a, b) {
        var i :| 0 <= i < |s.rows| && Joins(s.rows[i], NETWORK, a, b);
        SetActiveAt(s.rows, r.layer, r.src, r.dst, !down, i);
        assert Joins(t.rows[i], NETWORK, a, b);
      }
    }
  }

  lemma TrapKeepsInv(s: State, r: Link, down: bool)
    requires Inv(s) && r in s.rows && r.layer == NETWORK
    ensures Inv(AfterTrap(s, r, down))
  {
    if Changes(s.rows, r.layer, r.src, r.dst, !down) {
      TrapAccounted(s, r, down);
      TrapLogged(s, r, down);
      SetActiveKeepsCommon(s.rows, r.layer, r.src, r.dst, !down);
      hide Accounted, Logged, Common, SetActive, Changes;
    }
  }

  lemma EmitKeepsLinks(rows: seq<Link>, nextId: nat, l: Link, a: string, b: string)
    requires Linked(rows, a, b)
    ensures Linked(Upsert(rows, nextId, l), a, b)
  {
    var i :| 0 <= i < |rows| && Joins(rows[i], NETWORK, a, b);
    var rows' := Upsert(rows, nextId, l);
    assert Joins(rows'[i], NETWORK, a, b);
  }

  /** No link between two devices, or one that is up: an even number of transitions so far. */
  lemma UpPairIsEven(s: State, a: string, b: string)
    requires Inv(s) && !PairDown(s.rows, NETWORK, a, b)
    ensures |Flips(s.log, a, b)| % 2 == 0
  {
    hide Flips, Common;
    if Flips(s.log, a, b) != [] {
      var i :| 0 <= i < |s.rows| && Joins(s.rows[i], NETWORK, a, b);
      FlipsSymmetric(s.log, a, b);
    }
  }

  lemma EmitKeepsInv(s: State, l: Link)
    requires Inv(s) && Enabled(s, Emit(l))
    ensures Inv(Apply(s, Emit(l)))
  {
    var t := Apply(s, Emit(l));
    UpsertKeepsCommonIff(s.rows, s.nextId, l);
    if l.layer == NETWORK && !Known(s.rows, l) { UpPairIsEven(s, l.src, l.dst); }
    forall i | 0 <= i < |t.rows|
      ensures t.rows[i].active <==> t.rows[i].layer != NETWORK || |Flips(t.log, t.rows[i].src, t.rows[i].dst)| % 2 == 0
    {
      hide Flips, Logged, Common;
      if Known(s.rows, l) { KnownKeepsStates(s.rows, s.nextId, l, i); }
    }
    hide Flips, Upsert, Common;
    forall a, b | Linked(s.rows, a, b)
      ensures Linked(t.rows, a, b)
    {
      EmitKeepsLinks(s.rows, s.nextId, l, a, b);
    }
  }

  lemma StepKeepsInv(s: State, step: Step)
    requires Inv(s) && Enabled(s, step)
    ensures Inv(Apply(s, step))
  {
    hide Inv, KeyFound;
    match step
    case Trap(dev, ifIndex, ifName, down, pick) =>
      if KeyFound(s.rows, dev, Ports.Candidates(ifIndex, ifName)).Some? {
        TrapKeepsInv(s, s.rows[pick], down);
      }
    case Emit(l) => EmitKeepsInv(s, l);
  }

  ghost predicate Runs(s: State, steps: seq<Step>, t: State)
    decreases |steps|
  {
    if steps == [] then s == t
    else Enabled(s, steps[0]) && Runs(Apply(s, steps[0]), steps[1..], t)
  }

  lemma {:induction false} RunKeepsInv(s: State, steps: seq<Step>, t: State)
    requires Inv(s) && Runs(s, steps, t)
    ensures Inv(t)
    decreases |steps|
  {
    if steps != [] {
      StepKeepsInv(s, steps[0]);
      hide Inv, Enabled, Apply;
      RunKeepsInv(Apply(s, steps[0]), steps[1..], t);
    }
  }

  /**
   Over every run from an empty table, whichever matching row each lookup picks: the rows of a pair
   share one state, and the transitions of a pair alternate, down first.
   */
  lemma TransitionsAlternate(nextId: nat, steps: seq<Step>, t: State)
    requires Runs(State([], nextId, []), steps, t)
    ensures Common(t.rows) && Accounted(t.rows, t.log)
    ensures forall a, b :: Alternates(Flips(t.log, a, b))
  {
    hide Runs, Flips;
    assert forall a: string, b: string :: Flips([], a, b) == [] by {
      forall a: string, b: string ensures Flips([], a, b) == [] { NoFlips(a, b); }
    }
    RunKeepsInv(State([], nextId, []), steps, t);
  }

  lemma NoFlips(a: string, b: string)
    ensures Flips([], a, b) == []
  {
  }

  // --- Where the guards matter ------------------------------------------------------------------------

  /**
   The guard on re-emits is exact: after an unguarded emit, of a new link between devices that are
   down, a repeated linkDown is a second down transition in a row.
   */
  lemma NewRowRepeatsDown(s: State, l: Link)
    requires Inv(s) && l.layer == NETWORK && !Known(s.rows, l) && PairDown(s.rows, l.layer, l.src, l.dst)
    ensures var s' := State(Upsert(s.rows, s.nextId, l), s.nextId + 1, s.log);
            var r := s'.rows[|s.rows|];
            SameKey(r, l) && !Alternates(Flips(AfterTrap(s', r, true).log, l.src, l.dst))
  {
    var s' := State(Upsert(s.rows, s.nextId, l), s.nextId + 1, s.log);
    var r := s'.rows[|s.rows|];
    assert r == l.(id := s.nextId, active := true);
    assert Changes(s'.rows, r.layer, r.src, r.dst, false);
    DownPairIsOdd(s, l.src, l.dst);
    FlipsStep(s.log, Flip(r.src, r.dst, true), l.src, l.dst);
    var before, after := Flips(s.log, l.src, l.dst), Flips(AfterTrap(s', r, true).log, l.src, l.dst);
    assert after == before + [true];
    assert after[|before|];
  }

  lemma DownPairIsOdd(s: State, a: string, b: string)
    requires Inv(s) && PairDown(s.rows, NETWORK, a, b)
    ensures |Flips(s.log, a, b)| % 2 == 1
  {
    FlipsSymmetric(s.log, a, b);
    var i :| 0 <= i < |s.rows| && Joins(s.rows[i], NETWORK, a, b) && s.rows[i].active != true;
    hide Flips, Common, Logged;
  }

  /**
   Two rows that match one lookup lead to the same table exactly when they join the same devices or
   neither changes.
   */
  lemma PicksAgreeIff(s: State, p: Link, q: Link, down: bool)
    requires p.layer == q.layer
    ensures AfterTrap(s, p, down).rows == AfterTrap(s, q, down).rows <==>
      Joins(p, q.layer, q.src, q.dst)
      || (!Changes(s.rows, p.layer, p.src, p.dst, !down) && !Changes(s.rows, q.layer, q.src, q.dst, !down))
  {
    if Joins(p, q.layer, q.src, q.dst) {
      SamePairSameUpdate(s.rows, p.layer, p.src, p.dst, q.src, q.dst, !down);
    } else {
      if Changes(s.rows, p.layer, p.src, p.dst, !down) { OtherPairDiffers(s, p, q, down); }
      if Changes(s.rows, q.layer, q.src, q.dst, !down) { OtherPairDiffers(s, q, p, down); }
    }
  }

  lemma SamePairSameUpdate(rows: seq<Link>, layer: string, a: string, b: string, c: string, d: string, desired: bool)
    requires (a == c && b == d) || (a == d && b == c)
    ensures SetActive(rows, layer, a, b, desired) == SetActive(rows, layer, c, d, desired)
    ensures Changes(rows, layer, a, b, desired) <==> Changes(rows, layer, c, d, desired)
  {
  }

  lemma OtherPairDiffers(s: State, p: Link, q: Link, down: bool)
    requires p.layer == q.layer && !Joins(p, q.layer, q.src, q.dst)
    requires Changes(s.rows, p.layer, p.src, p.dst, !down)
    ensures AfterTrap(s, p, down).rows != AfterTrap(s, q, down).rows
  {
    var i :| 0 <= i < |s.rows| && Joins(s.rows[i], p.layer, p.src, p.dst) && s.rows[i].active != !down;
    assert !Joins(s.rows[i], q.layer, q.src, q.dst);
    assert AfterTrap(s, p, down).rows[i].active == !down;
    assert AfterTrap(s, q, down).rows[i].active == down;
  }

  /** A port that was rewired keeps its old row, and a trap for it may then take down either link. */
  lemma RewiredPortIsAmbiguous()
    ensures var r1, r2 := Link(1, NETWORK, "A", "0", "B", "7", true), Link(2, NETWORK, "A", "0", "C", "7", true);
            var rows := Upsert(Upsert([], 1, r1), 2, r2);
            && MayPick(rows, "A", ["0"], 0) && MayPick(rows, "A", ["0"], 1)
            && AfterTrap(State(rows, 3, []), rows[0], true).rows != AfterTrap(State(rows, 3, []), rows[1], true).rows
  {
    var r1, r2 := Link(1, NETWORK, "A", "0", "B", "7", true), Link(2, NETWORK, "A", "0", "C", "7", true);
    var rows := Upsert(Upsert([], 1, r1), 2, r2);
    assert Upsert([], 1, r1) == [r1] && !Known([r1], r2);
    assert rows == [r1, r2];
    hide Upsert, AfterTrap, Known;
    assert Matches(rows[0], "A", "0");
    assert Joins(rows[0], NETWORK, "A", "B");
    OtherPairDiffers(State(rows, 3, []), rows[0], rows[1], true);
  }

  /** The key used is the first at which some row has an end, and there is none exactly when no key has one. */
  lemma {:induction false} KeyFoundIsFirst(rows: seq<Link>, dev: string, keys: seq<string>)
    ensures var k := KeyFound(rows, dev, keys);
            && (k.None? ==> forall j, i :: 0 <= j < |keys| && 0 <= i < |rows| ==> !AtPort(rows[i], dev, keys[j]))
            && (k.Some? ==> exists j, i :: 0 <= j < |keys| && keys[j] == k.value && 0 <= i < |rows|
                              && AtPort(rows[i], dev, keys[j]) && NoneBefore(rows, dev, keys, j))
  {
    if keys != [] {
      if HasMatch(rows, dev, keys[0]) {
        var i :| 0 <= i < |rows| && Matches(rows[i], dev, keys[0]);
        assert AtPort(rows[i], dev, keys[0]) && NoneBefore(rows, dev, keys, 0);
      } else {
        forall i | 0 <= i < |rows|
          ensures !AtPort(rows[i], dev, keys[0])
        {
          assert !Matches(rows[i], dev, keys[0]);
        }
        KeyFoundIsFirst(rows, dev, keys[1..]);
        if KeyFound(rows, dev, keys[1..]).Some? {
          var j, i :| 0 <= j < |keys[1..]| && keys[1..][j] == KeyFound(rows, dev, keys[1..]).value && 0 <= i < |rows|
                      && AtPort(rows[i], dev, keys[1..][j]) && NoneBefore(rows, dev, keys[1..], j);
          assert keys[j + 1] == keys[1..][j];
          assert NoneBefore(rows, dev, keys, j + 1) by {
            forall m, i | 0 <= m < j + 1 && 0 <= i < |rows|
              ensures !AtPort(rows[i], dev, keys[m])
            {
              if m > 0 { assert keys[m] == keys[1..][m - 1]; }
            }
          }
        } else {
          forall j, i | 0 <= j < |keys| && 0 <= i < |rows|
            ensures !AtPort(rows[i], dev, keys[j])
          {
            if j > 0 { assert keys[j] == keys[1..][j - 1]; }
          }
        }
      }
    }
  }

  ghost predicate NoneBefore(rows: seq<Link>, dev: string, keys: seq<string>, j: nat)
    requires j <= |keys|
  {
    forall m, i :: 0 <= m < j && 0 <= i < |rows| ==> !AtPort(rows[i], dev, keys[m])
  }

  /** What a trap with ifIndex p+1 finds: the rows of port p, when the name has no number or ends in p. */
  lemma TrapFindsItsPort(rows: seq<Link>, dev: string, p: nat, ifName: string, pick: nat)
    requires Ports.TrailingDigits(ifName) in {"", Ports.Itoa(p)}
    ensures var keys, port := Ports.Candidates(p + 1, ifName), Ports.Itoa(p);
            && (KeyFound(rows, dev, keys).Some? <==> exists i :: 0 <= i < |rows| && AtPort(rows[i], dev, port))
            && (KeyFound(rows, dev, keys).Some? ==> KeyFound(rows, dev, keys) == Some(port))
            && (MayPick(rows, dev, keys, pick) <==> pick < |rows| && AtPort(rows[pick], dev, port))
  {
    var keys, port := Ports.Candidates(p + 1, ifName), Ports.Itoa(p);
    Ports.OnlyKeyIff(p, ifName);
    assert keys == [port] && keys[1..] == [];
    if HasMatch(rows, dev, port) {
      var i :| 0 <= i < |rows| && Matches(rows[i], dev, port);
      assert AtPort(rows[i], dev, port);
    }
    if i :| 0 <= i < |rows| && AtPort(rows[i], dev, port) {
      assert Matches(rows[i], dev, port);
    }
  }

  /** A network link one of whose ends is this port of this device. */
  ghost predicate AtPort(r: Link, dev: string, port: string)
  {
    r.layer == "network" && (dev, port) in {(r.src, r.srcPort), (r.dst, r.dstPort)}
  }

  /** An upsert updates the far port of the row with the link's key, or adds the link as a new row that is up. */
  lemma UpsertLands(rows: seq<Link>, nextId: nat, l: Link, i: nat)
    requires i < |rows|
    ensures var rows' := Upsert(rows, nextId, l);
            var known := exists j :: 0 <= j < |rows| && SameKey(rows[j], l);
            && |rows'| == |rows| + (if known then 0 else 1)
            && rows'[i] == (if rows[i].layer == l.layer && rows[i].src == l.src && rows[i].srcPort == l.srcPort
                               && rows[i].dst == l.dst
                            then rows[i].(dstPort := l.dstPort) else rows[i])
            && (!known ==> rows'[|rows|] == Link(nextId, l.layer, l.src, l.srcPort, l.dst, l.dstPort, true))
  {
  }

  // --- The object -----------------------------------------------------------------------------------------

  datatype Event =
    | LinkEvent(linkId: nat, src: string, srcPort: string, dst: string, dstPort: string, reportedBy: string, down: bool)
    | PlainEvent(dev: string, down: bool)

  /** The statement that fails while a trap is handled, if any. */
  datatype Fault = NoFault | LookupFails | FlipFails | WriteFails

  function EventOf(r: Link, host: string, down: bool): Event
  {
    LinkEvent(r.id, r.src, r.srcPort, r.dst, r.dstPort, host, down)
  }

  class TopologyTable {
    var rows: seq<Link>
    var nextId: nat
    var events: seq<Event>

    constructor ()
      ensures rows == [] && events == [] && nextId == 1
    {
      rows, events, nextId := [], [], 1;
    }

    /** An insert draws an id from the sequence even when it conflicts. */
    method UpsertLinks(links: seq<Link>)
      modifies this`rows, this`nextId
      ensures rows == UpsertAll(old(rows), old(nextId), links) && nextId == old(nextId) + |links|
    {
      for i := 0 to |links|
        invariant nextId == old(nextId) + i
        invariant UpsertAll(rows, nextId, links[i..]) == UpsertAll(old(rows), old(nextId), links)
      {
        hide Upsert;
        UpsertAllStep(rows, nextId, links, i);
        rows := Upsert(rows, nextId, links[i]);
        nextId := nextId + 1;
      }
    }

    method CorrelateLinkByPort(dev: string, ifIndex: int, ifName: string) returns (r: Option<Link>)
      ensures var keys := Ports.Candidates(ifIndex, ifName);
              && (r.None? <==> KeyFound(rows, dev, keys).None?)
              && (r.Some? ==> exists pick :: MayPick(rows, dev, keys, pick) && rows[pick] == r.value)
    {
      var keys := Ports.PortCandidates(ifIndex, ifName);
      for k := 0 to |keys|
        invariant KeyFound(rows, dev, keys) == KeyFound(rows, dev, keys[k..])
      {
        assert keys[k..][0] == keys[k] && keys[k..][1..] == keys[k + 1..];
        if HasMatch(rows, dev, keys[k]) {
          var pick :| 0 <= pick < |rows| && Matches(rows[pick], dev, keys[k]);
          assert MayPick(rows, dev, keys, pick);
          return Some(rows[pick]);
        }
      }
      return None;
    }

    method SetLinkActive(r: Link, down: bool) returns (changed: bool)
      modifies this`rows
      ensures var layer := if r.layer == "" then NETWORK else r.layer;
              && (changed <==> Changes(old(rows), layer, r.src, r.dst, !down))
              && rows == SetActive(old(rows), layer, r.src, r.dst, !down)
    {
      var layer := r.layer;
      if layer == "" {
        layer := NETWORK;
      }
      changed := false;
      for i := 0 to |rows|
        invariant changed <==> exists k :: 0 <= k < i && Joins(rows[k], layer, r.src, r.dst) && rows[k].active != !down
      {
        if Joins(rows[i], layer, r.src, r.dst) && rows[i].active != !down {
          changed := true;
        }
      }
      rows := SetActive(rows, layer, r.src, r.dst, !down);
    }

    /** True when the trap became a link event or was suppressed; false when the caller must store it as it is. */
    method HandleLinkTrap(dev: string, host: string, ifIndex: int, ifName: string, down: bool, fault: Fault)
        returns (owned: bool)
      modifies this`rows, this`events
      ensures var keys := Ports.Candidates(ifIndex, ifName);
              && (owned <==> KeyFound(old(rows), dev, keys).Some? && fault != LookupFails && fault != FlipFails)
              && (!owned ==> rows == old(rows) && events == old(events))
              && (owned ==> exists pick :: MayPick(old(rows), dev, keys, pick)
                              && Handled(old(rows), old(events), rows, events, old(rows)[pick], host, down, fault))
    {
      if fault == LookupFails {
        return false;
      }
      var found := CorrelateLinkByPort(dev, ifIndex, ifName);
      if found.None? || fault == FlipFails {
        return false;
      }
      var r := found.value;
      ghost var keys := Ports.Candidates(ifIndex, ifName);
      ghost var pick :| MayPick(rows, dev, keys, pick) && rows[pick] == r;
      var changed := SetLinkActive(r, down);
      if changed && fault != WriteFails {
        events := events + [EventOf(r, host, down)];
      }
      if !changed { NoChange(old(rows), r.layer, r.src, r.dst, !down); }
      return true;
    }

    /** What the ingest pipeline does with a link trap: stores it plain unless `HandleLinkTrap` took it. */
    method StoreTrap(dev: string, host: string, ifIndex: int, ifName: string, down: bool, fault: Fault)
      modifies this`rows, this`events
      ensures old(events) <= events && |events| <= |old(events)| + 1
      ensures events == old(events) + [PlainEvent(dev, down)] <==>
        KeyFound(old(rows), dev, Ports.Candidates(ifIndex, ifName)).None? || fault in {LookupFails, FlipFails}
    {
      var owned := HandleLinkTrap(dev, host, ifIndex, ifName, down, fault);
      assert owned && |events| > |old(events)| ==> events[|old(events)|].LinkEvent?;
      if !owned {
        events := events + [PlainEvent(dev, down)];
      }
    }
  }

  /** One event per transition, unless writing it fails: then the trap leaves no event at all. */
  ghost predicate Handled(rows: seq<Link>, events: seq<Event>, rows': seq<Link>, events': seq<Event>,
      r: Link, host: string, down: bool, fault: Fault)
  {
    && rows' == AfterTrap(State(rows, 0, []), r, down).rows
    && events' == events + if Changes(rows, r.layer, r.src, r.dst, !down) && fault != WriteFails
                           then [LinkEvent(r.id, r.src, r.srcPort, r.dst, r.dstPort, host, down)] else []
  }

  lemma NoChange(rows: seq<Link>, layer: string, a: string, b: string, desired: bool)
    requires !Changes(rows, layer, a, b, desired)
    ensures SetActive(rows, layer, a, b, desired) == rows
  {
  }

  lemma UpsertAllStep(rows: seq<Link>, nextId: nat, links: seq<Link>, i: nat)
    requires i < |links|
    ensures UpsertAll(rows, nextId, links[i..]) == UpsertAll(Upsert(rows, nextId, links[i]), nextId + 1, links[i + 1..])
  {
    hide Upsert;
    assert links[i..][0] == links[i] && links[i..][1..] == links[i + 1..];
  }

  function UpsertAll(rows: seq<Link>, nextId: nat, links: seq<Link>): seq<Link>
    decreases |links|
  {
    if links == [] then rows else UpsertAll(Upsert(rows, nextId, links[0]), nextId + 1, links[1..])
  }
}
