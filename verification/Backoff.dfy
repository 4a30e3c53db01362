/**
 The idle backoff of the forwarder's table queries: fwDCS/internal/forwarder/forwarder.go, lines
 215-267, 291-298 and the query section of `pushNetwork`.
 */
module Backoff {

  /** Consecutive empty polls, and upcoming ticks to skip. */
  datatype Gate = Gate(misses: nat, skipLeft: nat)

  const FRESH: Gate := Gate(0, 0)

  datatype Outcome = QueryFails | Empty | Found

  /** One cycle's visit to one table of one network; a forced cycle does not consult the gate. */
  datatype Visit = Tick(outcome: Outcome) | Forced(outcome: Outcome)

  function Min(a: int, b: int): int
  {
    if a <= b then a else b
  }

  // --- One gate ----------------------------------------------------------------------------------

  predicate Allows(max: int, g: Gate)
  {
    max <= 0 || g.skipLeft == 0
  }

  function Consulted(max: int, g: Gate): Gate
  {
    if Allows(max, g) then g else g.(skipLeft := g.skipLeft - 1)
  }

  function Recorded(max: int, g: Gate, found: bool): Gate
  {
    if max <= 0 then g
    else if found then FRESH
    else Gate(g.misses + 1, Min(g.misses + 1, max))
  }

  /** With the backoff off no gate ever moves. */
  lemma {:induction false} OffGateRests(max: int, visits: seq<Visit>)
    requires max <= 0
    ensures Run(max, visits) == FRESH
  {
    if visits != [] { OffGateRests(max, visits[..|visits| - 1]); }
  }

  /** A failing query returns from the cycle before the result is recorded. */
  function AfterQuery(max: int, g: Gate, o: Outcome): Gate
  {
    if o == QueryFails then g else Recorded(max, g, o == Found)
  }

  predicate Queries(max: int, g: Gate, v: Visit)
  {
    v.Forced? || Allows(max, g)
  }

  function Step(max: int, g: Gate, v: Visit): Gate
  {
    match v
    case Forced(o) => AfterQuery(max, g, o)
    case Tick(o) => if Allows(max, g) then AfterQuery(max, Consulted(max, g), o) else Consulted(max, g)
  }

  function Run(max: int, visits: seq<Visit>): Gate
  {
    if visits == [] then FRESH else Step(max, Run(max, visits[..|visits| - 1]), visits[|visits| - 1])
  }

  /** Whether visit `i` of a run queries the table. */
  predicate QueriesAt(max: int, visits: seq<Visit>, i: nat)
    requires i < |visits|
  {
    Queries(max, Run(max, visits[..i]), visits[i])
  }

  /** Consecutive empty results up to the end of a run. */
  function EmptyStreak(max: int, visits: seq<Visit>): nat
  {
    if visits == [] then 0
    else
      var n := |visits| - 1;
      var before := EmptyStreak(max, visits[..n]);
      if !QueriesAt(max, visits, n) || visits[n].outcome == QueryFails then before
      else if visits[n].outcome == Found then 0
      else before + 1
  }

  /** Refused ticks since the latest recorded result. */
  function Refusals(max: int, visits: seq<Visit>): nat
  {
    if visits == [] then 0
    else
      var n := |visits| - 1;
      var before := Refusals(max, visits[..n]);
      if !QueriesAt(max, visits, n) then before + 1
      else if visits[n].outcome == QueryFails then before
      else 0
  }

  /** A gate holds the streak of empty results, and what is left of the window that streak earned. */
  lemma {:induction false} GateIsStreak(max: int, visits: seq<Visit>)
    requires max > 0
    ensures Refusals(max, visits) <= Min(EmptyStreak(max, visits), max)
    ensures Run(max, visits)
         == Gate(EmptyStreak(max, visits), Min(EmptyStreak(max, visits), max) - Refusals(max, visits))
    decreases |visits|
  {
    if visits != [] {
      GateIsStreak(max, visits[..|visits| - 1]);
    }
  }

  /** A tick is refused exactly while fewer ticks were refused than the streak, capped, allows. */
  lemma TickRefusedIff(max: int, visits: seq<Visit>, o: Outcome)
    requires max > 0
    ensures !Queries(max, Run(max, visits), Tick(o)) <==> Refusals(max, visits) < Min(EmptyStreak(max, visits), max)
  {
    GateIsStreak(max, visits);
    hide Run, Refusals, EmptyStreak;
  }

  /** Ticks refused in a row at the end of a run, whatever was recorded before. */
  function Starved(max: int, visits: seq<Visit>): nat
  {
    if visits == [] || QueriesAt(max, visits, |visits| - 1) then 0
    else 1 + Starved(max, visits[..|visits| - 1])
  }

  /** Between two queries at most `max` ticks are refused; with the backoff disabled, none. */
  lemma {:induction false} FewRefusedInARow(max: int, visits: seq<Visit>)
    ensures Starved(max, visits) <= if max <= 0 then 0 else Min(EmptyStreak(max, visits), max)
  {
    if max > 0 {
      GateIsStreak(max, visits);
      StarvedAreRefusals(max, visits);
    } else if visits != [] {
      assert QueriesAt(max, visits, |visits| - 1);
    }
  }

  lemma {:induction false} StarvedAreRefusals(max: int, visits: seq<Visit>)
    ensures Starved(max, visits) <= Refusals(max, visits)
    decreases |visits|
  {
    if visits != [] {
      StarvedAreRefusals(max, visits[..|visits| - 1]);
      hide QueriesAt;
    }
  }

  function Repeat(v: Visit, n: nat): seq<Visit>
  {
    seq(n, _ => v)
  }

  /** After the m-th empty poll in a row exactly min(m, max) ticks are refused, and the next one queries. */
  lemma {:induction false} WindowAfterEmptyPoll(max: int, visits: seq<Visit>, k: nat, o: Outcome)
    requires max > 0 && visits != []
    requires var n := |visits| - 1; QueriesAt(max, visits, n) && visits[n].outcome == Empty
    requires k <= Min(EmptyStreak(max, visits), max)
    ensures var m := Min(EmptyStreak(max, visits), max);
            && Run(max, visits + Repeat(Tick(o), k)) == Gate(EmptyStreak(max, visits), m - k)
            && (Queries(max, Run(max, visits + Repeat(Tick(o), k)), Tick(o)) <==> k == m)
    decreases k
  {
    GateIsStreak(max, visits);
    if k == 0 {
      assert visits + Repeat(Tick(o), 0) == visits;
    } else {
      WindowAfterEmptyPoll(max, visits, k - 1, o);
      var longer := visits + Repeat(Tick(o), k);
      assert longer[..|longer| - 1] == visits + Repeat(Tick(o), k - 1);
      hide EmptyStreak, Refusals, QueriesAt;
    }
  }

  // --- The window in time -------------------------------------------------------------------------

  const DEFAULT_INTERVAL: int := 5000

  function Interval(intervalMs: int): (i: int)
    ensures i > 0
  {
    if intervalMs <= 0 then DEFAULT_INTERVAL else intervalMs
  }

  /** How many ticks `New` lets a drained table skip. */
  function MaxIdleSkips(intervalMs: int, idleMs: int): int
  {
    var i := Interval(intervalMs);
    if idleMs > i then idleMs / i - 1 else 0
  }

  /** The widest gap between two unforced queries fits the idle interval, and one more tick would not. */
  lemma IdleWindow(intervalMs: int, idleMs: int, visits: seq<Visit>)
    requires idleMs > Interval(intervalMs)
    ensures var i, max := Interval(intervalMs), MaxIdleSkips(intervalMs, idleMs);
            && max >= 0 && (max + 1) * i <= idleMs < (max + 2) * i
            && (Starved(max, visits) + 1) * i <= idleMs
  {
    var i, max := Interval(intervalMs), MaxIdleSkips(intervalMs, idleMs);
    FewRefusedInARow(max, visits);
    hide Starved, EmptyStreak;
    Product(Starved(max, visits) + 1, max + 1, i);
  }

  lemma Product(a: int, b: int, i: int)
    requires a <= b && i > 0
    ensures a * i <= b * i
  {
  }

  /** Short of two ticks to the idle interval, the backoff is off. */
  lemma NoSkipsIff(intervalMs: int, idleMs: int)
    ensures MaxIdleSkips(intervalMs, idleMs) <= 0 <==> idleMs < 2 * Interval(intervalMs)
  {
  }

  // --- Many gates ---------------------------------------------------------------------------------------

  function Key(table: string, net: string): string
  {
    table + "|" + net
  }

  /** Table names hold no bar, so no two (table, network) pairs share a gate. */
  lemma KeysDiffer(t1: string, n1: string, t2: string, n2: string)
    requires '|' !in t1 && '|' !in t2 && Key(t1, n1) == Key(t2, n2)
    ensures t1 == t2 && n1 == n2
  {
    var k := Key(t1, n1);
    assert k[|t1|] == '|' && k[|t2|] == '|';
    assert forall i :: 0 <= i < |t1| ==> k[i] == t1[i] && k[i] != '|';
    assert forall i :: 0 <= i < |t2| ==> k[i] == t2[i] && k[i] != '|';
    assert |t1| == |t2|;
    assert t1 == k[..|t1|] == t2;
    assert n1 == k[|t1| + 1..] == n2;
  }

  function At(gates: map<string, Gate>, key: string): Gate
  {
    if key in gates then gates[key] else FRESH
  }

  datatype KeyedVisit = KeyedVisit(key: string, visit: Visit)

  /** The gates after visits to any tables of any networks. */
  function RunAll(max: int, visits: seq<KeyedVisit>): map<string, Gate>
  {
    if visits == [] then map[]
    else
      var n := |visits| - 1;
      var before := RunAll(max, visits[..n]);
      before[visits[n].key := Step(max, At(before, visits[n].key), visits[n].visit)]
  }

  function VisitsOf(visits: seq<KeyedVisit>, key: string): seq<Visit>
  {
    if visits == [] then []
    else
      var n := |visits| - 1;
      VisitsOf(visits[..n], key) + if visits[n].key == key then [visits[n].visit] else []
  }

  /** Each gate runs on the visits of its own table and network alone. */
  lemma {:induction false} GatesAreIndependent(max: int, visits: seq<KeyedVisit>, key: string)
    ensures At(RunAll(max, visits), key) == Run(max, VisitsOf(visits, key))
    decreases |visits|
  {
    if visits != [] {
      var n := |visits| - 1;
      GatesAreIndependent(max, visits[..n], key);
      var mine := VisitsOf(visits[..n], key);
      if visits[n].key == key {
        assert (mine + [visits[n].visit])[..|mine|] == mine;
      } else {
        assert VisitsOf(visits, key) == mine;
      }
      hide Step;
    }
  }

  // --- The object ------------------------------------------------------------------------------------------

  /** The forwarder's gates. */
  class PollGates {
    const maxIdleSkips: int
    var gates: map<string, Gate>

    constructor (intervalMs: int, idleMs: int)
      ensures gates == map[] && maxIdleSkips == MaxIdleSkips(intervalMs, idleMs)
    {
      var interval := intervalMs;
      if interval <= 0 {
        interval := 5000;
      }
      var skips := 0;
      if idleMs > interval {
        skips := idleMs / interval - 1;
      }
      maxIdleSkips := skips;
      gates := map[];
    }

    /** Consumes one skip when it refuses. */
    method ShouldPoll(table: string, net: string) returns (poll: bool)
      modifies this`gates
      ensures poll <==> Allows(maxIdleSkips, At(old(gates), Key(table, net)))
      ensures At(gates, Key(table, net)) == Consulted(maxIdleSkips, At(old(gates), Key(table, net)))
      ensures forall k :: k != Key(table, net) ==> At(gates, k) == At(old(gates), k)
    {
      if maxIdleSkips <= 0 {
        return true;
      }
      var key := table + "|" + net;
      if key !in gates {
        gates := gates[key := Gate(0, 0)];
      }
      var g := gates[key];
      if g.skipLeft > 0 {
        gates := gates[key := g.(skipLeft := g.skipLeft - 1)];
        return false;
      }
      return true;
    }

    method RecordPoll(table: string, net: string, found: bool)
      modifies this`gates
      ensures At(gates, Key(table, net)) == Recorded(maxIdleSkips, At(old(gates), Key(table, net)), found)
      ensures forall k :: k != Key(table, net) ==> At(gates, k) == At(old(gates), k)
    {
      if maxIdleSkips <= 0 {
        return;
      }
      var key := table + "|" + net;
      if key !in gates {
        gates := gates[key := Gate(0, 0)];
      }
      if found {
        gates := gates[key := Gate(0, 0)];
        return;
      }
      var misses := gates[key].misses + 1;
      var skips: nat := misses;
      if skips > maxIdleSkips {
        skips := maxIdleSkips;
      }
      gates := gates[key := Gate(misses, skips)];
    }

    /** One table's part of a cycle, with the outcome its query would have. */
    method VisitTable(table: string, net: string, force: bool, outcome: Outcome) returns (queried: bool)
      modifies this`gates
      ensures var g, v := At(old(gates), Key(table, net)), if force then Forced(outcome) else Tick(outcome);
              && (queried <==> Queries(maxIdleSkips, g, v))
              && At(gates, Key(table, net)) == Step(maxIdleSkips, g, v)
      ensures forall k :: k != Key(table, net) ==> At(gates, k) == At(old(gates), k)
    {
      queried := force;
      if !force {
        queried := ShouldPoll(table, net);
      }
      if queried && outcome != QueryFails {
        RecordPoll(table, net, outcome == Found);
      }
    }
  }
}
