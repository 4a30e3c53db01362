/**
 The SNMP slot discipline of fwEDR/internal/poller/poller.go and fwEDR/internal/snmp/limit.go as an
 interleaved transition system: a poll takes its session mutex, then a heavy slot unless it is a
 heartbeat, then a socket slot, and gives them back in reverse.
 */
module Slots {
  import opened Sets

  // --- Caps ------------------------------------------------------------------------------------

  function EffCap(maxConcurrent: int, shards: int): (cap: nat)
    ensures cap >= 1
    ensures cap >= 2 <==> maxConcurrent != 1
    ensures var wanted := if maxConcurrent <= 0 then 50 else maxConcurrent;
            cap <= wanted && (cap == wanted || (shards > 1 && cap == 2 * shards)) && (shards > 1 ==> cap <= 2 * shards)
  {
    var maxConc := if maxConcurrent <= 0 then 50 else maxConcurrent;
    if shards > 1 && shards * 2 < maxConc then shards * 2 else maxConc
  }

  /** Heavy tiers get one slot less than the global cap, but at least one. */
  function HeavyCap(effCap: nat): (cap: nat)
    ensures cap >= 1
    ensures cap < effCap <==> effCap >= 2
    ensures effCap >= 2 ==> cap == effCap - 1
  {
    if effCap - 1 < 1 then 1 else effCap - 1
  }

  // --- State -----------------------------------------------------------------------------------

  /** Fast: the heartbeat. Heavy: the walks. Aux: other socket users, with neither session nor heavy slot. */
  datatype Tier = Fast | Heavy | Aux

  /** `gate` is the semaphore a poll found installed when it went for a socket. */
  datatype Phase =
    | WaitSession
    | WantHeavy
    | WantSocket(gate: nat)
    | Running(gate: nat)
    | Returning   // socket given back, or never taken
    | Unlocking   // heavy slot given back, or never taken
    | Done

  datatype Poll = Poll(tier: Tier, session: nat, phase: Phase)

  datatype Gate = Gate(cap: nat, used: nat)

  /** `gates` lists every semaphore `ConfigureSocketLimit` ever installed, the current one last. */
  datatype State = State(polls: map<nat, Poll>, locked: set<nat>, heavyCap: nat, heavyUsed: nat, gates: seq<Gate>)

  predicate HoldsSession(p: Poll)
  {
    p.tier != Aux && p.phase != WaitSession && p.phase != Done
  }

  predicate HoldsHeavy(p: Poll)
  {
    p.tier == Heavy && (p.phase.WantSocket? || p.phase.Running? || p.phase == Returning)
  }

  type Polls = map<nat, Poll>

  function HeavyHolders(ps: Polls): set<nat>
  {
    set i | i in ps && HoldsHeavy(ps[i])
  }

  function SocketHolders(ps: Polls, g: nat): set<nat>
  {
    set i | i in ps && ps[i].phase == Running(g)
  }

  function AllSocketHolders(ps: Polls): set<nat>
  {
    set i | i in ps && ps[i].phase.Running?
  }

  function SessionHolders(ps: Polls): set<nat>
  {
    set i | i in ps && HoldsSession(ps[i])
  }

  // --- Steps -----------------------------------------------------------------------------------

  datatype Step =
    | Configure(max: int)
    | Start(id: nat, tier: Tier, session: nat)
    | LockSession(id: nat)
    | TakeHeavy(id: nat)
    | TakeSocket(id: nat)
    | Finish(id: nat)
    | GiveHeavy(id: nat)
    | Unlock(id: nat)
    | Cancel(id: nat)

  predicate Enabled(s: State, step: Step)
  {
    match step
    case Configure(_) => true
    case Start(i, tier, _) => i !in s.polls && s.gates != []
    case LockSession(i) =>
      i in s.polls && s.polls[i].phase == WaitSession && s.polls[i].session !in s.locked && s.gates != []
    case TakeHeavy(i) => i in s.polls && s.polls[i].phase == WantHeavy && s.heavyUsed < s.heavyCap && s.gates != []
    case TakeSocket(i) =>
      && i in s.polls && s.polls[i].phase.WantSocket?
      && s.polls[i].phase.gate < |s.gates|
      && s.gates[s.polls[i].phase.gate].used < s.gates[s.polls[i].phase.gate].cap
    case Finish(i) =>
      && i in s.polls && s.polls[i].phase.Running?
      && s.polls[i].phase.gate < |s.gates| && s.gates[s.polls[i].phase.gate].used > 0
    case GiveHeavy(i) => i in s.polls && s.polls[i].phase == Returning && (s.polls[i].tier == Heavy ==> s.heavyUsed > 0)
    case Unlock(i) => i in s.polls && s.polls[i].phase == Unlocking
    case Cancel(i) => i in s.polls && (s.polls[i].phase == WantHeavy || s.polls[i].phase.WantSocket?)
  }

  /** A configured semaphore is empty and has at least one slot. */
  lemma ConfigureInstalls(s: State, max: int)
    ensures var s' := Apply(s, Configure(max));
            s' == s.(gates := s.gates + [Gate(if max >= 1 then max else 1, 0)])
  {
  }

  function SetPhase(s: State, i: nat, phase: Phase): State
    requires i in s.polls
  {
    s.(polls := s.polls[i := s.polls[i].(phase := phase)])
  }

  function Use(gates: seq<Gate>, g: nat, delta: int): seq<Gate>
    requires g < |gates| && gates[g].used + delta >= 0
  {
    gates[g := gates[g].(used := gates[g].used + delta)]
  }

  function Apply(s: State, step: Step): State
    requires Enabled(s, step)
  {
    match step
    case Configure(max) => s.(gates := s.gates + [Gate(if max < 1 then 1 else max, 0)])
    case Start(i, tier, session) =>
      s.(polls := s.polls[i := Poll(tier, session, if tier == Aux then WantSocket(|s.gates| - 1) else WaitSession)])
    case LockSession(i) =>
      var next := if s.polls[i].tier == Heavy then WantHeavy else WantSocket(|s.gates| - 1);
      SetPhase(s, i, next).(locked := s.locked + {s.polls[i].session})
    case TakeHeavy(i) => SetPhase(s, i, WantSocket(|s.gates| - 1)).(heavyUsed := s.heavyUsed + 1)
    case TakeSocket(i) =>
      var g := s.polls[i].phase.gate;
      SetPhase(s, i, Running(g)).(gates := Use(s.gates, g, 1))
    case Finish(i) =>
      var g := s.polls[i].phase.gate;
      SetPhase(s, i, Returning).(gates := Use(s.gates, g, -1))
    case GiveHeavy(i) =>
      SetPhase(s, i, Unlocking).(heavyUsed := if s.polls[i].tier == Heavy then s.heavyUsed - 1 else s.heavyUsed)
    case Unlock(i) =>
      SetPhase(s, i, Done).(locked := if s.polls[i].tier == Aux then s.locked else s.locked - {s.polls[i].session})
    case Cancel(i) => SetPhase(s, i, if s.polls[i].phase == WantHeavy then Unlocking else Returning)
  }

  // --- The invariant ------------------------------------------------------------------------------

  /** The locked sessions are those of the session holders, one each. */
  ghost predicate SessionsOk(ps: Polls, locked: set<nat>)
  {
    && (forall i :: i in SessionHolders(ps) ==> ps[i].session in locked)
    && (forall x :: x in locked ==> exists i :: i in SessionHolders(ps) && ps[i].session == x)
    && (forall i, j :: i in SessionHolders(ps) && j in SessionHolders(ps) && ps[i].session == ps[j].session ==> i == j)
  }

  ghost predicate HeavyOk(s: State)
  {
    s.heavyUsed == |HeavyHolders(s.polls)| <= s.heavyCap && s.heavyCap >= 1
  }

  ghost predicate GateOk(s: State, g: nat)
    requires g < |s.gates|
  {
    s.gates[g].used == |SocketHolders(s.polls, g)| <= s.gates[g].cap && s.gates[g].cap >= 1
  }

  ghost predicate PollOk(p: Poll, gates: nat)
  {
    && (p.phase == WantHeavy ==> p.tier == Heavy)
    && (p.tier == Aux ==> p.phase != WaitSession)
    && (p.phase.WantSocket? || p.phase.Running? ==> p.phase.gate < gates)
    && gates > 0
  }

  ghost predicate Inv(s: State)
  {
    && SessionsOk(s.polls, s.locked) && HeavyOk(s)
    && (forall g :: 0 <= g < |s.gates| ==> GateOk(s, g))
    && (forall i :: i in s.polls ==> PollOk(s.polls[i], |s.gates|))
  }

  function Count(b: bool): nat
  {
    if b then 1 else 0
  }

  function Single(b: bool, i: nat): set<nat>
  {
    if b then {i} else {}
  }

  lemma CountWithSingle(rest: set<nat>, b: bool, i: nat)
    requires i !in rest
    ensures |rest + Single(b, i)| == |rest| + Count(b)
  {
  }

  lemma SameButOne(a: set<nat>, rest: set<nat>, b: bool, i: nat)
    requires forall x :: x in a <==> if x == i then b else x in rest
    requires i !in rest
    ensures |a| == |rest| + Count(b)
  {
    assert a == rest + Single(b, i);
    CountWithSingle(rest, b, i);
  }

  /** Changing one poll changes each set of holders by that poll at most. */
  lemma HeavyUpdate(ps: Polls, i: nat, p: Poll)
    ensures |HeavyHolders(ps[i := p])|
         == |HeavyHolders(ps)| + Count(HoldsHeavy(p)) - Count(i in ps && HoldsHeavy(ps[i]))
  {
    hide HoldsHeavy, Count;
    var rest := HeavyHolders(ps) - {i};
    SameButOne(HeavyHolders(ps[i := p]), rest, HoldsHeavy(p), i);
    SameButOne(HeavyHolders(ps), rest, i in ps && HoldsHeavy(ps[i]), i);
  }

  lemma SocketUpdate(ps: Polls, i: nat, p: Poll, g: nat)
    ensures |SocketHolders(ps[i := p], g)| ==
            |SocketHolders(ps, g)| + Count(p.phase == Running(g)) - Count(i in ps && ps[i].phase == Running(g))
  {
    hide Count;
    var rest := SocketHolders(ps, g) - {i};
    SameButOne(SocketHolders(ps[i := p], g), rest, p.phase == Running(g), i);
    SameButOne(SocketHolders(ps, g), rest, i in ps && ps[i].phase == Running(g), i);
  }

  lemma HeavyCountPositive(ps: Polls, i: nat)
    requires i in ps && HoldsHeavy(ps[i])
    ensures |HeavyHolders(ps)| > 0
  {
    assert i in HeavyHolders(ps);
  }

  lemma SocketCountPositive(ps: Polls, i: nat, g: nat)
    requires i in ps && ps[i].phase == Running(g)
    ensures |SocketHolders(ps, g)| > 0
  {
    assert i in SocketHolders(ps, g);
  }

  lemma HeavyKept(s: State, step: Step)
    requires HeavyOk(s) && Enabled(s, step)
    requires forall i :: i in s.polls ==> PollOk(s.polls[i], |s.gates|)
    ensures HeavyOk(Apply(s, step))
  {
    hide HeavyHolders;
    if !step.Configure? {
      HeavyUpdate(s.polls, step.id, Apply(s, step).polls[step.id]);
      if step.GiveHeavy? && s.polls[step.id].tier == Heavy { HeavyCountPositive(s.polls, step.id); }
    }
  }

  lemma GateKept(s: State, step: Step, g: nat)
    requires g < |s.gates| && GateOk(s, g) && Enabled(s, step)
    ensures GateOk(Apply(s, step), g)
  {
    hide SocketHolders;
    if !step.Configure? {
      SocketUpdate(s.polls, step.id, Apply(s, step).polls[step.id], g);
    }
  }

  lemma NewGateOk(s: State, max: int)
    requires forall i :: i in s.polls ==> PollOk(s.polls[i], |s.gates|)
    ensures GateOk(Apply(s, Configure(max)), |s.gates|)
  {
  }

  lemma PollsKept(s: State, step: Step)
    requires Enabled(s, step) && forall i :: i in s.polls ==> PollOk(s.polls[i], |s.gates|)
    ensures forall i :: i in Apply(s, step).polls ==> PollOk(Apply(s, step).polls[i], |Apply(s, step).gates|)
  {
  }

  /** A poll that neither takes nor gives its session leaves the sessions as they are. */
  lemma SessionsUnchanged(ps: Polls, locked: set<nat>, i: nat, p: Poll)
    requires SessionsOk(ps, locked)
    requires HoldsSession(p) <==> i in ps && HoldsSession(ps[i])
    requires i in ps ==> p.session == ps[i].session
    ensures SessionsOk(ps[i := p], locked)
  {
    assert SessionHolders(ps[i := p]) == SessionHolders(ps);
  }

  lemma SessionTaken(ps: Polls, locked: set<nat>, i: nat, p: Poll)
    requires SessionsOk(ps, locked) && p.session !in locked && HoldsSession(p)
    requires i in ps && !HoldsSession(ps[i])
    ensures SessionsOk(ps[i := p], locked + {p.session})
  {
    assert SessionHolders(ps[i := p]) == SessionHolders(ps) + {i};
    hide HoldsSession, SessionHolders;
  }

  lemma SessionGiven(ps: Polls, locked: set<nat>, i: nat, p: Poll)
    requires SessionsOk(ps, locked) && i in ps && HoldsSession(ps[i]) && !HoldsSession(p) && p.session == ps[i].session
    ensures SessionsOk(ps[i := p], locked - {p.session})
  {
    var ps', hs, hs' := ps[i := p], SessionHolders(ps), SessionHolders(ps[i := p]);
    assert i in hs && hs' == hs - {i};
    hide HoldsSession, SessionHolders;
    forall x | x in locked - {p.session}
      ensures exists j :: j in hs' && ps'[j].session == x
    {
      var j :| j in hs && ps[j].session == x;
      assert j in hs' && ps'[j] == ps[j];
    }
    forall j | j in hs'
      ensures ps'[j].session in locked - {p.session}
    {
      assert ps'[j] == ps[j] && j in hs;
    }
  }

  lemma SessionsKept(s: State, step: Step)
    requires SessionsOk(s.polls, s.locked) && Enabled(s, step)
    requires forall i :: i in s.polls ==> PollOk(s.polls[i], |s.gates|)
    ensures SessionsOk(Apply(s, step).polls, Apply(s, step).locked)
  {
    hide SessionsOk, SessionHolders;
    if !step.Configure? {
      var i := step.id;
      var p := Apply(s, step).polls[i];
      if step.LockSession? {
        SessionTaken(s.polls, s.locked, i, p);
      } else if step.Unlock? && p.tier != Aux {
        SessionGiven(s.polls, s.locked, i, p);
      } else {
        SessionsUnchanged(s.polls, s.locked, i, p);
      }
    }
  }

  lemma StepKeepsInv(s: State, step: Step)
    requires Inv(s) && Enabled(s, step)
    ensures Inv(Apply(s, step))
  {
    HeavyKept(s, step);
    PollsKept(s, step);
    SessionsKept(s, step);
    GatesKept(s, step);
    hide SessionsOk, HeavyOk, GateOk, PollOk, Enabled, Apply;
  }

  lemma GatesKept(s: State, step: Step)
    requires Inv(s) && Enabled(s, step)
    ensures forall g :: 0 <= g < |Apply(s, step).gates| ==> GateOk(Apply(s, step), g)
  {
    hide SessionsOk, HeavyOk, GateOk, PollOk;
    forall g | 0 <= g < |Apply(s, step).gates|
      ensures GateOk(Apply(s, step), g)
    {
      if g < |s.gates| {
        GateKept(s, step, g);
      } else {
        NewGateOk(s, step.max);
      }
    }
  }

  ghost predicate Reachable(s: State, steps: seq<Step>, t: State)
    decreases |steps|
  {
    if steps == [] then s == t
    else Enabled(s, steps[0]) && Reachable(Apply(s, steps[0]), steps[1..], t)
  }

  lemma {:induction false} RunKeepsInv(s: State, steps: seq<Step>, t: State)
    requires Inv(s) && Reachable(s, steps, t)
    ensures Inv(t)
    decreases |steps|
  {
    if steps != [] {
      StepKeepsInv(s, steps[0]);
      hide Inv, Enabled, Apply;
      RunKeepsInv(Apply(s, steps[0]), steps[1..], t);
    }
  }

  /** Nothing running, and the semaphore of one slot that the process starts with. */
  function Initial(heavyCap: nat): State
  {
    State(map[], {}, heavyCap, 0, [Gate(1, 0)])
  }

  lemma InitialInv(heavyCap: nat)
    requires heavyCap >= 1
    ensures Inv(Initial(heavyCap))
  {
  }

  /**
   In every interleaving of any number of polls: each semaphore's holders stay within its cap, heavy
   holders within theirs, and no two polls hold one session.
   */
  lemma CapsHold(heavyCap: nat, steps: seq<Step>, t: State, g: nat)
    requires heavyCap >= 1 && Reachable(Initial(heavyCap), steps, t) && g < |t.gates|
    ensures |SocketHolders(t.polls, g)| <= t.gates[g].cap
    ensures |HeavyHolders(t.polls)| <= heavyCap
    ensures forall i, j | i in SessionHolders(t.polls) && j in SessionHolders(t.polls) ::
      t.polls[i].session == t.polls[j].session ==> i == j
  {
    InitialInv(heavyCap);
    RunKeepsCap(Initial(heavyCap), steps, t);
    RunKeepsInv(Initial(heavyCap), steps, t);
    hide Reachable, SocketHolders, HeavyHolders, SessionHolders;
    assert GateOk(t, g);
  }

  lemma HoldersOfOneGate(ps: Polls, g: nat)
    requires forall i :: i in ps && ps[i].phase.Running? ==> ps[i].phase.gate == g
    ensures AllSocketHolders(ps) == SocketHolders(ps, g)
  {
  }

  // --- When the process-wide cap holds ------------------------------------------------------------

  predicate NoConfigure(steps: seq<Step>)
  {
    forall i :: 0 <= i < |steps| ==> !steps[i].Configure?
  }

  /** Waits for, or holds, a socket slot of a semaphore that has been replaced. */
  predicate Straggles(s: State, i: nat)
    requires i in s.polls
  {
    (s.polls[i].phase.WantSocket? || s.polls[i].phase.Running?) && s.polls[i].phase.gate < |s.gates| - 1
  }

  predicate NoStragglers(s: State)
  {
    forall i :: i in s.polls ==> !Straggles(s, i)
  }

  /** Until the next reconfiguration, sockets in use never exceed the cap configured last. */
  ghost predicate CapAlwaysHolds(s: State)
    requires s.gates != []
  {
    forall steps, t :: NoConfigure(steps) && Reachable(s, steps, t) ==>
      |AllSocketHolders(t.polls)| <= s.gates[|s.gates| - 1].cap
  }

  /**
   The cap configured last holds from a state on exactly when no poll there straggles behind on an
   older semaphore.
   */
  lemma CapHoldsIff(s: State)
    requires Inv(s) && s.gates != []
    ensures CapAlwaysHolds(s) <==> NoStragglers(s)
  {
    hide Inv, NoStragglers, Reachable, NoConfigure, AllSocketHolders;
    if NoStragglers(s) {
      forall steps, t | NoConfigure(steps) && Reachable(s, steps, t)
        ensures |AllSocketHolders(t.polls)| <= s.gates[|s.gates| - 1].cap
      {
        NoStragglersCap(s, steps, t);
      }
    } else {
      var steps, t := StragglerExceeds(s);
    }
  }

  /** Whether a step keeps the semaphore in force and its cap. */
  predicate SameGate(s: State, t: State)
  {
    |t.gates| == |s.gates| > 0 && t.gates[|t.gates| - 1].cap == s.gates[|s.gates| - 1].cap
  }

  lemma StepKeepsUp(s: State, step: Step)
    requires NoStragglers(s) && s.gates != [] && Enabled(s, step) && !step.Configure?
    ensures NoStragglers(Apply(s, step)) && SameGate(s, Apply(s, step))
  {
  }

  lemma {:induction false} RunKeepsUp(s: State, steps: seq<Step>, t: State)
    requires Inv(s) && NoStragglers(s) && s.gates != [] && NoConfigure(steps) && Reachable(s, steps, t)
    ensures Inv(t) && NoStragglers(t) && SameGate(s, t)
    decreases |steps|
  {
    hide Inv, NoStragglers, Enabled, Apply;
    if steps != [] {
      StepKeepsInv(s, steps[0]);
      StepKeepsUp(s, steps[0]);
      RunKeepsUp(Apply(s, steps[0]), steps[1..], t);
    }
  }

  lemma NoStragglersCap(s: State, steps: seq<Step>, t: State)
    requires Inv(s) && NoStragglers(s) && s.gates != [] && NoConfigure(steps) && Reachable(s, steps, t)
    ensures |AllSocketHolders(t.polls)| <= s.gates[|s.gates| - 1].cap
  {
    RunKeepsUp(s, steps, t);
    OneGateHolders(t);
  }

  lemma OneGateHolders(t: State)
    requires Inv(t) && NoStragglers(t) && t.gates != []
    ensures |AllSocketHolders(t.polls)| <= t.gates[|t.gates| - 1].cap
  {
    hide SocketHolders, AllSocketHolders, SessionsOk, HeavyOk;
    var g := |t.gates| - 1;
    assert GateOk(t, g);
    forall i | i in t.polls && t.polls[i].phase.Running?
      ensures t.polls[i].phase.gate == g
    {
      assert PollOk(t.polls[i], |t.gates|) && !Straggles(t, i);
    }
    HoldersOfOneGate(t.polls, g);
  }

  /** A straggler comes to hold its old slot, and then fresh polls fill the semaphore in force. */
  lemma StragglerExceeds(s: State) returns (steps: seq<Step>, t: State)
    requires Inv(s) && s.gates != [] && !NoStragglers(s)
    ensures NoConfigure(steps) && Reachable(s, steps, t)
    ensures |AllSocketHolders(t.polls)| > s.gates[|s.gates| - 1].cap
  {
    hide Inv, Reachable, AllSocketHolders;
    var i :| i in s.polls && Straggles(s, i);
    var a, u, q := StragglerRuns(s, i);
    var b;
    b, t := FillLast(u, q);
    steps := a + b;
    ReachableConcat(s, a, u, b, t);
    HoldersAndOne(t, q);
  }

  /** Holds a slot of a replaced semaphore. */
  predicate RunsBehind(s: State, q: nat)
  {
    q in s.polls && s.polls[q].phase.Running? && s.polls[q].phase.gate < |s.gates| - 1
  }

  lemma StragglerRuns(s: State, i: nat) returns (steps: seq<Step>, t: State, q: nat)
    requires Inv(s) && i in s.polls && Straggles(s, i)
    ensures NoConfigure(steps) && Reachable(s, steps, t) && Inv(t) && SameGate(s, t) && RunsBehind(t, q)
  {
    hide SocketHolders, SessionsOk, HeavyOk;
    steps, t, q := [], s, i;
    if s.polls[i].phase.WantSocket? {
      var g := s.polls[i].phase.gate;
      assert GateOk(s, g);
      if s.gates[g].used < s.gates[g].cap {
        steps, t := [TakeSocket(i)], Apply(s, TakeSocket(i));
        StepKeepsInv(s, TakeSocket(i));
        OneStep(s, TakeSocket(i));
      } else {
        q := SomeHolder(s.polls, g);
      }
    }
  }

  lemma OneStep(s: State, step: Step)
    requires Enabled(s, step)
    ensures Reachable(s, [step], Apply(s, step))
  {
    Chain(s, step, [], Apply(s, step));
  }

  lemma SomeHolder(ps: Polls, g: nat) returns (q: nat)
    requires |SocketHolders(ps, g)| > 0
    ensures q in ps && ps[q].phase == Running(g)
  {
    q :| q in SocketHolders(ps, g);
  }

  lemma {:induction false} FreshId(ids: set<nat>) returns (n: nat)
    ensures forall x :: x in ids ==> x < n
  {
    n := 0;
    if ids != {} {
      var x :| x in ids;
      var m := FreshId(ids - {x});
      assert forall y :: y in ids ==> y == x || y in ids - {x};
      n := if m > x then m else x + 1;
    }
  }

  /** One more socket of the semaphore in force goes to a fresh poll. */
  lemma OneMoreSocket(s: State, q: nat) returns (steps: seq<Step>, t: State)
    requires Inv(s) && RunsBehind(s, q) && s.gates[|s.gates| - 1].used < s.gates[|s.gates| - 1].cap
    ensures NoConfigure(steps) && Reachable(s, steps, t) && Inv(t) && SameGate(s, t) && RunsBehind(t, q)
    ensures t.gates[|t.gates| - 1].used == s.gates[|s.gates| - 1].used + 1
  {
    hide Inv;
    var n := FreshId(s.polls.Keys);
    var start, take := Start(n, Aux, 0), TakeSocket(n);
    var u := Apply(s, start);
    StepKeepsInv(s, start);
    t := Apply(u, take);
    StepKeepsInv(u, take);
    steps := [start, take];
    OneStep(u, take);
    Chain(s, start, [take], t);
  }

  lemma {:induction false} FillLast(s: State, q: nat) returns (steps: seq<Step>, t: State)
    requires Inv(s) && RunsBehind(s, q)
    ensures NoConfigure(steps) && Reachable(s, steps, t) && Inv(t) && SameGate(s, t) && RunsBehind(t, q)
    ensures t.gates[|t.gates| - 1].used == t.gates[|t.gates| - 1].cap
    decreases if s.gates != [] then s.gates[|s.gates| - 1].cap - s.gates[|s.gates| - 1].used else 0
  {
    hide Inv, RunsBehind, Reachable;
    LastIsThere(s, q);
    LastWithinCap(s);
    if s.gates[|s.gates| - 1].used == s.gates[|s.gates| - 1].cap {
      steps, t := [], s;
      Stays(s);
    } else {
      var a, u := OneMoreSocket(s, q);
      var b;
      b, t := FillLast(u, q);
      steps := a + b;
      ReachableConcat(s, a, u, b, t);
    }
  }

  lemma LastIsThere(s: State, q: nat)
    requires RunsBehind(s, q)
    ensures s.gates != []
  {
  }

  lemma Stays(s: State)
    ensures Reachable(s, [], s)
  {
  }

  lemma LastWithinCap(s: State)
    requires Inv(s) && s.gates != []
    ensures s.gates[|s.gates| - 1].used <= s.gates[|s.gates| - 1].cap
  {
    assert GateOk(s, |s.gates| - 1);
  }

  lemma HoldersAndOne(t: State, q: nat)
    requires Inv(t) && RunsBehind(t, q) && t.gates[|t.gates| - 1].used == t.gates[|t.gates| - 1].cap
    ensures |AllSocketHolders(t.polls)| > t.gates[|t.gates| - 1].cap
  {
    var g := |t.gates| - 1;
    assert GateOk(t, g);
    var now := SocketHolders(t.polls, g);
    assert q !in now && now + {q} <= AllSocketHolders(t.polls);
    SubsetCount(now + {q}, AllSocketHolders(t.polls));
  }

  /**
   Configured with the caps `New` computes while no poll has or awaits a socket, and not again since:
   sockets never exceed the global cap, and heavy polls alone never fill it when it is two or more.
   */
  lemma HeartbeatHasASlot(effCap: nat, before: seq<Step>, s: State, steps: seq<Step>, t: State)
    requires effCap >= 1 && Reachable(Initial(HeavyCap(effCap)), before, s)
    requires forall i :: i in s.polls ==> !s.polls[i].phase.WantSocket? && !s.polls[i].phase.Running?
    requires NoConfigure(steps) && Reachable(Apply(s, Configure(effCap)), steps, t)
    ensures |AllSocketHolders(t.polls)| <= effCap
    ensures effCap >= 2 ==> |AllSocketHolders(t.polls) * HeavyHolders(t.polls)| < effCap
  {
    var configured := Apply(s, Configure(effCap));
    assert NoStragglers(configured);
    hide *;
    InitialInv(HeavyCap(effCap));
    RunKeepsInv(Initial(HeavyCap(effCap)), before, s);
    ConfigureIs(s, effCap);
    StepKeepsInv(s, Configure(effCap));
    NoStragglersCap(configured, steps, t);
    RunKeepsInv(configured, steps, t);
    RunKeepsCap(Initial(HeavyCap(effCap)), before, s);
    RunKeepsCap(configured, steps, t);
    HeavyWithinCap(t);
    FewerIn(AllSocketHolders(t.polls), HeavyHolders(t.polls));
  }

  lemma ConfigureIs(s: State, cap: nat)
    requires cap >= 1
    ensures Enabled(s, Configure(cap))
    ensures var t := Apply(s, Configure(cap));
            t.gates != [] && t.gates[|t.gates| - 1].cap == cap && t.heavyCap == s.heavyCap
  {
  }

  lemma HeavyWithinCap(s: State)
    requires Inv(s)
    ensures |HeavyHolders(s.polls)| <= s.heavyCap
  {
  }

  lemma {:induction false} FewerIn<T>(a: set<T>, b: set<T>)
    ensures |a * b| <= |b|
  {
    if b == {} {
      assert a * b == {};
    } else {
      var x :| x in b;
      FewerIn(a - {x}, b - {x});
      if x in a {
        assert a * b == (a - {x}) * (b - {x}) + {x};
      } else {
        assert a * b == (a - {x}) * (b - {x});
      }
    }
  }

  lemma {:induction false} RunKeepsCap(s: State, steps: seq<Step>, t: State)
    requires Reachable(s, steps, t)
    ensures t.heavyCap == s.heavyCap
    decreases |steps|
  {
    if steps != [] {
      RunKeepsCap(Apply(s, steps[0]), steps[1..], t);
    }
  }

  const ONE_WAITING := State(map[0 := Poll(Heavy, 7, WantHeavy)], {7}, 1, 0, [Gate(1, 0)])
  const ONE_RUNNING := State(map[0 := Poll(Heavy, 7, Running(0))], {7}, 1, 1, [Gate(1, 1)])

  lemma OneHeavyPollStarts()
    ensures Reachable(Initial(1), [Start(0, Heavy, 7), LockSession(0)], ONE_WAITING)
  {
  }

  lemma OneHeavyPollRuns()
    ensures Reachable(ONE_WAITING, [TakeHeavy(0), TakeSocket(0)], ONE_RUNNING)
  {
  }

  lemma {:induction false} ReachableConcat(s: State, a: seq<Step>, t: State, b: seq<Step>, u: State)
    requires Reachable(s, a, t) && Reachable(t, b, u)
    ensures Reachable(s, a + b, u)
    decreases |a|
  {
    if a == [] {
      assert a + b == b;
    } else {
      ReachableConcat(Apply(s, a[0]), a[1..], t, b, u);
      assert (a + b)[0] == a[0] && (a + b)[1..] == a[1..] + b;
    }
  }

  /** With a global cap of one, a single heavy poll takes the only socket slot. */
  lemma CapOfOneStarves()
    ensures exists steps :: Reachable(Initial(HeavyCap(1)), steps, ONE_RUNNING)
    ensures |AllSocketHolders(ONE_RUNNING.polls) * HeavyHolders(ONE_RUNNING.polls)| == ONE_RUNNING.gates[0].cap == 1
  {
    OneHeavyPollStarts();
    OneHeavyPollRuns();
    hide Reachable;
    ReachableConcat(Initial(1), [Start(0, Heavy, 7), LockSession(0)], ONE_WAITING,
                    [TakeHeavy(0), TakeSocket(0)], ONE_RUNNING);
    var steps := [Start(0, Heavy, 7), LockSession(0)] + [TakeHeavy(0), TakeSocket(0)];
    assert Reachable(Initial(HeavyCap(1)), steps, ONE_RUNNING);
    assert AllSocketHolders(ONE_RUNNING.polls) * HeavyHolders(ONE_RUNNING.polls) == {0};
  }

  lemma Chain(s: State, step: Step, rest: seq<Step>, t: State)
    requires Enabled(s, step) && Reachable(Apply(s, step), rest, t)
    ensures Reachable(s, [step] + rest, t)
  {
  }

  /** Reconfiguring while a socket is in use lets more sockets out than the new cap: the limit is per semaphore. */
  lemma ReconfiguringExceedsTheCap()
    ensures var steps := [Start(0, Aux, 0), TakeSocket(0), Configure(1), Start(1, Aux, 0), TakeSocket(1)];
            exists t :: Reachable(Initial(1), steps, t) && AllSocketHolders(t.polls) == {0, 1}
  {
    var s0 := Initial(1);
    var s1 := Apply(s0, Start(0, Aux, 0));
    var s2 := Apply(s1, TakeSocket(0));
    var s3 := Apply(s2, Configure(1));
    var s4 := Apply(s3, Start(1, Aux, 0));
    var s5 := Apply(s4, TakeSocket(1));
    Chain(s4, TakeSocket(1), [], s5);
    Chain(s3, Start(1, Aux, 0), [TakeSocket(1)], s5);
    Chain(s2, Configure(1), [Start(1, Aux, 0), TakeSocket(1)], s5);
    Chain(s1, TakeSocket(0), [Configure(1), Start(1, Aux, 0), TakeSocket(1)], s5);
    Chain(s0, Start(0, Aux, 0), [TakeSocket(0), Configure(1), Start(1, Aux, 0), TakeSocket(1)], s5);
    hide Reachable;
    assert AllSocketHolders(s5.polls) == {0, 1};
  }

  // --- No deadlock ----------------------------------------------------------------------------------

  /** A step that moves some poll forward on its own, without a new poll, a cancellation or a reconfiguration. */
  predicate Progress(step: Step)
  {
    !step.Configure? && !step.Start? && !step.Cancel?
  }

  /** Unless every poll is done, some poll can move. */
  lemma NeverDeadlocked(s: State) returns (step: Step)
    requires Inv(s) && exists i :: i in s.polls && s.polls[i].phase != Done
    ensures Progress(step) && Enabled(s, step)
  {
    var i :| i in s.polls && s.polls[i].phase != Done;
    if j :| j in s.polls && s.polls[j].phase.Running? {
      var g := s.polls[j].phase.gate;
      assert PollOk(s.polls[j], |s.gates|) && GateOk(s, g);
      SocketCountPositive(s.polls, j, g);
      return Finish(j);
    }
    if j :| j in s.polls && s.polls[j].phase == Returning {
      if s.polls[j].tier == Heavy { HeavyCountPositive(s.polls, j); }
      return GiveHeavy(j);
    }
    if j :| j in s.polls && s.polls[j].phase == Unlocking {
      return Unlock(j);
    }
    if j :| j in s.polls && s.polls[j].phase.WantSocket? {
      var g := s.polls[j].phase.gate;
      assert PollOk(s.polls[j], |s.gates|) && GateOk(s, g);
      assert SocketHolders(s.polls, g) == {};
      return TakeSocket(j);
    }
    step := WaitingCanMove(s);
  }

  /** When only waiting polls are left, one that waits for a heavy slot or a session gets it. */
  lemma WaitingCanMove(s: State) returns (step: Step)
    requires Inv(s)
    requires forall i :: i in s.polls ==> s.polls[i].phase in {WaitSession, WantHeavy, Done}
    requires exists i :: i in s.polls && s.polls[i].phase != Done
    ensures Progress(step) && Enabled(s, step)
  {
    if j :| j in s.polls && s.polls[j].phase == WantHeavy {
      assert PollOk(s.polls[j], |s.gates|);
      assert HeavyHolders(s.polls) == {};
      return TakeHeavy(j);
    }
    var i :| i in s.polls && s.polls[i].phase != Done;
    assert PollOk(s.polls[i], |s.gates|);
    assert SessionHolders(s.polls) == {};
    return LockSession(i);
  }

  /** Steps a poll still has to take. */
  function Left(p: Phase): nat
  {
    match p
    case WaitSession => 6
    case WantHeavy => 5
    case WantSocket(_) => 4
    case Running(_) => 3
    case Returning => 2
    case Unlocking => 1
    case Done => 0
  }

  ghost function Work(s: State, ids: set<nat>): nat
    requires ids <= s.polls.Keys
  {
    if ids == {} then 0
    else
      var i :| i in ids;
      Left(s.polls[i].phase) + Work(s, ids - {i})
  }

  lemma {:induction false} WorkPick(s: State, ids: set<nat>, i: nat)
    requires ids <= s.polls.Keys && i in ids
    ensures Work(s, ids) == Left(s.polls[i].phase) + Work(s, ids - {i})
  {
    var j :| j in ids && Work(s, ids) == Left(s.polls[j].phase) + Work(s, ids - {j});
    if j != i {
      WorkPick(s, ids - {j}, i);
      WorkPick(s, ids - {i}, j);
      assert ids - {i} - {j} == ids - {j} - {i};
    }
  }

  lemma {:induction false} WorkSame(s: State, t: State, ids: set<nat>)
    requires ids <= s.polls.Keys && ids <= t.polls.Keys
    requires forall i :: i in ids ==> s.polls[i] == t.polls[i]
    ensures Work(s, ids) == Work(t, ids)
  {
    if ids != {} {
      var i :| i in ids;
      WorkPick(s, ids, i);
      WorkPick(t, ids, i);
      WorkSame(s, t, ids - {i});
    }
  }

  /** Every progress step uses up work; a cancellation does too. */
  lemma ProgressUsesWork(s: State, step: Step)
    requires Enabled(s, step) && (Progress(step) || step.Cancel?)
    ensures Apply(s, step).polls.Keys == s.polls.Keys
    ensures Work(Apply(s, step), s.polls.Keys) < Work(s, s.polls.Keys)
  {
    var i, t, all := step.id, Apply(s, step), s.polls.Keys;
    WorkPick(s, all, i);
    WorkPick(t, all, i);
    WorkSame(s, t, all - {i});
  }

  lemma {:induction false} WorkBound(s: State, ids: set<nat>)
    requires ids <= s.polls.Keys
    ensures Work(s, ids) <= 6 * |ids|
  {
    if ids != {} {
      var i :| i in ids;
      WorkPick(s, ids, i);
      WorkBound(s, ids - {i});
    }
  }

  /** A run of progress steps alone, from any reachable state, is no longer than six steps per poll. */
  lemma {:induction false} ProgressRunsEnd(s: State, steps: seq<Step>, t: State)
    requires Reachable(s, steps, t) && forall k :: 0 <= k < |steps| ==> Progress(steps[k]) || steps[k].Cancel?
    ensures |steps| <= Work(s, s.polls.Keys) <= 6 * |s.polls|
    decreases |steps|
  {
    WorkBound(s, s.polls.Keys);
    if steps != [] {
      ProgressUsesWork(s, steps[0]);
      ProgressRunsEnd(Apply(s, steps[0]), steps[1..], t);
    }
  }

  /** So when polls only move forward and no poll can move any more, all of them are done. */
  lemma AllPollsComplete(s: State, steps: seq<Step>, t: State)
    requires Inv(s) && Reachable(s, steps, t)
    requires forall step :: Progress(step) ==> !Enabled(t, step)
    ensures forall i :: i in t.polls ==> t.polls[i].phase == Done
  {
    RunKeepsInv(s, steps, t);
    if exists i :: i in t.polls && t.polls[i].phase != Done {
      var step := NeverDeadlocked(t);
    }
  }
}
