/**
 The publisher of fwEDR/internal/publisher/publisher.go: one drain loop, up to MaxInFlight sender
 goroutines, a failure streak and the DCS-down gate, interleaved step by step over the queue.
 */
module Publisher {
  import opened Queue
  import opened Bytes
  import opened Options

  // --- The gate ------------------------------------------------------------------------------

  datatype Health = Health(streak: nat, down: bool)

  /** `recordResult` under its mutex, when a gate is wired. */
  function Record(h: Health, downAfter: nat, ok: bool): Health
  {
    if ok then Health(0, false)
    else Health(h.streak + 1, h.down || h.streak + 1 >= downAfter)
  }

  /** The gate is down exactly when the failure streak has reached the threshold. */
  predicate GateAgrees(h: Health, downAfter: nat)
  {
    h.down <==> h.streak >= downAfter
  }

  lemma RecordKeepsGate(h: Health, downAfter: nat, ok: bool)
    requires downAfter > 0 && GateAgrees(h, downAfter)
    ensures GateAgrees(Record(h, downAfter, ok), downAfter)
  {
  }

  const HEALTHY: Health := Health(0, false)

  /** The state after a sequence of results, the oldest first. */
  function RecordAll(downAfter: nat, results: seq<bool>): Health
  {
    if results == [] then HEALTHY
    else Record(RecordAll(downAfter, results[..|results| - 1]), downAfter, results[|results| - 1])
  }

  /** How many results failed since the last success. */
  function FailuresInARow(results: seq<bool>): nat
  {
    if results == [] || results[|results| - 1] then 0 else FailuresInARow(results[..|results| - 1]) + 1
  }

  /** The last `n` results exist and all failed. */
  ghost predicate LastFailed(results: seq<bool>, n: nat)
  {
    |results| >= n && forall i :: |results| - n <= i < |results| ==> !results[i]
  }

  lemma {:induction false} InARowIff(results: seq<bool>, n: nat)
    ensures FailuresInARow(results) >= n <==> LastFailed(results, n)
    decreases |results|
  {
    if n > 0 && results != [] {
      InARowIff(results[..|results| - 1], n - 1);
    }
  }

  /** Over every sequence of results the streak counts the failures in a row, and a threshold of them holds the gate. */
  lemma {:induction false} HealthIsStreak(downAfter: nat, results: seq<bool>)
    requires downAfter > 0
    ensures RecordAll(downAfter, results).streak == FailuresInARow(results)
    ensures RecordAll(downAfter, results).down <==> LastFailed(results, downAfter)
    decreases |results|
  {
    if results != [] {
      var front := results[..|results| - 1];
      HealthIsStreak(downAfter, front);
      InARowIff(front, downAfter);
      InARowIff(results, downAfter);
    }
  }

  /** Without a gate results are not recorded. */
  function RecordIf(gated: bool, h: Health, downAfter: nat, ok: bool): Health
  {
    if gated then Record(h, downAfter, ok) else h
  }

  /** The fields `recordResult` guards. */
  class HealthRecorder {
    const gated: bool
    const downAfter: nat
    var failStreak: nat
    var dcsDown: bool

    ghost predicate Valid()
      reads this
    {
      downAfter > 0 && GateAgrees(Health(failStreak, dcsDown), downAfter)
    }

    constructor (gated: bool, configured: int)
      ensures Valid() && failStreak == 0 && !dcsDown && this.gated == gated
      ensures downAfter == if configured <= 0 then 3 else configured
    {
      this.gated := gated;
      downAfter := if configured <= 0 then 3 else configured;
      failStreak, dcsDown := 0, false;
    }

    method RecordResult(ok: bool)
      requires Valid()
      modifies this
      ensures Valid()
      ensures Health(failStreak, dcsDown) == RecordIf(gated, old(Health(failStreak, dcsDown)), downAfter, ok)
    {
      if !gated {
        return;
      }
      if ok {
        failStreak := 0;
        if dcsDown {
          dcsDown := false;
        }
        return;
      }
      failStreak := failStreak + 1;
      if failStreak >= downAfter && !dcsDown {
        dcsDown := true;
      }
    }
  }

  // --- State -----------------------------------------------------------------------------------

  /** A sender goroutine: sending, answered, past a failed call's record, or about to free its slot. */
  datatype Sender =
    | Sending(batch: seq<Packet>)
    | Answered
    | Failed(batch: seq<Packet>)
    | Requeueing(batch: seq<Packet>)
    | Finished

  /** What happened so far to the packets that pops returned. */
  datatype Ledger = Ledger(popped: multiset<Packet>, accepted: multiset<Packet>,
                           requeued: multiset<Packet>, lost: multiset<Packet>)

  /** Where the drain loop is: before the gate check, past it with the gate up or down, holding a batch, or ended. */
  datatype Drain = Top | Popping | Parked | Holding(batch: seq<Packet>) | Ended

  datatype PState = PState(q: State, health: Health, drain: Drain, senders: seq<Sender>, ledger: Ledger)

  datatype Config = Config(codec: Codec, maxBytes: int, batchSize: int, maxInFlight: nat, gated: bool, downAfter: nat)

  datatype Step =
    | Enqueue(ps: seq<Packet>, commits: bool)
    | CheckGate
    | PopBatch(commits: bool)
    | StartSend
    | CancelHeld(commits: bool)
    | RpcOk(i: nat)
    | RpcFails(i: nat)
    | RecordOk(i: nat)
    | RecordFailure(i: nat)
    | Requeue(i: nat, commits: bool)
    | FreeSlot(i: nat)
    | Probe(ok: bool)
    | Stop

  predicate Enabled(cfg: Config, s: PState, step: Step)
  {
    match step
    case Enqueue(_, _) => true
    case CheckGate => s.drain.Top?
    case PopBatch(_) => s.drain.Popping?
    case StartSend => s.drain.Holding? && |s.senders| < cfg.maxInFlight
    case CancelHeld(_) => s.drain.Holding?
    case RpcOk(i) => i < |s.senders| && s.senders[i].Sending?
    case RpcFails(i) => i < |s.senders| && s.senders[i].Sending?
    case RecordOk(i) => i < |s.senders| && s.senders[i].Answered?
    case RecordFailure(i) => i < |s.senders| && s.senders[i].Failed?
    case Requeue(i, _) => i < |s.senders| && s.senders[i].Requeueing?
    case FreeSlot(i) => i < |s.senders| && s.senders[i].Finished?
    case Probe(_) => s.drain.Parked?
    case Stop => s.drain.Top? || s.drain.Parked?
  }

  function SetSender(s: PState, i: nat, x: Sender): PState
    requires i < |s.senders|
  {
    s.(senders := s.senders[i := x])
  }

  /** Pushing a popped batch back; a refused push loses it. */
  function PushBack(cfg: Config, s: PState, ps: seq<Packet>, commits: bool): PState
  {
    var (q', r) := Push(cfg.codec, cfg.maxBytes, s.q, ps, commits);
    var l := s.ledger;
    s.(q := q',
       ledger := if r == Ok then l.(requeued := l.requeued + multiset(ps)) else l.(lost := l.lost + multiset(ps)))
  }

  function Apply(cfg: Config, s: PState, step: Step): PState
    requires Enabled(cfg, s, step)
  {
    match step
    case Enqueue(ps, commits) => s.(q := Push(cfg.codec, cfg.maxBytes, s.q, ps, commits).0)
    case CheckGate => s.(drain := if s.health.down then Parked else Popping)
    case PopBatch(commits) =>
      var (q', _, raw) := Pop(s.q, cfg.batchSize, commits);
      var batch := DecodeAll(cfg.codec, raw);
      s.(q := q', drain := if batch == [] then Top else Holding(batch),
         ledger := s.ledger.(popped := s.ledger.popped + multiset(batch)))
    case StartSend => s.(senders := s.senders + [Sending(s.drain.batch)], drain := Top)
    case CancelHeld(commits) => PushBack(cfg, s.(drain := Ended), s.drain.batch, commits)
    case RpcOk(i) =>
      SetSender(s, i, Answered).(ledger := s.ledger.(accepted := s.ledger.accepted + multiset(s.senders[i].batch)))
    case RpcFails(i) => SetSender(s, i, Failed(s.senders[i].batch))
    case RecordOk(i) => SetSender(s, i, Finished).(health := RecordIf(cfg.gated, s.health, cfg.downAfter, true))
    case RecordFailure(i) =>
      SetSender(s, i, Requeueing(s.senders[i].batch)).(health := RecordIf(cfg.gated, s.health, cfg.downAfter, false))
    case Requeue(i, commits) => SetSender(PushBack(cfg, s, s.senders[i].batch, commits), i, Finished)
    case FreeSlot(i) => s.(senders := s.senders[..i] + s.senders[i + 1..])
    case Probe(ok) => s.(drain := Top, health := RecordIf(cfg.gated, s.health, cfg.downAfter, ok))
    case Stop => s.(drain := Ended)
  }

  // --- Conservation -----------------------------------------------------------------------------

  /** The packets a sender still answers for. */
  function Carried(x: Sender): multiset<Packet>
  {
    if x.Sending? || x.Failed? || x.Requeueing? then multiset(x.batch) else multiset{}
  }

  function InFlight(xs: seq<Sender>): multiset<Packet>
  {
    if xs == [] then multiset{} else InFlight(xs[..|xs| - 1]) + Carried(xs[|xs| - 1])
  }

  lemma {:induction false} InFlightConcat(a: seq<Sender>, b: seq<Sender>)
    ensures InFlight(a + b) == InFlight(a) + InFlight(b)
  {
    if b == [] {
      assert a + b == a;
    } else {
      assert (a + b)[..|a + b| - 1] == a + b[..|b| - 1];
      InFlightConcat(a, b[..|b| - 1]);
    }
  }

  lemma InFlightOne(x: Sender)
    ensures InFlight([x]) == Carried(x)
  {
  }

  lemma InFlightAt(xs: seq<Sender>, i: nat, y: Sender)
    requires i < |xs|
    ensures InFlight(xs) == InFlight(xs[..i] + xs[i + 1..]) + Carried(xs[i])
    ensures InFlight(xs[i := y]) == InFlight(xs[..i] + xs[i + 1..]) + Carried(y)
  {
    hide InFlight, Carried;
    assert xs == xs[..i] + ([xs[i]] + xs[i + 1..]);
    assert xs[i := y] == xs[..i] + ([y] + xs[i + 1..]);
    InFlightConcat(xs[..i], [xs[i]] + xs[i + 1..]);
    InFlightConcat(xs[..i], [y] + xs[i + 1..]);
    InFlightConcat([xs[i]], xs[i + 1..]);
    InFlightConcat([y], xs[i + 1..]);
    InFlightConcat(xs[..i], xs[i + 1..]);
    InFlightOne(xs[i]);
    InFlightOne(y);
  }

  function Held(d: Drain): multiset<Packet>
  {
    if d.Holding? then multiset(d.batch) else multiset{}
  }

  /**
   Each popped packet occurrence is in exactly one place: with the drain loop, in flight, accepted,
   requeued, or lost.
   */
  ghost predicate Conserved(s: PState)
  {
    s.ledger.popped == Held(s.drain) + InFlight(s.senders) + s.ledger.accepted + s.ledger.requeued + s.ledger.lost
  }

  ghost predicate Inv(cfg: Config, s: PState)
  {
    && Conserved(s)
    && |s.senders| <= cfg.maxInFlight
    && GateAgrees(s.health, cfg.downAfter)
  }

  function Settled(l: Ledger): multiset<Packet>
  {
    l.accepted + l.requeued + l.lost
  }

  lemma ConservedIff(s: PState)
    ensures Conserved(s) <==> s.ledger.popped == Held(s.drain) + InFlight(s.senders) + Settled(s.ledger)
  {
  }

  /** Putting a batch back settles its packets, one way or the other. */
  lemma PutBackSettles(cfg: Config, s: PState, ps: seq<Packet>, commits: bool)
    ensures var s' := PushBack(cfg, s, ps, commits);
            && Settled(s'.ledger) == Settled(s.ledger) + multiset(ps)
            && s'.ledger.popped == s.ledger.popped && s'.drain == s.drain
            && s'.senders == s.senders && s'.health == s.health
  {
  }

  /** Packets count as accepted when their call returns, and as put back or lost by whether the push reports success. */
  lemma LedgerMoves(cfg: Config, s: PState, step: Step)
    requires Enabled(cfg, s, step)
    ensures var l, l', gone := s.ledger, Apply(cfg, s, step).ledger, PutBackBy(s, step);
            && l'.accepted == l.accepted + (if step.RpcOk? then multiset(s.senders[step.i].batch) else multiset{})
            && (gone.None? ==> l'.requeued == l.requeued && l'.lost == l.lost)
            && (gone.Some? ==>
                  var r := Push(cfg.codec, cfg.maxBytes, s.q, gone.value, step.commits).1;
                  && l'.requeued == l.requeued + (if r == Ok then multiset(gone.value) else multiset{})
                  && l'.lost == l.lost + (if r == Ok then multiset{} else multiset(gone.value)))
  {
    hide Push, Pop, DecodeAll, Record, RecordIf;
  }

  /** The batch that a step puts back. */
  ghost function PutBackBy(s: PState, step: Step): (ps: Option<seq<Packet>>)
    ensures ps.Some? ==> step.CancelHeld? || step.Requeue?
  {
    if step.CancelHeld? && s.drain.Holding? then Some(s.drain.batch)
    else if step.Requeue? && step.i < |s.senders| && s.senders[step.i].Requeueing? then Some(s.senders[step.i].batch)
    else None
  }

  lemma DrainConserves(cfg: Config, s: PState, step: Step)
    requires Conserved(s) && Enabled(cfg, s, step)
    requires step.Enqueue? || step.Probe? || step.CheckGate? || step.Stop?
    ensures Conserved(Apply(cfg, s, step))
  {
    hide InFlight, Push, Pop, DecodeAll, Record, RecordIf, PushBack;
  }

  lemma PopConserves(cfg: Config, s: PState, commits: bool)
    requires Conserved(s) && Enabled(cfg, s, PopBatch(commits))
    ensures Conserved(Apply(cfg, s, PopBatch(commits)))
  {
    hide InFlight, Push, Pop, DecodeAll, Record, RecordIf, PushBack;
  }

  lemma StartConserves(cfg: Config, s: PState)
    requires Conserved(s) && Enabled(cfg, s, StartSend)
    ensures Conserved(Apply(cfg, s, StartSend))
  {
    hide InFlight;
    InFlightConcat(s.senders, [Sending(s.drain.batch)]);
    InFlightOne(Sending(s.drain.batch));
  }

  lemma CancelConserves(cfg: Config, s: PState, commits: bool)
    requires Conserved(s) && Enabled(cfg, s, CancelHeld(commits))
    ensures Conserved(Apply(cfg, s, CancelHeld(commits)))
  {
    hide InFlight, PushBack;
    ConservedIff(s);
    ConservedIff(Apply(cfg, s, CancelHeld(commits)));
    PutBackSettles(cfg, s.(drain := Ended), s.drain.batch, commits);
  }

  lemma AcceptSettles(l: Ledger, ps: multiset<Packet>)
    ensures Settled(l.(accepted := l.accepted + ps)) == Settled(l) + ps
  {
  }

  lemma SenderConserves(cfg: Config, s: PState, step: Step)
    requires Conserved(s) && Enabled(cfg, s, step)
    requires step.RpcFails? || step.RecordOk? || step.RecordFailure?
    ensures Conserved(Apply(cfg, s, step))
  {
    hide InFlight, Record, RecordIf, Held, Settled, Conserved;
    var s', i := Apply(cfg, s, step), step.i;
    assert s'.senders == s.senders[i := s'.senders[i]] && Carried(s'.senders[i]) == Carried(s.senders[i]);
    assert s'.ledger == s.ledger && s'.drain == s.drain;
    SwapConserves(s, s', i);
  }

  /** Replacing a sender by one that answers for the same packets conserves them. */
  lemma SwapConserves(s: PState, s': PState, i: nat)
    requires Conserved(s) && i < |s.senders| && s'.ledger == s.ledger && s'.drain == s.drain
    requires |s'.senders| == |s.senders| && s'.senders == s.senders[i := s'.senders[i]]
    requires Carried(s'.senders[i]) == Carried(s.senders[i])
    ensures Conserved(s')
  {
    hide InFlight, Carried, Held;
    InFlightAt(s.senders, i, s'.senders[i]);
  }

  lemma AcceptConserves(cfg: Config, s: PState, step: Step)
    requires Conserved(s) && Enabled(cfg, s, step) && step.RpcOk?
    ensures Conserved(Apply(cfg, s, step))
  {
    hide InFlight, Held, Settled, Conserved;
    ConservedIff(s);
    ConservedIff(Apply(cfg, s, step));
    InFlightAt(s.senders, step.i, Answered);
    AcceptSettles(s.ledger, multiset(s.senders[step.i].batch));
  }

  lemma FreeSlotConserves(cfg: Config, s: PState, step: Step)
    requires Conserved(s) && Enabled(cfg, s, step) && step.FreeSlot?
    ensures Conserved(Apply(cfg, s, step))
  {
    hide InFlight, Held, Settled, Conserved;
    ConservedIff(s);
    ConservedIff(Apply(cfg, s, step));
    InFlightAt(s.senders, step.i, Finished);
  }

  lemma RequeueConserves(cfg: Config, s: PState, step: Step)
    requires Conserved(s) && Enabled(cfg, s, step) && step.Requeue?
    ensures Conserved(Apply(cfg, s, step))
  {
    hide InFlight, Held, PushBack, Settled, Conserved;
    ConservedIff(s);
    ConservedIff(Apply(cfg, s, step));
    InFlightAt(s.senders, step.i, Finished);
    PutBackSettles(cfg, s, s.senders[step.i].batch, step.commits);
  }

  lemma StepConserves(cfg: Config, s: PState, step: Step)
    requires Conserved(s) && Enabled(cfg, s, step)
    ensures Conserved(Apply(cfg, s, step))
  {
    hide Conserved, Enabled, Apply;
    match step
    case Enqueue(_, _) => DrainConserves(cfg, s, step);
    case PopBatch(commits) => PopConserves(cfg, s, commits);
    case StartSend => StartConserves(cfg, s);
    case CancelHeld(commits) => CancelConserves(cfg, s, commits);
    case RpcOk(_) => AcceptConserves(cfg, s, step);
    case RpcFails(_) => SenderConserves(cfg, s, step);
    case RecordOk(_) => SenderConserves(cfg, s, step);
    case RecordFailure(_) => SenderConserves(cfg, s, step);
    case Requeue(_, _) => RequeueConserves(cfg, s, step);
    case FreeSlot(_) => FreeSlotConserves(cfg, s, step);
    case Probe(_) => DrainConserves(cfg, s, step);
    case CheckGate => DrainConserves(cfg, s, step);
    case Stop => DrainConserves(cfg, s, step);
  }

  lemma SlotsAndGateKept(cfg: Config, s: PState, step: Step)
    requires cfg.downAfter > 0 && |s.senders| <= cfg.maxInFlight && GateAgrees(s.health, cfg.downAfter)
    requires Enabled(cfg, s, step)
    ensures |Apply(cfg, s, step).senders| <= cfg.maxInFlight && GateAgrees(Apply(cfg, s, step).health, cfg.downAfter)
  {
    hide Push, Pop, DecodeAll;
  }

  lemma StepKeepsInv(cfg: Config, s: PState, step: Step)
    requires cfg.downAfter > 0 && Inv(cfg, s) && Enabled(cfg, s, step)
    ensures Inv(cfg, Apply(cfg, s, step))
  {
    StepConserves(cfg, s, step);
    SlotsAndGateKept(cfg, s, step);
    hide Conserved, Apply, Enabled, GateAgrees;
  }

  function Start(q: State): PState
  {
    PState(q, HEALTHY, Top, [], Ledger(multiset{}, multiset{}, multiset{}, multiset{}))
  }

  ghost predicate Runs(cfg: Config, s: PState, steps: seq<Step>, t: PState)
    decreases |steps|
  {
    if steps == [] then s == t
    else Enabled(cfg, s, steps[0]) && Runs(cfg, Apply(cfg, s, steps[0]), steps[1..], t)
  }

  lemma {:induction false} RunKeepsInv(cfg: Config, s: PState, steps: seq<Step>, t: PState)
    requires cfg.downAfter > 0 && Inv(cfg, s) && Runs(cfg, s, steps, t)
    ensures Inv(cfg, t)
    decreases |steps|
  {
    if steps != [] {
      StepKeepsInv(cfg, s, steps[0]);
      hide Inv, Enabled, Apply;
      RunKeepsInv(cfg, Apply(cfg, s, steps[0]), steps[1..], t);
    }
  }

  /** The results a run records: of answered and failed sends, and of probes. */
  function ResultsOf(steps: seq<Step>): seq<bool>
  {
    if steps == [] then [] else ResultOf(steps[0]) + ResultsOf(steps[1..])
  }

  function ResultOf(step: Step): seq<bool>
  {
    match step
    case RecordOk(_) => [true]
    case RecordFailure(_) => [false]
    case Probe(ok) => [ok]
    case _ => []
  }

  lemma StepRecords(cfg: Config, s: PState, step: Step, before: seq<bool>)
    requires Enabled(cfg, s, step) && s.health == if cfg.gated then RecordAll(cfg.downAfter, before) else HEALTHY
    ensures Apply(cfg, s, step).health
         == if cfg.gated then RecordAll(cfg.downAfter, before + ResultOf(step)) else HEALTHY
  {
    hide Push, Pop, DecodeAll;
    if ResultOf(step) == [] {
      assert before + ResultOf(step) == before;
    } else {
      assert (before + ResultOf(step))[..|before|] == before;
    }
  }

  lemma {:induction false} RunRecords(cfg: Config, s: PState, steps: seq<Step>, t: PState, before: seq<bool>)
    requires Runs(cfg, s, steps, t) && s.health == if cfg.gated then RecordAll(cfg.downAfter, before) else HEALTHY
    ensures t.health == if cfg.gated then RecordAll(cfg.downAfter, before + ResultsOf(steps)) else HEALTHY
    decreases |steps|
  {
    hide Apply, Enabled, ResultOf, RecordAll;
    if steps == [] {
      assert before + ResultsOf(steps) == before;
    } else {
      StepRecords(cfg, s, steps[0], before);
      RunRecords(cfg, Apply(cfg, s, steps[0]), steps[1..], t, before + ResultOf(steps[0]));
      assert before + ResultsOf(steps) == (before + ResultOf(steps[0])) + ResultsOf(steps[1..]);
    }
  }

  /**
   In every interleaving, from any queue: every packet a pop returned is exactly one of held, in flight,
   accepted by a call without error, put back, or lost to a refused put-back; no more batches are being
   sent than MaxInFlight; and the gate, if there is one, is down exactly when the last `downAfter` calls
   and probes all failed.
   */
  lemma DeliveryAccounts(cfg: Config, q: State, steps: seq<Step>, t: PState)
    requires cfg.downAfter > 0 && Runs(cfg, Start(q), steps, t)
    ensures t.ledger.popped ==
            Held(t.drain) + InFlight(t.senders) + t.ledger.accepted + t.ledger.requeued + t.ledger.lost
    ensures |t.senders| <= cfg.maxInFlight
    ensures t.health.down <==> cfg.gated && LastFailed(ResultsOf(steps), cfg.downAfter)
    ensures cfg.gated ==> t.health.streak == FailuresInARow(ResultsOf(steps))
  {
    assert Inv(cfg, Start(q));
    assert RecordAll(cfg.downAfter, []) == HEALTHY && [] + ResultsOf(steps) == ResultsOf(steps);
    hide Runs, Start, RecordAll, LastFailed, FailuresInARow;
    RunKeepsInv(cfg, Start(q), steps, t);
    RunRecords(cfg, Start(q), steps, t, []);
    HealthIsStreak(cfg.downAfter, ResultsOf(steps));
  }

  /** The gate is down before each step of a run. */
  ghost predicate DownThroughout(cfg: Config, s: PState, steps: seq<Step>)
    decreases |steps|
  {
    steps != [] ==>
      s.health.down && Enabled(cfg, s, steps[0]) && DownThroughout(cfg, Apply(cfg, s, steps[0]), steps[1..])
  }

  function Pops(steps: seq<Step>): nat
  {
    if steps == [] then 0 else (if steps[0].PopBatch? then 1 else 0) + Pops(steps[1..])
  }

  /** While the gate is down no batch is popped, but for one whose gate check came before. */
  lemma {:induction false} PausedDrainPopsNothing(cfg: Config, s: PState, steps: seq<Step>)
    requires DownThroughout(cfg, s, steps)
    ensures Pops(steps) <= if s.drain.Popping? then 1 else 0
    decreases |steps|
  {
    if steps != [] {
      PausedDrainPopsNothing(cfg, Apply(cfg, s, steps[0]), steps[1..]);
      DownStep(cfg, s, steps[0]);
      hide Apply, Enabled;
    }
  }

  lemma DownStep(cfg: Config, s: PState, step: Step)
    requires s.health.down && Enabled(cfg, s, step)
    ensures step.PopBatch? ==> s.drain.Popping?
    ensures Apply(cfg, s, step).drain.Popping? ==> s.drain.Popping? && !step.PopBatch?
  {
  }

  /** A put-back that reports success has stored every packet of the batch, in order, behind what was stored before. */
  lemma PutBackIsStored(cfg: Config, q: State, log: Log, ps: seq<Packet>, commits: bool, room: nat)
    requires Sound(q, room + |ps|) && Fifo(q, log) && ps != []
    requires Push(cfg.codec, cfg.maxBytes, q, ps, commits).1 == Ok
    ensures q.seqNo + |ps| < TWO64
    ensures MarshalAll(cfg.codec, ps).Some? && |MarshalAll(cfg.codec, ps).value| == |ps|
    ensures var log' := LogStep(cfg.codec, cfg.maxBytes, q, log, PushOp(ps, commits));
            Fifo(Push(cfg.codec, cfg.maxBytes, q, ps, commits).0, log') && log'.popped == log.popped
            && log'.stored == log.stored + Appended(q.seqNo, MarshalAll(cfg.codec, ps).value)
  {
    hide Sound, Fifo, PushAll, LogAll, MarshalAll, Appended;
    SoundParts(q, room + |ps|);
    FailedBatchChangesNothing(cfg.codec, cfg.maxBytes, q, ps, commits);
    var xs := MarshalAll(cfg.codec, ps).value;
    MarshalledCount(cfg.codec, ps);
    PushAllLaws(cfg.codec, cfg.maxBytes, q, log, xs, room);
    StoredIsAppended(cfg.codec, cfg.maxBytes, q, log, xs);
  }
}
