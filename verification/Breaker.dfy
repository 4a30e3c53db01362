/**
 The per-target circuit breakers of fwEDR/internal/poller/poller.go, lines 806-874, with each atomic
 call as one step, and every interleaving of one check with one failure at the grain of single atomic
 operations.
 */
module Breaker {

  /** `fails`, and `openUntil` in nanoseconds, zero when closed. */
  datatype Fields = Fields(fails: nat, openUntil: nat)

  datatype Settings = Settings(threshold: nat, cooldown: nat)

  const CLOSED: Fields := Fields(0, 0)

  predicate Elapsed(b: Fields, now: nat)
  {
    b.openUntil != 0 && now >= b.openUntil
  }

  predicate Trips(b: Fields, now: nat)
  {
    b.openUntil != 0 && now < b.openUntil
  }

  function AfterCheck(b: Fields, now: nat): Fields
  {
    if Elapsed(b, now) then CLOSED else b
  }

  function AfterFailure(c: Settings, b: Fields, now: nat): Fields
  {
    Fields(b.fails + 1, if b.fails + 1 >= c.threshold then now + c.cooldown else b.openUntil)
  }

  /** What `recordFailure` returns. */
  predicate ReportsOpening(c: Settings, b: Fields)
  {
    b.fails + 1 >= c.threshold && b.openUntil == 0
  }

  // --- Runs of calls ---------------------------------------------------------------------------------

  datatype Call = Check(now: nat) | Failure(now: nat) | Success

  function Step(c: Settings, b: Fields, call: Call): Fields
  {
    match call
    case Check(now) => AfterCheck(b, now)
    case Failure(now) => AfterFailure(c, b, now)
    case Success => CLOSED
  }

  function Run(c: Settings, calls: seq<Call>): Fields
  {
    if calls == [] then CLOSED else Step(c, Run(c, calls[..|calls| - 1]), calls[|calls| - 1])
  }

  /** Failures since the latest success, or the latest check made a cooldown after an opening failure. */
  function Streak(c: Settings, calls: seq<Call>): nat
  {
    if calls == [] then 0
    else
      var before := calls[..|calls| - 1];
      match calls[|calls| - 1]
      case Failure(_) => Streak(c, before) + 1
      case Success => 0
      case Check(now) =>
        if Streak(c, before) >= c.threshold && now >= LatestFailure(before) + c.cooldown then 0 else Streak(c, before)
  }

  /** When the latest failure was recorded; zero without one. */
  function LatestFailure(calls: seq<Call>): nat
  {
    if calls == [] then 0
    else if calls[|calls| - 1].Failure? then calls[|calls| - 1].now
    else LatestFailure(calls[..|calls| - 1])
  }

  /** The fields always hold the streak, and a cooldown from its latest failure once it reached the threshold. */
  lemma {:induction false} FieldsAreStreak(c: Settings, calls: seq<Call>)
    requires c.threshold > 0 && c.cooldown > 0
    ensures Run(c, calls)
         == Fields(Streak(c, calls), if Streak(c, calls) >= c.threshold then LatestFailure(calls) + c.cooldown else 0)
    decreases |calls|
  {
    if calls != [] {
      FieldsAreStreak(c, calls[..|calls| - 1]);
    }
  }

  /** A poll is refused exactly when a threshold of failures came in a row and the latest is within the cooldown. */
  lemma RefusedIff(c: Settings, calls: seq<Call>, now: nat)
    requires c.threshold > 0 && c.cooldown > 0
    ensures Trips(Run(c, calls), now) <==> Streak(c, calls) >= c.threshold && now < LatestFailure(calls) + c.cooldown
  {
    FieldsAreStreak(c, calls);
    hide Run, Streak, LatestFailure;
  }

  /** `recordFailure` reports the one failure of a streak that opens the breaker. */
  lemma ReportedOnce(c: Settings, calls: seq<Call>)
    requires c.threshold > 0 && c.cooldown > 0
    ensures ReportsOpening(c, Run(c, calls)) <==> Streak(c, calls) == c.threshold - 1
  {
    FieldsAreStreak(c, calls);
    hide Run, Streak, LatestFailure;
  }

  /** After the cooldown it takes a whole new threshold of failures, not one, to refuse polls again. */
  lemma {:induction false} ReopensAfterThreshold(c: Settings, calls: seq<Call>, at: nat, times: seq<nat>, now: nat)
    requires c.threshold > 0 && c.cooldown > 0
    requires Streak(c, calls) >= c.threshold && at >= LatestFailure(calls) + c.cooldown
    ensures Streak(c, calls + [Check(at)] + Failures(times)) == |times|
    ensures |times| < c.threshold ==> !Trips(Run(c, calls + [Check(at)] + Failures(times)), now)
    decreases |times|
  {
    var all := calls + [Check(at)] + Failures(times);
    if times == [] {
      assert all == calls + [Check(at)] && all[..|all| - 1] == calls;
    } else {
      ReopensAfterThreshold(c, calls, at, times[..|times| - 1], now);
      assert all[..|all| - 1] == calls + [Check(at)] + Failures(times[..|times| - 1]);
    }
    RefusedIff(c, all, now);
    hide Run, LatestFailure;
  }

  function Failures(times: seq<nat>): (calls: seq<Call>)
    ensures |calls| == |times|
  {
    seq(|times|, i requires 0 <= i < |times| => Failure(times[i]))
  }

  // --- A race -----------------------------------------------------------------------------------------

  /** The atomic operations of a check and of a failure, each named by the one that comes next. */
  datatype CheckAt = LoadDeadline | ZeroDeadline | ZeroFails | Checked
  datatype FailAt = AddOne | LoadWasOpen | StoreDeadline | Failed

  /**
   One check and one failure under way on one breaker, with what they have computed. The last three
   fields are history: whether the check loaded the deadline before the failure was through, whether it
   zeroed the deadline after the failure was through, and whether it zeroed the count after the failure
   had added to it.
   */
  datatype Race = Race(b: Fields, check: CheckAt, fail: FailAt, tripped: bool, wasOpen: bool, opens: bool,
                       loadedBefore: bool, zeroedAfter: bool, addLost: bool)

  datatype Thread = Checker | Failer

  function CheckOp(s: Race, now: nat): Race
  {
    match s.check
    case LoadDeadline =>
      var t := s.(loadedBefore := s.fail != Failed);
      if s.b.openUntil == 0 then t.(check := Checked)
      else if now < s.b.openUntil then t.(check := Checked, tripped := true)
      else t.(check := ZeroDeadline)
    case ZeroDeadline => s.(b := s.b.(openUntil := 0), check := ZeroFails, zeroedAfter := s.fail == Failed)
    case ZeroFails => s.(b := s.b.(fails := 0), check := Checked, addLost := s.fail != AddOne)
    case Checked => s
  }

  function FailOp(c: Settings, s: Race, at: nat): Race
  {
    match s.fail
    case AddOne =>
      var t := s.(b := s.b.(fails := s.b.fails + 1));
      t.(fail := if s.b.fails + 1 >= c.threshold then LoadWasOpen else Failed)
    case LoadWasOpen => s.(wasOpen := s.b.openUntil != 0, fail := StoreDeadline)
    case StoreDeadline => s.(b := s.b.(openUntil := at + c.cooldown), opens := !s.wasOpen, fail := Failed)
    case Failed => s
  }

  /** The two calls after the operations of an interleaving; a thread that is through does nothing more. */
  function Raced(c: Settings, b: Fields, now: nat, at: nat, order: seq<Thread>): Race
  {
    if order == [] then Race(b, LoadDeadline, AddOne, false, false, false, false, false, false)
    else
      var s := Raced(c, b, now, at, order[..|order| - 1]);
      if order[|order| - 1] == Checker then CheckOp(s, now) else FailOp(c, s, at)
  }

  /** An open breaker has counted a threshold of failures, as after every run of whole calls. */
  predicate Sound(c: Settings, b: Fields)
  {
    c.threshold > 0 && c.cooldown > 0 && (b.openUntil != 0 ==> b.fails >= c.threshold)
  }

  lemma RunIsSound(c: Settings, calls: seq<Call>)
    requires c.threshold > 0 && c.cooldown > 0
    ensures Sound(c, Run(c, calls))
  {
    FieldsAreStreak(c, calls);
    hide Run, Streak, LatestFailure;
  }

  /** What the calls leave behind and return when the check goes first, or the failure. */
  ghost predicate CheckFirst(c: Settings, b: Fields, now: nat, at: nat, s: Race)
  {
    var mid := AfterCheck(b, now);
    s.b == AfterFailure(c, mid, at) && (s.tripped <==> Trips(b, now)) && (s.opens <==> ReportsOpening(c, mid))
  }

  ghost predicate FailureFirst(c: Settings, b: Fields, now: nat, at: nat, s: Race)
  {
    var mid := AfterFailure(c, b, at);
    s.b == AfterCheck(mid, now) && (s.tripped <==> Trips(mid, now)) && (s.opens <==> ReportsOpening(c, b))
  }

  /** The calls overlap when the check loads before the store, and its zero wipes out the failure's count. */
  predicate Overlap(s: Race)
  {
    s.loadedBefore && s.addLost
  }

  // --- Every interleaving -----------------------------------------------------------------------------

  /** The failure so far, with no interference from the check. */
  ghost predicate FailAlone(c: Settings, b: Fields, at: nat, s: Race)
  {
    (s.opens ==> s.fail == Failed) &&
    match s.fail
    case AddOne => s.b == b
    case LoadWasOpen => s.b == b.(fails := b.fails + 1) && s.b.fails >= c.threshold
    case StoreDeadline => s.b == b.(fails := b.fails + 1) && s.b.fails >= c.threshold && s.wasOpen == (b.openUntil != 0)
    case Failed => s.b == AfterFailure(c, b, at) && (s.opens <==> ReportsOpening(c, b))
  }

  /** The check so far, begun when the failure was through. */
  ghost predicate CheckAfter(c: Settings, b: Fields, now: nat, at: nat, s: Race)
  {
    var mid := AfterFailure(c, b, at);
    && s.fail == Failed && !s.loadedBefore && (s.opens <==> ReportsOpening(c, b))
    && match s.check
       case LoadDeadline => false
       case ZeroDeadline => Elapsed(mid, now) && !s.tripped && s.b == mid
       case ZeroFails => Elapsed(mid, now) && !s.tripped && s.b == mid.(openUntil := 0)
       case Checked => s.b == AfterCheck(mid, now) && (s.tripped <==> Trips(mid, now))
  }

  /** A check under way that found the deadline of `b` elapsed, and a failure under way beside it. */
  ghost predicate Closing(c: Settings, b: Fields, at: nat, s: Race)
  {
    && s.loadedBefore && !s.tripped
    && match s.check
       case LoadDeadline => false
       case ZeroDeadline => FailAlone(c, b, at, s)
       case ZeroFails => HalfClosed(c, b, at, s)
       case Checked => if s.addLost then CountLost(c, at, s) else !s.zeroedAfter && FailAlone(c, CLOSED, at, s)
  }

  /** The deadline has been zeroed and the count has not. */
  ghost predicate HalfClosed(c: Settings, b: Fields, at: nat, s: Race)
  {
    if s.fail == AddOne then s.b == b.(openUntil := 0) && !s.zeroedAfter && !s.opens
    else
      && s.b.fails == b.fails + 1
      && (s.b.openUntil == if s.fail == Failed && !s.zeroedAfter then at + c.cooldown else 0)
      && (s.zeroedAfter ==> s.fail == Failed && !s.opens)
  }

  /** Both have been zeroed, the count after the failure had added to it. */
  ghost predicate CountLost(c: Settings, at: nat, s: Race)
  {
    && s.fail != AddOne && s.b.fails == 0
    && (s.b.openUntil == if s.fail == Failed && !s.zeroedAfter then at + c.cooldown else 0)
    && (s.zeroedAfter ==> s.fail == Failed && !s.opens)
  }

  ghost predicate RaceInv(c: Settings, b: Fields, now: nat, at: nat, s: Race)
  {
    if s.check == LoadDeadline then !s.tripped && !s.addLost && !s.zeroedAfter && FailAlone(c, b, at, s)
    else if !s.loadedBefore then CheckAfter(c, b, now, at, s)
    else if Elapsed(b, now) then Closing(c, b, at, s)
    else s.check == Checked && !s.addLost && (s.tripped <==> Trips(b, now)) && FailAlone(c, b, at, s)
  }

  lemma CheckOpKeeps(c: Settings, b: Fields, now: nat, at: nat, s: Race)
    requires Sound(c, b) && RaceInv(c, b, now, at, s)
    ensures RaceInv(c, b, now, at, CheckOp(s, now))
  {
    match s.check
    case LoadDeadline => hide HalfClosed, CountLost;
    case ZeroDeadline => hide CountLost, ReportsOpening;
    case ZeroFails => hide ReportsOpening;
    case Checked => hide *;
  }

  lemma FailOpKeeps(c: Settings, b: Fields, now: nat, at: nat, s: Race)
    requires Sound(c, b) && RaceInv(c, b, now, at, s)
    ensures RaceInv(c, b, now, at, FailOp(c, s, at))
  {
    match s.check
    case LoadDeadline => hide HalfClosed, CountLost, CheckAfter;
    case ZeroDeadline => hide HalfClosed, CountLost;
    case ZeroFails => hide FailAlone, CountLost;
    case Checked => hide HalfClosed;
  }

  lemma {:induction false} RaceKeepsInv(c: Settings, b: Fields, now: nat, at: nat, order: seq<Thread>)
    requires Sound(c, b)
    ensures RaceInv(c, b, now, at, Raced(c, b, now, at, order))
    decreases |order|
  {
    hide Sound, CheckOp, FailOp;
    if order != [] {
      RaceKeepsInv(c, b, now, at, order[..|order| - 1]);
      hide RaceInv;
      var s := Raced(c, b, now, at, order[..|order| - 1]);
      CheckOpKeeps(c, b, now, at, s);
      FailOpKeeps(c, b, now, at, s);
    }
  }

  /**
   Every interleaving of a check and a failure leaves behind and returns what one of the two serial
   orders does, exactly when the calls did not overlap, or the store came before the check's zeroes and
   its cooldown is over too.
   */
  lemma RaceIsSerialIff(c: Settings, b: Fields, now: nat, at: nat, order: seq<Thread>)
    requires Sound(c, b)
    requires Raced(c, b, now, at, order).check == Checked && Raced(c, b, now, at, order).fail == Failed
    ensures var s := Raced(c, b, now, at, order);
            CheckFirst(c, b, now, at, s) || FailureFirst(c, b, now, at, s)
            <==> !Overlap(s) || (s.zeroedAfter && now >= at + c.cooldown)
  {
    RaceKeepsInv(c, b, now, at, order);
    hide Raced;
  }

  /** An overlap leaves a count of zero, and the breaker open exactly when the store came after the check's zero. */
  lemma OverlapEnds(c: Settings, b: Fields, now: nat, at: nat, order: seq<Thread>)
    requires Sound(c, b) && Overlap(Raced(c, b, now, at, order))
    requires Raced(c, b, now, at, order).check == Checked && Raced(c, b, now, at, order).fail == Failed
    ensures var s := Raced(c, b, now, at, order);
            s.b == Fields(0, if s.zeroedAfter then 0 else at + c.cooldown) && !s.tripped
  {
    RaceKeepsInv(c, b, now, at, order);
    hide Raced;
  }

  /** Some interleaving closes the breaker where a serial order leaves it open: the failure between load and zeroes. */
  lemma RaceLosesOpening(c: Settings, b: Fields, now: nat, at: nat) returns (order: seq<Thread>)
    requires Sound(c, b) && Elapsed(b, now) && now < at + c.cooldown
    ensures var s := Raced(c, b, now, at, order); s.check == Checked && s.fail == Failed && s.b == CLOSED
    ensures Trips(AfterCheck(AfterFailure(c, b, at), now), now)
    ensures Trips(AfterFailure(c, AfterCheck(b, now), at), now) <==> c.threshold == 1
  {
    RacedStart(c, b, now, at);
    hide Raced;
    RacedStep(c, b, now, at, []);
    order := [] + [Checker];
    RacedStep(c, b, now, at, order);
    order := order + [Failer];
    RacedStep(c, b, now, at, order);
    order := order + [Failer];
    RacedStep(c, b, now, at, order);
    order := order + [Failer];
    RacedStep(c, b, now, at, order);
    order := order + [Checker];
    RacedStep(c, b, now, at, order);
    order := order + [Checker];
  }

  lemma RacedStart(c: Settings, b: Fields, now: nat, at: nat)
    ensures Raced(c, b, now, at, []) == Race(b, LoadDeadline, AddOne, false, false, false, false, false, false)
  {
  }

  lemma RacedStep(c: Settings, b: Fields, now: nat, at: nat, order: seq<Thread>)
    ensures Raced(c, b, now, at, order + [Checker]) == CheckOp(Raced(c, b, now, at, order), now)
    ensures Raced(c, b, now, at, order + [Failer]) == FailOp(c, Raced(c, b, now, at, order), at)
  {
    hide CheckOp, FailOp;
    assert (order + [Checker])[..|order|] == order && (order + [Failer])[..|order|] == order;
  }

  // --- The objects ----------------------------------------------------------------------------------------

  class CircuitBreaker {
    const threshold: nat
    const cooldown: nat
    var fails: nat
    var openUntil: nat

    constructor (threshold: nat, cooldown: nat)
      ensures this.threshold == threshold && this.cooldown == cooldown && Now() == CLOSED
    {
      this.threshold, this.cooldown := threshold, cooldown;
      fails, openUntil := 0, 0;
    }

    function Now(): Fields
      reads this
    {
      Fields(fails, openUntil)
    }

    /** Also closes the breaker when its cooldown has elapsed, whoever asks. */
    method Tripped(now: nat) returns (open: bool)
      modifies this
      ensures open <==> Trips(old(Now()), now)
      ensures Now() == AfterCheck(old(Now()), now)
    {
      if openUntil == 0 {
        return false;
      }
      if now < openUntil {
        return true;
      }
      openUntil := 0;
      fails := 0;
      return false;
    }

    method RecordFailure(now: nat) returns (opens: bool)
      modifies this
      ensures opens <==> ReportsOpening(Settings(threshold, cooldown), old(Now()))
      ensures Now() == AfterFailure(Settings(threshold, cooldown), old(Now()), now)
    {
      fails := fails + 1;
      if fails >= threshold {
        var wasOpen := openUntil != 0;
        openUntil := now + cooldown;
        return !wasOpen;
      }
      return false;
    }

    method RecordSuccess()
      modifies this
      ensures Now() == CLOSED
    {
      fails, openUntil := 0, 0;
    }
  }

  /** The poller's two maps of breakers. */
  class Breakers {
    const breakerThreshold: int
    const fastThreshold: int
    const cooldownMs: int
    var live: map<string, CircuitBreaker>
    var heavy: map<string, CircuitBreaker>

    /** The heartbeat and the heavy walks of a target never share a breaker, nor do two targets. */
    ghost predicate Valid()
      reads this
    {
      && (forall j, k :: j in live && k in heavy ==> live[j] != heavy[k])
      && (forall j, k :: j in live && k in live && live[j] == live[k] ==> j == k)
      && (forall j, k :: j in heavy && k in heavy && heavy[j] == heavy[k] ==> j == k)
    }

    constructor (breakerThreshold: int, fastThreshold: int, cooldownMs: int)
      ensures Valid() && live == map[] && heavy == map[]
    {
      this.breakerThreshold, this.fastThreshold, this.cooldownMs := breakerThreshold, fastThreshold, cooldownMs;
      live, heavy := map[], map[];
    }

    method GetBreaker(source: string, ip: string, fast: bool) returns (br: CircuitBreaker)
      requires Valid()
      modifies this
      ensures Valid()
      ensures var key, before := source + "|" + ip, if fast then old(live) else old(heavy);
              && (if fast then live else heavy) == before[key := br]
              && (if fast then heavy == old(heavy) else live == old(live))
              && (if key in before then br == before[key] else fresh(br) && br.Now() == CLOSED && Configured(br, fast))
    {
      var key := source + "|" + ip;
      var m, threshold := heavy, breakerThreshold;
      if fast {
        m, threshold := live, fastThreshold;
      }
      if key in m {
        assert m[key := m[key]] == m;
        return m[key];
      }
      var cooldown: int := cooldownMs * 1_000_000;
      if cooldown <= 0 {
        cooldown := 30_000_000_000;
      }
      if threshold <= 0 {
        threshold := 3;
      }
      br := new CircuitBreaker(threshold, cooldown);
      if fast {
        live := live[key := br];
      } else {
        heavy := heavy[key := br];
      }
    }

    /** Every breaker a caller can get has a positive threshold and cooldown. */
    ghost predicate Configured(br: CircuitBreaker, fast: bool)
    {
      && br.threshold == (var t := if fast then fastThreshold else breakerThreshold; if t <= 0 then 3 else t)
      && br.cooldown == (if cooldownMs <= 0 then 30_000_000_000 else cooldownMs * 1_000_000)
    }
  }
}
