/**
 The device-command work queue: the table of fwDCS/internal/store/commands.go and the pull, apply,
 ack loop of fwEDR/internal/command/loop.go, with one puller that acks each command in turn.
 */
module Commands {

  datatype Status = Pending | Applied | Failed

  datatype Cmd = Cmd(id: nat, ip: string, field: string, value: string, hostname: string,
                     status: Status, attempts: nat, lastError: string)

  /** What applying a command on its device came to. */
  datatype Outcome = Outcome(applied: bool, err: string)

  datatype Edit = Edit(ip: string, field: string, value: string, hostname: string)

  const MAX_ATTEMPTS: nat := 5
  const MAX_ERROR: nat := 512
  const DEFAULT_LIMIT: nat := 100

  function Limit(limit: int): (n: nat)
    ensures n == if limit > 0 then limit else 100
  {
    if limit <= 0 then DEFAULT_LIMIT else limit
  }

  // --- The statements ------------------------------------------------------------------------

  predicate Same(c: Cmd, e: Edit)
  {
    c.status == Pending && c.ip == e.ip && c.field == e.field
  }

  predicate HasPending(rows: seq<Cmd>, e: Edit)
  {
    exists i :: 0 <= i < |rows| && Same(rows[i], e)
  }

  function Overwrite(c: Cmd, e: Edit): Cmd
  {
    if Same(c, e) then c.(value := e.value, hostname := e.hostname) else c
  }

  /** Edits without a device or a field are not queued. */
  predicate Skipped(e: Edit)
  {
    e.ip == "" || e.field == ""
  }

  /** A conflicting insert draws an id from the sequence too. */
  function NextId(nextId: nat, e: Edit): nat
  {
    if Skipped(e) then nextId else nextId + 1
  }

  /** `INSERT … ON CONFLICT (device_ip, field) WHERE status = 'pending' DO UPDATE`. */
  function InsertOne(rows: seq<Cmd>, nextId: nat, e: Edit): seq<Cmd>
  {
    if Skipped(e) then rows
    else if HasPending(rows, e) then seq(|rows|, i requires 0 <= i < |rows| => Overwrite(rows[i], e))
    else rows + [Cmd(nextId, e.ip, e.field, e.value, e.hostname, Pending, 0, "")]
  }

  function Truncate(s: string): string
  {
    if |s| > MAX_ERROR then s[..MAX_ERROR] else s
  }

  /** What an acknowledgement does to its row. */
  function Marked(c: Cmd, o: Outcome): Cmd
  {
    if o.applied then c.(status := Applied, lastError := "", attempts := c.attempts + 1)
    else c.(attempts := c.attempts + 1, lastError := Truncate(o.err),
            status := if c.attempts + 1 >= MAX_ATTEMPTS then Failed else c.status)
  }

  function Mark(rows: seq<Cmd>, id: nat, o: Outcome): seq<Cmd>
  {
    seq(|rows|, i requires 0 <= i < |rows| => if rows[i].id == id then Marked(rows[i], o) else rows[i])
  }

  /** Pending rows before position `k`. */
  function PendingBefore(rows: seq<Cmd>, k: nat): nat
    requires k <= |rows|
  {
    if k == 0 then 0 else PendingBefore(rows, k - 1) + (if rows[k - 1].status == Pending then 1 else 0)
  }

  function PendingCount(rows: seq<Cmd>): nat
  {
    PendingBefore(rows, |rows|)
  }

  /** Whether row `i` is among the `limit` oldest pending ones. */
  predicate InHead(rows: seq<Cmd>, i: nat, limit: nat)
    requires i < |rows|
  {
    rows[i].status == Pending && PendingBefore(rows, i) < limit
  }

  /** The ids of the oldest pending rows below position `k`, `limit` at most. */
  function HeadIds(rows: seq<Cmd>, k: nat, limit: nat): seq<nat>
    requires k <= |rows|
  {
    if k == 0 then []
    else HeadIds(rows, k - 1, limit) + (if InHead(rows, k - 1, limit) then [rows[k - 1].id] else [])
  }

  // --- What every step keeps -------------------------------------------------------------------

  ghost predicate IdsAscend(rows: seq<Cmd>, nextId: nat)
  {
    && (forall i, j :: 0 <= i < j < |rows| ==> rows[i].id < rows[j].id)
    && (forall i :: 0 <= i < |rows| ==> rows[i].id < nextId)
  }

  /** At most one pending row per device and field, and pending rows have tries left. */
  ghost predicate TableOk(rows: seq<Cmd>)
  {
    && (forall i, j :: 0 <= i < j < |rows| && rows[i].status == Pending && rows[j].status == Pending ==>
          rows[i].ip != rows[j].ip || rows[i].field != rows[j].field)
    && (forall i :: 0 <= i < |rows| && rows[i].status == Pending ==> rows[i].attempts < MAX_ATTEMPTS)
  }

  predicate IsPendingAt(rows: seq<Cmd>, i: int, id: nat)
  {
    0 <= i < |rows| && rows[i].id == id && rows[i].status == Pending
  }

  ghost predicate IsPendingId(rows: seq<Cmd>, id: nat)
  {
    exists i :: IsPendingAt(rows, i, id)
  }

  /** The ids still to be acknowledged are distinct and all pending. */
  ghost predicate InFlightOk(rows: seq<Cmd>, inFlight: seq<nat>)
  {
    && (forall a, b :: 0 <= a < b < |inFlight| ==> inFlight[a] != inFlight[b])
    && (forall a :: 0 <= a < |inFlight| ==> IsPendingId(rows, inFlight[a]))
  }

  /** The table, and the commands the single puller has pulled and not yet acknowledged. */
  datatype State = State(rows: seq<Cmd>, nextId: nat, inFlight: seq<nat>)

  ghost predicate Inv(s: State)
  {
    IdsAscend(s.rows, s.nextId) && TableOk(s.rows) && InFlightOk(s.rows, s.inFlight)
  }

  /** Edits may land at any time, also between a pull and its acks. `arrives` is false when an ack is lost. */
  datatype Step =
    | EditArrives(e: Edit)
    | Pull(limit: int)
    | Ack(o: Outcome, arrives: bool)
    | Abandon

  predicate Enabled(s: State, step: Step)
  {
    match step
    case EditArrives(_) => true
    case Pull(_) => s.inFlight == []
    case Ack(_, _) => s.inFlight != []
    case Abandon => true
  }

  function Apply(s: State, step: Step): State
    requires Enabled(s, step)
  {
    match step
    case EditArrives(e) => State(InsertOne(s.rows, s.nextId, e), NextId(s.nextId, e), s.inFlight)
    case Pull(limit) => s.(inFlight := HeadIds(s.rows, |s.rows|, Limit(limit)))
    case Ack(o, arrives) =>
      State(if arrives then Mark(s.rows, s.inFlight[0], o) else s.rows, s.nextId, s.inFlight[1..])
    case Abandon => s.(inFlight := [])
  }

  /** A lost acknowledgement leaves the table alone, and any takes its command off the puller's list. */
  lemma AckMoves(s: State, o: Outcome, arrives: bool)
    requires Enabled(s, Ack(o, arrives))
    ensures var s' := Apply(s, Ack(o, arrives));
            && s'.inFlight == s.inFlight[1..] && s'.nextId == s.nextId
            && (!arrives ==> s'.rows == s.rows)
            && (arrives ==> s'.rows == Mark(s.rows, s.inFlight[0], o))
  {
  }

  lemma EditKeepsTable(rows: seq<Cmd>, nextId: nat, e: Edit)
    requires TableOk(rows) && IdsAscend(rows, nextId)
    ensures TableOk(InsertOne(rows, nextId, e)) && IdsAscend(InsertOne(rows, nextId, e), NextId(nextId, e))
  {
    var rows' := InsertOne(rows, nextId, e);
    if !Skipped(e) {
      if HasPending(rows, e) {
        assert forall i :: 0 <= i < |rows| ==> rows'[i] == Overwrite(rows[i], e);
      } else {
        assert forall i :: 0 <= i < |rows| ==> rows'[i] == rows[i] && !Same(rows[i], e);
      }
    }
  }

  /** After an edit one row is pending for its device and field and carries its value; other rows are as before. */
  lemma EditLands(rows: seq<Cmd>, nextId: nat, e: Edit)
    requires TableOk(rows) && IdsAscend(rows, nextId)
    ensures var rows' := InsertOne(rows, nextId, e);
            if e.ip != "" && e.field != "" then exists i :: LandsAt(rows, nextId, rows', e, i) else rows' == rows
  {
    if e.ip == "" || e.field == "" {
      return;
    }
    var rows' := InsertOne(rows, nextId, e);
    if HasPending(rows, e) {
      var i :| 0 <= i < |rows| && Same(rows[i], e);
      assert LandsAt(rows, nextId, rows', e, i);
    } else {
      assert LandsAt(rows, nextId, rows', e, |rows|);
    }
  }

  /** Row `i` is the one pending row for the edit's device and field, new or overwritten; the others are as before. */
  ghost predicate LandsAt(rows: seq<Cmd>, nextId: nat, rows': seq<Cmd>, e: Edit, i: int)
  {
    && 0 <= i < |rows'| && |rows| <= |rows'|
    && Same(rows'[i], e) && rows'[i].value == e.value && rows'[i].hostname == e.hostname
    && (forall j :: 0 <= j < |rows'| && j != i ==> j < |rows| && rows'[j] == rows[j] && !Same(rows[j], e))
    && (i < |rows| ==> rows'[i] == rows[i].(value := e.value, hostname := e.hostname))
    && (i >= |rows| ==> rows'[i] == Cmd(nextId, e.ip, e.field, e.value, e.hostname, Pending, 0, ""))
  }

  /** An edit leaves every row's status, tries and id alone. */
  lemma EditKeepsRows(rows: seq<Cmd>, nextId: nat, e: Edit, i: nat)
    requires i < |rows|
    ensures var rows' := InsertOne(rows, nextId, e);
            && |rows'| >= |rows| && rows'[i].id == rows[i].id
            && rows'[i].status == rows[i].status && rows'[i].attempts == rows[i].attempts
            && (rows[i].status != Pending ==> rows'[i] == rows[i])
  {
  }

  lemma EditKeepsInFlight(rows: seq<Cmd>, nextId: nat, e: Edit, inFlight: seq<nat>)
    requires InFlightOk(rows, inFlight)
    ensures InFlightOk(InsertOne(rows, nextId, e), inFlight)
  {
    var rows' := InsertOne(rows, nextId, e);
    forall a | 0 <= a < |inFlight|
      ensures IsPendingId(rows', inFlight[a])
    {
      var i :| IsPendingAt(rows, i, inFlight[a]);
      EditKeepsRows(rows, nextId, e, i);
      assert IsPendingAt(rows', i, inFlight[a]);
    }
  }

  lemma MarkKeepsTable(rows: seq<Cmd>, nextId: nat, id: nat, o: Outcome)
    requires TableOk(rows) && IdsAscend(rows, nextId)
    requires IsPendingId(rows, id)
    ensures TableOk(Mark(rows, id, o)) && IdsAscend(Mark(rows, id, o), nextId)
  {
  }

  lemma MarkKeepsInFlight(rows: seq<Cmd>, nextId: nat, inFlight: seq<nat>, o: Outcome)
    requires IdsAscend(rows, nextId) && InFlightOk(rows, inFlight) && inFlight != []
    ensures InFlightOk(Mark(rows, inFlight[0], o), inFlight[1..])
  {
    var rows' := Mark(rows, inFlight[0], o);
    forall a | 0 <= a < |inFlight| - 1
      ensures IsPendingId(rows', inFlight[1..][a])
    {
      var i :| IsPendingAt(rows, i, inFlight[a + 1]);
      assert rows'[i] == rows[i] && IsPendingAt(rows', i, inFlight[a + 1]);
    }
  }

  lemma {:induction false} HeadIdsOk(rows: seq<Cmd>, nextId: nat, k: nat, limit: nat)
    requires IdsAscend(rows, nextId) && k <= |rows|
    ensures InFlightOk(rows, HeadIds(rows, k, limit))
    ensures forall a :: 0 <= a < |HeadIds(rows, k, limit)| ==> IsPendingId(rows[..k], HeadIds(rows, k, limit)[a])
    decreases k
  {
    if k > 0 {
      HeadIdsOk(rows, nextId, k - 1, limit);
      hide PendingBefore;
      var before := HeadIds(rows, k - 1, limit);
      forall a | 0 <= a < |before|
        ensures IsPendingId(rows[..k], before[a]) && before[a] < rows[k - 1].id
      {
        var i :| IsPendingAt(rows[..k - 1], i, before[a]);
        assert IsPendingAt(rows[..k], i, before[a]);
      }
      if InHead(rows, k - 1, limit) {
        assert IsPendingAt(rows[..k], k - 1, rows[k - 1].id) && IsPendingAt(rows, k - 1, rows[k - 1].id);
      }
    }
  }

  /** A pull takes the oldest pending commands, oldest first, as many as the limit allows. */
  lemma {:induction false} PullTakesTheOldest(rows: seq<Cmd>, nextId: nat, k: nat, limit: nat)
    requires IdsAscend(rows, nextId) && k <= |rows|
    ensures var ids := HeadIds(rows, k, limit);
            && |ids| == (if PendingBefore(rows, k) < limit then PendingBefore(rows, k) else limit)
            && (forall a, b :: 0 <= a < b < |ids| ==> ids[a] < ids[b])
            && (forall a, i :: 0 <= a < |ids| && k <= i < |rows| ==> ids[a] < rows[i].id)
    decreases k
  {
    if k > 0 {
      PullTakesTheOldest(rows, nextId, k - 1, limit);
      var before := HeadIds(rows, k - 1, limit);
      assert HeadIds(rows, k, limit) == before + (if InHead(rows, k - 1, limit) then [rows[k - 1].id] else []);
      hide HeadIds;
    }
  }

  /**
   One pending row per device and field, at most four tries on a pending row, and the puller's ids
   pending: every step keeps them.
   */
  lemma StepKeepsInv(s: State, step: Step)
    requires Inv(s) && Enabled(s, step)
    ensures Inv(Apply(s, step))
  {
    hide TableOk, IdsAscend, InFlightOk, InsertOne, Mark, HeadIds;
    match step
    case EditArrives(e) =>
      EditKeepsTable(s.rows, s.nextId, e);
      EditKeepsInFlight(s.rows, s.nextId, e, s.inFlight);
    case Pull(limit) =>
      HeadIdsOk(s.rows, s.nextId, |s.rows|, Limit(limit));
    case Ack(o, arrives) =>
      AckIsPending(s.rows, s.inFlight);
      MarkKeepsTable(s.rows, s.nextId, s.inFlight[0], o);
      MarkKeepsInFlight(s.rows, s.nextId, s.inFlight, o);
    case Abandon =>
      NothingInFlight(s.rows);
  }

  lemma AckIsPending(rows: seq<Cmd>, inFlight: seq<nat>)
    requires InFlightOk(rows, inFlight) && inFlight != []
    ensures IsPendingId(rows, inFlight[0])
    ensures InFlightOk(rows, inFlight[1..])
  {
  }

  lemma NothingInFlight(rows: seq<Cmd>)
    ensures InFlightOk(rows, [])
  {
  }

  /** A row that is applied or failed never changes again. */
  lemma TerminalRowsStay(s: State, step: Step, i: nat)
    requires Inv(s) && Enabled(s, step) && i < |s.rows| && s.rows[i].status != Pending
    ensures i < |Apply(s, step).rows| && Apply(s, step).rows[i] == s.rows[i]
  {
  }

  ghost predicate Runs(s: State, steps: seq<Step>, t: State)
    decreases |steps|
  {
    if steps == [] then s == t
    else Enabled(s, steps[0]) && Runs(Apply(s, steps[0]), steps[1..], t)
  }

  /** Over every run from an empty table. */
  lemma {:induction false} RunKeepsInv(s: State, steps: seq<Step>, t: State)
    requires Inv(s) && Runs(s, steps, t)
    ensures Inv(t) && |s.rows| <= |t.rows|
    ensures forall i :: 0 <= i < |s.rows| && s.rows[i].status != Pending ==> t.rows[i] == s.rows[i]
    decreases |steps|
  {
    if steps != [] {
      StepKeepsInv(s, steps[0]);
      RowsOnlyGrow(s, steps[0]);
      var s' := Apply(s, steps[0]);
      RunKeepsInv(s', steps[1..], t);
      forall i | 0 <= i < |s.rows| && s.rows[i].status != Pending
        ensures t.rows[i] == s.rows[i]
      {
        TerminalRowsStay(s, steps[0], i);
      }
    }
  }

  lemma RowsOnlyGrow(s: State, step: Step)
    requires Enabled(s, step)
    ensures |s.rows| <= |Apply(s, step).rows|
  {
  }

  // --- Draining ------------------------------------------------------------------------------------

  /** One tick with every ack delivered: each of the `limit` oldest pending rows is tried once. */
  function Tick(rows: seq<Cmd>, limit: nat, out: nat -> Outcome): seq<Cmd>
  {
    seq(|rows|, i requires 0 <= i < |rows| =>
      if InHead(rows, i, limit) then Marked(rows[i], out(rows[i].id)) else rows[i])
  }

  /** Successive ticks, each with its own outcomes. */
  function Ticks(rows: seq<Cmd>, limit: nat, outs: seq<nat -> Outcome>): seq<Cmd>
    decreases |outs|
  {
    if outs == [] then rows else Ticks(Tick(rows, limit, outs[0]), limit, outs[1..])
  }

  lemma TickLength(rows: seq<Cmd>, limit: nat, out: nat -> Outcome)
    ensures |Tick(rows, limit, out)| == |rows|
  {
  }

  lemma TickAt(rows: seq<Cmd>, limit: nat, out: nat -> Outcome, i: nat)
    requires i < |rows|
    ensures |Tick(rows, limit, out)| == |rows|
    ensures var t := Tick(rows, limit, out)[i];
            && t == (if InHead(rows, i, limit) then Marked(rows[i], out(rows[i].id)) else rows[i])
            && t.id == rows[i].id && t.ip == rows[i].ip && t.field == rows[i].field
            && (t.status == Pending ==> rows[i].status == Pending)
  {
  }

  lemma {:induction false} PendingShrinks(rows: seq<Cmd>, limit: nat, out: nat -> Outcome, k: nat)
    requires k <= |rows|
    ensures PendingBefore(Tick(rows, limit, out), k) <= PendingBefore(rows, k)
  {
    if k > 0 {
      PendingShrinks(rows, limit, out, k - 1);
      TickAt(rows, limit, out, k - 1);
      hide Tick;
    }
  }

  ghost predicate TriesLeft(rows: seq<Cmd>)
  {
    forall i :: 0 <= i < |rows| && rows[i].status == Pending ==> rows[i].attempts < MAX_ATTEMPTS
  }

  /** A head row is done after `n` more ticks, or has been tried in each of them. */
  lemma {:induction false} HeadIsTried(rows: seq<Cmd>, limit: nat, outs: seq<nat -> Outcome>, i: nat)
    requires TriesLeft(rows) && i < |rows|
    requires rows[i].status == Pending ==> PendingBefore(rows, i) < limit
    ensures var rows' := Ticks(rows, limit, outs);
            && |rows'| == |rows| && TriesLeft(rows')
            && (rows'[i].status == Pending ==> rows[i].status == Pending)
            && (rows'[i].status == Pending ==> rows'[i].attempts >= rows[i].attempts + |outs|)
    decreases |outs|
  {
    if outs != [] {
      var next := Tick(rows, limit, outs[0]);
      PendingShrinks(rows, limit, outs[0], i);
      TickKeepsTries(rows, limit, outs[0]);
      TickAt(rows, limit, outs[0], i);
      assert next[i].status == Pending ==> next[i].attempts == rows[i].attempts + 1;
      HeadIsTried(next, limit, outs[1..], i);
    }
  }

  lemma TickKeepsTries(rows: seq<Cmd>, limit: nat, out: nat -> Outcome)
    requires TriesLeft(rows)
    ensures TriesLeft(Tick(rows, limit, out))
  {
    TickLength(rows, limit, out);
    hide Tick, PendingBefore;
    forall i | 0 <= i < |rows|
      ensures Tick(rows, limit, out)[i].status == Pending ==> Tick(rows, limit, out)[i].attempts < MAX_ATTEMPTS
    {
      TickAt(rows, limit, out, i);
    }
  }

  lemma {:induction false} TicksKeepPending(rows: seq<Cmd>, limit: nat, outs: seq<nat -> Outcome>, i: nat)
    requires i < |rows|
    ensures |Ticks(rows, limit, outs)| == |rows|
    ensures Ticks(rows, limit, outs)[i].status == Pending ==> rows[i].status == Pending
    decreases |outs|
  {
    if outs != [] {
      TicksKeepPending(Tick(rows, limit, outs[0]), limit, outs[1..], i);
      hide PendingBefore;
    }
  }

  /** After five ticks the rows pending are among those that were beyond the first `limit`. */
  lemma {:induction false} FiveTicksTakeTheHead(rows: seq<Cmd>, limit: nat, outs: seq<nat -> Outcome>, k: nat)
    requires TriesLeft(rows) && |outs| == MAX_ATTEMPTS && k <= |rows|
    ensures |Ticks(rows, limit, outs)| == |rows|
    ensures var p := PendingBefore(rows, k);
            PendingBefore(Ticks(rows, limit, outs), k) <= if p <= limit then 0 else p - limit
    decreases k
  {
    TicksLength(rows, limit, outs);
    if k > 0 {
      var i := k - 1;
      FiveTicksTakeTheHead(rows, limit, outs, i);
      TicksKeepPending(rows, limit, outs, i);
      if PendingBefore(rows, i) < limit {
        HeadIsTried(rows, limit, outs, i);
      }
      hide Ticks;
    }
  }

  lemma {:induction false} TicksLength(rows: seq<Cmd>, limit: nat, outs: seq<nat -> Outcome>)
    ensures |Ticks(rows, limit, outs)| == |rows|
    decreases |outs|
  {
    if outs != [] { TicksLength(Tick(rows, limit, outs[0]), limit, outs[1..]); }
  }

  lemma {:induction false} TicksSplit(rows: seq<Cmd>, limit: nat, a: seq<nat -> Outcome>, b: seq<nat -> Outcome>)
    ensures Ticks(rows, limit, a + b) == Ticks(Ticks(rows, limit, a), limit, b)
    decreases |a|
  {
    if a == [] {
      assert a + b == b;
    } else {
      assert (a + b)[0] == a[0] && (a + b)[1..] == a[1..] + b;
      TicksSplit(Tick(rows, limit, a[0]), limit, a[1..], b);
    }
  }

  lemma {:induction false} TicksKeepTries(rows: seq<Cmd>, limit: nat, outs: seq<nat -> Outcome>)
    requires TriesLeft(rows)
    ensures TriesLeft(Ticks(rows, limit, outs))
    decreases |outs|
  {
    if outs != [] {
      TickKeepsTries(rows, limit, outs[0]);
      TicksKeepTries(Tick(rows, limit, outs[0]), limit, outs[1..]);
    }
  }

  /**
   With no new edits, `rounds` times five ticks drain `rounds` times `limit` pending rows, whatever
   succeeds and whatever fails.
   */
  lemma {:induction false} QueueDrains(rows: seq<Cmd>, limit: nat, outs: seq<nat -> Outcome>, rounds: nat)
    requires TriesLeft(rows) && |outs| == MAX_ATTEMPTS * rounds && PendingCount(rows) <= rounds * limit
    ensures PendingCount(Ticks(rows, limit, outs)) == 0
    decreases rounds
  {
    if rounds > 0 {
      var first, rest := outs[..MAX_ATTEMPTS], outs[MAX_ATTEMPTS..];
      assert outs == first + rest;
      TicksSplit(rows, limit, first, rest);
      FiveTicksTakeTheHead(rows, limit, first, |rows|);
      TicksKeepTries(rows, limit, first);
      hide Ticks, PendingBefore, TriesLeft;
      OneRoundLess(PendingCount(rows), limit, rounds);
      QueueDrains(Ticks(rows, limit, first), limit, rest, rounds - 1);
    }
  }

  lemma OneRoundLess(n: nat, limit: nat, rounds: nat)
    requires rounds > 0 && n <= rounds * limit
    ensures (if n <= limit then 0 else n - limit) <= (rounds - 1) * limit
  {
  }

  /** With no new edits the queue is empty after 5·⌈n/limit⌉ ticks. */
  lemma DrainTime(rows: seq<Cmd>, limit: nat, outs: seq<nat -> Outcome>)
    requires TriesLeft(rows) && limit > 0
    requires |outs| == MAX_ATTEMPTS * ((PendingCount(rows) + limit - 1) / limit)
    ensures PendingCount(Ticks(rows, limit, outs)) == 0
  {
    hide *;
    var n := PendingCount(rows);
    var rounds := (n + limit - 1) / limit;
    assert n <= rounds * limit;
    QueueDrains(rows, limit, outs, rounds);
  }

  /** The bound is tight: a command that always fails is still pending after four ticks. */
  lemma FourTicksMayNotDrain()
    ensures var rows := [Cmd(1, "ip", "field", "v", "", Pending, 0, "")];
            var no := (id: nat) => Outcome(false, "");
            PendingCount(Ticks(rows, 1, [no, no, no, no])) == 1
  {
    var no := (id: nat) => Outcome(false, "");
    var c := Cmd(1, "ip", "field", "v", "", Pending, 0, "");
    TickOfOne(c, no);
    TickOfOne(c.(attempts := 1), no);
    TickOfOne(c.(attempts := 2), no);
    TickOfOne(c.(attempts := 3), no);
    TicksUnfold([c], 1, [no, no, no, no]);
    TicksUnfold([c.(attempts := 1)], 1, [no, no, no]);
    TicksUnfold([c.(attempts := 2)], 1, [no, no]);
    TicksUnfold([c.(attempts := 3)], 1, [no]);
    TicksUnfold([c.(attempts := 4)], 1, []);
    hide Ticks, Tick;
    OnePending(c.(attempts := 4));
  }

  lemma OnePending(c: Cmd)
    requires c.status == Pending
    ensures PendingCount([c]) == 1
  {
    assert PendingBefore([c], 0) == 0;
    assert PendingBefore([c], 1) == 1;
  }

  lemma TickOfOne(c: Cmd, no: nat -> Outcome)
    requires c.status == Pending && c.attempts < 4 && c.lastError == "" && forall id :: no(id) == Outcome(false, "")
    ensures Tick([c], 1, no) == [c.(attempts := c.attempts + 1)]
  {
    assert PendingBefore([c], 0) == 0;
    assert InHead([c], 0, 1);
    TickAt([c], 1, no, 0);
    assert Truncate("") == "";
    hide Tick;
    assert Tick([c], 1, no)[0] == c.(attempts := c.attempts + 1);
  }

  lemma TicksUnfold(rows: seq<Cmd>, limit: nat, outs: seq<nat -> Outcome>)
    ensures outs == [] ==> Ticks(rows, limit, outs) == rows
    ensures outs != [] ==> Ticks(rows, limit, outs) == Ticks(Tick(rows, limit, outs[0]), limit, outs[1..])
  {
  }

  // --- The objects ------------------------------------------------------------------------------------

  /** The `device_commands` table behind its three statements. */
  class CommandTable {
    var rows: seq<Cmd>
    var nextId: nat

    ghost predicate Valid()
      reads this
    {
      IdsAscend(rows, nextId) && TableOk(rows)
    }

    constructor ()
      ensures Valid() && rows == []
    {
      rows, nextId := [], 1;
    }

    /** Returns the rows written. */
    method InsertCommands(edits: seq<Edit>) returns (n: nat)
      requires Valid()
      modifies this
      ensures Valid()
      ensures rows == InsertAll(old(rows), old(nextId), edits)
      ensures nextId == old(nextId) + n && n == Queued(edits)
    {
      n := 0;
      for i := 0 to |edits|
        invariant Valid() && nextId == old(nextId) + n && n + Queued(edits[i..]) == Queued(edits)
        invariant InsertAll(rows, nextId, edits[i..]) == InsertAll(old(rows), old(nextId), edits)
      {
        hide TableOk, IdsAscend, InsertOne;
        var e := edits[i];
        EditKeepsTable(rows, nextId, e);
        InsertAllStep(rows, nextId, edits, i);
        rows := InsertOne(rows, nextId, e);
        if !Skipped(e) {
          nextId, n := nextId + 1, n + 1;
        }
      }
    }

    method PendingCommands(limit: int) returns (ids: seq<nat>)
      ensures ids == HeadIds(rows, |rows|, Limit(limit))
    {
      ids := [];
      var taken: nat := 0;
      for i := 0 to |rows|
        invariant ids == HeadIds(rows, i, Limit(limit)) && taken == PendingBefore(rows, i)
      {
        if rows[i].status == Pending {
          if taken < Limit(limit) {
            ids := ids + [rows[i].id];
          }
          taken := taken + 1;
        }
      }
    }

    /** Applied for good, or tried once more and failed for good when that was the last try. */
    method MarkCommand(id: nat, o: Outcome)
      modifies this`rows
      ensures |rows| == |old(rows)|
      ensures forall i :: 0 <= i < |rows| && old(rows)[i].id != id ==> rows[i] == old(rows)[i]
      ensures forall i :: 0 <= i < |rows| && old(rows)[i].id == id && o.applied ==>
        rows[i] == old(rows)[i].(status := Applied, lastError := "", attempts := old(rows)[i].attempts + 1)
      ensures forall i :: 0 <= i < |rows| && old(rows)[i].id == id && !o.applied ==>
        && old(rows)[i] ==
           rows[i].(status := old(rows)[i].status, lastError := old(rows)[i].lastError,
                    attempts := old(rows)[i].attempts)
        && rows[i].attempts == old(rows)[i].attempts + 1
        && rows[i].lastError == (if |o.err| > 512 then o.err[..512] else o.err)
        && (old(rows)[i].status == Pending ==> rows[i].status in {Pending, Failed})
        && (old(rows)[i].status == Pending ==> (rows[i].status == Failed <==> rows[i].attempts >= 5))
        && (old(rows)[i].status == Applied ==> (rows[i].status == Failed <==> rows[i].attempts >= 5))
      ensures rows == Mark(old(rows), id, o)
    {
      rows := Mark(rows, id, o);
    }
  }

  function InsertAll(rows: seq<Cmd>, nextId: nat, edits: seq<Edit>): seq<Cmd>
    decreases |edits|
  {
    if edits == [] then rows else InsertAll(InsertOne(rows, nextId, edits[0]), NextId(nextId, edits[0]), edits[1..])
  }

  /** How many of the edits name a device and a field. */
  function Queued(edits: seq<Edit>): nat
  {
    if edits == [] then 0 else (if Skipped(edits[0]) then 0 else 1) + Queued(edits[1..])
  }

  /** Each edit that names a device and a field counts once. */
  lemma {:induction false} QueuedCounts(edits: seq<Edit>, more: seq<Edit>)
    ensures Queued(edits + more) == Queued(edits) + Queued(more)
    ensures |edits| == 1 ==> Queued(edits) == if edits[0].ip != "" && edits[0].field != "" then 1 else 0
    decreases |edits|
  {
    if edits == [] {
      assert edits + more == more;
    } else {
      QueuedCounts(edits[1..], more);
      assert (edits + more)[1..] == edits[1..] + more;
      if |edits| == 1 { assert edits[1..] == []; }
    }
  }

  lemma InsertAllStep(rows: seq<Cmd>, nextId: nat, edits: seq<Edit>, i: nat)
    requires i < |edits|
    ensures Queued(edits[i..]) == (if Skipped(edits[i]) then 0 else 1) + Queued(edits[i + 1..])
    ensures InsertAll(rows, nextId, edits[i..])
         == InsertAll(InsertOne(rows, nextId, edits[i]), NextId(nextId, edits[i]), edits[i + 1..])
  {
  }

  /** The rows after acknowledging `ids` in turn. */
  function MarkEach(rows: seq<Cmd>, ids: seq<nat>, out: nat -> Outcome): seq<Cmd>
  {
    if ids == [] then rows
    else Mark(MarkEach(rows, ids[..|ids| - 1], out), ids[|ids| - 1], out(ids[|ids| - 1]))
  }

  /** The loop body of `tick`: pull, then apply and acknowledge each command; `out` is the device's answer. */
  method TickOnce(table: CommandTable, limit: int, out: nat -> Outcome)
    requires table.Valid()
    modifies table`rows
    ensures table.Valid()
    ensures table.rows == Tick(old(table.rows), Limit(limit), out)
  {
    var ids := table.PendingCommands(limit);
    ghost var before := table.rows;
    for i := 0 to |ids|
      invariant table.rows == MarkEach(before, ids[..i], out)
    {
      assert ids[..i + 1][..i] == ids[..i];
      table.MarkCommand(ids[i], out(ids[i]));
    }
    assert ids[..|ids|] == ids;
    HeadIdsOk(before, table.nextId, |before|, Limit(limit));
    MarkEachIsTick(before, table.nextId, Limit(limit), out);
    TickKeepsTable(before, table.nextId, Limit(limit), out);
  }

  lemma {:induction false} MarkEachAt(rows: seq<Cmd>, nextId: nat, ids: seq<nat>, out: nat -> Outcome, i: nat)
    requires i < |rows|
    requires forall a, b :: 0 <= a < b < |ids| ==> ids[a] != ids[b]
    ensures |MarkEach(rows, ids, out)| == |rows|
    ensures MarkEach(rows, ids, out)[i] == if rows[i].id in ids then Marked(rows[i], out(rows[i].id)) else rows[i]
    ensures MarkEach(rows, ids, out)[i].id == rows[i].id
    decreases |ids|
  {
    if ids != [] {
      var n := |ids| - 1;
      MarkEachAt(rows, nextId, ids[..n], out, i);
      assert ids == ids[..n] + [ids[n]];
      hide Marked;
      MarkedKeepsId(rows[i], out(rows[i].id));
    }
  }

  lemma MarkedKeepsId(c: Cmd, o: Outcome)
    ensures Marked(c, o).id == c.id
  {
  }

  lemma {:induction false} HeadIdsMembers(rows: seq<Cmd>, nextId: nat, k: nat, limit: nat, i: nat)
    requires IdsAscend(rows, nextId) && i < |rows| && k <= |rows|
    ensures rows[i].id in HeadIds(rows, k, limit) <==> i < k && InHead(rows, i, limit)
    decreases k
  {
    if k > 0 {
      HeadIdsMembers(rows, nextId, k - 1, limit, i);
      hide PendingBefore;
    }
  }

  lemma MarkEachIsTick(rows: seq<Cmd>, nextId: nat, limit: nat, out: nat -> Outcome)
    requires IdsAscend(rows, nextId)
    ensures MarkEach(rows, HeadIds(rows, |rows|, limit), out) == Tick(rows, limit, out)
  {
    var ids := HeadIds(rows, |rows|, limit);
    HeadIdsOk(rows, nextId, |rows|, limit);
    MarkEachLength(rows, ids, out);
    hide HeadIds, MarkEach, Marked, InHead;
    forall i | 0 <= i < |rows|
      ensures MarkEach(rows, ids, out)[i] == Tick(rows, limit, out)[i]
    {
      MarkEachAt(rows, nextId, ids, out, i);
      HeadIdsMembers(rows, nextId, |rows|, limit, i);
    }
  }

  lemma {:induction false} MarkEachLength(rows: seq<Cmd>, ids: seq<nat>, out: nat -> Outcome)
    ensures |MarkEach(rows, ids, out)| == |rows|
  {
    if ids != [] { MarkEachLength(rows, ids[..|ids| - 1], out); }
  }

  lemma TickKeepsTable(rows: seq<Cmd>, nextId: nat, limit: nat, out: nat -> Outcome)
    requires IdsAscend(rows, nextId) && TableOk(rows)
    ensures IdsAscend(Tick(rows, limit, out), nextId) && TableOk(Tick(rows, limit, out))
  {
    var rows' := Tick(rows, limit, out);
    TickLength(rows, limit, out);
    forall i | 0 <= i < |rows|
      ensures var t := rows'[i];
              && t.id == rows[i].id && t.ip == rows[i].ip && t.field == rows[i].field
              && (t.status == Pending ==> rows[i].status == Pending && t.attempts < MAX_ATTEMPTS)
    {
      TickAt(rows, limit, out, i);
    }
    hide Tick;
  }
}
