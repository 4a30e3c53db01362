/**
 The cursor protocol of fwDCS/internal/forwarder/forwarder.go and fwDCS/internal/store/forward.go:
 each table is queried above its cursor, and cursors move only when every post of the cycle succeeded.
 */
module Cursor {
  import opened Sets

  datatype Table = Devices | Metrics | Energy | Topology | Events

  /** One row version; an update of a device or link is a new version with a later timestamp. */
  datatype Row = Row(id: nat, ts: int)

  /** Cursors are kept per table and network. */
  type Key = (Table, string)

  /**
   One table of one network. The last four fields are history: rows posted, links skipped as
   cross-scope, rows cut off by the row limit at a batch's last timestamp, and rows that arrived late,
   stamped at or below the cursor.
   */
  datatype TableState = TableState(rows: set<Row>, cursor: int, delivered: set<Row>, skipped: set<Row>,
                                   cut: set<Row>, late: set<Row>)

  type State = map<Key, TableState>

  // --- The query -------------------------------------------------------------------------

  function Pending(rows: set<Row>, cursor: int): set<Row>
  {
    set r | r in rows && r.ts > cursor
  }

  /** The zero time of the source, in microseconds: what a cursor that is absent, or cannot be read, reads as. */
  const ZERO_TIME: int := -62_135_596_800_000_000

  function Min(a: nat, b: nat): nat
  {
    if a <= b then a else b
  }

  /**
   A result of `WHERE ts > cursor ORDER BY ts ASC LIMIT n`. Rows with equal timestamps may come in
   any order, so the rows that a limit cuts off among them are arbitrary.
   */
  ghost predicate IsBatch(rows: set<Row>, cursor: int, limit: nat, batch: seq<Row>)
  {
    && (forall r :: r in batch ==> r in Pending(rows, cursor))
    && (forall i, j :: 0 <= i < j < |batch| ==> batch[i] != batch[j] && batch[i].ts <= batch[j].ts)
    && |batch| == Min(limit, |Pending(rows, cursor)|)
    && (batch != [] ==> forall r :: r in Pending(rows, cursor) && r !in batch ==> r.ts >= batch[|batch| - 1].ts)
  }

  function Members(batch: seq<Row>): set<Row>
  {
    set r | r in batch
  }

  // --- Steps -------------------------------------------------------------------------------

  /**
   Arrive: a row appears, replacing older versions. Its timestamp may be anything: readings and events
   carry the collector's own stamp, and an update the start of its transaction. Remove: rows are deleted,
   as by a retention policy. Cycle: one push of one network; `batches` holds the tables polled, `ok` says
   whether payloads were built and every post succeeded, `posted` what reached the receiver before a
   failure, `cross` the cross-scope links left out, `saved` the cursors whose write succeeded, and
   `unread` those whose read failed.
   */
  datatype Step =
    | Arrive(key: Key, row: Row, replaced: set<Row>)
    | Remove(key: Key, gone: set<Row>)
    | Cycle(net: string, batches: map<Table, seq<Row>>, ok: bool,
            posted: map<Table, set<Row>>, cross: set<Row>, saved: set<Table>, unread: set<Table>)

  /** Where a query starts; a failed read of the cursor starts from the beginning. */
  function From(t: TableState, unread: bool): int
  {
    if unread then ZERO_TIME else t.cursor
  }

  ghost predicate Enabled(s: State, limits: Table -> nat, step: Step)
  {
    match step
    case Arrive(k, r, _) => k in s && r !in s[k].rows + s[k].delivered + s[k].skipped + s[k].cut + s[k].late
    case Remove(k, _) => k in s
    case Cycle(net, batches, ok, posted, cross, _, unread) =>
      && (forall t :: t in batches ==>
            (t, net) in s && IsBatch(s[(t, net)].rows, From(s[(t, net)], t in unread), limits(t), batches[t]))
      && (!ok ==> forall t :: t in batches ==> t in posted && posted[t] <= Members(batches[t]))
  }

  /** The undelivered rows that the limit cuts off at the batch's last timestamp. */
  function CutOff(t: TableState, from: int, batch: seq<Row>): set<Row>
  {
    if batch == [] then {}
    else
      set r | r in Pending(t.rows, from) && r !in batch && r.ts == batch[|batch| - 1].ts
              && r !in t.delivered + t.skipped
  }

  /** Those of the rows that are still at or below the cursor and have reached nobody. */
  function StillBehind(t: TableState, rs: set<Row>): set<Row>
  {
    set r | r in rs && r.ts <= t.cursor && r !in t.delivered && r !in t.skipped
  }

  /** One table after an arrival. */
  function AfterArrival(t: TableState, r: Row, replaced: set<Row>): TableState
  {
    t.(rows := t.rows - replaced + {r}, late := t.late + if r.ts <= t.cursor then {r} else {})
  }

  /** One table after a cycle in which every post succeeded. */
  function AfterSuccess(t: TableState, from: int, batch: seq<Row>, cross: set<Row>, saved: bool): TableState
  {
    var moves := saved && batch != [];
    var t' := t.(delivered := t.delivered + (Members(batch) - cross), skipped := t.skipped + (Members(batch) * cross),
                 cursor := if moves then batch[|batch| - 1].ts else t.cursor);
    t'.(cut := StillBehind(t', if moves then t.cut + CutOff(t, from, batch) else t.cut),
        late := StillBehind(t', t.late))
  }

  /** One table after a cycle in which some post failed: whatever arrived, arrived; the cursor stays. */
  function AfterFailure(t: TableState, posted: set<Row>): TableState
  {
    var t' := t.(delivered := t.delivered + posted);
    t'.(cut := StillBehind(t', t.cut), late := StillBehind(t', t.late))
  }

  /** Only links are ever skipped. */
  function Skips(t: Table, cross: set<Row>): set<Row>
  {
    if t == Topology then cross else {}
  }

  function AfterCycle(s: State, c: Step): State
    requires c.Cycle?
  {
    map k | k in s ::
      if k.1 != c.net || k.0 !in c.batches then s[k]
      else if c.ok then
        AfterSuccess(s[k], From(s[k], k.0 in c.unread), c.batches[k.0], Skips(k.0, c.cross), k.0 in c.saved)
      else AfterFailure(s[k], if k.0 in c.posted then c.posted[k.0] else {})
  }

  function Apply(s: State, step: Step): State
  {
    match step
    case Arrive(k, r, replaced) =>
      if k in s then s[k := AfterArrival(s[k], r, replaced)] else s
    case Remove(k, gone) =>
      if k in s then s[k := s[k].(rows := s[k].rows - gone)] else s
    case Cycle(_, _, _, _, _, _, _) => AfterCycle(s, step)
  }

  // --- What every run keeps -------------------------------------------------------------------

  /** Rows at or below the cursor that never reached the receiver and were not skipped. */
  function Missed(t: TableState): set<Row>
  {
    set r | r in t.rows && r.ts <= t.cursor && r !in t.delivered && r !in t.skipped
  }

  /** The missed rows are exactly those cut off by a limit among equal timestamps and those that came late. */
  ghost predicate Accounted(t: TableState)
  {
    && t.cursor >= ZERO_TIME
    && Missed(t) == (t.cut + t.late) * t.rows
    && (forall r :: r in t.cut + t.late ==> r.ts <= t.cursor && r !in t.delivered && r !in t.skipped)
  }

  ghost predicate AllAccounted(s: State)
  {
    forall k :: k in s ==> Accounted(s[k])
  }

  /** A new row is missed from the start exactly when it is stamped at or below the cursor. */
  lemma ArriveKeeps(t: TableState, r: Row, replaced: set<Row>)
    requires Accounted(t) && r !in t.delivered + t.skipped
    ensures Accounted(AfterArrival(t, r, replaced))
    ensures r in Missed(AfterArrival(t, r, replaced)) <==> r.ts <= t.cursor
  {
    var t' := AfterArrival(t, r, replaced);
    forall x
      ensures x in Missed(t') <==> x in (t'.cut + t'.late) * t'.rows
    {
      assert x in Missed(t) <==> x in (t.cut + t.late) * t.rows;
    }
  }

  lemma RemoveKeeps(t: TableState, gone: set<Row>)
    requires Accounted(t)
    ensures Accounted(t.(rows := t.rows - gone))
  {
    var t' := t.(rows := t.rows - gone);
    forall x
      ensures x in Missed(t') <==> x in (t'.cut + t'.late) * t'.rows
    {
      assert x in Missed(t) <==> x in (t.cut + t.late) * t.rows;
    }
  }

  lemma FailureKeeps(t: TableState, posted: set<Row>)
    requires Accounted(t)
    ensures Accounted(AfterFailure(t, posted))
  {
    var t' := AfterFailure(t, posted);
    forall r
      ensures r in Missed(t') <==> r in (t'.cut + t'.late) * t'.rows
    {
      assert r in Missed(t) <==> r in (t.cut + t.late) * t.rows;
    }
  }

  /** A row the batch passed over without cutting lies beyond its last timestamp, or before its start. */
  lemma BatchCovers(rows: set<Row>, from: int, batch: seq<Row>, limit: nat, r: Row)
    requires IsBatch(rows, from, limit, batch) && batch != []
    requires r in rows
    ensures var last := batch[|batch| - 1].ts;
            && from < last
            && (r in batch ==> from < r.ts <= last)
            && (r.ts <= last && r !in batch ==> r.ts <= from || r.ts == last)
  {
    assert batch[|batch| - 1] in batch;
    if r in batch {
      var i :| 0 <= i < |batch| && batch[i] == r;
      if i < |batch| - 1 { assert batch[i].ts <= batch[|batch| - 1].ts; }
    } else if r.ts > from {
      assert r in Pending(rows, from);
    }
  }

  lemma SuccessKeeps(t: TableState, from: int, batch: seq<Row>, limit: nat, cross: set<Row>, saved: bool)
    requires Accounted(t) && ZERO_TIME <= from <= t.cursor && IsBatch(t.rows, from, limit, batch)
    ensures Accounted(AfterSuccess(t, from, batch, cross, saved))
  {
    var t' := AfterSuccess(t, from, batch, cross, saved);
    if batch != [] { assert batch[|batch| - 1] in batch && batch[|batch| - 1] in Pending(t.rows, from); }
    forall r
      ensures r in Missed(t') <==> r in (t'.cut + t'.late) * t'.rows
    {
      assert r in Missed(t) <==> r in (t.cut + t.late) * t.rows;
      if batch != [] && r in t.rows { BatchCovers(t.rows, from, batch, limit, r); }
      hide IsBatch;
    }
  }

  lemma AtOrAboveZero(t: TableState)
    requires Accounted(t)
    ensures t.cursor >= ZERO_TIME
  {
  }

  lemma StepKeeps(s: State, limits: Table -> nat, step: Step)
    requires AllAccounted(s) && Enabled(s, limits, step)
    ensures AllAccounted(Apply(s, step)) && Apply(s, step).Keys == s.Keys
  {
    hide Accounted, IsBatch, AfterSuccess, AfterFailure, AfterArrival;
    match step
    case Arrive(k, r, replaced) =>
      ArriveKeeps(s[k], r, replaced);
    case Remove(k, gone) =>
      RemoveKeeps(s[k], gone);
    case Cycle(net, batches, ok, posted, cross, saved, unread) =>
      forall k | k in s
        ensures Accounted(AfterCycle(s, step)[k])
      {
        if k.1 == net && k.0 in batches {
          assert k == (k.0, net);
          if ok {
            AtOrAboveZero(s[k]);
            SuccessKeeps(s[k], From(s[k], k.0 in unread), batches[k.0], limits(k.0), Skips(k.0, cross), k.0 in saved);
          } else {
            FailureKeeps(s[k], if k.0 in posted then posted[k.0] else {});
          }
        }
      }
  }

  ghost predicate ValidRun(s: State, limits: Table -> nat, steps: seq<Step>)
  {
    steps == [] || (Enabled(s, limits, steps[0]) && ValidRun(Apply(s, steps[0]), limits, steps[1..]))
  }

  function Run(s: State, steps: seq<Step>): State
  {
    if steps == [] then s else Run(Apply(s, steps[0]), steps[1..])
  }

  /**
   After every run, with any pattern of arrivals, deletions, failed posts and failed cursor reads and writes:
   each table's rows at or below its cursor were delivered or skipped, except exactly those cut off by
   a limit at a batch's last timestamp and those that arrived late.
   */
  lemma {:induction false} RunsAccountForEveryRow(s: State, limits: Table -> nat, steps: seq<Step>)
    requires AllAccounted(s) && ValidRun(s, limits, steps)
    ensures AllAccounted(Run(s, steps)) && Run(s, steps).Keys == s.Keys
    decreases |steps|
  {
    if steps != [] {
      StepKeeps(s, limits, steps[0]);
      hide AllAccounted, Enabled, Apply;
      RunsAccountForEveryRow(Apply(s, steps[0]), limits, steps[1..]);
    }
  }

  /** A fresh table has missed nothing. */
  lemma FreshIsAccounted(t: TableState)
    requires t.delivered == {} && t.skipped == {} && t.cut == {} && t.late == {}
    requires t.cursor >= ZERO_TIME && forall r :: r in t.rows ==> r.ts > t.cursor
    ensures Accounted(t)
  {
  }

  /** Whether a step reads the cursor `k`, if it reads it at all. */
  predicate CursorRead(step: Step, k: Key)
  {
    step.Cycle? && k.1 == step.net ==> k.0 !in step.unread
  }

  /** Only links are ever skipped, and only those left out as cross-scope. */
  lemma OnlyLinksAreSkipped(s: State, step: Step, k: Key)
    requires k in s
    ensures k in Apply(s, step) && s[k].skipped <= Apply(s, step)[k].skipped
    ensures var added := Apply(s, step)[k].skipped - s[k].skipped;
            added != {} ==> k.0 == Topology && step.Cycle? && added <= step.cross
  {
  }

  /** A cursor that is read never moves back, and stays put in a cycle that fails. */
  lemma CursorsOnlyAdvance(s: State, limits: Table -> nat, step: Step, k: Key)
    requires Enabled(s, limits, step) && k in s
    ensures k in Apply(s, step)
    ensures CursorRead(step, k) ==> s[k].cursor <= Apply(s, step)[k].cursor
    ensures step.Cycle? && !step.ok ==> Apply(s, step)[k].cursor == s[k].cursor
  {
    hide CutOff, StillBehind, Pending;
    if step.Cycle? && k.1 == step.net && k.0 in step.batches {
      assert k == (k.0, step.net);
      if step.batches[k.0] != [] {
        LastIsDue(s[k].rows, From(s[k], k.0 in step.unread), step.batches[k.0], limits(k.0));
      }
    }
  }

  lemma LastIsDue(rows: set<Row>, from: int, batch: seq<Row>, limit: nat)
    requires IsBatch(rows, from, limit, batch) && batch != []
    ensures batch[|batch| - 1].ts > from
  {
    assert batch[|batch| - 1] in batch;
  }

  /** The rows a query from the beginning meets before the cursor. */
  function Behind(t: TableState): set<Row>
  {
    set r | r in Pending(t.rows, ZERO_TIME) && r.ts < t.cursor
  }

  /**
   After a failed read a successful cycle moves the cursor back exactly when the limit fills up
   behind it, or nothing newer exists.
   */
  lemma RewindsIff(t: TableState, batch: seq<Row>, limit: nat, cross: set<Row>)
    requires IsBatch(t.rows, ZERO_TIME, limit, batch) && batch != []
    ensures AfterSuccess(t, ZERO_TIME, batch, cross, true).cursor < t.cursor <==>
      |Behind(t)| >= limit || Behind(t) == Pending(t.rows, ZERO_TIME)
  {
    var all, behind, got := Pending(t.rows, ZERO_TIME), Behind(t), Members(batch);
    var last := batch[|batch| - 1];
    assert last in got && last in all;
    MembersCount(batch);
    forall r | r in got
      ensures r in all && r.ts <= last.ts
    {
      BatchCovers(t.rows, ZERO_TIME, batch, limit, r);
    }
    if last.ts < t.cursor {
      SubsetCount(got, behind);
      if |all| < limit { SubsetEqual(got, all); }
    } else {
      forall r | r in behind
        ensures r in got
      {
        BatchCovers(t.rows, ZERO_TIME, batch, limit, r);
      }
      SubsetCount(behind + {last}, got);
    }
  }

  /** A row that was cut off or came late and has reached nobody: missed while it exists. */
  ghost predicate Lost(t: TableState, r: Row)
  {
    r in t.cut + t.late && r.ts <= t.cursor && r !in t.delivered && r !in t.skipped
  }

  lemma LostStays(s: State, limits: Table -> nat, step: Step, k: Key, r: Row)
    requires Enabled(s, limits, step) && k in s && Lost(s[k], r) && CursorRead(step, k)
    ensures k in Apply(s, step) && Lost(Apply(s, step)[k], r)
  {
    CursorsOnlyAdvance(s, limits, step, k);
    if step.Cycle? && k.1 == step.net && k.0 in step.batches {
      NotInBatch(s, limits, step, k, r);
    }
  }

  lemma NotInBatch(s: State, limits: Table -> nat, c: Step, k: Key, r: Row)
    requires Enabled(s, limits, c) && c.Cycle? && k in s && k.1 == c.net && k.0 in c.batches
    requires CursorRead(c, k) && r.ts <= s[k].cursor
    ensures r !in c.batches[k.0]
  {
    assert k == (k.0, c.net);
  }

  /** Over every run in which the table's cursor can be read, a missed row is not delivered while it exists. */
  lemma MissedForGood(s: State, limits: Table -> nat, steps: seq<Step>, k: Key, r: Row)
    requires AllAccounted(s) && ValidRun(s, limits, steps) && k in s && r in Missed(s[k])
    requires forall i :: 0 <= i < |steps| ==> CursorRead(steps[i], k)
    ensures var t := Run(s, steps);
            k in t && r !in t[k].delivered && r !in t[k].skipped && (r in t[k].rows ==> r in Missed(t[k]))
  {
    assert Accounted(s[k]) && r in (s[k].cut + s[k].late) * s[k].rows;
    LostStaysOverRun(s, limits, steps, k, r);
    hide Run, ValidRun, Enabled;
  }

  lemma {:induction false} LostStaysOverRun(s: State, limits: Table -> nat, steps: seq<Step>, k: Key, r: Row)
    requires ValidRun(s, limits, steps) && k in s && Lost(s[k], r)
    requires forall i :: 0 <= i < |steps| ==> CursorRead(steps[i], k)
    ensures k in Run(s, steps) && Lost(Run(s, steps)[k], r)
    decreases |steps|
  {
    if steps != [] {
      LostStays(s, limits, steps[0], k, r);
      forall i | 0 <= i < |steps[1..]|
        ensures CursorRead(steps[1..][i], k)
      {
        assert steps[1..][i] == steps[i + 1];
      }
      hide Enabled, Apply, Lost, CursorRead;
      LostStaysOverRun(Apply(s, steps[0]), limits, steps[1..], k, r);
    }
  }

  // --- Timestamps and losses -------------------------------------------------------------------

  ghost predicate DistinctTimes(rows: set<Row>)
  {
    forall a, b :: a in rows && b in rows && a.ts == b.ts ==> a == b
  }

  ghost predicate AllDistinct(s: State)
  {
    forall k :: k in s ==> DistinctTimes(s[k].rows)
  }

  ghost predicate DistinctThroughout(s: State, steps: seq<Step>)
  {
    AllDistinct(s) && (steps != [] ==> DistinctThroughout(Apply(s, steps[0]), steps[1..]))
  }

  ghost predicate NothingCut(s: State)
  {
    forall k :: k in s ==> s[k].cut == {}
  }

  lemma DistinctCutsNothing(t: TableState, from: int, batch: seq<Row>, limit: nat)
    requires DistinctTimes(t.rows) && IsBatch(t.rows, from, limit, batch)
    ensures CutOff(t, from, batch) == {}
  {
    if batch != [] { assert batch[|batch| - 1] in batch; }
  }

  lemma StepCutsNothing(s: State, limits: Table -> nat, step: Step)
    requires NothingCut(s) && AllDistinct(s) && Enabled(s, limits, step)
    ensures NothingCut(Apply(s, step))
  {
    if step.Cycle? {
      forall k | k in s && k.1 == step.net && k.0 in step.batches
        ensures CutOff(s[k], From(s[k], k.0 in step.unread), step.batches[k.0]) == {}
      {
        assert k == (k.0, step.net);
        DistinctCutsNothing(s[k], From(s[k], k.0 in step.unread), step.batches[k.0], limits(k.0));
      }
      hide IsBatch, CutOff;
    }
  }

  /** With distinct timestamps in every table throughout, a run misses exactly the rows that arrived late. */
  lemma {:induction false} DistinctTimesMissOnlyLate(s: State, limits: Table -> nat, steps: seq<Step>)
    requires AllAccounted(s) && NothingCut(s) && ValidRun(s, limits, steps) && DistinctThroughout(s, steps)
    ensures forall k :: k in Run(s, steps) ==> Missed(Run(s, steps)[k]) == Run(s, steps)[k].late * Run(s, steps)[k].rows
    decreases |steps|
  {
    if steps == [] {
    } else {
      StepKeeps(s, limits, steps[0]);
      StepCutsNothing(s, limits, steps[0]);
      hide AllAccounted, NothingCut, Enabled, Apply, AllDistinct, Missed;
      DistinctTimesMissOnlyLate(Apply(s, steps[0]), limits, steps[1..]);
    }
  }

  /** The due rows before an instant, and up to it. */
  function DueBefore(rows: set<Row>, from: int, x: int): set<Row>
  {
    set r | r in Pending(rows, from) && r.ts < x
  }

  function DueBy(rows: set<Row>, from: int, x: int): set<Row>
  {
    set r | r in Pending(rows, from) && r.ts <= x
  }

  /** Whether the limit falls strictly inside the rows tied at `x`. */
  ghost predicate LimitSplits(rows: set<Row>, from: int, limit: nat, x: int)
  {
    |DueBefore(rows, from, x)| < limit < |DueBy(rows, from, x)|
  }

  /** Whether a batch leaves a row behind at its last timestamp. */
  ghost predicate CutsOff(rows: set<Row>, from: int, batch: seq<Row>)
  {
    batch != [] && exists r :: r in Pending(rows, from) && r !in batch && r.ts == batch[|batch| - 1].ts
  }

  lemma {:induction false} MembersCount(batch: seq<Row>)
    requires forall i, j :: 0 <= i < j < |batch| ==> batch[i] != batch[j]
    ensures |Members(batch)| == |batch|
  {
    if batch != [] {
      var n := |batch| - 1;
      MembersCount(batch[..n]);
      assert Members(batch) == Members(batch[..n]) + {batch[n]};
    }
  }

  /** Every query result over the same rows leaves tied rows behind, or none does: when the limit splits a tie. */
  lemma CutsOffIff(rows: set<Row>, from: int, batch: seq<Row>, limit: nat)
    requires IsBatch(rows, from, limit, batch)
    ensures CutsOff(rows, from, batch) <==> exists x :: LimitSplits(rows, from, limit, x)
  {
    if CutsOff(rows, from, batch) {
      CutSplits(rows, from, batch, limit);
      assert LimitSplits(rows, from, limit, batch[|batch| - 1].ts);
    }
    if x :| LimitSplits(rows, from, limit, x) {
      SplitCuts(rows, from, batch, limit, x);
    }
  }

  /** Where a batch lies among the due rows. */
  lemma BatchBounds(rows: set<Row>, from: int, batch: seq<Row>, limit: nat)
    requires IsBatch(rows, from, limit, batch) && batch != []
    ensures var x, got := batch[|batch| - 1].ts, Members(batch);
            && |got| == |batch| <= limit && batch[|batch| - 1] in got
            && DueBefore(rows, from, x) <= got - {batch[|batch| - 1]} && got <= DueBy(rows, from, x)
  {
    MembersCount(batch);
    assert batch[|batch| - 1] in batch;
    forall r | r in rows
      ensures r in batch ==> r in DueBy(rows, from, batch[|batch| - 1].ts)
      ensures r in DueBefore(rows, from, batch[|batch| - 1].ts) ==> r in batch
    {
      BatchCovers(rows, from, batch, limit, r);
    }
  }

  lemma CutSplits(rows: set<Row>, from: int, batch: seq<Row>, limit: nat)
    requires IsBatch(rows, from, limit, batch) && CutsOff(rows, from, batch)
    ensures LimitSplits(rows, from, limit, batch[|batch| - 1].ts)
  {
    BatchBounds(rows, from, batch, limit);
    var last, got := batch[|batch| - 1], Members(batch);
    var r :| r in Pending(rows, from) && r !in batch && r.ts == last.ts;
    SubsetCount(DueBefore(rows, from, last.ts), got - {last});
    SubsetCount(got + {r}, DueBy(rows, from, last.ts));
    SubsetCount(got + {r}, Pending(rows, from));
  }

  lemma SplitCuts(rows: set<Row>, from: int, batch: seq<Row>, limit: nat, x: int)
    requires IsBatch(rows, from, limit, batch) && LimitSplits(rows, from, limit, x)
    ensures CutsOff(rows, from, batch)
  {
    SubsetCount(DueBy(rows, from, x), Pending(rows, from));
    BatchBounds(rows, from, batch, limit);
    var last, got := batch[|batch| - 1], Members(batch);
    if last.ts < x { SubsetCount(got, DueBefore(rows, from, x)); }
    if last.ts > x { SubsetCount(DueBy(rows, from, x), got); }
    if DueBy(rows, from, x) <= got { SubsetCount(DueBy(rows, from, x), got); }
    var r :| r in DueBy(rows, from, x) && r !in got;
    assert r !in DueBefore(rows, from, last.ts);
  }

  /** Two rows with one timestamp and a limit of one: the second is missed. */
  lemma TiedRowIsMissed()
    ensures var t := TableState({Row(1, 5), Row(2, 5)}, 0, {}, {}, {}, {});
            && IsBatch(t.rows, t.cursor, 1, [Row(1, 5)])
            && Row(2, 5) in Missed(AfterSuccess(t, 0, [Row(1, 5)], {}, true))
  {
  }

  /** A row stamped 3 that arrives when the cursor is at 5 is missed, with no tie and no limit in sight. */
  lemma LateRowIsMissed()
    ensures var t := TableState({Row(1, 5)}, 5, {Row(1, 5)}, {}, {}, {});
            Accounted(t) && Missed(t) == {} && Missed(AfterArrival(t, Row(2, 3), {})) == {Row(2, 3)}
  {
  }

  /** A successful cycle over distinct timestamps takes a full batch off the pending rows, and nothing else. */
  lemma CycleDrains(t: TableState, batch: seq<Row>, limit: nat, cross: set<Row>)
    requires DistinctTimes(t.rows) && IsBatch(t.rows, t.cursor, limit, batch)
    ensures var t' := AfterSuccess(t, t.cursor, batch, cross, true);
            |Pending(t'.rows, t'.cursor)| == |Pending(t.rows, t.cursor)| - Min(limit, |Pending(t.rows, t.cursor)|)
  {
    var t' := AfterSuccess(t, t.cursor, batch, cross, true);
    var before, after := Pending(t.rows, t.cursor), Pending(t'.rows, t'.cursor);
    if batch != [] {
      MembersCount(batch);
      forall r | r in before
        ensures r in after <==> r !in batch
      {
        BatchCovers(t.rows, t.cursor, batch, limit, r);
        assert batch[|batch| - 1] in batch;
      }
      assert batch[|batch| - 1] in batch;
      BatchCovers(t.rows, t.cursor, batch, limit, batch[|batch| - 1]);
      assert after == before - Members(batch);
      assert Members(batch) <= before;
    }
  }

  /** Successful cycles one after another, with no arrivals between them. */
  function AfterCycles(t: TableState, batches: seq<seq<Row>>, cross: set<Row>): TableState
    decreases |batches|
  {
    if batches == [] then t
    else AfterCycles(AfterSuccess(t, t.cursor, batches[0], cross, true), batches[1..], cross)
  }

  ghost predicate AreBatches(t: TableState, limit: nat, batches: seq<seq<Row>>, cross: set<Row>)
    decreases |batches|
  {
    batches != [] ==>
      && IsBatch(t.rows, t.cursor, limit, batches[0])
      && AreBatches(AfterSuccess(t, t.cursor, batches[0], cross, true), limit, batches[1..], cross)
  }

  /**
   A backlog of n rows with distinct timestamps takes n/limit successful cycles, rounded up: that many
   account for every row of it, and fewer leave exactly the rest.
   */
  lemma {:induction false} CyclesDrain(t: TableState, limit: nat, batches: seq<seq<Row>>, cross: set<Row>)
    requires DistinctTimes(t.rows) && AreBatches(t, limit, batches, cross)
    ensures var t', n, done := AfterCycles(t, batches, cross), |Pending(t.rows, t.cursor)|, |batches| * limit;
            && |Pending(t'.rows, t'.cursor)| == (if n <= done then 0 else n - done)
            && (n <= done ==> Pending(t.rows, t.cursor) <= t'.delivered + t'.skipped)
            && t.delivered <= t'.delivered && t.skipped <= t'.skipped
    decreases |batches|
  {
    hide AfterSuccess, IsBatch, DistinctTimes;
    if batches == [] {
      if |Pending(t.rows, t.cursor)| <= 0 { assert Pending(t.rows, t.cursor) == {}; }
    } else {
      var next := AfterSuccess(t, t.cursor, batches[0], cross, true);
      CycleDrains(t, batches[0], limit, cross);
      CycleDelivers(t, batches[0], limit, cross);
      hide Pending;
      CyclesDrain(next, limit, batches[1..], cross);
      assert |batches| * limit == |batches[1..]| * limit + limit;
    }
  }

  /** What a successful cycle takes off the pending rows has been delivered or skipped. */
  lemma CycleDelivers(t: TableState, batch: seq<Row>, limit: nat, cross: set<Row>)
    requires DistinctTimes(t.rows) && IsBatch(t.rows, t.cursor, limit, batch)
    ensures var t' := AfterSuccess(t, t.cursor, batch, cross, true);
            && t'.rows == t.rows && t.delivered <= t'.delivered && t.skipped <= t'.skipped
            && Pending(t.rows, t.cursor) <= Pending(t'.rows, t'.cursor) + t'.delivered + t'.skipped
  {
    var t' := AfterSuccess(t, t.cursor, batch, cross, true);
    forall r | r in Pending(t.rows, t.cursor)
      ensures r in Pending(t'.rows, t'.cursor) + t'.delivered + t'.skipped
    {
      if batch != [] {
        BatchCovers(t.rows, t.cursor, batch, limit, r);
        assert batch[|batch| - 1] in batch;
      }
    }
  }

  // --- The persisted cursors ---------------------------------------------------------------------

  /** `forwarder_cursors`, and the end of `pushNetwork`. */
  class CursorTable {
    var cursors: map<Key, int>

    constructor ()
      ensures cursors == map[]
    {
      cursors := map[];
    }

    /** A missing cursor reads as the zero time, and so does one whose query fails. */
    method GetForwarderCursor(key: Key, fails: bool) returns (t: int)
      ensures t == if key in cursors && !fails then cursors[key] else ZERO_TIME
    {
      t := ZERO_TIME;
      if !fails && key in cursors {
        t := cursors[key];
      }
    }

    /** The upsert; `written` is false when the database refused it, which the caller ignores. */
    method SetForwarderCursor(key: Key, t: int, written: bool)
      modifies this
      ensures cursors == if written then old(cursors)[key := t] else old(cursors)
    {
      if written {
        cursors := cursors[key := t];
      }
    }

    /**
     Step 7: after a cycle, each non-empty polled batch moves its own cursor to its last row, and
     only if no post failed.
     */
    method AdvanceCursors(net: string, batches: map<Table, seq<Row>>, ok: bool, saved: set<Table>)
      modifies this
      ensures forall k :: k in cursors <==> k in old(cursors) || Advances(k, net, batches, ok, saved)
      ensures forall k :: k in cursors ==>
        cursors[k] ==
        if Advances(k, net, batches, ok, saved) then batches[k.0][|batches[k.0]| - 1].ts else old(cursors)[k]
    {
      if !ok { return; }
      AdvanceOne(Devices, net, batches, saved);
      AdvanceOne(Metrics, net, batches, saved);
      AdvanceOne(Energy, net, batches, saved);
      AdvanceOne(Topology, net, batches, saved);
      AdvanceOne(Events, net, batches, saved);
      forall k: Key
        ensures k in cursors <==> k in old(cursors) || Advances(k, net, batches, ok, saved)
        ensures k in cursors ==>
          cursors[k] ==
          if Advances(k, net, batches, ok, saved) then batches[k.0][|batches[k.0]| - 1].ts else old(cursors)[k]
      {
        match k.0 {
          case Devices =>
          case Metrics =>
          case Energy =>
          case Topology =>
          case Events =>
        }
      }
    }

    method AdvanceOne(t: Table, net: string, batches: map<Table, seq<Row>>, saved: set<Table>)
      modifies this
      ensures cursors == if Advances((t, net), net, batches, true, saved)
                         then old(cursors)[(t, net) := batches[t][|batches[t]| - 1].ts] else old(cursors)
    {
      if t in batches && |batches[t]| > 0 {
        SetForwarderCursor((t, net), batches[t][|batches[t]| - 1].ts, t in saved);
      }
    }
  }

  predicate Advances(k: Key, net: string, batches: map<Table, seq<Row>>, ok: bool, saved: set<Table>)
  {
    ok && k.1 == net && k.0 in batches && batches[k.0] != [] && k.0 in saved
  }

  /** The state machine's cursors move exactly as `AdvanceCursors` writes them. */
  lemma CycleMovesCursors(s: State, c: Step, k: Key)
    requires c.Cycle? && k in s
    ensures Apply(s, c)[k].cursor ==
            if Advances(k, c.net, c.batches, c.ok, c.saved) then c.batches[k.0][|c.batches[k.0]| - 1].ts
            else s[k].cursor
  {
  }
}
