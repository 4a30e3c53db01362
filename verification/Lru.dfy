/**
 The string-to-string cache of fwDCS/internal/ingest/cache.go: a recency list and an index over the
 same nodes, with a capacity and an optional time to live.
 */
module Lru {
  import opened Options
  import opened Sets

  /** What one node of the list holds. */
  datatype Entry = Entry(key: string, val: string, expiresAt: Option<int>)

  type Items = seq<Entry>

  // --- The cache as a value: most recently touched first -----------------------------------------

  /** The position of `key`, or the length when it is absent. */
  function Find(s: Items, key: string): (i: nat)
    ensures i <= |s|
    ensures i < |s| ==> s[i].key == key
    ensures forall j :: 0 <= j < i ==> s[j].key != key
  {
    if s == [] || s[0].key == key then 0 else 1 + Find(s[1..], key)
  }

  predicate Has(s: Items, key: string)
  {
    Find(s, key) < |s|
  }

  function Drop(s: Items, i: nat): Items
    requires i < |s|
  {
    s[..i] + s[i + 1..]
  }

  function Moved(s: Items, i: nat): Items
    requires i < |s|
  {
    [s[i]] + Drop(s, i)
  }

  predicate Expired(e: Entry, now: int)
  {
    e.expiresAt.Some? && now > e.expiresAt.value
  }

  /** Whether a lookup at `now` finds a live value. */
  predicate Hits(s: Items, key: string, now: int)
  {
    Has(s, key) && !Expired(s[Find(s, key)], now)
  }

  function AfterGet(s: Items, key: string, now: int): Items
  {
    var i := Find(s, key);
    if i == |s| then s
    else if Expired(s[i], now) then Drop(s, i)
    else Moved(s, i)
  }

  function Answer(s: Items, key: string, now: int): Option<string>
  {
    if Hits(s, key, now) then Some(s[Find(s, key)].val) else None
  }

  function AfterPut(s: Items, cap: nat, e: Entry): Items
  {
    var i := Find(s, e.key);
    if i < |s| then [e] + Drop(s, i)
    else if |s| + 1 > cap then ([e] + s)[..|s|]
    else [e] + s
  }

  function AfterInvalidate(s: Items, key: string): Items
  {
    if Has(s, key) then Drop(s, Find(s, key)) else s
  }

  function Expiry(ttl: int, now: int): Option<int>
  {
    if ttl > 0 then Some(now + ttl) else None
  }

  // --- Runs ------------------------------------------------------------------------------------------

  datatype Op =
    | Get(key: string, now: int)
    | Put(key: string, val: string, now: int)
    | Invalidate(key: string)
    | Flush

  datatype Config = Config(cap: nat, ttl: int)

  function Step(c: Config, s: Items, op: Op): Items
  {
    match op
    case Get(key, now) => AfterGet(s, key, now)
    case Put(key, val, now) => AfterPut(s, c.cap, Entry(key, val, Expiry(c.ttl, now)))
    case Invalidate(key) => AfterInvalidate(s, key)
    case Flush => []
  }

  function Run(c: Config, ops: seq<Op>): Items
  {
    if ops == [] then [] else Step(c, Run(c, ops[..|ops| - 1]), ops[|ops| - 1])
  }

  /** The reference: a plain dictionary of what was put and not invalidated or flushed. */
  function Reference(c: Config, ops: seq<Op>): map<string, Entry>
  {
    if ops == [] then map[]
    else
      var before := Reference(c, ops[..|ops| - 1]);
      match ops[|ops| - 1]
      case Get(_, _) => before
      case Put(key, val, now) => before[key := Entry(key, val, Expiry(c.ttl, now))]
      case Invalidate(key) => before - {key}
      case Flush => map[]
  }

  /** The key an operation moves to the front: the one put, or the one found. */
  function Touched(s: Items, op: Op): set<string>
  {
    match op
    case Get(key, now) => if Hits(s, key, now) then {key} else {}
    case Put(key, _, _) => {key}
    case Invalidate(_) => {}
    case Flush => {}
  }

  /** The keys touched since `key` last was. */
  function Since(c: Config, ops: seq<Op>, key: string): set<string>
  {
    if ops == [] then {}
    else
      var touched := Touched(Run(c, ops[..|ops| - 1]), ops[|ops| - 1]);
      if key in touched then {} else Since(c, ops[..|ops| - 1], key) + touched
  }

  /** Whether an operation removes `key` on purpose: invalidated, flushed, or looked up after its expiry. */
  predicate Removes(s: Items, op: Op, key: string)
  {
    match op
    case Get(k, now) => k == key && Has(s, key) && Expired(s[Find(s, key)], now)
    case Put(_, _, _) => false
    case Invalidate(k) => k == key
    case Flush => true
  }

  /** Put at some point and not removed on purpose since. */
  predicate Kept(c: Config, ops: seq<Op>, key: string)
  {
    if ops == [] then false
    else
      var s, op := Run(c, ops[..|ops| - 1]), ops[|ops| - 1];
      if op.Put? && op.key == key then true
      else if Removes(s, op, key) then false
      else Kept(c, ops[..|ops| - 1], key)
  }

  // --- Facts about one step ------------------------------------------------------------------------

  ghost predicate Distinct(s: Items)
  {
    forall i, j :: 0 <= i < j < |s| ==> s[i].key != s[j].key
  }

  lemma FindIs(s: Items, i: nat)
    requires Distinct(s) && i < |s|
    ensures Find(s, s[i].key) == i
  {
  }

  lemma HasNot(s: Items, key: string)
    ensures !Has(s, key) <==> forall i :: 0 <= i < |s| ==> s[i].key != key
  {
  }

  /** `t` is what is left of `s`, in its order. */
  ghost predicate LeftOf(t: Items, s: Items)
  {
    && (forall i :: 0 <= i < |t| ==> Has(s, t[i].key) && t[i] == s[Find(s, t[i].key)])
    && (forall i, j :: 0 <= i < j < |t| ==> Find(s, t[i].key) < Find(s, t[j].key))
  }

  lemma DropLeaves(s: Items, d: nat)
    requires Distinct(s) && d < |s|
    ensures |Drop(s, d)| == |s| - 1 && Distinct(Drop(s, d)) && LeftOf(Drop(s, d), s) && !Has(Drop(s, d), s[d].key)
    ensures forall k :: 0 <= k < |s| && k != d ==> Has(Drop(s, d), s[k].key)
  {
    hide Find;
    var t := Drop(s, d);
    forall i | 0 <= i < |t|
      ensures Find(s, t[i].key) == (if i < d then i else i + 1) && t[i] == s[if i < d then i else i + 1]
    {
      FindIs(s, if i < d then i else i + 1);
    }
    HasNot(t, s[d].key);
    forall k | 0 <= k < |s| && k != d
      ensures Has(t, s[k].key)
    {
      HasNot(t, s[k].key);
      assert t[if k < d then k else k - 1] == s[k];
    }
  }

  lemma TakeLeaves(s: Items, n: nat)
    requires Distinct(s) && n <= |s|
    ensures Distinct(s[..n]) && LeftOf(s[..n], s)
  {
  }

  ghost predicate Fits(c: Config, s: Items)
  {
    Distinct(s) && |s| <= c.cap
  }

  /** `t` is `e` in front of what is left of `s`. */
  ghost predicate Fronted(s: Items, t: Items, e: Entry)
  {
    |t| > 0 && t[0] == e && LeftOf(t[1..], s) && (forall i :: 0 < i < |t| ==> t[i].key != e.key)
  }

  lemma FrontedDistinct(s: Items, e: Entry, rest: Items)
    requires Distinct(s) && Distinct(rest) && LeftOf(rest, s) && !Has(rest, e.key)
    ensures Distinct([e] + rest) && Fronted(s, [e] + rest, e)
  {
    hide Find, LeftOf;
    HasNot(rest, e.key);
    assert ([e] + rest)[1..] == rest;
  }

  lemma GetShape(c: Config, s: Items, key: string, now: int)
    requires Fits(c, s)
    ensures var t := AfterGet(s, key, now);
            Fits(c, t) && if Hits(s, key, now) then Fronted(s, t, s[Find(s, key)]) else LeftOf(t, s)
  {
    var i := Find(s, key);
    hide Find, LeftOf, Distinct, Drop;
    TakeLeaves(s, |s|);
    assert s[..|s|] == s;
    if i < |s| {
      DropLeaves(s, i);
      FrontedDistinct(s, s[i], Drop(s, i));
    }
  }

  lemma PutShape(c: Config, s: Items, e: Entry)
    requires Fits(c, s) && c.cap > 0
    ensures Fits(c, AfterPut(s, c.cap, e)) && Fronted(s, AfterPut(s, c.cap, e), e)
  {
    var i := Find(s, e.key);
    hide Find, LeftOf, Distinct, Drop;
    if i < |s| {
      DropLeaves(s, i);
      FrontedDistinct(s, e, Drop(s, i));
    } else {
      HasNot(s, e.key);
      var n := if |s| + 1 > c.cap then |s| - 1 else |s|;
      TakeLeaves(s, n);
      HasNot(s[..n], e.key);
      FrontedDistinct(s, e, s[..n]);
      assert AfterPut(s, c.cap, e) == [e] + s[..n];
    }
  }

  lemma InvalidateShape(c: Config, s: Items, key: string)
    requires Fits(c, s)
    ensures Fits(c, AfterInvalidate(s, key)) && LeftOf(AfterInvalidate(s, key), s) && !Has(AfterInvalidate(s, key), key)
  {
    hide Find, LeftOf, Distinct, Drop;
    TakeLeaves(s, |s|);
    assert s[..|s|] == s;
    if Has(s, key) { DropLeaves(s, Find(s, key)); }
  }

  /** Distinct keys and the capacity, after any operations. */
  lemma {:induction false} RunFits(c: Config, ops: seq<Op>)
    requires c.cap > 0
    ensures Fits(c, Run(c, ops))
    decreases |ops|
  {
    if ops != [] {
      var before, op := ops[..|ops| - 1], ops[|ops| - 1];
      RunFits(c, before);
      StepShape(c, Run(c, before), op);
      hide Fits, Step;
    }
  }

  /** An operation that touches a key puts it in front of what is left; any other only removes. */
  lemma StepShape(c: Config, s: Items, op: Op)
    requires Fits(c, s) && c.cap > 0
    ensures var t := Step(c, s, op);
            && Fits(c, t)
            && (Touched(s, op) == {} ==> LeftOf(t, s))
            && (forall x :: x in Touched(s, op) ==> |t| > 0 && t[0].key == x && Fronted(s, t, t[0]))
  {
    hide Find, AfterGet, AfterPut, AfterInvalidate, Fits, LeftOf;
    match op
    case Get(key, now) => GetShape(c, s, key, now);
    case Put(key, val, now) => PutShape(c, s, Entry(key, val, Expiry(c.ttl, now)));
    case Invalidate(key) => InvalidateShape(c, s, key);
    case Flush => FlushShape(c, s);
  }

  lemma FlushShape(c: Config, s: Items)
    ensures Fits(c, []) && LeftOf([], s)
  {
  }

  // --- What a hit returns ------------------------------------------------------------------------------

  ghost predicate Agrees(s: Items, m: map<string, Entry>)
  {
    forall i :: 0 <= i < |s| ==> s[i].key in m && m[s[i].key] == s[i]
  }

  lemma FrontedAgrees(s: Items, t: Items, m: map<string, Entry>, e: Entry)
    requires Fronted(s, t, e) && Agrees(s, m)
    ensures Agrees(t, m[e.key := e])
  {
  }

  lemma GetAgrees(c: Config, s: Items, m: map<string, Entry>, key: string, now: int)
    requires Fits(c, s) && Agrees(s, m)
    ensures Agrees(AfterGet(s, key, now), m)
  {
  }

  lemma InvalidateAgrees(c: Config, s: Items, m: map<string, Entry>, key: string)
    requires Fits(c, s) && Agrees(s, m)
    ensures Agrees(AfterInvalidate(s, key), m - {key})
  {
  }

  lemma NothingAgrees()
    ensures Agrees([], map[])
  {
  }

  /** Every entry is the dictionary's: the latest value put under its key with no later invalidate or flush. */
  lemma {:induction false} EntriesAreLatestPuts(c: Config, ops: seq<Op>)
    requires c.cap > 0
    ensures Agrees(Run(c, ops), Reference(c, ops))
    decreases |ops|
  {
    if ops != [] {
      var before, op := ops[..|ops| - 1], ops[|ops| - 1];
      EntriesAreLatestPuts(c, before);
      RunFits(c, before);
      var s, m := Run(c, before), Reference(c, before);
      assert Run(c, ops) == Step(c, s, op);
      hide Find, AfterGet, AfterPut, AfterInvalidate, Fits, LeftOf, Agrees, Fronted, Run;
      match op
      case Get(key, now) =>
        GetAgrees(c, s, m, key, now);
      case Put(key, val, now) =>
        var e := Entry(key, val, Expiry(c.ttl, now));
        PutShape(c, s, e);
        FrontedAgrees(s, AfterPut(s, c.cap, e), m, e);
      case Invalidate(key) =>
        InvalidateAgrees(c, s, m, key);
      case Flush =>
        NothingAgrees();
    }
  }

  /** A hit at `now` returns the value of the latest put of that key, which has not expired. */
  lemma HitIsLatestPut(c: Config, ops: seq<Op>, key: string, now: int)
    requires c.cap > 0 && Hits(Run(c, ops), key, now)
    ensures key in Reference(c, ops) && !Expired(Reference(c, ops)[key], now)
    ensures Answer(Run(c, ops), key, now) == Some(Reference(c, ops)[key].val)
  {
    hide Find, Run, Reference;
    EntriesAreLatestPuts(c, ops);
  }

  // --- Recency --------------------------------------------------------------------------------------------

  /** Each entry was touched after every entry behind it. */
  ghost predicate ByRecency(c: Config, ops: seq<Op>, s: Items)
  {
    forall i, j :: 0 <= i < j < |s| ==>
      s[i].key in Since(c, ops, s[j].key) && s[j].key !in Since(c, ops, s[i].key)
  }

  lemma SinceStep(c: Config, ops: seq<Op>, key: string)
    requires ops != []
    ensures var touched := Touched(Run(c, ops[..|ops| - 1]), ops[|ops| - 1]);
            Since(c, ops, key) == if key in touched then {} else Since(c, ops[..|ops| - 1], key) + touched
  {
  }

  lemma LeftByRecency(c: Config, ops: seq<Op>, s: Items, t: Items)
    requires ByRecency(c, ops, s) && LeftOf(t, s)
    ensures ByRecency(c, ops, t)
  {
  }

  lemma UntouchedByRecency(c: Config, ops: seq<Op>, t: Items)
    requires ops != [] && Touched(Run(c, ops[..|ops| - 1]), ops[|ops| - 1]) == {}
    requires ByRecency(c, ops[..|ops| - 1], t)
    ensures ByRecency(c, ops, t)
  {
  }

  lemma TouchedByRecency(c: Config, ops: seq<Op>, s: Items, t: Items, x: string)
    requires ops != [] && Touched(Run(c, ops[..|ops| - 1]), ops[|ops| - 1]) == {x}
    requires ByRecency(c, ops[..|ops| - 1], s)
    requires |t| > 0 && t[0].key == x && Fronted(s, t, t[0])
    ensures ByRecency(c, ops, t)
  {
    var before := ops[..|ops| - 1];
    LeftByRecency(c, before, s, t[1..]);
    hide Run, Touched, Since, LeftOf;
    SinceStep(c, ops, x);
    forall j | 0 < j < |t|
      ensures Since(c, ops, t[j].key) == Since(c, before, t[j].key) + {x}
    {
      SinceStep(c, ops, t[j].key);
    }
    forall i, j | 0 < i < j < |t|
      ensures t[i].key in Since(c, before, t[j].key) && t[j].key !in Since(c, before, t[i].key)
    {
      assert t[i] == t[1..][i - 1] && t[j] == t[1..][j - 1];
    }
  }

  lemma TouchedIsOne(s: Items, op: Op)
    ensures Touched(s, op) == {} || exists x :: Touched(s, op) == {x}
  {
  }

  /** The list is ordered by latest touch after any operations. */
  lemma {:induction false} ListIsByRecency(c: Config, ops: seq<Op>)
    requires c.cap > 0
    ensures ByRecency(c, ops, Run(c, ops))
    decreases |ops|
  {
    if ops != [] {
      var before, op := ops[..|ops| - 1], ops[|ops| - 1];
      var s, t := Run(c, before), Run(c, ops);
      ListIsByRecency(c, before);
      RunFits(c, before);
      StepShape(c, s, op);
      TouchedIsOne(s, op);
      assert t == Step(c, s, op);
      hide Run, Step, Touched, Since, Fits, LeftOf, Fronted, ByRecency;
      if Touched(s, op) == {} {
        LeftByRecency(c, before, s, t);
        UntouchedByRecency(c, ops, t);
      } else {
        var x :| Touched(s, op) == {x};
        assert x in Touched(s, op);
        TouchedByRecency(c, ops, s, t, x);
      }
    }
  }

  /** A put of a new key in a full cache removes one entry, the last one, touched before every other. */
  lemma OverflowRemovesLeastRecent(c: Config, ops: seq<Op>, key: string, val: string, now: int)
    requires c.cap > 0 && !Has(Run(c, ops), key) && |Run(c, ops)| == c.cap
    ensures var s := Run(c, ops);
            && Step(c, s, Put(key, val, now)) == [Entry(key, val, Expiry(c.ttl, now))] + s[..c.cap - 1]
            && forall i :: 0 <= i < c.cap - 1 ==>
                 s[i].key in Since(c, ops, s[c.cap - 1].key) && s[c.cap - 1].key !in Since(c, ops, s[i].key)
  {
    ListIsByRecency(c, ops);
    hide Run, Since, Find;
  }

  // --- Retention ---------------------------------------------------------------------------------------------

  function Keys(s: Items): set<string>
  {
    set i | 0 <= i < |s| :: s[i].key
  }

  lemma KeysGrow(s: Items)
    requires s != []
    ensures Keys(s) == Keys(s[..|s| - 1]) + {s[|s| - 1].key}
  {
  }

  lemma {:induction false} KeysCount(s: Items)
    requires Distinct(s)
    ensures |Keys(s)| == |s|
    decreases |s|
  {
    if s == [] {
      assert Keys(s) == {};
    } else {
      var front, last := s[..|s| - 1], s[|s| - 1].key;
      KeysCount(front);
      KeysGrow(s);
      assert last !in Keys(front);
      hide Keys;
    }
  }

  lemma PutNew(s: Items, cap: nat, e: Entry)
    requires !Has(s, e.key) && |s| <= cap && cap > 0
    ensures AfterPut(s, cap, e) == [e] + (if |s| == cap then s[..|s| - 1] else s)
  {
  }

  lemma KeptByPut(s: Items, cap: nat, e: Entry, i: nat)
    requires !Has(s, e.key) && |s| <= cap && cap > 0 && i < |s| && (|s| < cap || i < |s| - 1)
    ensures Has(AfterPut(s, cap, e), s[i].key)
  {
    PutNew(s, cap, e);
    var t := AfterPut(s, cap, e);
    assert t[i + 1] == s[i];
    HasNot(t, s[i].key);
  }

  lemma PutExisting(s: Items, cap: nat, e: Entry, key: string)
    requires Distinct(s) && Has(s, e.key) && (Has(s, key) || key == e.key)
    ensures Has(AfterPut(s, cap, e), key)
  {
    var d, i := Find(s, e.key), Find(s, key);
    DropLeaves(s, d);
    var rest := Drop(s, d);
    assert AfterPut(s, cap, e) == [e] + rest;
    HasNot([e] + rest, key);
    HasNot(rest, key);
    hide Find, Drop, AfterPut, LeftOf;
    assert ([e] + rest)[0] == e;
    forall k | 0 <= k < |rest|
      ensures ([e] + rest)[k + 1] == rest[k]
    {
    }
  }

  lemma MoreRecent(c: Config, ops: seq<Op>, s: Items, x: string, key: string)
    requires |s| == c.cap > 0 && Distinct(s) && !Has(s, x) && ByRecency(c, ops, s) && s[c.cap - 1].key == key
    ensures |Since(c, ops, key) + {x}| >= c.cap
  {
    HasNot(s, x);
    hide Since, Find;
    var n := |s| - 1;
    KeysCount(s[..n]);
    forall k | k in Keys(s[..n])
      ensures k in Since(c, ops, key) && k != x
    {
      var i :| 0 <= i < n && s[..n][i].key == k;
      assert s[i].key == k;
    }
    hide Keys;
    assert |Keys(s[..n]) + {x}| == n + 1;
    SubsetCount(Keys(s[..n]) + {x}, Since(c, ops, key) + {x});
  }

  /** A put removes a key only from a full cache, and then a capacity of other keys is more recent than it. */
  lemma EvictedAfterCap(c: Config, ops: seq<Op>, e: Entry, key: string)
    requires c.cap > 0 && Fits(c, Run(c, ops)) && ByRecency(c, ops, Run(c, ops))
    requires Has(Run(c, ops), key) && !Has(AfterPut(Run(c, ops), c.cap, e), key)
    ensures |Since(c, ops, key) + {e.key}| >= c.cap
  {
    var s := Run(c, ops);
    hide Since, Run, AfterPut, ByRecency;
    if Has(s, e.key) {
      PutExisting(s, c.cap, e, key);
      assert false;
    } else {
      PutNew(s, c.cap, e);
      var i := Find(s, key);
      if |s| < c.cap || i < |s| - 1 {
        KeptByPut(s, c.cap, e, i);
        assert false;
      }
      MoreRecent(c, ops, s, e.key, key);
    }
  }

  /** What a step that is no put leaves: everything it does not remove on purpose. */
  lemma OthersOnlyRemove(c: Config, s: Items, op: Op, key: string)
    requires Distinct(s) && !op.Put?
    ensures Has(Step(c, s, op), key) <==> Has(s, key) && !Removes(s, op, key)
  {
    match op
    case Get(k, now) =>
      if Has(s, k) {
        var d, t := Find(s, k), AfterGet(s, k, now);
        DropHas(s, d, key);
        if !Expired(s[d], now) {
          ConsHas(s[d], Drop(s, d), key);
        }
      }
    case Invalidate(k) =>
      if Has(s, k) { DropHas(s, Find(s, k), key); }
    case Flush =>
  }

  lemma ConsHas(e: Entry, rest: Items, key: string)
    ensures Has([e] + rest, key) <==> key == e.key || Has(rest, key)
  {
  }

  lemma DropHas(s: Items, d: nat, key: string)
    requires Distinct(s) && d < |s|
    ensures Has(Drop(s, d), key) <==> Has(s, key) && key != s[d].key
  {
    DropLeaves(s, d);
    HasNot(s, key);
    HasNot(Drop(s, d), key);
    hide Find, Drop;
  }

  lemma PutHas(c: Config, s: Items, e: Entry, key: string)
    requires Fits(c, s) && c.cap > 0
    ensures Has(AfterPut(s, c.cap, e), e.key)
    ensures Has(AfterPut(s, c.cap, e), key) ==> key == e.key || Has(s, key)
  {
    PutShape(c, s, e);
    var t := AfterPut(s, c.cap, e);
    HasNot(t, e.key);
    HasNot(t, key);
    hide Find, AfterPut, Fits;
    forall i | 0 < i < |t|
      ensures Has(s, t[i].key)
    {
      assert t[i] == t[1..][i - 1];
    }
  }

  /**
   A key is in the cache only while it is kept, and a kept key that is missing has a capacity of
   other keys touched since its own latest touch.
   */
  lemma {:induction false} Retention(c: Config, ops: seq<Op>, key: string)
    requires c.cap > 0
    ensures Has(Run(c, ops), key) ==> Kept(c, ops, key)
    ensures Kept(c, ops, key) && !Has(Run(c, ops), key) ==> |Since(c, ops, key)| >= c.cap
    decreases |ops|
  {
    if ops != [] {
      var before, op := ops[..|ops| - 1], ops[|ops| - 1];
      var s, t := Run(c, before), Run(c, ops);
      Retention(c, before, key);
      RunFits(c, before);
      ListIsByRecency(c, before);
      SinceStep(c, ops, key);
      assert t == Step(c, s, op);
      assert Touched(s, op) == {} || Touched(s, op) == {op.key};
      if op.Put? {
        var e := Entry(op.key, op.val, Expiry(c.ttl, op.now));
        hide Run, Since, AfterPut, Fits, ByRecency, Find;
        PutHas(c, s, e, key);
        if !Has(t, key) && Has(s, key) { EvictedAfterCap(c, before, e, key); }
        SubsetCount(Since(c, before, key), Since(c, before, key) + {op.key});
      } else {
        OthersOnlyRemove(c, s, op, key);
        hide Run, Since, Step, Fits, ByRecency, Find;
        SubsetCount(Since(c, before, key), Since(c, before, key) + Touched(s, op));
      }
    }
  }

  // --- The object ------------------------------------------------------------------------------------------------

  /** A list element and the entry it holds. */
  class Node {
    const key: string
    var val: string
    var expiresAt: Option<int>

    constructor (key: string, val: string, expiresAt: Option<int>)
      ensures this.key == key && this.val == val && this.expiresAt == expiresAt
    {
      this.key, this.val, this.expiresAt := key, val, expiresAt;
    }

    function Held(): Entry
      reads this
    {
      Entry(key, val, expiresAt)
    }
  }

  ghost function Entries(ll: seq<Node>): (s: Items)
    reads ll
    ensures |s| == |ll| && forall i :: 0 <= i < |ll| ==> s[i] == ll[i].Held()
  {
    seq(|ll|, i requires 0 <= i < |ll| reads ll => ll[i].Held())
  }

  function Nodes(ll: seq<Node>): set<Node>
  {
    set n | n in ll
  }

  function Without(ll: seq<Node>, i: nat): seq<Node>
    requires i < |ll|
  {
    ll[..i] + ll[i + 1..]
  }

  /** The index and the list hold the same nodes, each under its own key. */
  ghost predicate Linked(ll: seq<Node>, idx: map<string, Node>)
  {
    && (forall i, j :: 0 <= i < j < |ll| ==> ll[i].key != ll[j].key)
    && (forall i :: 0 <= i < |ll| ==> ll[i].key in idx && idx[ll[i].key] == ll[i])
    && (forall k :: k in idx ==> idx[k] in ll && idx[k].key == k)
  }

  lemma WithoutLinked(ll: seq<Node>, idx: map<string, Node>, i: nat)
    requires Linked(ll, idx) && i < |ll|
    ensures Linked(Without(ll, i), idx - {ll[i].key})
  {
  }

  lemma FrontLinked(ll: seq<Node>, idx: map<string, Node>, n: Node)
    requires Linked(ll, idx) && n.key !in idx
    ensures Linked([n] + ll, idx[n.key := n])
  {
  }

  lemma MovedLinked(ll: seq<Node>, idx: map<string, Node>, i: nat)
    requires Linked(ll, idx) && i < |ll|
    ensures Linked([ll[i]] + Without(ll, i), idx)
  {
  }

  lemma LinkedDistinct(ll: seq<Node>, idx: map<string, Node>)
    requires Linked(ll, idx)
    ensures Distinct(Entries(ll))
  {
  }

  /** The index knows exactly the keys in the list. */
  lemma IndexIsList(ll: seq<Node>, idx: map<string, Node>, key: string)
    requires Linked(ll, idx)
    ensures key in idx <==> Has(Entries(ll), key)
    ensures key in idx ==> Find(Entries(ll), key) < |ll| && ll[Find(Entries(ll), key)] == idx[key]
  {
  }

  lemma EntriesWithout(ll: seq<Node>, i: nat)
    requires i < |ll|
    ensures Entries(Without(ll, i)) == Drop(Entries(ll), i)
  {
  }

  lemma NodesWithout(ll: seq<Node>, i: nat)
    requires i < |ll|
    ensures Nodes(Without(ll, i)) <= Nodes(ll) && Nodes([ll[i]] + Without(ll, i)) <= Nodes(ll)
  {
  }

  lemma EntriesMoved(ll: seq<Node>, i: nat)
    requires i < |ll|
    ensures Entries([ll[i]] + Without(ll, i)) == Moved(Entries(ll), i)
  {
  }

  lemma RefreshedThenMoved(s: Items, e: Entry)
    requires Distinct(s) && Has(s, e.key)
    ensures var i := Find(s, e.key);
            i < |s| && Find(s[i := e], e.key) == i && Moved(s[i := e], i) == [e] + Drop(s, i)
  {
    var i := Find(s, e.key);
    var t := s[i := e];
    assert Distinct(t);
    FindIs(t, i);
    DropUpdated(s, i, e);
    hide Find, Drop, Distinct;
  }

  lemma DropUpdated(s: Items, i: nat, e: Entry)
    requires i < |s|
    ensures Drop(s[i := e], i) == Drop(s, i)
  {
  }

  lemma AfterPutIs(s: Items, cap: nat, e: Entry)
    ensures Has(s, e.key) ==> Find(s, e.key) < |s| && AfterPut(s, cap, e) == [e] + Drop(s, Find(s, e.key))
    ensures !Has(s, e.key) ==> AfterPut(s, cap, e) == if |[e] + s| > cap then ([e] + s)[..|s|] else [e] + s
  {
  }

  lemma ExpiryIs(ttl: int, now: int)
    ensures Expiry(ttl, now) == if ttl > 0 then Some(now + ttl) else None
  {
  }

  class LRU {
    const cap: int
    const ttl: int
    var ll: seq<Node>
    var idx: map<string, Node>

    ghost predicate Valid()
      reads this
    {
      0 < cap && |ll| <= cap && Linked(ll, idx)
    }

    ghost function Contents(): Items
      reads this, ll
    {
      Entries(ll)
    }

    constructor (capacity: int, ttl: int)
      ensures Valid() && Contents() == []
      ensures this.ttl == ttl && cap == if capacity <= 0 then 1024 else capacity
    {
      this.cap := if capacity <= 0 then 1024 else capacity;
      this.ttl := ttl;
      ll, idx := [], map[];
    }

    /** Where a node of the index sits in the list. */
    method Position(key: string) returns (i: nat)
      requires Valid() && key in idx
      ensures i < |ll| && ll[i] == idx[key] && i == Find(Contents(), key)
    {
      IndexIsList(ll, idx, key);
      i := 0;
      while ll[i] != idx[key]
        invariant i <= Find(Contents(), key)
        decreases |ll| - i
      {
        i := i + 1;
      }
      LinkedDistinct(ll, idx);
      assert Contents()[i].key == key;
    }

    /** Takes a node out of the list and its key out of the index. */
    method Unlink(key: string)
      requires Valid() && key in idx
      modifies this
      ensures Valid() && Nodes(ll) <= Nodes(old(ll))
      ensures Find(old(Contents()), key) < |old(Contents())|
      ensures Contents() == Drop(old(Contents()), Find(old(Contents()), key))
    {
      hide Linked, Find, Drop, Nodes;
      var i := Position(key);
      EntriesWithout(ll, i);
      WithoutLinked(ll, idx, i);
      IndexKeys(ll, idx, key);
      NodesWithout(ll, i);
      ll, idx := Without(ll, i), idx - {key};
    }

    method MoveToFront(key: string)
      requires Valid() && key in idx
      modifies this`ll
      ensures Valid() && Nodes(ll) <= Nodes(old(ll))
      ensures Find(old(Contents()), key) < |old(Contents())|
      ensures Contents() == Moved(old(Contents()), Find(old(Contents()), key))
    {
      hide Linked, Find, Drop, Nodes;
      var i := Position(key);
      MovedLinked(ll, idx, i);
      EntriesMoved(ll, i);
      NodesWithout(ll, i);
      ll := [ll[i]] + Without(ll, i);
    }

    method PushFront(n: Node)
      requires 0 < cap && Linked(ll, idx) && n.key !in idx
      modifies this
      ensures Linked(ll, idx) && ll == [n] + old(ll) && Contents() == [n.Held()] + old(Contents())
    {
      hide Linked, Find;
      FrontLinked(ll, idx, n);
      ll, idx := [n] + ll, idx[n.key := n];
    }

    method RemoveBack()
      requires Linked(ll, idx) && ll != []
      modifies this
      ensures Linked(ll, idx) && ll == old(ll)[..|old(ll)| - 1] && Contents() == old(Contents())[..|old(ll)| - 1]
    {
      hide Linked, Find;
      var last := |ll| - 1;
      WithoutLinked(ll, idx, last);
      assert Without(ll, last) == ll[..last];
      ll, idx := ll[..last], idx - {ll[last].key};
    }

    /** Overwrites the value and the expiry of the node under `key`. */
    method Refresh(key: string, val: string, exp: Option<int>)
      requires Valid() && key in idx
      modifies ll
      ensures Valid() && Has(old(Contents()), key)
      ensures Contents() == old(Contents())[Find(old(Contents()), key) := Entry(key, val, exp)]
    {
      ghost var before := Contents();
      IndexIsList(ll, idx, key);
      IndexKeys(ll, idx, key);
      hide Linked, Find;
      var entry := idx[key];
      entry.val := val;
      entry.expiresAt := exp;
      forall k | 0 <= k < |ll| && ll[k] != entry
        ensures ll[k].Held() == before[k]
      {
      }
    }

    method Get(key: string, now: int) returns (val: string, ok: bool)
      requires Valid()
      modifies this
      ensures Valid() && Nodes(ll) <= Nodes(old(ll))
      ensures Contents() == AfterGet(old(Contents()), key, now)
      ensures (if ok then Some(val) else None) == Answer(old(Contents()), key, now)
      ensures !ok ==> val == ""
    {
      IndexIsList(ll, idx, key);
      hide Linked, Find, Drop;
      if key !in idx {
        return "", false;
      }
      var entry := idx[key];
      assert Contents()[Find(Contents(), key)] == entry.Held();
      if entry.expiresAt.Some? && now > entry.expiresAt.value {
        Unlink(key);
        return "", false;
      }
      MoveToFront(key);
      return entry.val, true;
    }

    method Put(key: string, val: string, now: int)
      requires Valid()
      modifies this, ll
      ensures Valid() && fresh(Nodes(ll) - Nodes(old(ll)))
      ensures Contents() == AfterPut(old(Contents()), cap, Entry(key, val, Expiry(ttl, now)))
    {
      var exp := None;
      if ttl > 0 {
        exp := Some(now + ttl);
      }
      assert cap > 0;
      hide *;
      KnownKeys(key);
      AfterPutIs(Contents(), cap, Entry(key, val, exp));
      if key in idx {
        Overwrite(key, val, exp);
      } else {
        Insert(key, val, exp);
      }
      assert Entry(key, val, exp) == Entry(key, val, Expiry(ttl, now)) by { ExpiryIs(ttl, now); }
    }

    lemma KnownKeys(key: string)
      requires Valid()
      ensures key in idx <==> Has(Contents(), key)
    {
    }

    lemma DistinctContents()
      requires Valid()
      ensures Distinct(Contents())
    {
      LinkedDistinct(ll, idx);
    }

    method Overwrite(key: string, val: string, exp: Option<int>)
      requires Valid() && key in idx
      modifies this, ll
      ensures Valid() && Nodes(ll) <= Nodes(old(ll))
      ensures Has(old(Contents()), key)
      ensures Contents() == [Entry(key, val, exp)] + Drop(old(Contents()), Find(old(Contents()), key))
    {
      hide *;
      ghost var s, e := Contents(), Entry(key, val, exp);
      KnownKeys(key);
      ghost var i := Find(s, key);
      DistinctContents();
      RefreshedThenMoved(s, e);
      Refresh(key, val, exp);
      assert Contents() == s[i := e];
      MoveToFront(key);
      assert Contents() == Moved(s[i := e], i);
    }

    /** A new node in front, and the last one out when they no longer fit. */
    method Insert(key: string, val: string, exp: Option<int>)
      requires Valid() && key !in idx
      modifies this
      ensures Valid() && fresh(Nodes(ll) - Nodes(old(ll)))
      ensures var s := [Entry(key, val, exp)] + old(Contents());
              Contents() == if |s| > cap then s[..|s| - 1] else s
    {
      hide Linked, Find;
      var n := new Node(key, val, exp);
      PushFront(n);
      if |ll| > cap {
        RemoveBack();
      }
    }

    method Invalidate(key: string)
      requires Valid()
      modifies this
      ensures Valid() && Nodes(ll) <= Nodes(old(ll))
      ensures Contents() == AfterInvalidate(old(Contents()), key)
    {
      IndexIsList(ll, idx, key);
      hide Linked, Find, Drop;
      if key in idx {
        Unlink(key);
      }
    }

    /** Returns how many entries it dropped. */
    method Flush() returns (n: nat)
      requires Valid()
      modifies this
      ensures Valid() && Contents() == [] && n == |old(Contents())|
    {
      n := |ll|;
      ll, idx := [], map[];
    }

    method Len() returns (n: nat)
      ensures n == |Contents()|
    {
      n := |ll|;
    }
  }

  lemma IndexKeys(ll: seq<Node>, idx: map<string, Node>, key: string)
    requires Linked(ll, idx) && key in idx
    ensures idx[key].key == key
    ensures forall i, j :: 0 <= i < j < |ll| ==> ll[i] != ll[j]
  {
  }

  // --- Time to live --------------------------------------------------------------------------------

  /** Without a time to live a value that was just put is found at any time, and with one exactly until it is over. */
  lemma PutIsHitUntilTtl(s: Items, cap: nat, key: string, val: string, ttl: int, put: int, get: int)
    requires cap > 0
    ensures Answer(AfterPut(s, cap, Entry(key, val, Expiry(ttl, put))), key, get)
         == if ttl <= 0 || get <= put + ttl then Some(val) else None
  {
  }
}
