/**
 The tiered rollups of fwDCS/migrations/010_metric_rollups.sql: each tier aggregates the one
 below, and equals direct aggregation of the raw rows. Averages are exact reals.
 */
module Rollups {

  /** The values of every grouping column but the bucket: device, metric, tag, and for energy circuit and phase. */
  type Key = seq<string>

  /** A raw row; `ts` counts microseconds, the grain of the column. */
  datatype Sample = Sample(key: Key, ts: int, value: real)

  /** One group of a view: a bucket start and a key. */
  datatype Slot = Slot(bucket: int, key: Key)

  datatype Row = Row(avg: real, min: real, max: real, last: real, count: nat)

  type Tier = map<Slot, Row>

  const FIVE_MINUTES: nat := 300_000_000
  const HOUR: nat := 3600_000_000
  const DAY: nat := 86400_000_000

  /** `time_bucket(w, ts)`: the start of the bucket holding `ts`, rounding down for negative times too. */
  function Bucket(w: nat, ts: int): int
    requires w > 0
  {
    ts / w * w
  }

  /** A bucket holds the times from its start, a multiple of the width, to the next bucket's, exclusive. */
  lemma BucketHolds(w: nat, ts: int)
    requires w > 0
    ensures Bucket(w, ts) <= ts < Bucket(w, ts) + w && Bucket(w, ts) % w == 0
    ensures forall b :: b % w == 0 && b <= ts < b + w ==> b == Bucket(w, ts)
  {
    var q := ts / w;
    assert ts == q * w + ts % w;
    MultipleOf(q, w);
    forall b | b % w == 0 && b <= ts < b + w
      ensures b == Bucket(w, ts)
    {
      OneMultiple(b, q * w, w);
    }
  }

  lemma MultipleOf(q: int, w: nat)
    requires w > 0
    ensures q * w % w == 0
  {
    assert (q * w) / w == q by {
      var r := (q * w) % w;
      assert q * w == (q * w) / w * w + r;
      assert (q - (q * w) / w) * w == r;
      NoFraction(q - (q * w) / w, w, r);
    }
  }

  lemma NoFraction(k: int, w: nat, r: nat)
    requires r < w && k * w == r
    ensures k == 0
  {
    FarFromZero(k, w);
  }

  lemma FarFromZero(k: int, w: nat)
    ensures k >= 1 ==> k * w >= w
    ensures k <= -1 ==> k * w <= 0 - w
  {
    if k >= 1 { assert (k - 1) * w >= 0; }
    if k <= -1 { assert (k + 1) * w <= 0; }
  }

  /** Two multiples of `w` less than `w` apart are one. */
  lemma OneMultiple(a: int, b: int, w: nat)
    requires w > 0 && a % w == 0 && b % w == 0 && a - b < w && b - a < w
    ensures a == b
  {
    assert a == a / w * w && b == b / w * w;
    var k := a / w - b / w;
    assert k * w == a - b;
    if a >= b { NoFraction(k, w, a - b); } else { NoFraction(-k, w, b - a); }
  }

  /** The widths of neighbouring tiers. */
  predicate Neighbouring(w: nat, v: nat)
  {
    (w == FIVE_MINUTES && v == HOUR) || (w == HOUR && v == DAY)
  }

  /** Bucket widths nest: rounding to the narrower width first does not change the wider bucket. */
  lemma BucketsNest(w: nat, v: nat, ts: int)
    requires Neighbouring(w, v)
    ensures w > 0 && v > 0 && Bucket(v, Bucket(w, ts)) == Bucket(v, ts)
  {
    var q := ts / w;
    if w == FIVE_MINUTES {
      assert ts / HOUR == q / 12 && (q * FIVE_MINUTES) / HOUR == q / 12;
    } else {
      assert ts / DAY == q / 24 && (q * HOUR) / DAY == q / 24;
    }
  }

  /** A sample of a later bucket is a later sample. */
  lemma BucketsFollowTime(w: nat, v: nat, a: int, b: int)
    requires Neighbouring(w, v) && w > 0 && Bucket(w, a) < Bucket(w, b)
    ensures a < b
  {
  }

  // --- Sums over finite sets ---------------------------------------------------------------

  ghost function Sum<T(!new)>(f: T -> real, s: set<T>): real
  {
    if s == {} then 0.0
    else
      var x :| x in s;
      f(x) + Sum(f, s - {x})
  }

  lemma {:induction false} SumPick<T(!new)>(f: T -> real, s: set<T>, x: T)
    requires x in s
    ensures Sum(f, s) == f(x) + Sum(f, s - {x})
    decreases |s|
  {
    var y :| y in s && Sum(f, s) == f(y) + Sum(f, s - {y});
    if y != x {
      SumPick(f, s - {y}, x);
      SumPick(f, s - {x}, y);
      assert s - {x} - {y} == s - {y} - {x};
    }
  }

  lemma {:induction false} SumUnion<T(!new)>(f: T -> real, a: set<T>, b: set<T>)
    requires a !! b
    ensures Sum(f, a + b) == Sum(f, a) + Sum(f, b)
    decreases |a|
  {
    if a == {} {
      assert a + b == b;
    } else {
      var x :| x in a;
      SumPick(f, a, x);
      SumPick(f, a + b, x);
      assert a + b - {x} == (a - {x}) + b;
      SumUnion(f, a - {x}, b);
    }
  }

  lemma {:induction false} SumSame<T(!new)>(f: T -> real, g: T -> real, s: set<T>)
    requires forall x :: x in s ==> f(x) == g(x)
    ensures Sum(f, s) == Sum(g, s)
    decreases |s|
  {
    if s != {} {
      var x :| x in s;
      SumPick(f, s, x);
      SumPick(g, s, x);
      SumSame(f, g, s - {x});
    }
  }

  lemma {:induction false} SumOnes<T(!new)>(f: T -> real, s: set<T>)
    requires forall x :: x in s ==> f(x) == 1.0
    ensures Sum(f, s) == |s| as real
    decreases |s|
  {
    if s != {} {
      var x :| x in s;
      SumPick(f, s, x);
      SumOnes(f, s - {x});
    }
  }

  // --- Direct aggregation of raw rows --------------------------------------------------------

  function Place(w: nat, x: Sample): Slot
    requires w > 0
  {
    Slot(Bucket(w, x.ts), x.key)
  }

  /** The samples of one group. */
  ghost function Group(rows: set<Sample>, w: nat, p: Slot): set<Sample>
    requires w > 0
  {
    set x | x in rows && Place(w, x) == p
  }

  function Values(): Sample -> real
  {
    (x: Sample) => x.value
  }

  ghost predicate IsMin(g: set<Sample>, v: real)
  {
    (exists x :: x in g && v == x.value) && forall x :: x in g ==> v <= x.value
  }

  ghost predicate IsMax(g: set<Sample>, v: real)
  {
    (exists x :: x in g && v == x.value) && forall x :: x in g ==> x.value <= v
  }

  ghost predicate IsLatest(g: set<Sample>, x: Sample)
  {
    x in g && forall y :: y in g ==> y.ts <= x.ts
  }

  ghost predicate IsLast(g: set<Sample>, v: real)
  {
    exists x :: IsLatest(g, x) && v == x.value
  }

  /** The five aggregates of one nonempty group. */
  ghost predicate IsAggregate(g: set<Sample>, r: Row)
  {
    && r.count == |g| > 0
    && r.avg == Sum(Values(), g) / r.count as real
    && IsMin(g, r.min) && IsMax(g, r.max) && IsLast(g, r.last)
  }

  ghost function Slots(rows: set<Sample>, w: nat): set<Slot>
    requires w > 0
  {
    set x | x in rows :: Place(w, x)
  }

  /** The tier that aggregates the raw rows directly at width `w`. */
  ghost predicate IsTier(rows: set<Sample>, w: nat, t: Tier)
    requires w > 0
  {
    t.Keys == Slots(rows, w) && forall p :: p in t ==> IsAggregate(Group(rows, w, p), t[p])
  }

  /** No two rows of one key share a timestamp. */
  ghost predicate DistinctTimes(rows: set<Sample>)
  {
    forall x, y :: x in rows && y in rows && x.key == y.key && x.ts == y.ts ==> x == y
  }

  /** With distinct timestamps the aggregate row of a group is unique. */
  lemma AggregateUnique(rows: set<Sample>, w: nat, p: Slot, r: Row, r': Row)
    requires w > 0 && DistinctTimes(rows)
    requires IsAggregate(Group(rows, w, p), r) && IsAggregate(Group(rows, w, p), r')
    ensures r == r'
  {
  }

  // --- Aggregation of a lower tier -----------------------------------------------------------

  function Counts(t: Tier): Slot -> real
  {
    (p: Slot) => if p in t then t[p].count as real else 0.0
  }

  function Weights(t: Tier): Slot -> real
  {
    (p: Slot) => if p in t then t[p].avg * t[p].count as real else 0.0
  }

  function Widen(v: nat, q: Slot): Slot
    requires v > 0
  {
    Slot(Bucket(v, q.bucket), q.key)
  }

  /** The rows of a tier that fall in one wider group. */
  ghost function Below(t: Tier, v: nat, p: Slot): set<Slot>
    requires v > 0
  {
    set q | q in t.Keys && Widen(v, q) == p
  }

  ghost predicate IsNewest(ps: set<Slot>, p: Slot)
  {
    p in ps && forall q :: q in ps ==> q.bucket <= p.bucket
  }

  /** What the upper view computes from the lower rows at `ps`. */
  ghost predicate IsCombined(t: Tier, ps: set<Slot>, r: Row)
    requires ps <= t.Keys
  {
    && r.count > 0 && r.count as real == Sum(Counts(t), ps)
    && r.avg == Sum(Weights(t), ps) / Sum(Counts(t), ps)
    && (exists p :: p in ps && r.min == t[p].min) && (forall p :: p in ps ==> r.min <= t[p].min)
    && (exists p :: p in ps && r.max == t[p].max) && (forall p :: p in ps ==> t[p].max <= r.max)
    && (exists p :: IsNewest(ps, p) && r.last == t[p].last)
  }

  ghost predicate IsRollup(lower: Tier, v: nat, upper: Tier)
    requires v > 0
  {
    && upper.Keys == (set q | q in lower.Keys :: Widen(v, q))
    && forall p :: p in upper ==> IsCombined(lower, Below(lower, v, p), upper[p])
  }

  // --- The tiers agree -------------------------------------------------------------------------

  /** The samples behind the rows at `ps`. */
  ghost function Behind(rows: set<Sample>, w: nat, ps: set<Slot>): set<Sample>
    requires w > 0
  {
    set x | x in rows && Place(w, x) in ps
  }

  lemma BehindOneMore(rows: set<Sample>, w: nat, ps: set<Slot>, p: Slot)
    requires w > 0 && p in ps
    ensures Group(rows, w, p) !! Behind(rows, w, ps - {p})
    ensures Behind(rows, w, ps) == Group(rows, w, p) + Behind(rows, w, ps - {p})
  {
  }

  /** Summing group sums is summing over all the samples behind the groups. */
  lemma {:induction false} SumOfGroups(rows: set<Sample>, w: nat, ps: set<Slot>, f: Sample -> real, h: Slot -> real)
    requires w > 0
    requires forall p :: p in ps ==> h(p) == Sum(f, Group(rows, w, p))
    ensures Sum(h, ps) == Sum(f, Behind(rows, w, ps))
    decreases |ps|
  {
    if ps == {} {
      assert Behind(rows, w, ps) == {};
    } else {
      hide Behind, Group, Sum;
      var p :| p in ps;
      SumPick(h, ps, p);
      SumOfGroups(rows, w, ps - {p}, f, h);
      BehindOneMore(rows, w, ps, p);
      SumUnion(f, Group(rows, w, p), Behind(rows, w, ps - {p}));
    }
  }

  /** The samples behind a wider group's rows are exactly that group's samples. */
  lemma BehindBelow(rows: set<Sample>, w: nat, v: nat, lower: Tier, p: Slot)
    requires w > 0 && v > 0 && Neighbouring(w, v) && lower.Keys == Slots(rows, w)
    ensures Behind(rows, w, Below(lower, v, p)) == Group(rows, v, p)
  {
    forall x | x in rows
      ensures Place(w, x) in Below(lower, v, p) <==> Place(v, x) == p
    {
      WidenPlace(w, v, x);
      assert Place(w, x) in Slots(rows, w);
      hide Place, Widen;
    }
  }

  lemma WidenPlace(w: nat, v: nat, x: Sample)
    requires w > 0 && v > 0 && Neighbouring(w, v)
    ensures Widen(v, Place(w, x)) == Place(v, x)
  {
    hide Bucket;
    BucketsNest(w, v, x.ts);
  }

  lemma DivideBack(s: real, n: nat)
    requires n > 0
    ensures s / n as real * n as real == s
  {
  }

  lemma RowSums(rows: set<Sample>, w: nat, lower: Tier, p: Slot, one: Sample -> real)
    requires w > 0 && IsTier(rows, w, lower) && p in lower && forall x :: one(x) == 1.0
    ensures Counts(lower)(p) == Sum(one, Group(rows, w, p))
    ensures Weights(lower)(p) == Sum(Values(), Group(rows, w, p))
  {
    var g := Group(rows, w, p);
    TierRow(rows, w, lower, p);
    RowSumsOf(lower, p, g, one);
  }

  lemma RowSumsOf(t: Tier, p: Slot, g: set<Sample>, one: Sample -> real)
    requires p in t && IsAggregate(g, t[p]) && forall x :: one(x) == 1.0
    ensures Counts(t)(p) == Sum(one, g) && Weights(t)(p) == Sum(Values(), g)
  {
    SumOnes(one, g);
    DivideBack(Sum(Values(), g), t[p].count);
    hide IsMin, IsMax, IsLast, Sum, Values;
  }

  lemma GroupSums(rows: set<Sample>, w: nat, lower: Tier, ps: set<Slot>)
    requires w > 0 && IsTier(rows, w, lower) && ps <= lower.Keys
    ensures Sum(Counts(lower), ps) == |Behind(rows, w, ps)| as real
    ensures Sum(Weights(lower), ps) == Sum(Values(), Behind(rows, w, ps))
  {
    hide Sum, Group, Behind, IsTier, Counts, Weights;
    var one := (x: Sample) => 1.0;
    forall p | p in ps
      ensures Counts(lower)(p) == Sum(one, Group(rows, w, p))
      ensures Weights(lower)(p) == Sum(Values(), Group(rows, w, p))
    {
      RowSums(rows, w, lower, p, one);
    }
    SumOfGroups(rows, w, ps, one, Counts(lower));
    SumOfGroups(rows, w, ps, Values(), Weights(lower));
    SumOnes(one, Behind(rows, w, ps));
  }

  lemma TierRow(rows: set<Sample>, w: nat, t: Tier, p: Slot)
    requires w > 0 && IsTier(rows, w, t) && p in t
    ensures IsAggregate(Group(rows, w, p), t[p])
  {
  }

  lemma CombinedExtremes(rows: set<Sample>, w: nat, lower: Tier, ps: set<Slot>, r: Row)
    requires w > 0 && IsTier(rows, w, lower) && ps <= lower.Keys && IsCombined(lower, ps, r)
    ensures IsMin(Behind(rows, w, ps), r.min) && IsMax(Behind(rows, w, ps), r.max)
  {
    hide IsTier, Place, Sum, IsLast;
    var g := Behind(rows, w, ps);
    forall x | x in g
      ensures r.min <= x.value <= r.max
    {
      var p := Place(w, x);
      TierRow(rows, w, lower, p);
      assert x in Group(rows, w, p);
    }
    var p :| p in ps && r.min == lower[p].min;
    TierRow(rows, w, lower, p);
    var x :| x in Group(rows, w, p) && lower[p].min == x.value;
    var q :| q in ps && r.max == lower[q].max;
    TierRow(rows, w, lower, q);
    var y :| y in Group(rows, w, q) && lower[q].max == y.value;
    assert x in g && y in g;
  }

  lemma CombinedLast(rows: set<Sample>, w: nat, v: nat, lower: Tier, ps: set<Slot>, r: Row)
    requires w > 0 && v > 0 && Neighbouring(w, v)
    requires IsTier(rows, w, lower) && ps <= lower.Keys && IsCombined(lower, ps, r)
    requires forall p, q :: p in ps && q in ps ==> p.key == q.key
    ensures IsLast(Behind(rows, w, ps), r.last)
  {
    hide IsTier, Sum, IsMin, IsMax, Bucket;
    var g := Behind(rows, w, ps);
    var p :| IsNewest(ps, p) && r.last == lower[p].last;
    TierRow(rows, w, lower, p);
    var x :| IsLatest(Group(rows, w, p), x) && lower[p].last == x.value;
    forall y | y in g
      ensures y.ts <= x.ts
    {
      var q := Place(w, y);
      assert q.bucket <= p.bucket && q.key == p.key;
      if q == p {
        assert y in Group(rows, w, p);
      } else {
        BucketsFollowTime(w, v, y.ts, x.ts);
      }
    }
    assert IsLatest(g, x);
  }

  lemma CombinedAverage(rows: set<Sample>, w: nat, lower: Tier, ps: set<Slot>, r: Row)
    requires w > 0 && IsTier(rows, w, lower) && ps <= lower.Keys && IsCombined(lower, ps, r)
    ensures var g := Behind(rows, w, ps); r.count == |g| > 0 && r.avg == Sum(Values(), g) / r.count as real
  {
    GroupSums(rows, w, lower, ps);
    hide IsTier, Sum, Behind, Counts, Weights;
  }

  /** One row of the upper view is the direct aggregate of its raw samples. */
  lemma CombinedIsAggregate(rows: set<Sample>, w: nat, v: nat, lower: Tier, p: Slot, r: Row)
    requires w > 0 && v > 0 && Neighbouring(w, v) && IsTier(rows, w, lower) && IsCombined(lower, Below(lower, v, p), r)
    ensures IsAggregate(Group(rows, v, p), r)
  {
    hide *;
    var ps := Below(lower, v, p);
    BelowIsOneKey(lower, v, p);
    TierSlots(rows, w, lower);
    BehindBelow(rows, w, v, lower, p);
    CombinedAverage(rows, w, lower, ps, r);
    CombinedExtremes(rows, w, lower, ps, r);
    CombinedLast(rows, w, v, lower, ps, r);
    AggregateOf(Group(rows, v, p), r);
  }

  lemma AggregateOf(g: set<Sample>, r: Row)
    requires r.count == |g| > 0 && r.avg == Sum(Values(), g) / r.count as real
    requires IsMin(g, r.min) && IsMax(g, r.max) && IsLast(g, r.last)
    ensures IsAggregate(g, r)
  {
  }

  lemma BelowIsOneKey(t: Tier, v: nat, p: Slot)
    requires v > 0
    ensures Below(t, v, p) <= t.Keys
    ensures forall a, b :: a in Below(t, v, p) && b in Below(t, v, p) ==> a.key == b.key
  {
  }

  lemma TierSlots(rows: set<Sample>, w: nat, t: Tier)
    requires w > 0 && IsTier(rows, w, t)
    ensures t.Keys == Slots(rows, w)
  {
  }

  lemma WidenedSlots(rows: set<Sample>, w: nat, v: nat)
    requires w > 0 && v > 0 && Neighbouring(w, v)
    ensures (set q | q in Slots(rows, w) :: Widen(v, q)) == Slots(rows, v)
  {
    forall x | x in rows
      ensures Widen(v, Place(w, x)) == Place(v, x)
    {
      WidenPlace(w, v, x);
    }
    hide Neighbouring, Widen, Place;
    forall p | p in Slots(rows, v)
      ensures p in set q | q in Slots(rows, w) :: Widen(v, q)
    {
      var x :| x in rows && p == Place(v, x);
      assert Place(w, x) in Slots(rows, w);
    }
  }

  /**
   Rolling up a tier that aggregates the raw rows gives the tier that aggregates them directly at the
   wider width, in every column.
   */
  lemma RollupIsDirect(rows: set<Sample>, w: nat, v: nat, lower: Tier, upper: Tier)
    requires w > 0 && v > 0 && Neighbouring(w, v) && IsTier(rows, w, lower) && IsRollup(lower, v, upper)
    ensures IsTier(rows, v, upper)
  {
    WidenedSlots(rows, w, v);
    hide Neighbouring, Slots, IsAggregate, IsCombined, Below, Group;
    forall p | p in upper
      ensures IsAggregate(Group(rows, v, p), upper[p])
    {
      CombinedIsAggregate(rows, w, v, lower, p, upper[p]);
    }
  }

  /** With distinct timestamps per key, at most one tier aggregates the rows at a width. */
  lemma TierUnique(rows: set<Sample>, w: nat, t: Tier, t': Tier)
    requires w > 0 && DistinctTimes(rows) && IsTier(rows, w, t) && IsTier(rows, w, t')
    ensures t == t'
  {
    hide IsAggregate, Group, DistinctTimes, Slots;
    forall p | p in t
      ensures t[p] == t'[p]
    {
      AggregateUnique(rows, w, p, t[p], t'[p]);
    }
  }

  /**
   The 1-hour and 1-day views, each computed from the view below, equal direct aggregation of the
   raw rows: same groups, counts, minima, maxima, exact averages and last values.
   */
  lemma TiersEqualDirect(rows: set<Sample>, t5m: Tier, t1h: Tier, t1d: Tier, direct1h: Tier, direct1d: Tier)
    requires DistinctTimes(rows)
    requires IsTier(rows, FIVE_MINUTES, t5m) && IsRollup(t5m, HOUR, t1h) && IsRollup(t1h, DAY, t1d)
    requires IsTier(rows, HOUR, direct1h) && IsTier(rows, DAY, direct1d)
    ensures t1h == direct1h && t1d == direct1d
  {
    hide IsTier, IsRollup, DistinctTimes;
    RollupIsDirect(rows, FIVE_MINUTES, HOUR, t5m, t1h);
    RollupIsDirect(rows, HOUR, DAY, t1h, t1d);
    TierUnique(rows, HOUR, t1h, direct1h);
    TierUnique(rows, DAY, t1d, direct1d);
  }

  /** A tie at the newest timestamp leaves `last` open: two different rows both aggregate the group. */
  lemma TiesLeaveLastOpen()
    ensures var g := {Sample([], 0, 1.0), Sample([], 0, 2.0)};
            exists r, r' :: IsAggregate(g, r) && IsAggregate(g, r') && r.last != r'.last
  {
    var a, b := Sample([], 0, 1.0), Sample([], 0, 2.0);
    var g := {a, b};
    assert IsLatest(g, a) && IsLatest(g, b);
    var avg := Sum(Values(), g) / 2.0;
    assert |g| == 2;
    assert IsMin(g, a.value) && IsMax(g, b.value);
    assert IsAggregate(g, Row(avg, 1.0, 2.0, 1.0, 2)) && IsAggregate(g, Row(avg, 1.0, 2.0, 2.0, 2));
  }

  // --- The views exist ---------------------------------------------------------------------------

  lemma {:induction false} ExtremesExist(g: set<Sample>) returns (lo: Sample, hi: Sample, late: Sample)
    requires g != {}
    ensures lo in g && forall x :: x in g ==> lo.value <= x.value
    ensures hi in g && forall x :: x in g ==> x.value <= hi.value
    ensures IsLatest(g, late)
    decreases |g|
  {
    var x :| x in g;
    lo, hi, late := x, x, x;
    var rest := g - {x};
    assert forall y :: y in g ==> y == x || y in rest;
    if rest != {} {
      var l, h, t := ExtremesExist(rest);
      lo, hi := if l.value < x.value then l else x, if h.value > x.value then h else x;
      late := if t.ts > x.ts then t else x;
    }
  }

  lemma AggregateExists(g: set<Sample>) returns (r: Row)
    requires g != {}
    ensures IsAggregate(g, r)
  {
    var lo, hi, late := ExtremesExist(g);
    r := Row(Sum(Values(), g) / |g| as real, lo.value, hi.value, late.value, |g|);
  }

  lemma SlotHasSample(rows: set<Sample>, w: nat, p: Slot)
    requires w > 0 && p in Slots(rows, w)
    ensures Group(rows, w, p) != {}
  {
    var x :| x in rows && Place(w, x) == p;
    assert x in Group(rows, w, p);
  }

  lemma {:induction false} TierRowsExist(rows: set<Sample>, w: nat, ps: set<Slot>) returns (t: Tier)
    requires w > 0 && ps <= Slots(rows, w)
    ensures t.Keys == ps && forall p :: p in t ==> IsAggregate(Group(rows, w, p), t[p])
    decreases |ps|
  {
    hide *;
    if ps == {} {
      t := map[];
    } else {
      var p :| p in ps;
      var rest := TierRowsExist(rows, w, ps - {p});
      SlotHasSample(rows, w, p);
      var r := AggregateExists(Group(rows, w, p));
      t := rest[p := r];
    }
  }

  /** Every set of raw rows has a tier at every width. */
  lemma TierExists(rows: set<Sample>, w: nat) returns (t: Tier)
    requires w > 0
    ensures IsTier(rows, w, t)
  {
    t := TierRowsExist(rows, w, Slots(rows, w));
  }

  // --- Direct aggregation is a rollup --------------------------------------------------------------

  /** The samples of one row of a lower tier are among those of the wider group above it. */
  lemma BelowIsInside(rows: set<Sample>, w: nat, v: nat, lower: Tier, p: Slot, q: Slot)
    requires w > 0 && v > 0 && Neighbouring(w, v) && IsTier(rows, w, lower) && q in Below(lower, v, p)
    ensures IsAggregate(Group(rows, w, q), lower[q]) && Group(rows, w, q) <= Group(rows, v, p)
  {
    TierRow(rows, w, lower, q);
    hide IsTier, IsAggregate, Neighbouring;
    forall x | x in Group(rows, w, q)
      ensures x in Group(rows, v, p)
    {
      WidenPlace(w, v, x);
    }
  }

  /** Each sample of a wider group lies in one row below it. */
  lemma SampleIsBelow(rows: set<Sample>, w: nat, v: nat, lower: Tier, p: Slot, x: Sample)
    requires w > 0 && v > 0 && Neighbouring(w, v) && IsTier(rows, w, lower) && x in Group(rows, v, p)
    ensures Place(w, x) in Below(lower, v, p) && x in Group(rows, w, Place(w, x))
  {
    TierSlots(rows, w, lower);
    WidenPlace(w, v, x);
    hide IsTier, Place, Widen, Neighbouring;
    assert Place(w, x) in Slots(rows, w);
  }

  lemma LeastBelow(rows: set<Sample>, w: nat, v: nat, lower: Tier, p: Slot, least: real)
    requires w > 0 && v > 0 && Neighbouring(w, v) && IsTier(rows, w, lower) && IsMin(Group(rows, v, p), least)
    ensures var ps := Below(lower, v, p);
            && ps <= lower.Keys
            && (exists q :: q in ps && least == lower[q].min) && (forall q :: q in ps ==> least <= lower[q].min)
  {
    hide IsTier, Below, Group, Place, Sum, IsMax, IsLast, Neighbouring;
    BelowIsOneKey(lower, v, p);
    forall q | q in Below(lower, v, p)
      ensures least <= lower[q].min
    {
      BelowIsInside(rows, w, v, lower, p, q);
      assert IsMin(Group(rows, w, q), lower[q].min);
    }
    var x :| x in Group(rows, v, p) && least == x.value;
    SampleIsBelow(rows, w, v, lower, p, x);
    BelowIsInside(rows, w, v, lower, p, Place(w, x));
    assert IsMin(Group(rows, w, Place(w, x)), lower[Place(w, x)].min);
  }

  lemma GreatestBelow(rows: set<Sample>, w: nat, v: nat, lower: Tier, p: Slot, greatest: real)
    requires w > 0 && v > 0 && Neighbouring(w, v) && IsTier(rows, w, lower) && IsMax(Group(rows, v, p), greatest)
    ensures var ps := Below(lower, v, p);
            && ps <= lower.Keys
            && (exists q :: q in ps && greatest == lower[q].max) && (forall q :: q in ps ==> lower[q].max <= greatest)
  {
    hide IsTier, Below, Group, Place, Sum, IsMin, IsLast, Neighbouring;
    BelowIsOneKey(lower, v, p);
    forall q | q in Below(lower, v, p)
      ensures lower[q].max <= greatest
    {
      BelowIsInside(rows, w, v, lower, p, q);
      assert IsMax(Group(rows, w, q), lower[q].max);
    }
    var x :| x in Group(rows, v, p) && greatest == x.value;
    SampleIsBelow(rows, w, v, lower, p, x);
    BelowIsInside(rows, w, v, lower, p, Place(w, x));
    assert IsMax(Group(rows, w, Place(w, x)), lower[Place(w, x)].max);
  }

  lemma LatestBelow(rows: set<Sample>, w: nat, v: nat, lower: Tier, p: Slot, last: real)
    requires w > 0 && v > 0 && Neighbouring(w, v) && IsTier(rows, w, lower) && IsLast(Group(rows, v, p), last)
    requires DistinctTimes(rows)
    ensures var ps := Below(lower, v, p);
            ps <= lower.Keys && exists q :: IsNewest(ps, q) && last == lower[q].last
  {
    hide IsTier, Below, Sum, IsMin, IsMax, Neighbouring;
    var ps := Below(lower, v, p);
    BelowIsOneKey(lower, v, p);
    var x :| IsLatest(Group(rows, v, p), x) && last == x.value;
    SampleIsBelow(rows, w, v, lower, p, x);
    var q := Place(w, x);
    BelowIsInside(rows, w, v, lower, p, q);
    var z :| IsLatest(Group(rows, w, q), z) && lower[q].last == z.value;
    assert z == x;
    forall q' | q' in ps
      ensures q'.bucket <= q.bucket
    {
      BelowIsInside(rows, w, v, lower, p, q');
      var y :| y in Group(rows, w, q');
      NotLater(w, v, y.ts, x.ts);
    }
    assert IsNewest(ps, q);
  }

  lemma NotLater(w: nat, v: nat, a: int, b: int)
    requires Neighbouring(w, v) && w > 0 && a <= b
    ensures Bucket(w, a) <= Bucket(w, b)
  {
    if Bucket(w, b) < Bucket(w, a) {
      BucketsFollowTime(w, v, b, a);
      assert false;
    }
  }

  lemma AverageBelow(rows: set<Sample>, w: nat, v: nat, lower: Tier, p: Slot, r: Row)
    requires w > 0 && v > 0 && Neighbouring(w, v) && IsTier(rows, w, lower) && IsAggregate(Group(rows, v, p), r)
    ensures var ps := Below(lower, v, p);
            && ps <= lower.Keys && r.count > 0 && r.count as real == Sum(Counts(lower), ps)
            && r.avg == Sum(Weights(lower), ps) / Sum(Counts(lower), ps)
  {
    hide *;
    var ps := Below(lower, v, p);
    BelowIsOneKey(lower, v, p);
    TierSlots(rows, w, lower);
    BehindBelow(rows, w, v, lower, p);
    GroupSums(rows, w, lower, ps);
    AggregateParts(Group(rows, v, p), r);
  }

  /** With distinct timestamps the row that aggregates a group directly combines the rows below it. */
  lemma AggregateIsCombined(rows: set<Sample>, w: nat, v: nat, lower: Tier, p: Slot, r: Row)
    requires w > 0 && v > 0 && Neighbouring(w, v) && IsTier(rows, w, lower) && IsAggregate(Group(rows, v, p), r)
    requires DistinctTimes(rows)
    ensures Below(lower, v, p) <= lower.Keys && IsCombined(lower, Below(lower, v, p), r)
  {
    hide *;
    AggregateParts(Group(rows, v, p), r);
    AverageBelow(rows, w, v, lower, p, r);
    LeastBelow(rows, w, v, lower, p, r.min);
    GreatestBelow(rows, w, v, lower, p, r.max);
    LatestBelow(rows, w, v, lower, p, r.last);
    CombinedOf(lower, Below(lower, v, p), r);
  }

  lemma AggregateParts(g: set<Sample>, r: Row)
    requires IsAggregate(g, r)
    ensures r.count == |g| > 0 && r.avg == Sum(Values(), g) / r.count as real
    ensures IsMin(g, r.min) && IsMax(g, r.max) && IsLast(g, r.last)
  {
  }

  lemma CombinedOf(t: Tier, ps: set<Slot>, r: Row)
    requires ps <= t.Keys && r.count > 0 && r.count as real == Sum(Counts(t), ps)
    requires r.avg == Sum(Weights(t), ps) / Sum(Counts(t), ps)
    requires (exists p :: p in ps && r.min == t[p].min) && forall p :: p in ps ==> r.min <= t[p].min
    requires (exists p :: p in ps && r.max == t[p].max) && forall p :: p in ps ==> t[p].max <= r.max
    requires exists p :: IsNewest(ps, p) && r.last == t[p].last
    ensures IsCombined(t, ps, r)
  {
    hide Sum, Counts, Weights, IsNewest;
  }

  /** Over a tier of the raw rows, the rollups are exactly the tiers of the raw rows at the wider width. */
  lemma RollupIff(rows: set<Sample>, w: nat, v: nat, lower: Tier, upper: Tier)
    requires w > 0 && v > 0 && Neighbouring(w, v) && IsTier(rows, w, lower) && DistinctTimes(rows)
    ensures IsRollup(lower, v, upper) <==> IsTier(rows, v, upper)
  {
    hide *;
    if IsRollup(lower, v, upper) { RollupIsDirect(rows, w, v, lower, upper); }
    if IsTier(rows, v, upper) { DirectIsRollup(rows, w, v, lower, upper); }
  }

  lemma DirectIsRollup(rows: set<Sample>, w: nat, v: nat, lower: Tier, upper: Tier)
    requires w > 0 && v > 0 && Neighbouring(w, v) && IsTier(rows, w, lower) && DistinctTimes(rows)
    requires IsTier(rows, v, upper)
    ensures IsRollup(lower, v, upper)
  {
    hide *;
    TierSlots(rows, w, lower);
    TierSlots(rows, v, upper);
    WidenedSlots(rows, w, v);
    forall p | p in upper
      ensures Below(lower, v, p) <= lower.Keys && IsCombined(lower, Below(lower, v, p), upper[p])
    {
      TierRow(rows, v, upper, p);
      AggregateIsCombined(rows, w, v, lower, p, upper[p]);
    }
    RollupOf(lower, v, upper);
  }

  lemma RollupOf(lower: Tier, v: nat, upper: Tier)
    requires v > 0 && upper.Keys == (set q | q in lower.Keys :: Widen(v, q))
    requires forall p :: p in upper ==>
      Below(lower, v, p) <= lower.Keys && IsCombined(lower, Below(lower, v, p), upper[p])
    ensures IsRollup(lower, v, upper)
  {
    hide IsCombined, Below, Widen;
  }

  /** The three views exist over any rows with distinct timestamps, so the equalities above are about something. */
  lemma ViewsExist(rows: set<Sample>) returns (t5m: Tier, t1h: Tier, t1d: Tier)
    requires DistinctTimes(rows)
    ensures IsTier(rows, FIVE_MINUTES, t5m) && IsRollup(t5m, HOUR, t1h) && IsRollup(t1h, DAY, t1d)
  {
    hide IsTier, IsRollup, DistinctTimes;
    t5m := TierExists(rows, FIVE_MINUTES);
    t1h := TierExists(rows, HOUR);
    t1d := TierExists(rows, DAY);
    RollupIff(rows, FIVE_MINUTES, HOUR, t5m, t1h);
    RollupIff(rows, HOUR, DAY, t1h, t1d);
  }

  // --- Which samples a row holds ----------------------------------------------------------------

  /** The samples of one key from a bucket's start to its end. */
  ghost function Within(rows: set<Sample>, key: Key, start: int, end: int): set<Sample>
  {
    set x | x in rows && x.key == key && start <= x.ts < end
  }

  lemma GroupIsWithin(rows: set<Sample>, w: nat, p: Slot)
    requires w > 0 && p.bucket % w == 0
    ensures Group(rows, w, p) == Within(rows, p.key, p.bucket, p.bucket + w)
  {
    hide Bucket;
    forall x | x in rows
      ensures Place(w, x) == p <==> x.key == p.key && p.bucket <= x.ts < p.bucket + w
    {
      BucketHolds(w, x.ts);
    }
  }

  /**
   The rows of a tier start at multiples of its width, one for each key and bucket with a sample, and a
   row aggregates exactly the samples of its key from its start to the next one's.
   */
  lemma TierRowHolds(rows: set<Sample>, w: nat, t: Tier, p: Slot)
    requires w > 0 && IsTier(rows, w, t)
    ensures p in t <==> p.bucket % w == 0 && Within(rows, p.key, p.bucket, p.bucket + w) != {}
    ensures p in t ==> IsAggregate(Within(rows, p.key, p.bucket, p.bucket + w), t[p])
  {
    if p in t {
      SlotHasSample(rows, w, p);
      var x :| x in Group(rows, w, p);
      BucketHolds(w, x.ts);
      GroupIsWithin(rows, w, p);
    }
    if p.bucket % w == 0 && Within(rows, p.key, p.bucket, p.bucket + w) != {} {
      GroupIsWithin(rows, w, p);
      var x :| x in Group(rows, w, p);
      assert Place(w, x) in Slots(rows, w);
    }
  }

  /** In the three views: rows cover five minutes, an hour and a day, in microseconds. */
  lemma ViewRowsHold(rows: set<Sample>, t5m: Tier, t1h: Tier, t1d: Tier, p: Slot)
    requires IsTier(rows, FIVE_MINUTES, t5m) && IsRollup(t5m, HOUR, t1h) && IsRollup(t1h, DAY, t1d)
    ensures p in t5m ==>
      p.bucket % 300_000_000 == 0 && IsAggregate(Within(rows, p.key, p.bucket, p.bucket + 300_000_000), t5m[p])
    ensures p in t1h ==>
      p.bucket % 3_600_000_000 == 0 && IsAggregate(Within(rows, p.key, p.bucket, p.bucket + 3_600_000_000), t1h[p])
    ensures p in t1d ==>
      p.bucket % 86_400_000_000 == 0 && IsAggregate(Within(rows, p.key, p.bucket, p.bucket + 86_400_000_000), t1d[p])
  {
    hide IsTier, IsRollup, Within, IsAggregate;
    RollupIsDirect(rows, FIVE_MINUTES, HOUR, t5m, t1h);
    RollupIsDirect(rows, HOUR, DAY, t1h, t1d);
    TierRowHolds(rows, FIVE_MINUTES, t5m, p);
    TierRowHolds(rows, HOUR, t1h, p);
    TierRowHolds(rows, DAY, t1d, p);
  }
}
