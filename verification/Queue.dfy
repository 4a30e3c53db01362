/**
 The persistent queue of fwEDR/internal/queue/queue.go: a bucket ordered by big-endian sequence
 keys, all-or-nothing batches, eviction of the oldest evictable entry, and a running byte counter.
 */
module Queue {
  import opened Bytes
  import opened Options

  type Data = seq<Byte>

  datatype Packet = Packet(severity: string, body: string)

  /** The foreign encoders: protobuf marshalling, and the JSON reader eviction uses on the stored bytes. */
  datatype Codec = Codec(marshal: Packet -> Option<Data>, unmarshal: Data -> Option<Packet>,
                         readSeverity: Data -> string)

  datatype Entry = Entry(key: seq<Byte>, data: Data)

  // --- Keys --------------------------------------------------------------------------------

  /** `binary.BigEndian.PutUint64`. */
  function PutUint64(v: nat): (r: seq<Byte>)
    requires v < TWO64
    ensures |r| == 8
  {
    PutUint32(v / TWO32) + PutUint32(v % TWO32)
  }

  /** The byte order bbolt keeps its keys in. */
  predicate Before(a: seq<Byte>, b: seq<Byte>)
  {
    if b == [] then false
    else if a == [] then true
    else a[0] < b[0] || (a[0] == b[0] && Before(a[1..], b[1..]))
  }

  lemma {:induction false} BeforeSnoc(a: seq<Byte>, b: seq<Byte>, x: Byte, y: Byte)
    requires |a| == |b|
    ensures Before(a + [x], b + [y]) <==> Before(a, b) || (a == b && x < y)
  {
    if a != [] {
      assert (a + [x])[1..] == a[1..] + [x] && (b + [y])[1..] == b[1..] + [y];
      BeforeSnoc(a[1..], b[1..], x, y);
      assert a == [a[0]] + a[1..] && b == [b[0]] + b[1..];
    }
  }

  /** Keys of equal width sort as the numbers they spell. */
  lemma {:induction false} BeforeIsLess(a: seq<Byte>, b: seq<Byte>)
    requires |a| == |b|
    ensures Before(a, b) <==> Number(a) < Number(b)
    ensures a == b <==> Number(a) == Number(b)
    decreases |a|
  {
    if a != [] {
      var n := |a| - 1;
      BeforeIsLess(a[..n], b[..n]);
      BeforeSnoc(a[..n], b[..n], a[n], b[n]);
      assert a == a[..n] + [a[n]] && b == b[..n] + [b[n]];
    }
  }

  lemma NumberSnoc(a: seq<Byte>, x: Byte)
    ensures Number(a + [x]) == Number(a) * 256 + x
  {
  }

  lemma NumberAppendFour(a: seq<Byte>, b: seq<Byte>)
    requires |b| == 4
    ensures Number(a + b) == Number(a) * TWO32 + Number(b)
  {
    var p1, p2, p3 := a + [b[0]], a + [b[0]] + [b[1]], a + [b[0]] + [b[1]] + [b[2]];
    var q1, q2, q3 := [] + [b[0]], [] + [b[0]] + [b[1]], [] + [b[0]] + [b[1]] + [b[2]];
    assert a + b == p3 + [b[3]] && b == q3 + [b[3]];
    assert Number([]) == 0;
    hide Number;
    NumberSnoc(a, b[0]);
    NumberSnoc(p1, b[1]);
    NumberSnoc(p2, b[2]);
    NumberSnoc(p3, b[3]);
    NumberSnoc([], b[0]);
    NumberSnoc(q1, b[1]);
    NumberSnoc(q2, b[2]);
    NumberSnoc(q3, b[3]);
  }

  /** The key of a sequence number spells it. */
  lemma KeyNumber(v: nat)
    requires v < TWO64
    ensures Number(PutUint64(v)) == v
  {
    hide PutUint32, Number;
    NumberAppendFour(PutUint32(v / TWO32), PutUint32(v % TWO32));
    NumberOfFour(PutUint32(v / TWO32));
    NumberOfFour(PutUint32(v % TWO32));
    Uint32RoundTrip(v / TWO32);
    Uint32RoundTrip(v % TWO32);
  }

  /** Big-endian key order is sequence order. */
  lemma KeyOrderIsSequenceOrder(a: nat, b: nat)
    requires a < TWO64 && b < TWO64
    ensures Before(PutUint64(a), PutUint64(b)) <==> a < b
  {
    BeforeIsLess(PutUint64(a), PutUint64(b));
    KeyNumber(a);
    KeyNumber(b);
  }

  // --- The bucket ----------------------------------------------------------------------------

  type Bucket = seq<Entry>

  ghost predicate Ordered(b: Bucket)
  {
    forall i, j :: 0 <= i < j < |b| ==> Number(b[i].key) < Number(b[j].key)
  }

  ghost predicate KeysUpTo(b: Bucket, n: nat)
  {
    forall e :: e in b ==> |e.key| == 8 && Number(e.key) <= n
  }

  /** `Bucket.Put`: in key order, overwriting an equal key. */
  function Put(b: Bucket, e: Entry): Bucket
  {
    if b == [] then [e]
    else if e.key == b[0].key then [e] + b[1..]
    else if Before(e.key, b[0].key) then [e] + b
    else [b[0]] + Put(b[1..], e)
  }

  /** A key beyond all others goes to the tail. */
  lemma {:induction false} PutAtTail(b: Bucket, e: Entry, n: nat)
    requires KeysUpTo(b, n) && |e.key| == 8 && Number(e.key) > n
    ensures Put(b, e) == b + [e]
    decreases |b|
  {
    if b != [] {
      assert b[0] in b;
      BeforeIsLess(e.key, b[0].key);
      assert KeysUpTo(b[1..], n);
      hide KeysUpTo, Before, Number;
      PutAtTail(b[1..], e, n);
    }
  }

  function StoredBytes(b: Bucket): nat
  {
    if b == [] then 0 else StoredBytes(b[..|b| - 1]) + |b[|b| - 1].data|
  }

  lemma {:induction false} StoredBytesConcat(a: Bucket, b: Bucket)
    ensures StoredBytes(a + b) == StoredBytes(a) + StoredBytes(b)
  {
    if b == [] {
      assert a + b == a;
    } else {
      assert (a + b)[..|a + b| - 1] == a + b[..|b| - 1];
      StoredBytesConcat(a, b[..|b| - 1]);
    }
  }

  predicate Protected(severity: string)
  {
    severity == "critical" || severity == "major"
  }

  /** Index of the oldest entry that eviction reads as unprotected. */
  function FirstEvictable(c: Codec, b: Bucket): (r: Option<nat>)
    ensures r.Some? ==> r.value < |b| && !Protected(c.readSeverity(b[r.value].data))
    ensures forall i :: 0 <= i < (if r.Some? then r.value else |b|) ==> Protected(c.readSeverity(b[i].data))
  {
    if b == [] then None
    else if !Protected(c.readSeverity(b[0].data)) then Some(0)
    else
      var r := FirstEvictable(c, b[1..]);
      if r.Some? then Some(r.value + 1) else None
  }

  function Without(b: Bucket, i: nat): Bucket
    requires i < |b|
  {
    b[..i] + b[i + 1..]
  }

  // --- Batches --------------------------------------------------------------------------------

  /** Bucket, bbolt's sequence counter, and the byte counter. */
  datatype State = State(bucket: Bucket, seqNo: nat, used: int)

  datatype Item = Item(data: Data, severity: string)

  datatype Outcome = Ok | Full | MarshalError | DbError | Empty

  /** One loop pass of the push transaction; None is `ErrFull`. */
  function PushOne(c: Codec, max: int, q: State, x: Item): Option<State>
  {
    if q.used >= max then
      if !Protected(x.severity) then None
      else
        match FirstEvictable(c, q.bucket)
        case None => None
        case Some(i) => Some(Append(State(Without(q.bucket, i), q.seqNo, q.used - |q.bucket[i].data|), x))
    else Some(Append(q, x))
  }

  function Append(q: State, x: Item): State
  {
    var seqNo := (q.seqNo + 1) % TWO64;
    State(Put(q.bucket, Entry(PutUint64(seqNo), x.data)), seqNo, q.used + |x.data|)
  }

  function PushAll(c: Codec, max: int, q: State, xs: seq<Item>): Option<State>
    decreases |xs|
  {
    if xs == [] then Some(q)
    else
      match PushOne(c, max, q, xs[0])
      case None => None
      case Some(q') => PushAll(c, max, q', xs[1..])
  }

  function MarshalAll(c: Codec, ps: seq<Packet>): Option<seq<Item>>
  {
    if ps == [] then Some([])
    else
      match (MarshalAll(c, ps[..|ps| - 1]), c.marshal(ps[|ps| - 1]))
      case (Some(xs), Some(data)) => Some(xs + [Item(data, ps[|ps| - 1].severity)])
      case _ => None
  }

  /** `PushBatch`; `commits` says whether the database accepts the transaction. */
  function Push(c: Codec, max: int, q: State, ps: seq<Packet>, commits: bool): (State, Outcome)
  {
    if ps == [] then (q, Ok)
    else
      match MarshalAll(c, ps)
      case None => (q, MarshalError)
      case Some(xs) =>
        match PushAll(c, max, q, xs)
        case None => (q, Full)
        case Some(q') => if commits then (q', Ok) else (q, DbError)
  }

  /** `PopBatch`; the third result is what was taken out, before decoding. */
  function Pop(q: State, n: int, commits: bool): (State, Outcome, Bucket)
  {
    if n <= 0 then (q, Ok, [])
    else
      var k := if n < |q.bucket| then n else |q.bucket|;
      if k == 0 then (q, Empty, [])
      else if !commits then (q, DbError, [])
      else
        var used := q.used - StoredBytes(q.bucket[..k]);
        (State(q.bucket[k..], q.seqNo, if used < 0 then 0 else used), Ok, q.bucket[..k])
  }

  /** Entries that no longer decode are dropped. */
  function DecodeAll(c: Codec, b: Bucket): seq<Packet>
  {
    if b == [] then []
    else
      DecodeAll(c, b[..|b| - 1]) +
      (match c.unmarshal(b[|b| - 1].data) case Some(p) => [p] case None => [])
  }

  /** The bbolt-backed object. */
  class PersistentQueue {
    const codec: Codec
    const maxBytes: int
    var bucket: Bucket
    var seqNo: nat
    var usedBytes: int

    /** `Open`: `leafInuse` is bbolt's byte count for the bucket found on disk. */
    constructor (codec: Codec, maxBytes: int, bucket: Bucket, seqNo: nat, leafInuse: int)
      ensures this.codec == codec && this.maxBytes == (if maxBytes <= 0 then 512 * 1024 * 1024 else maxBytes)
      ensures Now() == State(bucket, seqNo, leafInuse)
    {
      this.codec := codec;
      this.maxBytes := if maxBytes <= 0 then 512 * 1024 * 1024 else maxBytes;
      this.bucket, this.seqNo, this.usedBytes := bucket, seqNo, leafInuse;
    }

    ghost function Now(): State
      reads this
    {
      State(bucket, seqNo, usedBytes)
    }

    method PushBatch(ps: seq<Packet>, commits: bool) returns (r: Outcome)
      modifies this
      ensures (Now(), r) == Push(codec, maxBytes, old(Now()), ps, commits)
    {
      if |ps| == 0 { return Ok; }
      var entries := [];
      for i := 0 to |ps|
        invariant MarshalAll(codec, ps[..i]) == Some(entries)
      {
        assert ps[..i + 1][..i] == ps[..i];
        var data := codec.marshal(ps[i]);
        if data.None? {
          MarshalFails(codec, ps, i + 1);
          return MarshalError;
        }
        entries := entries + [Item(data.value, ps[i].severity)];
      }
      assert ps[..|ps|] == ps;
      var q := State(bucket, seqNo, usedBytes);
      for i := 0 to |entries|
        invariant PushAll(codec, maxBytes, q, entries[i..]) == PushAll(codec, maxBytes, old(Now()), entries)
      {
        assert entries[i..][0] == entries[i] && entries[i..][1..] == entries[i + 1..];
        var next := PushOne(codec, maxBytes, q, entries[i]);
        if next.None? { return Full; }
        q := next.value;
      }
      if !commits { return DbError; }
      bucket, seqNo, usedBytes := q.bucket, q.seqNo, q.used;
      return Ok;
    }

    method PopBatch(n: int, commits: bool) returns (out: seq<Packet>, r: Outcome)
      modifies this
      ensures (Now(), r) == (Pop(old(Now()), n, commits).0, Pop(old(Now()), n, commits).1)
      ensures out == DecodeAll(codec, Pop(old(Now()), n, commits).2)
    {
      if n <= 0 { return [], Ok; }
      var raw: Bucket, freed: nat := [], 0;
      while |raw| < |bucket| && |raw| < n
        invariant |raw| <= |bucket| && |raw| <= n && raw == bucket[..|raw|] && freed == StoredBytes(raw)
      {
        var e := bucket[|raw|];
        assert (raw + [e])[..|raw|] == raw;
        freed := freed + |e.data|;
        raw := raw + [e];
      }
      if |raw| == 0 { return [], Empty; }
      if !commits { return [], DbError; }
      bucket := bucket[|raw|..];
      usedBytes := usedBytes - freed;
      if usedBytes < 0 {
        usedBytes := 0;
      }
      out := [];
      for i := 0 to |raw|
        invariant out == DecodeAll(codec, raw[..i])
      {
        assert raw[..i + 1][..i] == raw[..i];
        var p := codec.unmarshal(raw[i].data);
        if p.Some? {
          out := out + [p.value];
        }
      }
      assert raw[..|raw|] == raw;
      return out, Ok;
    }
  }

  lemma {:induction false} MarshalFails(c: Codec, ps: seq<Packet>, k: nat)
    requires k <= |ps| && MarshalAll(c, ps[..k]).None?
    ensures MarshalAll(c, ps).None?
    decreases |ps| - k
  {
    if k < |ps| {
      assert ps[..k + 1][..k] == ps[..k];
      MarshalFails(c, ps, k + 1);
    } else {
      assert ps[..k] == ps;
    }
  }

  // --- Laws of one batch -------------------------------------------------------------------------

  /** A batch that reports an error changes nothing. */
  lemma FailedBatchChangesNothing(c: Codec, max: int, q: State, ps: seq<Packet>, commits: bool)
    ensures Push(c, max, q, ps, commits).1 != Ok ==> Push(c, max, q, ps, commits).0 == q
    ensures Push(c, max, q, ps, commits).1 == Ok && ps != [] ==>
      && commits && MarshalAll(c, ps).Some?
      && PushAll(c, max, q, MarshalAll(c, ps).value) == Some(Push(c, max, q, ps, commits).0)
    ensures Push(c, max, q, ps, commits).1 == DbError ==> !commits
  {
  }

  /** Keys in use do not exceed the sequence counter, which has room for `room` more. */
  ghost predicate Sound(q: State, room: nat)
  {
    Ordered(q.bucket) && KeysUpTo(q.bucket, q.seqNo) && q.seqNo + room < TWO64
  }

  lemma AppendSound(q: State, x: Item, room: nat)
    requires Sound(q, room + 1)
    ensures Sound(Append(q, x), room)
    ensures Append(q, x).bucket == q.bucket + [Entry(PutUint64(q.seqNo + 1), x.data)]
    ensures Append(q, x).seqNo == q.seqNo + 1
  {
    hide *;
    SoundParts(q, room + 1);
    var e := Entry(PutUint64(q.seqNo + 1), x.data);
    KeyNumber(q.seqNo + 1);
    PutAtTail(q.bucket, e, q.seqNo);
    TailStaysOrdered(q.bucket, e, q.seqNo);
    AppendIs(q, x);
    SoundOf(Append(q, x), room);
  }

  lemma SoundParts(q: State, room: nat)
    requires Sound(q, room)
    ensures Ordered(q.bucket) && KeysUpTo(q.bucket, q.seqNo) && q.seqNo + room < TWO64
  {
  }

  lemma SoundOf(q: State, room: nat)
    requires Ordered(q.bucket) && KeysUpTo(q.bucket, q.seqNo) && q.seqNo + room < TWO64
    ensures Sound(q, room)
  {
  }

  lemma AppendIs(q: State, x: Item)
    requires q.seqNo + 1 < TWO64
    ensures Append(q, x) == State(Put(q.bucket, Entry(PutUint64(q.seqNo + 1), x.data)), q.seqNo + 1, q.used + |x.data|)
  {
    hide Put, PutUint64;
  }

  lemma TailStaysOrdered(b: Bucket, e: Entry, n: nat)
    requires Ordered(b) && KeysUpTo(b, n) && |e.key| == 8 && Number(e.key) == n + 1
    ensures Ordered(b + [e]) && KeysUpTo(b + [e], n + 1)
  {
  }

  lemma WithoutSound(q: State, i: nat, room: nat, used: int)
    requires Sound(q, room) && i < |q.bucket|
    ensures Sound(State(Without(q.bucket, i), q.seqNo, used), room)
  {
  }

  lemma WithoutBytes(b: Bucket, i: nat)
    requires i < |b|
    ensures StoredBytes(Without(b, i)) == StoredBytes(b) - |b[i].data|
    ensures |Without(b, i)| == |b| - 1
  {
    assert b == b[..i] + ([b[i]] + b[i + 1..]);
    StoredBytesConcat(b[..i], [b[i]] + b[i + 1..]);
    StoredBytesConcat([b[i]], b[i + 1..]);
    StoredBytesConcat(b[..i], b[i + 1..]);
    assert [b[i]][..0] == [];
  }

  lemma PushOneSplits(c: Codec, max: int, q: State, x: Item)
    requires PushOne(c, max, q, x).Some?
    ensures q.used < max ==> PushOne(c, max, q, x).value == Append(q, x)
    ensures q.used >= max ==> FirstEvictable(c, q.bucket).Some?
    ensures q.used >= max ==>
      var i := FirstEvictable(c, q.bucket).value;
      PushOne(c, max, q, x).value == Append(State(Without(q.bucket, i), q.seqNo, q.used - |q.bucket[i].data|), x)
  {
    hide Append, Without, FirstEvictable;
  }

  /** One accepted item: the queue stays sound, the counter moves with the bytes, and at the cap the count stays. */
  lemma PushOneLaws(c: Codec, max: int, q: State, x: Item, room: nat)
    requires Sound(q, room + 1) && PushOne(c, max, q, x).Some?
    ensures var q' := PushOne(c, max, q, x).value;
            && Sound(q', room)
            && q'.used - StoredBytes(q'.bucket) == q.used - StoredBytes(q.bucket)
            && (q.used >= max ==> |q'.bucket| == |q.bucket|)
            && (q.used < max ==> |q'.bucket| == |q.bucket| + 1)
  {
    hide *;
    PushOneSplits(c, max, q, x);
    if q.used < max {
      AppendLaws(q, x, room);
    } else {
      EvictedAppendLaws(q, FirstEvictable(c, q.bucket).value, x, room);
    }
  }

  lemma AppendLaws(q: State, x: Item, room: nat)
    requires Sound(q, room + 1)
    ensures Sound(Append(q, x), room) && |Append(q, x).bucket| == |q.bucket| + 1
    ensures Append(q, x).used - StoredBytes(Append(q, x).bucket) == q.used - StoredBytes(q.bucket)
  {
    hide *;
    AppendSound(q, x, room);
    AppendBytes(q, x, room);
  }

  lemma EvictedAppendLaws(q: State, i: nat, x: Item, room: nat)
    requires Sound(q, room + 1) && i < |q.bucket|
    ensures var q' := Append(State(Without(q.bucket, i), q.seqNo, q.used - |q.bucket[i].data|), x);
            && Sound(q', room) && |q'.bucket| == |q.bucket|
            && q'.used - StoredBytes(q'.bucket) == q.used - StoredBytes(q.bucket)
  {
    hide *;
    var mid := State(Without(q.bucket, i), q.seqNo, q.used - |q.bucket[i].data|);
    WithoutSound(q, i, room + 1, mid.used);
    WithoutBytes(q.bucket, i);
    AppendLaws(mid, x, room);
  }

  /** An item is refused exactly when the counter is at the cap and it is unprotected or nothing reads as evictable. */
  lemma RefusedIff(c: Codec, max: int, q: State, x: Item)
    ensures PushOne(c, max, q, x).None? <==>
            q.used >= max && (!Protected(x.severity) || forall e :: e in q.bucket ==> Protected(c.readSeverity(e.data)))
  {
  }

  lemma AppendBytes(q: State, x: Item, room: nat)
    requires Sound(q, room + 1)
    ensures Append(q, x).used == q.used + |x.data|
    ensures StoredBytes(Append(q, x).bucket) == StoredBytes(q.bucket) + |x.data|
  {
    AppendSound(q, x, room);
    hide Put, Sound;
    var e := Entry(PutUint64(q.seqNo + 1), x.data);
    assert (q.bucket + [e])[..|q.bucket|] == q.bucket;
  }

  // --- History ---------------------------------------------------------------------------------------

  /** Everything ever stored, in order; everything popped, in order; the keys evicted. */
  datatype Log = Log(stored: Bucket, popped: Bucket, evicted: set<seq<Byte>>)

  function Kept(b: Bucket, evicted: set<seq<Byte>>): Bucket
  {
    if b == [] then []
    else Kept(b[..|b| - 1], evicted) + (if b[|b| - 1].key in evicted then [] else [b[|b| - 1]])
  }

  /** The popped stream, continued by what is still queued, is the stored stream minus evictions. */
  ghost predicate Fifo(q: State, log: Log)
  {
    && log.popped + q.bucket == Kept(log.stored, log.evicted)
    && Ordered(log.stored) && KeysUpTo(log.stored, q.seqNo)
    && (forall k :: k in log.evicted ==> |k| == 8 && Number(k) <= q.seqNo)
  }

  function LogOne(c: Codec, max: int, q: State, log: Log, x: Item): Log
    requires PushOne(c, max, q, x).Some? && q.seqNo + 1 < TWO64
  {
    var e := Entry(PutUint64(q.seqNo + 1), x.data);
    if q.used >= max then
      log.(stored := log.stored + [e], evicted := log.evicted + {q.bucket[FirstEvictable(c, q.bucket).value].key})
    else log.(stored := log.stored + [e])
  }

  /** Evicting one more key drops exactly the entry that carries it. */
  lemma {:induction false} KeptEvictMore(b: Bucket, evicted: set<seq<Byte>>, k: seq<Byte>, at: nat)
    requires Ordered(b)
    requires at < |Kept(b, evicted)| && Kept(b, evicted)[at].key == k
    ensures Kept(b, evicted + {k}) == Without(Kept(b, evicted), at)
    decreases |b|
  {
    hide Number;
    var n := |b| - 1;
    var front, front' := Kept(b[..n], evicted), Kept(b[..n], evicted + {k});
    KeptLast(b, evicted);
    KeptLast(b, evicted + {k});
    KeptAreIn(b[..n], evicted);
    OrderedFront(b);
    if at < |front| {
      assert Kept(b, evicted)[at] == front[at];
      hide Kept;
      KeptEvictMore(b[..n], evicted, k, at);
      assert front[at] in b[..n];
      assert b[n].key != k;
    } else {
      assert k == b[n].key;
      hide Kept;
      KeptNotEvicted(b[..n], evicted, k);
    }
  }

  lemma OrderedFront(b: Bucket)
    requires Ordered(b) && b != []
    ensures Ordered(b[..|b| - 1]) && forall e :: e in b[..|b| - 1] ==> e.key != b[|b| - 1].key
  {
  }

  lemma KeptLast(b: Bucket, evicted: set<seq<Byte>>)
    requires b != []
    ensures Kept(b, evicted) == Kept(b[..|b| - 1], evicted) + (if b[|b| - 1].key in evicted then [] else [b[|b| - 1]])
  {
  }

  lemma {:induction false} KeptAreIn(b: Bucket, evicted: set<seq<Byte>>)
    ensures forall e :: e in Kept(b, evicted) ==> e in b
  {
    if b != [] { KeptAreIn(b[..|b| - 1], evicted); }
  }

  lemma {:induction false} KeptNotEvicted(b: Bucket, evicted: set<seq<Byte>>, k: seq<Byte>)
    requires forall e :: e in b ==> e.key != k
    ensures Kept(b, evicted + {k}) == Kept(b, evicted)
  {
    if b != [] { KeptNotEvicted(b[..|b| - 1], evicted, k); }
  }

  /** What one accepted item does to the bucket: an eviction if the counter was at the cap, then an append. */
  lemma PushOneBucket(c: Codec, max: int, q: State, x: Item, room: nat)
    requires Sound(q, room + 1) && PushOne(c, max, q, x).Some?
    ensures var q', e := PushOne(c, max, q, x).value, Entry(PutUint64(q.seqNo + 1), x.data);
            && q'.seqNo == q.seqNo + 1
            && (q.used < max ==> q'.bucket == q.bucket + [e])
            && (q.used >= max ==> FirstEvictable(c, q.bucket).Some?)
            && (q.used >= max ==> q'.bucket == Without(q.bucket, FirstEvictable(c, q.bucket).value) + [e])
  {
    hide Sound, Append, Without, FirstEvictable;
    if q.used >= max {
      var i := FirstEvictable(c, q.bucket).value;
      var mid := State(Without(q.bucket, i), q.seqNo, q.used - |q.bucket[i].data|);
      WithoutSound(q, i, room + 1, mid.used);
      AppendSound(mid, x, room);
    } else {
      AppendSound(q, x, room);
    }
  }

  lemma StreamAppends(stored: Bucket, popped: Bucket, bucket: Bucket, evicted: set<seq<Byte>>, e: Entry)
    requires popped + bucket == Kept(stored, evicted) && e.key !in evicted
    ensures popped + (bucket + [e]) == Kept(stored + [e], evicted)
  {
  }

  lemma StreamEvicts(stored: Bucket, popped: Bucket, bucket: Bucket, evicted: set<seq<Byte>>, i: nat)
    requires Ordered(stored) && popped + bucket == Kept(stored, evicted) && i < |bucket|
    ensures popped + Without(bucket, i) == Kept(stored, evicted + {bucket[i].key})
    ensures bucket[i] in stored
  {
    hide Kept, Ordered;
    var kept, at := Kept(stored, evicted), |popped| + i;
    assert kept[at] == bucket[i];
    KeptAreIn(stored, evicted);
    assert bucket[i] in kept;
    KeptEvictMore(stored, evicted, bucket[i].key, at);
    assert Without(popped + bucket, at) == popped + Without(bucket, i);
  }

  lemma FifoOf(q: State, log: Log)
    requires log.popped + q.bucket == Kept(log.stored, log.evicted)
    requires Ordered(log.stored) && KeysUpTo(log.stored, q.seqNo)
    requires forall k :: k in log.evicted ==> |k| == 8 && Number(k) <= q.seqNo
    ensures Fifo(q, log)
  {
  }

  lemma KeyFacts(b: Bucket, n: nat, e: Entry)
    requires KeysUpTo(b, n) && e in b
    ensures |e.key| == 8 && Number(e.key) <= n
  {
  }

  lemma PushOneKeepsFifo(c: Codec, max: int, q: State, log: Log, x: Item, room: nat)
    requires Sound(q, room + 1) && Fifo(q, log) && PushOne(c, max, q, x).Some?
    ensures q.seqNo + 1 < TWO64 && Fifo(PushOne(c, max, q, x).value, LogOne(c, max, q, log, x))
  {
    hide Number, PutUint64, Sound, FirstEvictable, Ordered, KeysUpTo, Kept, PushOne, Without;
    SoundParts(q, room + 1);
    PushOneBucket(c, max, q, x, room);
    var e := Entry(PutUint64(q.seqNo + 1), x.data);
    KeyNumber(q.seqNo + 1);
    TailStaysOrdered(log.stored, e, q.seqNo);
    if q.used >= max {
      var i := FirstEvictable(c, q.bucket).value;
      StreamEvicts(log.stored, log.popped, q.bucket, log.evicted, i);
      KeyFacts(log.stored, q.seqNo, q.bucket[i]);
      StreamAppends(log.stored, log.popped, Without(q.bucket, i), log.evicted + {q.bucket[i].key}, e);
    } else {
      StreamAppends(log.stored, log.popped, q.bucket, log.evicted, e);
    }
    hide Fifo;
    FifoOf(PushOne(c, max, q, x).value, LogOne(c, max, q, log, x));
  }

  function LogAll(c: Codec, max: int, q: State, log: Log, xs: seq<Item>): Log
    requires PushAll(c, max, q, xs).Some? && q.seqNo + |xs| < TWO64
    decreases |xs|
  {
    if xs == [] then log
    else
      var q' := PushOne(c, max, q, xs[0]).value;
      if q'.seqNo + |xs| - 1 < TWO64 then LogAll(c, max, q', LogOne(c, max, q, log, xs[0]), xs[1..]) else log
  }

  /** A whole accepted batch keeps the queue sound, first-in-first-out, and the counter tied to the bytes. */
  lemma {:induction false} PushAllLaws(c: Codec, max: int, q: State, log: Log, xs: seq<Item>, room: nat)
    requires Sound(q, room + |xs|) && Fifo(q, log) && PushAll(c, max, q, xs).Some?
    ensures q.seqNo + |xs| < TWO64
    ensures var q' := PushAll(c, max, q, xs).value;
            && Sound(q', room) && Fifo(q', LogAll(c, max, q, log, xs))
            && q'.used - StoredBytes(q'.bucket) == q.used - StoredBytes(q.bucket)
            && LogAll(c, max, q, log, xs).popped == log.popped
    decreases |xs|
  {
    SoundParts(q, room + |xs|);
    if xs != [] {
      PushOneLaws(c, max, q, xs[0], room + |xs| - 1);
      PushOneKeepsFifo(c, max, q, log, xs[0], room + |xs| - 1);
      PushOneBucket(c, max, q, xs[0], room + |xs| - 1);
      hide Sound, Fifo, PushOne, StoredBytes, Without, PutUint64, FirstEvictable;
      PushAllLaws(c, max, PushOne(c, max, q, xs[0]).value, LogOne(c, max, q, log, xs[0]), xs[1..], room);
    }
  }

  /** The entries of a batch: its payloads in order, under the next sequence numbers. */
  function Appended(seqNo: nat, xs: seq<Item>): (b: Bucket)
    requires seqNo + |xs| < TWO64
    ensures |b| == |xs| && forall i :: 0 <= i < |xs| ==> b[i].data == xs[i].data
    decreases |xs|
  {
    if xs == [] then [] else [Entry(PutUint64(seqNo + 1), xs[0].data)] + Appended(seqNo + 1, xs[1..])
  }

  lemma OneIsStored(c: Codec, max: int, q: State, log: Log, x: Item)
    requires PushOne(c, max, q, x).Some? && q.seqNo + 1 < TWO64
    ensures PushOne(c, max, q, x).value.seqNo == q.seqNo + 1
    ensures LogOne(c, max, q, log, x).stored == log.stored + [Entry(PutUint64(q.seqNo + 1), x.data)]
    ensures LogOne(c, max, q, log, x).popped == log.popped
  {
    hide Put, FirstEvictable, Without, PutUint64;
  }

  /** An accepted batch stores its payloads, in order, behind everything stored before. */
  lemma {:induction false} StoredIsAppended(c: Codec, max: int, q: State, log: Log, xs: seq<Item>)
    requires PushAll(c, max, q, xs).Some? && q.seqNo + |xs| < TWO64
    ensures LogAll(c, max, q, log, xs).stored == log.stored + Appended(q.seqNo, xs)
    decreases |xs|
  {
    hide PushOne, LogOne, PutUint64, Appended;
    AppendedFirst(q.seqNo, xs);
    if xs != [] {
      var x, q', e := xs[0], PushOne(c, max, q, xs[0]).value, Entry(PutUint64(q.seqNo + 1), xs[0].data);
      OneIsStored(c, max, q, log, x);
      StoredIsAppended(c, max, q', LogOne(c, max, q, log, x), xs[1..]);
      Associate(log.stored, e, Appended(q.seqNo + 1, xs[1..]));
    }
  }

  lemma AppendedFirst(seqNo: nat, xs: seq<Item>)
    requires seqNo + |xs| < TWO64
    ensures xs == [] ==> Appended(seqNo, xs) == []
    ensures xs != [] ==> Appended(seqNo, xs) == [Entry(PutUint64(seqNo + 1), xs[0].data)] + Appended(seqNo + 1, xs[1..])
  {
    hide PutUint64;
  }

  lemma Associate(a: Bucket, e: Entry, b: Bucket)
    ensures (a + [e]) + b == a + ([e] + b)
  {
  }

  /** A queue just opened: what it holds is what was stored. */
  lemma OpenedIsFifo(q: State, room: nat)
    requires Sound(q, room)
    ensures Fifo(q, Log(q.bucket, [], {}))
  {
    NothingEvicted(q.bucket);
  }

  lemma {:induction false} NothingEvicted(b: Bucket)
    ensures Kept(b, {}) == b
  {
    if b != [] {
      NothingEvicted(b[..|b| - 1]);
      assert b == b[..|b| - 1] + [b[|b| - 1]];
    }
  }

  /** A pop moves the oldest entries, at most `n` and all there are if fewer, to the popped stream. */
  lemma PopLaws(q: State, log: Log, n: int, commits: bool, room: nat)
    requires Sound(q, room) && Fifo(q, log)
    ensures var (q', r, raw) := Pop(q, n, commits);
            && Sound(q', room)
            && Fifo(q', log.(popped := log.popped + raw))
            && q.bucket == raw + q'.bucket
            && (r == Ok && n > 0 ==> |raw| == (if n < |q.bucket| then n else |q.bucket|) > 0)
            && (r != Ok ==> q' == q && raw == [])
            && (r == Empty <==> n > 0 && q.bucket == [])
            && (q.used >= StoredBytes(q.bucket) ==> q'.used - StoredBytes(q'.bucket) == q.used - StoredBytes(q.bucket))
  {
    hide Number, Kept, StoredBytes, Fifo, Sound;
    var (q', r, raw) := Pop(q, n, commits);
    assert q.bucket == raw + q'.bucket;
    PopBytes(q, n, commits);
    PopSound(q, raw, q', room);
    PopFifo(q, log, raw, q');
  }

  lemma PopBytes(q: State, n: int, commits: bool)
    ensures var (q', r, raw) := Pop(q, n, commits);
            q.used >= StoredBytes(q.bucket) ==> q'.used - StoredBytes(q'.bucket) == q.used - StoredBytes(q.bucket)
  {
    hide StoredBytes;
    var (q', r, raw) := Pop(q, n, commits);
    assert q.bucket == raw + q'.bucket;
    StoredBytesConcat(raw, q'.bucket);
  }

  lemma PopSound(q: State, raw: Bucket, q': State, room: nat)
    requires Sound(q, room) && q.bucket == raw + q'.bucket && q'.seqNo == q.seqNo
    ensures Sound(q', room)
  {
    hide Number;
    assert forall i :: 0 <= i < |q'.bucket| ==> q'.bucket[i] == q.bucket[|raw| + i];
  }

  lemma PopFifo(q: State, log: Log, raw: Bucket, q': State)
    requires Fifo(q, log) && q.bucket == raw + q'.bucket && q'.seqNo == q.seqNo
    ensures Fifo(q', log.(popped := log.popped + raw))
  {
  }

  // --- Any mix of pushes and pops ------------------------------------------------------------------------

  datatype Op = PushOp(ps: seq<Packet>, commits: bool) | PopOp(n: int, commits: bool)

  function Step(c: Codec, max: int, q: State, op: Op): State
  {
    match op
    case PushOp(ps, commits) => Push(c, max, q, ps, commits).0
    case PopOp(n, commits) => Pop(q, n, commits).0
  }

  /** How the history grows with one operation. */
  ghost function LogStep(c: Codec, max: int, q: State, log: Log, op: Op): Log
  {
    match op
    case PopOp(n, commits) => log.(popped := log.popped + Pop(q, n, commits).2)
    case PushOp(ps, commits) =>
      if ps == [] || Push(c, max, q, ps, commits).1 != Ok || q.seqNo + |MarshalAll(c, ps).value| >= TWO64 then log
      else LogAll(c, max, q, log, MarshalAll(c, ps).value)
  }

  function OpSize(op: Op): nat
  {
    if op.PushOp? then |op.ps| else 0
  }

  function RunSize(ops: seq<Op>): nat
  {
    if ops == [] then 0 else OpSize(ops[0]) + RunSize(ops[1..])
  }

  function Run(c: Codec, max: int, q: State, ops: seq<Op>): State
    decreases |ops|
  {
    if ops == [] then q else Run(c, max, Step(c, max, q, ops[0]), ops[1..])
  }

  ghost function LogRun(c: Codec, max: int, q: State, log: Log, ops: seq<Op>): Log
    decreases |ops|
  {
    if ops == [] then log
    else LogRun(c, max, Step(c, max, q, ops[0]), LogStep(c, max, q, log, ops[0]), ops[1..])
  }

  lemma {:induction false} MarshalledCount(c: Codec, ps: seq<Packet>)
    requires MarshalAll(c, ps).Some?
    ensures |MarshalAll(c, ps).value| == |ps|
  {
    if ps != [] { MarshalledCount(c, ps[..|ps| - 1]); }
  }

  lemma StepLaws(c: Codec, max: int, q: State, log: Log, op: Op, room: nat)
    requires Sound(q, room + OpSize(op)) && Fifo(q, log)
    ensures var q' := Step(c, max, q, op);
            && Sound(q', room) && Fifo(q', LogStep(c, max, q, log, op))
            && (q.used >= StoredBytes(q.bucket) ==>
                  q'.used - StoredBytes(q'.bucket) == q.used - StoredBytes(q.bucket))
  {
    SoundParts(q, room + OpSize(op));
    match op
    case PopOp(n, commits) =>
      PopLaws(q, log, n, commits, room);
    case PushOp(ps, commits) =>
      SoundOf(q, room);
      FailedBatchChangesNothing(c, max, q, ps, commits);
      hide Sound, Fifo, PushAll, MarshalAll, StoredBytes, Push, LogAll;
      PushOfNothing(c, max, q, commits);
      if ps != [] && Push(c, max, q, ps, commits).1 == Ok {
        MarshalledCount(c, ps);
        PushAllLaws(c, max, q, log, MarshalAll(c, ps).value, room);
      }
  }

  lemma PushOfNothing(c: Codec, max: int, q: State, commits: bool)
    ensures Push(c, max, q, [], commits) == (q, Ok)
  {
  }

  /**
   For any mix of pushes and pops, failed ones included: the popped stream followed by the queue is the
   stored stream minus evictions, when the sequence numbers do not run out; and the counter's distance
   from the stored bytes never changes, if it was seeded at or above them.
   */
  lemma {:induction false} QueueRunLaws(c: Codec, max: int, q: State, log: Log, ops: seq<Op>, room: nat)
    requires Sound(q, room + RunSize(ops)) && Fifo(q, log)
    ensures var q' := Run(c, max, q, ops);
            && Fifo(q', LogRun(c, max, q, log, ops))
            && (q.used >= StoredBytes(q.bucket) ==>
                  q'.used - StoredBytes(q'.bucket) == q.used - StoredBytes(q.bucket))
    decreases |ops|
  {
    hide *;
    RunUnfolds(c, max, q, log, ops);
    if ops != [] {
      StepLaws(c, max, q, log, ops[0], room + RunSize(ops[1..]));
      QueueRunLaws(c, max, Step(c, max, q, ops[0]), LogStep(c, max, q, log, ops[0]), ops[1..], room);
    }
  }

  lemma RunUnfolds(c: Codec, max: int, q: State, log: Log, ops: seq<Op>)
    ensures ops == [] ==> Run(c, max, q, ops) == q && LogRun(c, max, q, log, ops) == log
    ensures ops != [] ==> RunSize(ops) == OpSize(ops[0]) + RunSize(ops[1..])
    ensures ops != [] ==> Run(c, max, q, ops) == Run(c, max, Step(c, max, q, ops[0]), ops[1..])
    ensures ops != [] ==>
      LogRun(c, max, q, log, ops) == LogRun(c, max, Step(c, max, q, ops[0]), LogStep(c, max, q, log, ops[0]), ops[1..])
  {
  }

  /** Seeded below the stored bytes, the counter's distance does change: emptying the queue clamps it at zero. */
  lemma LowSeedDrifts(q: State, n: int)
    requires q.bucket != [] && n >= |q.bucket| && q.used < StoredBytes(q.bucket)
    ensures var q' := Pop(q, n, true).0;
            q'.bucket == [] && q'.used == 0 && q'.used - StoredBytes(q'.bucket) != q.used - StoredBytes(q.bucket)
  {
    assert q.bucket[..|q.bucket|] == q.bucket;
  }

  /** Whether the counter is as far from the stored bytes after the operations as before them. */
  predicate KeepsDistance(c: Codec, max: int, q: State, ops: seq<Op>)
  {
    Run(c, max, q, ops).used - StoredBytes(Run(c, max, q, ops).bucket) == q.used - StoredBytes(q.bucket)
  }

  /**
   The counter keeps its distance to the stored bytes over every run that the sequence numbers allow,
   exactly when it was seeded at or above them.
   */
  lemma SeedKeepsDistanceIff(c: Codec, max: int, q: State, room: nat)
    requires Sound(q, room) && q.used >= 0
    ensures (forall ops :: RunSize(ops) <= room ==> KeepsDistance(c, max, q, ops)) <==>
            q.used >= StoredBytes(q.bucket)
  {
    hide *;
    if q.used >= StoredBytes(q.bucket) {
      forall ops | RunSize(ops) <= room
        ensures KeepsDistance(c, max, q, ops)
      {
        HighSeedKeeps(c, max, q, room, ops);
      }
    } else {
      LowSeedRun(c, max, q);
    }
  }

  lemma HighSeedKeeps(c: Codec, max: int, q: State, room: nat, ops: seq<Op>)
    requires Sound(q, room) && q.used >= StoredBytes(q.bucket) && RunSize(ops) <= room
    ensures KeepsDistance(c, max, q, ops)
  {
    hide *;
    var log := Log(q.bucket, [], {});
    OpenedIsFifo(q, room);
    QueueRunLaws(c, max, q, log, ops, room - RunSize(ops));
    DistanceKept(c, max, q, ops);
  }

  lemma DistanceKept(c: Codec, max: int, q: State, ops: seq<Op>)
    ensures KeepsDistance(c, max, q, ops) <==>
      var q' := Run(c, max, q, ops); q'.used - StoredBytes(q'.bucket) == q.used - StoredBytes(q.bucket)
  {
    hide Run, StoredBytes;
  }

  lemma LowSeedRun(c: Codec, max: int, q: State)
    requires 0 <= q.used < StoredBytes(q.bucket)
    ensures exists ops :: RunSize(ops) == 0 && !KeepsDistance(c, max, q, ops)
  {
    var ops := [PopOp(|q.bucket|, true)];
    LowSeedDrifts(q, |q.bucket|);
    OneOp(c, max, q, ops[0]);
    hide *;
    DistanceKept(c, max, q, ops);
  }

  lemma OneOp(c: Codec, max: int, q: State, op: Op)
    ensures Run(c, max, q, [op]) == Step(c, max, q, op) && RunSize([op]) == OpSize(op)
    ensures op.PopOp? ==> Step(c, max, q, op) == Pop(q, op.n, op.commits).0 && OpSize(op) == 0
  {
    hide Push, Pop;
    assert [op][1..] == [];
  }

  // --- The packets a caller gets back -----------------------------------------------------------------

  /** A batch marshals exactly when each packet does, item by item, with its own severity. */
  lemma {:induction false} MarshalledAre(c: Codec, ps: seq<Packet>)
    ensures MarshalAll(c, ps).None? <==> exists p :: p in ps && c.marshal(p).None?
    ensures MarshalAll(c, ps).Some? ==>
      var xs := MarshalAll(c, ps).value;
      && |xs| == |ps|
      && forall i :: 0 <= i < |ps| ==> c.marshal(ps[i]) == Some(xs[i].data) && xs[i].severity == ps[i].severity
  {
    if ps != [] {
      var n := |ps| - 1;
      MarshalledAre(c, ps[..n]);
      assert ps == ps[..n] + [ps[n]];
    }
  }

  /** A packet is refused exactly at the cap, when it is neither critical nor major or nothing queued reads as less. */
  lemma PacketRefusedIff(c: Codec, max: int, q: State, p: Packet, commits: bool)
    ensures Push(c, max, q, [p], commits).1 == Full <==>
      && c.marshal(p).Some? && q.used >= max
      && (p.severity !in {"critical", "major"}
          || forall e :: e in q.bucket ==> c.readSeverity(e.data) in {"critical", "major"})
  {
    MarshalledAre(c, [p]);
    hide MarshalAll, FirstEvictable, Append, Without;
    assert p in [p];
    if c.marshal(p).Some? {
      RefusedIff(c, max, q, MarshalAll(c, [p]).value[0]);
      PushOfOne(c, max, q, MarshalAll(c, [p]).value);
    }
  }

  lemma PushOfOne(c: Codec, max: int, q: State, xs: seq<Item>)
    requires |xs| == 1
    ensures PushAll(c, max, q, xs) == PushOne(c, max, q, xs[0])
  {
    hide PushOne;
  }

  /** An entry decodes to its packet, or to nothing. */
  function Decoded(c: Codec, e: Entry): seq<Packet>
  {
    match c.unmarshal(e.data)
    case Some(p) => [p]
    case None => []
  }

  /** Decoding goes entry by entry, in order: an entry that does not decode drops itself and nothing else. */
  lemma DecodesEachEntry(c: Codec, a: Bucket, e: Entry, b: Bucket)
    ensures DecodeAll(c, a + [e] + b) == DecodeAll(c, a) + Decoded(c, e) + DecodeAll(c, b)
  {
    DecodeConcat(c, a + [e], b);
    DecodeLast(c, a, e);
    hide DecodeAll, Decoded;
  }

  lemma DecodeLast(c: Codec, a: Bucket, e: Entry)
    ensures DecodeAll(c, a + [e]) == DecodeAll(c, a) + Decoded(c, e)
  {
    assert (a + [e])[..|a|] == a;
  }

  lemma {:induction false} DecodeConcat(c: Codec, a: Bucket, b: Bucket)
    ensures DecodeAll(c, a + b) == DecodeAll(c, a) + DecodeAll(c, b)
  {
    if b == [] {
      assert a + b == a;
    } else {
      var front, e := b[..|b| - 1], b[|b| - 1];
      assert a + b == (a + front) + [e] && b == front + [e];
      DecodeConcat(c, a, front);
      DecodeLast(c, a + front, e);
      DecodeLast(c, front, e);
      hide DecodeAll, Decoded;
    }
  }

  /** What is marshalled can be unmarshalled again. */
  ghost predicate RoundTrips(c: Codec)
  {
    forall p, d :: c.marshal(p) == Some(d) ==> c.unmarshal(d) == Some(p)
  }

  /** The packets of the batches that were accepted, in order. */
  ghost function Accepted(c: Codec, max: int, q: State, ops: seq<Op>): seq<Packet>
    decreases |ops|
  {
    if ops == [] then []
    else AcceptedBy(c, max, q, ops[0]) + Accepted(c, max, Step(c, max, q, ops[0]), ops[1..])
  }

  ghost function AcceptedBy(c: Codec, max: int, q: State, op: Op): seq<Packet>
  {
    if op.PushOp? && Push(c, max, q, op.ps, op.commits).1 == Ok then op.ps else []
  }

  /** The packets that pops returned, in order. */
  ghost function Returned(c: Codec, max: int, q: State, ops: seq<Op>): seq<Packet>
    decreases |ops|
  {
    if ops == [] then []
    else ReturnedBy(c, q, ops[0]) + Returned(c, max, Step(c, max, q, ops[0]), ops[1..])
  }

  ghost function ReturnedBy(c: Codec, q: State, op: Op): seq<Packet>
  {
    if op.PopOp? then DecodeAll(c, Pop(q, op.n, op.commits).2) else []
  }

  /** The i-th entry stored holds the i-th packet. */
  ghost predicate Spells(c: Codec, stored: Bucket, ps: seq<Packet>)
  {
    |stored| == |ps| && forall i :: 0 <= i < |ps| ==> c.unmarshal(stored[i].data) == Some(ps[i])
  }

  /** The packets whose entries were not evicted, in order. */
  ghost function Survivors(stored: Bucket, ps: seq<Packet>, evicted: set<seq<Byte>>): seq<Packet>
    requires |stored| == |ps|
  {
    if ps == [] then []
    else
      var n := |ps| - 1;
      Survivors(stored[..n], ps[..n], evicted) + (if stored[n].key in evicted then [] else [ps[n]])
  }

  lemma {:induction false} KeptSpellSurvivors(c: Codec, stored: Bucket, ps: seq<Packet>, evicted: set<seq<Byte>>)
    requires Spells(c, stored, ps)
    ensures DecodeAll(c, Kept(stored, evicted)) == Survivors(stored, ps, evicted)
  {
    hide DecodeAll;
    if ps == [] {
      assert DecodeAll(c, []) == [] by { EmptyStart(c); }
    } else {
      var n := |ps| - 1;
      KeptSpellSurvivors(c, stored[..n], ps[..n], evicted);
      KeptLast(stored, evicted);
      var front := Kept(stored[..n], evicted);
      if stored[n].key in evicted {
        assert Kept(stored, evicted) == front + [] == front;
      } else {
        DecodeLast(c, front, stored[n]);
        assert Decoded(c, stored[n]) == [ps[n]];
      }
    }
  }

  lemma SpellsMore(c: Codec, stored: Bucket, ps: seq<Packet>, more: Bucket, qs: seq<Packet>)
    requires Spells(c, stored, ps) && Spells(c, more, qs)
    ensures Spells(c, stored + more, ps + qs)
  {
  }

  /** One operation extends the stored stream by what it accepted, and the popped one by what it returned. */
  lemma StepSpells(c: Codec, max: int, q: State, log: Log, op: Op, ps: seq<Packet>, room: nat)
    requires RoundTrips(c) && Sound(q, room + OpSize(op)) && Fifo(q, log) && Spells(c, log.stored, ps)
    ensures var log' := LogStep(c, max, q, log, op);
            && Spells(c, log'.stored, ps + AcceptedBy(c, max, q, op))
            && DecodeAll(c, log'.popped) == DecodeAll(c, log.popped) + ReturnedBy(c, q, op)
  {
    match op
    case PopOp(n, commits) =>
      hide Spells, DecodeAll, Pop, Sound, Fifo, RoundTrips;
      DecodeConcat(c, log.popped, Pop(q, n, commits).2);
      assert ps + [] == ps;
    case PushOp(qs, commits) =>
      hide *;
      PushSpells(c, max, q, log, qs, commits, ps, room);
      PushStepIs(c, max, q, log, op);
      assert DecodeAll(c, log.popped) + [] == DecodeAll(c, log.popped);
  }

  lemma PushStepIs(c: Codec, max: int, q: State, log: Log, op: Op)
    requires op.PushOp?
    ensures ReturnedBy(c, q, op) == [] && OpSize(op) == |op.ps|
  {
  }

  lemma PushSpells(c: Codec, max: int, q: State, log: Log, qs: seq<Packet>, commits: bool, ps: seq<Packet>, room: nat)
    requires RoundTrips(c) && Sound(q, room + OpSize(PushOp(qs, commits))) && Fifo(q, log) && Spells(c, log.stored, ps)
    ensures var log' := LogStep(c, max, q, log, PushOp(qs, commits));
            && Spells(c, log'.stored, ps + AcceptedBy(c, max, q, PushOp(qs, commits)))
            && log'.popped == log.popped
  {
    hide Spells, DecodeAll, Push, MarshalAll, PushAll, LogAll, Sound, Fifo, RoundTrips;
    assert ps + [] == ps;
    if qs != [] && Push(c, max, q, qs, commits).1 == Ok {
      FailedBatchChangesNothing(c, max, q, qs, commits);
      MarshalledAre(c, qs);
      var xs := MarshalAll(c, qs).value;
      PushAllLaws(c, max, q, log, xs, room);
      StoredIsAppended(c, max, q, log, xs);
      AppendedSpells(c, q.seqNo, xs, qs);
      SpellsMore(c, log.stored, ps, Appended(q.seqNo, xs), qs);
    }
  }

  lemma AppendedSpells(c: Codec, seqNo: nat, xs: seq<Item>, ps: seq<Packet>)
    requires RoundTrips(c) && seqNo + |xs| < TWO64 && |xs| == |ps|
    requires forall i :: 0 <= i < |ps| ==> c.marshal(ps[i]) == Some(xs[i].data)
    ensures Spells(c, Appended(seqNo, xs), ps)
  {
    hide Appended;
  }

  lemma {:induction false} RunSpells(c: Codec, max: int, q: State, log: Log, ops: seq<Op>, ps: seq<Packet>, room: nat)
    requires RoundTrips(c) && Sound(q, room + RunSize(ops)) && Fifo(q, log) && Spells(c, log.stored, ps)
    ensures var log' := LogRun(c, max, q, log, ops);
            && Spells(c, log'.stored, ps + Accepted(c, max, q, ops))
            && DecodeAll(c, log'.popped) == DecodeAll(c, log.popped) + Returned(c, max, q, ops)
    decreases |ops|
  {
    RunUnfolds(c, max, q, log, ops);
    hide Spells, DecodeAll, LogRun, RunSize, Run, LogStep, Step, AcceptedBy, ReturnedBy, Sound, Fifo, RoundTrips;
    if ops == [] {
      assert ps + [] == ps && DecodeAll(c, log.popped) + [] == DecodeAll(c, log.popped);
    } else {
      var room' := room + RunSize(ops[1..]);
      StepLaws(c, max, q, log, ops[0], room');
      StepSpells(c, max, q, log, ops[0], ps, room');
      var q', log' := Step(c, max, q, ops[0]), LogStep(c, max, q, log, ops[0]);
      RunSpells(c, max, q', log', ops[1..], ps + AcceptedBy(c, max, q, ops[0]), room);
      var a, b := AcceptedBy(c, max, q, ops[0]), Accepted(c, max, q', ops[1..]);
      assert (ps + a) + b == ps + (a + b);
    }
  }

  /**
   What callers get is what callers put in. From an empty queue, for any mix of pushes and pops: the
   packets returned, then those still queued, are the packets of the accepted batches in push order,
   minus the evicted ones.
   */
  lemma PacketsComeOutInOrder(c: Codec, max: int, q: State, ops: seq<Op>)
    requires RoundTrips(c) && Sound(q, RunSize(ops)) && q.bucket == []
    ensures var log := LogRun(c, max, q, Log([], [], {}), ops);
            && |log.stored| == |Accepted(c, max, q, ops)|
            && Returned(c, max, q, ops) + DecodeAll(c, Run(c, max, q, ops).bucket)
               == Survivors(log.stored, Accepted(c, max, q, ops), log.evicted)
  {
    hide *;
    var start := Log([], [], {});
    var log, ps := LogRun(c, max, q, start, ops), Accepted(c, max, q, ops);
    var bucket := Run(c, max, q, ops).bucket;
    OpenedIsFifo(q, RunSize(ops));
    EmptyStart(c);
    QueueRunLaws(c, max, q, start, ops, 0);
    RunSpells(c, max, q, start, ops, [], 0);
    assert [] + ps == ps && [] + Returned(c, max, q, ops) == Returned(c, max, q, ops);
    SpellsLength(c, log.stored, ps);
    KeptSpellSurvivors(c, log.stored, ps, log.evicted);
    FifoStream(Run(c, max, q, ops), log);
    DecodeConcat(c, log.popped, bucket);
  }

  lemma EmptyStart(c: Codec)
    ensures Spells(c, [], []) && DecodeAll(c, []) == []
  {
  }

  lemma SpellsLength(c: Codec, stored: Bucket, ps: seq<Packet>)
    requires Spells(c, stored, ps)
    ensures |stored| == |ps|
  {
  }

  lemma FifoStream(q: State, log: Log)
    requires Fifo(q, log)
    ensures log.popped + q.bucket == Kept(log.stored, log.evicted)
  {
  }
}
