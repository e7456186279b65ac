/** The frequency-bucket cache (src/nodes/cache_node.py:32-136), and the plain cache of counts
    and entry times that it refines. */
module LfuCaches {
  import opened Wrappers

  /** Buckets list their keys from the oldest entry to the newest; a line's access count starts
      at one. */
  datatype Lfu = Lfu(counts: map<string, int>, buckets: map<int, seq<string>>, minFreq: int)

  /** Fault is the exception raised when a key in a bucket is no longer cached. */
  datatype Result = Hit | Miss | Kept | Evicted(key: string) | Fault

  datatype Op = DoGet(key: string) | DoPut(key: string)

  const EmptyLfu := Lfu(map[], map[], 0)

  // ---- What the methods do ----

  function Listed(buckets: map<int, seq<string>>, f: int): seq<string> {
    if f in buckets then buckets[f] else []
  }

  function Bucket(l: Lfu, f: int): seq<string> {
    Listed(l.buckets, f)
  }

  function Without(b: seq<string>, key: string): seq<string> {
    if b == [] then [] else (if b[0] == key then [] else [b[0]]) + Without(b[1..], key)
  }

  /** Assigning a key that an ordered dictionary already has does not move it. */
  function With(b: seq<string>, key: string): seq<string> {
    if key in b then b else b + [key]
  }

  function UpdateFreq(l: Lfu, key: string, count: int): Lfu {
    var freed := if count - 1 in l.buckets
                 then l.(buckets := l.buckets[count - 1 := Without(l.buckets[count - 1], key)]) else l;
    var least := if count - 1 in l.buckets && Bucket(freed, count - 1) == [] && l.minFreq == count - 1
                 then count else l.minFreq;
    freed.(buckets := freed.buckets[count := With(Bucket(freed, count), key)], minFreq := least)
  }

  function Get(l: Lfu, key: string): (Lfu, Result) {
    if key !in l.counts then (l, Miss)
    else
      var moved := UpdateFreq(l, key, l.counts[key]);
      (moved.(counts := l.counts[key := l.counts[key] + 1]), Hit)
  }

  function Insert(l: Lfu, key: string, count: int): Lfu {
    Lfu(l.counts[key := count], l.buckets[1 := With(Bucket(l, 1), key)], 1)
  }

  /** The oldest key of the least bucket, taken out. */
  function Popped(l: Lfu): Lfu
    requires Bucket(l, l.minFreq) != []
  {
    var b := Bucket(l, l.minFreq);
    Lfu(l.counts - {b[0]}, l.buckets[l.minFreq := b[1..]], l.minFreq)
  }

  function MakeRoom(l: Lfu, capacity: int): (Lfu, Result) {
    if |l.counts| < capacity || Bucket(l, l.minFreq) == [] then (l, Kept)
    else
      var victim := Bucket(l, l.minFreq)[0];
      (Popped(l), if victim in l.counts then Evicted(victim) else Fault)
  }

  function Put(l: Lfu, capacity: int, key: string, count: int): (Lfu, Result) {
    if capacity <= 0 then (l, Kept)
    else if key in l.counts then (UpdateFreq(l.(counts := l.counts[key := count]), key, count), Kept)
    else
      var (room, r) := MakeRoom(l, capacity);
      (if r.Fault? then room else Insert(room, key, count), r)
  }

  function Invalidate(l: Lfu, key: string): Lfu {
    l.(counts := l.counts - {key})
  }

  function Step(l: Lfu, capacity: int, op: Op): (Lfu, Result) {
    match op
    case DoGet(key) => Get(l, key)
    case DoPut(key) => Put(l, capacity, key, 1)
  }

  // ---- The index is sound ----

  /** The bucket of a line: its first get does not move it. */
  function Rank(count: int): int {
    if count <= 2 then 1 else count - 1
  }

  ghost predicate Indexed(l: Lfu) {
    (forall k | k in l.counts :: l.counts[k] >= 1 && k in Bucket(l, Rank(l.counts[k]))) &&
    (forall f, k | k in Bucket(l, f) :: k in l.counts && Rank(l.counts[k]) == f)
  }

  ghost predicate LeastIsMin(l: Lfu) {
    l.counts != map[] ==> Bucket(l, l.minFreq) != [] && forall f | f < l.minFreq :: Bucket(l, f) == []
  }

  ghost predicate Ok(l: Lfu, capacity: int) {
    Indexed(l) && LeastIsMin(l) && (l.counts == map[] || |l.counts| <= capacity)
  }

  // ---- The plain cache ----

  /** How often a key was found, and when it reached the bucket it is in. */
  datatype Entry = Entry(gets: nat, since: nat)

  type Plain = map<string, Entry>

  /** The rank of a key first, then the time it has held it. */
  predicate NoWorse(a: Entry, b: Entry) {
    Rank(a.gets + 1) < Rank(b.gets + 1) || (Rank(a.gets + 1) == Rank(b.gets + 1) && a.since <= b.since)
  }

  predicate IsVictim(p: Plain, key: string) {
    key in p && forall k | k in p :: NoWorse(p[key], p[k])
  }

  predicate PlainAllows(p: Plain, capacity: int, op: Op, r: Result) {
    match op
    case DoGet(key) => r == if key in p then Hit else Miss
    case DoPut(key) =>
      if capacity <= 0 || key in p || |p| < capacity then r == Kept
      else r.Evicted? && IsVictim(p, r.key)
  }

  function PlainAfter(p: Plain, now: nat, capacity: int, op: Op, r: Result): Plain {
    match op
    case DoGet(key) =>
      if key !in p then p
      else p[key := Entry(p[key].gets + 1, if p[key].gets == 0 then p[key].since else now)]
    case DoPut(key) =>
      if capacity <= 0 then p
      else if key in p then p[key := Entry(0, p[key].since)]
      else (if r.Evicted? then p - {r.key} else p)[key := Entry(0, now)]
  }

  // ---- The refinement ----

  ghost predicate InOrder(b: seq<string>, p: Plain) {
    (forall k | k in b :: k in p) &&
    forall i, j | 0 <= i < j < |b| :: p[b[i]].since < p[b[j]].since
  }

  ghost predicate Agrees(l: Lfu, p: Plain, now: nat) {
    l.counts.Keys == p.Keys &&
    (forall k | k in p :: l.counts[k] == p[k].gets + 1 && p[k].since < now) &&
    (forall f :: InOrder(Bucket(l, f), p))
  }

  lemma {:induction false} WithoutKey(b: seq<string>, key: string)
    ensures forall k :: k in Without(b, key) <==> k in b && k != key
    ensures |Without(b, key)| <= |b|
  {
    if b != [] {
      WithoutKey(b[1..], key);
      assert b == [b[0]] + b[1..];
    }
  }

  lemma {:induction false} WithoutKeepsOrder(b: seq<string>, key: string, p: Plain)
    requires InOrder(b, p)
    ensures InOrder(Without(b, key), p)
  {
    WithoutKey(b, key);
    if b != [] {
      assert forall i | 0 <= i < |b| - 1 :: b[1..][i] == b[i + 1];
      WithoutKeepsOrder(b[1..], key, p);
      WithoutKey(b[1..], key);
      var rest := Without(b[1..], key);
      forall j | 0 <= j < |rest| ensures p[b[0]].since < p[rest[j]].since {
        assert rest[j] in b[1..];
      }
    }
  }

  lemma BucketsAfter(l: Lfu, key: string, count: int, f: int)
    ensures Bucket(UpdateFreq(l, key, count), f) ==
            if f == count then With(Bucket(l, f), key)
            else if f == count - 1 then Without(Bucket(l, f), key)
            else Bucket(l, f)
  {
  }

  lemma LowBucketsEmpty(l: Lfu)
    requires Indexed(l)
    ensures forall f | f < 1 :: Bucket(l, f) == []
  {
    forall f ensures Bucket(l, f) == [] || f >= 1 {
      if Bucket(l, f) != [] {
        var k := Bucket(l, f)[0];
        assert k in Bucket(l, f) && Rank(l.counts[k]) == f;
      }
    }
  }

  lemma GetMoves(l: Lfu, key: string, f: int, k: string)
    requires Indexed(l) && key in l.counts
    ensures k in Bucket(Get(l, key).0, f) <==>
            if k == key then f == Rank(l.counts[key] + 1) else k in Bucket(l, f)
  {
    BucketsAfter(l, key, l.counts[key], f);
    WithoutKey(Bucket(l, f), key);
  }

  lemma GetIndexed(l: Lfu, key: string)
    requires Indexed(l) && key in l.counts
    ensures Indexed(Get(l, key).0)
  {
    hide UpdateFreq;
    var l' := Get(l, key).0;
    forall k | k in l'.counts ensures l'.counts[k] >= 1 && k in Bucket(l', Rank(l'.counts[k])) {
      GetMoves(l, key, Rank(l'.counts[k]), k);
    }
    forall f, k | k in Bucket(l', f) ensures k in l'.counts && Rank(l'.counts[k]) == f {
      GetMoves(l, key, f, k);
    }
  }

  lemma GetLeast(l: Lfu, key: string)
    requires Indexed(l) && LeastIsMin(l) && key in l.counts
    ensures LeastIsMin(Get(l, key).0)
  {
    var l', c := Get(l, key).0, l.counts[key];
    LowBucketsEmpty(l);
    forall f ensures Bucket(l', f) == if f == c then With(Bucket(l, f), key)
                                      else if f == c - 1 then Without(Bucket(l, f), key)
                                      else Bucket(l, f)
    {
      BucketsAfter(l, key, c, f);
    }
    forall f | f < l'.minFreq ensures Bucket(l', f) == [] {
      WithoutKey(Bucket(l, f), key);
    }
  }

  /** Only this key's entry changes. */
  ghost predicate OnlyChanges(p: Plain, p': Plain, key: string) {
    key in p' && p'.Keys == p.Keys + {key} && forall k | k in p && k != key :: p'[k] == p[k]
  }

  lemma OneChange(p: Plain, key: string, entry: Entry)
    ensures OnlyChanges(p, p[key := entry], key)
  {
  }

  lemma OthersKeepOrder(b: seq<string>, p: Plain, p': Plain, key: string)
    requires InOrder(b, p) && OnlyChanges(p, p', key)
    requires key !in b || (key in p && p'[key].since == p[key].since)
    ensures InOrder(b, p')
  {
  }

  lemma NewestKeepsOrder(b: seq<string>, p: Plain, p': Plain, key: string, now: nat)
    requires InOrder(b, p) && OnlyChanges(p, p', key) && key !in b
    requires (forall k | k in p :: p[k].since < now) && p'[key].since == now
    ensures InOrder(b + [key], p')
  {
  }

  lemma GetInOrder(l: Lfu, p: Plain, now: nat, capacity: int, key: string, f: int)
    requires Indexed(l) && Agrees(l, p, now) && key in l.counts
    ensures InOrder(Bucket(Get(l, key).0, f), PlainAfter(p, now, capacity, DoGet(key), Hit))
  {
    hide InOrder, UpdateFreq;
    var c, b, p' := l.counts[key], Bucket(l, f), PlainAfter(p, now, capacity, DoGet(key), Hit);
    BucketsAfter(l, key, c, f);
    assert key in Bucket(l, Rank(c)) && (key in b ==> f == Rank(c));
    if f == c && c > 1 {
      NewestKeepsOrder(b, p, p', key, now);
    } else if f == c - 1 && c > 1 {
      WithoutKeepsOrder(b, key, p);
      WithoutKey(b, key);
      OthersKeepOrder(Without(b, key), p, p', key);
    } else {
      LowBucketsEmpty(l);
      OthersKeepOrder(b, p, p', key);
    }
  }

  lemma HeadIsVictim(l: Lfu, p: Plain, now: nat)
    requires Indexed(l) && LeastIsMin(l) && Agrees(l, p, now) && l.counts != map[]
    ensures Bucket(l, l.minFreq) != [] && Bucket(l, l.minFreq)[0] in l.counts
    ensures IsVictim(p, Bucket(l, l.minFreq)[0])
  {
  }

  lemma TailInOrder(b: seq<string>, p: Plain)
    requires InOrder(b, p) && b != []
    ensures InOrder(b[1..], p - {b[0]})
  {
  }

  lemma OthersInOrder(b: seq<string>, p: Plain, key: string)
    requires InOrder(b, p) && key !in b
    ensures InOrder(b, p - {key})
  {
  }

  lemma PopMoves(l: Lfu, p: Plain, now: nat, f: int, k: string)
    requires Indexed(l) && Agrees(l, p, now) && Bucket(l, l.minFreq) != []
    ensures k in Bucket(Popped(l), f) <==> k in Bucket(l, f) && k != Bucket(l, l.minFreq)[0]
  {
  }

  lemma PopInOrder(l: Lfu, p: Plain, now: nat, f: int)
    requires Indexed(l) && Agrees(l, p, now) && Bucket(l, l.minFreq) != []
    ensures InOrder(Bucket(Popped(l), f), p - {Bucket(l, l.minFreq)[0]})
  {
    hide InOrder;
    var b := Bucket(l, l.minFreq);
    assert b[0] in b && Rank(l.counts[b[0]]) == l.minFreq;
    if f == l.minFreq {
      TailInOrder(b, p);
    } else {
      OthersInOrder(Bucket(l, f), p, b[0]);
    }
  }

  lemma PopAgrees(l: Lfu, p: Plain, now: nat)
    requires Indexed(l) && Agrees(l, p, now) && Bucket(l, l.minFreq) != []
    ensures Agrees(Popped(l), p - {Bucket(l, l.minFreq)[0]}, now)
  {
    hide InOrder, Indexed, Bucket;
    forall f ensures InOrder(Bucket(Popped(l), f), p - {Bucket(l, l.minFreq)[0]}) {
      PopInOrder(l, p, now, f);
    }
  }

  lemma PopIndexed(l: Lfu, p: Plain, now: nat)
    requires Indexed(l) && Agrees(l, p, now) && Bucket(l, l.minFreq) != []
    ensures Indexed(Popped(l))
  {
    hide Agrees, Rank;
    var l' := Popped(l);
    forall k | k in l'.counts ensures l'.counts[k] >= 1 && k in Bucket(l', Rank(l'.counts[k])) {
      PopMoves(l, p, now, Rank(l'.counts[k]), k);
    }
    forall f, k | k in Bucket(l', f) ensures k in l'.counts && Rank(l'.counts[k]) == f {
      PopMoves(l, p, now, f, k);
    }
  }

  lemma InsertIndexed(l: Lfu, key: string)
    requires Indexed(l) && key !in l.counts
    ensures Indexed(Insert(l, key, 1)) && LeastIsMin(Insert(l, key, 1))
  {
    var l' := Insert(l, key, 1);
    LowBucketsEmpty(l);
    forall f, k ensures k in Bucket(l', f) <==> k in Bucket(l, f) || (k == key && f == 1) {}
    assert key in Bucket(l', 1);
  }

  lemma InsertInOrder(l: Lfu, p: Plain, now: nat, key: string, f: int)
    requires Indexed(l) && Agrees(l, p, now) && key !in l.counts
    ensures InOrder(Bucket(Insert(l, key, 1), f), p[key := Entry(0, now)])
  {
    hide InOrder;
    var b, p' := Bucket(l, f), p[key := Entry(0, now)];
    assert key !in b;
    if f == 1 {
      NewestKeepsOrder(b, p, p', key, now);
    } else {
      OthersKeepOrder(b, p, p', key);
    }
  }

  function Overwritten(l: Lfu, key: string): Lfu {
    UpdateFreq(l.(counts := l.counts[key := 1]), key, 1)
  }

  lemma OverwriteKeepsBuckets(l: Lfu, key: string)
    requires Indexed(l) && LeastIsMin(l) && key in l.counts && l.counts[key] <= 2
    ensures var l' := Overwritten(l, key);
            l'.counts == l.counts[key := 1] && l'.minFreq == l.minFreq &&
            forall f :: Bucket(l', f) == Bucket(l, f)
  {
    LowBucketsEmpty(l);
    assert key in Bucket(l, 1) && l.minFreq == 1;
    forall f ensures Bucket(Overwritten(l, key), f) == Bucket(l, f) {
      BucketsAfter(l.(counts := l.counts[key := 1]), key, 1, f);
    }
  }

  /** Overwriting a line that is still in the first bucket starts its count again. */
  lemma OverwriteOk(l: Lfu, p: Plain, now: nat, key: string)
    requires Indexed(l) && LeastIsMin(l) && Agrees(l, p, now) && key in l.counts && l.counts[key] <= 2
    requires key in p
    ensures Indexed(Overwritten(l, key)) && LeastIsMin(Overwritten(l, key))
    ensures Agrees(Overwritten(l, key), p[key := Entry(0, p[key].since)], now + 1)
  {
    hide *;
    var l', p' := Overwritten(l, key), p[key := Entry(0, p[key].since)];
    OneChange(p, key, p'[key]);
    OverwriteKeepsBuckets(l, key);
    SameIndex(l, l', key);
    SameOrder(l, l', p, p', now, key);
  }

  lemma SameOrder(l: Lfu, l': Lfu, p: Plain, p': Plain, now: nat, key: string)
    requires Agrees(l, p, now) && key in p && OnlyChanges(p, p', key)
    requires p'[key] == Entry(0, p[key].since)
    requires l'.counts == l.counts[key := 1] && forall f :: Bucket(l', f) == Bucket(l, f)
    ensures Agrees(l', p', now + 1)
  {
    hide InOrder, Bucket;
    forall f ensures InOrder(Bucket(l', f), p') {
      OthersKeepOrder(Bucket(l, f), p, p', key);
    }
  }

  lemma SameIndex(l: Lfu, l': Lfu, key: string)
    requires Indexed(l) && LeastIsMin(l) && key in l.counts && l.counts[key] <= 2
    requires l'.counts == l.counts[key := 1] && l'.minFreq == l.minFreq
    requires forall f :: Bucket(l', f) == Bucket(l, f)
    ensures Indexed(l') && LeastIsMin(l')
  {
  }

  // ---- Every step, and every run ----

  /** Overwriting a line is kept to the first bucket. */
  predicate Proper(l: Lfu, op: Op) {
    op.DoPut? && op.key in l.counts ==> l.counts[op.key] <= 2
  }

  lemma StepOk(l: Lfu, capacity: int, p: Plain, now: nat, op: Op)
    requires Ok(l, capacity) && Agrees(l, p, now) && Proper(l, op)
    ensures var (l', r) := Step(l, capacity, op);
            PlainAllows(p, capacity, op, r) && Ok(l', capacity) &&
            Agrees(l', PlainAfter(p, now, capacity, op, r), now + 1)
  {
    hide Indexed, LeastIsMin, InOrder, Bucket, UpdateFreq, Popped;
    assert |l.counts| == |l.counts.Keys| == |p|;
    match op
    case DoGet(key) =>
      if key in l.counts {
        GetIndexed(l, key);
        GetLeast(l, key);
        forall f ensures InOrder(Bucket(Get(l, key).0, f), PlainAfter(p, now, capacity, op, Hit)) {
          GetInOrder(l, p, now, capacity, key, f);
        }
      }
    case DoPut(key) =>
      if capacity > 0 && key in l.counts {
        OverwriteOk(l, p, now, key);
      } else if capacity > 0 && |l.counts| >= capacity {
        HeadIsVictim(l, p, now);
        PopIndexed(l, p, now);
        PopAgrees(l, p, now);
        InsertOk(Popped(l), p - {Bucket(l, l.minFreq)[0]}, now, key);
      } else if capacity > 0 {
        InsertOk(l, p, now, key);
      }
  }

  lemma InsertOk(l: Lfu, p: Plain, now: nat, key: string)
    requires Indexed(l) && Agrees(l, p, now) && key !in l.counts
    ensures Indexed(Insert(l, key, 1)) && LeastIsMin(Insert(l, key, 1))
    ensures Agrees(Insert(l, key, 1), p[key := Entry(0, now)], now + 1)
  {
    hide InOrder, Indexed, LeastIsMin;
    InsertIndexed(l, key);
    forall f ensures InOrder(Bucket(Insert(l, key, 1), f), p[key := Entry(0, now)]) {
      InsertInOrder(l, p, now, key, f);
    }
  }

  /** The results of a run of operations. */
  function Results(l: Lfu, capacity: int, ops: seq<Op>): seq<Result>
    decreases |ops|
  {
    if ops == [] then []
    else
      var (l', r) := Step(l, capacity, ops[0]);
      [r] + Results(l', capacity, ops[1..])
  }

  function AfterAll(l: Lfu, capacity: int, ops: seq<Op>): Lfu
    decreases |ops|
  {
    if ops == [] then l else AfterAll(Step(l, capacity, ops[0]).0, capacity, ops[1..])
  }

  predicate AllProper(l: Lfu, capacity: int, ops: seq<Op>)
    decreases |ops|
  {
    ops == [] || (Proper(l, ops[0]) && AllProper(Step(l, capacity, ops[0]).0, capacity, ops[1..]))
  }

  /** The plain cache can give these results. */
  predicate PlainGives(p: Plain, now: nat, capacity: int, ops: seq<Op>, rs: seq<Result>)
    decreases |ops|
  {
    if ops == [] then rs == []
    else
      rs != [] && PlainAllows(p, capacity, ops[0], rs[0]) &&
      PlainGives(PlainAfter(p, now, capacity, ops[0], rs[0]), now + 1, capacity, ops[1..], rs[1..])
  }

  lemma {:induction false} RunRefines(l: Lfu, p: Plain, now: nat, capacity: int, ops: seq<Op>)
    requires Ok(l, capacity) && Agrees(l, p, now) && AllProper(l, capacity, ops)
    ensures PlainGives(p, now, capacity, ops, Results(l, capacity, ops))
    ensures Ok(AfterAll(l, capacity, ops), capacity)
    decreases |ops|
  {
    hide Ok, Agrees, Step, PlainAllows, PlainAfter;
    if ops != [] {
      var (l', r) := Step(l, capacity, ops[0]);
      StepOk(l, capacity, p, now, ops[0]);
      RunRefines(l', PlainAfter(p, now, capacity, ops[0], r), now + 1, capacity, ops[1..]);
      assert ([r] + Results(l', capacity, ops[1..]))[1..] == Results(l', capacity, ops[1..]);
    }
  }

  /** From the empty cache, the buckets behave as the plain cache of counts does: same hits, and
      every eviction takes the key of least rank that has held it longest, and the index stays
      sound: each cached key in the one bucket of its rank, the cached minimum right, the size
      within the capacity. */
  lemma BucketsRefineCounts(capacity: int, ops: seq<Op>)
    requires AllProper(EmptyLfu, capacity, ops)
    ensures PlainGives(map[], 0, capacity, ops, Results(EmptyLfu, capacity, ops))
    ensures Ok(AfterAll(EmptyLfu, capacity, ops), capacity)
  {
    RunRefines(EmptyLfu, map[], 0, capacity, ops);
  }

  // ---- The classes ----

  class CacheLine {
    const key: string
    var value: string
    var accessCount: int

    constructor (key: string, value: string)
      ensures this.key == key && this.value == value && accessCount == 1
    {
      this.key, this.value, accessCount := key, value, 1;
    }

    method Touch()
      modifies `accessCount
      ensures accessCount == old(accessCount) + 1
    {
      accessCount := accessCount + 1;
    }
  }

  class LFUCache {
    const capacity: int
    var cache: map<string, CacheLine>
    var freqMap: map<int, seq<string>>
    var minFreq: int

    /** No line is cached under two keys. */
    ghost predicate Valid()
      reads this
    {
      forall k, k' | k in cache && k' in cache && k != k' :: cache[k] != cache[k']
    }

    ghost function Counts(): map<string, int>
      reads `cache, cache.Values
    {
      map k | k in cache :: cache[k].accessCount
    }

    ghost function Value(): Lfu
      reads this, cache.Values
    {
      Lfu(Counts(), freqMap, minFreq)
    }

    constructor (capacity: int)
      ensures Valid() && Value() == EmptyLfu && this.capacity == capacity && cache == map[]
    {
      this.capacity := capacity;
      cache, freqMap, minFreq := map[], map[], 0;
    }

    method AddToBucket(f: int, key: string)
      modifies `freqMap
      ensures freqMap == old(freqMap)[f := With(Listed(old(freqMap), f), key)]
    {
      if f !in freqMap {
        freqMap := freqMap[f := []];
      }
      freqMap := freqMap[f := With(freqMap[f], key)];
    }

    method UpdateFrequency(key: string, line: CacheLine)
      requires Valid()
      modifies `freqMap, `minFreq
      ensures Valid() && Value() == UpdateFreq(old(Value()), key, line.accessCount)
    {
      var oldFreq, newFreq := line.accessCount - 1, line.accessCount;
      if oldFreq in freqMap {
        freqMap := freqMap[oldFreq := Without(freqMap[oldFreq], key)];
        if freqMap[oldFreq] == [] && minFreq == oldFreq {
          minFreq := newFreq;
        }
      }
      AddToBucket(newFreq, key);
    }

    method Lookup(key: string) returns (line: CacheLine?)
      requires Valid()
      modifies this, cache.Values
      ensures Valid() && cache == old(cache)
      ensures Value() == Get(old(Value()), key).0
      ensures line == if key in cache then cache[key] else null
      ensures forall k | k in cache :: cache[k].value == old(cache[k].value)
    {
      if key !in cache {
        return null;
      }
      line := cache[key];
      UpdateFrequency(key, line);
      line.Touch();
    }

    method Evict() returns (r: Result)
      requires Valid()
      modifies `cache, `freqMap
      ensures Valid() && (Value(), r) == MakeRoom(old(Value()), capacity)
      ensures cache == if r.Evicted? then old(cache) - {r.key} else old(cache)
    {
      assert |Counts()| == |cache| by { assert Counts().Keys == cache.Keys; }
      if |cache| < capacity || minFreq !in freqMap || freqMap[minFreq] == [] {
        return Kept;
      }
      var victim := freqMap[minFreq][0];
      freqMap := freqMap[minFreq := freqMap[minFreq][1..]];
      r := if victim in cache then Evicted(victim) else Fault;
      cache := cache - {victim};
      assert Value() == Popped(old(Value())) by {
        assert Counts() == old(Counts()) - {victim};
      }
    }

    method Enter(key: string, line: CacheLine)
      requires Valid() && forall k | k in cache && k != key :: cache[k] != line
      modifies this
      ensures Valid() && Value() == Insert(old(Value()), key, line.accessCount)
      ensures cache == old(cache)[key := line]
    {
      cache := cache[key := line];
      assert Counts() == old(Counts())[key := line.accessCount];
      minFreq := 1;
      AddToBucket(1, key);
    }

    method Store(key: string, line: CacheLine) returns (r: Result)
      requires Valid() && forall k | k in cache && k != key :: cache[k] != line
      modifies this
      ensures Valid() && (Value(), r) == Put(old(Value()), capacity, key, line.accessCount)
      ensures r == Kept && capacity > 0 ==> cache == old(cache)[key := line]
      ensures r.Evicted? ==> cache == (old(cache) - {r.key})[key := line]
    {
      hide MakeRoom, UpdateFreq, Insert;
      assert Counts().Keys == cache.Keys;
      if capacity <= 0 {
        return Kept;
      }
      r := Kept;
      if key in cache {
        cache := cache[key := line];
        assert Counts() == old(Counts())[key := line.accessCount];
        UpdateFrequency(key, line);
      } else {
        r := Evict();
        if r.Fault? {
          return;
        }
        Enter(key, line);
      }
    }

    method Drop(key: string) returns (line: CacheLine?)
      requires Valid()
      modifies `cache
      ensures Valid() && Value() == Invalidate(old(Value()), key)
      ensures line == if key in old(cache) then old(cache)[key] else null
    {
      line := if key in cache then cache[key] else null;
      cache := cache - {key};
    }
  }
}
