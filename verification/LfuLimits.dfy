/** Where the frequency buckets of LfuCaches keep their promises and where they do not. */
module LfuLimits {
  import opened LfuCaches

  // ---- The index ----

  /** Overwriting a cached line keeps the index exactly when the old line was in the first
      bucket. */
  lemma OverwriteKeepsIndex(l: Lfu, key: string)
    requires Indexed(l) && LeastIsMin(l) && key in l.counts
    ensures Indexed(Overwritten(l, key)) <==> l.counts[key] <= 2
  {
    if l.counts[key] <= 2 {
      OverwriteKeepsBuckets(l, key);
      SameIndex(l, Overwritten(l, key), key);
    } else {
      var f := Rank(l.counts[key]);
      BucketsAfter(l.(counts := l.counts[key := 1]), key, 1, f);
      assert key in Bucket(l, f);
      assert key in Bucket(Overwritten(l, key), f) && Rank(Overwritten(l, key).counts[key]) != f;
    }
  }

  /** Invalidating keeps the index exactly when there is nothing to invalidate. */
  lemma InvalidateKeepsIndex(l: Lfu, key: string)
    requires Indexed(l)
    ensures Indexed(Invalidate(l, key)) <==> key !in l.counts
  {
    if key in l.counts {
      assert key in Bucket(l, Rank(l.counts[key]));
      assert key in Bucket(Invalidate(l, key), Rank(l.counts[key]));
    } else {
      assert Invalidate(l, key) == l;
    }
  }

  /** Every state of the run has a sound index. */
  ghost predicate SoundThroughout(l: Lfu, capacity: int, ops: seq<Op>)
    decreases |ops|
  {
    Indexed(l) && (ops == [] || SoundThroughout(Step(l, capacity, ops[0]).0, capacity, ops[1..]))
  }

  lemma {:induction false} SoundExactly(l: Lfu, p: Plain, now: nat, capacity: int, ops: seq<Op>)
    requires Ok(l, capacity) && Agrees(l, p, now)
    ensures AllProper(l, capacity, ops) <==> SoundThroughout(l, capacity, ops)
    decreases |ops|
  {
    if ops != [] {
      var op := ops[0];
      if Proper(l, op) {
        hide Indexed, LeastIsMin, Agrees, Step, PlainAfter;
        StepOk(l, capacity, p, now, op);
        var (l', r) := Step(l, capacity, op);
        SoundExactly(l', PlainAfter(p, now, capacity, op, r), now + 1, capacity, ops[1..]);
      } else {
        hide Indexed, LeastIsMin, Agrees, UpdateFreq;
        assert |l.counts| > 0 && capacity > 0;
        OverwriteKeepsIndex(l, op.key);
        assert Step(l, capacity, op).0 == Overwritten(l, op.key);
      }
    }
  }

  /** The condition under which the buckets refine the plain cache is exact: the index stays sound
      throughout a run of gets and puts if and only if no put overwrites a key that was found more
      than once. */
  lemma IndexSoundExactly(capacity: int, ops: seq<Op>)
    ensures AllProper(EmptyLfu, capacity, ops) <==> SoundThroughout(EmptyLfu, capacity, ops)
  {
    SoundExactly(EmptyLfu, map[], 0, capacity, ops);
  }

  // ---- The exception of put ----

  /** Put raises exactly when the cache is full, the key is new, and the oldest key of the bucket
      with the cached minimum is no longer cached. Nothing is stored or removed then, only that
      bucket entry is gone. */
  lemma PutRaisesExactly(l: Lfu, capacity: int, key: string, count: int)
    ensures Put(l, capacity, key, count).1 == Fault <==>
            capacity > 0 && key !in l.counts && |l.counts| >= capacity &&
            Bucket(l, l.minFreq) != [] && Bucket(l, l.minFreq)[0] !in l.counts
    ensures Put(l, capacity, key, count).1 == Fault ==>
            Put(l, capacity, key, count).0.counts == l.counts &&
            forall f :: Bucket(Put(l, capacity, key, count).0, f) ==
                        if f == l.minFreq then Bucket(l, f)[1..] else Bucket(l, f)
  {
  }

  lemma {:induction false} PlainNeverFaults(p: Plain, now: nat, capacity: int, ops: seq<Op>, rs: seq<Result>)
    requires PlainGives(p, now, capacity, ops, rs)
    ensures Fault !in rs
    decreases |ops|
  {
    if ops != [] {
      PlainNeverFaults(PlainAfter(p, now, capacity, ops[0], rs[0]), now + 1, capacity, ops[1..], rs[1..]);
      assert rs == [rs[0]] + rs[1..];
    }
  }

  /** No put raises in a run of gets and puts whose index stays sound. */
  lemma SoundRunsNeverRaise(capacity: int, ops: seq<Op>)
    requires SoundThroughout(EmptyLfu, capacity, ops)
    ensures Fault !in Results(EmptyLfu, capacity, ops)
  {
    IndexSoundExactly(capacity, ops);
    BucketsRefineCounts(capacity, ops);
    PlainNeverFaults(map[], 0, capacity, ops, Results(EmptyLfu, capacity, ops));
  }

  // ---- Least frequently used ----

  lemma RanksBelow(l: Lfu, capacity: int, victim: string, k: string)
    requires Ok(l, capacity) && k in l.counts
    requires Bucket(l, l.minFreq) != [] && victim == Bucket(l, l.minFreq)[0]
    ensures victim in l.counts && Rank(l.counts[victim]) == l.minFreq <= Rank(l.counts[k])
  {
    assert victim in Bucket(l, l.minFreq);
    assert k in Bucket(l, Rank(l.counts[k]));
  }

  /** A put into a full cache evicts a key that was found least often exactly when no line is in the
      first bucket, or its oldest line was never found, or all of its lines were found once. (A
      line's count is one more than the times it was found.) */
  lemma VictimIsLeastUsed(l: Lfu, capacity: int, key: string, count: int)
    requires Ok(l, capacity) && key !in l.counts && |l.counts| >= capacity > 0
    ensures var r := Put(l, capacity, key, count).1;
            r.Evicted? && r.key in l.counts &&
            ((forall k | k in l.counts :: l.counts[r.key] <= l.counts[k]) <==>
             Bucket(l, 1) == [] || l.counts[Bucket(l, 1)[0]] == 1 ||
             forall k | k in Bucket(l, 1) :: l.counts[k] == 2)
  {
    hide Insert;
    assert l.counts != map[];
    var b := Bucket(l, l.minFreq);
    var victim := b[0];
    forall k | k in l.counts
      ensures victim in l.counts && Rank(l.counts[victim]) == l.minFreq <= Rank(l.counts[k])
      ensures l.counts[k] >= 1 && (k in Bucket(l, 1) <==> l.counts[k] <= 2)
    {
      RanksBelow(l, capacity, victim, k);
    }
    LowBucketsEmpty(l);
    assert Bucket(l, 1) != [] ==> l.minFreq == 1;
  }

  // ---- Runs that go wrong ----

  lemma Then(l: Lfu, capacity: int, op: Op, rest: seq<Op>, l': Lfu, r: Result, rs: seq<Result>)
    requires Step(l, capacity, op) == (l', r) && Results(l', capacity, rest) == rs
    ensures Results(l, capacity, [op] + rest) == [r] + rs
  {
    assert ([op] + rest)[1..] == rest;
  }

  lemma Finally(l: Lfu, capacity: int, op: Op, r: Result)
    requires Step(l, capacity, op).1 == r
    ensures Results(l, capacity, [op]) == [r]
  {
  }

  const A1 := Lfu(map["a" := 1], map[1 := ["a"]], 1)
  const A2 := Lfu(map["a" := 2], map[1 := ["a"]], 1)
  const A2B1 := Lfu(map["a" := 2, "b" := 1], map[1 := ["a", "b"]], 1)

  lemma PutFirst(capacity: int)
    requires capacity > 0
    ensures Step(EmptyLfu, capacity, DoPut("a")) == (A1, Kept)
  {
    assert With([], "a") == ["a"];
  }

  lemma GetFirst(capacity: int)
    ensures Step(A1, capacity, DoGet("a")) == (A2, Hit)
  {
    assert A1.counts["a" := 2] == A2.counts && A1.buckets[1 := ["a"]] == A1.buckets;
  }

  lemma PutSecond()
    ensures Step(A2, 2, DoPut("b")) == (A2B1, Kept)
  {
    assert With(["a"], "b") == ["a", "b"];
    assert A2.counts["b" := 1] == A2B1.counts && A2.buckets[1 := ["a", "b"]] == A2B1.buckets;
  }

  lemma PutThird()
    ensures Step(A2B1, 2, DoPut("c")).1 == Evicted("a")
  {
    assert A2B1.counts.Keys == {"a", "b"};
  }

  /** Of two keys the one that was read is thrown out. */
  lemma ReadKeyThrownOut()
    ensures Results(EmptyLfu, 2, [DoPut("a"), DoGet("a")] + [DoPut("b"), DoPut("c")]) ==
            [Kept, Hit] + [Kept, Evicted("a")]
  {
    PutFirst(2);
    GetFirst(2);
    PutSecond();
    PutThird();
    hide *;
    Finally(A2B1, 2, DoPut("c"), Evicted("a"));
    Then(A2, 2, DoPut("b"), [DoPut("c")], A2B1, Kept, [Evicted("a")]);
    var ops, rs := [DoPut("b")] + [DoPut("c")], [Kept] + [Evicted("a")];
    Then(A1, 2, DoGet("a"), ops, A2, Hit, rs);
    Then(EmptyLfu, 2, DoPut("a"), [DoGet("a")] + ops, A1, Kept, [Hit] + rs);
    Joined(DoPut("a"), DoGet("a"), ops);
    Joined(Kept, Hit, rs);
    assert ops == [DoPut("b"), DoPut("c")] && rs == [Kept, Evicted("a")];
  }

  lemma Joined<T>(a: T, b: T, rest: seq<T>)
    ensures [a] + ([b] + rest) == [a, b] + rest
  {
  }

  const A3 := Lfu(map["a" := 3], map[1 := [], 2 := ["a"]], 2)
  const AgainA := Lfu(map["a" := 1], map[1 := ["a"], 2 := ["a"]], 2)
  const StaleA := Lfu(map["b" := 1], map[1 := ["a", "b"], 2 := []], 1)

  lemma GetAgain()
    ensures Step(A2, 1, DoGet("a")) == (A3, Hit)
  {
    assert Without(["a"], "a") == [] && With([], "a") == ["a"];
    assert A2.counts["a" := 3] == A3.counts;
    assert A2.buckets[1 := []][2 := ["a"]] == A3.buckets;
  }

  lemma PutAgain()
    ensures Step(A3, 1, DoPut("a")) == (AgainA, Kept)
  {
    assert With([], "a") == ["a"];
    assert A3.counts["a" := 1] == AgainA.counts && A3.buckets[1 := ["a"]] == AgainA.buckets;
  }

  lemma PutOther()
    ensures Step(AgainA, 1, DoPut("b")) == (StaleA, Evicted("a"))
  {
    assert AgainA.counts.Keys == {"a"} && ["a"][1..] == [] && With(["a"], "b") == ["a", "b"];
    assert (AgainA.counts - {"a"})["b" := 1] == StaleA.counts;
    assert AgainA.buckets[2 := []][1 := ["a", "b"]] == StaleA.buckets;
  }

  lemma PutLast()
    ensures Step(StaleA, 1, DoPut("c")).1 == Fault
  {
    assert StaleA.counts.Keys == {"b"};
  }

  lemma AfterOverwrite()
    ensures Results(A3, 1, [DoPut("a"), DoPut("b"), DoPut("c")]) == [Kept, Evicted("a"), Fault]
  {
    PutAgain();
    PutOther();
    PutLast();
    hide *;
    Finally(StaleA, 1, DoPut("c"), Fault);
    Then(AgainA, 1, DoPut("b"), [DoPut("c")], StaleA, Evicted("a"), [Fault]);
    Then(A3, 1, DoPut("a"), [DoPut("b")] + [DoPut("c")], AgainA, Kept, [Evicted("a")] + [Fault]);
    Joined(DoPut("a"), DoPut("b"), [DoPut("c")]);
    Joined(Kept, Evicted("a"), [Fault]);
    assert [DoPut("a"), DoPut("b")] + [DoPut("c")] == [DoPut("a"), DoPut("b"), DoPut("c")];
    assert [Kept, Evicted("a")] + [Fault] == [Kept, Evicted("a"), Fault];
  }

  /** Overwriting a key that was found twice leads to the exception two puts later. */
  lemma OverwriteLeadsToFault()
    ensures Results(EmptyLfu, 1, [DoPut("a"), DoGet("a"), DoGet("a")] + [DoPut("a"), DoPut("b"), DoPut("c")]) ==
            [Kept, Hit, Hit] + [Kept, Evicted("a"), Fault]
  {
    PutFirst(1);
    GetFirst(1);
    GetAgain();
    AfterOverwrite();
    hide *;
    var ops, rs := [DoPut("a"), DoPut("b"), DoPut("c")], [Kept, Evicted("a"), Fault];
    Then(A2, 1, DoGet("a"), ops, A3, Hit, rs);
    Then(A1, 1, DoGet("a"), [DoGet("a")] + ops, A2, Hit, [Hit] + rs);
    Joined(DoGet("a"), DoGet("a"), ops);
    Joined(Hit, Hit, rs);
    Then(EmptyLfu, 1, DoPut("a"), [DoGet("a"), DoGet("a")] + ops, A1, Kept, [Hit, Hit] + rs);
    assert [DoPut("a")] + ([DoGet("a"), DoGet("a")] + ops) == [DoPut("a"), DoGet("a"), DoGet("a")] + ops;
    assert [Kept] + ([Hit, Hit] + rs) == [Kept, Hit, Hit] + rs;
  }

  const AB := Lfu(map["a" := 1, "b" := 1], map[1 := ["a", "b"]], 1)
  const GoneA := Lfu(map["b" := 1], map[1 := ["a", "b"]], 1)
  const StaleABC := Lfu(map["b" := 1, "c" := 1], map[1 := ["a", "b", "c"]], 1)

  lemma PutBoth()
    ensures Put(Put(EmptyLfu, 2, "a", 1).0, 2, "b", 1).0 == AB
  {
    PutFirst(2);
    assert With(["a"], "b") == ["a", "b"];
    assert A1.counts["b" := 1] == AB.counts && A1.buckets[1 := ["a", "b"]] == AB.buckets;
  }

  lemma InvalidateOne()
    ensures Put(Invalidate(AB, "a"), 2, "c", 1).0 == StaleABC
  {
    assert AB.counts - {"a"} == GoneA.counts;
    assert GoneA.counts.Keys == {"b"} && With(["a", "b"], "c") == ["a", "b", "c"];
    assert GoneA.counts["c" := 1] == StaleABC.counts;
    assert GoneA.buckets[1 := ["a", "b", "c"]] == StaleABC.buckets;
  }

  /** After an invalidation a put can raise: the stale key heads its bucket but is not cached. */
  lemma PutFailsAfterInvalidate()
    ensures var l := Put(Put(EmptyLfu, 2, "a", 1).0, 2, "b", 1).0;
            Put(Put(Invalidate(l, "a"), 2, "c", 1).0, 2, "d", 1).1 == Fault
  {
    PutBoth();
    InvalidateOne();
    hide Put;
    assert StaleABC.counts.Keys == {"b", "c"};
    PutRaisesExactly(StaleABC, 2, "d", 1);
  }
}
