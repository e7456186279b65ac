/** Which partitions a consumer of a group reads (src/nodes/queue_node.py:320-337). */
module RangeAssignment {
  import opened Sorting

  function IndexOf(members: seq<string>, consumer: string): (i: nat)
    requires members != []
    ensures i < |members|
    ensures consumer in members ==> members[i] == consumer
    ensures consumer !in members ==> i == 0
  {
    if consumer !in members || members[0] == consumer then 0 else 1 + IndexOf(members[1..], consumer)
  }

  function From(partitions: nat, total: nat, i: nat): nat
    requires total > 0
  {
    i * (partitions / total)
  }

  function To(partitions: nat, total: nat, i: nat): nat
    requires total > 0
  {
    if i == total - 1 then partitions else From(partitions, total, i) + partitions / total
  }

  function Span(partitions: nat, total: nat, i: nat): seq<nat>
    requires i < total
  {
    InOrder(partitions, total, i);
    seq(To(partitions, total, i) - From(partitions, total, i), j => From(partitions, total, i) + j)
  }

  function Assigned(partitions: nat, members: set<string>, consumer: string): seq<nat> {
    if members == {} then seq(partitions, j => j)
    else
      BeforeIsOrder();
      var sorted := Sorted(members, Before);
      Span(partitions, |sorted|, IndexOf(sorted, consumer))
  }

  /** The spans follow each other without a gap, from the first partition to the last. */
  lemma InOrder(partitions: nat, total: nat, i: nat)
    requires i < total
    ensures From(partitions, total, 0) == 0 && To(partitions, total, total - 1) == partitions
    ensures From(partitions, total, i) <= To(partitions, total, i) <= partitions
    ensures i + 1 < total ==> From(partitions, total, i + 1) == To(partitions, total, i)
  {
  }

  lemma SpanHolds(partitions: nat, total: nat, i: nat, p: nat)
    requires i < total
    ensures p in Span(partitions, total, i) <==> From(partitions, total, i) <= p < To(partitions, total, i)
  {
    var span, from := Span(partitions, total, i), From(partitions, total, i);
    if from <= p < To(partitions, total, i) {
      assert span[p - from] == p;
    }
  }

  lemma SpansApart(partitions: nat, total: nat, i: nat, j: nat)
    requires i < total && j < total
    ensures i < j ==> To(partitions, total, i) <= From(partitions, total, j)
  {
    if i < j {
      assert (i + 1) * (partitions / total) == i * (partitions / total) + partitions / total;
    }
  }

  lemma OwnerIndex(q: nat, total: nat, p: nat) returns (i: nat)
    requires total > 0
    ensures i < total && i * q <= p && (i < total - 1 ==> p < i * q + q)
  {
    i := 0;
    while i < total - 1 && i * q + q <= p
      invariant i < total && i * q <= p
    {
      assert (i + 1) * q == i * q + q;
      i := i + 1;
    }
  }

  /** Exactly one index has a partition in its span. */
  lemma OneSpan(partitions: nat, total: nat, p: nat) returns (i: nat)
    requires total > 0 && p < partitions
    ensures i < total && p in Span(partitions, total, i)
    ensures forall j | 0 <= j < total && p in Span(partitions, total, j) :: j == i
  {
    i := OwnerIndex(partitions / total, total, p);
    hide Span;
    SpanHolds(partitions, total, i, p);
    forall j | 0 <= j < total && p in Span(partitions, total, j) ensures j == i {
      SpanHolds(partitions, total, j, p);
      SpansApart(partitions, total, j, i);
      SpansApart(partitions, total, i, j);
    }
  }

  /** Every partition is read by exactly one member of the group. */
  lemma EveryPartitionOnce(partitions: nat, members: set<string>, p: nat)
    requires members != {} && p < partitions
    ensures exists c :: c in members && p in Assigned(partitions, members, c)
    ensures forall c, d | c in members && d in members && p in Assigned(partitions, members, c) &&
                          p in Assigned(partitions, members, d) :: c == d
  {
    BeforeIsOrder();
    var sorted := Sorted(members, Before);
    var i := OneSpan(partitions, |sorted|, p);
    var c := sorted[i];
    assert IndexOf(sorted, c) == i by {
      var k := IndexOf(sorted, c);
      assert sorted[k] == sorted[i] && !Before(sorted[k], sorted[i]);
    }
    assert p in Assigned(partitions, members, c);
  }

  /** A consumer's place among the members, by name: how many come before it. */
  function Place(members: set<string>, consumer: string): nat {
    |set m | m in members && Before(m, consumer)|
  }

  function Elements(r: seq<string>): set<string> {
    set x | x in r
  }

  lemma {:induction false} DistinctSize(r: seq<string>)
    requires forall i, j | 0 <= i < j < |r| :: r[i] != r[j]
    ensures |Elements(r)| == |r|
  {
    if r != [] {
      var front, last := r[..|r| - 1], r[|r| - 1];
      DistinctSize(front);
      assert r == front + [last];
      assert Elements(r) == Elements(front) + {last};
    }
  }

  /** In an ascending list, who comes before whom is who stands before whom. */
  lemma StandsBefore(r: seq<string>, i: nat, j: nat)
    requires Ascending(r, Before) && i < |r| && j < |r|
    ensures Before(r[j], r[i]) <==> j < i
  {
    if i < j {
      BeforeIsAsymmetric(r[i], r[j]);
    } else if i == j && Before(r[i], r[i]) {
      BeforeIsAsymmetric(r[i], r[i]);
    }
  }

  lemma InFrontOf(r: seq<string>, i: nat, m: string)
    requires Ascending(r, Before) && i < |r|
    ensures m in r[..i] <==> m in r && Before(m, r[i])
  {
    hide Before, Ascending;
    if m in r {
      var j :| 0 <= j < |r| && r[j] == m;
      StandsBefore(r, i, j);
      assert j < i ==> r[..i][j] == m;
      if m in r[..i] {
        var k :| 0 <= k < i && r[..i][k] == m;
        StandsBefore(r, i, k);
      }
    }
  }

  /** In the sorted list of the members, everyone stands at its place. */
  lemma StandsAtPlace(members: set<string>, consumer: string)
    requires consumer in members && IsOrder(Before)
    ensures IndexOf(Sorted(members, Before), consumer) == Place(members, consumer) < |members|
  {
    hide IsOrder, Before, Sorted;
    var r := Sorted(members, Before);
    var i := IndexOf(r, consumer);
    forall j, k | 0 <= j < k < |r| ensures r[j] != r[k] {
      StandsBefore(r, k, j);
      StandsBefore(r, j, j);
    }
    forall m ensures m in r[..i] <==> m in members && Before(m, consumer) {
      InFrontOf(r, i, m);
    }
    assert (set m | m in members && Before(m, consumer)) == Elements(r[..i]);
    DistinctSize(r[..i]);
  }

  /** The partition is in the range of the consumer: with equal shares in the order of the names, it
      is in the consumer's share, or the consumer is the last and it is in the rest. */
  predicate Reads(partitions: nat, members: set<string>, consumer: string, p: nat)
    requires members != {}
  {
    var share, place := partitions / |members|, Place(members, consumer);
    place * share <= p < partitions && (place == |members| - 1 || p < place * share + share)
  }

  lemma AssignedExactly(partitions: nat, members: set<string>, consumer: string)
    requires consumer in members
    ensures forall p: nat :: p in Assigned(partitions, members, consumer) <==>
                             Reads(partitions, members, consumer, p)
  {
    BeforeIsOrder();
    StandsAtPlace(members, consumer);
    var total, i := |members|, Place(members, consumer);
    InOrder(partitions, total, i);
    forall p: nat ensures p in Assigned(partitions, members, consumer) <==>
                          Reads(partitions, members, consumer, p)
    {
      SpanHolds(partitions, total, i, p);
    }
  }

  /** Every member but the last gets the quotient, the last one the remainder as well; with more
      members than partitions that leaves everything to the last. */
  lemma SpanSizes(partitions: nat, total: nat, i: nat)
    requires i < total
    ensures |Span(partitions, total, i)| ==
            partitions / total + if i == total - 1 then partitions % total else 0
  {
  }

  /** A consumer outside the group reads what the first member of the group, by name, reads. */
  lemma OutsiderReadsFirstSpan(partitions: nat, members: set<string>, consumer: string)
    requires members != {} && consumer !in members
    ensures exists c :: c in members && (forall d | d in members && d != c :: Before(c, d)) &&
                        Assigned(partitions, members, consumer) == Assigned(partitions, members, c)
  {
    BeforeIsOrder();
    var sorted := Sorted(members, Before);
    var c := sorted[0];
    forall d | d in members && d != c ensures Before(c, d) {
      var j :| 0 <= j < |sorted| && sorted[j] == d;
    }
    assert Assigned(partitions, members, consumer) == Assigned(partitions, members, c);
  }
}

/** A queue node: the in-flight map and counters of src/nodes/queue_node.py:106-337 around the
    lists of a shared store. */
module QueueNodes {
  import opened Wrappers
  import opened QueueLifecycle
  import RangeAssignment

  datatype Produced = Stored(id: MessageId) | TooLarge | NoPartitions

  /** The pops of one consume call: one per partition, in order, until the batch is full. */
  function TakeEach(st: Store, lo: Local, topic: string, partitions: seq<nat>, batch: int)
    : (Store, Local, seq<Message>)
    decreases |partitions|
  {
    if partitions == [] || batch <= 0 then (st, lo, [])
    else
      var k := Key(topic, partitions[0]);
      var got := List(st.lists, k) != [];
      var (st', lo') := Take(st, lo, k);
      var (st'', lo'', rest) := TakeEach(st', lo', topic, partitions[1..], if got then batch - 1 else batch);
      (st'', lo'', (if got then [List(st.lists, k)[0].(partition := k.partition)] else []) + rest)
  }

  /** The pops made so far, and those still to be made, add up to all of them. */
  ghost predicate Underway(st: Store, lo: Local, topic: string, partitions: seq<nat>, i: nat, batch: int,
                           messages: seq<Message>, all: (Store, Local, seq<Message>))
  {
    i <= |partitions| &&
    var (st', lo', rest) := TakeEach(st, lo, topic, partitions[i..], batch - |messages|);
    all == (st', lo', messages + rest)
  }

  lemma NoneYet(st: Store, lo: Local, topic: string, partitions: seq<nat>, batch: int)
    ensures Underway(st, lo, topic, partitions, 0, batch, [], TakeEach(st, lo, topic, partitions, batch))
  {
    var (_, _, rest) := TakeEach(st, lo, topic, partitions, batch);
    assert partitions[0..] == partitions && [] + rest == rest;
  }

  lemma OnePop(st: Store, lo: Local, topic: string, partitions: seq<nat>, i: nat, batch: int,
               messages: seq<Message>, all: (Store, Local, seq<Message>))
    requires Underway(st, lo, topic, partitions, i, batch, messages, all)
    ensures i == |partitions| || batch <= |messages| ==> all == (st, lo, messages)
    ensures i < |partitions| && batch > |messages| ==>
            var k := Key(topic, partitions[i]);
            var (st', lo') := Take(st, lo, k);
            Underway(st', lo', topic, partitions, i + 1, batch,
                     if List(st.lists, k) == [] then messages
                     else messages + [List(st.lists, k)[0].(partition := k.partition)], all)
  {
    if i < |partitions| && batch > |messages| {
      var k := Key(topic, partitions[i]);
      var (st', lo') := Take(st, lo, k);
      assert partitions[i..][1..] == partitions[i + 1..];
      if List(st.lists, k) != [] {
        var more := [List(st.lists, k)[0].(partition := k.partition)];
        var rest := TakeEach(st', lo', topic, partitions[i + 1..], batch - |messages| - 1).2;
        assert messages + (more + rest) == messages + more + rest;
      } else {
        var rest := TakeEach(st', lo', topic, partitions[i + 1..], batch - |messages|).2;
        assert [] + rest == rest;
      }
    } else {
      assert messages + [] == messages;
    }
  }

  function Carry(inFlight: map<MessageId, Message>, got: seq<Message>): map<MessageId, Message>
    decreases |got|
  {
    if got == [] then inFlight else Carry(inFlight[got[0].id := got[0]], got[1..])
  }

  /** The messages come from the partitions named, in that order and at most one for each mention. */
  predicate OnePerMention(got: seq<Message>, partitions: seq<nat>)
    decreases |partitions|
  {
    got == [] ||
    (partitions != [] &&
     ((got[0].partition == partitions[0] && OnePerMention(got[1..], partitions[1..])) ||
      OnePerMention(got, partitions[1..])))
  }

  ghost predicate FromLists(got: seq<Message>, st: Store, topic: string) {
    forall m | m in got ::
      exists x :: x in List(st.lists, Key(topic, m.partition)) && m == x.(partition := m.partition)
  }

  lemma TakeLists(st: Store, lo: Local, k: Key, got: seq<Message>)
    requires FromLists(got, Take(st, lo, k).0, k.topic)
    ensures FromLists(got, st, k.topic)
    ensures List(st.lists, k) != [] ==>
            FromLists([List(st.lists, k)[0].(partition := k.partition)] + got, st, k.topic)
  {
    var t := Take(st, lo, k).0;
    forall m | m in got
      ensures exists x :: x in List(st.lists, Key(k.topic, m.partition)) && m == x.(partition := m.partition)
    {
      var x :| x in List(t.lists, Key(k.topic, m.partition)) && m == x.(partition := m.partition);
      assert x in List(st.lists, Key(k.topic, m.partition));
    }
    var l := List(st.lists, k);
    assert l != [] ==> l[0] in l;
  }

  /** What consume returns is what it put in flight: messages of the partitions named, at most one for
      each mention, at most as many as the batch holds, all taken from the lists. */
  lemma {:induction false} TakenAreInFlight(st: Store, lo: Local, topic: string, partitions: seq<nat>,
                                            batch: int)
    ensures var (st', lo', got) := TakeEach(st, lo, topic, partitions, batch);
            lo' == lo.(inFlight := Carry(lo.inFlight, got), consumed := lo.consumed + |got|) &&
            OnePerMention(got, partitions) && |got| <= |partitions| && (|got| <= batch || got == []) &&
            FromLists(got, st, topic)
    decreases |partitions|
  {
    if partitions != [] && batch > 0 {
      hide FromLists;
      var k := Key(topic, partitions[0]);
      var l := List(st.lists, k);
      var (st', lo') := Take(st, lo, k);
      var left := if l != [] then batch - 1 else batch;
      var rest := TakeEach(st', lo', topic, partitions[1..], left).2;
      TakenAreInFlight(st', lo', topic, partitions[1..], left);
      TakeLists(st, lo, k, rest);
      if l != [] {
        var first := l[0].(partition := k.partition);
        assert ([first] + rest)[0] == first && ([first] + rest)[1..] == rest;
      } else {
        assert [] + rest == rest;
      }
    }
  }

  /** A consume call touches no list but those named. */
  lemma {:induction false} OnlyNamed(st: Store, lo: Local, topic: string, partitions: seq<nat>, batch: int)
    ensures forall k: Key | k.topic != topic || k.partition !in partitions ::
              List(TakeEach(st, lo, topic, partitions, batch).0.lists, k) == List(st.lists, k)
    decreases |partitions|
  {
    if partitions != [] && batch > 0 {
      var k := Key(topic, partitions[0]);
      var (st', lo') := Take(st, lo, k);
      OnlyNamed(st', lo', topic, partitions[1..], if List(st.lists, k) != [] then batch - 1 else batch);
    }
  }

  lemma {:induction false} NeverLonger(st: Store, lo: Local, topic: string, partitions: seq<nat>, batch: int)
    ensures forall k: Key :: |List(TakeEach(st, lo, topic, partitions, batch).0.lists, k)| <= |List(st.lists, k)|
    decreases |partitions|
  {
    if partitions != [] && batch > 0 {
      var k := Key(topic, partitions[0]);
      var (st', lo') := Take(st, lo, k);
      NeverLonger(st', lo', topic, partitions[1..], if List(st.lists, k) != [] then batch - 1 else batch);
    }
  }

  /** Unless it fills the batch, it takes from every list named that has something. */
  lemma {:induction false} AllNamed(st: Store, lo: Local, topic: string, partitions: seq<nat>, batch: int)
    ensures var (st', lo', got) := TakeEach(st, lo, topic, partitions, batch);
            |got| < batch ==>
            forall p | p in partitions ::
              List(st.lists, Key(topic, p)) == [] ||
              |List(st'.lists, Key(topic, p))| < |List(st.lists, Key(topic, p))|
    decreases |partitions|
  {
    if partitions != [] && batch > 0 {
      var k := Key(topic, partitions[0]);
      var (st', lo') := Take(st, lo, k);
      var left := if List(st.lists, k) != [] then batch - 1 else batch;
      AllNamed(st', lo', topic, partitions[1..], left);
      NeverLonger(st', lo', topic, partitions[1..], left);
      var (st'', _, got) := TakeEach(st, lo, topic, partitions, batch);
      forall p | p in partitions && |got| < batch
        ensures List(st.lists, Key(topic, p)) == [] ||
                |List(st''.lists, Key(topic, p))| < |List(st.lists, Key(topic, p))|
      {
        if p != partitions[0] {
          assert p in partitions[1..] && List(st'.lists, Key(topic, p)) == List(st.lists, Key(topic, p));
        }
      }
    }
  }

  lemma OneTake(n: nat, acts: seq<Action>, max: int, take: Action)
    requires Runs(n, acts, max) && Enabled(After(n, acts, max), take) && take.DoTake?
    ensures var s := After(n, acts, max);
            var (st, lo) := Take(s.store, s.nodes[take.i], take.k);
            Runs(n, acts + [take], max) &&
            After(n, acts + [take], max) == s.(store := st, nodes := s.nodes[take.i := lo])
  {
  }

  /** A consume call is a run of takes: nothing that holds of every run is lost by it. */
  lemma {:induction false} ConsumeIsTakes(n: nat, acts: seq<Action>, max: int, i: nat, topic: string,
                                          partitions: seq<nat>, batch: int) returns (more: seq<Action>)
    requires Runs(n, acts, max) && i < |After(n, acts, max).nodes|
    ensures forall a | a in more :: a.DoTake? && a.i == i
    ensures Runs(n, acts + more, max)
    ensures var s := After(n, acts, max);
            var (st, lo, got) := TakeEach(s.store, s.nodes[i], topic, partitions, batch);
            After(n, acts + more, max) == s.(store := st, nodes := s.nodes[i := lo])
    decreases |partitions|
  {
    var s := After(n, acts, max);
    if partitions == [] || batch <= 0 {
      more := [];
      assert acts + more == acts && s.nodes[i := s.nodes[i]] == s.nodes;
    } else {
      var k := Key(topic, partitions[0]);
      var take := DoTake(i, k);
      OneTake(n, acts, max, take);
      hide Take, Runs, After, Next, Enabled;
      var (st', lo') := Take(s.store, s.nodes[i], k);
      var left := if List(s.store.lists, k) != [] then batch - 1 else batch;
      var rest := ConsumeIsTakes(n, acts + [take], max, i, topic, partitions[1..], left);
      more := [take] + rest;
      assert acts + more == acts + [take] + rest;
      var lo := TakeEach(st', lo', topic, partitions[1..], left).1;
      assert s.nodes[i := lo'][i := lo] == s.nodes[i := lo];
    }
  }

  /** The lists that all nodes share. */
  class SharedStore {
    var lists: map<Key, seq<Message>>
    var dead: map<Key, seq<Message>>

    constructor ()
      ensures lists == map[] && dead == map[]
    {
      lists, dead := map[], map[];
    }

    ghost function Value(): Store
      reads this
    {
      Store(lists, dead)
    }

    method Rpush(k: Key, m: Message)
      modifies `lists
      ensures lists == old(lists)[k := List(old(lists), k) + [m]]
    {
      lists := lists[k := List(lists, k) + [m]];
    }

    method Lpush(k: Key, m: Message)
      modifies `lists
      ensures lists == old(lists)[k := [m] + List(old(lists), k)]
    {
      lists := lists[k := [m] + List(lists, k)];
    }

    method Lpop(k: Key) returns (m: Option<Message>)
      modifies `lists
      ensures m == if List(old(lists), k) == [] then None else Some(List(old(lists), k)[0])
      ensures lists == if m.None? then old(lists) else old(lists)[k := List(old(lists), k)[1..]]
    {
      var l := List(lists, k);
      if l == [] {
        return None;
      }
      lists := lists[k := l[1..]];
      return Some(l[0]);
    }

    method RpushDead(k: Key, m: Message)
      modifies `dead
      ensures dead == old(dead)[k := List(old(dead), k) + [m]]
    {
      dead := dead[k := List(dead, k) + [m]];
    }
  }

  class DistributedQueue {
    const store: SharedStore
    const numPartitions: nat
    const maxMessageSize: nat
    const maxRetries: int
    const hash: string -> nat
    var inFlight: map<MessageId, Message>
    var messagesProduced: nat
    var messagesConsumed: nat
    var messagesAcked: nat
    var messagesNacked: nat
    var groups: map<string, set<string>>

    ghost function Here(): Local
      reads this
    {
      Local(inFlight, messagesProduced, messagesConsumed, messagesAcked, messagesNacked)
    }

    constructor (store: SharedStore, numPartitions: nat, maxMessageSize: nat, maxRetries: int,
                 hash: string -> nat)
      ensures this.store == store && this.numPartitions == numPartitions && this.hash == hash
      ensures this.maxMessageSize == maxMessageSize && this.maxRetries == maxRetries
      ensures Here() == FreshLocal && groups == map[]
    {
      this.store, this.numPartitions, this.hash := store, numPartitions, hash;
      this.maxMessageSize, this.maxRetries := maxMessageSize, maxRetries;
      inFlight, groups := map[], map[];
      messagesProduced, messagesConsumed, messagesAcked, messagesNacked := 0, 0, 0, 0;
    }

    function PartitionOf(topic: string, key: string): (p: nat)
      requires numPartitions > 0
      ensures p < numPartitions
      ensures hash(topic + ":" + key) == hash(topic + ":" + key) / numPartitions * numPartitions + p
    {
      hash(topic + ":" + key) % numPartitions
    }

    /** The id and the size of the serialized message are the caller's: both are made outside
        the model. An empty key counts as none. */
    method Produce(topic: string, payload: string, key: Option<string>, id: MessageId, size: nat)
      returns (r: Produced)
      modifies this, store
      ensures r == if numPartitions == 0 then NoPartitions
                   else if size > maxMessageSize then TooLarge else Stored(id)
      ensures r.Stored? ==>
              var hashed := if key.None? || key.value == "" then id else key.value;
              (store.Value(), Here()) ==
              old(QueueLifecycle.Produce(store.Value(), Here(),
                                         Message(id, topic, payload, PartitionOf(topic, hashed), 0)))
      ensures !r.Stored? ==> store.Value() == old(store.Value()) && Here() == old(Here())
      ensures groups == old(groups)
    {
      if numPartitions == 0 {
        return NoPartitions;
      }
      var hashed := if key.None? || key.value == "" then id else key.value;
      var partition := PartitionOf(topic, hashed);
      var m := Message(id, topic, payload, partition, 0);
      if size > maxMessageSize {
        return TooLarge;
      }
      store.Rpush(Key(topic, partition), m);
      messagesProduced := messagesProduced + 1;
      return Stored(id);
    }

    function AssignedPartitions(group: string, consumer: string): seq<nat>
      reads this
    {
      RangeAssignment.Assigned(numPartitions, if group in groups then groups[group] else {}, consumer)
    }

    /** Whatever groups a node knows, each partition is assigned to exactly one member of a group. */
    lemma OneReader(group: string, p: nat)
      requires group in groups && groups[group] != {} && p < numPartitions
      ensures exists c :: c in groups[group] && p in AssignedPartitions(group, c)
      ensures forall c, d | c in groups[group] && d in groups[group] &&
                            p in AssignedPartitions(group, c) && p in AssignedPartitions(group, d) :: c == d
    {
      hide RangeAssignment.Assigned;
      RangeAssignment.EveryPartitionOnce(numPartitions, groups[group], p);
      var c :| c in groups[group] && p in RangeAssignment.Assigned(numPartitions, groups[group], c);
      assert p in AssignedPartitions(group, c);
    }

    method Deliver(topic: string, partition: nat) returns (m: Option<Message>)
      modifies this, store
      ensures var l := List(old(store.Value()).lists, Key(topic, partition));
              m == if l == [] then None else Some(l[0].(partition := partition))
      ensures (store.Value(), Here()) == old(Take(store.Value(), Here(), Key(topic, partition)))
      ensures groups == old(groups)
    {
      var raw := store.Lpop(Key(topic, partition));
      if raw.None? {
        return None;
      }
      var message := raw.value.(partition := partition);
      inFlight := inFlight[message.id := message];
      messagesConsumed := messagesConsumed + 1;
      return Some(message);
    }

    /** The partition is named, or, when none is, in the consumer's range among its group. */
    ghost predicate MayRead(partitions: seq<nat>, group: string, consumer: string, p: nat)
      reads this
    {
      if partitions != [] then p in partitions
      else group in groups && groups[group] != {} &&
           RangeAssignment.Reads(numPartitions, groups[group], consumer, p)
    }

    lemma MineAre(partitions: seq<nat>, group: string, consumer: string, mine: seq<nat>)
      requires group in groups && consumer in groups[group]
      requires mine == if partitions == [] then AssignedPartitions(group, consumer) else partitions
      ensures forall p: nat :: p in mine <==> MayRead(partitions, group, consumer, p)
    {
      hide RangeAssignment.Assigned, RangeAssignment.Reads;
      RangeAssignment.AssignedExactly(numPartitions, groups[group], consumer);
    }

    method Consume(topic: string, group: string, consumer: string, partitions: seq<nat>, batchSize: int)
      returns (messages: seq<Message>)
      modifies this, store
      ensures groups == old(groups)[group := (if group in old(groups) then old(groups)[group] else {}) +
                                             {consumer}]
      ensures (store.Value(), Here(), messages) ==
              TakeEach(old(store.Value()), old(Here()), topic,
                       if partitions == [] then AssignedPartitions(group, consumer) else partitions, batchSize)
      ensures forall k: Key | List(store.lists, k) != List(old(store.lists), k) ::
                k.topic == topic && MayRead(partitions, group, consumer, k.partition)
      ensures |messages| < batchSize ==>
                forall p: nat | MayRead(partitions, group, consumer, p) ::
                  List(old(store.lists), Key(topic, p)) == [] ||
                  |List(store.lists, Key(topic, p))| < |List(old(store.lists), Key(topic, p))|
    {
      groups := groups[group := (if group in groups then groups[group] else {}) + {consumer}];
      ghost var joined := groups;
      var mine := if partitions == [] then AssignedPartitions(group, consumer) else partitions;
      messages := [];
      hide TakeEach, Underway, Take, List, RangeAssignment.Assigned;
      ghost var all := TakeEach(store.Value(), Here(), topic, mine, batchSize);
      NoneYet(store.Value(), Here(), topic, mine, batchSize);
      var i := 0;
      while i < |mine| && |messages| < batchSize
        invariant i <= |mine| && groups == joined
        invariant Underway(store.Value(), Here(), topic, mine, i, batchSize, messages, all)
      {
        OnePop(store.Value(), Here(), topic, mine, i, batchSize, messages, all);
        var m := Deliver(topic, mine[i]);
        if m.Some? {
          messages := messages + [m.value];
        }
        i := i + 1;
      }
      OnePop(store.Value(), Here(), topic, mine, i, batchSize, messages, all);
      hide *;
      OnlyNamed(old(store.Value()), old(Here()), topic, mine, batchSize);
      AllNamed(old(store.Value()), old(Here()), topic, mine, batchSize);
      MineAre(partitions, group, consumer, mine);
    }

    method Acknowledge(id: MessageId) returns (ok: bool)
      modifies this
      ensures ok == (id in old(inFlight))
      ensures Here() == Ack(old(Here()), id) && groups == old(groups)
    {
      if id in inFlight {
        inFlight := inFlight - {id};
        messagesAcked := messagesAcked + 1;
        return true;
      }
      return false;
    }

    method NegativeAcknowledge(id: MessageId) returns (ok: bool)
      modifies this, store
      ensures ok == (id in old(inFlight))
      ensures (store.Value(), Here()) == Nack(old(store.Value()), old(Here()), id, maxRetries)
      ensures groups == old(groups)
    {
      if id !in inFlight {
        return false;
      }
      var m := inFlight[id];
      inFlight := inFlight - {id};
      m := m.(retries := m.retries + 1);
      messagesNacked := messagesNacked + 1;
      if m.retries >= maxRetries {
        store.RpushDead(Key(m.topic, m.partition), m);
      } else {
        store.Lpush(Key(m.topic, m.partition), m);
      }
      return true;
    }
  }
}
