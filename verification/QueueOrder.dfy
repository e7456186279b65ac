/** The order in which a partition hands out its messages. */
module QueueOrder {
  import opened QueueLifecycle

  /** The messages of a list that were never retried. */
  function Fresh(l: seq<Message>): seq<Message> {
    if l == [] then [] else (if l[0].retries == 0 then [l[0]] else []) + Fresh(l[1..])
  }

  lemma {:induction false} FreshConcat(a: seq<Message>, b: seq<Message>)
    ensures Fresh(a + b) == Fresh(a) + Fresh(b)
  {
    if a == [] {
      assert a + b == b;
    } else {
      FreshConcat(a[1..], b);
      assert (a + b)[0] == a[0] && (a + b)[1..] == a[1..] + b;
      var head := if a[0].retries == 0 then [a[0]] else [];
      assert head + (Fresh(a[1..]) + Fresh(b)) == head + Fresh(a[1..]) + Fresh(b);
    }
  }

  lemma FreshOne(m: Message)
    ensures Fresh([m]) == if m.retries == 0 then [m] else []
  {
  }

  /** The messages produced for k, in order. */
  function ProducedTo(acts: seq<Action>, k: Key): seq<Message> {
    if acts == [] then []
    else
      var last := acts[|acts| - 1];
      ProducedTo(acts[..|acts| - 1], k) +
      if last.DoProduce? && HomeOf(last.m) == k then [last.m] else []
  }

  /** The unretried message that an action takes from k. */
  function FirstTaken(s: System, a: Action, k: Key): seq<Message> {
    if a.DoTake? && a.k == k && List(s.store.lists, k) != [] then Fresh(List(s.store.lists, k)[..1]) else []
  }

  /** The message that an action takes from k, if it was never delivered before. */
  function FirstDelivery(n: nat, front: seq<Action>, max: int, a: Action, k: Key): seq<Message>
    requires Runs(n, front, max)
  {
    var l := List(After(n, front, max).store.lists, k);
    if a.DoTake? && a.k == k && l != [] && Deliveries(n, front, max, l[0].id) == 0 then [l[0]] else []
  }

  /** The messages of k in the order of their first deliveries. */
  function FirstDeliveries(n: nat, acts: seq<Action>, max: int, k: Key): seq<Message>
    requires Runs(n, acts, max)
  {
    if acts == [] then []
    else
      var front := acts[..|acts| - 1];
      FirstDeliveries(n, front, max, k) + FirstDelivery(n, front, max, acts[|acts| - 1], k)
  }

  /** In a list, the messages never delivered are those never retried. */
  lemma UnretriedIsUndelivered(n: nat, acts: seq<Action>, max: int, k: Key, m: Message)
    requires Runs(n, acts, max) && m in List(After(n, acts, max).store.lists, k)
    ensures m.retries == 0 <==> Deliveries(n, acts, max, m.id) == 0
  {
    DeliveriesBounded(n, acts, max, m.id);
    assert At(After(n, acts, max), m, InList(k));
  }

  lemma FirstTakenIsFirstDelivery(n: nat, front: seq<Action>, max: int, a: Action, k: Key)
    requires Runs(n, front, max)
    ensures FirstDelivery(n, front, max, a, k) == FirstTaken(After(n, front, max), a, k)
  {
    hide Runs, After, Deliveries;
    var l := List(After(n, front, max).store.lists, k);
    if l != [] {
      assert l[0] in l && l[..1] == [l[0]];
      FreshOne(l[0]);
      UnretriedIsUndelivered(n, front, max, k, l[0]);
    }
  }

  /** What one action adds to the productions and first deliveries of k. */
  lemma ActionInOrder(s: System, a: Action, max: int, k: Key)
    requires Enabled(s, a)
    ensures FirstTaken(s, a, k) + Fresh(List(Next(s, a, max).store.lists, k)) ==
            Fresh(List(s.store.lists, k)) +
            if a.DoProduce? && HomeOf(a.m) == k then [a.m] else []
  {
    hide Fresh;
    var l := List(s.store.lists, k);
    match a
    case DoProduce(i, m) =>
      if HomeOf(m) == k {
        FreshConcat(l, [m]);
        FreshOne(m);
      }
    case DoTake(i, u) =>
      if u == k && l != [] {
        FreshConcat(l[..1], l[1..]);
        assert l == l[..1] + l[1..];
      }
    case DoAck(i, id) =>
    case DoNack(i, id) =>
      if id in s.nodes[i].inFlight {
        var m := s.nodes[i].inFlight[id].(retries := s.nodes[i].inFlight[id].retries + 1);
        FreshConcat([m], l);
        FreshOne(m);
        assert [] + Fresh(l) == Fresh(l);
      }
  }

  lemma Regroup(first: seq<Message>, taken: seq<Message>, after: seq<Message>, before: seq<Message>,
                made: seq<Message>)
    requires taken + after == before + made
    ensures first + taken + after == first + before + made
  {
    assert first + taken + after == first + (taken + after);
    assert first + before + made == first + (before + made);
  }

  /** First come, first delivered: in every run the messages of a partition are delivered for the
      first time in the order in which they were produced, whatever is delivered again between. The
      rest of the productions are the messages of its list that were never delivered. */
  lemma {:induction false} FirstDeliveriesInOrder(n: nat, acts: seq<Action>, max: int, k: Key)
    requires Runs(n, acts, max)
    ensures FirstDeliveries(n, acts, max, k) + Fresh(List(After(n, acts, max).store.lists, k)) ==
            ProducedTo(acts, k)
    ensures forall m | m in List(After(n, acts, max).store.lists, k) ::
              m.retries == 0 <==> Deliveries(n, acts, max, m.id) == 0
    decreases |acts|
  {
    forall m | m in List(After(n, acts, max).store.lists, k)
      ensures m.retries == 0 <==> Deliveries(n, acts, max, m.id) == 0
    {
      UnretriedIsUndelivered(n, acts, max, k, m);
    }
    if acts != [] {
      hide Next, FirstTaken, FirstDelivery, List, Deliveries;
      var front, a := acts[..|acts| - 1], acts[|acts| - 1];
      var s := After(n, front, max);
      FirstDeliveriesInOrder(n, front, max, k);
      FirstTakenIsFirstDelivery(n, front, max, a, k);
      ActionInOrder(s, a, max, k);
      Regroup(FirstDeliveries(n, front, max, k), FirstTaken(s, a, k),
              Fresh(List(Next(s, a, max).store.lists, k)), Fresh(List(s.store.lists, k)),
              if a.DoProduce? && HomeOf(a.m) == k then [a.m] else []);
    }
  }

  /** Messages that come back for a retry stand before those never delivered. */
  predicate RetriedFirst(l: seq<Message>) {
    forall i, j | 0 <= i < j < |l| && l[j].retries > 0 :: l[i].retries > 0
  }

  lemma ActionRetriedFirst(s: System, a: Action, max: int, k: Key)
    requires Enabled(s, a) && RetriedFirst(List(s.store.lists, k))
    ensures RetriedFirst(List(Next(s, a, max).store.lists, k))
  {
    var l := List(s.store.lists, k);
    assert l != [] ==> forall i | 0 <= i < |l| - 1 :: l[1..][i] == l[i + 1];
  }

  /** In every run a retried message goes before all that were never delivered, in its partition. */
  lemma {:induction false} RetriesGoFirst(n: nat, acts: seq<Action>, max: int, k: Key)
    requires Runs(n, acts, max)
    ensures RetriedFirst(List(After(n, acts, max).store.lists, k))
    decreases |acts|
  {
    if acts != [] {
      hide Next, RetriedFirst;
      var front, a := acts[..|acts| - 1], acts[|acts| - 1];
      RetriesGoFirst(n, front, max, k);
      ActionRetriedFirst(After(n, front, max), a, max, k);
    }
  }
}
