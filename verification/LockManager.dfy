/** The lock manager objects (src/nodes/lock_manager.py). Their methods change the table,
    the reverse index and the graph in place, and do what LockTable says. */
module LockManagers {
  import opened Wrappers
  import opened Commands
  import opened LockTable
  import opened WaitGraph
  import opened LockWaits

  class WaitForGraph {
    var edges: Graph

    constructor ()
      ensures edges == map[]
    {
      edges := map[];
    }

    method AddWait(waiter: Client, holder: Client)
      modifies this
      ensures edges == old(edges)[waiter := At(old(edges), waiter) + {holder}]
    {
      edges := edges[waiter := At(edges, waiter) + {holder}];
    }

    /** Adds an edge to each holder in turn. */
    method AddWaits(waiter: Client, holders: set<Client>)
      requires holders != {}
      modifies this
      ensures edges == old(edges)[waiter := At(old(edges), waiter) + holders]
    {
      var rest := holders;
      while rest != {}
        invariant rest <= holders
        invariant edges == if rest == holders then old(edges)
                           else old(edges)[waiter := At(old(edges), waiter) + (holders - rest)]
        decreases rest
      {
        var holder :| holder in rest;
        AddWait(waiter, holder);
        assert holders - (rest - {holder}) == holders - rest + {holder};
        assert At(old(edges), waiter) + (holders - rest) + {holder} ==
               At(old(edges), waiter) + (holders - rest + {holder});
        assert holders - holders + {holder} == {holder};
        rest := rest - {holder};
      }
      assert holders - {} == holders;
    }

    method RemoveWait(waiter: Client)
      modifies this
      ensures edges == old(edges) - {waiter}
    {
      edges := edges - {waiter};
    }

    method RemoveNode(node: Client)
      modifies this
      ensures edges == LockTable.RemoveNode(old(edges), node)
      ensures forall w, h :: Edge(edges, w, h) <==> Edge(old(edges), w, h) && w != node && h != node
    {
      edges := edges - {node};
      var rest := edges.Keys;
      while rest != {}
        invariant rest <= edges.Keys == old(edges).Keys - {node}
        invariant forall w | w in edges ::
                    edges[w] == if w in rest then old(edges)[w] else old(edges)[w] - {node}
        decreases rest
      {
        var w :| w in rest;
        rest := rest - {w};
        edges := edges[w := edges[w] - {node}];
      }
    }

    method Detect() returns (cycle: Option<seq<Client>>)
      ensures cycle.Some? ==> IsCycle(edges, cycle.value)
      ensures cycle.None? ==> forall c :: !IsClosedWalk(edges, c)
    {
      cycle := DetectCycle(edges);
    }
  }

  // ---- Granting one request after another ----

  /** The state in the middle of a hand-over, when k requests have been granted. */
  function Handing(s: Locks, r: Resource, k: nat): Locks
    requires r in s.table && k <= |s.table[r].waiters|
  {
    if k == 0 then s else Hand(s, r, k)
  }

  function PopFirst(s: Locks, r: Resource): Locks
    requires r in s.table && s.table[r].waiters != []
  {
    s.(table := s.table[r := s.table[r].(waiters := s.table[r].waiters[1..])])
  }

  lemma ClientsMore(w: seq<Request>, k: nat)
    requires k < |w|
    ensures Clients(w[..k + 1]) == Clients(w[..k]) + {w[k].client}
  {
  }

  lemma HeldMore(held: map<Client, set<Resource>>, clients: set<Client>, c: Client, r: Resource)
    ensures HeldBy(held, clients, r)[c := At(HeldBy(held, clients, r), c) + {r}] ==
            HeldBy(held, clients + {c}, r)
  {
    var a := HeldBy(held, clients, r)[c := At(HeldBy(held, clients, r), c) + {r}];
    var b := HeldBy(held, clients + {c}, r);
    assert a.Keys == b.Keys;
    forall d | d in a ensures a[d] == b[d] {
      assert forall u :: u in a[d] <==> u in b[d];
    }
  }

  lemma HeldFirst(held: map<Client, set<Resource>>, c: Client, r: Resource)
    ensures held[c := At(held, c) + {r}] == HeldBy(held, {c}, r)
  {
    var a, b := held[c := At(held, c) + {r}], HeldBy(held, {c}, r);
    assert a.Keys == b.Keys;
    forall d | d in a ensures a[d] == b[d] {
      assert forall u :: u in a[d] <==> u in b[d];
    }
  }

  /** Popping the next request and acquiring for it grants exactly one more. */
  lemma HandOneMore(s: Locks, r: Resource, k: nat)
    requires r in s.table && s.table[r].holders == {} && k < |s.table[r].waiters|
    requires s.table[r].waiters[k].resource == r
    requires k > 0 ==> s.table[r].waiters[0].kind == Shared && s.table[r].waiters[k].kind == Shared
    ensures var w := s.table[r].waiters;
            var t := Handing(s, r, k);
            r in t.table && t.table[r].waiters == w[k..] &&
            CanAcquire(t.table[r], w[k].kind) &&
            ApplyAcquire(PopFirst(t, r), w[k]) == Handing(s, r, k + 1)
  {
    hide HeldBy;
    var w := s.table[r].waiters;
    var t := Handing(s, r, k);
    var u := ApplyAcquire(PopFirst(t, r), w[k]);
    var v := Handing(s, r, k + 1);
    ClientsMore(w, k);
    assert Clients(w[..0]) == {};
    assert w[k..][1..] == w[k + 1..];
    assert u.table[r].holders == v.table[r].holders;
    assert u.table[r] == v.table[r];
    assert u.table == v.table;
    HeldMore(s.held, Clients(w[..k]), w[k].client, r);
    HeldFirst(s.held, w[k].client, r);
    assert {} + {w[k].client} == {w[k].client};
    assert u.held == v.held;
    assert u.waits == v.waits;
  }

  lemma HeldResources(s: Locks, c: Client)
    requires LocksOk(s)
    ensures forall r :: r in At(s.held, c) <==> c in Holders(s, r)
  {
  }

  class LockManager {
    const wfg: WaitForGraph
    var locks: map<Resource, Lock>
    var clientLocks: map<Client, set<Resource>>
    var locksAcquired: nat
    var locksReleased: nat

    function State(): Locks
      reads this, wfg
    {
      Locks(locks, clientLocks, wfg.edges, locksAcquired, locksReleased)
    }

    constructor ()
      ensures State() == NoLocks && fresh(wfg)
      ensures LocksOk(State()) && HeadsHold(State()) && WaitsOk(State())
    {
      wfg := new WaitForGraph();
      locks, clientLocks, locksAcquired, locksReleased := map[], map[], 0, 0;
    }

    /** One round of the deadlock detector: the victim to abort, if there is a cycle, and
        all the resources it holds, in the order in which the aborts are proposed. */
    method FindVictim() returns (victim: Option<Client>, resources: seq<Resource>)
      requires LocksOk(State()) && HeadsHold(State())
      ensures victim.None? ==> forall c :: !IsClosedWalk(State().waits, c)
      ensures victim.Some? ==>
                exists c :: IsCycle(State().waits, c) && c[|c| - 1] == victim.value && resources != [] &&
                  !IsCycle(AbortAll(State(), victim.value, resources).waits, c) &&
                  (WaitsOk(State()) ==> CircularWait(State(), c))
      ensures victim.Some? ==> forall r :: r in resources <==> victim.value in Holders(State(), r)
    {
      hide LocksOk, WaitsOk, HeadsHold, AbortAll;
      var cycle := wfg.Detect();
      if cycle.None? {
        return None, [];
      }
      var c := cycle.value;
      var rest := At(clientLocks, c[|c| - 1]);
      resources := [];
      while rest != {}
        invariant forall r :: r in At(clientLocks, c[|c| - 1]) <==> r in rest || r in resources
        decreases rest
      {
        var r :| r in rest;
        rest := rest - {r};
        resources := resources + [r];
      }
      if WaitsOk(State()) {
        CycleIsDeadlock(State(), c);
      }
      AbortBreaksCycle(State(), c, resources);
      HeldResources(State(), c[|c| - 1]);
      return Some(c[|c| - 1]), resources;
    }

    method ApplyCommand(c: Command)
      requires LocksOk(State()) && HeadsHold(State())
      modifies this, wfg
      ensures State() == Step(old(State()), c) && LocksOk(State()) && HeadsHold(State())
      ensures !c.Cancel? && old(WaitsOk(State())) ==> WaitsOk(State())
    {
      hide HeadsHold, WaitsOk, Inverse;
      StepOk(State(), c);
      StepHolds(State(), c);
      if !c.Cancel? && WaitsOk(State()) {
        StepWaits(State(), c);
      }
      match c
      case NoOp(_) =>
      case Acquire(q) => ApplyAcquire(q);
      case Release(client, r) => ApplyRelease(client, r);
      case Cancel(id, r) => ApplyCancel(id, r);
      case Abort(client, r) => ApplyRelease(client, r);
    }

    method ApplyAcquire(q: Request)
      modifies this, wfg
      ensures State() == LockTable.ApplyAcquire(old(State()), q)
    {
      if q.resource !in locks {
        locks := locks[q.resource := Lock(q.kind, {}, [])];
      }
      var lock := locks[q.resource];
      if CanAcquire(lock, q.kind) {
        locks := locks[q.resource := lock.(holders := lock.holders + {q.client}, kind := q.kind)];
        clientLocks := clientLocks[q.client := At(clientLocks, q.client) + {q.resource}];
        locksAcquired := locksAcquired + 1;
        wfg.RemoveWait(q.client);
      } else {
        locks := locks[q.resource := lock.(waiters := lock.waiters + [q])];
        wfg.AddWaits(q.client, lock.holders);
      }
    }

    method ApplyRelease(client: Client, r: Resource)
      requires r in locks ==> forall q | q in locks[r].waiters :: q.resource == r
      modifies this, wfg
      ensures State() == LockTable.ApplyRelease(old(State()), client, r)
    {
      if r !in locks {
        return;
      }
      var lock := locks[r].(holders := locks[r].holders - {client});
      locks := locks[r := lock];
      clientLocks := clientLocks[client := At(clientLocks, client) - {r}];
      wfg.RemoveNode(client);
      locksReleased := locksReleased + 1;
      if lock.holders == {} && lock.waiters != [] {
        GrantNext(r);
      } else if lock.holders == {} {
        locks := locks - {r};
      }
    }

    method ApplyCancel(id: RequestId, r: Resource)
      modifies this`locks
      ensures State() == LockTable.ApplyCancel(old(State()), id, r)
    {
      if r in locks {
        locks := locks[r := locks[r].(waiters := Without(locks[r].waiters, id))];
      }
    }

    method Pop(r: Resource) returns (q: Request)
      requires r in locks && locks[r].waiters != []
      modifies this`locks
      ensures q == old(locks)[r].waiters[0]
      ensures State() == PopFirst(old(State()), r)
    {
      q := locks[r].waiters[0];
      locks := locks[r := locks[r].(waiters := locks[r].waiters[1..])];
    }

    /** Hands a free lock to the next exclusive request, or to all shared requests at the
        front. Each popped request can be granted, so none is queued again. */
    method GrantNext(r: Resource)
      requires r in locks && locks[r].holders == {}
      requires forall q | q in locks[r].waiters :: q.resource == r
      modifies this, wfg
      ensures State() == if old(locks)[r].waiters == [] then old(State())
                         else Hand(old(State()), r, Batch(old(locks)[r].waiters))
    {
      if locks[r].waiters == [] {
        return;
      }
      ghost var s, w := State(), locks[r].waiters;
      if locks[r].waiters[0].kind == Exclusive {
        HandOneMore(s, r, 0);
        var next := Pop(r);
        ApplyAcquire(next);
      } else {
        ghost var k: nat := 0;
        while locks[r].waiters != [] && locks[r].waiters[0].kind == Shared
          invariant k <= SharedFront(w)
          invariant State() == Handing(s, r, k) && r in locks && locks[r].waiters == w[k..]
          decreases |locks[r].waiters|
        {
          HandOneMore(s, r, k);
          var next := Pop(r);
          ApplyAcquire(next);
          k := k + 1;
          if k < |w| {
            HandOneMoreWaiters(s, r, k);
          }
        }
        FrontEnds(w, k);
      }
    }
  }

  lemma HandOneMoreWaiters(s: Locks, r: Resource, k: nat)
    requires r in s.table && 0 < k <= |s.table[r].waiters|
    ensures Handing(s, r, k).table[r].waiters == s.table[r].waiters[k..]
  {
  }

  lemma FrontEnds(w: seq<Request>, k: nat)
    requires k <= SharedFront(w) && (k < |w| ==> w[k].kind != Shared)
    ensures k == SharedFront(w)
  {
  }
}
