/** The replicated lock table of src/nodes/lock_manager.py as a value, and what each
    command does to it. */
module LockTable {
  import opened Commands

  datatype Lock = Lock(kind: LockType, holders: set<Client>, waiters: seq<Request>)

  /** `table` is the lock table, `held` the reverse index from clients to resources, and
      `waits` the wait-for graph: the clients each client waits for. */
  datatype Locks = Locks(
    table: map<Resource, Lock>,
    held: map<Client, set<Resource>>,
    waits: map<Client, set<Client>>,
    acquired: nat,
    released: nat)

  const NoLocks := Locks(map[], map[], map[], 0, 0)

  function At<K, V>(m: map<K, set<V>>, k: K): set<V> {
    if k in m then m[k] else {}
  }

  function Waiters(s: Locks, r: Resource): seq<Request> {
    if r in s.table then s.table[r].waiters else []
  }

  function Holders(s: Locks, r: Resource): set<Client> {
    if r in s.table then s.table[r].holders else {}
  }

  function Clients(requests: seq<Request>): set<Client> {
    set q | q in requests :: q.client
  }

  // ---- Acquire ----

  predicate CanAcquire(lock: Lock, kind: LockType) {
    lock.holders == {} || (kind == Shared && lock.kind == Shared)
  }

  /** The lock a request finds: a resource without an entry gets an empty one first. */
  function Found(s: Locks, q: Request): Lock {
    if q.resource in s.table then s.table[q.resource] else Lock(q.kind, {}, [])
  }

  function ApplyAcquire(s: Locks, q: Request): Locks {
    var lock := Found(s, q);
    if CanAcquire(lock, q.kind) then
      s.(table := s.table[q.resource := lock.(holders := lock.holders + {q.client}, kind := q.kind)],
         held := s.held[q.client := At(s.held, q.client) + {q.resource}],
         waits := s.waits - {q.client},
         acquired := s.acquired + 1)
    else
      s.(table := s.table[q.resource := lock.(waiters := lock.waiters + [q])],
         waits := s.waits[q.client := At(s.waits, q.client) + lock.holders])
  }

  // ---- Release ----

  function RemoveNode(g: map<Client, set<Client>>, c: Client): map<Client, set<Client>> {
    map w | w in g.Keys - {c} :: g[w] - {c}
  }

  /** How many of the waiting requests are granted together: one exclusive request, or all
      the shared requests at the front. */
  function Batch(waiters: seq<Request>): (k: nat)
    ensures k <= |waiters|
    ensures waiters != [] ==> k > 0
  {
    if waiters == [] then 0
    else if waiters[0].kind == Exclusive then 1
    else SharedFront(waiters)
  }

  function SharedFront(waiters: seq<Request>): (k: nat)
    ensures k <= |waiters|
    ensures forall i | 0 <= i < k :: waiters[i].kind == Shared
    ensures k < |waiters| ==> waiters[k].kind != Shared
  {
    if waiters == [] || waiters[0].kind != Shared then 0
    else
      assert forall i | 0 < i < |waiters| :: waiters[i] == waiters[1..][i - 1];
      1 + SharedFront(waiters[1..])
  }

  /** The reverse index after the given clients have been granted r. */
  function HeldBy(held: map<Client, set<Resource>>, clients: set<Client>, r: Resource)
    : map<Client, set<Resource>>
  {
    map c | c in held.Keys + clients :: At(held, c) + if c in clients then {r} else {}
  }

  /** The lock on r, held by nobody, is handed to the first k waiting requests. */
  function Hand(s: Locks, r: Resource, k: nat): Locks
    requires r in s.table && 0 < k <= |s.table[r].waiters|
  {
    var w := s.table[r].waiters;
    s.(table := s.table[r := Lock(w[0].kind, s.table[r].holders + Clients(w[..k]), w[k..])],
       held := HeldBy(s.held, Clients(w[..k]), r),
       waits := s.waits - Clients(w[..k]),
       acquired := s.acquired + k)
  }

  /** The client lets go of r; nobody is granted anything yet. */
  function LetGo(s: Locks, c: Client, r: Resource): Locks
    requires r in s.table
  {
    s.(table := s.table[r := s.table[r].(holders := s.table[r].holders - {c})],
       held := s.held[c := At(s.held, c) - {r}],
       waits := RemoveNode(s.waits, c),
       released := s.released + 1)
  }

  function ApplyRelease(s: Locks, c: Client, r: Resource): Locks {
    if r !in s.table then s
    else
      var t := LetGo(s, c, r);
      var lock := t.table[r];
      if lock.holders != {} then t
      else if lock.waiters != [] then Hand(t, r, Batch(lock.waiters))
      else t.(table := t.table - {r})
  }

  // ---- Cancel ----

  function Without(waiters: seq<Request>, id: RequestId): seq<Request> {
    if waiters == [] then []
    else if waiters[0].id == id then Without(waiters[1..], id)
    else [waiters[0]] + Without(waiters[1..], id)
  }

  function ApplyCancel(s: Locks, id: RequestId, r: Resource): Locks {
    if r !in s.table then s
    else s.(table := s.table[r := s.table[r].(waiters := Without(s.table[r].waiters, id))])
  }

  // ---- Commands ----

  function Step(s: Locks, c: Command): Locks {
    match c
    case NoOp(_) => s
    case Acquire(q) => ApplyAcquire(s, q)
    case Release(client, r) => ApplyRelease(s, client, r)
    case Cancel(id, r) => ApplyCancel(s, id, r)
    case Abort(client, r) => ApplyRelease(s, client, r)
  }

  /** The lock table after a sequence of commands. */
  function Replay(commands: seq<Command>): Locks {
    if commands == [] then NoLocks
    else Step(Replay(commands[..|commands| - 1]), commands[|commands| - 1])
  }

  // ---- The table invariant ----

  ghost predicate LockOk(r: Resource, lock: Lock) {
    lock.holders != {} && (lock.kind == Exclusive ==> |lock.holders| == 1) &&
    forall q | q in lock.waiters :: q.resource == r
  }

  /** Every entry has a holder, an exclusive lock has just one, requests wait in their own
      resource's queue, and the reverse index is the inverse of the holders. */
  ghost predicate LocksOk(s: Locks) {
    (forall r | r in s.table :: LockOk(r, s.table[r])) &&
    Inverse(s)
  }

  lemma WithoutIn(waiters: seq<Request>, id: RequestId)
    ensures forall q :: q in Without(waiters, id) <==> q in waiters && q.id != id
  {
  }

  ghost predicate Inverse(s: Locks) {
    forall c, r :: r in At(s.held, c) <==> c in Holders(s, r)
  }

  lemma AcquireInverse(s: Locks, q: Request)
    requires Inverse(s)
    ensures Inverse(ApplyAcquire(s, q))
  {
    var t := ApplyAcquire(s, q);
    forall c, r ensures r in At(t.held, c) <==> c in Holders(t, r) {
      assert r in At(s.held, c) <==> c in Holders(s, r);
    }
  }

  lemma LetGoInverse(s: Locks, c: Client, r: Resource)
    requires Inverse(s) && r in s.table
    ensures Inverse(LetGo(s, c, r))
  {
    var t := LetGo(s, c, r);
    forall d, u ensures u in At(t.held, d) <==> d in Holders(t, u) {
      assert u in At(s.held, d) <==> d in Holders(s, u);
    }
  }

  lemma HandInverse(s: Locks, r: Resource, k: nat)
    requires Inverse(s) && r in s.table && 0 < k <= |s.table[r].waiters|
    ensures Inverse(Hand(s, r, k))
  {
    var t := Hand(s, r, k);
    forall d, u ensures u in At(t.held, d) <==> d in Holders(t, u) {
      assert u in At(s.held, d) <==> d in Holders(s, u);
    }
  }

  lemma DropInverse(s: Locks, r: Resource)
    requires Inverse(s) && r in s.table && s.table[r].holders == {}
    ensures Inverse(s.(table := s.table - {r}))
  {
    var t := s.(table := s.table - {r});
    forall d, u ensures u in At(t.held, d) <==> d in Holders(t, u) {
      assert u in At(s.held, d) <==> d in Holders(s, u);
    }
  }

  lemma AcquireOk(s: Locks, q: Request)
    requires LocksOk(s)
    ensures LocksOk(ApplyAcquire(s, q))
  {
    var t := ApplyAcquire(s, q);
    AcquireInverse(s, q);
    forall r | r in t.table ensures LockOk(r, t.table[r]) {
      if r in s.table {
        assert LockOk(r, s.table[r]);
      }
    }
  }

  lemma OneClient(q: Request)
    ensures Clients([q]) == {q.client} && |Clients([q])| == 1
  {
  }

  /** The entry a batch of grants leaves behind. */
  lemma HandedOk(r: Resource, w: seq<Request>, k: nat)
    requires w != [] && k == Batch(w) && forall q | q in w :: q.resource == r
    ensures LockOk(r, Lock(w[0].kind, {} + Clients(w[..k]), w[k..]))
  {
    assert w[..k][0] == w[0];
    assert w[0].client in Clients(w[..k]);
    if w[0].kind == Exclusive {
      assert w[..1] == [w[0]];
      OneClient(w[0]);
    }
    assert {} + Clients(w[..k]) == Clients(w[..k]);
  }

  lemma ReleasedLockOk(s: Locks, c: Client, r: Resource)
    requires LocksOk(s) && r in s.table && r in ApplyRelease(s, c, r).table
    ensures LockOk(r, ApplyRelease(s, c, r).table[r])
  {
    var lock := s.table[r];
    assert LockOk(r, lock);
    if lock.holders - {c} == {} {
      HandedOk(r, lock.waiters, Batch(lock.waiters));
    } else if lock.kind == Exclusive {
      var h :| h in lock.holders;
      assert lock.holders == {h} + (lock.holders - {h});
      assert lock.holders - {c} == lock.holders;
    }
  }

  lemma ReleaseOk(s: Locks, c: Client, r: Resource)
    requires LocksOk(s)
    ensures LocksOk(ApplyRelease(s, c, r))
  {
    if r in s.table {
      var t, g := ApplyRelease(s, c, r), LetGo(s, c, r);
      LetGoInverse(s, c, r);
      if g.table[r].holders == {} {
        if g.table[r].waiters != [] {
          HandInverse(g, r, Batch(g.table[r].waiters));
        } else {
          DropInverse(g, r);
        }
      }
      forall u | u in t.table ensures LockOk(u, t.table[u]) {
        if u != r {
          assert LockOk(u, s.table[u]);
        } else {
          ReleasedLockOk(s, c, r);
        }
      }
    }
  }

  lemma StepOk(s: Locks, c: Command)
    requires LocksOk(s)
    ensures LocksOk(Step(s, c))
  {
    match c
    case NoOp(_) =>
    case Acquire(q) => AcquireOk(s, q);
    case Release(client, r) => ReleaseOk(s, client, r);
    case Abort(client, r) => ReleaseOk(s, client, r);
    case Cancel(id, r) =>
      if r in s.table {
        WithoutIn(s.table[r].waiters, id);
        var t := Step(s, c);
        forall r' | r' in t.table ensures LockOk(r', t.table[r']) {
          assert LockOk(r', s.table[r']);
        }
        forall d, u ensures u in At(t.held, d) <==> d in Holders(t, u) {
          assert u in At(s.held, d) <==> d in Holders(s, u);
        }
      }
  }

  /** The table invariant holds after every sequence of commands. */
  lemma {:induction false} ReplayOk(commands: seq<Command>)
    ensures LocksOk(Replay(commands))
    decreases |commands|
  {
    if commands != [] {
      ReplayOk(commands[..|commands| - 1]);
      StepOk(Replay(commands[..|commands| - 1]), commands[|commands| - 1]);
    }
  }
}
