/** Who holds a lock together with whom, and when an acquire is granted. */
module LockExclusion {
  import opened Commands
  import opened LockTable
  import opened LockLedger

  // ---- When an acquire is granted ----

  /** An acquire is granted by its own command exactly when the resource is free, or the request and
      the present lock are both shared; otherwise it goes to the end of the queue, and the holders,
      the kind of the lock and the counter stay. */
  lemma AcquireGrantedExactly(s: Locks, q: Request)
    requires LocksOk(s)
    ensures var t, r := Step(s, Acquire(q)), q.resource;
            if r !in s.table || (q.kind == Shared && s.table[r].kind == Shared) then
              Holders(t, r) == Holders(s, r) + {q.client} && t.table[r].kind == q.kind &&
              Waiters(t, r) == Waiters(s, r) && t.acquired == s.acquired + 1
            else
              Holders(t, r) == Holders(s, r) && t.table[r].kind == s.table[r].kind &&
              Waiters(t, r) == Waiters(s, r) + [q] && t.acquired == s.acquired
  {
    if q.resource in s.table {
      assert LockOk(q.resource, s.table[q.resource]);
    }
  }

  // ---- Hand-over ----

  /** All requests of a batch are of the kind of the first one. */
  lemma BatchKind(w: seq<Request>, i: nat)
    requires i < Batch(w)
    ensures w[i].kind == w[0].kind
  {
  }

  /** A hand-over grants one writer alone, or every reader up to the first writer. */
  lemma HandOverIsMaximal(s: Locks, client: Client, r: Resource)
    requires Empties(s, client, r) && Waiters(s, r) != []
    ensures var w, t := Waiters(s, r), Step(s, Release(client, r));
            var g := Grants(s, Release(client, r), r);
            w == g + Waiters(t, r) && g != [] && r in t.table && t.table[r].kind == g[0].kind &&
            Holders(t, r) == Clients(g) &&
            if g[0].kind == Exclusive then |g| == 1
            else (forall q | q in g :: q.kind == Shared) &&
                 (Waiters(t, r) != [] ==> Waiters(t, r)[0].kind == Exclusive)
  {
    var w := Waiters(s, r);
    var g := w[..Batch(w)];
    assert w == g + w[Batch(w)..] && g[0] == w[0];
    forall q | q in g && w[0].kind == Shared ensures q.kind == Shared {
      var i :| 0 <= i < |g| && g[i] == q;
      BatchKind(w, i);
    }
    assert Holders(Step(s, Release(client, r)), r) == {} + Clients(g);
  }

  // ---- Exclusion, command by command ----

  /** The command makes the client let go of r. */
  predicate Leaves(c: Command, client: Client, r: Resource) {
    client in Leaving(c, r)
  }

  /** The lock on r is held by this client alone, exclusively. */
  ghost predicate HeldAlone(s: Locks, r: Resource, client: Client) {
    r in s.table && s.table[r].kind == Exclusive && s.table[r].holders == {client}
  }

  lemma OnlyOne(q: Request)
    ensures Clients([q]) == {q.client}
  {
    assert q in [q];
  }

  /** An exclusive grant leaves its client as the only holder. */
  lemma ExclusiveGrant(s: Locks, c: Command, r: Resource, q: Request)
    requires q in Grants(s, c, r) && q.kind == Exclusive
    ensures HeldAlone(Step(s, c), r, q.client)
  {
    OnlyOne(q);
    if !c.Acquire? {
      var w := Waiters(s, r);
      assert q in w[..Batch(w)];
      var i :| 0 <= i < Batch(w) && w[i] == q;
      BatchKind(w, i);
      assert w[..1] == [q];
    }
  }

  lemma AloneStays(s: Locks, c: Command, r: Resource, client: Client)
    requires HeldAlone(s, r, client) && !Leaves(c, client, r)
    ensures HeldAlone(Step(s, c), r, client)
  {
  }

  /** Nobody joins a holder who stays, unless the lock and the joining request are both shared. */
  lemma JoinersShare(s: Locks, c: Command, r: Resource, h: Client, d: Client)
    requires h in Holders(s, r) && !Leaves(c, h, r)
    requires d in Holders(Step(s, c), r) && d !in Holders(s, r)
    ensures c.Acquire? && c.request.resource == r && c.request.client == d
    ensures c.request.kind == Shared && s.table[r].kind == Shared
  {
  }

  // ---- Exclusion, over runs ----

  lemma NewIsGrant(commands: seq<Command>, k: nat, r: Resource, q: Request)
    requires k < |commands|
    ensures q in NewlyGranted(commands, k, r) <==> q in Grants(Replay(commands[..k]), commands[k], r)
    ensures Replay(commands[..k + 1]) == Step(Replay(commands[..k]), commands[k])
  {
    hide Step, Grants, Granted, Record;
    assert commands[..k + 1][..k] == commands[..k];
    GrantsRecorded(Replay(commands[..k]), BookOf(commands[..k], r), commands[k], r);
  }

  /** Mutual exclusion: from the command that grants an exclusive request on, until its client lets
      go, that client is the only holder. */
  lemma {:induction false} ExclusiveStaysAlone(commands: seq<Command>, k: nat, j: nat, r: Resource, q: Request)
    requires k < j <= |commands| && q in NewlyGranted(commands, k, r) && q.kind == Exclusive
    requires forall i | k < i < j :: !Leaves(commands[i], q.client, r)
    ensures HeldAlone(Replay(commands[..j]), r, q.client)
    decreases j
  {
    hide Step, Grants, HeldAlone, NewlyGranted;
    NewIsGrant(commands, j - 1, r, q);
    if j == k + 1 {
      ExclusiveGrant(Replay(commands[..k]), commands[k], r, q);
    } else {
      ExclusiveStaysAlone(commands, k, j - 1, r, q);
      AloneStays(Replay(commands[..j - 1]), commands[j - 1], r, q.client);
    }
  }

  /** The request was granted by the k-th command, and its client has not let go since. */
  ghost predicate HeldSince(commands: seq<Command>, k: nat, r: Resource, q: Request)
    requires k < |commands|
  {
    q in NewlyGranted(commands, k, r) && forall i | k < i < |commands| :: !Leaves(commands[i], q.client, r)
  }

  lemma JustGranted(commands: seq<Command>, k: nat, r: Resource, q: Request)
    requires k + 1 == |commands| && q in NewlyGranted(commands, k, r)
    ensures HeldSince(commands, k, r, q)
  {
  }

  lemma HeldLonger(commands: seq<Command>, n: nat, k: nat, r: Resource, q: Request)
    requires n + 1 == |commands| && k < n && HeldSince(commands[..n], k, r, q)
    requires !Leaves(commands[n], q.client, r)
    ensures HeldSince(commands, k, r, q)
  {
    hide Granted, BookOf;
    assert commands[..n][..k] == commands[..k] && commands[..n][..k + 1] == commands[..k + 1];
    forall i | k < i < |commands| ensures !Leaves(commands[i], q.client, r) {
      assert i < n ==> commands[..n][i] == commands[i];
    }
  }

  /** A grant, or a holder who stays, explains every holder after a command, with the kind. */
  lemma HolderStep(s: Locks, c: Command, r: Resource, h: Client)
    requires h in Holders(Step(s, c), r)
    ensures r in Step(s, c).table
    ensures (exists q :: q in Grants(s, c, r) && q.client == h && q.kind == Step(s, c).table[r].kind) ||
            (h in Holders(s, r) && !Leaves(c, h, r) && s.table[r].kind == Step(s, c).table[r].kind)
  {
    var t := Step(s, c);
    HoldersFollowGrants(s, c, r);
    if h in Clients(Grants(s, c, r)) {
      var q :| q in Grants(s, c, r) && q.client == h;
      if q.kind != t.table[r].kind {
        GrantKind(s, c, r, q);
      }
    } else {
      assert h in Holders(s, r);
    }
  }

  lemma GrantKind(s: Locks, c: Command, r: Resource, q: Request)
    requires q in Grants(s, c, r)
    ensures r in Step(s, c).table && Step(s, c).table[r].kind == q.kind
  {
    if q.kind == Exclusive {
      ExclusiveGrant(s, c, r, q);
    } else if !c.Acquire? {
      var w := Waiters(s, r);
      assert q in w[..Batch(w)];
      var i :| 0 <= i < Batch(w) && w[i] == q;
      BatchKind(w, i);
    }
  }

  /** Every holder holds by a grant that it has not let go since, of the kind the lock has. So a
      shared lock is held by readers only, and an exclusive one by the writer it was granted to. */
  lemma {:induction false} HoldersHoldByGrants(commands: seq<Command>, r: Resource, h: Client)
    returns (k: nat, q: Request)
    requires h in Holders(Replay(commands), r)
    ensures k < |commands| && HeldSince(commands, k, r, q) && q.client == h
    ensures r in Replay(commands).table && q.kind == Replay(commands).table[r].kind
    decreases |commands|
  {
    hide Step, Grants, HeldSince, Holders, NewlyGranted;
    assert commands != [] by { NobodyHolds(r); }
    var n := |commands| - 1;
    var s, c := Replay(commands[..n]), commands[n];
    assert commands[..n + 1] == commands;
    HolderStep(s, c, r, h);
    if g :| g in Grants(s, c, r) && g.client == h && g.kind == Step(s, c).table[r].kind {
      NewIsGrant(commands, n, r, g);
      k, q := n, g;
      JustGranted(commands, n, r, g);
    } else {
      k, q := HoldersHoldByGrants(commands[..n], r, h);
      HeldLonger(commands, n, k, r, q);
    }
  }

  lemma NobodyHolds(r: Resource)
    ensures Holders(Replay([]), r) == {}
  {
  }
}
