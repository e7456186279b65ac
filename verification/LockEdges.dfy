/** Exactly which edges the wait-for graph has. */
module LockEdges {
  import opened Commands
  import opened LockTable
  import opened LockLedger
  import opened WaitGraph

  /** The command adds the edge: w's request goes to the queue of a resource that h holds. */
  ghost predicate Adds(s: Locks, c: Command, w: Client, h: Client) {
    c.Acquire? && c.request.client == w && h in Holders(s, c.request.resource) &&
    Waiters(Step(s, c), c.request.resource) != Waiters(s, c.request.resource)
  }

  /** The command ends the edge: it grants a request of w, or w or h gives up a resource that is in
      the table. */
  ghost predicate Ends(s: Locks, c: Command, w: Client, h: Client) {
    w in Clients(Grants(s, c, Subject(c))) ||
    ((c.Release? || c.Abort?) && c.resource in s.table && (w == c.client || h == c.client))
  }

  lemma RemovedNode(g: Graph, c: Client, w: Client, h: Client)
    ensures Edge(RemoveNode(g, c), w, h) <==> Edge(g, w, h) && w != c && h != c
  {
  }

  lemma ReleaseEdges(s: Locks, client: Client, r: Resource, w: Client, h: Client)
    requires r in s.table
    ensures Edge(ApplyRelease(s, client, r).waits, w, h) <==>
            Edge(s.waits, w, h) && w != client && h != client &&
            w !in Clients(Grants(s, Release(client, r), r))
  {
    hide RemoveNode, Batch;
    RemovedNode(s.waits, client, w, h);
  }

  lemma AcquireEdges(s: Locks, q: Request, w: Client, h: Client)
    requires LocksOk(s)
    ensures Edge(ApplyAcquire(s, q).waits, w, h) <==>
            (Edge(s.waits, w, h) && w !in Clients(Grants(s, Acquire(q), q.resource))) ||
            Adds(s, Acquire(q), w, h)
  {
    assert q in [q];
    assert Waiters(s, q.resource) + [q] != Waiters(s, q.resource) by {
      assert |Waiters(s, q.resource) + [q]| == |Waiters(s, q.resource)| + 1;
    }
  }

  /** The edges after a command are those before that it does not end, and those it adds. */
  lemma EdgesAfter(s: Locks, c: Command, w: Client, h: Client)
    requires LocksOk(s)
    ensures Edge(Step(s, c).waits, w, h) <==>
            (Edge(s.waits, w, h) && !Ends(s, c, w, h)) || Adds(s, c, w, h)
  {
    match c
    case NoOp(_) =>
    case Acquire(q) => AcquireEdges(s, q, w, h);
    case Release(client, r) => if r in s.table { ReleaseEdges(s, client, r, w, h); }
    case Abort(client, r) => if r in s.table { ReleaseEdges(s, client, r, w, h); }
    case Cancel(_, _) =>
  }

  ghost predicate AddedAt(commands: seq<Command>, k: nat, w: Client, h: Client)
    requires k < |commands|
  {
    Adds(Replay(commands[..k]), commands[k], w, h)
  }

  ghost predicate EndedAt(commands: seq<Command>, k: nat, w: Client, h: Client)
    requires k < |commands|
  {
    Ends(Replay(commands[..k]), commands[k], w, h)
  }

  /** Some command added the edge and none since has ended it. */
  ghost predicate Standing(commands: seq<Command>, w: Client, h: Client) {
    exists k :: 0 <= k < |commands| && AddedAt(commands, k, w, h) &&
                forall i | k < i < |commands| :: !EndedAt(commands, i, w, h)
  }

  lemma StandsLonger(commands: seq<Command>, w: Client, h: Client)
    requires commands != []
    ensures var n := |commands| - 1;
            Standing(commands, w, h) <==>
            (Standing(commands[..n], w, h) && !EndedAt(commands, n, w, h)) || AddedAt(commands, n, w, h)
  {
    hide Adds, Ends;
    var n := |commands| - 1;
    var front := commands[..n];
    forall k | 0 <= k < n
      ensures AddedAt(front, k, w, h) <==> AddedAt(commands, k, w, h)
      ensures EndedAt(front, k, w, h) <==> EndedAt(commands, k, w, h)
    {
      assert front[..k] == commands[..k];
    }
  }

  /** In every run the graph has exactly the edges that a queued acquire added and that have since
      neither lost their waiter to a grant or a release nor their head to a release. */
  lemma {:induction false} EdgesExactly(commands: seq<Command>, w: Client, h: Client)
    ensures Edge(Replay(commands).waits, w, h) <==> Standing(commands, w, h)
    decreases |commands|
  {
    if commands != [] {
      hide Adds, Ends, Step, Standing;
      var n := |commands| - 1;
      EdgesExactly(commands[..n], w, h);
      ReplayOk(commands[..n]);
      StandsLonger(commands, w, h);
      EdgesAfter(Replay(commands[..n]), commands[n], w, h);
    }
  }
}
