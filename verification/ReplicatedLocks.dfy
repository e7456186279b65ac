/** The lock table on top of the replicated log: what clients of different nodes see. */
module ReplicatedLocks {
  import opened Commands
  import opened RaftTypes
  import opened RaftCluster
  import opened RaftSafety
  import opened LockTable
  import opened LockLedger
  import opened LockExclusion

  function CommandsOf(entries: seq<Entry>): (commands: seq<Command>)
    ensures |commands| == |entries|
    ensures forall i | 0 <= i < |entries| :: commands[i] == entries[i].command
  {
    seq(|entries|, i requires 0 <= i < |entries| => entries[i].command)
  }

  /** The lock table of a node: its state machine has been fed the entries it applied. */
  function LocksOf(x: Node): Locks {
    Replay(CommandsOf(x.applied))
  }

  /** The lock table after more commands. */
  function Resume(s: Locks, commands: seq<Command>): Locks {
    if commands == [] then s
    else Step(Resume(s, commands[..|commands| - 1]), commands[|commands| - 1])
  }

  lemma {:induction false} ReplayResumes(a: seq<Command>, b: seq<Command>)
    ensures Replay(a + b) == Resume(Replay(a), b)
    decreases |b|
  {
    if b == [] {
      assert a + b == a;
    } else {
      var n := |b| - 1;
      ReplayResumes(a, b[..n]);
      assert (a + b)[..|a + b| - 1] == a + b[..n];
    }
  }

  /** Of two lock tables anywhere in a run, the one that has applied more is the other one
      after more commands; in particular, nodes that applied equally much have equal tables. */
  lemma LocksAgree(run: seq<Cluster>, p: nat, q: nat, a: Id, b: Id)
    requires IsRun(Repaired, run) && p < |run| && q < |run|
    requires a < |run[p].nodes| && b < |run[q].nodes|
    requires |run[p].nodes[a].applied| <= |run[q].nodes[b].applied|
    ensures var x, y := run[p].nodes[a].applied, run[q].nodes[b].applied;
            LocksOf(run[q].nodes[b]) == Resume(LocksOf(run[p].nodes[a]), CommandsOf(y[|x|..]))
    ensures |run[p].nodes[a].applied| == |run[q].nodes[b].applied| ==>
            LocksOf(run[p].nodes[a]) == LocksOf(run[q].nodes[b])
  {
    StateMachineSafety(run, p, q, a, b);
    var x, y := run[p].nodes[a].applied, run[q].nodes[b].applied;
    assert x == y[..|x|];
    assert CommandsOf(y) == CommandsOf(x) + CommandsOf(y[|x|..]);
    ReplayResumes(CommandsOf(x), CommandsOf(y[|x|..]));
  }

  /** Mutual exclusion across the cluster: where a lock is exclusive, no two nodes that
      applied equally much ever name different owners. */
  lemma OneOwner(run: seq<Cluster>, p: nat, q: nat, a: Id, b: Id, r: Resource, c: Client, d: Client)
    requires IsRun(Repaired, run) && p < |run| && q < |run|
    requires a < |run[p].nodes| && b < |run[q].nodes|
    requires |run[p].nodes[a].applied| == |run[q].nodes[b].applied|
    requires r in LocksOf(run[p].nodes[a]).table
    requires LocksOf(run[p].nodes[a]).table[r].kind == Exclusive
    requires c in Holders(LocksOf(run[p].nodes[a]), r) && d in Holders(LocksOf(run[q].nodes[b]), r)
    ensures c == d
  {
    hide Replay, Resume;
    LocksAgree(run, p, q, a, b);
    ReplayOk(CommandsOf(run[p].nodes[a].applied));
    var s := LocksOf(run[p].nodes[a]);
    assert LockOk(r, s.table[r]);
    Alone(s.table[r].holders, c, d);
  }

  lemma Alone(holders: set<Client>, c: Client, d: Client)
    requires |holders| == 1 && c in holders && d in holders
    ensures c == d
  {
    assert |holders - {c}| == 0;
    assert d !in holders - {c};
  }

  lemma SameGrants(a: seq<Command>, b: seq<Command>, k: nat, r: Resource)
    requires k < |a| && a <= b
    ensures NewlyGranted(a, k, r) == NewlyGranted(b, k, r)
  {
    hide Granted, BookOf;
    assert a[..k] == b[..k] && a[..k + 1] == b[..k + 1];
  }

  /** Mutual exclusion in terms of grants: once some node's table has granted a request exclusively,
      no table anywhere in the run, however far it has come, shows anyone but that client as a holder
      until it has let go. */
  lemma ExclusiveEverywhere(run: seq<Cluster>, p: nat, q: nat, a: Id, b: Id, k: nat, r: Resource, g: Request)
    requires IsRun(Repaired, run) && p < |run| && q < |run|
    requires a < |run[p].nodes| && b < |run[q].nodes|
    requires k < |run[p].nodes[a].applied| && k < |run[q].nodes[b].applied|
    requires g in NewlyGranted(CommandsOf(run[p].nodes[a].applied), k, r) && g.kind == Exclusive
    requires forall i | k < i < |run[q].nodes[b].applied| ::
               !Leaves(run[q].nodes[b].applied[i].command, g.client, r)
    ensures HeldAlone(LocksOf(run[q].nodes[b]), r, g.client)
  {
    hide NewlyGranted, HeldAlone, Leaves;
    StateMachineSafety(run, p, q, a, b);
    var x, y := run[p].nodes[a].applied, run[q].nodes[b].applied;
    var c, d := CommandsOf(x), CommandsOf(y);
    if x <= y {
      assert c == d[..|c|];
      SameGrants(c, d, k, r);
    } else {
      assert d == c[..|d|];
      SameGrants(d, c, k, r);
    }
    ExclusiveStaysAlone(d, k, |d|, r, g);
    assert d[..|d|] == d;
  }
}
