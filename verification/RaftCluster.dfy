/** The cluster as a state machine. A message, once sent, stays in `msgs`: it may be
    delivered late, out of order, more than once, or never. */
module RaftCluster {
  import opened Commands
  import opened RaftTypes
  import opened RaftHandlers

  datatype Cluster = Cluster(nodes: seq<Node>, msgs: set<Msg>)

  datatype Action =
    | Timeout(i: Id)
    | Deliver(m: Msg)
    | Replicate(i: Id, peer: Id)
    | Propose(i: Id, command: Command)
    | Apply(i: Id)

  predicate Enabled(g: Guards, s: Cluster, a: Action) {
    match a
    case Timeout(i) => i < |s.nodes| && s.nodes[i].role != Leader
    case Deliver(m) => m in s.msgs && m.dst < |s.nodes|
    case Replicate(i, peer) =>
      i < |s.nodes| && peer < |s.nodes| && peer != i &&
      (g.leaderOnly ==> s.nodes[i].role == Leader)
    case Propose(i, _) => i < |s.nodes| && s.nodes[i].role == Leader
    case Apply(i) => i < |s.nodes|
  }

  function Set(s: Cluster, i: Id, x: Node, sent: set<Msg>): Cluster
    requires i < |s.nodes|
  {
    Cluster(s.nodes[i := x], s.msgs + sent)
  }

  function Do(g: Guards, s: Cluster, a: Action): Cluster
    requires Enabled(g, s, a)
  {
    var n := |s.nodes|;
    match a
    case Timeout(i) => Set(s, i, StartElection(n, i, s.nodes[i]), VoteRequests(n, i, s.nodes[i]))
    case Deliver(m) =>
      var x := s.nodes[m.dst];
      (match m
       case VoteReq(_, _, _, _, _) =>
         var r := OnVoteReq(g, m.dst, x, m); Set(s, m.dst, r.0, {r.1})
       case VoteResp(_, _, _, _) => Set(s, m.dst, OnVoteResp(g, n, m.dst, x, m), {})
       case AppendReq(_, _, _, _, _, _, _) =>
         var r := OnAppendReq(g, m.dst, x, m); Set(s, m.dst, r.0, {r.1})
       case AppendResp(_, _, _, _, _, _) => Set(s, m.dst, OnAppendResp(g, n, m.dst, x, m), {}))
    case Replicate(i, peer) => Set(s, i, s.nodes[i], {AppendMessage(i, s.nodes[i], peer)})
    case Propose(i, command) => Set(s, i, Append(s.nodes[i], command), {})
    case Apply(i) => Set(s, i, ApplyOne(s.nodes[i]), {})
  }

  ghost predicate Init(s: Cluster) {
    s.msgs == {} && |s.nodes| > 0 && forall i | 0 <= i < |s.nodes| :: s.nodes[i] == InitNode
  }

  ghost predicate Next(g: Guards, s: Cluster, t: Cluster) {
    exists a :: Enabled(g, s, a) && t == Do(g, s, a)
  }

  ghost predicate IsRun(g: Guards, run: seq<Cluster>) {
    |run| > 0 && Init(run[0]) &&
    forall k {:trigger Next(g, run[k], run[k + 1])} | 0 <= k < |run| - 1 ::
      Next(g, run[k], run[k + 1])
  }

  /** A run without its last state is a run, and ends one step before. */
  lemma FrontIsRun(g: Guards, run: seq<Cluster>)
    requires IsRun(g, run) && |run| > 1
    ensures IsRun(g, run[..|run| - 1])
    ensures Next(g, run[|run| - 2], run[|run| - 1])
  {
    var front := run[..|run| - 1];
    forall k | 0 <= k < |front| - 1 ensures Next(g, front[k], front[k + 1]) {
      assert Next(g, run[k], run[k + 1]);
    }
    var k := |run| - 2;
    assert Next(g, run[k], run[k + 1]);
  }
}
