/** The safety theorems of the repaired protocol, over whole runs. */
module RaftSafety {
  import opened Commands
  import opened RaftTypes
  import opened RaftHandlers
  import opened RaftCluster
  import opened RaftHistory
  import opened RaftLogs
  import opened RaftInvariant
  import opened RaftElectionSteps
  import opened RaftReplicationSteps

  lemma InitInv(s: Cluster)
    requires Init(s)
    ensures Inv(s, EmptyHistory)
  {
  }

  lemma ActionInv(s: Cluster, h: History, a: Action) returns (h': History)
    requires Inv(s, h) && Enabled(Repaired, s, a)
    ensures Inv(Do(Repaired, s, a), h') && Grows(h, h')
  {
    h' := h;
    match a
    case Timeout(i) => h' := TimeoutStep(s, h, i);
    case Replicate(i, peer) => ReplicateStep(s, h, i, peer);
    case Propose(i, command) => h' := ProposeStep(s, h, i, command);
    case Apply(i) => ApplyStep(s, h, i);
    case Deliver(m) =>
      if m.VoteReq? {
        h' := VoteReqStep(s, h, m);
      } else if m.VoteResp? {
        h' := VoteRespStep(s, h, m);
      } else if m.AppendResp? {
        AppendRespStep(s, h, m);
      } else if OnAppendReq(Repaired, m.dst, s.nodes[m.dst], m).1.success {
        h' := AcceptStep(s, h, m);
      } else {
        RefuseStep(s, h, m);
      }
  }

  /** One history per state of a run, each extending the ones before. */
  ghost predicate Histories(run: seq<Cluster>, hs: seq<History>) {
    |hs| == |run| && (forall k | 0 <= k < |run| :: Inv(run[k], hs[k])) &&
    (forall j, k | 0 <= j <= k < |run| :: Grows(hs[j], hs[k])) &&
    (forall k | 0 <= k < |run| :: |run[k].nodes| == |run[0].nodes|)
  }

  lemma ExtendHistories(run: seq<Cluster>, gs: seq<History>, h: History)
    requires |run| > 1 && Histories(run[..|run| - 1], gs)
    requires Inv(run[|run| - 1], h) && Grows(gs[|run| - 2], h)
    requires |run[|run| - 1].nodes| == |run[|run| - 2].nodes|
    ensures Histories(run, gs + [h])
  {
    var n, hs := |run| - 1, gs + [h];
    var front := run[..n];
    forall k | 0 <= k < |run| ensures Inv(run[k], hs[k]) && |run[k].nodes| == |run[0].nodes| {
      if k < n {
        assert Inv(front[k], gs[k]) && |front[k].nodes| == |front[0].nodes|;
      } else {
        assert |front[n - 1].nodes| == |front[0].nodes|;
      }
    }
    forall j, k | 0 <= j <= k < |run| ensures Grows(hs[j], hs[k]) {
      if k < n {
        assert Grows(gs[j], gs[k]);
      } else if j < n {
        assert Grows(gs[j], gs[n - 1]);
        GrowsTransitive(gs[j], gs[n - 1], h);
      }
    }
  }

  lemma NextInv(s: Cluster, h: History, t: Cluster) returns (h': History)
    requires Inv(s, h) && Next(Repaired, s, t)
    ensures Inv(t, h') && Grows(h, h') && |t.nodes| == |s.nodes|
  {
    hide Inv, Grows, OnVoteReq, OnVoteResp, OnAppendReq, OnAppendResp, StartElection, VoteRequests,
         AppendMessage, ApplyOne;
    var a :| Enabled(Repaired, s, a) && t == Do(Repaired, s, a);
    h' := ActionInv(s, h, a);
  }

  lemma {:induction false} RunHistories(run: seq<Cluster>) returns (hs: seq<History>)
    requires IsRun(Repaired, run)
    ensures Histories(run, hs)
    decreases |run|
  {
    hide Inv, Next;
    if |run| == 1 {
      InitInv(run[0]);
      hs := [EmptyHistory];
    } else {
      var n := |run| - 1;
      FrontIsRun(Repaired, run);
      var gs := RunHistories(run[..n]);
      assert Inv(run[..n][n - 1], gs[n - 1]);
      var h := NextInv(run[n - 1], gs[n - 1], run[n]);
      ExtendHistories(run, gs, h);
      hs := gs + [h];
    }
  }

  /** What node a has committed at moment p, seen from the history at moment q. */
  lemma CommittedSeenLater(run: seq<Cluster>, hs: seq<History>, p: nat, q: nat, a: Id)
    requires Histories(run, hs) && p <= q < |run| && a < |run[0].nodes|
    ensures a < |run[p].nodes|
    ensures var x := run[p].nodes[a];
            CommittedPrefix(hs[q], |run[0].nodes|, x.log, x.commitIndex, x.term) &&
            x.lastApplied <= x.commitIndex <= |x.log| && x.applied == x.log[..x.lastApplied]
  {
    var n := |run[0].nodes|;
    assert Inv(run[p], hs[p]);
    var x := run[p].nodes[a];
    assert NodeOk(hs[p], n, a, x);
    assert Grows(hs[p], hs[q]);
    CommittedPrefixGrows(hs[p], hs[q], n, x.log, x.log, x.commitIndex, x.term, x.term);
  }

  lemma PrefixesApplied(a: seq<Entry>, c: nat, k: nat, b: seq<Entry>, d: nat, l: nat)
    requires k <= c <= |a| && l <= d <= |b|
    requires a[..c] <= b[..d] || b[..d] <= a[..c]
    ensures a[..k] <= b[..l] || b[..l] <= a[..k]
  {
  }

  /** State machine safety: whatever two nodes have applied, at any two moments of a run,
      one is the beginning of the other. */
  lemma StateMachineSafety(run: seq<Cluster>, p: nat, q: nat, a: Id, b: Id)
    requires IsRun(Repaired, run) && p < |run| && q < |run|
    requires a < |run[p].nodes| && b < |run[q].nodes|
    ensures run[p].nodes[a].applied <= run[q].nodes[b].applied ||
            run[q].nodes[b].applied <= run[p].nodes[a].applied
  {
    var hs := RunHistories(run);
    var last, n := |run| - 1, |run[0].nodes|;
    CommittedSeenLater(run, hs, p, last, a);
    CommittedSeenLater(run, hs, q, last, b);
    var x, y := run[p].nodes[a], run[q].nodes[b];
    assert Inv(run[last], hs[last]);
    CommittedPrefixesAgree(hs[last], n, x.log, x.commitIndex, x.term,
                           y.log, y.commitIndex, y.term);
    PrefixesApplied(x.log, x.commitIndex, x.lastApplied, y.log, y.commitIndex, y.lastApplied);
  }

  /** Leader completeness: what any node has committed by some moment is in the log of
      every node that leads, from then on, in that node's term or a later one. */
  lemma LeadersHaveCommitted(run: seq<Cluster>, p: nat, q: nat, a: Id, b: Id)
    requires IsRun(Repaired, run) && p <= q < |run|
    requires a < |run[p].nodes| && b < |run[q].nodes|
    requires run[q].nodes[b].role == Leader && run[q].nodes[b].term >= run[p].nodes[a].term
    ensures run[p].nodes[a].commitIndex <= |run[p].nodes[a].log|
    ensures run[p].nodes[a].log[..run[p].nodes[a].commitIndex] <= run[q].nodes[b].log
  {
    var hs := RunHistories(run);
    var n := |run[0].nodes|;
    CommittedSeenLater(run, hs, p, q, a);
    var x, y := run[p].nodes[a], run[q].nodes[b];
    assert Inv(run[q], hs[q]);
    assert NodeOk(hs[q], n, b, y);
    LeaderHasCommitted(hs[q], n, x.log, x.commitIndex, x.term, y.term);
  }

  /** Log matching, with the shape of every log: each entry carries its own position and
      terms never decrease along a log. */
  lemma LogMatching(run: seq<Cluster>, p: nat, a: Id, b: Id, k: nat)
    requires IsRun(Repaired, run) && p < |run|
    requires a < |run[p].nodes| && b < |run[p].nodes|
    requires k < |run[p].nodes[a].log| && k < |run[p].nodes[b].log|
    ensures run[p].nodes[a].log[k].index == k + 1
    ensures forall j | 0 <= j <= k :: run[p].nodes[a].log[j].term <= run[p].nodes[a].log[k].term
    ensures run[p].nodes[a].log[k].term == run[p].nodes[b].log[k].term ==>
            run[p].nodes[a].log[..k + 1] == run[p].nodes[b].log[..k + 1]
  {
    var hs := RunHistories(run);
    var n, x, y := |run[p].nodes|, run[p].nodes[a], run[p].nodes[b];
    assert Inv(run[p], hs[p]);
    assert NodeOk(hs[p], n, a, x) && NodeOk(hs[p], n, b, y);
    if x.log[k].term == y.log[k].term {
    }
  }

  /** The applied sequence has no gap: it is the log's beginning, in index order. */
  lemma AppliedInOrder(run: seq<Cluster>, p: nat, a: Id)
    requires IsRun(Repaired, run) && p < |run| && a < |run[p].nodes|
    ensures var x := run[p].nodes[a];
            |x.applied| == x.lastApplied <= x.commitIndex <= |x.log| && x.applied <= x.log &&
            forall k | 0 <= k < |x.applied| :: x.applied[k].index == k + 1
  {
    var hs := RunHistories(run);
    assert Inv(run[p], hs[p]);
    assert NodeOk(hs[p], |run[p].nodes|, a, run[p].nodes[a]);
  }

  lemma AcceptRaises(h: History, n: nat, i: Id, x: Node, m: Msg)
    requires HistoryOk(h, n) && NodeOk(h, n, i, x) && m.AppendReq? && m.dst == i
    requires AppendReqOk(h, n, m) && OnAppendReq(Repaired, i, x, m).1.success
    ensures OnAppendReq(Repaired, i, x, m).0.commitIndex >= x.commitIndex
  {
    hide HistoryOk;
    HearLeader(h, n, i, x, m);
    MergedLogOk(h, n, i, BecomeFollower(Repaired, x, m.term), m);
  }

  lemma CommitRises(s: Cluster, h: History, a: Action, i: Id)
    requires Inv(s, h) && Enabled(Repaired, s, a) && i < |s.nodes|
    ensures Do(Repaired, s, a).nodes[i].commitIndex >= s.nodes[i].commitIndex
    ensures s.nodes[i].applied <= Do(Repaired, s, a).nodes[i].applied
  {
    hide HistoryOk, NodeOk, Merge, Advance, AppendMessage, VoteRequests, Grants, Peers;
    if a.Deliver? && a.m.AppendReq? && a.m.dst == i &&
       OnAppendReq(Repaired, i, s.nodes[i], a.m).1.success {
      assert NodeOk(h, |s.nodes|, i, s.nodes[i]) && MsgOk(h, |s.nodes|, s.nodes, a.m);
      AcceptRaises(h, |s.nodes|, i, s.nodes[i], a.m);
    }
  }

  lemma CommitRisesAt(run: seq<Cluster>, k: nat, a: Id)
    requires IsRun(Repaired, run) && k < |run| - 1 && a < |run[k].nodes|
    ensures |run[k + 1].nodes| == |run[k].nodes|
    ensures run[k].nodes[a].commitIndex <= run[k + 1].nodes[a].commitIndex
    ensures run[k].nodes[a].applied <= run[k + 1].nodes[a].applied
  {
    assert Next(Repaired, run[k], run[k + 1]);
    var step :| Enabled(Repaired, run[k], step) && run[k + 1] == Do(Repaired, run[k], step);
    var hs := RunHistories(run);
    assert Inv(run[k], hs[k]);
    CommitRises(run[k], hs[k], step, a);
  }

  /** A commit index never falls and an applied entry is never taken back. */
  lemma {:induction false} CommitNeverFalls(run: seq<Cluster>, p: nat, q: nat, a: Id)
    requires IsRun(Repaired, run) && p <= q < |run| && a < |run[p].nodes|
    ensures |run[q].nodes| == |run[p].nodes|
    ensures run[p].nodes[a].commitIndex <= run[q].nodes[a].commitIndex
    ensures run[p].nodes[a].applied <= run[q].nodes[a].applied
    decreases q
  {
    if p < q {
      CommitNeverFalls(run, p, q - 1, a);
      CommitRisesAt(run, q - 1, a);
    }
  }
}
