/** Exactly which guards the protocol needs. */
module RaftGuards {
  import opened RaftTypes
  import opened RaftCluster
  import opened RaftElection
  import opened RaftSafety
  import opened RaftTraces
  import opened RaftFlaws

  /** State machine safety of one run. */
  ghost predicate Agreement(run: seq<Cluster>) {
    forall p, q, a, b {:trigger run[p].nodes[a], run[q].nodes[b]} |
      0 <= p < |run| && 0 <= q < |run| && 0 <= a < |run[p].nodes| && 0 <= b < |run[q].nodes| ::
      run[p].nodes[a].applied <= run[q].nodes[b].applied ||
      run[q].nodes[b].applied <= run[p].nodes[a].applied
  }

  lemma RepairedAgrees(run: seq<Cluster>)
    requires IsRun(Repaired, run)
    ensures Agreement(run)
  {
    forall p, q, a, b | 0 <= p < |run| && 0 <= q < |run| &&
                        0 <= a < |run[p].nodes| && 0 <= b < |run[q].nodes|
      ensures run[p].nodes[a].applied <= run[q].nodes[b].applied ||
              run[q].nodes[b].applied <= run[p].nodes[a].applied
    {
      StateMachineSafety(run, p, q, a, b);
    }
  }

  /** In every run of every cluster all nodes apply the same commands in the same order,
      if and only if all three guards are there. src/consensus/raft.py has none of them. */
  lemma AgreementNeedsEveryGuard(g: Guards)
    ensures (forall run | IsRun(g, run) :: Agreement(run)) <==> g == Repaired
  {
    if g == Repaired {
      forall run | IsRun(g, run) ensures Agreement(run) {
        RepairedAgrees(run);
      }
    } else if !g.keepVote {
      var s := VoteLost(g);
    } else if !g.leaderOnly {
      var s := OldLogCommitted(g);
    } else {
      assert g == NoAckCheck;
      var s := StaleAckCounted();
    }
  }

  /** At most one leader per term in every run, if and only if votes are kept. */
  lemma ElectionSafetyNeedsKeptVotes(g: Guards)
    ensures (forall run | IsRun(g, run) :: OneLeaderPerTerm(run)) <==> g.keepVote
  {
    if g.keepVote {
      forall run | IsRun(g, run) ensures OneLeaderPerTerm(run) {
        ElectionSafety(g, run);
      }
    } else {
      var s := TwoLeaders(g);
      var run: seq<Cluster> :| IsRun(g, run) && run[|run| - 1] == s;
      var x, y := run[|run| - 1].nodes[0], run[|run| - 1].nodes[2];
      assert x.role == y.role == Leader && x.term == y.term;
      assert !OneLeaderPerTerm(run);
    }
  }

  /** The handlers of src/consensus/raft.py as they stand have runs with two leaders in a term, and
      runs in which two nodes apply different commands. */
  lemma AsWrittenFails()
    ensures exists run :: IsRun(AsWritten, run) && !OneLeaderPerTerm(run)
    ensures exists run :: IsRun(AsWritten, run) && !Agreement(run)
  {
    ElectionSafetyNeedsKeptVotes(AsWritten);
    AgreementNeedsEveryGuard(AsWritten);
  }
}
