/** Runs in which things go right, under any guards, the repaired ones included: the theorems about
    runs are not empty. */
module RaftProgress {
  import opened Wrappers
  import opened Commands
  import opened RaftTypes
  import opened RaftHandlers
  import opened RaftCluster
  import opened RaftTraces
  import opened RaftFlaws

  /** Node 0 leads, and node 1 has taken and acknowledged its first entry. */
  lemma Replicated(g: Guards) returns (s: Cluster)
    ensures Reach(g, s) && |s.nodes| == 3
    ensures Is(s.nodes[0], Leader, 1, Some(0), [Entry(1, 1, NoOp(0))]) && Leads(s.nodes[0], 3, 0, 1)
    ensures Is(s.nodes[1], Follower, 1, None, [Entry(1, 1, NoOp(0))])
    ensures AppendResp(1, 0, 1, true, 1, 1) in s.msgs
  {
    hide Reach, OnAppendReq, Merge, Advance;
    s := FirstReign(g);
    assert 1 in Peers(3, 0);
    s := Ship(g, s, 0, AppendReq(0, 1, 1, 0, 0, [Entry(1, 1, NoOp(0))], 0));
  }

  /** Node 0 has committed and applied that entry, and node 1 does not know it yet. */
  lemma Committed(g: Guards) returns (s: Cluster)
    ensures Reach(g, s) && |s.nodes| == 3
    ensures var x := s.nodes[0];
            x.role == Leader && x.term == 1 && x.log == [Entry(1, 1, NoOp(0))] && x.commitIndex == 1 &&
            x.applied == [Entry(1, 1, NoOp(0))] && NextOf(x, 1) == 2
    ensures Is(s.nodes[1], Follower, 1, None, [Entry(1, 1, NoOp(0))])
  {
    hide Reach, OnAppendReq, Merge, Advance;
    s := Replicated(g);
    assert 1 in Peers(3, 0);
    var x := s.nodes[0];
    var y := x.(matchIndex := x.matchIndex[1 := 1], nextIndex := x.nextIndex[1 := 2]);
    assert 1 in Storing(3, 0, y, 1);
    s := HearAndCommit(g, s, AppendResp(1, 0, 1, true, 1, 1), {1}, y);
    s := RunMachine(g, s, 0);
  }

  lemma HeartbeatCommits(g: Guards, x: Node)
    requires Is(x, Follower, 1, x.votedFor, [Entry(1, 1, NoOp(0))])
    ensures OnAppendReq(g, 1, x, AppendReq(0, 1, 1, 1, 1, [], 1)).0 ==
            BecomeFollower(g, x, 1).(commitIndex := 1)
  {
  }

  /** A heartbeat without entries then tells node 1 to commit, and its state machine applies the
      entry as well. */
  lemma FollowerApplies(g: Guards) returns (s: Cluster)
    ensures Reach(g, s) && |s.nodes| == 3
    ensures s.nodes[0].role == Leader && s.nodes[1].role == Follower
    ensures s.nodes[1].commitIndex == 1 && s.nodes[0].applied == s.nodes[1].applied == [Entry(1, 1, NoOp(0))]
  {
    hide Reach, OnAppendReq, Merge, Advance;
    s := Committed(g);
    var beat := AppendReq(0, 1, 1, 1, 1, [], 1);
    assert AppendMessage(0, s.nodes[0], 1) == beat;
    s := Send(g, s, 0, 1);
    HeartbeatCommits(g, s.nodes[1]);
    s := Take(g, s, beat);
    s := RunMachine(g, s, 1);
  }
}
