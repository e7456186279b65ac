/** Runs that go wrong when one of the three guards is missing. */
module RaftFlaws {
  import opened Wrappers
  import opened Commands
  import opened RaftTypes
  import opened RaftHandlers
  import opened RaftCluster
  import opened RaftTraces

  // ---- Without the first guard ----

  lemma FirstReign(g: Guards) returns (s: Cluster)
    ensures Reach(g, s) && |s.nodes| == 3
    ensures Is(s.nodes[0], Leader, 1, Some(0), [Entry(1, 1, NoOp(0))])
    ensures Leads(s.nodes[0], 3, 0, 1)
    ensures Is(s.nodes[1], Follower, 0, None, [])
    ensures Is(s.nodes[2], Follower, 1, Some(0), [])
  {
    hide Reach, Enabled, Do, OnAppendReq, Merge, Advance;
    s := Start(g, 3);
    s := Elect(g, s, 0, 2, 1);
  }

  /** Node 0 reigns in term 1 with an entry nobody else has; node 1 stands in vain. */
  lemma TwoStands(g: Guards) returns (s: Cluster)
    ensures Reach(g, s) && |s.nodes| == 3
    ensures Is(s.nodes[0], Follower, 2, None, [Entry(1, 1, NoOp(0))])
    ensures Is(s.nodes[1], Candidate, 2, Some(1), [])
    ensures Is(s.nodes[2], Follower, 1, Some(0), [])
  {
    hide Reach, Enabled, Do, OnAppendReq, Merge, Advance;
    s := FirstReign(g);
    s := Stand(g, s, 1, {0, 2});
    assert Call(s, 1, 0) == VoteReq(1, 0, 2, -1, 0);
    s := Stand(g, s, 1, {0, 2});
    s := Deny(g, s, VoteReq(1, 0, 2, -1, 0));
  }

  lemma SecondReign(g: Guards) returns (s: Cluster)
    ensures Reach(g, s) && |s.nodes| == 3
    ensures Is(s.nodes[0], Leader, 3, Some(0), [Entry(1, 1, NoOp(0)), Entry(3, 2, NoOp(0))])
    ensures Leads(s.nodes[0], 3, 0, 2)
    ensures Is(s.nodes[1], Follower, 3, Some(0), [])
    ensures Is(s.nodes[2], Follower, 1, Some(0), [])
  {
    hide Reach, Enabled, Do, OnAppendReq, Merge, Advance;
    s := TwoStands(g);
    s := Elect(g, s, 0, 1, 2);
  }

  /** Node 0 is re-elected in term 3 with node 1's vote; a message node 1 has to refuse
      then makes it forget that vote. */
  lemma ForgottenVote(g: Guards) returns (s: Cluster)
    requires !g.keepVote
    ensures Reach(g, s) && |s.nodes| == 3
    ensures Is(s.nodes[0], Leader, 3, Some(0), [Entry(1, 1, NoOp(0)), Entry(3, 2, NoOp(0))])
    ensures Leads(s.nodes[0], 3, 0, 2)
    ensures Is(s.nodes[1], Follower, 3, None, [])
    ensures Is(s.nodes[2], Follower, 1, Some(0), [])
    ensures AppendResp(1, 0, 3, false, 1, 2) in s.msgs
  {
    hide Reach, Enabled, Do, Advance;
    s := SecondReign(g);
    assert 1 in Peers(3, 0);
    s := Send(g, s, 0, 1);
    s := Take(g, s, AppendReq(0, 1, 3, 1, 1, [Entry(3, 2, NoOp(0))], 0));
  }

  /** Node 1 votes a second time in term 3, and node 2 leads beside node 0. */
  lemma TwoLeaders(g: Guards) returns (s: Cluster)
    requires !g.keepVote
    ensures Reach(g, s) && |s.nodes| == 3
    ensures Is(s.nodes[0], Leader, 3, Some(0), [Entry(1, 1, NoOp(0)), Entry(3, 2, NoOp(0))])
    ensures Leads(s.nodes[0], 3, 0, 2)
    ensures Is(s.nodes[1], Follower, 3, Some(2), [])
    ensures Is(s.nodes[2], Leader, 3, Some(2), [Entry(3, 1, NoOp(2))])
    ensures Leads(s.nodes[2], 3, 2, 1)
    ensures AppendResp(1, 0, 3, false, 1, 2) in s.msgs
  {
    hide Reach, Enabled, Do, OnAppendReq, Merge, Advance;
    s := ForgottenVote(g);
    s := Stand(g, s, 2, {0, 1});
    s := Elect(g, s, 2, 1, 0);
  }

  /** Node 2 commits and applies its first entry with node 1. */
  lemma FirstCommit(g: Guards) returns (s: Cluster)
    requires !g.keepVote
    ensures Reach(g, s) && |s.nodes| == 3
    ensures Is(s.nodes[0], Leader, 3, Some(0), [Entry(1, 1, NoOp(0)), Entry(3, 2, NoOp(0))])
    ensures Leads(s.nodes[0], 3, 0, 2)
    ensures Is(s.nodes[1], Follower, 3, None, [Entry(3, 1, NoOp(2))])
    ensures s.nodes[2].applied == [Entry(3, 1, NoOp(2))]
    ensures AppendResp(1, 0, 3, false, 1, 2) in s.msgs
  {
    hide Reach, Enabled, Do, OnAppendReq, Merge, Advance;
    s := TwoLeaders(g);
    assert 1 in Peers(3, 2);
    s := Ship(g, s, 2, AppendReq(2, 1, 3, 0, 0, [Entry(3, 1, NoOp(2))], 0));
    var x := s.nodes[2];
    var y := x.(matchIndex := x.matchIndex[1 := 1], nextIndex := x.nextIndex[1 := 2]);
    assert 1 in Storing(3, 2, y, 1);
    s := HearAndCommit(g, s, AppendResp(1, 2, 3, true, 1, 1), {1}, y);
    s := RunMachine(g, s, 2);
  }

  /** Node 0, still leading the same term, overwrites that entry on node 1. */
  lemma Overwritten(g: Guards) returns (s: Cluster)
    requires !g.keepVote
    ensures Reach(g, s) && |s.nodes| == 3
    ensures Is(s.nodes[0], Leader, 3, Some(0), [Entry(1, 1, NoOp(0)), Entry(3, 2, NoOp(0))])
    ensures s.nodes[2].applied == [Entry(3, 1, NoOp(2))]
    ensures AppendResp(1, 0, 3, true, 2, 1) in s.msgs
  {
    hide Reach, Enabled, Do, OnAppendReq, Merge, Advance;
    s := FirstCommit(g);
    assert 1 in Peers(3, 0);
    s := Hear(g, s, AppendResp(1, 0, 3, false, 1, 2));
    assert NextOf(s.nodes[0], 1) == 1;
    s := Ship(g, s, 0, AppendReq(0, 1, 3, 0, 0, [Entry(1, 1, NoOp(0)), Entry(3, 2, NoOp(0))], 0));
  }

  /** It then commits another first entry with node 1. */
  lemma VoteLost(g: Guards) returns (s: Cluster)
    requires !g.keepVote
    ensures Reach(g, s) && |s.nodes| == 3 && Diverged(s, 0, 2)
    ensures s.nodes[0].applied == [Entry(1, 1, NoOp(0))] && s.nodes[2].applied == [Entry(3, 1, NoOp(2))]
  {
    hide Reach, Enabled, Do, OnAppendReq, Merge, Advance;
    s := Overwritten(g);
    var x := s.nodes[0];
    var y := x.(matchIndex := x.matchIndex[1 := Max(MatchOf(x, 1), 2)],
                nextIndex := x.nextIndex[1 := 3]);
    assert 1 in Storing(3, 0, y, 2);
    s := HearAndCommit(g, s, AppendResp(1, 0, 3, true, 2, 1), {1}, y);
    s := RunMachine(g, s, 0);
    assert s.nodes[0].applied == [Entry(1, 1, NoOp(0))];
    assert s.nodes[0].applied[0] != s.nodes[2].applied[0];
  }

  // ---- Without the second guard ----

  /** After a first reign of node 0, node 1 reigns in term 2 with node 2's vote. */
  lemma Succession(g: Guards) returns (s: Cluster)
    ensures Reach(g, s) && |s.nodes| == 3
    ensures Is(s.nodes[0], Leader, 1, Some(0), [Entry(1, 1, NoOp(0))])
    ensures Leads(s.nodes[0], 3, 0, 1)
    ensures Is(s.nodes[1], Leader, 2, Some(1), [Entry(2, 1, NoOp(1))])
    ensures Leads(s.nodes[1], 3, 1, 1)
    ensures Is(s.nodes[2], Follower, 2, Some(1), [])
    ensures VoteReq(1, 0, 2, -1, 0) in s.msgs
  {
    hide Reach, Enabled, Do, OnAppendReq, Merge, Advance;
    s := FirstReign(g);
    s := Stand(g, s, 1, {0, 2});
    s := Elect(g, s, 1, 2, 0);
  }

  /** Node 1 commits and applies its first entry with node 2. */
  lemma SuccessorCommits(g: Guards) returns (s: Cluster)
    requires g.keepVote
    ensures Reach(g, s) && |s.nodes| == 3
    ensures Is(s.nodes[0], Leader, 1, Some(0), [Entry(1, 1, NoOp(0))])
    ensures Leads(s.nodes[0], 3, 0, 1)
    ensures s.nodes[1].applied == [Entry(2, 1, NoOp(1))]
    ensures Is(s.nodes[2], Follower, 2, Some(1), [Entry(2, 1, NoOp(1))])
    ensures VoteReq(1, 0, 2, -1, 0) in s.msgs
  {
    hide Reach, Enabled, Do, OnAppendReq, Merge, Advance;
    s := Succession(g);
    assert 2 in Peers(3, 1);
    s := Ship(g, s, 1, AppendReq(1, 2, 2, 0, 0, [Entry(2, 1, NoOp(1))], 0));
    var x := s.nodes[1];
    var y := x.(matchIndex := x.matchIndex[2 := 1], nextIndex := x.nextIndex[2 := 2]);
    assert 2 in Storing(3, 1, y, 1);
    s := HearAndCommit(g, s, AppendResp(2, 1, 2, true, 1, 1), {2}, y);
    s := RunMachine(g, s, 1);
  }

  /** Node 0 learns of term 2 and, leading no longer, still sends its old log in that term. */
  lemma FalseLeader(g: Guards) returns (s: Cluster)
    requires g.keepVote && !g.leaderOnly
    ensures Reach(g, s) && |s.nodes| == 3
    ensures Is(s.nodes[0], Follower, 2, None, [Entry(1, 1, NoOp(0))])
    ensures s.nodes[1].applied == [Entry(2, 1, NoOp(1))]
    ensures Is(s.nodes[2], Follower, 2, Some(1), [Entry(1, 1, NoOp(0))])
  {
    hide Reach, Enabled, Do, OnAppendReq, Merge, Advance;
    s := SuccessorCommits(g);
    s := Deny(g, s, VoteReq(1, 0, 2, -1, 0));
    assert 2 in Peers(3, 0);
    s := Ship(g, s, 0, AppendReq(0, 2, 2, 0, 0, [Entry(1, 1, NoOp(0))], 0));
  }

  /** It is re-elected with node 2's vote, and node 2 takes its new entry. */
  lemma FalseReign(g: Guards) returns (s: Cluster)
    requires g.keepVote && !g.leaderOnly
    ensures Reach(g, s) && |s.nodes| == 3
    ensures Is(s.nodes[0], Leader, 3, Some(0), [Entry(1, 1, NoOp(0)), Entry(3, 2, NoOp(0))])
    ensures Leads(s.nodes[0], 3, 0, 2)
    ensures s.nodes[1].applied == [Entry(2, 1, NoOp(1))]
    ensures AppendResp(2, 0, 3, true, 1, 2) in s.msgs
  {
    hide Reach, Enabled, Do, OnAppendReq, Merge, Advance;
    s := FalseLeader(g);
    s := Elect(g, s, 0, 2, 1);
    assert 2 in Peers(3, 0);
    s := Ship(g, s, 0, AppendReq(0, 2, 3, 1, 1, [Entry(3, 2, NoOp(0))], 0));
  }

  /** It commits another first entry. */
  lemma OldLogCommitted(g: Guards) returns (s: Cluster)
    requires g.keepVote && !g.leaderOnly
    ensures Reach(g, s) && |s.nodes| == 3 && Diverged(s, 0, 1)
    ensures s.nodes[0].applied == [Entry(1, 1, NoOp(0))] && s.nodes[1].applied == [Entry(2, 1, NoOp(1))]
  {
    hide Reach, Enabled, Do, OnAppendReq, Merge, Advance;
    s := FalseReign(g);
    assert 2 in Peers(3, 0);
    var x := s.nodes[0];
    var y := x.(matchIndex := x.matchIndex[2 := 2], nextIndex := x.nextIndex[2 := 3]);
    assert 2 in Storing(3, 0, y, 2);
    s := HearAndCommit(g, s, AppendResp(2, 0, 3, true, 1, 2), {2}, y);
    s := RunMachine(g, s, 0);
    assert s.nodes[0].applied == [Entry(1, 1, NoOp(0))];
    assert s.nodes[0].applied[0] != s.nodes[1].applied[0];
  }

  // ---- Without the third guard ----

  const NoAckCheck := Guards(true, true, false)

  const A1 := Entry(1, 1, NoOp(0))
  const A2 := Entry(1, 2, NoOp(0))
  const C1 := Entry(2, 1, NoOp(2))
  const A3 := Entry(3, 2, NoOp(0))
  const C2 := Entry(4, 2, NoOp(2))

  lemma FirstOfFive() returns (s: Cluster)
    ensures Reach(NoAckCheck, s) && |s.nodes| == 5
    ensures Is(s.nodes[0], Leader, 1, Some(0), [A1]) && Leads(s.nodes[0], 5, 0, 1)
    ensures Is(s.nodes[1], Follower, 1, Some(0), []) && Is(s.nodes[2], Follower, 1, Some(0), [])
    ensures Is(s.nodes[3], Follower, 0, None, []) && Is(s.nodes[4], Follower, 0, None, [])
  {
    hide Reach, Enabled, Do, OnAppendReq, Merge, Advance;
    s := Start(NoAckCheck, 5);
    s := ElectOfFive(NoAckCheck, s, 0, 1, 2, 3);
  }

  /** In a cluster of five, node 0 reigns in term 1; node 1 acknowledges two entries,
      and its response is delayed. */
  lemma DelayedAck() returns (s: Cluster)
    ensures Reach(NoAckCheck, s) && |s.nodes| == 5
    ensures Is(s.nodes[0], Leader, 1, Some(0), [A1, A2])
    ensures Is(s.nodes[1], Follower, 1, Some(0), [A1, A2])
    ensures Is(s.nodes[2], Follower, 1, Some(0), [])
    ensures Is(s.nodes[3], Follower, 0, None, []) && Is(s.nodes[4], Follower, 0, None, [])
    ensures AppendResp(1, 0, 1, true, 2, 1) in s.msgs
  {
    hide Reach, Enabled, Do, OnAppendReq, Merge, Advance;
    s := FirstOfFive();
    assert 1 in Peers(5, 0);
    s := Ask(NoAckCheck, s, 0, NoOp(0));
    assert Is(s.nodes[0], Leader, 1, Some(0), [A1, A2]) && NextOf(s.nodes[0], 1) == 1;
    s := Ship(NoAckCheck, s, 0, AppendReq(0, 1, 1, 0, 0, [A1, A2], 0));
  }

  lemma SecondOfFive() returns (s: Cluster)
    ensures Reach(NoAckCheck, s) && |s.nodes| == 5
    ensures Is(s.nodes[0], Leader, 1, Some(0), [A1, A2])
    ensures Is(s.nodes[1], Follower, 1, Some(0), [A1, A2])
    ensures Is(s.nodes[2], Leader, 2, Some(2), [C1]) && Leads(s.nodes[2], 5, 2, 1)
    ensures Is(s.nodes[3], Follower, 2, Some(2), []) && Is(s.nodes[4], Follower, 2, Some(2), [])
    ensures AppendResp(1, 0, 1, true, 2, 1) in s.msgs
  {
    hide Reach, Enabled, Do, OnAppendReq, Merge, Advance;
    s := DelayedAck();
    s := ElectOfFive(NoAckCheck, s, 2, 3, 4, 0);
  }

  /** Node 2 reigns in term 2 and replaces the log of node 0. */
  lemma Replaced() returns (s: Cluster)
    ensures Reach(NoAckCheck, s) && |s.nodes| == 5
    ensures Is(s.nodes[0], Follower, 2, None, [C1])
    ensures Is(s.nodes[1], Follower, 1, Some(0), [A1, A2])
    ensures Is(s.nodes[2], Leader, 2, Some(2), [C1])
    ensures Is(s.nodes[3], Follower, 2, Some(2), [C1]) && Is(s.nodes[4], Follower, 2, Some(2), [])
    ensures AppendResp(1, 0, 1, true, 2, 1) in s.msgs
  {
    hide Reach, Enabled, Do, OnAppendReq, Merge, Advance;
    s := SecondOfFive();
    assert 0 in Peers(5, 2) && 3 in Peers(5, 2);
    s := Ship(NoAckCheck, s, 2, AppendReq(2, 0, 2, 0, 0, [C1], 0));
    s := Ship(NoAckCheck, s, 2, AppendReq(2, 3, 2, 0, 0, [C1], 0));
  }

  lemma ThirdOfFive() returns (s: Cluster)
    ensures Reach(NoAckCheck, s) && |s.nodes| == 5
    ensures Is(s.nodes[0], Leader, 3, Some(0), [C1, A3]) && Leads(s.nodes[0], 5, 0, 2)
    ensures Is(s.nodes[1], Follower, 1, Some(0), [A1, A2])
    ensures Is(s.nodes[2], Leader, 2, Some(2), [C1])
    ensures Is(s.nodes[3], Follower, 3, Some(0), [C1]) && Is(s.nodes[4], Follower, 3, Some(0), [])
    ensures AppendResp(1, 0, 1, true, 2, 1) in s.msgs
    ensures VoteReq(0, 2, 3, 0, 2) in s.msgs
  {
    hide Reach, Enabled, Do, OnAppendReq, Merge, Advance;
    s := Replaced();
    s := ElectOfFive(NoAckCheck, s, 0, 3, 4, 2);
  }

  /** Node 0 reigns again, in term 3, and node 3 alone acknowledges its new entry. */
  lemma ThirdReign() returns (s: Cluster)
    ensures Reach(NoAckCheck, s) && |s.nodes| == 5
    ensures Is(s.nodes[0], Leader, 3, Some(0), [C1, A3]) && Leads(s.nodes[0], 5, 0, 2)
    ensures Is(s.nodes[1], Follower, 1, Some(0), [A1, A2])
    ensures Is(s.nodes[2], Follower, 3, Some(0), [C1])
    ensures Is(s.nodes[3], Follower, 3, Some(0), [C1, A3]) && Is(s.nodes[4], Follower, 3, Some(0), [])
    ensures AppendResp(1, 0, 1, true, 2, 1) in s.msgs
    ensures AppendResp(3, 0, 3, true, 1, 2) in s.msgs
  {
    hide Reach, Enabled, Do, OnAppendReq, Merge, Advance;
    s := ThirdOfFive();
    assert 3 in Peers(5, 0);
    s := Grant(NoAckCheck, s, VoteReq(0, 2, 3, 0, 2));
    s := Ship(NoAckCheck, s, 0, AppendReq(0, 3, 3, 1, 2, [A3], 0));
  }

  lemma StaleAckHeard() returns (s: Cluster)
    ensures Reach(NoAckCheck, s) && |s.nodes| == 5
    ensures var x := s.nodes[0];
            x.role == Leader && x.term == 3 && x.log == [C1, A3] && x.commitIndex <= 2 &&
            x.lastApplied == 0 && x.applied == [] && MatchOf(x, 1) == 2 && MatchOf(x, 3) == 0
    ensures Is(s.nodes[1], Follower, 1, Some(0), [A1, A2])
    ensures Is(s.nodes[2], Follower, 3, Some(0), [C1])
    ensures Is(s.nodes[3], Follower, 3, Some(0), [C1, A3]) && Is(s.nodes[4], Follower, 3, Some(0), [])
    ensures AppendResp(3, 0, 3, true, 1, 2) in s.msgs
  {
    hide Reach, Enabled, Do, OnAppendReq, Merge, Advance;
    s := ThirdReign();
    assert 1 in Peers(5, 0) && 3 in Peers(5, 0);
    s := Hear(NoAckCheck, s, AppendResp(1, 0, 1, true, 2, 1));
  }

  /** The delayed acknowledgement now counts for a log it never was about. */
  lemma FalseQuorum() returns (s: Cluster)
    ensures Reach(NoAckCheck, s) && |s.nodes| == 5
    ensures var x := s.nodes[0];
            x.role == Leader && x.term == 3 && x.log == [C1, A3] && x.commitIndex == 2 &&
            x.lastApplied == 0 && x.applied == []
    ensures Is(s.nodes[1], Follower, 1, Some(0), [A1, A2])
    ensures Is(s.nodes[2], Follower, 3, Some(0), [C1])
    ensures Is(s.nodes[3], Follower, 3, Some(0), [C1, A3]) && Is(s.nodes[4], Follower, 3, Some(0), [])
  {
    hide Reach, Enabled, Do, OnAppendReq, Merge, OnAppendResp, Advance;
    s := StaleAckHeard();
    var x := s.nodes[0];
    var y := x.(matchIndex := x.matchIndex[3 := 2], nextIndex := x.nextIndex[3 := 3]);
    assert Max(MatchOf(x, 3), 2) == 2;
    hide MatchOf, Storing;
    s := HearAndCommit(NoAckCheck, s, AppendResp(3, 0, 3, true, 1, 2), {1, 3}, y);
  }

  lemma FalselyApplied() returns (s: Cluster)
    ensures Reach(NoAckCheck, s) && |s.nodes| == 5
    ensures s.nodes[0].term == 3 && s.nodes[0].log == [C1, A3] && s.nodes[0].applied == [C1, A3]
    ensures s.nodes[0].commitIndex == 2
    ensures Is(s.nodes[1], Follower, 1, Some(0), [A1, A2])
    ensures Is(s.nodes[2], Follower, 3, Some(0), [C1])
    ensures Is(s.nodes[3], Follower, 3, Some(0), [C1, A3]) && Is(s.nodes[4], Follower, 3, Some(0), [])
  {
    hide Reach, Enabled, Do, OnAppendReq, Merge, OnAppendResp, Advance;
    s := FalseQuorum();
    s := RunMachine(NoAckCheck, s, 0);
    s := RunMachine(NoAckCheck, s, 0);
  }

  /** Node 2 reigns in term 4 with the votes of nodes that never had the entry. */
  lemma FourthOfFive() returns (s: Cluster)
    ensures Reach(NoAckCheck, s) && |s.nodes| == 5
    ensures s.nodes[0].term == 3 && s.nodes[0].log == [C1, A3] && s.nodes[0].applied == [C1, A3]
    ensures s.nodes[0].commitIndex == 2
    ensures Is(s.nodes[2], Leader, 4, Some(2), [C1, C2]) && Leads(s.nodes[2], 5, 2, 2)
    ensures Is(s.nodes[3], Follower, 3, Some(0), [C1, A3])
  {
    hide Reach, Enabled, Do, OnAppendReq, Merge, Advance;
    s := FalselyApplied();
    s := ElectOfFive(NoAckCheck, s, 2, 1, 4, 0);
  }

  lemma FourthAnswer() returns (s: Cluster)
    ensures Reach(NoAckCheck, s) && |s.nodes| == 5
    ensures s.nodes[0].term == 3 && s.nodes[0].log == [C1, A3] && s.nodes[0].applied == [C1, A3]
    ensures s.nodes[0].commitIndex == 2
    ensures Is(s.nodes[2], Leader, 4, Some(2), [C1, C2]) && Leads(s.nodes[2], 5, 2, 2)
    ensures AppendResp(3, 2, 4, true, 1, 2) in s.msgs
  {
    hide Reach, Enabled, Do, OnAppendReq, Merge, Advance;
    s := FourthOfFive();
    assert 3 in Peers(5, 2);
    s := Ship(NoAckCheck, s, 2, AppendReq(2, 3, 4, 1, 2, [C2], 0));
  }

  lemma FourthReign() returns (s: Cluster)
    ensures Reach(NoAckCheck, s) && |s.nodes| == 5
    ensures s.nodes[0].applied == [C1, A3]
    ensures Is(s.nodes[2], Leader, 4, Some(2), [C1, C2]) && Leads(s.nodes[2], 5, 2, 2)
    ensures AppendResp(3, 2, 4, true, 1, 2) in s.msgs
    ensures AppendResp(0, 2, 4, true, 1, 2) in s.msgs
  {
    hide Reach, Enabled, Do, OnAppendReq, Merge, Advance;
    s := FourthAnswer();
    assert 0 in Peers(5, 2);
    s := Ship(NoAckCheck, s, 2, AppendReq(2, 0, 4, 1, 2, [C2], 0));
  }

  /** One of the two answers is heard. */
  lemma OneHeard() returns (s: Cluster)
    ensures Reach(NoAckCheck, s) && |s.nodes| == 5
    ensures s.nodes[0].applied == [C1, A3]
    ensures var x := s.nodes[2];
            x.role == Leader && x.term == 4 && x.log == [C1, C2] && x.commitIndex <= 2 &&
            x.lastApplied == 0 && x.applied == [] && MatchOf(x, 3) == 2 && MatchOf(x, 0) == 0
    ensures AppendResp(0, 2, 4, true, 1, 2) in s.msgs
  {
    hide Reach, Enabled, Do, OnAppendReq, Merge, Advance;
    s := FourthReign();
    assert 0 in Peers(5, 2) && 3 in Peers(5, 2);
    s := Hear(NoAckCheck, s, AppendResp(3, 2, 4, true, 1, 2));
  }

  lemma OtherCommitted() returns (s: Cluster)
    ensures Reach(NoAckCheck, s) && |s.nodes| == 5
    ensures s.nodes[0].applied == [C1, A3]
    ensures var x := s.nodes[2];
            x.log == [C1, C2] && x.commitIndex == 2 && x.lastApplied == 0 && x.applied == []
  {
    hide Reach, Enabled, Do, OnAppendReq, Merge, Advance;
    s := OneHeard();
    var x := s.nodes[2];
    var y := x.(matchIndex := x.matchIndex[0 := 2], nextIndex := x.nextIndex[0 := 3]);
    assert Max(MatchOf(x, 0), 2) == 2;
    hide MatchOf, Storing;
    s := HearAndCommit(NoAckCheck, s, AppendResp(0, 2, 4, true, 1, 2), {0, 3}, y);
  }

  lemma AppliesTwo(x: Node)
    requires x.log == [C1, C2] && x.commitIndex == 2 && x.lastApplied == 0 && x.applied == []
    ensures ApplyOne(ApplyOne(x)).applied == [C1, C2]
  {
  }

  /** It commits another second entry. */
  lemma StaleAckCounted() returns (s: Cluster)
    ensures Reach(NoAckCheck, s) && |s.nodes| == 5 && Diverged(s, 0, 2)
    ensures s.nodes[0].applied == [C1, A3] && s.nodes[2].applied == [C1, C2]
  {
    hide Reach, Enabled, Do, OnAppendReq, Merge, Advance;
    s := OtherCommitted();
    AppliesTwo(s.nodes[2]);
    hide ApplyOne;
    s := RunMachine(NoAckCheck, s, 2);
    s := RunMachine(NoAckCheck, s, 2);
    assert s.nodes[2].applied[1] != s.nodes[0].applied[1];
  }
}
