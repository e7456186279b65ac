/** Timeouts, vote requests and vote responses keep the invariant. */
module RaftElectionSteps {
  import opened Wrappers
  import opened Commands
  import opened RaftTypes
  import opened RaftHandlers
  import opened RaftCluster
  import opened RaftHistory
  import opened RaftLogs
  import opened RaftInvariant

  // ---- Stepping down ----

  lemma FollowerOk(h: History, n: nat, i: Id, x: Node, term: nat)
    requires NodeOk(h, n, i, x) && term >= x.term
    requires term == x.term ==> x.role != Leader
    ensures NodeOk(h, n, i, BecomeFollower(Repaired, x, term))
  {
    forall a | a in h.acks && a.node == i
      ensures a.term <= term && Kept(h, a, x.log, term)
    {
      KeptLonger(h, a, x.log, x.log, x.term, term);
    }
    CommittedPrefixGrows(h, h, n, x.log, x.log, x.commitIndex, x.term, term);
  }

  lemma StepDown(s: Cluster, h: History, i: Id, term: nat)
    requires Inv(s, h) && i < |s.nodes| && term > s.nodes[i].term
    ensures Inv(Set(s, i, BecomeFollower(Repaired, s.nodes[i], term), {}), h)
  {
    assert NodeOk(h, |s.nodes|, i, s.nodes[i]);
    FollowerOk(h, |s.nodes|, i, s.nodes[i], term);
    QuietStepKeepsInv(s, h, i, BecomeFollower(Repaired, s.nodes[i], term), {});
  }

  lemma Unmoved(s: Cluster, h: History, i: Id, sent: set<Msg>)
    requires Inv(s, h) && i < |s.nodes|
    requires forall m | m in sent :: MsgOk(h, |s.nodes|, s.nodes, m)
    ensures Inv(Set(s, i, s.nodes[i], sent), h)
  {
    assert NodeOk(h, |s.nodes|, i, s.nodes[i]);
    assert s.nodes[i := s.nodes[i]] == s.nodes;
    QuietStepKeepsInv(s, h, i, s.nodes[i], sent);
  }

  // ---- Elections ----

  ghost function WithBallot(h: History, t: nat, v: Id, b: Ballot): History {
    h.(ballots := h.ballots[(t, v) := b])
  }

  lemma BallotGrows(h: History, n: nat, t: nat, v: Id, x: Node, b: Ballot)
    requires HistoryOk(h, n) && NodeOk(h, n, v, x)
    requires (t, v) !in h.ballots && 1 <= t && x.term <= t && v < n && b.candidate < n
    requires b.voterLog == x.log && LogOk(b.lastIndex, b.lastTerm, x.log)
    ensures Grows(h, WithBallot(h, t, v, b)) && HistoryOk(WithBallot(h, t, v, b), n)
  {
    var h' := WithBallot(h, t, v, b);
    forall a | a in h'.acks && a.node == v && a.term < t
      ensures Kept(h', a, b.voterLog, t)
    {
      KeptLonger(h, a, x.log, x.log, x.term, t);
      KeptGrows(h, h', n, a, x.log, t);
    }
    HistoryGrows(h, h', n);
  }

  /** A candidate that already voted for itself and nothing else moved: the ballot fits. */
  lemma BallotNodeOk(h: History, n: nat, i: Id, x: Node, y: Node, t: nat, b: Ballot)
    requires HistoryOk(h, n) && NodeOk(h, n, i, x) && t == y.term && x.term <= t
    requires (t, i) !in h.ballots && Grows(h, WithBallot(h, t, i, b))
    requires y.log == x.log && y.commitIndex == x.commitIndex
    requires y.lastApplied == x.lastApplied && y.applied == x.applied
    requires y.votedFor == Some(b.candidate)
    requires (y == x.(votedFor := y.votedFor) && b.candidate != i) ||
             (t == x.term + 1 && y.role == Candidate && y.votes == {i} && b.candidate == i &&
              i < n && b.lastIndex == |x.log| - 1 && b.lastTerm == LastTerm(x.log))
    ensures NodeOk(WithBallot(h, t, i, b), n, i, y)
  {
    var h' := WithBallot(h, t, i, b);
    CommittedPrefixGrows(h, h', n, x.log, y.log, x.commitIndex, x.term, y.term);
    forall a | a in h'.acks && a.node == i
      ensures a.term <= y.term && Kept(h', a, y.log, y.term)
    {
      KeptGrows(h, h', n, a, x.log, x.term);
      KeptLonger(h', a, x.log, y.log, x.term, y.term);
    }
    assert WellFormed(y.log, y.term);
    assert VotesOk(h', n, i, y);
    if y.role == Leader {
      assert forall p :: NextOf(y, p) == NextOf(x, p) && MatchOf(y, p) == MatchOf(x, p);
    }
  }

  ghost function WithReign(h: History, n: nat, i: Id, c: Node): History {
    var y := BecomeLeader(n, i, c);
    h.(reigns := h.reigns[c.term := Reign(i, |c.log|, y.log, c.votes)],
       acks := h.acks + {Ack(i, c.term, |y.log|)})
  }

  lemma VotersOf(h: History, n: nat, t: nat)
    requires HistoryOk(h, n) && t in h.reigns
    ensures h.reigns[t].voters <= Ids(n) && |h.reigns[t].voters| >= Quorum(n)
  {
    assert ReignOk(h, n, t);
  }

  lemma VotedFor(h: History, n: nat, t: nat, v: Id)
    requires HistoryOk(h, n) && t in h.reigns && v in h.reigns[t].voters
    ensures (t, v) in h.ballots && h.ballots[(t, v)].candidate == h.reigns[t].leader
  {
    assert ReignOk(h, n, t);
    assert VoterOk(h, t, h.reigns[t], v);
  }

  /** Election safety: a candidate with a quorum of votes finds no earlier leader of its term. */
  lemma NoOtherLeader(h: History, n: nat, i: Id, c: Node)
    requires HistoryOk(h, n) && VotesOk(h, n, i, c) && ReignsOk(h, i, c)
    requires c.role == Candidate && |c.votes| >= Quorum(n)
    ensures c.term !in h.reigns
  {
    if c.term in h.reigns {
      VotersOf(h, n, c.term);
      var v := QuorumsMeet(c.votes, h.reigns[c.term].voters, n);
      VotedFor(h, n, c.term, v);
      assert false;
    }
  }

  /** Before a term has a leader, no leader of that term can have displaced anything. */
  lemma KeptBefore(h: History, a: Ack, log: seq<Entry>, t: nat)
    requires Kept(h, a, log, t) && t !in h.reigns
    ensures Kept(h, a, log, t - 1)
  {
    forall l {:trigger KeptAt(h, a.term, l, log, t - 1)} | 0 <= l <= a.len
      ensures KeptAt(h, a.term, l, log, t - 1)
    {
      assert KeptAt(h, a.term, l, log, t);
    }
  }

  lemma NewReignLog(h: History, n: nat, i: Id, c: Node)
    requires WellFormed(c.log, c.term) && Canonical(h, c.log) && 1 <= c.term
    requires c.term !in h.reigns && Grows(h, WithReign(h, n, i, c))
    ensures var h' := WithReign(h, n, i, c);
            var log := BecomeLeader(n, i, c).log;
            WellFormed(log, c.term) && Canonical(h', log) &&
            (forall k | 0 <= k < |c.log| :: log[k].term < c.term) &&
            log[|c.log|].term == c.term && log[..|c.log|] == c.log
  {
    var h', log := WithReign(h, n, i, c), BecomeLeader(n, i, c).log;
    forall k | 0 <= k < |log|
      ensures log[k].term in h'.reigns && log[..k + 1] <= h'.reigns[log[k].term].log
      ensures k < |c.log| ==> log[k].term < c.term
    {
      if k < |c.log| {
        assert log[k] == c.log[k] && log[..k + 1] == c.log[..k + 1];
        assert c.log[k].term in h.reigns;
      } else {
        assert log[..k + 1] == log;
      }
    }
  }

  lemma NewReignVoter(h: History, n: nat, i: Id, c: Node, v: Id)
    requires HistoryOk(h, n) && VotesOk(h, n, i, c) && c.role == Candidate && v in c.votes
    requires c.term !in h.reigns && Grows(h, WithReign(h, n, i, c))
    ensures 1 <= c.term
    ensures VoterOk(WithReign(h, n, i, c), c.term, WithReign(h, n, i, c).reigns[c.term], v)
  {
    var h', t := WithReign(h, n, i, c), c.term;
    assert BallotOk(h, n, t, v);
    var b := h.ballots[(t, v)];
    assert h'.reigns[t].log[..|c.log|] == c.log;
    forall a | a in h'.acks && a.node == v && a.term < t
      ensures Kept(h', a, b.voterLog, t - 1)
    {
      KeptBefore(h, a, b.voterLog, t);
      KeptGrows(h, h', n, a, b.voterLog, t - 1);
    }
  }

  lemma WinGrows(h: History, n: nat, i: Id, c: Node)
    requires VotesOk(h, n, i, c) && c.term !in h.reigns
    ensures Grows(h, WithReign(h, n, i, c)) && NoLateAcks(h, WithReign(h, n, i, c))
  {
  }

  lemma WinReign(h: History, n: nat, i: Id, c: Node)
    requires HistoryOk(h, n) && VotesOk(h, n, i, c) && i < n
    requires WellFormed(c.log, c.term) && Canonical(h, c.log)
    requires c.role == Candidate && c.votes != {} && |c.votes| >= Quorum(n)
    requires c.term !in h.reigns && Grows(h, WithReign(h, n, i, c))
    ensures ReignOk(WithReign(h, n, i, c), n, c.term)
  {
    hide HistoryOk, VoterOk, WellFormed, Canonical, Grows;
    var h', t := WithReign(h, n, i, c), c.term;
    var r := h'.reigns[t];
    forall v | v in r.voters ensures 1 <= t && VoterOk(h', t, r, v) {
      NewReignVoter(h, n, i, c, v);
    }
    var v :| v in r.voters;
    assert VoterOk(h', t, r, v);
    NewReignLog(h, n, i, c);
    assert r.voters <= Ids(n);
  }

  lemma WinAcks(h: History, n: nat, i: Id, c: Node)
    requires HistoryOk(h, n) && AcksOk(h, i, c) && c.term !in h.reigns
    requires Grows(h, WithReign(h, n, i, c))
    ensures AcksOk(WithReign(h, n, i, c), i, BecomeLeader(n, i, c))
  {
  }

  lemma WinCommit(h: History, h': History, n: nat, i: Id, c: Node)
    requires Grows(h, h') && CommitOk(h, n, c)
    ensures CommitOk(h', n, BecomeLeader(n, i, c))
  {
    var y := BecomeLeader(n, i, c);
    assert y.log[..c.commitIndex] == c.log[..c.commitIndex];
    CommittedPrefixGrows(h, h', n, c.log, y.log, c.commitIndex, c.term, y.term);
    assert y.log[..c.lastApplied] == c.log[..c.lastApplied];
  }

  lemma WinLeader(h: History, n: nat, i: Id, c: Node)
    requires ReignsOk(h, i, c) && c.role == Candidate && c.term !in h.reigns
    ensures ReignsOk(WithReign(h, n, i, c), i, BecomeLeader(n, i, c))
  {
  }

  lemma WinNode(h: History, n: nat, i: Id, c: Node)
    requires HistoryOk(h, n) && NodeOk(h, n, i, c) && i < n
    requires c.role == Candidate && c.term !in h.reigns
    requires Grows(h, WithReign(h, n, i, c)) && ReignOk(WithReign(h, n, i, c), n, c.term)
    ensures NodeOk(WithReign(h, n, i, c), n, i, BecomeLeader(n, i, c))
  {
    WinCommit(h, WithReign(h, n, i, c), n, i, c);
    WinAcks(h, n, i, c);
    WinLeader(h, n, i, c);
  }

  lemma Win(h: History, n: nat, i: Id, c: Node)
    requires HistoryOk(h, n) && NodeOk(h, n, i, c) && i < n
    requires c.role == Candidate && c.votes != {} && |c.votes| >= Quorum(n)
    ensures Grows(h, WithReign(h, n, i, c)) && HistoryOk(WithReign(h, n, i, c), n)
    ensures NodeOk(WithReign(h, n, i, c), n, i, BecomeLeader(n, i, c))
    ensures c.term !in h.reigns
  {
    hide BallotOk, VotesOk, AcksOk, CommitOk, WellFormed, Canonical;
    NoOtherLeader(h, n, i, c);
    WinGrows(h, n, i, c);
    WinReign(h, n, i, c);
    WinNode(h, n, i, c);
    HistoryGrows(h, WithReign(h, n, i, c), n);
  }

  ghost function OwnBallot(i: Id, x: Node): Ballot {
    Ballot(i, |x.log| - 1, LastTerm(x.log), x.log)
  }

  /** The candidate's vote for itself. */
  lemma OwnVote(h: History, n: nat, i: Id, x: Node)
    requires HistoryOk(h, n) && NodeOk(h, n, i, x) && i < n
    ensures var g := WithBallot(h, x.term + 1, i, OwnBallot(i, x));
            Grows(h, g) && HistoryOk(g, n) && NodeOk(g, n, i, Standing(i, x))
    ensures (x.term + 1, i) !in h.ballots
  {
    assert (x.term + 1, i) !in h.ballots;
    BallotGrows(h, n, x.term + 1, i, x, OwnBallot(i, x));
    BallotNodeOk(h, n, i, x, Standing(i, x), x.term + 1, OwnBallot(i, x));
  }

  lemma TimeoutStep(s: Cluster, h: History, i: Id) returns (h': History)
    requires Inv(s, h) && Enabled(Repaired, s, Timeout(i))
    ensures Inv(Do(Repaired, s, Timeout(i)), h') && Grows(h, h')
  {
    hide HistoryOk, NodeOk;
    var n, x := |s.nodes|, s.nodes[i];
    var c := Standing(i, x);
    assert NodeOk(h, n, i, x);
    OwnVote(h, n, i, x);
    h' := WithBallot(h, c.term, i, OwnBallot(i, x));
    forall j | 0 <= j < n && j != i ensures Quiet(h, h', j, s.nodes[j]) {
    }
    if Quorum(n) <= 1 {
      Win(h', n, i, c);
      GrowsTransitive(h, h', WithReign(h', n, i, c));
      h' := WithReign(h', n, i, c);
    }
    StepKeepsInv(s, h, i, StartElection(n, i, x), VoteRequests(n, i, x), h');
  }

  lemma GrantOk(h: History, n: nat, i: Id, f: Node, m: Msg) returns (h': History)
    requires HistoryOk(h, n) && NodeOk(h, n, i, f) && i < n
    requires m.VoteReq? && 1 <= m.term == f.term && Grants(f, m) && m.src < n && m.src != i
    ensures Grows(h, h') && HistoryOk(h', n) && NodeOk(h', n, i, f.(votedFor := Some(m.src)))
    ensures (f.term, i) in h'.ballots && h'.ballots[(f.term, i)].candidate == m.src
    ensures h' == h || h' == WithBallot(h, f.term, i, Ballot(m.src, m.lastIndex, m.lastTerm, f.log))
    ensures h' == h || (f.term, i) !in h.ballots
  {
    var y := f.(votedFor := Some(m.src));
    if (f.term, i) !in h.ballots {
      var b := Ballot(m.src, m.lastIndex, m.lastTerm, f.log);
      h' := WithBallot(h, f.term, i, b);
      BallotGrows(h, n, f.term, i, f, b);
      BallotNodeOk(h, n, i, f, y, f.term, b);
    } else {
      h' := h;
      assert f.votedFor == Some(h.ballots[(f.term, i)].candidate);
      assert y == f;
    }
  }

  lemma GrantQuiet(s: Cluster, h: History, m: Msg, t: nat, v: Id, b: Ballot, j: Id)
    requires Inv(s, h) && m in s.msgs && m.VoteReq? && m.term == t && j < |s.nodes| && j != v
    requires b.candidate == m.src && b.lastIndex == m.lastIndex && b.lastTerm == m.lastTerm
    requires (t, v) !in h.ballots
    ensures Quiet(h, WithBallot(h, t, v, b), j, s.nodes[j])
  {
    assert MsgOk(h, |s.nodes|, s.nodes, m);
  }

  /** A voter first takes over a higher term. */
  lemma SeeTermOk(h: History, n: nat, i: Id, x: Node, term: nat)
    requires NodeOk(h, n, i, x)
    ensures NodeOk(h, n, i, SeeTerm(Repaired, x, term))
    ensures StillRequests(x, SeeTerm(Repaired, x, term))
  {
    if term > x.term {
      FollowerOk(h, n, i, x, term);
    }
  }

  lemma VoteGranted(s: Cluster, h: History, m: Msg, f: Node) returns (h': History)
    requires Inv(s, h) && m.VoteReq? && m in s.msgs && m.dst < |s.nodes|
    requires f == SeeTerm(Repaired, s.nodes[m.dst], m.term) && Grants(f, m)
    ensures Inv(Set(s, m.dst, f.(votedFor := Some(m.src)),
                    {VoteResp(m.dst, m.src, f.term, true)}), h') && Grows(h, h')
  {
    hide HistoryOk, NodeOk;
    var n, i := |s.nodes|, m.dst;
    assert NodeOk(h, n, i, s.nodes[i]) && MsgOk(h, n, s.nodes, m);
    SeeTermOk(h, n, i, s.nodes[i], m.term);
    h' := GrantOk(h, n, i, f, m);
    forall j | 0 <= j < n && j != i ensures Quiet(h, h', j, s.nodes[j]) {
      if h' != h {
        GrantQuiet(s, h, m, f.term, i, Ballot(m.src, m.lastIndex, m.lastTerm, f.log), j);
      }
    }
    StepKeepsInv(s, h, i, f.(votedFor := Some(m.src)), {VoteResp(i, m.src, f.term, true)}, h');
  }

  lemma VoteReqStep(s: Cluster, h: History, m: Msg) returns (h': History)
    requires Inv(s, h) && m.VoteReq? && Enabled(Repaired, s, Deliver(m))
    ensures Inv(Do(Repaired, s, Deliver(m)), h') && Grows(h, h')
  {
    var n, i := |s.nodes|, m.dst;
    var f := SeeTerm(Repaired, s.nodes[i], m.term);
    if Grants(f, m) {
      h' := VoteGranted(s, h, m, f);
    } else {
      h' := h;
      assert NodeOk(h, n, i, s.nodes[i]);
      SeeTermOk(h, n, i, s.nodes[i], m.term);
      QuietStepKeepsInv(s, h, i, f, {VoteResp(i, m.src, f.term, false)});
    }
  }

  lemma CountVote(h: History, n: nat, i: Id, x: Node, v: Id)
    requires NodeOk(h, n, i, x) && x.role == Candidate
    requires v < n && (x.term, v) in h.ballots && h.ballots[(x.term, v)].candidate == i
    ensures NodeOk(h, n, i, x.(votes := x.votes + {v}))
  {
  }

  lemma VoteRespStep(s: Cluster, h: History, m: Msg) returns (h': History)
    requires Inv(s, h) && m.VoteResp? && Enabled(Repaired, s, Deliver(m))
    ensures Inv(Do(Repaired, s, Deliver(m)), h') && Grows(h, h')
  {
    hide HistoryOk, NodeOk;
    var n, i := |s.nodes|, m.dst;
    var x := s.nodes[i];
    h' := h;
    if x.role == Candidate && m.term > x.term {
      StepDown(s, h, i, m.term);
    } else if x.role == Candidate && m.granted && m.term == x.term {
      assert NodeOk(h, n, i, x) && MsgOk(h, n, s.nodes, m);
      var c := x.(votes := x.votes + {m.src});
      CountVote(h, n, i, x, m.src);
      if |c.votes| >= Quorum(n) {
        Win(h, n, i, c);
        h' := WithReign(h, n, i, c);
        assert forall j | 0 <= j < n && j != i :: Quiet(h, h', j, s.nodes[j]);
        StepKeepsInv(s, h, i, BecomeLeader(n, i, c), {}, h');
      } else {
        QuietStepKeepsInv(s, h, i, c, {});
      }
    } else {
      Unmoved(s, h, i, {});
    }
  }
}
