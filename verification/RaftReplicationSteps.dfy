/** Proposals, replication, commitment and the apply loop keep the invariant. */
module RaftReplicationSteps {
  import opened Commands
  import opened RaftTypes
  import opened RaftHandlers
  import opened RaftCluster
  import opened RaftHistory
  import opened RaftLogs
  import opened RaftInvariant
  import opened RaftElectionSteps

  // ---- The leader appends a command ----

  ghost function WithEntry(h: History, i: Id, y: Node): History
    requires y.term in h.reigns
  {
    h.(reigns := h.reigns[y.term := h.reigns[y.term].(log := y.log)],
       acks := h.acks + {Ack(i, y.term, |y.log|)})
  }

  lemma EntryLog(h: History, h': History, log: seq<Entry>, e: Entry)
    requires WellFormed(log, e.term) && Canonical(h, log) && Grows(h, h')
    requires 1 <= e.term && e.index == |log| + 1
    requires e.term in h'.reigns && h'.reigns[e.term].log == log + [e]
    ensures WellFormed(log + [e], e.term) && Canonical(h', log + [e])
  {
  }

  lemma EntryHistory(h: History, n: nat, i: Id, x: Node, command: Command)
    requires HistoryOk(h, n) && NodeOk(h, n, i, x) && x.role == Leader && i < n
    ensures var h' := WithEntry(h, i, Append(x, command));
            Grows(h, h') && NoLateAcks(h, h') && HistoryOk(h', n)
  {
    hide BallotOk, VoterOk, AcksOk, CommitOk, WellFormed, Canonical;
    var y := Append(x, command);
    var h' := WithEntry(h, i, y);
    assert ReignOk(h, n, x.term);
    assert Grows(h, h');
    EntryLog(h, h', x.log, Entry(x.term, |x.log| + 1, command));
    ReignStable(h, h', n, x.term);
    HistoryGrows(h, h', n);
  }

  lemma EntryAcks(h: History, h': History, n: nat, i: Id, x: Node, y: Node)
    requires HistoryOk(h, n) && Grows(h, h') && AcksOk(h, i, x)
    requires x.log <= y.log && x.term <= y.term
    requires forall a | a in h'.acks && a.node == i && a !in h.acks ::
               a.term == y.term && a.term in h'.reigns && a.len <= |h'.reigns[a.term].log| &&
               h'.reigns[a.term].log[..a.len] <= y.log
    ensures AcksOk(h', i, y)
  {
    forall a | a in h'.acks && a.node == i
      ensures a.term <= y.term && Kept(h', a, y.log, y.term)
    {
      if a in h.acks {
        KeptGrows(h, h', n, a, x.log, x.term);
        KeptLonger(h', a, x.log, y.log, x.term, y.term);
      } else {
      }
    }
  }

  lemma EntryCommit(h: History, h': History, n: nat, x: Node, command: Command)
    requires Grows(h, h') && CommitOk(h, n, x)
    ensures CommitOk(h', n, Append(x, command))
  {
    var y := Append(x, command);
    assert y.log[..x.commitIndex] == x.log[..x.commitIndex];
    assert y.log[..x.lastApplied] == x.log[..x.lastApplied];
    CommittedPrefixGrows(h, h', n, x.log, y.log, x.commitIndex, x.term, x.term);
  }

  lemma EntryNode(h: History, n: nat, i: Id, x: Node, command: Command)
    requires HistoryOk(h, n) && NodeOk(h, n, i, x) && x.role == Leader && i < n
    requires HistoryOk(WithEntry(h, i, Append(x, command)), n)
    requires Grows(h, WithEntry(h, i, Append(x, command)))
    ensures NodeOk(WithEntry(h, i, Append(x, command)), n, i, Append(x, command))
  {
    hide BallotOk, VoterOk, AckOk, AcksOk, Canonical, Kept, CommitOk;
    var y := Append(x, command);
    var h' := WithEntry(h, i, y);
    assert ReignOk(h', n, y.term);
    EntryCommit(h, h', n, x, command);
    EntryAcks(h, h', n, i, x, y);
    forall p ensures NextOf(y, p) <= |y.log| + 1 &&
                     (MatchOf(y, p) == 0 || Ack(p, y.term, MatchOf(y, p)) in h'.acks)
    {
      assert NextOf(x, p) == NextOf(y, p) && MatchOf(x, p) == MatchOf(y, p);
    }
    assert LeaderOk(h', i, y);
  }

  lemma ProposeStep(s: Cluster, h: History, i: Id, command: Command) returns (h': History)
    requires Inv(s, h) && Enabled(Repaired, s, Propose(i, command))
    ensures Inv(Do(Repaired, s, Propose(i, command)), h') && Grows(h, h')
  {
    hide HistoryOk, VotesOk, AcksOk, CommitOk, Canonical, WellFormed;
    var n, x := |s.nodes|, s.nodes[i];
    var y := Append(x, command);
    assert NodeOk(h, n, i, x);
    h' := WithEntry(h, i, y);
    EntryHistory(h, n, i, x, command);
    EntryNode(h, n, i, x, command);
    forall j | 0 <= j < n && j != i ensures Quiet(h, h', j, s.nodes[j]) {
    }
    StepKeepsInv(s, h, i, y, {}, h');
  }

  // ---- The leader sends its log ----

  lemma MessageOk(h: History, n: nat, i: Id, x: Node, peer: Id)
    requires NodeOk(h, n, i, x) && x.role == Leader && peer != i
    ensures AppendReqOk(h, n, AppendMessage(i, x, peer))
  {
  }

  lemma ReplicateStep(s: Cluster, h: History, i: Id, peer: Id)
    requires Inv(s, h) && Enabled(Repaired, s, Replicate(i, peer))
    ensures Inv(Do(Repaired, s, Replicate(i, peer)), h)
  {
    assert NodeOk(h, |s.nodes|, i, s.nodes[i]);
    MessageOk(h, |s.nodes|, i, s.nodes[i], peer);
    Unmoved(s, h, i, {AppendMessage(i, s.nodes[i], peer)});
  }

  // ---- A follower takes the leader's entries ----

  /** Replacing the log by one that keeps what it had in common with the current leader's
      log loses no acknowledged and no committed entry. */
  lemma NewLogAcks(h: History, n: nat, i: Id, f: Node, log: seq<Entry>)
    requires HistoryOk(h, n) && AcksOk(h, i, f) && f.term in h.reigns
    requires KeepsCommon(f.log, h.reigns[f.term].log, log)
    ensures AcksOk(h, i, f.(log := log))
  {
    var r := h.reigns[f.term].log;
    forall a | a in h.acks && a.node == i
      ensures a.term <= f.term && Kept(h, a, log, f.term)
    {
      forall l {:trigger KeptAt(h, a.term, l, log, f.term)} | 0 <= l <= a.len
        ensures KeptAt(h, a.term, l, log, f.term)
      {
        assert KeptAt(h, a.term, l, f.log, f.term);
        var p := h.reigns[a.term].log[..l];
        if p <= f.log && p <= r {
          assert f.log[..l] == p == r[..l];
          assert log[..l] == p;
        }
      }
    }
  }

  lemma NewLogCommit(h: History, n: nat, f: Node, log: seq<Entry>)
    requires HistoryOk(h, n) && CommitOk(h, n, f) && f.term in h.reigns
    requires KeepsCommon(f.log, h.reigns[f.term].log, log)
    ensures CommitOk(h, n, f.(log := log))
  {
    var c, r := f.commitIndex, h.reigns[f.term].log;
    LeaderHasCommitted(h, n, f.log, c, f.term, f.term);
    assert f.log[..c] == r[..c];
    assert log[..c] == f.log[..c];
    CommittedPrefixGrows(h, h, n, f.log, log, c, f.term, f.term);
    assert log[..f.lastApplied] == log[..c][..f.lastApplied] == f.log[..f.lastApplied];
  }

  lemma NewLogOk(h: History, n: nat, i: Id, f: Node, log: seq<Entry>)
    requires HistoryOk(h, n) && NodeOk(h, n, i, f) && f.role == Follower && f.term in h.reigns
    requires KeepsCommon(f.log, h.reigns[f.term].log, log)
    requires WellFormed(log, f.term) && Canonical(h, log)
    ensures NodeOk(h, n, i, f.(log := log))
  {
    NewLogAcks(h, n, i, f, log);
    NewLogCommit(h, n, f, log);
    assert VotesOk(h, n, i, f.(log := log));
  }

  /** The log after a refused message whose previous entry conflicted. */
  lemma CutLogOk(h: History, n: nat, i: Id, f: Node, prev: nat)
    requires HistoryOk(h, n) && NodeOk(h, n, i, f) && f.role == Follower && f.term in h.reigns
    requires 0 < prev <= |f.log| && prev <= |h.reigns[f.term].log|
    requires f.log[prev - 1].term != h.reigns[f.term].log[prev - 1].term
    ensures NodeOk(h, n, i, f.(log := f.log[..prev - 1]))
  {
    CanonicalPrefix(h, f.log, prev - 1);
    assert KeepsCommon(f.log, h.reigns[f.term].log, f.log[..prev - 1]) by {
      forall c | 0 <= c <= |f.log| && c <= |h.reigns[f.term].log| &&
                 f.log[..c] == h.reigns[f.term].log[..c]
        ensures c <= prev - 1 && f.log[..prev - 1][..c] == f.log[..c]
      {
      }
    }
    NewLogOk(h, n, i, f, f.log[..prev - 1]);
  }

  lemma WellFormedPrefix(log: seq<Entry>, term: nat, k: nat)
    requires WellFormed(log, term) && k <= |log|
    ensures WellFormed(log[..k], term)
  {
  }

  /** The consistency check on the previous entry vouches for everything before it. */
  lemma CheckedPrefix(h: History, n: nat, log: seq<Entry>, m: Msg)
    requires Canonical(h, log) && m.AppendReq? && AppendReqOk(h, n, m)
    requires Canonical(h, h.reigns[m.term].log) && m.prevIndex <= |log|
    requires m.prevIndex > 0 ==> log[m.prevIndex - 1].term == m.prevTerm
    ensures log[..m.prevIndex] == h.reigns[m.term].log[..m.prevIndex]
  {
  }

  /** The log after an accepted message. */
  lemma MergedLogOk(h: History, n: nat, i: Id, f: Node, m: Msg)
    requires HistoryOk(h, n) && NodeOk(h, n, i, f) && f.role == Follower
    requires m.AppendReq? && AppendReqOk(h, n, m) && m.term == f.term
    requires m.prevIndex <= |f.log|
    requires m.prevIndex > 0 ==> f.log[m.prevIndex - 1].term == m.prevTerm
    ensures var log := Merge(f.log, m.prevIndex, m.entries);
            NodeOk(h, n, i, f.(log := log)) &&
            h.reigns[m.term].log[..m.prevIndex + |m.entries|] <= log
  {
    hide BallotOk, VoterOk, AckOk, VotesOk, ReignsOk, AcksOk, CommitOk, WellFormed, Canonical,
         Merge, KeepsCommon, CommittedPrefix;
    var r, e := h.reigns[m.term].log, m.prevIndex + |m.entries|;
    assert ReignOk(h, n, m.term);
    CheckedPrefix(h, n, f.log, m);
    MergeCanonical(h, f.log, r, m.prevIndex, m.entries);
    CanonicalPrefix(h, r, e);
    WellFormedPrefix(r, f.term, e);
    NewLogOk(h, n, i, f, Merge(f.log, m.prevIndex, m.entries));
  }

  ghost function WithAck(h: History, i: Id, term: nat, len: nat): History {
    h.(acks := h.acks + {Ack(i, term, len)})
  }

  lemma AckKeepsHistory(h: History, n: nat, i: Id, y: Node, len: nat)
    requires HistoryOk(h, n) && NodeOk(h, n, i, y) && i < n && y.role == Follower
    requires y.term in h.reigns && len <= |h.reigns[y.term].log|
    requires h.reigns[y.term].log[..len] <= y.log
    ensures Grows(h, WithAck(h, i, y.term, len)) && HistoryOk(WithAck(h, i, y.term, len), n)
    ensures NodeOk(WithAck(h, i, y.term, len), n, i, y)
  {
    var h' := WithAck(h, i, y.term, len);
    HistoryGrows(h, h', n);
    EntryAcks(h, h', n, i, y, y);
    CommittedPrefixGrows(h, h', n, y.log, y.log, y.commitIndex, y.term, y.term);
    assert VotesOk(h', n, i, y);
  }

  ghost function Accepted(f: Node, m: Msg): Node
    requires m.AppendReq? && m.prevIndex <= |f.log|
  {
    var log := Merge(f.log, m.prevIndex, m.entries);
    f.(log := log, commitIndex := if m.leaderCommit > f.commitIndex
                                  then Min(m.leaderCommit, |log|) else f.commitIndex)
  }

  lemma AcceptedOk(h: History, n: nat, i: Id, f: Node, m: Msg)
    requires HistoryOk(h, n) && NodeOk(h, n, i, f) && f.role == Follower && i < n
    requires m.AppendReq? && AppendReqOk(h, n, m) && m.term == f.term
    requires m.prevIndex <= |f.log|
    requires m.prevIndex > 0 ==> f.log[m.prevIndex - 1].term == m.prevTerm
    ensures NodeOk(h, n, i, Accepted(f, m))
    ensures h.reigns[m.term].log[..m.prevIndex + |m.entries|] <= Accepted(f, m).log
  {
    MergedLogOk(h, n, i, f, m);
    var y := f.(log := Merge(f.log, m.prevIndex, m.entries));
    if m.leaderCommit > f.commitIndex {
      assert Accepted(f, m) == y.(commitIndex := m.leaderCommit);
    } else {
      assert Accepted(f, m) == y;
    }
  }

  /** A follower of m's term, or a node about to become one. */
  lemma HearLeader(h: History, n: nat, i: Id, x: Node, m: Msg)
    requires NodeOk(h, n, i, x) && m.AppendReq? && AppendReqOk(h, n, m) && m.dst == i
    requires m.term >= x.term
    ensures NodeOk(h, n, i, BecomeFollower(Repaired, x, m.term))
    ensures BecomeFollower(Repaired, x, m.term).role == Follower
  {
    FollowerOk(h, n, i, x, m.term);
  }

  lemma RefuseStep(s: Cluster, h: History, m: Msg)
    requires Inv(s, h) && m.AppendReq? && Enabled(Repaired, s, Deliver(m))
    requires !OnAppendReq(Repaired, m.dst, s.nodes[m.dst], m).1.success
    ensures Inv(Do(Repaired, s, Deliver(m)), h)
  {
    hide HistoryOk, NodeOk;
    var n, i := |s.nodes|, m.dst;
    var x := s.nodes[i];
    var (y, reply) := OnAppendReq(Repaired, i, x, m);
    assert NodeOk(h, n, i, x) && MsgOk(h, n, s.nodes, m);
    if m.term >= x.term {
      HearLeader(h, n, i, x, m);
      var f := BecomeFollower(Repaired, x, m.term);
      if m.prevIndex <= |x.log| {
        var r := h.reigns[m.term].log;
        assert r[..m.prevIndex][m.prevIndex - 1] == r[m.prevIndex - 1];
        CutLogOk(h, n, i, f, m.prevIndex);
      }
    }
    QuietStepKeepsInv(s, h, i, y, {reply});
  }

  lemma AcceptOk(h: History, n: nat, i: Id, x: Node, m: Msg)
    requires HistoryOk(h, n) && NodeOk(h, n, i, x) && i < n && m.AppendReq? && m.dst == i
    requires AppendReqOk(h, n, m) && m.term >= x.term && m.prevIndex <= |x.log|
    requires m.prevIndex > 0 ==> x.log[m.prevIndex - 1].term == m.prevTerm
    ensures var h' := WithAck(h, i, m.term, m.prevIndex + |m.entries|);
            Grows(h, h') && HistoryOk(h', n) &&
            NodeOk(h', n, i, Accepted(BecomeFollower(Repaired, x, m.term), m))
  {
    hide HistoryOk, NodeOk, Merge;
    HearLeader(h, n, i, x, m);
    var f := BecomeFollower(Repaired, x, m.term);
    AcceptedOk(h, n, i, f, m);
    AckKeepsHistory(h, n, i, Accepted(f, m), m.prevIndex + |m.entries|);
  }

  lemma AcceptStep(s: Cluster, h: History, m: Msg) returns (h': History)
    requires Inv(s, h) && m.AppendReq? && Enabled(Repaired, s, Deliver(m))
    requires OnAppendReq(Repaired, m.dst, s.nodes[m.dst], m).1.success
    ensures Inv(Do(Repaired, s, Deliver(m)), h') && Grows(h, h')
  {
    hide HistoryOk, NodeOk, Merge, Canonical;
    var n, i := |s.nodes|, m.dst;
    var x := s.nodes[i];
    assert NodeOk(h, n, i, x) && MsgOk(h, n, s.nodes, m);
    AcceptOk(h, n, i, x, m);
    h' := WithAck(h, i, m.term, m.prevIndex + |m.entries|);
    var y := Accepted(BecomeFollower(Repaired, x, m.term), m);
    forall j | 0 <= j < n && j != i ensures Quiet(h, h', j, s.nodes[j]) {
    }
    StepKeepsInv(s, h, i, y, {AppendResp(i, m.src, m.term, true, |m.entries|, m.prevIndex + 1)}, h');
  }

  // ---- The leader counts responses ----

  /** An index the leader's scan accepts is committed. */
  lemma EligibleIsCommitted(h: History, n: nat, i: Id, x: Node, idx: nat)
    requires NodeOk(h, n, i, x) && x.role == Leader && i < n && Eligible(n, i, x, idx)
    ensures Committed(h, n, x.term, idx)
  {
    var q := Storing(n, i, x, idx) + {i};
    forall p | p in q ensures p in Ackers(h, x.term, idx) {
      if p == i {
        assert Ack(i, x.term, |x.log|) in h.acks;
      } else {
        assert Ack(p, x.term, MatchOf(x, p)) in h.acks;
      }
    }
    SubsetSize(q, Ackers(h, x.term, idx));
  }

  lemma AdvanceOk(h: History, n: nat, i: Id, x: Node)
    requires NodeOk(h, n, i, x) && x.role == Leader && i < n
    ensures NodeOk(h, n, i, x.(commitIndex := Advance(n, i, x, |x.log|)))
  {
    var c := Advance(n, i, x, |x.log|);
    if c > x.commitIndex {
      EligibleIsCommitted(h, n, i, x, c);
      assert CommittedPrefix(h, n, x.log, c, x.term);
      var y := x.(commitIndex := c);
      assert VotesOk(h, n, i, y);
      LeaderFields(h, i, x, y);
    }
  }

  lemma LeaderFields(h: History, i: Id, x: Node, y: Node)
    requires ReignsOk(h, i, x) && x.role == Leader && y.role == Leader
    requires y.term == x.term && y.log == x.log
    requires y.nextIndex == x.nextIndex && y.matchIndex == x.matchIndex
    ensures ReignsOk(h, i, y)
  {
    forall p ensures NextOf(y, p) == NextOf(x, p) && MatchOf(y, p) == MatchOf(x, p) {
    }
    assert LeaderOk(h, i, y);
  }

  lemma RecordNext(h: History, n: nat, i: Id, x: Node, p: Id, next: Position)
    requires NodeOk(h, n, i, x) && x.role == Leader && next <= |x.log| + 1
    ensures NodeOk(h, n, i, x.(nextIndex := x.nextIndex[p := next]))
  {
    var y := x.(nextIndex := x.nextIndex[p := next]);
    forall q ensures NextOf(y, q) <= |x.log| + 1 && MatchOf(y, q) == MatchOf(x, q) {
      assert NextOf(x, q) <= |x.log| + 1;
    }
    assert LeaderOk(h, i, y);
    assert VotesOk(h, n, i, y);
  }

  lemma RecordMatch(h: History, n: nat, i: Id, x: Node, p: Id, matched: nat)
    requires NodeOk(h, n, i, x) && x.role == Leader
    requires matched == MatchOf(x, p) || Ack(p, x.term, matched) in h.acks
    ensures NodeOk(h, n, i, x.(matchIndex := x.matchIndex[p := matched]))
  {
    var y := x.(matchIndex := x.matchIndex[p := matched]);
    forall q ensures NextOf(y, q) <= |x.log| + 1 &&
                     (MatchOf(y, q) == 0 || Ack(q, x.term, MatchOf(y, q)) in h.acks)
    {
      assert NextOf(x, q) == NextOf(y, q);
      assert MatchOf(x, q) == 0 || Ack(q, x.term, MatchOf(x, q)) in h.acks;
    }
    assert LeaderOk(h, i, y);
    assert VotesOk(h, n, i, y);
  }

  lemma SuccessOk(h: History, n: nat, i: Id, x: Node, p: Id, matched: nat)
    requires HistoryOk(h, n) && NodeOk(h, n, i, x) && x.role == Leader && i < n
    requires Ack(p, x.term, matched) in h.acks
    ensures NodeOk(h, n, i, x.(matchIndex := x.matchIndex[p := Max(MatchOf(x, p), matched)],
                               nextIndex := x.nextIndex[p := matched + 1]))
  {
    assert AckOk(h, n, Ack(p, x.term, matched));
    var y := x.(matchIndex := x.matchIndex[p := Max(MatchOf(x, p), matched)]);
    RecordMatch(h, n, i, x, p, Max(MatchOf(x, p), matched));
    assert LeaderOk(h, i, y);
    RecordNext(h, n, i, y, p, matched + 1);
  }

  /** A response of the leader's own term. */
  lemma ResponseOk(h: History, n: nat, i: Id, x: Node, m: Msg)
    requires HistoryOk(h, n) && NodeOk(h, n, i, x) && x.role == Leader && i < n
    requires m.AppendResp? && m.term == x.term
    requires m.success ==> Ack(m.src, m.term, m.usedNext - 1 + m.sent) in h.acks
    ensures NodeOk(h, n, i, OnAppendResp(Repaired, n, i, x, m))
  {
    hide HistoryOk;
    if m.success {
      var matched := m.usedNext - 1 + m.sent;
      SuccessOk(h, n, i, x, m.src, matched);
      AdvanceOk(h, n, i, x.(matchIndex := x.matchIndex[m.src := Max(MatchOf(x, m.src), matched)],
                            nextIndex := x.nextIndex[m.src := matched + 1]));
    } else {
      assert NextOf(x, m.src) <= |x.log| + 1;
      RecordNext(h, n, i, x, m.src, Max(1, NextOf(x, m.src) - 1));
    }
  }

  lemma AppendRespStep(s: Cluster, h: History, m: Msg)
    requires Inv(s, h) && m.AppendResp? && Enabled(Repaired, s, Deliver(m))
    ensures Inv(Do(Repaired, s, Deliver(m)), h)
  {
    var n, i := |s.nodes|, m.dst;
    var x := s.nodes[i];
    if m.term > x.term {
      StepDown(s, h, i, m.term);
    } else if x.role != Leader || m.term != x.term {
      Unmoved(s, h, i, {});
    } else {
      assert NodeOk(h, n, i, x) && MsgOk(h, n, s.nodes, m);
      ResponseOk(h, n, i, x, m);
      QuietStepKeepsInv(s, h, i, OnAppendResp(Repaired, n, i, x, m), {});
    }
  }

  // ---- The apply loop ----

  lemma ApplyStep(s: Cluster, h: History, i: Id)
    requires Inv(s, h) && i < |s.nodes|
    ensures Inv(Do(Repaired, s, Apply(i)), h)
  {
    var n, x := |s.nodes|, s.nodes[i];
    var y := ApplyOne(x);
    assert NodeOk(h, n, i, x);
    assert CommitOk(h, n, y);
    assert VotesOk(h, n, i, y);
    if x.role == Leader {
      LeaderFields(h, i, x, y);
    }
    QuietStepKeepsInv(s, h, i, y, {});
  }
}
