/** What delivering AppendEntries messages does in runs of the repaired protocol: messages that
    come again or late, and the commit index a follower takes over. */
module RaftDelivery {
  import opened Commands
  import opened RaftTypes
  import opened RaftHandlers
  import opened RaftCluster
  import opened RaftHistory
  import opened RaftLogs
  import opened RaftInvariant
  import opened RaftReplicationSteps
  import opened RaftSafety

  // ---- Redelivery ----

  /** A message whose entries the log already agrees with in term is merged without effect. */
  lemma {:induction false} MergeAgain(log: seq<Entry>, prev: nat, entries: seq<Entry>)
    requires prev + |entries| <= |log|
    requires forall k | 0 <= k < |entries| :: log[prev + k].term == entries[k].term
    ensures Merge(log, prev, entries) == log
    decreases |entries|
  {
    if entries != [] {
      assert log[prev + 0].term == entries[0].term;
      forall k | 0 <= k < |entries[1..]| ensures log[prev + 1 + k].term == entries[1..][k].term {
        assert log[prev + (k + 1)].term == entries[k + 1].term;
      }
      MergeAgain(log, prev + 1, entries[1..]);
    }
  }

  /** What a node acknowledged in its present term is still at the front of its log. */
  lemma AckedIsStored(h: History, n: nat, i: Id, x: Node, len: nat, l: nat)
    requires NodeOk(h, n, i, x) && Ack(i, x.term, len) in h.acks && l <= len
    ensures x.term in h.reigns && l <= |h.reigns[x.term].log|
    ensures h.reigns[x.term].log[..l] <= x.log
  {
    assert Kept(h, Ack(i, x.term, len), x.log, x.term);
    assert KeptAt(h, x.term, l, x.log, x.term);
  }

  lemma StoredMessage(h: History, n: nat, i: Id, x: Node, m: Msg, len: nat)
    requires NodeOk(h, n, i, x) && m.AppendReq? && AppendReqOk(h, n, m) && m.term == x.term
    requires Ack(i, x.term, len) in h.acks && m.prevIndex + |m.entries| <= len
    ensures OnAppendReq(Repaired, i, x, m).1.success && OnAppendReq(Repaired, i, x, m).0.log == x.log
  {
    var r, prev, end := h.reigns[x.term].log, m.prevIndex, m.prevIndex + |m.entries|;
    AckedIsStored(h, n, i, x, len, end);
    assert forall k | 0 <= k < end :: r[..end][k] == r[k] == x.log[k];
    assert prev > 0 ==> r[..prev][prev - 1] == r[prev - 1];
    MergeAgain(x.log, prev, m.entries);
  }

  /** Redelivery and reordering are harmless: once a node has answered an AppendEntries message of
      its present term with success, every message of that term that reaches no further, the same
      one again or an older and shorter one, passes the consistency check and leaves its log alone. */
  lemma RedeliveryIsIgnored(run: seq<Cluster>, p: nat, m: Msg, answer: Msg)
    requires IsRun(Repaired, run) && p < |run|
    requires m in run[p].msgs && m.AppendReq? && m.dst < |run[p].nodes|
    requires m.term == run[p].nodes[m.dst].term
    requires answer in run[p].msgs && answer.AppendResp? && answer.success
    requires answer.src == m.dst && answer.term == m.term
    requires m.prevIndex + |m.entries| <= answer.usedNext - 1 + answer.sent
    ensures var (y, reply) := OnAppendReq(Repaired, m.dst, run[p].nodes[m.dst], m);
            reply.success && y.log == run[p].nodes[m.dst].log
  {
    hide HistoryOk, NodeOk, OnAppendReq, Grows;
    var hs := RunHistories(run);
    var s, h, n := run[p], hs[p], |run[p].nodes|;
    assert Inv(s, h);
    assert NodeOk(h, n, m.dst, s.nodes[m.dst]);
    assert MsgOk(h, n, s.nodes, m) && MsgOk(h, n, s.nodes, answer);
    StoredMessage(h, n, m.dst, s.nodes[m.dst], m, answer.usedNext - 1 + answer.sent);
  }

  // ---- The commit index a follower takes over ----

  /** Every AppendEntries message was sent, at an earlier moment, by a node that was then leading
      its term, and is what that node's state said. */
  lemma {:induction false} WasSentByLeader(run: seq<Cluster>, p: nat, m: Msg) returns (q: nat)
    requires IsRun(Repaired, run) && p < |run| && m in run[p].msgs && m.AppendReq?
    ensures q <= p && m.src < |run[q].nodes| && run[q].nodes[m.src].role == Leader
    ensures m == AppendMessage(m.src, run[q].nodes[m.src], m.dst)
    decreases p
  {
    hide Do, Enabled;
    assert p > 0;
    if m in run[p - 1].msgs {
      q := WasSentByLeader(run, p - 1, m);
    } else {
      q := p - 1;
      assert Next(Repaired, run[q], run[q + 1]);
      var a :| Enabled(Repaired, run[q], a) && run[q + 1] == Do(Repaired, run[q], a);
      NewAppendReq(run[q], a, m);
    }
  }

  lemma NewAppendReq(s: Cluster, a: Action, m: Msg)
    requires Enabled(Repaired, s, a)
    ensures m in Do(Repaired, s, a).msgs && m !in s.msgs && m.AppendReq? ==>
            m.src < |s.nodes| && s.nodes[m.src].role == Leader &&
            m == AppendMessage(m.src, s.nodes[m.src], m.dst)
  {
    hide OnVoteResp, OnAppendResp, StartElection, Merge;
  }

  /** In every run an AppendEntries message reaches at least as far as the commit index it
      carries. */
  lemma MessagesReachTheirCommit(run: seq<Cluster>, p: nat, m: Msg)
    requires IsRun(Repaired, run) && p < |run| && m in run[p].msgs && m.AppendReq?
    ensures m.leaderCommit <= m.prevIndex + |m.entries|
  {
    var hs := RunHistories(run);
    assert Inv(run[p], hs[p]);
    assert MsgOk(hs[p], |run[p].nodes|, run[p].nodes, m);
  }

  /** The leader's log as it was when the message left is the beginning of the reign's log. */
  lemma SenderLog(run: seq<Cluster>, hs: seq<History>, q: nat, p: nat, i: Id)
    requires Histories(run, hs) && q <= p < |run| && i < |run[q].nodes|
    requires run[q].nodes[i].role == Leader
    ensures var z := run[q].nodes[i];
            z.commitIndex <= |z.log| && z.term in hs[p].reigns && z.log <= hs[p].reigns[z.term].log
  {
    var z := run[q].nodes[i];
    assert Inv(run[q], hs[q]);
    assert NodeOk(hs[q], |run[q].nodes|, i, z);
    assert Grows(hs[q], hs[p]);
    assert SameReign(hs[q].reigns[z.term], hs[p].reigns[z.term], z.term);
  }

  lemma AcceptedPrefix(h: History, n: nat, i: Id, x: Node, m: Msg)
    requires HistoryOk(h, n) && NodeOk(h, n, i, x) && m.AppendReq? && m.dst == i
    requires AppendReqOk(h, n, m)
    requires OnAppendReq(Repaired, i, x, m).0.commitIndex > x.commitIndex
    ensures var y := OnAppendReq(Repaired, i, x, m).0;
            y.commitIndex == m.leaderCommit <= |y.log| && m.leaderCommit <= |h.reigns[m.term].log| &&
            y.log[..m.leaderCommit] == h.reigns[m.term].log[..m.leaderCommit]
  {
    hide HistoryOk, NodeOk;
    HearLeader(h, n, i, x, m);
    var f := BecomeFollower(Repaired, x, m.term);
    MergedLogOk(h, n, i, f, m);
  }

  predicate SameCommitted(x: Node, y: Node) {
    x.commitIndex == y.commitIndex && x.commitIndex <= |x.log| && y.commitIndex <= |y.log| &&
    x.log[..x.commitIndex] == y.log[..y.commitIndex]
  }

  /** Bounding the commit index by the whole log is sound: a delivery that raises a follower's
      commit index raises it to what the sender had committed when it sent the message, and the
      committed entries of the two are the same. */
  lemma FollowerCommitsLeadersPrefix(run: seq<Cluster>, p: nat, m: Msg)
    requires IsRun(Repaired, run) && p < |run| && m in run[p].msgs && m.AppendReq?
    requires m.dst < |run[p].nodes|
    requires OnAppendReq(Repaired, m.dst, run[p].nodes[m.dst], m).0.commitIndex >
             run[p].nodes[m.dst].commitIndex
    ensures var y := OnAppendReq(Repaired, m.dst, run[p].nodes[m.dst], m).0;
            exists q :: 0 <= q <= p && m.src < |run[q].nodes| &&
                        run[q].nodes[m.src].role == Leader && run[q].nodes[m.src].term == m.term &&
                        SameCommitted(run[q].nodes[m.src], y)
  {
    hide HistoryOk, NodeOk, OnAppendReq, Grows;
    var hs := RunHistories(run);
    var q := WasSentByLeader(run, p, m);
    var s, h := run[p], hs[p];
    assert Inv(s, h);
    assert NodeOk(h, |s.nodes|, m.dst, s.nodes[m.dst]) && MsgOk(h, |s.nodes|, s.nodes, m);
    assert m.dst < |s.nodes|;
    AcceptedPrefix(h, |s.nodes|, m.dst, s.nodes[m.dst], m);
    SenderLog(run, hs, q, p, m.src);
    var z, y := run[q].nodes[m.src], OnAppendReq(Repaired, m.dst, s.nodes[m.dst], m).0;
    assert z.log[..z.commitIndex] == h.reigns[m.term].log[..z.commitIndex];
    assert SameCommitted(z, y);
  }

  lemma AcceptedReaches(h: History, n: nat, i: Id, x: Node, m: Msg)
    requires HistoryOk(h, n) && NodeOk(h, n, i, x) && m.AppendReq? && m.dst == i && AppendReqOk(h, n, m)
    requires OnAppendReq(Repaired, i, x, m).1.success
    ensures var y := OnAppendReq(Repaired, i, x, m).0;
            y.commitIndex == Max(x.commitIndex, m.leaderCommit) <= |y.log|
  {
    hide HistoryOk, NodeOk;
    HearLeader(h, n, i, x, m);
    var f := BecomeFollower(Repaired, x, m.term);
    MergedLogOk(h, n, i, f, m);
    CommitWithinLog(h, n, i, f.(log := Merge(f.log, m.prevIndex, m.entries)));
  }

  lemma CommitWithinLog(h: History, n: nat, i: Id, x: Node)
    requires NodeOk(h, n, i, x)
    ensures x.commitIndex <= |x.log|
  {
  }

  /** A follower takes over the commit index: in every run, after a message is accepted, whether or
      not it carries entries, the follower has committed exactly up to the greater of its old commit
      index and the one in the message. */
  lemma FollowersCatchUp(run: seq<Cluster>, p: nat, m: Msg)
    requires IsRun(Repaired, run) && p < |run| && m in run[p].msgs && m.AppendReq?
    requires m.dst < |run[p].nodes|
    requires OnAppendReq(Repaired, m.dst, run[p].nodes[m.dst], m).1.success
    ensures var x, y := run[p].nodes[m.dst], OnAppendReq(Repaired, m.dst, run[p].nodes[m.dst], m).0;
            y.commitIndex == Max(x.commitIndex, m.leaderCommit) <= |y.log|
  {
    hide HistoryOk, NodeOk, OnAppendReq, Grows;
    var hs := RunHistories(run);
    var s, h, n := run[p], hs[p], |run[p].nodes|;
    assert Inv(s, h);
    assert NodeOk(h, n, m.dst, s.nodes[m.dst]) && MsgOk(h, n, s.nodes, m);
    AcceptedReaches(h, n, m.dst, s.nodes[m.dst], m);
  }
}
