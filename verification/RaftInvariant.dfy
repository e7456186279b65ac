/** The cluster invariant and the parts of its preservation every step shares. */
module RaftInvariant {
  import opened Commands
  import opened RaftTypes
  import opened RaftHandlers
  import opened RaftCluster
  import opened RaftHistory
  import opened RaftLogs

  ghost predicate Inv(s: Cluster, h: History) {
    var n := |s.nodes|;
    n > 0 && HistoryOk(h, n) &&
    (forall i {:trigger NodeOk(h, n, i, s.nodes[i])} | 0 <= i < n :: NodeOk(h, n, i, s.nodes[i])) &&
    (forall m {:trigger MsgOk(h, n, s.nodes, m)} | m in s.msgs :: MsgOk(h, n, s.nodes, m))
  }

  // ---- The history stays well formed ----

  /** No node acknowledges anything in a term older than one it has voted in. */
  ghost predicate NoLateAcks(h: History, h': History) {
    forall a, t {:trigger a in h'.acks, (t, a.node) in h.ballots}
      | a in h'.acks && a !in h.acks && (t, a.node) in h.ballots :: t <= a.term
  }

  lemma VoterStable(h: History, h': History, n: nat, term: nat, r: Reign, r': Reign, v: Id)
    requires HistoryOk(h, n) && Grows(h, h') && NoLateAcks(h, h')
    requires VoterOk(h, term, r, v) && SameReign(r, r', term)
    ensures VoterOk(h', term, r', v)
  {
    assert r'.log[..r.base] == r.log[..r.base];
    var b := h.ballots[(term, v)];
    forall a | a in h'.acks && a.node == v && a.term < term
      ensures Kept(h', a, b.voterLog, term - 1)
    {
      KeptGrows(h, h', n, a, b.voterLog, term - 1);
    }
  }

  lemma ReignStable(h: History, h': History, n: nat, t: nat)
    requires HistoryOk(h, n) && Grows(h, h') && NoLateAcks(h, h')
    requires t in h.reigns
    requires WellFormed(h'.reigns[t].log, t) && Canonical(h', h'.reigns[t].log)
    ensures ReignOk(h', n, t)
  {
    var r, r' := h.reigns[t], h'.reigns[t];
    assert ReignOk(h, n, t) && SameReign(r, r', t);
    forall v | v in r'.voters ensures VoterOk(h', t, r', v) {
      assert VoterOk(h, t, r, v);
      VoterStable(h, h', n, t, r, r', v);
    }
    assert forall k | 0 <= k < |r.log| :: r.log[k] == r'.log[k];
  }

  lemma BallotStable(h: History, h': History, n: nat, t: nat, v: Id)
    requires HistoryOk(h, n) && Grows(h, h') && NoLateAcks(h, h')
    requires (t, v) in h.ballots
    ensures BallotOk(h', n, t, v)
  {
    assert BallotOk(h, n, t, v);
    var b := h.ballots[(t, v)];
    forall a | a in h'.acks && a.node == v && a.term < t
      ensures Kept(h', a, b.voterLog, t)
    {
      KeptGrows(h, h', n, a, b.voterLog, t);
    }
  }

  lemma AckStable(h: History, h': History, n: nat, a: Ack)
    requires HistoryOk(h, n) && Grows(h, h') && a in h.acks
    ensures AckOk(h', n, a)
  {
    assert AckOk(h, n, a);
    assert SameReign(h.reigns[a.term], h'.reigns[a.term], a.term);
  }

  /** What a new history has to add to an old good one to be good itself. */
  lemma HistoryGrows(h: History, h': History, n: nat)
    requires HistoryOk(h, n) && Grows(h, h') && NoLateAcks(h, h')
    requires forall t | t in h'.reigns :: (t in h.reigns && h'.reigns[t].log == h.reigns[t].log) ||
                                         ReignOk(h', n, t)
    requires forall t, v | (t, v) in h'.ballots && (t, v) !in h.ballots :: BallotOk(h', n, t, v)
    requires forall a | a in h'.acks && a !in h.acks :: AckOk(h', n, a)
    ensures HistoryOk(h', n)
  {
    forall t | t in h'.reigns ensures ReignOk(h', n, t) {
      if t in h.reigns && h'.reigns[t].log == h.reigns[t].log {
        assert ReignOk(h, n, t);
        ReignStable(h, h', n, t);
      }
    }
    forall t, v | (t, v) in h'.ballots ensures BallotOk(h', n, t, v) {
      if (t, v) in h.ballots {
        BallotStable(h, h', n, t, v);
      }
    }
    forall a | a in h'.acks ensures AckOk(h', n, a) {
      if a in h.acks {
        AckStable(h, h', n, a);
      }
    }
  }

  // ---- Nodes that do not move ----

  ghost predicate BallotFits(b: Ballot, t: nat, x: Node) {
    t <= x.term &&
    (t == x.term && x.role == Candidate ==>
       b.lastIndex == |x.log| - 1 && b.lastTerm == LastTerm(x.log))
  }

  /** Nothing new in h' is about node j, apart from votes for it that fit its log. */
  ghost predicate Quiet(h: History, h': History, j: Id, x: Node) {
    (forall t | (t, j) in h'.ballots :: (t, j) in h.ballots) &&
    (forall t, v | (t, v) in h'.ballots && (t, v) !in h.ballots &&
                   h'.ballots[(t, v)].candidate == j :: BallotFits(h'.ballots[(t, v)], t, x)) &&
    (forall t | t in h'.reigns && h'.reigns[t].leader == j ::
       t in h.reigns && h'.reigns[t].log == h.reigns[t].log) &&
    (forall a | a in h'.acks && a.node == j :: a in h.acks)
  }

  lemma AcksStable(h: History, h': History, n: nat, j: Id, x: Node)
    requires HistoryOk(h, n) && Grows(h, h') && Quiet(h, h', j, x) && AcksOk(h, j, x)
    ensures AcksOk(h', j, x)
  {
    forall a | a in h'.acks && a.node == j
      ensures a.term <= x.term && Kept(h', a, x.log, x.term)
    {
      KeptGrows(h, h', n, a, x.log, x.term);
    }
  }

  lemma NodeStable(h: History, h': History, n: nat, j: Id, x: Node)
    requires HistoryOk(h, n) && Grows(h, h') && Quiet(h, h', j, x) && NodeOk(h, n, j, x)
    ensures NodeOk(h', n, j, x)
  {
    AcksStable(h, h', n, j, x);
    CommittedPrefixGrows(h, h', n, x.log, x.log, x.commitIndex, x.term, x.term);
  }

  // ---- Messages already sent ----

  lemma AppendReqStable(h: History, h': History, n: nat, m: Msg)
    requires Grows(h, h') && m.AppendReq? && AppendReqOk(h, n, m)
    ensures AppendReqOk(h', n, m)
  {
    var r, r' := h.reigns[m.term], h'.reigns[m.term];
    assert SameReign(r, r', m.term);
    assert r'.log[..m.prevIndex] == r.log[..m.prevIndex];
    CommittedPrefixGrows(h, h', n, r.log, r'.log, m.leaderCommit, m.term, m.term);
  }

  ghost predicate StillRequests(x: Node, y: Node) {
    x.term <= y.term &&
    (y.term == x.term && y.role == Candidate ==> x.role == Candidate && y.log == x.log)
  }

  lemma MsgStable(h: History, h': History, n: nat, nodes: seq<Node>, i: Id, y: Node, m: Msg)
    requires Grows(h, h') && n == |nodes| && i < n && MsgOk(h, n, nodes, m)
    requires StillRequests(nodes[i], y)
    ensures MsgOk(h', n, nodes[i := y], m)
  {
    if m.AppendReq? {
      AppendReqStable(h, h', n, m);
    }
  }

  // ---- A step of one node ----

  /** Node i becomes y and sends some messages; nothing else in the cluster moves. */
  lemma StepKeepsInv(s: Cluster, h: History, i: Id, y: Node, sent: set<Msg>, h': History)
    requires Inv(s, h) && i < |s.nodes| && Grows(h, h')
    requires HistoryOk(h', |s.nodes|) && NodeOk(h', |s.nodes|, i, y)
    requires forall j | 0 <= j < |s.nodes| && j != i :: Quiet(h, h', j, s.nodes[j])
    requires StillRequests(s.nodes[i], y)
    requires forall m | m in sent :: MsgOk(h', |s.nodes|, s.nodes[i := y], m)
    ensures Inv(Set(s, i, y, sent), h')
  {
    var n, t := |s.nodes|, Set(s, i, y, sent);
    forall j | 0 <= j < n ensures NodeOk(h', n, j, t.nodes[j]) {
      if j != i {
        assert NodeOk(h, n, j, s.nodes[j]);
        NodeStable(h, h', n, j, s.nodes[j]);
      }
    }
    forall m | m in t.msgs ensures MsgOk(h', n, t.nodes, m) {
      if m !in sent {
        assert MsgOk(h, n, s.nodes, m);
        MsgStable(h, h', n, s.nodes, i, y, m);
      }
    }
  }

  /** Node i becomes y without anything the history records. */
  lemma QuietStepKeepsInv(s: Cluster, h: History, i: Id, y: Node, sent: set<Msg>)
    requires Inv(s, h) && i < |s.nodes| && NodeOk(h, |s.nodes|, i, y)
    requires StillRequests(s.nodes[i], y)
    requires forall m | m in sent :: MsgOk(h, |s.nodes|, s.nodes[i := y], m)
    ensures Inv(Set(s, i, y, sent), h)
  {
    StepKeepsInv(s, h, i, y, sent, h);
  }
}
