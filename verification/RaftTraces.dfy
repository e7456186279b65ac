/** Single moves of a run, for building concrete runs step by step. */
module RaftTraces {
  import opened Wrappers
  import opened Commands
  import opened RaftTypes
  import opened RaftHandlers
  import opened RaftCluster
  import opened RaftLogs

  ghost predicate Reach(g: Guards, s: Cluster) {
    exists run :: IsRun(g, run) && run[|run| - 1] == s
  }

  lemma Fire(g: Guards, s: Cluster, a: Action) returns (t: Cluster)
    requires Reach(g, s) && Enabled(g, s, a)
    ensures t == Do(g, s, a) && Reach(g, t)
  {
    t := Do(g, s, a);
    var run :| IsRun(g, run) && run[|run| - 1] == s;
    var longer := run + [t];
    assert Next(g, s, t);
    forall k | 0 <= k < |longer| - 1 ensures Next(g, longer[k], longer[k + 1]) {
      if k < |run| - 1 {
        assert Next(g, run[k], run[k + 1]);
      }
    }
    assert IsRun(g, longer);
  }

  lemma Start(g: Guards, n: nat) returns (s: Cluster)
    requires n > 0
    ensures Reach(g, s) && s == Cluster(seq(n, i => InitNode), {})
  {
    s := Cluster(seq(n, i => InitNode), {});
    assert IsRun(g, [s]);
  }

  ghost predicate Is(x: Node, role: Role, term: nat, votedFor: Option<Id>, log: seq<Entry>) {
    x.role == role && x.term == term && x.votedFor == votedFor && x.log == log &&
    x.commitIndex == 0 && x.lastApplied == 0 && x.applied == []
  }

  ghost predicate Leads(x: Node, n: nat, me: Id, next: Position) {
    x.nextIndex == (map p | p in Peers(n, me) :: next) &&
    x.matchIndex == (map p | p in Peers(n, me) :: 0)
  }

  function Call(s: Cluster, i: Id, p: Id): Msg
    requires i < |s.nodes|
  {
    VoteReq(i, p, s.nodes[i].term + 1, |s.nodes[i].log| - 1, LastTerm(s.nodes[i].log))
  }

  /** Node i stands for election; its requests to the nodes in `ps` are on their way. */
  lemma Stand(g: Guards, s: Cluster, i: Id, ps: set<Id>) returns (t: Cluster)
    requires Reach(g, s) && i < |s.nodes| && |s.nodes| > 1 && s.nodes[i].role != Leader
    requires forall p | p in ps :: p < |s.nodes| && p != i
    ensures Reach(g, t) && s.msgs <= t.msgs && t.nodes == s.nodes[i := Standing(i, s.nodes[i])]
    ensures forall p | p in ps :: Call(s, i, p) in t.msgs
  {
    t := Fire(g, s, Timeout(i));
    forall p | p in ps ensures Call(s, i, p) in t.msgs {
      assert p in Peers(|s.nodes|, i);
    }
  }

  /** A vote request is delivered and granted. */
  lemma Grant(g: Guards, s: Cluster, m: Msg) returns (t: Cluster)
    requires Reach(g, s) && m in s.msgs && m.VoteReq? && m.dst < |s.nodes|
    requires Grants(SeeTerm(g, s.nodes[m.dst], m.term), m)
    ensures Reach(g, t) && s.msgs <= t.msgs && VoteResp(m.dst, m.src, m.term, true) in t.msgs
    ensures t.nodes ==
            s.nodes[m.dst := SeeTerm(g, s.nodes[m.dst], m.term).(votedFor := Some(m.src))]
  {
    t := Fire(g, s, Deliver(m));
  }

  /** A vote request is delivered and refused. */
  lemma Deny(g: Guards, s: Cluster, m: Msg) returns (t: Cluster)
    requires Reach(g, s) && m in s.msgs && m.VoteReq? && m.dst < |s.nodes|
    requires !Grants(SeeTerm(g, s.nodes[m.dst], m.term), m)
    ensures Reach(g, t) && s.msgs <= t.msgs
    ensures t.nodes == s.nodes[m.dst := SeeTerm(g, s.nodes[m.dst], m.term)]
  {
    t := Fire(g, s, Deliver(m));
  }

  /** A vote arrives, and either completes a quorum or does not. */
  lemma Count(g: Guards, s: Cluster, m: Msg) returns (t: Cluster)
    requires Reach(g, s) && m in s.msgs && m.VoteResp? && m.granted && m.dst < |s.nodes|
    requires s.nodes[m.dst].role == Candidate && s.nodes[m.dst].term == m.term
    ensures Reach(g, t) && s.msgs == t.msgs
    ensures var c := s.nodes[m.dst].(votes := s.nodes[m.dst].votes + {m.src});
            t.nodes == s.nodes[m.dst := if |c.votes| >= Quorum(|s.nodes|)
                                        then BecomeLeader(|s.nodes|, m.dst, c) else c]
  {
    t := Fire(g, s, Deliver(m));
  }

  /** A node that leads, or may send without leading, sends its log to a peer. */
  lemma Send(g: Guards, s: Cluster, i: Id, p: Id) returns (t: Cluster)
    requires Reach(g, s) && i < |s.nodes| && p < |s.nodes| && p != i
    requires g.leaderOnly ==> s.nodes[i].role == Leader
    ensures Reach(g, t) && s.msgs <= t.msgs && AppendMessage(i, s.nodes[i], p) in t.msgs
    ensures t.nodes == s.nodes
  {
    t := Fire(g, s, Replicate(i, p));
  }

  /** An append message is delivered. */
  lemma Take(g: Guards, s: Cluster, m: Msg) returns (t: Cluster)
    requires Reach(g, s) && m in s.msgs && m.AppendReq? && m.dst < |s.nodes|
    ensures Reach(g, t) && s.msgs <= t.msgs
    ensures OnAppendReq(g, m.dst, s.nodes[m.dst], m).1 in t.msgs
    ensures t.nodes == s.nodes[m.dst := OnAppendReq(g, m.dst, s.nodes[m.dst], m).0]
  {
    t := Fire(g, s, Deliver(m));
  }

  /** Node i sends m to a peer, which takes all its entries right after the previous one. */
  lemma Ship(g: Guards, s: Cluster, i: Id, m: Msg) returns (t: Cluster)
    requires Reach(g, s) && i < |s.nodes| && m.AppendReq? && m.dst < |s.nodes| && m.dst != i
    requires g.leaderOnly ==> s.nodes[i].role == Leader
    requires var x := s.nodes[i];
             m.src == i && m.term == x.term && m.leaderCommit == x.commitIndex &&
             m.prevIndex == NextOf(x, m.dst) - 1 && m.prevIndex < |x.log| &&
             m.prevTerm == (if m.prevIndex == 0 then 0 else x.log[m.prevIndex - 1].term) &&
             m.entries == (if m.prevIndex == 0 then x.log else x.log[m.prevIndex..])
    requires var x := s.nodes[m.dst];
             m.term >= x.term && m.prevIndex <= |x.log| && m.leaderCommit <= x.commitIndex &&
             (m.prevIndex > 0 ==> x.log[m.prevIndex - 1].term == m.prevTerm) &&
             (m.prevIndex < |x.log| ==> x.log[m.prevIndex].term != m.entries[0].term)
    ensures Reach(g, t) && s.msgs <= t.msgs
    ensures AppendResp(m.dst, i, m.term, true, |m.entries|, m.prevIndex + 1) in t.msgs
    ensures t.nodes == s.nodes[m.dst := BecomeFollower(g, s.nodes[m.dst], m.term).(
                                          log := if m.prevIndex == 0 then m.entries else
                                                   s.nodes[m.dst].log[..m.prevIndex] + m.entries)]
  {
    hide Reach;
    assert m == AppendMessage(i, s.nodes[i], m.dst);
    t := Send(g, s, i, m.dst);
    var log := s.nodes[m.dst].log;
    assert Merge(log, m.prevIndex, m.entries) == log[..m.prevIndex] + m.entries;
    assert log[..0] + m.entries == m.entries;
    hide Merge;
    t := Take(g, t, m);
  }

  /** A response to an append message is delivered. */
  lemma Hear(g: Guards, s: Cluster, m: Msg) returns (t: Cluster)
    requires Reach(g, s) && m in s.msgs && m.AppendResp? && m.dst < |s.nodes|
    ensures Reach(g, t) && s.msgs == t.msgs
    ensures t.nodes == s.nodes[m.dst := OnAppendResp(g, |s.nodes|, m.dst, s.nodes[m.dst], m)]
  {
    t := Fire(g, s, Deliver(m));
  }

  function Voting(g: Guards, x: Node, m: Msg): Node
    requires m.VoteReq?
  {
    SeeTerm(g, x, m.term).(votedFor := Some(m.src))
  }

  /** A candidate that nothing has been committed at becomes leader. */
  lemma LeaderIs(n: nat, i: Id, x: Node, votes: set<Id>)
    requires Is(x, x.role, x.term, x.votedFor, x.log)
    ensures var y := BecomeLeader(n, i, Standing(i, x).(votes := votes));
            Is(y, Leader, x.term + 1, Some(i),
               x.log + [Entry(x.term + 1, |x.log| + 1, NoOp(i))]) && Leads(y, n, i, |x.log| + 1)
  {
  }

  /** In a cluster of three, node i stands, node v votes for it, and i leads. */
  lemma Elect(g: Guards, s: Cluster, i: Id, v: Id, w: Id) returns (t: Cluster)
    requires Reach(g, s) && |s.nodes| == 3 && i < 3 && v < 3 && w < 3 && i != v && i != w
    requires s.nodes[i].role != Leader
    requires Is(s.nodes[i], s.nodes[i].role, s.nodes[i].term, s.nodes[i].votedFor, s.nodes[i].log)
    requires Grants(SeeTerm(g, s.nodes[v], s.nodes[i].term + 1), Call(s, i, v))
    ensures Reach(g, t) && s.msgs <= t.msgs && Call(s, i, w) in t.msgs && |t.nodes| == 3
    ensures Is(t.nodes[i], Leader, s.nodes[i].term + 1, Some(i),
               s.nodes[i].log + [Entry(s.nodes[i].term + 1, |s.nodes[i].log| + 1, NoOp(i))])
    ensures Leads(t.nodes[i], 3, i, |s.nodes[i].log| + 1)
    ensures t.nodes[v] == Voting(g, s.nodes[v], Call(s, i, v))
    ensures forall j | 0 <= j < 3 && j != i && j != v :: t.nodes[j] == s.nodes[j]
  {
    hide Reach, BecomeLeader, SeeTerm, Grants, Is, Leads;
    t := Stand(g, s, i, {v, w});
    t := Grant(g, t, Call(s, i, v));
    assert {i} + {v} == {i, v};
    assert |{i, v}| == 2;
    assert t.nodes[i] == Standing(i, s.nodes[i]);
    t := Count(g, t, VoteResp(v, i, s.nodes[i].term + 1, true));
    LeaderIs(3, i, s.nodes[i], {i, v});
  }

  lemma CountTwo(g: Guards, s: Cluster, i: Id, v: Id, w: Id, term: nat) returns (t: Cluster)
    requires Reach(g, s) && |s.nodes| == 5 && i < 5 && v < 5 && w < 5
    requires i != v && i != w && v != w
    requires s.nodes[i].role == Candidate && s.nodes[i].term == term && s.nodes[i].votes == {i}
    requires VoteResp(v, i, term, true) in s.msgs && VoteResp(w, i, term, true) in s.msgs
    ensures Reach(g, t) && s.msgs == t.msgs
    ensures t.nodes == s.nodes[i := BecomeLeader(5, i, s.nodes[i].(votes := {i, v, w}))]
  {
    hide Reach, BecomeLeader;
    assert {i} + {v} == {i, v} && {i, v} + {w} == {i, v, w};
    assert |{i, v}| == 2 && |{i, v, w}| == 3;
    t := Count(g, s, VoteResp(v, i, term, true));
    assert t.nodes[i] == s.nodes[i].(votes := {i, v});
    t := Count(g, t, VoteResp(w, i, term, true));
  }

  /** In a cluster of five, node i stands, nodes v and w vote for it, and i leads. */
  lemma ElectOfFive(g: Guards, s: Cluster, i: Id, v: Id, w: Id, u: Id) returns (t: Cluster)
    requires Reach(g, s) && |s.nodes| == 5 && i < 5 && v < 5 && w < 5 && u < 5
    requires i != v && i != w && v != w && i != u && u != v
    requires s.nodes[i].role != Leader
    requires Is(s.nodes[i], s.nodes[i].role, s.nodes[i].term, s.nodes[i].votedFor, s.nodes[i].log)
    requires Grants(SeeTerm(g, s.nodes[v], s.nodes[i].term + 1), Call(s, i, v))
    requires Grants(SeeTerm(g, s.nodes[w], s.nodes[i].term + 1), Call(s, i, w))
    ensures Reach(g, t) && s.msgs <= t.msgs && Call(s, i, u) in t.msgs && |t.nodes| == 5
    ensures Is(t.nodes[i], Leader, s.nodes[i].term + 1, Some(i),
               s.nodes[i].log + [Entry(s.nodes[i].term + 1, |s.nodes[i].log| + 1, NoOp(i))])
    ensures Leads(t.nodes[i], 5, i, |s.nodes[i].log| + 1)
    ensures t.nodes[v] == Voting(g, s.nodes[v], Call(s, i, v))
    ensures t.nodes[w] == Voting(g, s.nodes[w], Call(s, i, w))
    ensures forall j | 0 <= j < 5 && j != i && j != v && j != w :: t.nodes[j] == s.nodes[j]
  {
    hide Reach, BecomeLeader, SeeTerm, Grants, Is, Leads;
    t := Stand(g, s, i, {v, w, u});
    t := Grant(g, t, Call(s, i, v));
    t := Grant(g, t, Call(s, i, w));
    assert t.nodes[i] == Standing(i, s.nodes[i]);
    t := CountTwo(g, t, i, v, w, s.nodes[i].term + 1);
    LeaderIs(5, i, s.nodes[i], {i, v, w});
  }

  /** A leader hears the acknowledgement that completes a quorum for its whole log. */
  lemma HearAndCommit(g: Guards, s: Cluster, m: Msg, q: set<Id>, y: Node) returns (t: Cluster)
    requires Reach(g, s) && m in s.msgs && m.AppendResp? && m.dst < |s.nodes|
    requires s.nodes[m.dst].role == Leader && m.success
    requires m.term == s.nodes[m.dst].term
    requires var x := s.nodes[m.dst];
             var matched := m.usedNext - 1 + m.sent;
             y == x.(matchIndex := x.matchIndex[m.src := Max(MatchOf(x, m.src), matched)],
                     nextIndex := x.nextIndex[m.src := matched + 1]) &&
             x.commitIndex <= |x.log| && x.log != [] && x.log[|x.log| - 1].term == x.term
    requires q <= Storing(|s.nodes|, m.dst, y, |y.log|) && 1 + |q| >= Quorum(|s.nodes|)
    ensures Reach(g, t) && s.msgs == t.msgs
    ensures t.nodes == s.nodes[m.dst := y.(commitIndex := |y.log|)]
  {
    hide Reach;
    t := Hear(g, s, m);
    SubsetSize(q, Storing(|s.nodes|, m.dst, y, |y.log|));
    assert Eligible(|s.nodes|, m.dst, y, |y.log|);
  }

  /** The leader takes a command. */
  lemma Ask(g: Guards, s: Cluster, i: Id, command: Command) returns (t: Cluster)
    requires Reach(g, s) && i < |s.nodes| && s.nodes[i].role == Leader
    ensures Reach(g, t) && s.msgs == t.msgs
    ensures t.nodes == s.nodes[i := Append(s.nodes[i], command)]
  {
    t := Fire(g, s, Propose(i, command));
  }

  /** One round of the apply loop. */
  lemma RunMachine(g: Guards, s: Cluster, i: Id) returns (t: Cluster)
    requires Reach(g, s) && i < |s.nodes|
    ensures Reach(g, t) && s.msgs == t.msgs && t.nodes == s.nodes[i := ApplyOne(s.nodes[i])]
  {
    t := Fire(g, s, Apply(i));
  }

  ghost predicate Diverged(s: Cluster, a: Id, b: Id) {
    a < |s.nodes| && b < |s.nodes| &&
    !(s.nodes[a].applied <= s.nodes[b].applied) && !(s.nodes[b].applied <= s.nodes[a].applied)
  }
}
