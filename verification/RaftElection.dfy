/** Election safety, which needs only the first guard: keep the vote within a term. */
module RaftElection {
  import opened Wrappers
  import opened Commands
  import opened RaftTypes
  import opened RaftHandlers
  import opened RaftCluster
  import opened RaftLogs

  datatype Victory = Victory(leader: Id, voters: set<Id>)

  /** Every vote cast and every election won so far. */
  datatype Tally = Tally(votes: map<(nat, Id), Id>, wins: map<nat, Victory>)

  ghost predicate WinOk(e: Tally, n: nat, t: nat)
    requires t in e.wins
  {
    e.wins[t].voters <= Ids(n) && |e.wins[t].voters| >= Quorum(n) &&
    forall v | v in e.wins[t].voters :: (t, v) in e.votes && e.votes[(t, v)] == e.wins[t].leader
  }

  ghost predicate VoterOk(e: Tally, n: nat, i: Id, x: Node) {
    (forall t | (t, i) in e.votes ::
       t <= x.term && (t == x.term ==> x.votedFor == Some(e.votes[(t, i)]))) &&
    (forall t | t in e.wins && e.wins[t].leader == i ::
       t <= x.term && (t == x.term ==> x.role != Candidate)) &&
    (x.role == Leader ==> x.term in e.wins && e.wins[x.term].leader == i) &&
    (x.role == Candidate ==>
       forall v | v in x.votes :: v < n && (x.term, v) in e.votes && e.votes[(x.term, v)] == i)
  }

  ghost predicate ReplyOk(e: Tally, n: nat, m: Msg) {
    m.VoteResp? && m.granted ==>
      m.src < n && (m.term, m.src) in e.votes && e.votes[(m.term, m.src)] == m.dst
  }

  ghost predicate TallyOk(s: Cluster, e: Tally) {
    var n := |s.nodes|;
    (forall t {:trigger WinOk(e, n, t)} | t in e.wins :: WinOk(e, n, t)) &&
    (forall i {:trigger VoterOk(e, n, i, s.nodes[i])} | 0 <= i < n :: VoterOk(e, n, i, s.nodes[i])) &&
    (forall m {:trigger ReplyOk(e, n, m)} | m in s.msgs :: ReplyOk(e, n, m))
  }

  ghost predicate Extends(e: Tally, f: Tally) {
    (forall k | k in e.votes :: k in f.votes && f.votes[k] == e.votes[k]) &&
    (forall t | t in e.wins :: t in f.wins && f.wins[t] == e.wins[t])
  }

  /** Node i becomes y; f records at most a vote by i and a win of i. */
  lemma StepOk(s: Cluster, e: Tally, i: Id, y: Node, sent: set<Msg>, f: Tally)
    requires TallyOk(s, e) && i < |s.nodes| && Extends(e, f)
    requires forall t, v | (t, v) in f.votes && (t, v) !in e.votes :: v == i
    requires forall t | t in f.wins && t !in e.wins ::
               f.wins[t].leader == i && WinOk(f, |s.nodes|, t)
    requires VoterOk(f, |s.nodes|, i, y)
    requires forall m | m in sent :: ReplyOk(f, |s.nodes|, m)
    ensures TallyOk(Set(s, i, y, sent), f)
  {
    var n := |s.nodes|;
    forall j | 0 <= j < n && j != i ensures VoterOk(f, n, j, s.nodes[j]) {
      assert VoterOk(e, n, j, s.nodes[j]);
    }
    forall t | t in f.wins ensures WinOk(f, n, t) {
      if t in e.wins {
        assert WinOk(e, n, t);
      }
    }
    forall m | m in s.msgs ensures ReplyOk(f, n, m) {
      assert ReplyOk(e, n, m);
    }
  }

  lemma SharedVoter(e: Tally, n: nat, t: nat, votes: set<Id>) returns (v: Id)
    requires t in e.wins && WinOk(e, n, t) && votes <= Ids(n) && |votes| >= Quorum(n)
    ensures v in votes && (t, v) in e.votes && e.votes[(t, v)] == e.wins[t].leader
  {
    v := QuorumsMeet(votes, e.wins[t].voters, n);
  }

  lemma NoWinYet(s: Cluster, e: Tally, i: Id, c: Node)
    requires TallyOk(s, e) && i < |s.nodes| && VoterOk(e, |s.nodes|, i, c)
    requires c.role == Candidate && |c.votes| >= Quorum(|s.nodes|)
    ensures c.term !in e.wins
  {
    hide WinOk;
    if c.term in e.wins {
      assert WinOk(e, |s.nodes|, c.term);
      var v := SharedVoter(e, |s.nodes|, c.term, c.votes);
      assert false;
    }
  }

  ghost function WithWin(e: Tally, t: nat, i: Id, voters: set<Id>): Tally {
    e.(wins := e.wins[t := Victory(i, voters)])
  }

  lemma TimeoutTally(g: Guards, s: Cluster, e: Tally, i: Id) returns (f: Tally)
    requires TallyOk(s, e) && Enabled(g, s, Timeout(i))
    ensures TallyOk(Do(g, s, Timeout(i)), f) && Extends(e, f)
  {
    var n, x := |s.nodes|, s.nodes[i];
    var c := Standing(i, x);
    assert VoterOk(e, n, i, x);
    f := e.(votes := e.votes[(c.term, i) := i]);
    if n == 1 {
      if c.term in f.wins {
        hide WinOk;
        assert WinOk(e, n, c.term);
        var v := SharedVoter(e, n, c.term, Ids(n));
        assert false;
      }
      f := WithWin(f, c.term, i, {i});
      assert WinOk(f, n, c.term);
    }
    StepOk(s, e, i, StartElection(n, i, x), VoteRequests(n, i, x), f);
  }

  lemma VoteReqTally(g: Guards, s: Cluster, e: Tally, m: Msg) returns (f: Tally)
    requires g.keepVote && TallyOk(s, e) && m.VoteReq? && Enabled(g, s, Deliver(m))
    ensures TallyOk(Do(g, s, Deliver(m)), f) && Extends(e, f)
  {
    var n, i := |s.nodes|, m.dst;
    var x := s.nodes[i];
    assert VoterOk(e, n, i, x);
    var (y, reply) := OnVoteReq(g, i, x, m);
    f := if Grants(SeeTerm(g, x, m.term), m) then e.(votes := e.votes[(y.term, i) := m.src]) else e;
    StepOk(s, e, i, y, {reply}, f);
  }

  lemma VoteRespTally(g: Guards, s: Cluster, e: Tally, m: Msg) returns (f: Tally)
    requires TallyOk(s, e) && m.VoteResp? && Enabled(g, s, Deliver(m))
    ensures TallyOk(Do(g, s, Deliver(m)), f) && Extends(e, f)
  {
    var n, i := |s.nodes|, m.dst;
    var x := s.nodes[i];
    assert VoterOk(e, n, i, x) && ReplyOk(e, n, m);
    f := e;
    if x.role == Candidate && m.granted && m.term == x.term {
      var c := x.(votes := x.votes + {m.src});
      assert VoterOk(e, n, i, c);
      if |c.votes| >= Quorum(n) {
        NoWinYet(s, e, i, c);
        f := WithWin(e, c.term, i, c.votes);
        assert c.votes <= Ids(n);
        assert WinOk(f, n, c.term);
      }
    }
    StepOk(s, e, i, OnVoteResp(g, n, i, x, m), {}, f);
  }

  /** Steps that cast no vote and win no election. */
  lemma OtherTally(g: Guards, s: Cluster, e: Tally, a: Action)
    requires g.keepVote && TallyOk(s, e) && Enabled(g, s, a) && !a.Timeout?
    requires a.Deliver? ==> !a.m.VoteReq? && !a.m.VoteResp?
    ensures TallyOk(Do(g, s, a), e)
  {
    var n, t := |s.nodes|, Do(g, s, a);
    forall i | 0 <= i < n ensures VoterOk(e, n, i, t.nodes[i]) {
      assert VoterOk(e, n, i, s.nodes[i]);
    }
    forall m | m in t.msgs ensures ReplyOk(e, n, m) {
      if m in s.msgs {
        assert ReplyOk(e, n, m);
      }
    }
  }

  lemma ActionTally(g: Guards, s: Cluster, e: Tally, a: Action) returns (f: Tally)
    requires g.keepVote && TallyOk(s, e) && Enabled(g, s, a)
    ensures TallyOk(Do(g, s, a), f) && Extends(e, f)
  {
    if a.Timeout? {
      f := TimeoutTally(g, s, e, a.i);
    } else if a.Deliver? && a.m.VoteReq? {
      f := VoteReqTally(g, s, e, a.m);
    } else if a.Deliver? && a.m.VoteResp? {
      f := VoteRespTally(g, s, e, a.m);
    } else {
      f := e;
      OtherTally(g, s, e, a);
    }
  }

  ghost predicate Knows(e: Tally, s: Cluster) {
    forall i | 0 <= i < |s.nodes| && s.nodes[i].role == Leader ::
      s.nodes[i].term in e.wins && e.wins[s.nodes[i].term].leader == i
  }

  lemma NextTally(g: Guards, s: Cluster, t: Cluster, d: Tally) returns (e: Tally)
    requires g.keepVote && TallyOk(s, d) && Next(g, s, t)
    ensures TallyOk(t, e) && Knows(e, t)
    ensures forall r | Knows(d, r) :: Knows(e, r)
  {
    var a :| Enabled(g, s, a) && t == Do(g, s, a);
    e := ActionTally(g, s, d, a);
    forall i | 0 <= i < |t.nodes| && t.nodes[i].role == Leader
      ensures t.nodes[i].term in e.wins && e.wins[t.nodes[i].term].leader == i
    {
      assert VoterOk(e, |t.nodes|, i, t.nodes[i]);
    }
  }

  lemma InitTally(s: Cluster)
    requires Init(s)
    ensures TallyOk(s, Tally(map[], map[])) && Knows(Tally(map[], map[]), s)
  {
  }

  ghost predicate KnowsRun(e: Tally, run: seq<Cluster>) {
    forall k {:trigger Knows(e, run[k])} | 0 <= k < |run| :: Knows(e, run[k])
  }

  /** One tally for the whole run: it knows every leader of every state. */
  lemma {:induction false} RunTally(g: Guards, run: seq<Cluster>) returns (e: Tally)
    requires g.keepVote && IsRun(g, run)
    ensures TallyOk(run[|run| - 1], e)
    ensures KnowsRun(e, run)
    decreases |run|
  {
    hide TallyOk, Next, Knows;
    if |run| == 1 {
      e := Tally(map[], map[]);
      InitTally(run[0]);
    } else {
      var n := |run| - 1;
      FrontIsRun(g, run);
      var d := RunTally(g, run[..n]);
      assert run[..n][n - 1] == run[n - 1];
      e := NextTally(g, run[n - 1], run[n], d);
      forall k | 0 <= k < |run| ensures Knows(e, run[k]) {
        if k < n {
          assert Knows(d, run[..n][k]);
        }
      }
    }
  }

  /** No two states of the run show different leaders of one term. */
  ghost predicate OneLeaderPerTerm(run: seq<Cluster>) {
    forall p, q, a, b {:trigger run[p].nodes[a], run[q].nodes[b]} |
      0 <= p < |run| && 0 <= q < |run| && 0 <= a < |run[p].nodes| && 0 <= b < |run[q].nodes| &&
      run[p].nodes[a].role == Leader && run[q].nodes[b].role == Leader &&
      run[p].nodes[a].term == run[q].nodes[b].term :: a == b
  }

  /** In every run that keeps votes, at most one node ever leads in a given term. */
  lemma ElectionSafety(g: Guards, run: seq<Cluster>)
    requires g.keepVote && IsRun(g, run)
    ensures OneLeaderPerTerm(run)
  {
    var e := RunTally(g, run);
    forall k | 0 <= k < |run| ensures Knows(e, run[k]) {
    }
  }
}
