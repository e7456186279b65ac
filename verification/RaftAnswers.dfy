/** What a node answers and takes over, message by message, under any guards. */
module RaftAnswers {
  import opened Wrappers
  import opened Commands
  import opened RaftTypes
  import opened RaftHandlers
  import opened RaftLogs

  // ---- Votes ----

  /** A vote is granted exactly to a candidate of the present term or a later one whose log is at
      least as up to date, if the term is new to the voter or its vote is still free or already that
      candidate's. Answers carry the voter's new term, which never falls. */
  lemma VoteGrantedExactly(g: Guards, me: Id, s: Node, m: Msg)
    requires m.VoteReq?
    ensures var (y, reply) := OnVoteReq(g, me, s, m);
            reply.VoteResp? && reply.src == me && reply.dst == m.src &&
            (reply.granted <==>
               m.term >= s.term && (m.term > s.term || s.votedFor == None || s.votedFor == Some(m.src)) &&
               (m.lastTerm > LastTerm(s.log) ||
                (m.lastTerm == LastTerm(s.log) && m.lastIndex >= |s.log| - 1))) &&
            (reply.granted ==> y.votedFor == Some(m.src) && y.term == m.term) &&
            reply.term == y.term && y.term == Max(s.term, m.term) && y.log == s.log
  {
  }

  /** An answer makes a leader exactly when it is a vote of the candidate's present term that completes
      a majority, and a later term in it ends the candidacy. All other answers change nothing but the
      votes. */
  lemma VoteCountedExactly(g: Guards, n: nat, me: Id, s: Node, m: Msg)
    requires m.VoteResp?
    ensures var y := OnVoteResp(g, n, me, s, m);
            var counts := s.role == Candidate && m.granted && m.term == s.term;
            (y.role == Leader <==> s.role == Leader || (counts && 2 * |s.votes + {m.src}| > n)) &&
            (s.role == Candidate && m.term > s.term ==> y.role == Follower && y.term == m.term) &&
            (y.term != s.term ==> s.role == Candidate && m.term > s.term) &&
            (y.role == s.role ==> y == if counts then s.(votes := s.votes + {m.src}) else s)
  {
  }

  /** An answer of a later term makes any node a follower of that term, and one that does not use
      answers any more changes nothing. */
  lemma LaterTermStepsDown(g: Guards, n: nat, me: Id, s: Node, m: Msg)
    requires m.AppendResp?
    ensures var y := OnAppendResp(g, n, me, s, m);
            (m.term > s.term ==> y.role == Follower && y.term == m.term && y.log == s.log) &&
            (m.term <= s.term && s.role != Leader ==> y == s)
  {
  }

  /** A node alone in its cluster leads as soon as it stands, and asks nobody. */
  lemma LoneNodeLeads(me: Id, s: Node)
    ensures var y := StartElection(1, me, s);
            y.role == Leader && y.term == s.term + 1 && VoteRequests(1, me, s) == {} &&
            y.log == s.log + [Entry(s.term + 1, |s.log| + 1, NoOp(me))]
  {
  }

  // ---- AppendEntries ----

  /** A message is refused exactly when it is of an older term or the log has no entry of the given
      term before it. A refusal cuts the log before a conflicting entry and nothing else, never moves
      the commit index, and answers carry the node's new term. A message of the present term or a
      later one that starts at the very beginning is never refused. */
  lemma RefusedExactly(g: Guards, me: Id, s: Node, m: Msg)
    requires m.AppendReq?
    ensures var (y, reply) := OnAppendReq(g, me, s, m);
            var before := m.prevIndex == 0 ||
                          (m.prevIndex <= |s.log| && s.log[m.prevIndex - 1].term == m.prevTerm);
            reply.AppendResp? && reply.src == me && reply.dst == m.src &&
            (reply.success <==> m.term >= s.term && before) &&
            reply.term == y.term && y.term == Max(s.term, m.term) &&
            (!reply.success ==>
               y.commitIndex == s.commitIndex &&
               y.log == if m.term < s.term || m.prevIndex > |s.log| then s.log else s.log[..m.prevIndex - 1])
  {
  }

  /** After a success the commit index is the greater of the old one and what the message lets the
      log commit, whether or not the message carries entries, exactly when it does not have to fall:
      it falls when the leader is ahead and the merged log is shorter than the old commit index. */
  lemma CommitTakenExactly(g: Guards, me: Id, s: Node, m: Msg)
    requires m.AppendReq? && OnAppendReq(g, me, s, m).1.success
    ensures var y := OnAppendReq(g, me, s, m).0;
            (y.commitIndex == Max(s.commitIndex, Min(m.leaderCommit, |y.log|)) <==>
             m.leaderCommit <= s.commitIndex || s.commitIndex <= |y.log|) &&
            (m.leaderCommit > s.commitIndex > |y.log| ==> y.commitIndex == |y.log|)
  {
  }

  /** It can fall where logs may be cut below the commit index. */
  lemma CommitCanFall()
    ensures var e := Entry(1, 1, NoOp(0));
            var s := InitNode.(term := 1, log := [e, e], commitIndex := 2);
            var m := AppendReq(1, 0, 2, 0, 0, [Entry(2, 1, NoOp(1))], 3);
            OnAppendReq(AsWritten, 0, s, m).1.success && OnAppendReq(AsWritten, 0, s, m).0.commitIndex == 1
  {
    var e := Entry(1, 1, NoOp(0));
    assert Merge([e, e], 0, [Entry(2, 1, NoOp(1))]) == [Entry(2, 1, NoOp(1))];
  }

  // ---- Responses ----

  /** A leader that uses an answer of its term records how far the follower has come after a success,
      never lowering it, and sends from one entry earlier, never before the first, after a refusal. */
  lemma ResponseRecorded(g: Guards, n: nat, me: Id, s: Node, m: Msg)
    requires m.AppendResp? && s.role == Leader && m.term == s.term
    ensures var y := OnAppendResp(g, n, me, s, m);
            (forall p :: MatchOf(y, p) >= MatchOf(s, p) && (p != m.src ==> NextOf(y, p) == NextOf(s, p))) &&
            y.role == Leader && y.term == s.term && y.log == s.log &&
            if m.success then
              MatchOf(y, m.src) >= m.usedNext - 1 + m.sent && NextOf(y, m.src) == m.usedNext + m.sent
            else
              NextOf(y, m.src) == (if NextOf(s, m.src) > 1 then NextOf(s, m.src) - 1 else 1) &&
              y.commitIndex == s.commitIndex
  {
    hide Advance;
  }

  /** After a success the leader has committed every entry of its own term that a quorum, itself
      included, is known to store. */
  lemma QuorumCommits(g: Guards, n: nat, me: Id, s: Node, m: Msg, idx: nat, q: set<Id>)
    requires m.AppendResp? && m.success && s.role == Leader && m.term == s.term
    requires 0 < idx <= |s.log| && s.log[idx - 1].term == s.term
    requires me !in q && 1 + |q| >= Quorum(n)
    requires forall p | p in q :: p < n && MatchOf(OnAppendResp(g, n, me, s, m), p) >= idx
    ensures OnAppendResp(g, n, me, s, m).commitIndex >= idx
  {
    var matched := m.usedNext - 1 + m.sent;
    var y := OnAppendResp(g, n, me, s, m);
    var t := s.(matchIndex := s.matchIndex[m.src := Max(MatchOf(s, m.src), matched)],
                nextIndex := s.nextIndex[m.src := matched + 1]);
    assert y == t.(commitIndex := Advance(n, me, t, |t.log|));
    QuorumAdvances(n, me, t, idx, q);
  }

  lemma QuorumAdvances(n: nat, me: Id, s: Node, idx: nat, q: set<Id>)
    requires 0 < idx <= |s.log| && s.log[idx - 1].term == s.term
    requires me !in q && 1 + |q| >= Quorum(n)
    requires forall p | p in q :: p < n && MatchOf(s, p) >= idx
    ensures Advance(n, me, s, |s.log|) >= idx
  {
    hide Advance;
    assert q <= Storing(n, me, s, idx);
    SubsetSize(q, Storing(n, me, s, idx));
    assert Eligible(n, me, s, idx);
  }
}
