/** What each handler of src/consensus/raft.py does to one node, as functions.
    `me` is the node's id and the cluster is 0..n-1, so its peers are the rest. */
module RaftHandlers {
  import opened Wrappers
  import opened Commands
  import opened RaftTypes

  function BecomeFollower(g: Guards, s: Node, term: nat): Node {
    s.(role := Follower, term := term,
       votedFor := if g.keepVote && term == s.term then s.votedFor else None)
  }

  function Append(s: Node, command: Command): Node {
    s.(log := s.log + [Entry(s.term, |s.log| + 1, command)])
  }

  function BecomeLeader(n: nat, me: Id, s: Node): Node {
    Append(s.(role := Leader,
              nextIndex := map p | p in Peers(n, me) :: |s.log| + 1,
              matchIndex := map p | p in Peers(n, me) :: 0),
           NoOp(me))
  }

  function Standing(me: Id, s: Node): Node {
    s.(term := s.term + 1, role := Candidate, votedFor := Some(me), votes := {me})
  }

  function StartElection(n: nat, me: Id, s: Node): Node {
    if n == 1 then BecomeLeader(n, me, Standing(me, s)) else Standing(me, s)
  }

  function VoteRequests(n: nat, me: Id, s: Node): set<Msg> {
    if n == 1 then {} else
      set p | p in Peers(n, me) ::
        VoteReq(me, p, s.term + 1, |s.log| - 1, LastTerm(s.log))
  }

  /** The candidate's log is at least as up to date as the voter's. */
  predicate LogOk(lastIndex: int, lastTerm: nat, log: seq<Entry>) {
    lastTerm > LastTerm(log) || (lastTerm == LastTerm(log) && lastIndex >= |log| - 1)
  }

  function SeeTerm(g: Guards, s: Node, term: nat): Node {
    if term > s.term then BecomeFollower(g, s, term) else s
  }

  predicate Grants(s: Node, m: Msg)
    requires m.VoteReq?
  {
    m.term >= s.term && (s.votedFor == None || s.votedFor == Some(m.src)) &&
    LogOk(m.lastIndex, m.lastTerm, s.log)
  }

  function OnVoteReq(g: Guards, me: Id, s: Node, m: Msg): (Node, Msg)
    requires m.VoteReq?
  {
    var f := SeeTerm(g, s, m.term);
    if Grants(f, m) then
      (f.(votedFor := Some(m.src)), VoteResp(me, m.src, f.term, true))
    else
      (f, VoteResp(me, m.src, f.term, false))
  }

  function OnVoteResp(g: Guards, n: nat, me: Id, s: Node, m: Msg): Node
    requires m.VoteResp?
  {
    if s.role != Candidate then s
    else if m.term > s.term then BecomeFollower(g, s, m.term)
    else if m.granted && m.term == s.term then
      var c := s.(votes := s.votes + {m.src});
      if |c.votes| >= Quorum(n) then BecomeLeader(n, me, c) else c
    else s
  }

  /** The AppendEntries message for `peer`: everything from its next index on. A next
      index beyond the end of the log gives an empty suffix and previous term 0. */
  function AppendMessage(me: Id, s: Node, peer: Id): Msg {
    var prev := NextOf(s, peer) - 1;
    AppendReq(me, peer, s.term, prev,
              if 0 < prev <= |s.log| then s.log[prev - 1].term else 0,
              if prev <= |s.log| then s.log[prev..] else [],
              s.commitIndex)
  }

  /** The log after the append loop, from position `prev` on: keep what agrees in term,
      and at the first disagreement (or the end) take the rest of the message. */
  function Merge(log: seq<Entry>, prev: nat, entries: seq<Entry>): seq<Entry>
    requires prev <= |log|
    decreases |entries|
  {
    if entries == [] then log
    else if prev < |log| && log[prev].term == entries[0].term then
      Merge(log, prev + 1, entries[1..])
    else log[..prev] + entries
  }

  function Min(a: nat, b: nat): nat { if a <= b then a else b }
  function Max(a: nat, b: nat): nat { if a >= b then a else b }

  function OnAppendReq(g: Guards, me: Id, s: Node, m: Msg): (Node, Msg)
    requires m.AppendReq?
  {
    var f := BecomeFollower(g, s, m.term);
    var no := AppendResp(me, m.src, Max(s.term, m.term), false, |m.entries|, m.prevIndex + 1);
    if m.term < s.term then (s, no)
    else if m.prevIndex > |s.log| then (f, no)
    else if m.prevIndex > 0 && s.log[m.prevIndex - 1].term != m.prevTerm then
      (f.(log := s.log[..m.prevIndex - 1]), no)
    else
      var log := Merge(s.log, m.prevIndex, m.entries);
      var commit := if m.leaderCommit > s.commitIndex then Min(m.leaderCommit, |log|)
                    else s.commitIndex;
      (f.(log := log, commitIndex := commit), no.(success := true))
  }

  function Storing(n: nat, me: Id, s: Node, idx: nat): set<Id> {
    set p | p in Peers(n, me) && MatchOf(s, p) >= idx
  }

  /** Entry `idx` (one-based) may be committed by the leader: it is of the current term
      and a quorum, the leader included, is known to store it. */
  predicate Eligible(n: nat, me: Id, s: Node, idx: nat)
  {
    0 < idx <= |s.log| && s.log[idx - 1].term == s.term &&
    1 + |Storing(n, me, s, idx)| >= Quorum(n)
  }

  /** The scan for a new commit index: downwards from `from`, never to `low` or below. */
  function Advance(n: nat, me: Id, s: Node, from: nat): (c: nat)
    ensures c == s.commitIndex || (s.commitIndex < c <= from && Eligible(n, me, s, c))
    ensures forall k | c < k <= from && s.commitIndex < k :: !Eligible(n, me, s, k)
    decreases from
  {
    if from <= s.commitIndex then s.commitIndex
    else if Eligible(n, me, s, from) then from
    else Advance(n, me, s, from - 1)
  }

  function OnAppendResp(g: Guards, n: nat, me: Id, s: Node, m: Msg): Node
    requires m.AppendResp?
  {
    if m.term > s.term then BecomeFollower(g, s, m.term)
    else if s.role != Leader then s
    else if g.currentTermAck && m.term != s.term then s
    else if m.success then
      var matched := m.usedNext - 1 + m.sent;
      var t := s.(matchIndex := s.matchIndex[m.src := Max(MatchOf(s, m.src), matched)],
                  nextIndex := s.nextIndex[m.src := matched + 1]);
      t.(commitIndex := Advance(n, me, t, |t.log|))
    else
      s.(nextIndex := s.nextIndex[m.src := Max(1, NextOf(s, m.src) - 1)])
  }

  /** One round of the apply loop. */
  function ApplyOne(s: Node): Node {
    if s.lastApplied >= s.commitIndex then s
    else
      var idx := s.lastApplied + 1;
      s.(lastApplied := idx,
         applied := if idx <= |s.log| then s.applied + [s.log[idx - 1]] else s.applied)
  }
}
