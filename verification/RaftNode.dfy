/** One RaftNode object (src/consensus/raft.py). Its methods change its fields in place and
    are proved to do exactly what the handler functions say. */
module RaftNodes {
  import opened Wrappers
  import opened Commands
  import opened RaftTypes
  import H = RaftHandlers
  import opened RaftCluster

  /** The whole inner loop of the apply task. */
  function ApplyAll(s: Node): Node
    decreases s.commitIndex - s.lastApplied
  {
    if s.lastApplied >= s.commitIndex then s else ApplyAll(H.ApplyOne(s))
  }

  /** The entries an apply loop hands to the state machine: those after the last applied one, up to
      the commit index or the end of the log. */
  function Due(s: Node): seq<Entry> {
    var end := H.Min(s.commitIndex, |s.log|);
    if s.lastApplied < end then s.log[s.lastApplied..end] else []
  }

  /** The loop applies exactly the entries that are due, in order, and brings the last applied index
      up to the commit index. */
  lemma {:induction false} AppliesWhatIsDue(s: Node)
    ensures ApplyAll(s) == s.(lastApplied := H.Max(s.lastApplied, s.commitIndex), applied := s.applied + Due(s))
    decreases s.commitIndex - s.lastApplied
  {
    if s.lastApplied >= s.commitIndex {
      assert s.applied + [] == s.applied;
    } else {
      var t := H.ApplyOne(s);
      AppliesWhatIsDue(t);
      OneIsDue(s);
      hide Due, H.ApplyOne;
    }
  }

  lemma OneIsDue(s: Node)
    requires s.lastApplied < s.commitIndex
    ensures H.ApplyOne(s).applied + Due(H.ApplyOne(s)) == s.applied + Due(s)
    ensures H.ApplyOne(s) == s.(lastApplied := s.lastApplied + 1, applied := H.ApplyOne(s).applied)
  {
    var t := H.ApplyOne(s);
    if s.lastApplied < |s.log| {
      var e := [s.log[s.lastApplied]];
      assert Due(s) == e + Due(t);
      assert s.applied + (e + Due(t)) == s.applied + e + Due(t);
    }
  }

  /** Each state of the run comes from the one before by node i applying one entry. */
  ghost predicate OnlyApplies(g: Guards, run: seq<Cluster>, i: Id) {
    forall k {:trigger run[k + 1]} | 0 <= k < |run| - 1 ::
      i < |run[k].nodes| && run[k + 1] == Do(g, run[k], Apply(i))
  }

  lemma OneApply(g: Guards, run: seq<Cluster>, i: Id) returns (t: Cluster)
    requires IsRun(g, run) && i < |run[|run| - 1].nodes|
    ensures t == Do(g, run[|run| - 1], Apply(i)) && IsRun(g, run + [t])
    ensures t == Set(run[|run| - 1], i, H.ApplyOne(run[|run| - 1].nodes[i]), {})
  {
    t := Do(g, run[|run| - 1], Apply(i));
    var longer := run + [t];
    assert Next(g, run[|run| - 1], t) by {
      assert Enabled(g, run[|run| - 1], Apply(i));
    }
    forall k | 0 <= k < |longer| - 1 ensures Next(g, longer[k], longer[k + 1]) {
      if k < |run| - 1 {
        assert Next(g, run[k], run[k + 1]);
      }
    }
  }

  lemma OneMoreApply(g: Guards, s: Cluster, t: Cluster, rest: seq<Cluster>, i: Id)
    requires i < |s.nodes| && t == Do(g, s, Apply(i)) && OnlyApplies(g, [t] + rest, i)
    ensures OnlyApplies(g, [s] + ([t] + rest), i)
  {
    hide Do;
    var steps, tail := [s] + ([t] + rest), [t] + rest;
    forall k {:trigger steps[k + 1]} | 0 <= k < |steps| - 1
      ensures i < |steps[k].nodes| && steps[k + 1] == Do(g, steps[k], Apply(i))
    {
      if k > 0 {
        var j := k - 1;
        assert steps[k] == tail[j] && steps[k + 1] == tail[j + 1];
      }
    }
  }

  /** The loop is a run of single applications, so every theorem about runs is one about it. */
  lemma {:induction false} LoopIsApplies(g: Guards, run: seq<Cluster>, i: Id) returns (more: seq<Cluster>)
    requires IsRun(g, run) && i < |run[|run| - 1].nodes|
    ensures IsRun(g, run + more) && OnlyApplies(g, [run[|run| - 1]] + more, i)
    ensures var s, t := run[|run| - 1], (run + more)[|run + more| - 1];
            t == Cluster(s.nodes[i := ApplyAll(s.nodes[i])], s.msgs)
    decreases run[|run| - 1].nodes[i].commitIndex - run[|run| - 1].nodes[i].lastApplied
  {
    hide Do, Next, Init;
    var s := run[|run| - 1];
    if s.nodes[i].lastApplied >= s.nodes[i].commitIndex {
      more := [];
      assert run + more == run && s.nodes[i := s.nodes[i]] == s.nodes;
    } else {
      var t := OneApply(g, run, i);
      assert (run + [t])[|run + [t]| - 1] == t;
      var rest := LoopIsApplies(g, run + [t], i);
      more := [t] + rest;
      assert run + more == run + [t] + rest;
      OneMoreApply(g, s, t, rest, i);
    }
  }

  class RaftNode {
    const id: Id
    const size: nat
    const guards: Guards

    var role: Role
    var currentTerm: nat
    var votedFor: Option<Id>
    var log: seq<Entry>
    var commitIndex: nat
    var lastApplied: nat
    var nextIndex: map<Id, Position>
    var matchIndex: map<Id, nat>
    var votesReceived: set<Id>
    var applied: seq<Entry>

    function View(): Node
      reads this
    {
      Node(role, currentTerm, votedFor, log, commitIndex, lastApplied, nextIndex, matchIndex,
           votesReceived, applied)
    }

    constructor (id: Id, size: nat, guards: Guards)
      ensures this.id == id && this.size == size && this.guards == guards
      ensures View() == InitNode
    {
      this.id, this.size, this.guards := id, size, guards;
      role, currentTerm, votedFor, log := Follower, 0, None, [];
      commitIndex, lastApplied, nextIndex, matchIndex := 0, 0, map[], map[];
      votesReceived, applied := {}, [];
    }

    // ---- Elections ----

    method StartElection() returns (requests: set<Msg>)
      modifies this
      ensures View() == H.StartElection(size, id, old(View()))
      ensures requests == H.VoteRequests(size, id, old(View()))
    {
      currentTerm := currentTerm + 1;
      role := Candidate;
      votedFor := Some(id);
      votesReceived := {id};
      if size == 1 {
        BecomeLeader();
        return {};
      }
      var lastLogIndex := |log| - 1;
      var lastLogTerm := if log != [] then log[|log| - 1].term else 0;
      requests := set p | p in Peers(size, id) ::
        VoteReq(id, p, currentTerm, lastLogIndex, lastLogTerm);
    }

    method HandleVoteRequest(m: Msg) returns (reply: Msg)
      requires m.VoteReq?
      modifies this
      ensures (View(), reply) == H.OnVoteReq(guards, id, old(View()), m)
    {
      if m.term > currentTerm {
        BecomeFollower(m.term);
      }
      var granted := false;
      if m.term >= currentTerm {
        if votedFor == None || votedFor == Some(m.src) {
          var myLastTerm := if log != [] then log[|log| - 1].term else 0;
          var myLastIndex := |log| - 1;
          if m.lastTerm > myLastTerm || (m.lastTerm == myLastTerm && m.lastIndex >= myLastIndex) {
            granted := true;
            votedFor := Some(m.src);
          }
        }
      }
      reply := VoteResp(id, m.src, currentTerm, granted);
    }

    method HandleVoteResponse(m: Msg)
      requires m.VoteResp?
      modifies this
      ensures View() == H.OnVoteResp(guards, size, id, old(View()), m)
    {
      if role != Candidate {
        return;
      }
      if m.term > currentTerm {
        BecomeFollower(m.term);
        return;
      }
      if m.granted && m.term == currentTerm {
        votesReceived := votesReceived + {m.src};
        if |votesReceived| >= Quorum(size) {
          BecomeLeader();
        }
      }
    }

    method BecomeLeader()
      modifies this
      ensures View() == H.BecomeLeader(size, id, old(View()))
    {
      role := Leader;
      var lastIndex := |log|;
      nextIndex := map p | p in Peers(size, id) :: lastIndex + 1;
      matchIndex := map p | p in Peers(size, id) :: 0;
      var ok := Propose(NoOp(id));
    }

    method BecomeFollower(term: nat)
      modifies this
      ensures View() == H.BecomeFollower(guards, old(View()), term)
    {
      if !(guards.keepVote && term == currentTerm) {
        votedFor := None;
      }
      role := Follower;
      currentTerm := term;
    }

    // ---- Replication ----

    method Propose(command: Command) returns (ok: bool)
      modifies this
      ensures ok == (old(role) == Leader)
      ensures View() == if ok then H.Append(old(View()), command) else old(View())
    {
      if role != Leader {
        return false;
      }
      var entry := Entry(currentTerm, |log| + 1, command);
      log := log + [entry];
      return true;
    }

    method ReplicateToPeer(peer: Id) returns (m: Msg)
      ensures m == H.AppendMessage(id, View(), peer)
    {
      var prevIndex: nat := NextOf(View(), peer) - 1;
      var prevTerm := 0;
      if prevIndex > 0 && prevIndex <= |log| {
        prevTerm := log[prevIndex - 1].term;
      }
      var entries := if prevIndex <= |log| then log[prevIndex..] else [];
      m := AppendReq(id, peer, currentTerm, prevIndex, prevTerm, entries, commitIndex);
    }

    /** The append loop: entry by entry, it merges the message into the log. */
    method AppendAll(prev: nat, entries: seq<Entry>)
      requires prev <= |log|
      modifies this`log
      ensures log == H.Merge(old(log), prev, entries)
    {
      for i := 0 to |entries|
        invariant prev + i <= |log|
        invariant H.Merge(log, prev + i, entries[i..]) == H.Merge(old(log), prev, entries)
      {
        ghost var before, rest := log, entries[i..];
        assert rest[1..] == entries[i + 1..];
        var idx := prev + i;
        if idx < |log| {
          if log[idx].term != entries[i].term {
            log := log[..idx];
            log := log + [entries[i]];
            assert before[..idx] + rest == log + rest[1..];
          }
        } else {
          log := log + [entries[i]];
          assert before[..idx] + rest == log + rest[1..];
        }
      }
    }

    method HandleAppendEntries(m: Msg) returns (reply: Msg)
      requires m.AppendReq?
      modifies this
      ensures (View(), reply) == H.OnAppendReq(guards, id, old(View()), m)
    {
      if m.term < currentTerm {
        return AppendResp(id, m.src, currentTerm, false, |m.entries|, m.prevIndex + 1);
      }
      BecomeFollower(m.term);
      if m.prevIndex > 0 {
        if |log| < m.prevIndex {
          return AppendResp(id, m.src, currentTerm, false, |m.entries|, m.prevIndex + 1);
        }
        if log[m.prevIndex - 1].term != m.prevTerm {
          log := log[..m.prevIndex - 1];
          return AppendResp(id, m.src, currentTerm, false, |m.entries|, m.prevIndex + 1);
        }
      }
      AppendAll(m.prevIndex, m.entries);
      if m.leaderCommit > commitIndex {
        commitIndex := H.Min(m.leaderCommit, |log|);
      }
      reply := AppendResp(id, m.src, currentTerm, true, |m.entries|, m.prevIndex + 1);
    }

    method CountStoring(idx: nat) returns (count: nat)
      ensures count == 1 + |H.Storing(size, id, View(), idx)|
    {
      count := 1;
      ghost var seen: set<Id> := {};
      for p := 0 to size
        invariant count == 1 + |seen|
        invariant forall q: Id :: q in seen <==> q < p && q != id && MatchOf(View(), q) >= idx
      {
        if p != id && MatchOf(View(), p) >= idx {
          count := count + 1;
          seen := seen + {p};
        }
      }
      assert seen == H.Storing(size, id, View(), idx);
    }

    /** The new commit index is the greatest one above the old that is of the current term
        and stored by a quorum; if there is none, nothing changes. */
    method AdvanceCommitIndex()
      modifies this`commitIndex
      ensures commitIndex == H.Advance(size, id, old(View()), |log|)
      ensures commitIndex == old(commitIndex) ||
              (commitIndex > old(commitIndex) && H.Eligible(size, id, old(View()), commitIndex))
      ensures forall k | k > commitIndex :: !H.Eligible(size, id, old(View()), k)
    {
      ghost var v := View();
      var idx: nat := |log|;
      while idx > commitIndex
        invariant commitIndex == v.commitIndex && View() == v
        invariant H.Advance(size, id, v, idx) == H.Advance(size, id, v, |log|)
        invariant idx <= |log|
        decreases idx
      {
        if log[idx - 1].term == currentTerm {
          var count := CountStoring(idx);
          if count >= Quorum(size) {
            commitIndex := idx;
            assert H.Advance(size, id, v, idx) == idx;
            break;
          }
        }
        idx := idx - 1;
      }
    }

    method HandleAppendEntriesResponse(m: Msg)
      requires m.AppendResp?
      modifies this
      ensures View() == H.OnAppendResp(guards, size, id, old(View()), m)
    {
      if m.term > currentTerm {
        BecomeFollower(m.term);
        return;
      }
      if role != Leader || (guards.currentTermAck && m.term != currentTerm) {
        return;
      }
      if m.success {
        var newMatch := m.usedNext - 1 + m.sent;
        matchIndex := matchIndex[m.src := H.Max(MatchOf(View(), m.src), newMatch)];
        nextIndex := nextIndex[m.src := newMatch + 1];
        AdvanceCommitIndex();
      } else {
        nextIndex := nextIndex[m.src := H.Max(1, NextOf(View(), m.src) - 1)];
      }
    }

    // ---- The apply loop ----

    method ApplyCommitted()
      modifies this`lastApplied, this`applied
      ensures View() == ApplyAll(old(View()))
      ensures lastApplied == H.Max(old(lastApplied), commitIndex)
      ensures applied == old(applied) + Due(old(View()))
    {
      AppliesWhatIsDue(View());
      while lastApplied < commitIndex
        invariant ApplyAll(View()) == ApplyAll(old(View()))
        decreases commitIndex - lastApplied
      {
        lastApplied := lastApplied + 1;
        if lastApplied <= |log| {
          applied := applied + [log[lastApplied - 1]];
        }
      }
    }
  }
}
