/** Where log entries come from: nothing is applied that nobody proposed. */
module RaftOrigins {
  import opened Commands
  import opened RaftTypes
  import opened RaftHandlers
  import opened RaftCluster

  ghost predicate InSomeLog(s: Cluster, e: Entry) {
    exists i :: 0 <= i < |s.nodes| && (e in s.nodes[i].log || e in s.nodes[i].applied)
  }

  ghost predicate InSomeMessage(s: Cluster, e: Entry) {
    exists m :: m in s.msgs && m.AppendReq? && e in m.entries
  }

  ghost predicate Known(s: Cluster, e: Entry) {
    InSomeLog(s, e) || InSomeMessage(s, e)
  }

  /** What a node or a new message holds was known before, or is new from a leader. */
  ghost predicate Explained(s: Cluster, a: Action, e: Entry) {
    Known(s, e) || e.command.NoOp? ||
    (a.Propose? && a.i < |s.nodes| && s.nodes[a.i].role == Leader && e.command == a.command)
  }

  lemma {:induction false} MergeAddsNothing(log: seq<Entry>, prev: nat, entries: seq<Entry>, e: Entry)
    requires prev <= |log| && e in Merge(log, prev, entries)
    ensures e in log || e in entries
    decreases |entries|
  {
    if entries != [] {
      if prev < |log| && log[prev].term == entries[0].term {
        MergeAddsNothing(log, prev + 1, entries[1..], e);
      }
    }
  }

  /** The node an action is about. */
  function Actor(a: Action): Id {
    match a
    case Timeout(i) => i
    case Deliver(m) => m.dst
    case Replicate(i, _) => i
    case Propose(i, _) => i
    case Apply(i) => i
  }

  lemma ActorsEntries(g: Guards, s: Cluster, a: Action, e: Entry)
    requires Enabled(g, s, a)
    ensures var x, y := s.nodes[Actor(a)], Do(g, s, a).nodes[Actor(a)];
            e in y.log || e in y.applied ==>
            e in x.log || e in x.applied || e.command.NoOp? ||
            (a.Deliver? && a.m.AppendReq? && e in a.m.entries) ||
            (a.Propose? && e.command == a.command)
  {
    hide Merge, Advance, Grants, VoteRequests, AppendMessage, Peers;
    var x := s.nodes[Actor(a)];
    if a.Deliver? && a.m.AppendReq? && a.m.prevIndex <= |x.log| {
      if e in Merge(x.log, a.m.prevIndex, a.m.entries) {
        MergeAddsNothing(x.log, a.m.prevIndex, a.m.entries, e);
      }
    }
  }

  lemma NewEntry(g: Guards, s: Cluster, a: Action, e: Entry)
    requires Enabled(g, s, a) && Known(Do(g, s, a), e)
    ensures Explained(s, a, e)
  {
    var t := Do(g, s, a);
    if InSomeLog(t, e) {
      var i :| 0 <= i < |t.nodes| && (e in t.nodes[i].log || e in t.nodes[i].applied);
      if i == Actor(a) {
        ActorsEntries(g, s, a, e);
        assert a.Deliver? && a.m.AppendReq? && e in a.m.entries ==> InSomeMessage(s, e);
        assert a.Propose? ==> s.nodes[a.i].role == Leader;
      } else {
        OthersStay(g, s, a, i);
      }
    } else {
      var m :| m in t.msgs && m.AppendReq? && e in m.entries;
      if m !in s.msgs {
        SentEntries(g, s, a, m, e);
      }
    }
  }

  lemma OthersStay(g: Guards, s: Cluster, a: Action, i: Id)
    requires Enabled(g, s, a) && i < |s.nodes| && i != Actor(a)
    ensures |Do(g, s, a).nodes| == |s.nodes| && Do(g, s, a).nodes[i] == s.nodes[i]
  {
    hide OnVoteReq, OnVoteResp, OnAppendReq, OnAppendResp, StartElection, VoteRequests, AppendMessage;
  }

  lemma SentEntries(g: Guards, s: Cluster, a: Action, m: Msg, e: Entry)
    requires Enabled(g, s, a) && m in Do(g, s, a).msgs && m !in s.msgs && m.AppendReq? && e in m.entries
    ensures Known(s, e)
  {
    hide OnVoteResp, OnAppendResp, StartElection, Merge;
    assert a.Replicate?;
    assert e in s.nodes[a.i].log;
  }

  lemma NothingKnown(s: Cluster, e: Entry)
    requires Init(s)
    ensures !Known(s, e)
  {
    forall i | 0 <= i < |s.nodes| ensures !(e in s.nodes[i].log || e in s.nodes[i].applied) {
      assert s.nodes[i] == InitNode;
    }
  }

  /** Some leader took the command at the q-th step of the run. */
  ghost predicate ProposedAt(g: Guards, run: seq<Cluster>, q: nat, command: Command)
    requires q + 1 < |run|
  {
    exists i: Id :: i < |run[q].nodes| && run[q].nodes[i].role == Leader &&
                run[q + 1] == Do(g, run[q], Propose(i, command))
  }

  /** Under any guards, in every run, a command in a log, applied or on its way is the no-op of a new
      leader or was proposed to a leader before. */
  lemma {:induction false} CommandsWereProposed(g: Guards, run: seq<Cluster>, p: nat, e: Entry)
    requires IsRun(g, run) && p < |run| && Known(run[p], e)
    ensures e.command.NoOp? || exists q: nat :: q < p && ProposedAt(g, run, q, e.command)
    decreases p
  {
    if p == 0 {
      NothingKnown(run[p], e);
    } else {
      var q := p - 1;
      assert Next(g, run[q], run[q + 1]);
      hide Do, Enabled;
      var a :| Enabled(g, run[q], a) && run[q + 1] == Do(g, run[q], a);
      NewEntry(g, run[q], a, e);
      if Known(run[q], e) {
        CommandsWereProposed(g, run, q, e);
      } else if !e.command.NoOp? {
        assert a == Propose(a.i, e.command);
        assert ProposedAt(g, run, q, e.command);
      }
    }
  }
}
