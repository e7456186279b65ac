/** Logs, growth of the history, and leader completeness. */
module RaftLogs {
  import opened RaftTypes
  import opened RaftHandlers
  import opened RaftHistory

  // ---- Quorums ----

  lemma QuorumsMeet(a: set<Id>, b: set<Id>, n: nat) returns (v: Id)
    requires a <= Ids(n) && b <= Ids(n)
    requires |a| >= Quorum(n) && |b| >= Quorum(n)
    ensures v in a && v in b
  {
    if a * b == {} {
      SubsetSize(a + b, Ids(n));
      assert false;
    }
    v :| v in a * b;
  }

  lemma SubsetSize<T>(a: set<T>, b: set<T>)
    requires a <= b
    ensures |a| <= |b|
  {
    assert b == a + (b - a);
  }

  // ---- Log matching ----

  lemma CanonicalPrefix(h: History, log: seq<Entry>, k: nat)
    requires Canonical(h, log) && k <= |log|
    ensures Canonical(h, log[..k])
  {
  }

  /** Whatever `log` and `r` begin with in common is still at the beginning of `m`. */
  ghost predicate KeepsCommon(log: seq<Entry>, r: seq<Entry>, m: seq<Entry>) {
    forall c | 0 <= c <= |log| && c <= |r| && log[..c] == r[..c] :: c <= |m| && m[..c] == log[..c]
  }

  lemma CutKeepsCommon(log: seq<Entry>, r: seq<Entry>, k: nat, end: nat)
    requires k < |r| && k <= |log| && k <= end <= |r| && log[..k] == r[..k]
    requires k < |log| ==> log[k].term != r[k].term
    ensures KeepsCommon(log, r, r[..end])
  {
    forall c | 0 <= c <= |log| && c <= |r| && log[..c] == r[..c]
      ensures c <= end && r[..end][..c] == log[..c]
    {
    }
  }

  /** The merge of a message cut from log `r` into a log that agrees with `r` before it:
      the old log if it already contains the message's part of `r`, else exactly that
      part of `r`. Whatever the two logs had in common stays. */
  lemma {:induction false} MergeCanonical(h: History, log: seq<Entry>, r: seq<Entry>,
                                          prev: nat, entries: seq<Entry>)
    requires Canonical(h, log) && Canonical(h, r)
    requires prev <= |log| && prev + |entries| <= |r|
    requires entries == r[prev..prev + |entries|]
    requires log[..prev] == r[..prev]
    ensures var m := Merge(log, prev, entries);
            r[..prev + |entries|] <= m &&
            (m == log || m == r[..prev + |entries|]) &&
            KeepsCommon(log, r, m)
    decreases |entries|
  {
    if entries == [] {
    } else if prev < |log| && log[prev].term == entries[0].term {
      hide KeepsCommon;
      assert entries[1..] == r[prev + 1..prev + 1 + |entries[1..]|];
      MergeCanonical(h, log, r, prev + 1, entries[1..]);
    } else {
      hide KeepsCommon;
      assert log[..prev] + entries == r[..prev + |entries|];
      CutKeepsCommon(log, r, prev, prev + |entries|);
    }
  }

  // ---- Growth ----

  ghost predicate SameReign(r: Reign, s: Reign, term: nat) {
    r.leader == s.leader && r.base == s.base && r.voters == s.voters && r.log <= s.log &&
    forall k | |r.log| <= k < |s.log| :: s.log[k].term == term
  }

  ghost predicate Grows(h: History, h': History) {
    (forall t | t in h.reigns :: t in h'.reigns && SameReign(h.reigns[t], h'.reigns[t], t)) &&
    (forall k | k in h.ballots :: k in h'.ballots && h'.ballots[k] == h.ballots[k]) &&
    h.acks <= h'.acks
  }

  lemma GrowsTransitive(h: History, h': History, h'': History)
    requires Grows(h, h') && Grows(h', h'')
    ensures Grows(h, h'')
  {
  }

  lemma NotPrefixGrows(p: seq<Entry>, r: seq<Entry>, r': seq<Entry>, term: nat)
    requires forall k | 0 <= k < |p| :: p[k].term < term
    requires r <= r' && !(p <= r)
    requires forall k | |r| <= k < |r'| :: r'[k].term == term
    ensures !(p <= r')
  {
    if |p| <= |r| {
      assert r'[..|p|] == r[..|p|];
    } else if |p| <= |r'| {
      assert p[|r|].term != r'[|r|].term;
    }
  }

  /** A later reign that lacks some entries of an older one never gets them. */
  lemma DisplacedGrows(h: History, h': History, n: nat, term: nat, len: nat, upTo: int)
    requires HistoryOk(h, n) && Grows(h, h')
    requires term in h.reigns && len <= |h.reigns[term].log|
    requires Displaced(h, term, len, upTo)
    ensures term in h'.reigns && len <= |h'.reigns[term].log|
    ensures Displaced(h', term, len, upTo)
  {
    var t :| term < t <= upTo && t in h.reigns &&
             !(h.reigns[term].log[..len] <= h.reigns[t].log);
    assert SameReign(h.reigns[t], h'.reigns[t], t);
    assert SameReign(h.reigns[term], h'.reigns[term], term);
    var p, r, r' := h.reigns[term].log[..len], h.reigns[t].log, h'.reigns[t].log;
    assert h'.reigns[term].log[..len] == p;
    assert ReignOk(h, n, term);
    NotPrefixGrows(p, r, r', t);
  }

  lemma KeptGrows(h: History, h': History, n: nat, a: Ack, log: seq<Entry>, upTo: int)
    requires HistoryOk(h, n) && Grows(h, h') && Kept(h, a, log, upTo)
    ensures Kept(h', a, log, upTo)
  {
    assert SameReign(h.reigns[a.term], h'.reigns[a.term], a.term);
    forall l | 0 <= l <= a.len
      ensures KeptAt(h', a.term, l, log, upTo)
    {
      assert KeptAt(h, a.term, l, log, upTo);
      assert h.reigns[a.term].log[..l] == h'.reigns[a.term].log[..l];
      if Displaced(h, a.term, l, upTo) {
        DisplacedGrows(h, h', n, a.term, l, upTo);
      }
    }
  }

  lemma KeptLonger(h: History, a: Ack, log: seq<Entry>, log': seq<Entry>, upTo: int, upTo': int)
    requires Kept(h, a, log, upTo) && log <= log' && upTo <= upTo'
    ensures Kept(h, a, log', upTo')
  {
    forall l | 0 <= l <= a.len
      ensures KeptAt(h, a.term, l, log', upTo')
    {
      assert KeptAt(h, a.term, l, log, upTo);
    }
  }

  lemma CommittedGrows(h: History, h': History, n: nat, term: nat, len: nat)
    requires Grows(h, h') && Committed(h, n, term, len)
    ensures Committed(h', n, term, len)
  {
    assert SameReign(h.reigns[term], h'.reigns[term], term);
    SubsetSize(Ackers(h, term, len), Ackers(h', term, len));
  }

  lemma CommittedPrefixGrows(h: History, h': History, n: nat, log: seq<Entry>, log': seq<Entry>,
                             count: nat, upTo: nat, upTo': nat)
    requires Grows(h, h') && CommittedPrefix(h, n, log, count, upTo)
    requires count <= |log'| && log[..count] == log'[..count] && upTo <= upTo'
    ensures CommittedPrefix(h', n, log', count, upTo')
  {
    if count > 0 {
      var term: nat, len: nat :| term <= upTo && count <= len && Committed(h, n, term, len) &&
                                 log[..count] <= h.reigns[term].log;
      CommittedGrows(h, h', n, term, len);
      assert SameReign(h.reigns[term], h'.reigns[term], term);
    }
  }

  // ---- Leader completeness ----

  /** An entry committed in one term is in the log of the leader of every later term. */
  lemma {:induction false} LeaderCompleteness(h: History, n: nat, term: nat, len: nat, later: nat)
    requires HistoryOk(h, n) && Committed(h, n, term, len)
    requires term < later && later in h.reigns
    ensures h.reigns[term].log[..len] <= h.reigns[later].log
    decreases later
  {
    var earlier, r := h.reigns[term].log, h.reigns[later];
    assert ReignOk(h, n, term) && ReignOk(h, n, later);
    forall v | v in Ackers(h, term, len) ensures v in Ids(n) {
      var a :| a in h.acks && a.term == term && a.len >= len && a.node == v;
      assert AckOk(h, n, a);
    }
    var v := QuorumsMeet(Ackers(h, term, len), r.voters, n);
    var a :| a in h.acks && a.term == term && a.len >= len && a.node == v;
    assert VoterOk(h, later, r, v) && BallotOk(h, n, later, v);
    var voter := h.ballots[(later, v)].voterLog;
    assert Kept(h, a, voter, later - 1);
    assert KeptAt(h, term, len, voter, later - 1);
    if !(earlier[..len] <= voter) {
      var t :| term < t <= later - 1 && t in h.reigns && !(earlier[..len] <= h.reigns[t].log);
      LeaderCompleteness(h, n, term, len, t);
      assert false;
    }
    assert voter[len - 1] == earlier[len - 1];
    var own := r.log[..r.base];
    CanonicalPrefix(h, r.log, r.base);
    var last := own[|own| - 1].term;
    assert own[..|own|] == own;
    assert own <= h.reigns[last].log;
    assert r.log[r.base - 1].term == last < later;
    if last == term {
      assert |own| >= |voter| >= len;
      assert earlier[..len] == own[..len];
    } else {
      LeaderCompleteness(h, n, term, len, last);
      if |own| <= len {
        assert false;
      }
      assert earlier[..len] == own[..len];
    }
  }

  lemma CommittedLogsAgree(h: History, n: nat, t: nat, k: nat, u: nat, l: nat)
    requires HistoryOk(h, n) && Committed(h, n, t, k) && Committed(h, n, u, l)
    requires t <= u
    ensures h.reigns[t].log[..k] <= h.reigns[u].log
  {
    if t < u {
      LeaderCompleteness(h, n, t, k, u);
    }
  }

  lemma CommitWitness(h: History, n: nat, log: seq<Entry>, count: nat, upTo: nat)
    returns (term: nat, len: nat)
    requires CommittedPrefix(h, n, log, count, upTo) && count > 0
    ensures term <= upTo && count <= len && Committed(h, n, term, len)
    ensures log[..count] <= h.reigns[term].log
  {
    term, len :| term <= upTo && count <= len && Committed(h, n, term, len) &&
                 log[..count] <= h.reigns[term].log;
  }

  /** Two committed prefixes are never in conflict. */
  lemma CommittedPrefixesAgree(h: History, n: nat, a: seq<Entry>, c: nat, upToA: nat,
                               b: seq<Entry>, d: nat, upToB: nat)
    requires HistoryOk(h, n)
    requires CommittedPrefix(h, n, a, c, upToA) && CommittedPrefix(h, n, b, d, upToB)
    ensures a[..c] <= b[..d] || b[..d] <= a[..c]
  {
    if c > 0 && d > 0 {
      var t, k := CommitWitness(h, n, a, c, upToA);
      var u, l := CommitWitness(h, n, b, d, upToB);
      if t <= u {
        CommittedLogsAgree(h, n, t, k, u, l);
      } else {
        CommittedLogsAgree(h, n, u, l, t, k);
      }
    }
  }

  /** A node's committed prefix is in the log of the leader of its term or a later one. */
  lemma LeaderHasCommitted(h: History, n: nat, log: seq<Entry>, count: nat, upTo: nat, term: nat)
    requires HistoryOk(h, n) && CommittedPrefix(h, n, log, count, upTo)
    requires upTo <= term && term in h.reigns
    ensures log[..count] <= h.reigns[term].log
  {
    if count > 0 {
      var t, k := CommitWitness(h, n, log, count, upTo);
      if t < term {
        LeaderCompleteness(h, n, t, k, term);
        assert k <= |h.reigns[t].log|;
      }
    }
  }
}
