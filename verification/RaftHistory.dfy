/** A record of what a run has done so far, used only by proofs: who reigned in each
    term and with which log, who voted for whom with which log in hand, and which log
    lengths each node has acknowledged. The cluster itself never reads it. */
module RaftHistory {
  import opened Wrappers
  import opened RaftTypes
  import opened RaftHandlers

  /** `log` is the leader's log as last seen in its term; its first `base` entries are
      those it was elected with. */
  datatype Reign = Reign(leader: Id, base: nat, log: seq<Entry>, voters: set<Id>)

  datatype Ballot = Ballot(candidate: Id, lastIndex: int, lastTerm: nat, voterLog: seq<Entry>)

  /** `node` stored the first `len` entries of the leader of `term`, during that term. */
  datatype Ack = Ack(node: Id, term: nat, len: nat)

  datatype History = History(
    reigns: map<nat, Reign>,
    ballots: map<(nat, Id), Ballot>,
    acks: set<Ack>)

  const EmptyHistory := History(map[], map[], {})

  // ---- Logs ----

  ghost predicate WellFormed(log: seq<Entry>, term: nat) {
    (forall k | 0 <= k < |log| :: 1 <= log[k].term <= term && log[k].index == k + 1) &&
    (forall j, k | 0 <= j <= k < |log| :: log[j].term <= log[k].term)
  }

  /** Every entry comes, with everything before it, from the log of its term's leader. */
  ghost predicate Canonical(h: History, log: seq<Entry>) {
    forall k | 0 <= k < |log| ::
      log[k].term in h.reigns && log[..k + 1] <= h.reigns[log[k].term].log
  }

  // ---- Commitment ----

  function Ackers(h: History, term: nat, len: nat): set<Id> {
    set a | a in h.acks && a.term == term && a.len >= len :: a.node
  }

  /** The first `len` entries of this reign are stored on a quorum, the last of them
      being of the reign's own term. */
  ghost predicate Committed(h: History, n: nat, term: nat, len: nat) {
    term in h.reigns && 0 < len <= |h.reigns[term].log| &&
    h.reigns[term].log[len - 1].term == term &&
    |Ackers(h, term, len)| >= Quorum(n)
  }

  ghost predicate CommittedPrefix(h: History, n: nat, log: seq<Entry>, count: nat, upTo: nat) {
    count <= |log| &&
    (count == 0 ||
     exists term: nat, len: nat :: term <= upTo && count <= len && Committed(h, n, term, len) &&
                         log[..count] <= h.reigns[term].log)
  }

  // ---- Acknowledged entries survive, unless a later leader lacks them ----

  ghost predicate Displaced(h: History, term: nat, len: nat, upTo: int)
    requires term in h.reigns && len <= |h.reigns[term].log|
  {
    exists t :: term < t <= upTo && t in h.reigns &&
                !(h.reigns[term].log[..len] <= h.reigns[t].log)
  }

  ghost predicate KeptAt(h: History, term: nat, len: nat, log: seq<Entry>, upTo: int)
    requires term in h.reigns && len <= |h.reigns[term].log|
  {
    h.reigns[term].log[..len] <= log || Displaced(h, term, len, upTo)
  }

  ghost predicate Kept(h: History, a: Ack, log: seq<Entry>, upTo: int) {
    a.term in h.reigns && a.len <= |h.reigns[a.term].log| &&
    forall l | 0 <= l <= a.len :: KeptAt(h, a.term, l, log, upTo)
  }

  // ---- What holds of the history alone ----

  ghost predicate VoterOk(h: History, term: nat, r: Reign, v: Id) {
    (term, v) in h.ballots &&
    var b := h.ballots[(term, v)];
    b.candidate == r.leader && r.base <= |r.log| &&
    b.lastIndex == r.base - 1 && b.lastTerm == LastTerm(r.log[..r.base]) &&
    forall a | a in h.acks && a.node == v && a.term < term :: Kept(h, a, b.voterLog, term - 1)
  }

  ghost predicate ReignOk(h: History, n: nat, term: nat)
    requires term in h.reigns
  {
    var r := h.reigns[term];
    r.leader < n && 1 <= term && r.base < |r.log| &&
    WellFormed(r.log, term) && Canonical(h, r.log) &&
    (forall k | r.base <= k < |r.log| :: r.log[k].term == term) &&
    (forall k | 0 <= k < r.base :: r.log[k].term < term) &&
    r.voters <= Ids(n) && |r.voters| >= Quorum(n) &&
    forall v {:trigger VoterOk(h, term, r, v)} | v in r.voters :: VoterOk(h, term, r, v)
  }

  ghost predicate BallotOk(h: History, n: nat, term: nat, v: Id)
    requires (term, v) in h.ballots
  {
    var b := h.ballots[(term, v)];
    1 <= term && v < n && b.candidate < n && WellFormed(b.voterLog, term) &&
    LogOk(b.lastIndex, b.lastTerm, b.voterLog) &&
    forall a | a in h.acks && a.node == v && a.term < term :: Kept(h, a, b.voterLog, term)
  }

  ghost predicate AckOk(h: History, n: nat, a: Ack) {
    a.node < n && a.term in h.reigns && a.len <= |h.reigns[a.term].log|
  }

  ghost predicate HistoryOk(h: History, n: nat) {
    (forall t {:trigger ReignOk(h, n, t)} | t in h.reigns :: ReignOk(h, n, t)) &&
    (forall t, v {:trigger BallotOk(h, n, t, v)} | (t, v) in h.ballots :: BallotOk(h, n, t, v)) &&
    (forall a {:trigger AckOk(h, n, a)} | a in h.acks :: AckOk(h, n, a))
  }

  // ---- What ties one node to the history ----

  ghost predicate VotesOk(h: History, n: nat, i: Id, x: Node) {
    (forall t | (t, i) in h.ballots ::
       t <= x.term && (t == x.term ==> x.votedFor == Some(h.ballots[(t, i)].candidate))) &&
    (forall t, v | (t, v) in h.ballots && h.ballots[(t, v)].candidate == i ::
       t <= x.term &&
       (t == x.term && x.role == Candidate ==>
          h.ballots[(t, v)].lastIndex == |x.log| - 1 &&
          h.ballots[(t, v)].lastTerm == LastTerm(x.log))) &&
    (x.role == Candidate ==>
       forall v | v in x.votes ::
         v < n && (x.term, v) in h.ballots && h.ballots[(x.term, v)].candidate == i)
  }

  ghost predicate LeaderOk(h: History, i: Id, x: Node) {
    x.term in h.reigns && h.reigns[x.term].leader == i && h.reigns[x.term].log == x.log &&
    Ack(i, x.term, |x.log|) in h.acks &&
    (forall p :: NextOf(x, p) <= |x.log| + 1) &&
    (forall p :: MatchOf(x, p) == 0 || Ack(p, x.term, MatchOf(x, p)) in h.acks)
  }

  ghost predicate ReignsOk(h: History, i: Id, x: Node) {
    (forall t | t in h.reigns && h.reigns[t].leader == i ::
       t <= x.term && (t == x.term ==> x.role == Leader)) &&
    (x.role == Leader ==> LeaderOk(h, i, x))
  }

  ghost predicate AcksOk(h: History, i: Id, x: Node) {
    forall a | a in h.acks && a.node == i :: a.term <= x.term && Kept(h, a, x.log, x.term)
  }

  ghost predicate CommitOk(h: History, n: nat, x: Node) {
    x.lastApplied <= x.commitIndex && CommittedPrefix(h, n, x.log, x.commitIndex, x.term) &&
    x.applied == x.log[..x.lastApplied]
  }

  ghost predicate NodeOk(h: History, n: nat, i: Id, x: Node) {
    WellFormed(x.log, x.term) && Canonical(h, x.log) &&
    VotesOk(h, n, i, x) && ReignsOk(h, i, x) && AcksOk(h, i, x) && CommitOk(h, n, x)
  }

  // ---- What ties a message to the history ----

  /** A vote request describes its sender's log for as long as the sender is a candidate. */
  ghost predicate VoteReqOk(x: Node, m: Msg)
    requires m.VoteReq?
  {
    1 <= m.term <= x.term &&
    (m.term == x.term && x.role == Candidate ==>
       m.lastIndex == |x.log| - 1 && m.lastTerm == LastTerm(x.log))
  }

  ghost predicate AppendReqOk(h: History, n: nat, m: Msg)
    requires m.AppendReq?
  {
    m.term in h.reigns && m.dst != h.reigns[m.term].leader &&
    var log := h.reigns[m.term].log;
    m.prevIndex + |m.entries| <= |log| &&
    m.entries == log[m.prevIndex..m.prevIndex + |m.entries|] &&
    m.prevTerm == LastTerm(log[..m.prevIndex]) &&
    m.leaderCommit <= m.prevIndex + |m.entries| &&
    CommittedPrefix(h, n, log, m.leaderCommit, m.term)
  }

  ghost predicate MsgOk(h: History, n: nat, nodes: seq<Node>, m: Msg) {
    match m
    case VoteReq(src, dst, _, _, _) => src < |nodes| && src != dst && VoteReqOk(nodes[src], m)
    case VoteResp(src, dst, term, granted) =>
      granted ==> src < n && (term, src) in h.ballots && h.ballots[(term, src)].candidate == dst
    case AppendReq(_, _, _, _, _, _, _) => AppendReqOk(h, n, m)
    case AppendResp(src, _, term, success, sent, usedNext) =>
      success ==> Ack(src, term, usedNext - 1 + sent) in h.acks
  }
}
