module Wrappers {
  datatype Option<+T> = None | Some(value: T)
}

/** The lock commands carried by the replicated log (src/nodes/lock_manager.py). */
module Commands {

  type Client = string
  type Resource = string
  type RequestId = string

  datatype LockType = Shared | Exclusive

  /** A lock request without its wall-clock fields. */
  datatype Request = Request(id: RequestId, client: Client, resource: Resource, kind: LockType)

  datatype Command =
    | NoOp(leader: nat)
    | Acquire(request: Request)
    | Release(client: Client, resource: Resource)
    | Cancel(id: RequestId, resource: Resource)
    | Abort(client: Client, resource: Resource)
}

/** Nodes, log entries and messages of src/consensus/raft.py. */
module RaftTypes {
  import opened Wrappers
  import opened Commands

  type Id = nat

  /** A next index: the one-based position of the next entry to send. */
  type Position = x: nat | x >= 1 witness 1

  /** `index` is the one-based position the leader stamps on the entry. */
  datatype Entry = Entry(term: nat, index: nat, command: Command)

  datatype Role = Follower | Candidate | Leader

  /** The fields of one RaftNode. `applied` is the sequence of entries handed to
      the state machine so far, so it is the input the lock table has seen. */
  datatype Node = Node(
    role: Role,
    term: nat,
    votedFor: Option<Id>,
    log: seq<Entry>,
    commitIndex: nat,
    lastApplied: nat,
    nextIndex: map<Id, Position>,
    matchIndex: map<Id, nat>,
    votes: set<Id>,
    applied: seq<Entry>)

  /** Requests and responses. The two locals that a replication call keeps for its
      response handler (the number of entries sent and the next index it used)
      travel in the response. `lastIndex` is zero-based, so it is -1 for an empty
      log; `prevIndex` is one-based, so 0 means "from the start". */
  datatype Msg =
    | VoteReq(src: Id, dst: Id, term: nat, lastIndex: int, lastTerm: nat)
    | VoteResp(src: Id, dst: Id, term: nat, granted: bool)
    | AppendReq(src: Id, dst: Id, term: nat, prevIndex: nat, prevTerm: nat,
                entries: seq<Entry>, leaderCommit: nat)
    | AppendResp(src: Id, dst: Id, term: nat, success: bool, sent: nat, usedNext: Position)

  /** Three checks the protocol needs and src/consensus/raft.py leaves out:
      - keepVote: clear `voted_for` only when the term really rises;
      - leaderOnly: build AppendEntries only while being the leader;
      - currentTermAck: use an AppendEntries response only in the term it was given in.
      `AsWritten` is src/consensus/raft.py; every handler takes the guards, so both
      the code and its repair are the same functions. */
  datatype Guards = Guards(keepVote: bool, leaderOnly: bool, currentTermAck: bool)

  const AsWritten := Guards(false, false, false)
  const Repaired := Guards(true, true, true)

  const InitNode := Node(Follower, 0, None, [], 0, 0, map[], map[], {}, [])

  function LastTerm(log: seq<Entry>): nat {
    if log == [] then 0 else log[|log| - 1].term
  }

  function Quorum(n: nat): nat {
    n / 2 + 1
  }

  function NextOf(s: Node, p: Id): Position {
    if p in s.nextIndex then s.nextIndex[p] else 1
  }

  function MatchOf(s: Node, p: Id): nat {
    if p in s.matchIndex then s.matchIndex[p] else 0
  }

  /** The ids of a cluster of n nodes, and the peers of one of them. */
  function Ids(n: nat): (r: set<Id>)
    ensures |r| == n && forall p: Id :: p in r <==> p < n
  {
    if n == 0 then {} else Ids(n - 1) + {n - 1}
  }

  function Peers(n: nat, me: Id): set<Id> {
    Ids(n) - {me}
  }
}
