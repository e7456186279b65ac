/** What becomes of every lock request: nothing is lost, nothing is granted twice, and the
    queue is served in order of arrival. */
module LockLedger {
  import opened Commands
  import opened LockTable

  /** The requests for one resource, in order: granted on arrival, made to wait, granted
      out of the queue, and cancelled while waiting. */
  datatype Book = Book(
    direct: seq<Request>,
    queued: seq<Request>,
    handed: seq<Request>,
    dropped: seq<Request>)

  function Matching(waiters: seq<Request>, id: RequestId): seq<Request> {
    if waiters == [] then []
    else if waiters[0].id == id then [waiters[0]] + Matching(waiters[1..], id)
    else Matching(waiters[1..], id)
  }

  /** A release of r by this client empties the lock on r. */
  predicate Empties(s: Locks, client: Client, r: Resource) {
    r in s.table && s.table[r].holders - {client} == {}
  }

  /** The client that a command takes off the holders of r. */
  function Leaving(c: Command, r: Resource): set<Client> {
    match c
    case Release(client, u) => if u == r then {client} else {}
    case Abort(client, u) => if u == r then {client} else {}
    case _ => {}
  }

  /** The requests for r that a command grants. */
  function Grants(s: Locks, c: Command, r: Resource): seq<Request> {
    match c
    case Acquire(q) => if q.resource == r && CanAcquire(Found(s, q), q.kind) then [q] else []
    case Release(client, u) =>
      if u == r && Empties(s, client, r) then Waiters(s, r)[..Batch(Waiters(s, r))] else []
    case Abort(client, u) =>
      if u == r && Empties(s, client, r) then Waiters(s, r)[..Batch(Waiters(s, r))] else []
    case _ => []
  }

  function Record(s: Locks, b: Book, c: Command, r: Resource): Book {
    match c
    case NoOp(_) => b
    case Acquire(q) =>
      if q.resource != r then b
      else if CanAcquire(Found(s, q), q.kind) then b.(direct := b.direct + [q])
      else b.(queued := b.queued + [q])
    case Release(client, u) => RecordHanded(s, b, client, u, r)
    case Abort(client, u) => RecordHanded(s, b, client, u, r)
    case Cancel(id, u) =>
      if u != r then b else b.(dropped := b.dropped + Matching(Waiters(s, r), id))
  }

  function RecordHanded(s: Locks, b: Book, client: Client, u: Resource, r: Resource): Book {
    if u == r && Empties(s, client, r)
    then b.(handed := b.handed + Waiters(s, r)[..Batch(Waiters(s, r))])
    else b
  }

  function BookOf(commands: seq<Command>, r: Resource): Book {
    if commands == [] then Book([], [], [], [])
    else
      var front := commands[..|commands| - 1];
      Record(Replay(front), BookOf(front, r), commands[|commands| - 1], r)
  }

  /** The requests for r a command brings. */
  function NewRequests(c: Command, r: Resource): seq<Request> {
    if c.Acquire? && c.request.resource == r then [c.request] else []
  }

  /** The requests for r among the commands. */
  function Asked(commands: seq<Command>, r: Resource): seq<Request> {
    if commands == [] then []
    else Asked(commands[..|commands| - 1], r) + NewRequests(commands[|commands| - 1], r)
  }

  ghost predicate UniqueIds(commands: seq<Command>) {
    forall i, j | 0 <= i < j < |commands| && commands[i].Acquire? && commands[j].Acquire? ::
      commands[i].request.id != commands[j].request.id
  }

  // ---- Conservation ----

  lemma {:induction false} SplitById(waiters: seq<Request>, id: RequestId)
    ensures multiset(waiters) == multiset(Without(waiters, id)) + multiset(Matching(waiters, id))
  {
    if waiters != [] {
      SplitById(waiters[1..], id);
      assert waiters == [waiters[0]] + waiters[1..];
    }
  }

  lemma SplitAt(waiters: seq<Request>, k: nat)
    requires k <= |waiters|
    ensures multiset(waiters) == multiset(waiters[..k]) + multiset(waiters[k..])
  {
    assert waiters == waiters[..k] + waiters[k..];
  }

  ghost predicate Balanced(b: Book, waiting: seq<Request>) {
    multiset(b.queued) == multiset(b.handed) + multiset(waiting) + multiset(b.dropped)
  }

  // How each command changes the queue of r.

  lemma AcquireQueue(s: Locks, q: Request, r: Resource)
    ensures Waiters(ApplyAcquire(s, q), r) ==
            if q.resource == r && !CanAcquire(Found(s, q), q.kind) then Waiters(s, r) + [q]
            else Waiters(s, r)
  {
  }

  lemma ReleaseQueue(s: Locks, client: Client, u: Resource, r: Resource)
    ensures Waiters(ApplyRelease(s, client, u), r) ==
            if u == r && Empties(s, client, r) then Waiters(s, r)[Batch(Waiters(s, r))..]
            else Waiters(s, r)
  {
  }

  lemma CancelQueue(s: Locks, id: RequestId, u: Resource, r: Resource)
    ensures Waiters(ApplyCancel(s, id, u), r) ==
            if u == r then Without(Waiters(s, r), id) else Waiters(s, r)
  {
  }

  lemma HandedBalanced(s: Locks, b: Book, client: Client, u: Resource, r: Resource)
    requires Balanced(b, Waiters(s, r))
    ensures Balanced(RecordHanded(s, b, client, u, r), Waiters(ApplyRelease(s, client, u), r))
  {
    hide ApplyRelease, Batch;
    ReleaseQueue(s, client, u, r);
    if u == r && Empties(s, client, r) {
      SplitAt(Waiters(s, r), Batch(Waiters(s, r)));
    }
  }

  lemma RecordBalanced(s: Locks, b: Book, c: Command, r: Resource)
    requires Balanced(b, Waiters(s, r))
    ensures Balanced(Record(s, b, c, r), Waiters(Step(s, c), r))
  {
    hide ApplyAcquire, ApplyRelease, ApplyCancel, RecordHanded, CanAcquire;
    match c
    case NoOp(_) =>
    case Acquire(q) => AcquireQueue(s, q, r);
    case Release(client, u) => HandedBalanced(s, b, client, u, r);
    case Abort(client, u) => HandedBalanced(s, b, client, u, r);
    case Cancel(id, u) =>
      CancelQueue(s, id, u, r);
      SplitById(Waiters(s, r), id);
  }

  lemma {:induction false} BookBalanced(commands: seq<Command>, r: Resource)
    ensures Balanced(BookOf(commands, r), Waiters(Replay(commands), r))
    decreases |commands|
  {
    hide Record, Step, Waiters, Balanced;
    if commands != [] {
      var front, c := commands[..|commands| - 1], commands[|commands| - 1];
      BookBalanced(front, r);
      RecordBalanced(Replay(front), BookOf(front, r), c, r);
    } else {
      NothingYet(r);
    }
  }

  lemma NothingYet(r: Resource)
    ensures Balanced(Book([], [], [], []), Waiters(NoLocks, r))
  {
  }

  lemma RecordSplit(s: Locks, b: Book, c: Command, r: Resource)
    ensures var b' := Record(s, b, c, r);
            multiset(b'.direct) + multiset(b'.queued) ==
            multiset(b.direct) + multiset(b.queued) + multiset(NewRequests(c, r))
  {
  }

  lemma {:induction false} AskedSplit(commands: seq<Command>, r: Resource)
    ensures multiset(Asked(commands, r)) ==
            multiset(BookOf(commands, r).direct) + multiset(BookOf(commands, r).queued)
    decreases |commands|
  {
    hide Replay, Record;
    if commands != [] {
      var front, c := commands[..|commands| - 1], commands[|commands| - 1];
      AskedSplit(front, r);
      RecordSplit(Replay(front), BookOf(front, r), c, r);
    }
  }

  // ---- What is recorded as granted is granted ----

  function Granted(b: Book): multiset<Request> {
    multiset(b.direct) + multiset(b.handed)
  }

  lemma GrantsRecorded(s: Locks, b: Book, c: Command, r: Resource)
    ensures Granted(Record(s, b, c, r)) == Granted(b) + multiset(Grants(s, c, r))
  {
    hide CanAcquire, Empties, Batch;
  }

  lemma AcquireHolders(s: Locks, q: Request, r: Resource)
    ensures Holders(ApplyAcquire(s, q), r) ==
            Holders(s, r) + Clients(Grants(s, Acquire(q), r))
  {
    assert Clients([q]) == {q.client} by { assert q in [q]; }
  }

  lemma ReleaseHolders(s: Locks, client: Client, u: Resource, r: Resource)
    ensures Holders(ApplyRelease(s, client, u), r) ==
            Holders(s, r) - Leaving(Release(client, u), r) + Clients(Grants(s, Release(client, u), r))
  {
    hide Batch;
  }

  /** The holders of a lock after a command are those before, without the one who left, and with
      exactly the clients whose requests the book records as granted by it. */
  lemma HoldersFollowGrants(s: Locks, c: Command, r: Resource)
    ensures Holders(Step(s, c), r) == Holders(s, r) - Leaving(c, r) + Clients(Grants(s, c, r))
  {
    hide ApplyAcquire, ApplyRelease, Grants, Clients;
    match c
    case NoOp(_) => NoGrants(s, c, r);
    case Acquire(q) => AcquireHolders(s, q, r);
    case Release(client, u) => ReleaseHolders(s, client, u, r);
    case Abort(client, u) =>
      ReleaseHolders(s, client, u, r);
      AbortGrants(s, client, u, r);
    case Cancel(_, _) => NoGrants(s, c, r);
  }

  lemma NoGrants(s: Locks, c: Command, r: Resource)
    requires c.NoOp? || c.Cancel?
    ensures Clients(Grants(s, c, r)) == {}
  {
  }

  lemma AbortGrants(s: Locks, client: Client, u: Resource, r: Resource)
    ensures Grants(s, Abort(client, u), r) == Grants(s, Release(client, u), r)
  {
  }

  /** The resource a command is about. */
  function Subject(c: Command): Resource {
    match c
    case NoOp(_) => ""
    case Acquire(q) => q.resource
    case Release(_, r) => r
    case Cancel(_, r) => r
    case Abort(_, r) => r
  }

  /** All grants so far, whatever the resource. */
  function AllGrants(commands: seq<Command>): seq<Request> {
    if commands == [] then []
    else
      var front, c := commands[..|commands| - 1], commands[|commands| - 1];
      AllGrants(front) + Grants(Replay(front), c, Subject(c))
  }

  lemma GrantsCounted(s: Locks, c: Command)
    ensures Step(s, c).acquired == s.acquired + |Grants(s, c, Subject(c))|
  {
    hide Batch;
  }

  /** The manager's counter counts exactly the grants in the books. */
  lemma {:induction false} AcquiredCountsGrants(commands: seq<Command>)
    ensures Replay(commands).acquired == |AllGrants(commands)|
    decreases |commands|
  {
    if commands != [] {
      hide Step, Grants;
      var front, c := commands[..|commands| - 1], commands[|commands| - 1];
      AcquiredCountsGrants(front);
      GrantsCounted(Replay(front), c);
    }
  }

  /** How many commands so far released a lock that was in the table. */
  function Releases(commands: seq<Command>): nat {
    if commands == [] then 0
    else
      var front, c := commands[..|commands| - 1], commands[|commands| - 1];
      Releases(front) + if (c.Release? || c.Abort?) && c.resource in Replay(front).table then 1 else 0
  }

  lemma ReleaseCounted(s: Locks, c: Command)
    ensures Step(s, c).released ==
            s.released + if (c.Release? || c.Abort?) && c.resource in s.table then 1 else 0
  {
  }

  lemma {:induction false} ReleasedCountsReleases(commands: seq<Command>)
    ensures Replay(commands).released == Releases(commands)
    decreases |commands|
  {
    if commands != [] {
      hide Step;
      var front, c := commands[..|commands| - 1], commands[|commands| - 1];
      ReleasedCountsReleases(front);
      ReleaseCounted(Replay(front), c);
    }
  }

  function Of(l: seq<Request>, r: Resource): seq<Request> {
    if l == [] then [] else (if l[0].resource == r then [l[0]] else []) + Of(l[1..], r)
  }

  lemma {:induction false} OfConcat(a: seq<Request>, b: seq<Request>, r: Resource)
    ensures Of(a + b, r) == Of(a, r) + Of(b, r)
  {
    if a == [] {
      assert a + b == b;
    } else {
      OfConcat(a[1..], b, r);
      assert (a + b)[0] == a[0] && (a + b)[1..] == a[1..] + b;
      var head := if a[0].resource == r then [a[0]] else [];
      assert head + (Of(a[1..], r) + Of(b, r)) == head + Of(a[1..], r) + Of(b, r);
    }
  }

  lemma {:induction false} OfOne(l: seq<Request>, u: Resource, r: Resource)
    requires forall q | q in l :: q.resource == u
    ensures Of(l, r) == if u == r then l else []
  {
    if l != [] {
      OfOne(l[1..], u, r);
      assert l == [l[0]] + l[1..];
    }
  }

  lemma GrantsOfSubject(s: Locks, c: Command, r: Resource)
    requires LocksOk(s)
    ensures Of(Grants(s, c, Subject(c)), r) == Grants(s, c, r)
  {
    var u := Subject(c);
    forall q | q in Grants(s, c, u) ensures q.resource == u {
      if u in s.table {
        assert LockOk(u, s.table[u]);
      }
    }
    OfOne(Grants(s, c, u), u, r);
  }

  lemma {:induction false} AllGrantsBooked(commands: seq<Command>, r: Resource)
    ensures multiset(Of(AllGrants(commands), r)) == Granted(BookOf(commands, r))
    decreases |commands|
  {
    if commands != [] {
      hide Step, Grants, Record, Granted;
      var front, c := commands[..|commands| - 1], commands[|commands| - 1];
      AllGrantsBooked(front, r);
      ReplayOk(front);
      GrantsOfSubject(Replay(front), c, r);
      OfConcat(AllGrants(front), Grants(Replay(front), c, Subject(c)), r);
      GrantsRecorded(Replay(front), BookOf(front, r), c, r);
    } else {
      NothingGranted();
    }
  }

  lemma NothingGranted()
    ensures Granted(Book([], [], [], [])) == multiset{}
  {
  }

  /** The requests for r that the k-th command moved to the granted places of the book. */
  function NewlyGranted(commands: seq<Command>, k: nat, r: Resource): multiset<Request>
    requires k < |commands|
  {
    Granted(BookOf(commands[..k + 1], r)) - Granted(BookOf(commands[..k], r))
  }

  function ClientsOf(m: multiset<Request>): set<Client> {
    set q | q in m :: q.client
  }

  /** The k-th command gives the lock on r to exactly the clients of the requests that the book
      has as newly granted, and takes it from exactly the one who leaves. */
  ghost predicate GrantedInTable(commands: seq<Command>, k: nat, r: Resource)
    requires k < |commands|
  {
    var s, t := Replay(commands[..k]), Replay(commands[..k + 1]);
    Granted(BookOf(commands[..k], r)) <= Granted(BookOf(commands[..k + 1], r)) &&
    Holders(t, r) == Holders(s, r) - Leaving(commands[k], r) + ClientsOf(NewlyGranted(commands, k, r)) &&
    forall c | c in ClientsOf(NewlyGranted(commands, k, r)) :: r in At(t.held, c)
  }

  lemma BookedIsGranted(commands: seq<Command>, k: nat, r: Resource)
    requires k < |commands|
    ensures GrantedInTable(commands, k, r)
  {
    hide Step, Grants, Record, Granted, Holders, LocksOk;
    var s, t, c := Replay(commands[..k]), Replay(commands[..k + 1]), commands[k];
    var b := BookOf(commands[..k], r);
    assert commands[..k + 1][..k] == commands[..k];
    assert t == Step(s, c) && BookOf(commands[..k + 1], r) == Record(s, b, c, r);
    GrantsRecorded(s, b, c, r);
    HoldersFollowGrants(s, c, r);
    assert NewlyGranted(commands, k, r) == multiset(Grants(s, c, r));
    SameClients(Grants(s, c, r));
    ReplayOk(commands[..k + 1]);
    forall d | d in ClientsOf(NewlyGranted(commands, k, r)) ensures r in At(t.held, d) {
      HolderIndexed(t, d, r);
    }
  }

  lemma SameClients(l: seq<Request>)
    ensures ClientsOf(multiset(l)) == Clients(l)
  {
    assert forall q :: q in multiset(l) <==> q in l;
  }

  lemma HolderIndexed(s: Locks, c: Client, r: Resource)
    requires LocksOk(s)
    ensures c in Holders(s, r) <==> r in At(s.held, c)
  {
  }

  // ---- Every request is accounted for ----

  /** After any commands, the requests for r are exactly those granted on arrival, granted out of
      the queue, still waiting, or cancelled. The granted ones are those whose clients the table
      took on as holders, command by command, and over all resources the counter of the manager
      has counted each of them once. */
  lemma RequestsConserved(commands: seq<Command>, r: Resource)
    ensures var b := BookOf(commands, r);
            multiset(Asked(commands, r)) ==
            Granted(b) + multiset(Waiters(Replay(commands), r)) + multiset(b.dropped)
    ensures forall k | 0 <= k < |commands| :: GrantedInTable(commands, k, r)
    ensures Replay(commands).acquired == |AllGrants(commands)| && Replay(commands).released == Releases(commands)
    ensures multiset(Of(AllGrants(commands), r)) == Granted(BookOf(commands, r))
  {
    hide BookOf, Replay, Asked, AllGrants, Releases, Of, GrantedInTable;
    BookBalanced(commands, r);
    AskedSplit(commands, r);
    AcquiredCountsGrants(commands);
    ReleasedCountsReleases(commands);
    AllGrantsBooked(commands, r);
    forall k | 0 <= k < |commands| ensures GrantedInTable(commands, k, r) {
      BookedIsGranted(commands, k, r);
    }
  }

  // ---- Distinct requests ----

  ghost predicate DistinctIds(m: multiset<Request>) {
    (forall x | x in m :: m[x] == 1) && (forall x, y | x in m && y in m && x.id == y.id :: x == y)
  }

  lemma {:induction false} AskedIn(commands: seq<Command>, r: Resource, q: Request)
    requires q in Asked(commands, r)
    ensures q.resource == r && exists i :: 0 <= i < |commands| && commands[i] == Acquire(q)
    decreases |commands|
  {
    var n := |commands| - 1;
    if q in Asked(commands[..n], r) {
      AskedIn(commands[..n], r, q);
      var i :| 0 <= i < n && commands[..n][i] == Acquire(q);
      assert commands[i] == Acquire(q);
    } else {
      assert commands[n] == Acquire(q);
    }
  }

  lemma {:induction false} AskedDistinct(commands: seq<Command>, r: Resource)
    requires UniqueIds(commands)
    ensures DistinctIds(multiset(Asked(commands, r)))
    decreases |commands|
  {
    if commands != [] {
      var n := |commands| - 1;
      AskedDistinct(commands[..n], r);
      if commands[n].Acquire? && commands[n].request.resource == r {
        NewId(commands, r);
      }
    }
  }

  /** The last request has an id no earlier one has. */
  lemma NewId(commands: seq<Command>, r: Resource)
    requires UniqueIds(commands) && commands != [] && commands[|commands| - 1].Acquire?
    ensures forall x | x in Asked(commands[..|commands| - 1], r) ::
              x.id != commands[|commands| - 1].request.id
  {
    var n := |commands| - 1;
    forall x | x in Asked(commands[..n], r) ensures x.id != commands[n].request.id {
      AskedIn(commands[..n], r, x);
    }
  }

  lemma {:induction false} GrantedGrows(commands: seq<Command>, j: nat, k: nat, r: Resource)
    requires j <= k <= |commands|
    ensures Granted(BookOf(commands[..j], r)) <= Granted(BookOf(commands[..k], r))
    decreases k - j
  {
    hide Granted, BookOf;
    if j < k {
      GrantedGrows(commands, j, k - 1, r);
      BookedIsGranted(commands, k - 1, r);
      assert GrantedInTable(commands, k - 1, r);
    }
  }

  lemma {:induction false} GrantedSometime(commands: seq<Command>, n: nat, r: Resource, q: Request)
    returns (k: nat)
    requires n <= |commands| && q in Granted(BookOf(commands[..n], r))
    ensures k < n && q in NewlyGranted(commands, k, r)
  {
    hide Granted, Record;
    if n == 0 {
      NothingGranted();
      assert false;
    } else if q in Granted(BookOf(commands[..n - 1], r)) {
      k := GrantedSometime(commands, n - 1, r, q);
    } else {
      k := n - 1;
    }
  }

  function Times(commands: seq<Command>, k: nat, r: Resource, q: Request): nat
    requires k <= |commands|
  {
    Granted(BookOf(commands[..k], r))[q]
  }

  lemma TimesGrow(commands: seq<Command>, j: nat, k: nat, r: Resource, q: Request)
    requires j <= k <= |commands|
    ensures Times(commands, j, r, q) <= Times(commands, k, r, q)
  {
    hide Granted, BookOf;
    GrantedGrows(commands, j, k, r);
  }

  lemma TimesJump(commands: seq<Command>, k: nat, r: Resource, q: Request)
    requires k < |commands| && q in NewlyGranted(commands, k, r)
    ensures Times(commands, k, r, q) < Times(commands, k + 1, r, q)
  {
    hide Granted, BookOf;
  }

  lemma GrantedOnce(commands: seq<Command>, j: nat, k: nat, r: Resource, q: Request)
    requires j < k < |commands|
    ensures q in NewlyGranted(commands, j, r) && q in NewlyGranted(commands, k, r) ==>
            Times(commands, |commands|, r, q) >= 2
  {
    hide Times, NewlyGranted;
    if q in NewlyGranted(commands, j, r) && q in NewlyGranted(commands, k, r) {
      TimesJump(commands, j, r, q);
      TimesGrow(commands, j + 1, k, r, q);
      TimesJump(commands, k, r, q);
      TimesGrow(commands, k + 1, |commands|, r, q);
    }
  }

  lemma OnePlace(commands: seq<Command>, r: Resource, q: Request)
    requires UniqueIds(commands) && q in Asked(commands, r)
    ensures var b := BookOf(commands, r);
            multiset(b.direct)[q] + multiset(b.handed)[q] +
            multiset(Waiters(Replay(commands), r))[q] + multiset(b.dropped)[q] == 1
  {
    hide GrantedInTable, NewlyGranted;
    RequestsConserved(commands, r);
    AskedDistinct(commands, r);
    assert q in multiset(Asked(commands, r));
  }

  lemma GrantMakesHolder(commands: seq<Command>, k: nat, r: Resource, q: Request)
    requires k < |commands| && q in NewlyGranted(commands, k, r)
    ensures q in Granted(BookOf(commands, r)) && q.client in Holders(Replay(commands[..k + 1]), r)
  {
    hide Granted, BookOf, Holders;
    assert commands[..|commands|] == commands;
    GrantedGrows(commands, k + 1, |commands|, r);
    BookedIsGranted(commands, k, r);
    assert q.client in ClientsOf(NewlyGranted(commands, k, r));
  }

  /** With unique ids each request for r is in exactly one place, exactly once; and a granted one
      was granted by exactly one command, which made its client a holder of r. */
  lemma ExactlyOnePlace(commands: seq<Command>, r: Resource, q: Request)
    requires UniqueIds(commands) && q in Asked(commands, r)
    ensures var b := BookOf(commands, r);
            multiset(b.direct)[q] + multiset(b.handed)[q] +
            multiset(Waiters(Replay(commands), r))[q] + multiset(b.dropped)[q] == 1
    ensures q in Granted(BookOf(commands, r)) <==>
            exists k :: 0 <= k < |commands| && q in NewlyGranted(commands, k, r)
    ensures forall j, k | 0 <= j < |commands| && 0 <= k < |commands| &&
                          q in NewlyGranted(commands, j, r) && q in NewlyGranted(commands, k, r) :: j == k
    ensures forall k | 0 <= k < |commands| && q in NewlyGranted(commands, k, r) ::
              q.client in Holders(Replay(commands[..k + 1]), r)
  {
    OnePlace(commands, r, q);
    assert commands[..|commands|] == commands;
    assert Times(commands, |commands|, r, q) <= 1;
    hide *;
    if q in Granted(BookOf(commands, r)) {
      var k := GrantedSometime(commands, |commands|, r, q);
    }
    forall k | 0 <= k < |commands| && q in NewlyGranted(commands, k, r)
      ensures q in Granted(BookOf(commands, r)) && q.client in Holders(Replay(commands[..k + 1]), r)
    {
      GrantMakesHolder(commands, k, r, q);
    }
    forall j, k | 0 <= j < |commands| && 0 <= k < |commands| &&
                  q in NewlyGranted(commands, j, r) && q in NewlyGranted(commands, k, r)
      ensures j == k
    {
      if j < k {
        GrantedOnce(commands, j, k, r, q);
      } else if k < j {
        GrantedOnce(commands, k, j, r, q);
      }
    }
  }

  // ---- First come, first served ----

  function Surviving(queued: seq<Request>, dropped: seq<Request>): seq<Request> {
    if queued == [] then []
    else if queued[0] in dropped then Surviving(queued[1..], dropped)
    else [queued[0]] + Surviving(queued[1..], dropped)
  }

  lemma {:induction false} SurvivingConcat(a: seq<Request>, b: seq<Request>, d: seq<Request>)
    ensures Surviving(a + b, d) == Surviving(a, d) + Surviving(b, d)
  {
    if a == [] {
      assert a + b == b;
    } else {
      SurvivingConcat(a[1..], b, d);
      assert (a + b)[0] == a[0] && (a + b)[1..] == a[1..] + b;
      var rest := Surviving(a[1..], d);
      assert [a[0]] + (rest + Surviving(b, d)) == [a[0]] + rest + Surviving(b, d);
    }
  }

  lemma {:induction false} SurvivingTwice(a: seq<Request>, d: seq<Request>, e: seq<Request>)
    ensures Surviving(a, d + e) == Surviving(Surviving(a, d), e)
  {
    if a != [] {
      SurvivingTwice(a[1..], d, e);
    }
  }

  lemma {:induction false} SurvivingAll(a: seq<Request>, d: seq<Request>)
    requires forall x | x in a :: x !in d
    ensures Surviving(a, d) == a
  {
    if a != [] {
      SurvivingAll(a[1..], d);
    }
  }

  lemma {:induction false} SurvivingCancel(w: seq<Request>, id: RequestId, m: seq<Request>)
    requires forall x | x in w :: x in m <==> x.id == id
    ensures Surviving(w, m) == Without(w, id)
  {
    if w != [] {
      SurvivingCancel(w[1..], id, m);
    }
  }

  lemma MatchingIn(w: seq<Request>, id: RequestId)
    ensures forall x :: x in Matching(w, id) <==> x in w && x.id == id
  {
  }

  /** The queue's history without the cancelled requests is what was handed out followed
      by what still waits. */
  ghost predicate InOrder(b: Book, waiting: seq<Request>) {
    Surviving(b.queued, b.dropped) == b.handed + waiting
  }

  lemma CancelInOrder(b: Book, waiting: seq<Request>, id: RequestId)
    requires InOrder(b, waiting) && Balanced(b, waiting) && DistinctIds(multiset(b.queued))
    ensures InOrder(b.(dropped := b.dropped + Matching(waiting, id)), Without(waiting, id))
  {
    var m := Matching(waiting, id);
    MatchingIn(waiting, id);
    SurvivingTwice(b.queued, b.dropped, m);
    SurvivingConcat(b.handed, waiting, m);
    SurvivingCancel(waiting, id, m);
    forall x | x in b.handed ensures x !in m {
      assert x in multiset(b.queued);
      assert multiset(b.handed)[x] + multiset(waiting)[x] <= multiset(b.queued)[x] == 1;
      assert x in multiset(b.handed);
    }
    SurvivingAll(b.handed, m);
  }

  lemma HandedInOrder(s: Locks, b: Book, client: Client, u: Resource, r: Resource)
    requires InOrder(b, Waiters(s, r))
    ensures InOrder(RecordHanded(s, b, client, u, r), Waiters(ApplyRelease(s, client, u), r))
  {
    hide ApplyRelease, Batch, Surviving;
    ReleaseQueue(s, client, u, r);
    var w := Waiters(s, r);
    var k := Batch(w);
    assert b.handed + w[..k] + w[k..] == b.handed + w;
  }

  lemma QueueInOrder(b: Book, waiting: seq<Request>, q: Request)
    requires InOrder(b, waiting) && q !in b.dropped
    ensures InOrder(b.(queued := b.queued + [q]), waiting + [q])
  {
    SurvivingConcat(b.queued, [q], b.dropped);
    SurvivingAll([q], b.dropped);
    assert b.handed + waiting + [q] == b.handed + (waiting + [q]);
  }

  lemma RecordInOrder(s: Locks, b: Book, c: Command, r: Resource)
    requires InOrder(b, Waiters(s, r)) && Balanced(b, Waiters(s, r))
    requires DistinctIds(multiset(b.queued))
    requires c.Acquire? ==> c.request !in b.dropped
    ensures InOrder(Record(s, b, c, r), Waiters(Step(s, c), r))
  {
    hide ApplyAcquire, ApplyRelease, ApplyCancel, RecordHanded, CanAcquire, Surviving, Balanced,
         DistinctIds;
    match c
    case NoOp(_) =>
    case Acquire(q) =>
      AcquireQueue(s, q, r);
      QueueInOrder(b, Waiters(s, r), q);
    case Release(client, u) => HandedInOrder(s, b, client, u, r);
    case Abort(client, u) => HandedInOrder(s, b, client, u, r);
    case Cancel(id, u) =>
      CancelQueue(s, id, u, r);
      CancelInOrder(b, Waiters(s, r), id);
  }

  lemma PartDistinct(a: multiset<Request>, part: multiset<Request>)
    requires DistinctIds(a) && part <= a
    ensures DistinctIds(part)
  {
  }

  lemma PartsAsked(commands: seq<Command>, r: Resource)
    requires UniqueIds(commands)
    ensures DistinctIds(multiset(BookOf(commands, r).queued))
    ensures forall x | x in BookOf(commands, r).dropped :: x in Asked(commands, r)
  {
    hide BookOf, Asked, UniqueIds;
    var b := BookOf(commands, r);
    AskedDistinct(commands, r);
    AskedSplit(commands, r);
    PartDistinct(multiset(Asked(commands, r)), multiset(b.queued));
    RequestsConserved(commands, r);
    forall x | x in b.dropped ensures x in Asked(commands, r) {
      assert x in multiset(b.dropped);
      assert x in multiset(Asked(commands, r));
    }
  }

  /** With unique ids, requests leave the queue in the order in which they entered it:
      everything handed out is the beginning of what was queued and not cancelled, and
      the rest of that is exactly the queue. */
  lemma {:induction false} FirstComeFirstServed(commands: seq<Command>, r: Resource)
    requires UniqueIds(commands)
    ensures InOrder(BookOf(commands, r), Waiters(Replay(commands), r))
    decreases |commands|
  {
    if commands != [] {
      hide Asked, Record, Step, InOrder, Balanced, Waiters, DistinctIds;
      var front, c := commands[..|commands| - 1], commands[|commands| - 1];
      FirstComeFirstServed(front, r);
      BookBalanced(front, r);
      PartsAsked(front, r);
      if c.Acquire? {
        NewId(commands, r);
      }
      RecordInOrder(Replay(front), BookOf(front, r), c, r);
    }
  }
}
