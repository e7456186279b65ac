/** What the wait-for graph of the lock table means. */
module LockWaits {
  import opened Commands
  import opened LockTable
  import opened WaitGraph

  /** w waits in the queue of r while h holds r. */
  ghost predicate WaitsOn(s: Locks, w: Client, h: Client, r: Resource) {
    h in Holders(s, r) && w in Clients(Waiters(s, r))
  }

  ghost predicate WaitsFor(s: Locks, w: Client, h: Client) {
    exists r :: WaitsOn(s, w, h, r)
  }

  /** Every edge of the graph stands for a resource. */
  ghost predicate WaitsOk(s: Locks) {
    forall w, h | Edge(s.waits, w, h) :: WaitsFor(s, w, h)
  }

  // ---- Commands without cancel keep the graph sound ----

  lemma AcquireWaits(s: Locks, q: Request)
    requires WaitsOk(s)
    ensures WaitsOk(ApplyAcquire(s, q))
  {
    var t := ApplyAcquire(s, q);
    forall w, h | Edge(t.waits, w, h) ensures WaitsFor(t, w, h) {
      if Edge(s.waits, w, h) {
        var r :| WaitsOn(s, w, h, r);
        var x :| x in Waiters(s, r) && x.client == w;
        assert x in Waiters(t, r);
        assert WaitsOn(t, w, h, r);
      } else {
        assert q in Waiters(t, q.resource);
        assert WaitsOn(t, w, h, q.resource);
      }
    }
  }

  /** A release only takes edges away, all those at the releasing client among them. */
  lemma ReleaseShrinks(s: Locks, c: Client, r: Resource, w: Client, h: Client)
    requires Edge(ApplyRelease(s, c, r).waits, w, h)
    ensures Edge(s.waits, w, h)
    ensures r in s.table ==> w != c && h != c
  {
  }

  lemma ReleaseWaits(s: Locks, c: Client, r: Resource)
    requires WaitsOk(s)
    ensures WaitsOk(ApplyRelease(s, c, r))
  {
    var t := ApplyRelease(s, c, r);
    forall w, h | Edge(t.waits, w, h) ensures WaitsFor(t, w, h) {
      ReleaseShrinks(s, c, r, w, h);
      var u :| WaitsOn(s, w, h, u);
      assert WaitsOn(t, w, h, u);
    }
  }

  ghost predicate NoCancels(commands: seq<Command>) {
    forall c | c in commands :: !c.Cancel?
  }

  lemma StepWaits(s: Locks, c: Command)
    requires WaitsOk(s) && !c.Cancel?
    ensures WaitsOk(Step(s, c))
  {
    match c
    case NoOp(_) =>
    case Acquire(q) => AcquireWaits(s, q);
    case Release(client, r) => ReleaseWaits(s, client, r);
    case Abort(client, r) => ReleaseWaits(s, client, r);
  }

  /** In every run without cancellations each edge is justified. */
  lemma {:induction false} EdgesAreWaits(commands: seq<Command>)
    requires NoCancels(commands)
    ensures WaitsOk(Replay(commands))
    decreases |commands|
  {
    if commands != [] {
      var front, c := commands[..|commands| - 1], commands[|commands| - 1];
      assert c in commands;
      EdgesAreWaits(front);
      StepWaits(Replay(front), c);
    }
  }

  // ---- Cancelled or not, who is waited for holds something ----

  /** Whoever an edge points at holds some resource. Unlike WaitsOk, no command breaks this. */
  ghost predicate HeadsHold(s: Locks) {
    forall w, h | Edge(s.waits, w, h) :: At(s.held, h) != {}
  }

  lemma HandHolds(s: Locks, r: Resource, k: nat)
    requires HeadsHold(s) && r in s.table && 0 < k <= |s.table[r].waiters|
    ensures HeadsHold(Hand(s, r, k))
  {
    var t := Hand(s, r, k);
    forall w, h | Edge(t.waits, w, h) ensures At(t.held, h) != {} {
      assert Edge(s.waits, w, h);
      var u :| u in At(s.held, h);
      assert u in At(t.held, h);
    }
  }

  lemma AcquireHolds(s: Locks, q: Request)
    requires LocksOk(s) && HeadsHold(s)
    ensures HeadsHold(ApplyAcquire(s, q))
  {
    var t := ApplyAcquire(s, q);
    forall w, h | Edge(t.waits, w, h) ensures At(t.held, h) != {} {
      if Edge(s.waits, w, h) {
        var u :| u in At(s.held, h);
        assert u in At(t.held, h);
      } else {
        assert h in Holders(s, q.resource);
        assert q.resource in At(s.held, h);
      }
    }
  }

  lemma LetGoHolds(s: Locks, c: Client, r: Resource)
    requires HeadsHold(s) && r in s.table
    ensures HeadsHold(LetGo(s, c, r))
  {
    var t := LetGo(s, c, r);
    forall w, h | Edge(t.waits, w, h) ensures At(t.held, h) != {} {
      assert h != c && Edge(s.waits, w, h);
      assert At(t.held, h) == At(s.held, h);
    }
  }

  lemma StepHolds(s: Locks, c: Command)
    requires LocksOk(s) && HeadsHold(s)
    ensures HeadsHold(Step(s, c))
  {
    match c
    case NoOp(_) =>
    case Acquire(q) => AcquireHolds(s, q);
    case Release(client, r) => ReleaseHolds(s, client, r);
    case Abort(client, r) => ReleaseHolds(s, client, r);
    case Cancel(_, _) =>
  }

  lemma ReleaseHolds(s: Locks, c: Client, r: Resource)
    requires HeadsHold(s)
    ensures HeadsHold(ApplyRelease(s, c, r))
  {
    if r in s.table {
      LetGoHolds(s, c, r);
      var t := LetGo(s, c, r);
      if t.table[r].holders == {} && t.table[r].waiters != [] {
        HandHolds(t, r, Batch(t.table[r].waiters));
      }
    }
  }

  lemma {:induction false} HeadsAlwaysHold(commands: seq<Command>)
    ensures HeadsHold(Replay(commands))
    decreases |commands|
  {
    if commands != [] {
      var front := commands[..|commands| - 1];
      HeadsAlwaysHold(front);
      ReplayOk(front);
      StepHolds(Replay(front), commands[|commands| - 1]);
    }
  }

  // ---- Deadlocks ----

  /** Each client of the circle waits for a resource the next one holds. */
  ghost predicate CircularWait(s: Locks, circle: seq<Client>) {
    circle != [] &&
    forall i {:trigger Next(circle, i)} | 0 <= i < |circle| ::
      WaitsFor(s, circle[i], Next(circle, i))
  }

  lemma CycleIsDeadlock(s: Locks, circle: seq<Client>)
    requires WaitsOk(s) && IsCycle(s.waits, circle)
    ensures CircularWait(s, circle)
  {
  }

  function AbortAll(s: Locks, victim: Client, resources: seq<Resource>): Locks
    decreases |resources|
  {
    if resources == [] then s
    else AbortAll(Step(s, Abort(victim, resources[0])), victim, resources[1..])
  }

  lemma {:induction false} AbortsShrink(s: Locks, victim: Client, resources: seq<Resource>,
                                        w: Client, h: Client)
    requires Edge(AbortAll(s, victim, resources).waits, w, h)
    ensures Edge(s.waits, w, h)
    ensures resources != [] && resources[0] in s.table ==> w != victim && h != victim
    decreases |resources|
  {
    if resources != [] {
      AbortsShrink(Step(s, Abort(victim, resources[0])), victim, resources[1..], w, h);
      ReleaseShrinks(s, victim, resources[0], w, h);
    }
  }

  /** Aborting the last client of a cycle on everything it holds, in any order, adds no edge, leaves
      none at that client, and so breaks the cycle, whatever was cancelled before. */
  lemma AbortBreaksCycle(s: Locks, circle: seq<Client>, resources: seq<Resource>)
    requires LocksOk(s) && HeadsHold(s) && IsCycle(s.waits, circle)
    requires forall r :: r in resources <==> r in At(s.held, circle[|circle| - 1])
    ensures var victim := circle[|circle| - 1];
            var t := AbortAll(s, victim, resources);
            resources != [] && !IsCycle(t.waits, circle) &&
            forall w, h | Edge(t.waits, w, h) :: Edge(s.waits, w, h) && w != victim && h != victim
  {
    hide AbortAll;
    var victim := circle[|circle| - 1];
    var before := if |circle| == 1 then 0 else |circle| - 2;
    assert Next(circle, before) == victim;
    assert Edge(s.waits, circle[before], victim);
    var r :| r in At(s.held, victim);
    assert r in resources;
    assert resources[0] in resources;
    assert victim in Holders(s, resources[0]);
    var t := AbortAll(s, victim, resources);
    forall w, h | Edge(t.waits, w, h)
      ensures Edge(s.waits, w, h) && w != victim && h != victim
    {
      AbortsShrink(s, victim, resources, w, h);
    }
    assert !Edge(t.waits, victim, Next(circle, |circle| - 1));
  }

  function AbortsOf(victim: Client, resources: seq<Resource>): seq<Command> {
    seq(|resources|, i requires 0 <= i < |resources| => Abort(victim, resources[i]))
  }

  lemma {:induction false} AbortsAreCommands(commands: seq<Command>, victim: Client, resources: seq<Resource>)
    ensures Replay(commands + AbortsOf(victim, resources)) == AbortAll(Replay(commands), victim, resources)
    decreases |resources|
  {
    if resources == [] {
      assert commands + AbortsOf(victim, resources) == commands;
    } else {
      var next := commands + [Abort(victim, resources[0])];
      assert next[..|commands|] == commands;
      assert Replay(next) == Step(Replay(commands), Abort(victim, resources[0]));
      AbortsAreCommands(next, victim, resources[1..]);
      assert next + AbortsOf(victim, resources[1..]) == commands + AbortsOf(victim, resources);
    }
  }

  /** So it is in every run, cancellations included: a reported cycle can always be broken. */
  lemma EveryDeadlockCanBeBroken(commands: seq<Command>, circle: seq<Client>, resources: seq<Resource>)
    requires IsCycle(Replay(commands).waits, circle)
    requires forall r :: r in resources <==> r in At(Replay(commands).held, circle[|circle| - 1])
    ensures resources != []
    ensures !IsCycle(Replay(commands + AbortsOf(circle[|circle| - 1], resources)).waits, circle)
  {
    hide LocksOk, HeadsHold, Replay;
    ReplayOk(commands);
    HeadsAlwaysHold(commands);
    AbortBreaksCycle(Replay(commands), circle, resources);
    AbortsAreCommands(commands, circle[|circle| - 1], resources);
  }

  // ---- Cancellations ----

  /** Every edge between a client whose request is cancelled and a holder of r has some
      other reason: another request of that client, for r or for something else. */
  ghost predicate CancelSafe(s: Locks, id: RequestId, r: Resource) {
    forall q, h | q in Waiters(s, r) && q.id == id && h in Holders(s, r) &&
                  Edge(s.waits, q.client, h) ::
      (exists x :: x in Waiters(s, r) && x.id != id && x.client == q.client) ||
      (exists u :: u != r && WaitsOn(s, q.client, h, u))
  }

  lemma CancelWaits(s: Locks, id: RequestId, r: Resource, w: Client, h: Client, u: Resource)
    ensures WaitsOn(ApplyCancel(s, id, r), w, h, u) <==>
            WaitsOn(s, w, h, u) &&
            (u == r ==> exists x :: x in Waiters(s, r) && x.id != id && x.client == w)
  {
    var t := ApplyCancel(s, id, r);
    if r in s.table && u == r {
      WithoutIn(s.table[r].waiters, id);
      assert forall x :: x in Waiters(t, r) <==> x in Waiters(s, r) && x.id != id;
    }
  }

  /** Exactly when a cancellation leaves the graph sound: it removes no edge itself. */
  lemma CancelKeepsWaits(s: Locks, id: RequestId, r: Resource)
    requires WaitsOk(s)
    ensures WaitsOk(ApplyCancel(s, id, r)) <==> CancelSafe(s, id, r)
  {
    var t := ApplyCancel(s, id, r);
    if CancelSafe(s, id, r) {
      forall w, h | Edge(t.waits, w, h) ensures WaitsFor(t, w, h) {
        var u :| WaitsOn(s, w, h, u);
        CancelWaits(s, id, r, w, h, u);
        if !WaitsOn(t, w, h, u) {
          var q :| q in Waiters(s, r) && q.client == w;
          assert q.id == id;
          var v :| v != r && WaitsOn(s, w, h, v);
          CancelWaits(s, id, r, w, h, v);
        }
      }
    }
    if WaitsOk(t) {
      forall q, h | q in Waiters(s, r) && q.id == id && h in Holders(s, r) &&
                    Edge(s.waits, q.client, h)
        ensures (exists x :: x in Waiters(s, r) && x.id != id && x.client == q.client) ||
                (exists u :: u != r && WaitsOn(s, q.client, h, u))
      {
        var u :| WaitsOn(t, q.client, h, u);
        CancelWaits(s, id, r, q.client, h, u);
      }
    }
  }

  // ---- A cancellation that makes the detector see a deadlock that is not there ----

  const FalseAlarm: seq<Command> := [
    Acquire(Request("1", "bob", "disk", Exclusive)),
    Acquire(Request("2", "ann", "tape", Exclusive)),
    Acquire(Request("3", "bob", "tape", Exclusive)),
    Cancel("3", "tape"),
    Acquire(Request("4", "ann", "disk", Exclusive))]

  lemma ReplayNext(commands: seq<Command>, k: nat)
    requires k < |commands|
    ensures Replay(commands[..k + 1]) == Step(Replay(commands[..k]), commands[k])
  {
    assert commands[..k + 1][..k] == commands[..k];
  }

  /** Bob holds the disk, ann the tape, and bob waits for her. */
  const BobWaits := Locks(
    map["disk" := Lock(Exclusive, {"bob"}, []), "tape" := Lock(Exclusive, {"ann"}, [FalseAlarm[2].request])],
    map["bob" := {"disk"}, "ann" := {"tape"}],
    map["bob" := {"ann"}],
    2, 0)

  lemma BobComesToWait()
    ensures Step(Step(Step(NoLocks, FalseAlarm[0]), FalseAlarm[1]), FalseAlarm[2]) == BobWaits
  {
    var c := FalseAlarm;
    var s := Step(Step(NoLocks, c[0]), c[1]);
    var t := Step(s, c[2]);
    assert forall x: string :: {} + {x} == {x};
    assert s.table["tape"] == Lock(Exclusive, {"ann"}, []);
    assert s.waits == map[] && t.waits["bob"] == {"ann"};
    assert t.table["tape"] == BobWaits.table["tape"];
    assert t.table == BobWaits.table && t.held == BobWaits.held && t.waits == BobWaits.waits;
  }

  lemma BobGivesUp()
    ensures var s := Step(Step(BobWaits, FalseAlarm[3]), FalseAlarm[4]);
            s.table.Keys == {"tape", "disk"} && s.waits == map["bob" := {"ann"}, "ann" := {"bob"}] &&
            s.table["tape"].waiters == [] && s.table["disk"].waiters == [FalseAlarm[4].request]
  {
    var s := Step(BobWaits, FalseAlarm[3]);
    assert Without([FalseAlarm[2].request], "3") == [];
    var t := Step(s, FalseAlarm[4]);
    assert t.waits["ann"] == {"bob"};
    assert t.waits == map["bob" := {"ann"}, "ann" := {"bob"}];
  }

  lemma FalseAlarmStates()
    ensures Replay(FalseAlarm).table.Keys == {"tape", "disk"}
    ensures var s := Replay(FalseAlarm);
            s.waits == map["bob" := {"ann"}, "ann" := {"bob"}] &&
            s.table["tape"].waiters == [] && s.table["disk"].waiters == [FalseAlarm[4].request]
  {
    hide Replay, Step;
    var c := FalseAlarm;
    EmptyReplay();
    assert c[..0] == [] && c[..5] == c;
    ReplayNext(c, 0);
    ReplayNext(c, 1);
    ReplayNext(c, 2);
    ReplayNext(c, 3);
    ReplayNext(c, 4);
    BobComesToWait();
    BobGivesUp();
  }

  lemma EmptyReplay()
    ensures Replay([]) == NoLocks
  {
  }

  /** Bob gave up waiting for ann's tape before ann asked for bob's disk, yet the graph has
      the cycle of the two. */
  lemma CancelledWaitStays()
    ensures IsCycle(Replay(FalseAlarm).waits, ["ann", "bob"])
    ensures !CircularWait(Replay(FalseAlarm), ["ann", "bob"])
  {
    hide Replay;
    FalseAlarmStates();
    var s, circle := Replay(FalseAlarm), ["ann", "bob"];
    assert Next(circle, 0) == "bob" && Next(circle, 1) == "ann";
    assert !WaitsFor(s, "bob", "ann") by {
      assert Clients([FalseAlarm[4].request]) == {"ann"};
    }
  }
}
