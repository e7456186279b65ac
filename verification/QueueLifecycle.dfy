/** The life of a message in the distributed queue (src/nodes/queue_node.py): several nodes
    share the lists of a store, and each keeps its own in-flight map. */
module QueueLifecycle {
  type MessageId = string

  /** A list of the store: one partition of one topic. */
  datatype Key = Key(topic: string, partition: nat)

  datatype Message = Message(id: MessageId, topic: string, payload: string, partition: nat, retries: nat)

  /** The lists of the store: the partitions and, for each, its dead letters. */
  datatype Store = Store(lists: map<Key, seq<Message>>, dead: map<Key, seq<Message>>)

  /** What one node keeps for itself. */
  datatype Local = Local(
    inFlight: map<MessageId, Message>,
    produced: nat,
    consumed: nat,
    acked: nat,
    nacked: nat)

  const FreshLocal := Local(map[], 0, 0, 0, 0)

  function List(lists: map<Key, seq<Message>>, k: Key): seq<Message> {
    if k in lists then lists[k] else []
  }

  function HomeOf(m: Message): Key {
    Key(m.topic, m.partition)
  }

  // ---- What each call does to the store and to its node ----

  function Produce(st: Store, lo: Local, m: Message): (Store, Local) {
    (st.(lists := st.lists[HomeOf(m) := List(st.lists, HomeOf(m)) + [m]]),
     lo.(produced := lo.produced + 1))
  }

  /** One pop of a consume call. */
  function Take(st: Store, lo: Local, k: Key): (Store, Local) {
    var l := List(st.lists, k);
    if l == [] then (st, lo)
    else
      var m := l[0].(partition := k.partition);
      (st.(lists := st.lists[k := l[1..]]),
       lo.(inFlight := lo.inFlight[m.id := m], consumed := lo.consumed + 1))
  }

  function Ack(lo: Local, id: MessageId): Local {
    if id !in lo.inFlight then lo
    else lo.(inFlight := lo.inFlight - {id}, acked := lo.acked + 1)
  }

  function Nack(st: Store, lo: Local, id: MessageId, maxRetries: int): (Store, Local) {
    if id !in lo.inFlight then (st, lo)
    else
      var m := lo.inFlight[id].(retries := lo.inFlight[id].retries + 1);
      var lo' := lo.(inFlight := lo.inFlight - {id}, nacked := lo.nacked + 1);
      var k := HomeOf(m);
      if m.retries >= maxRetries then
        (st.(dead := st.dead[k := List(st.dead, k) + [m]]), lo')
      else
        (st.(lists := st.lists[k := [m] + List(st.lists, k)]), lo')
  }

  /** How often a message can be delivered: a limit below one acts as one, because the first
      negative acknowledgement already counts a retry. */
  function Limit(maxRetries: int): nat {
    if maxRetries < 1 then 1 else maxRetries
  }

  // ---- Several nodes around one store ----

  /** `issued` are the message ids handed out so far; an id is never handed out twice. */
  datatype System = System(store: Store, nodes: seq<Local>, issued: set<MessageId>)

  datatype Action =
    | DoProduce(i: nat, m: Message)
    | DoTake(i: nat, k: Key)
    | DoAck(i: nat, id: MessageId)
    | DoNack(i: nat, id: MessageId)

  predicate Enabled(s: System, a: Action) {
    a.i < |s.nodes| &&
    (a.DoProduce? ==> a.m.id !in s.issued && a.m.retries == 0)
  }

  function Next(s: System, a: Action, maxRetries: int): System
    requires Enabled(s, a)
  {
    var lo := s.nodes[a.i];
    match a
    case DoProduce(i, m) =>
      var (st, lo') := Produce(s.store, lo, m);
      System(st, s.nodes[i := lo'], s.issued + {m.id})
    case DoTake(i, k) =>
      var (st, lo') := Take(s.store, lo, k); s.(store := st, nodes := s.nodes[i := lo'])
    case DoAck(i, id) => s.(nodes := s.nodes[i := Ack(lo, id)])
    case DoNack(i, id) =>
      var (st, lo') := Nack(s.store, lo, id, maxRetries); s.(store := st, nodes := s.nodes[i := lo'])
  }

  /** These actions can happen in this order on n nodes around an empty store. */
  predicate Runs(n: nat, acts: seq<Action>, max: int)
    decreases |acts|, 0
  {
    acts == [] ||
    (Runs(n, acts[..|acts| - 1], max) && Enabled(After(n, acts[..|acts| - 1], max), acts[|acts| - 1]))
  }

  function After(n: nat, acts: seq<Action>, max: int): System
    requires Runs(n, acts, max)
    decreases |acts|, 1
  {
    if acts == [] then System(Store(map[], map[]), seq(n, i => FreshLocal), {})
    else Next(After(n, acts[..|acts| - 1], max), acts[|acts| - 1], max)
  }

  /** The action hands out this message. */
  predicate Delivers(s: System, a: Action, id: MessageId) {
    a.DoTake? && List(s.store.lists, a.k) != [] && List(s.store.lists, a.k)[0].id == id
  }

  /** The action finds something to do, and makes no new message. */
  predicate Effective(s: System, a: Action)
    requires Enabled(s, a)
  {
    match a
    case DoProduce(_, _) => false
    case DoTake(_, k) => List(s.store.lists, k) != []
    case DoAck(i, id) => id in s.nodes[i].inFlight
    case DoNack(i, id) => id in s.nodes[i].inFlight
  }

  function Deliveries(n: nat, acts: seq<Action>, max: int, id: MessageId): nat
    requires Runs(n, acts, max)
  {
    if acts == [] then 0
    else
      var front := acts[..|acts| - 1];
      Deliveries(n, front, max, id) +
      if Delivers(After(n, front, max), acts[|acts| - 1], id) then 1 else 0
  }

  function EffectiveSteps(n: nat, acts: seq<Action>, max: int): nat
    requires Runs(n, acts, max)
  {
    if acts == [] then 0
    else
      var front := acts[..|acts| - 1];
      EffectiveSteps(n, front, max) +
      if Effective(After(n, front, max), acts[|acts| - 1]) then 1 else 0
  }

  /** Some node acknowledged the message while it was in flight there. */
  predicate WasAcked(n: nat, acts: seq<Action>, max: int, id: MessageId)
    requires Runs(n, acts, max)
  {
    acts != [] &&
    var front := acts[..|acts| - 1];
    var last := acts[|acts| - 1];
    WasAcked(n, front, max, id) ||
    (last.DoAck? && last.id == id && Effective(After(n, front, max), last))
  }

  // ---- The record of every message, kept by the proof ----

  datatype Place = Queued | InFlight(node: nat) | Acked | Dead

  datatype Life = Life(origin: Message, place: Place, retries: nat, deliveries: nat) {
    /** The message as it was produced, with the retries counted so far. */
    function Copy(): Message { origin.(retries := retries) }

    function Home(): Key { HomeOf(origin) }
  }

  type Lives = map<MessageId, Life>

  /** Where a life is decides how its retries stand to the limit and to its deliveries. */
  ghost predicate LifeOk(life: Life, maxRetries: int) {
    (if life.place.Dead? then life.retries == Limit(maxRetries) else life.retries < Limit(maxRetries)) &&
    life.deliveries == life.retries + (if life.place.InFlight? || life.place.Acked? then 1 else 0)
  }

  /** A list that holds exactly the messages with this home and place, each once. */
  ghost predicate ListOk(l: seq<Message>, k: Key, place: Place, lives: Lives) {
    (forall i, j | 0 <= i < j < |l| :: l[i].id != l[j].id) &&
    (forall m | m in l :: m.id in lives && lives[m.id].Home() == k && lives[m.id].place == place &&
                          m == lives[m.id].Copy()) &&
    (forall id | id in lives && lives[id].Home() == k && lives[id].place == place ::
       exists m :: m in l && m.id == id)
  }

  /** The message agrees with its record, which says it is in flight on node i. */
  ghost predicate Carried(m: Message, i: nat, lives: Lives) {
    m.id in lives && lives[m.id].place == InFlight(i) && m == lives[m.id].Copy()
  }

  /** An in-flight map that holds exactly this node's messages, and its counters. */
  ghost predicate LocalOk(lo: Local, i: nat, lives: Lives) {
    (forall id | id in lo.inFlight :: lo.inFlight[id].id == id && Carried(lo.inFlight[id], i, lives)) &&
    (forall id | id in lives && lives[id].place == InFlight(i) :: id in lo.inFlight) &&
    lo.consumed == |lo.inFlight| + lo.acked + lo.nacked
  }

  ghost predicate Inv(s: System, lives: Lives, maxRetries: int) {
    lives.Keys == s.issued &&
    (forall id | id in lives :: LifeOk(lives[id], maxRetries)) &&
    (forall id | id in lives && lives[id].place.InFlight? :: lives[id].place.node < |s.nodes|) &&
    (forall k :: ListOk(List(s.store.lists, k), k, Queued, lives)) &&
    (forall k :: ListOk(List(s.store.dead, k), k, Dead, lives)) &&
    (forall i | 0 <= i < |s.nodes| :: LocalOk(s.nodes[i], i, lives))
  }

  // ---- One message moves, all others stay ----

  /** The two records differ at most at one message. */
  ghost predicate OnlyMoves(lives: Lives, lives': Lives, id: MessageId) {
    id in lives' && lives'.Keys == lives.Keys + {id} &&
    forall d | d in lives && d != id :: lives'[d] == lives[d]
  }

  lemma ListStays(l: seq<Message>, k: Key, place: Place, lives: Lives, lives': Lives, id: MessageId)
    requires ListOk(l, k, place, lives) && OnlyMoves(lives, lives', id)
    requires id in lives ==> lives[id].Home() != k || lives[id].place != place
    requires lives'[id].Home() != k || lives'[id].place != place
    ensures ListOk(l, k, place, lives')
  {
  }

  lemma LocalStays(lo: Local, lo': Local, i: nat, lives: Lives, lives': Lives, id: MessageId)
    requires lo' == lo.(produced := lo'.produced)
    requires LocalOk(lo, i, lives) && OnlyMoves(lives, lives', id)
    requires id in lives ==> lives[id].place != InFlight(i)
    requires lives'[id].place != InFlight(i)
    ensures LocalOk(lo', i, lives')
  {
  }

  lemma ListGains(l: seq<Message>, l': seq<Message>, k: Key, place: Place, lives: Lives,
                  lives': Lives, m: Message)
    requires ListOk(l, k, place, lives) && OnlyMoves(lives, lives', m.id)
    requires m.id in lives ==> lives[m.id].Home() != k || lives[m.id].place != place
    requires lives'[m.id].Home() == k && lives'[m.id].place == place && m == lives'[m.id].Copy()
    requires l' == l + [m] || l' == [m] + l
    ensures ListOk(l', k, place, lives')
  {
    assert forall x | x in l :: x.id != m.id;
    assert m in l';
    assert forall x :: x in l' <==> x in l || x == m;
    forall d | d in lives' && lives'[d].Home() == k && lives'[d].place == place
      ensures exists x :: x in l' && x.id == d
    {
      if d != m.id {
        assert d in lives && lives[d].Home() == k && lives[d].place == place;
        var x :| x in l && x.id == d;
        assert x in l';
      }
    }
  }

  lemma ListLoses(l: seq<Message>, k: Key, place: Place, lives: Lives, lives': Lives)
    requires ListOk(l, k, place, lives) && l != [] && OnlyMoves(lives, lives', l[0].id)
    requires lives'[l[0].id].place != place
    ensures ListOk(l[1..], k, place, lives')
  {
  }

  // ---- Every action keeps the invariant ----

  lemma HeadFacts(s: System, lives: Lives, max: int, k: Key)
    requires Inv(s, lives, max) && List(s.store.lists, k) != []
    ensures var m := List(s.store.lists, k)[0];
            m.id in lives && lives[m.id].place == Queued && lives[m.id].Home() == k && m == lives[m.id].Copy()
  {
  }

  lemma InFlightFacts(s: System, lives: Lives, max: int, i: nat, id: MessageId)
    requires Inv(s, lives, max) && i < |s.nodes| && id in s.nodes[i].inFlight
    ensures id in lives && lives[id].place == InFlight(i)
    ensures s.nodes[i].inFlight[id].id == id && s.nodes[i].inFlight[id] == lives[id].Copy()
  {
  }

  lemma ProduceOk(s: System, lives: Lives, max: int, i: nat, m: Message) returns (lives': Lives)
    requires Inv(s, lives, max) && Enabled(s, DoProduce(i, m))
    ensures Inv(Next(s, DoProduce(i, m), max), lives', max)
    ensures m.id !in lives && lives' == lives[m.id := Life(m, Queued, 0, 0)]
  {
    hide ListOk, LocalOk;
    lives' := lives[m.id := Life(m, Queued, 0, 0)];
    var t := Next(s, DoProduce(i, m), max);
    forall k ensures ListOk(List(t.store.lists, k), k, Queued, lives') {
      var l := List(s.store.lists, k);
      assert ListOk(l, k, Queued, lives);
      if k == HomeOf(m) {
        ListGains(l, l + [m], k, Queued, lives, lives', m);
      } else {
        ListStays(l, k, Queued, lives, lives', m.id);
      }
    }
    forall k ensures ListOk(List(t.store.dead, k), k, Dead, lives') {
      ListStays(List(s.store.dead, k), k, Dead, lives, lives', m.id);
    }
    forall j | 0 <= j < |t.nodes| ensures LocalOk(t.nodes[j], j, lives') {
      assert LocalOk(s.nodes[j], j, lives);
      LocalStays(s.nodes[j], t.nodes[j], j, lives, lives', m.id);
    }
  }

  lemma TakeOk(s: System, lives: Lives, max: int, i: nat, k: Key) returns (lives': Lives)
    requires Inv(s, lives, max) && Enabled(s, DoTake(i, k)) && List(s.store.lists, k) != []
    ensures Inv(Next(s, DoTake(i, k), max), lives', max)
    ensures var m := List(s.store.lists, k)[0];
            m.id in lives && lives[m.id].place == Queued && LifeOk(lives[m.id], max) &&
            lives' == lives[m.id := lives[m.id].(place := InFlight(i),
                                                 deliveries := lives[m.id].deliveries + 1)]
  {
    hide ListOk, LocalOk;
    var l := List(s.store.lists, k);
    var m := l[0];
    HeadFacts(s, lives, max, k);
    lives' := lives[m.id := lives[m.id].(place := InFlight(i),
                                         deliveries := lives[m.id].deliveries + 1)];
    var t := Next(s, DoTake(i, k), max);
    forall u ensures ListOk(List(t.store.lists, u), u, Queued, lives') {
      if u == k {
        ListLoses(l, k, Queued, lives, lives');
      } else {
        ListStays(List(s.store.lists, u), u, Queued, lives, lives', m.id);
      }
    }
    forall u ensures ListOk(List(t.store.dead, u), u, Dead, lives') {
      ListStays(List(s.store.dead, u), u, Dead, lives, lives', m.id);
    }
    forall j | 0 <= j < |t.nodes| ensures LocalOk(t.nodes[j], j, lives') {
      assert LocalOk(s.nodes[j], j, lives);
      if j != i {
        LocalStays(s.nodes[j], t.nodes[j], j, lives, lives', m.id);
      } else {
        assert m.(partition := k.partition) == m;
        Receive(s.nodes[i], t.nodes[i], i, lives, lives', m);
      }
    }
  }

  lemma Receive(lo: Local, lo': Local, i: nat, lives: Lives, lives': Lives, m: Message)
    requires LocalOk(lo, i, lives) && OnlyMoves(lives, lives', m.id)
    requires m.id in lives ==> lives[m.id].place != InFlight(i)
    requires Carried(m, i, lives')
    requires lo'.inFlight == lo.inFlight[m.id := m] && lo'.consumed == lo.consumed + 1
    requires lo'.acked == lo.acked && lo'.nacked == lo.nacked
    ensures LocalOk(lo', i, lives')
  {
  }

  lemma Settle(lo: Local, lo': Local, i: nat, lives: Lives, lives': Lives, id: MessageId)
    requires LocalOk(lo, i, lives) && id in lo.inFlight && OnlyMoves(lives, lives', id)
    requires !lives'[id].place.InFlight?
    requires lo'.inFlight == lo.inFlight - {id} && lo'.consumed == lo.consumed
    requires lo'.acked + lo'.nacked == lo.acked + lo.nacked + 1
    ensures LocalOk(lo', i, lives')
  {
    assert lo.inFlight.Keys == lo'.inFlight.Keys + {id};
  }

  lemma AckOk(s: System, lives: Lives, max: int, i: nat, id: MessageId) returns (lives': Lives)
    requires Inv(s, lives, max) && Enabled(s, DoAck(i, id)) && id in s.nodes[i].inFlight
    ensures Inv(Next(s, DoAck(i, id), max), lives', max)
    ensures id in lives && lives[id].place == InFlight(i) && LifeOk(lives[id], max)
    ensures lives' == lives[id := lives[id].(place := Acked)]
  {
    hide ListOk, LocalOk;
    InFlightFacts(s, lives, max, i, id);
    lives' := lives[id := lives[id].(place := Acked)];
    var t := Next(s, DoAck(i, id), max);
    forall u ensures ListOk(List(t.store.lists, u), u, Queued, lives') {
      ListStays(List(s.store.lists, u), u, Queued, lives, lives', id);
    }
    forall u ensures ListOk(List(t.store.dead, u), u, Dead, lives') {
      ListStays(List(s.store.dead, u), u, Dead, lives, lives', id);
    }
    forall j | 0 <= j < |t.nodes| ensures LocalOk(t.nodes[j], j, lives') {
      assert LocalOk(s.nodes[j], j, lives);
      if j != i {
        LocalStays(s.nodes[j], t.nodes[j], j, lives, lives', id);
      } else {
        Settle(s.nodes[i], t.nodes[i], i, lives, lives', id);
      }
    }
  }

  lemma NackOk(s: System, lives: Lives, max: int, i: nat, id: MessageId) returns (lives': Lives)
    requires Inv(s, lives, max) && Enabled(s, DoNack(i, id)) && id in s.nodes[i].inFlight
    ensures Inv(Next(s, DoNack(i, id), max), lives', max)
    ensures id in lives && lives[id].place == InFlight(i) && LifeOk(lives[id], max)
    ensures lives' == lives[id := lives[id].(place := if lives[id].retries + 1 >= max then Dead else Queued,
                                             retries := lives[id].retries + 1)]
  {
    hide ListOk, LocalOk;
    InFlightFacts(s, lives, max, i, id);
    lives' := lives[id := lives[id].(place := if lives[id].retries + 1 >= max then Dead else Queued,
                                     retries := lives[id].retries + 1)];
    var t := Next(s, DoNack(i, id), max);
    var m := s.nodes[i].inFlight[id].(retries := lives[id].retries + 1);
    forall u ensures ListOk(List(t.store.lists, u), u, Queued, lives') {
      var l := List(s.store.lists, u);
      assert ListOk(l, u, Queued, lives);
      if u == HomeOf(m) && m.retries < max {
        ListGains(l, [m] + l, u, Queued, lives, lives', m);
      } else {
        ListStays(l, u, Queued, lives, lives', id);
      }
    }
    forall u ensures ListOk(List(t.store.dead, u), u, Dead, lives') {
      var l := List(s.store.dead, u);
      assert ListOk(l, u, Dead, lives);
      if u == HomeOf(m) && m.retries >= max {
        ListGains(l, l + [m], u, Dead, lives, lives', m);
      } else {
        ListStays(l, u, Dead, lives, lives', id);
      }
    }
    forall j | 0 <= j < |t.nodes| ensures LocalOk(t.nodes[j], j, lives') {
      assert LocalOk(s.nodes[j], j, lives);
      if j != i {
        LocalStays(s.nodes[j], t.nodes[j], j, lives, lives', id);
      } else {
        Settle(s.nodes[i], t.nodes[i], i, lives, lives', id);
      }
    }
  }

  // ---- How much work is left ----

  /** The takes, acknowledgements and negative acknowledgements a message can still see. */
  function Left(life: Life, max: int): nat {
    match life.place
    case Queued => if life.retries < Limit(max) then 2 * (Limit(max) - life.retries) else 0
    case InFlight(_) => if life.retries < Limit(max) then 2 * (Limit(max) - life.retries) - 1 else 0
    case _ => 0
  }

  ghost function TotalLeft(lives: Lives, max: int): nat
    decreases |lives|
  {
    if lives == map[] then 0
    else
      var id :| id in lives;
      Left(lives[id], max) + TotalLeft(lives - {id}, max)
  }

  lemma {:induction false} LeftWithout(lives: Lives, id: MessageId, max: int)
    requires id in lives
    ensures TotalLeft(lives, max) == Left(lives[id], max) + TotalLeft(lives - {id}, max)
    decreases |lives|
  {
    var d :| d in lives && TotalLeft(lives, max) == Left(lives[d], max) + TotalLeft(lives - {d}, max);
    if d != id {
      LeftWithout(lives - {d}, id, max);
      LeftWithout(lives - {id}, d, max);
      assert lives - {d} - {id} == lives - {id} - {d};
    }
  }

  lemma LeftAfter(lives: Lives, id: MessageId, life: Life, max: int)
    ensures TotalLeft(lives[id := life], max) ==
            TotalLeft(lives, max) + Left(life, max) - (if id in lives then Left(lives[id], max) else 0)
  {
    LeftWithout(lives[id := life], id, max);
    if id in lives {
      LeftWithout(lives, id, max);
      assert lives[id := life] - {id} == lives - {id};
    } else {
      assert lives[id := life] - {id} == lives;
    }
  }

  // ---- Runs ----

  function Delivered(lives: Lives, id: MessageId): nat {
    if id in lives then lives[id].deliveries else 0
  }

  predicate Settled(lives: Lives, id: MessageId) {
    id in lives && lives[id].place.Acked?
  }

  lemma IdleStep(s: System, a: Action, max: int)
    requires Enabled(s, a) && !a.DoProduce? && !Effective(s, a)
    ensures Next(s, a, max) == s
  {
  }

  lemma ActionOk(s: System, lives: Lives, max: int, a: Action) returns (lives': Lives)
    requires Inv(s, lives, max) && Enabled(s, a)
    ensures Inv(Next(s, a, max), lives', max)
    ensures forall id :: Delivered(lives', id) == Delivered(lives, id) + if Delivers(s, a, id) then 1 else 0
    ensures forall id :: Settled(lives', id) <==>
                         Settled(lives, id) || (a.DoAck? && a.id == id && Effective(s, a))
    ensures TotalLeft(lives', max) + (if Effective(s, a) then 1 else 0)
            <= TotalLeft(lives, max) + (if a.DoProduce? then 2 * Limit(max) else 0)
    ensures forall id | id in lives :: id in lives' && lives'[id].origin == lives[id].origin
    ensures a.DoProduce? ==> a.m.id in lives' && lives'[a.m.id].origin == a.m
    ensures |Next(s, a, max).issued| == |s.issued| + (if a.DoProduce? then 1 else 0)
  {
    hide Inv, TotalLeft;
    match a
    case DoProduce(i, m) => {
      lives' := ProduceOk(s, lives, max, i, m);
      LeftAfter(lives, m.id, lives'[m.id], max);
    }
    case DoTake(i, k) => {
      if Effective(s, a) {
        lives' := TakeOk(s, lives, max, i, k);
        var id := List(s.store.lists, k)[0].id;
        LeftAfter(lives, id, lives'[id], max);
      } else {
        IdleStep(s, a, max);
        lives' := lives;
      }
    }
    case DoAck(i, id) => {
      if Effective(s, a) {
        lives' := AckOk(s, lives, max, i, id);
        LeftAfter(lives, id, lives'[id], max);
      } else {
        IdleStep(s, a, max);
        lives' := lives;
      }
    }
    case DoNack(i, id) => {
      if Effective(s, a) {
        lives' := NackOk(s, lives, max, i, id);
        LeftAfter(lives, id, lives'[id], max);
      } else {
        IdleStep(s, a, max);
        lives' := lives;
      }
    }
  }

  lemma OneMore(x: nat, y: nat)
    ensures x * (y + 1) == x * y + x
  {
  }

  lemma {:induction false} RunOk(n: nat, acts: seq<Action>, max: int) returns (lives: Lives)
    requires Runs(n, acts, max)
    ensures Inv(After(n, acts, max), lives, max)
    ensures forall id :: Delivered(lives, id) == Deliveries(n, acts, max, id)
    ensures forall id :: Settled(lives, id) <==> WasAcked(n, acts, max, id)
    ensures forall a | a in acts && a.DoProduce? :: a.m.id in lives && lives[a.m.id].origin == a.m
    ensures EffectiveSteps(n, acts, max) + TotalLeft(lives, max)
            <= 2 * Limit(max) * |After(n, acts, max).issued|
    decreases |acts|
  {
    if acts == [] {
      lives := map[];
    } else {
      hide Inv, Next, Delivers, Effective, Delivered, Settled;
      var front := acts[..|acts| - 1];
      var before := RunOk(n, front, max);
      var s, a := After(n, front, max), acts[|acts| - 1];
      lives := ActionOk(s, before, max, a);
      assert After(n, acts, max) == Next(s, a, max);
      OneMore(2 * Limit(max), |s.issued|);
      forall b | b in acts && b.DoProduce? ensures b.m.id in lives && lives[b.m.id].origin == b.m {
        assert b in front || b == a;
      }
      forall id ensures Delivered(lives, id) == Deliveries(n, acts, max, id) {}
      forall id ensures Settled(lives, id) <==> WasAcked(n, acts, max, id) {}
    }
  }

  // ---- What every run keeps ----

  /** Where a copy of a message can be. */
  datatype Spot = InList(k: Key) | OnNode(i: nat) | DeadLetter(k: Key)

  ghost predicate At(s: System, m: Message, spot: Spot) {
    match spot
    case InList(k) => m in List(s.store.lists, k)
    case OnNode(i) => i < |s.nodes| && m in s.nodes[i].inFlight.Values
    case DeadLetter(k) => m in List(s.store.dead, k)
  }

  predicate NoRepeats(l: seq<Message>) {
    forall i, j | 0 <= i < j < |l| :: l[i].id != l[j].id
  }

  lemma Found(s: System, lives: Lives, max: int, m: Message, spot: Spot)
    requires Inv(s, lives, max) && At(s, m, spot)
    ensures m.id in lives && m == lives[m.id].Copy()
    ensures var life := lives[m.id];
            spot == match life.place
                    case Queued => InList(life.Home())
                    case InFlight(i) => OnNode(i)
                    case Dead => DeadLetter(life.Home())
                    case Acked => spot
    ensures !lives[m.id].place.Acked?
  {
  }

  /** Everything ever produced and not acknowledged is in exactly one place, in one copy, and that
      copy is what was produced. */
  lemma MessagesConserved(n: nat, acts: seq<Action>, max: int, made: Action)
    requires Runs(n, acts, max) && made in acts && made.DoProduce?
    ensures var s := After(n, acts, max);
            !WasAcked(n, acts, max, made.m.id) <==>
            exists m, spot :: At(s, m, spot) && m.id == made.m.id
    ensures var s := After(n, acts, max);
            forall m, m', x, x' | At(s, m, x) && At(s, m', x') && m.id == m'.id == made.m.id ::
              m == m' == made.m.(retries := m.retries) && x == x' &&
              (x.InList? || x.DeadLetter? ==> x.k == HomeOf(made.m))
    ensures var s := After(n, acts, max);
            forall k :: NoRepeats(List(s.store.lists, k)) && NoRepeats(List(s.store.dead, k))
  {
    var lives := RunOk(n, acts, max);
    var s := After(n, acts, max);
    var id := made.m.id;
    forall m, m', x, x' | At(s, m, x) && At(s, m', x') && m.id == m'.id == id
      ensures m == m' == made.m.(retries := m.retries) && x == x' &&
              (x.InList? || x.DeadLetter? ==> x.k == HomeOf(made.m))
    {
      Found(s, lives, max, m, x);
      Found(s, lives, max, m', x');
    }
    if exists m, spot :: At(s, m, spot) && m.id == id {
      var m, spot :| At(s, m, spot) && m.id == id;
      Found(s, lives, max, m, spot);
    }
    if !WasAcked(n, acts, max, id) {
      assert !Settled(lives, id);
      var m, spot := Somewhere(s, lives, max, id);
    }
    forall k ensures NoRepeats(List(s.store.lists, k)) && NoRepeats(List(s.store.dead, k)) {
      assert ListOk(List(s.store.lists, k), k, Queued, lives);
      assert ListOk(List(s.store.dead, k), k, Dead, lives);
    }
  }

  lemma Somewhere(s: System, lives: Lives, max: int, id: MessageId) returns (m: Message, spot: Spot)
    requires Inv(s, lives, max) && id in lives && !lives[id].place.Acked?
    ensures At(s, m, spot) && m.id == id
  {
    var k := lives[id].Home();
    match lives[id].place
    case Queued => {
      assert ListOk(List(s.store.lists, k), k, Queued, lives);
      spot := InList(k);
      m :| m in List(s.store.lists, k) && m.id == id;
    }
    case InFlight(i) => {
      assert LocalOk(s.nodes[i], i, lives);
      m, spot := s.nodes[i].inFlight[id], OnNode(i);
    }
    case Dead => {
      assert ListOk(List(s.store.dead, k), k, Dead, lives);
      spot := DeadLetter(k);
      m :| m in List(s.store.dead, k) && m.id == id;
    }
  }

  /** A message is delivered at most as often as the limit allows; its copy has counted every
      delivery but the one it is out on, and it is a dead letter exactly when it reached the limit. */
  lemma DeliveriesBounded(n: nat, acts: seq<Action>, max: int, id: MessageId)
    requires Runs(n, acts, max)
    ensures Deliveries(n, acts, max, id) <= Limit(max)
    ensures forall m, spot | At(After(n, acts, max), m, spot) && m.id == id ::
              Deliveries(n, acts, max, id) == m.retries + (if spot.OnNode? then 1 else 0) &&
              (spot.DeadLetter? <==> m.retries >= Limit(max))
  {
    var lives := RunOk(n, acts, max);
    var s := After(n, acts, max);
    if id in lives {
      assert Delivered(lives, id) == lives[id].deliveries && LifeOk(lives[id], max);
    } else {
      assert Delivered(lives, id) == 0;
    }
    forall m, spot | At(s, m, spot) && m.id == id
      ensures Deliveries(n, acts, max, id) == m.retries + (if spot.OnNode? then 1 else 0)
      ensures spot.DeadLetter? <==> m.retries >= Limit(max)
    {
      Found(s, lives, max, m, spot);
    }
  }

  /** Without new messages the work runs out: each message accounts for at most two effective
      steps, a take and its answer, per allowed delivery. */
  lemma WorkRunsOut(n: nat, acts: seq<Action>, max: int)
    requires Runs(n, acts, max)
    ensures EffectiveSteps(n, acts, max) <= 2 * Limit(max) * |After(n, acts, max).issued|
  {
    var lives := RunOk(n, acts, max);
  }

  /** What a node's counters have to show: the messages it made, delivered, acknowledged and
      negatively acknowledged. */
  datatype Tally = Tally(produced: nat, consumed: nat, acked: nat, nacked: nat)

  function Counted(t: Tally, s: System, a: Action, i: nat): Tally
    requires Enabled(s, a)
  {
    if a.i != i then t
    else if a.DoProduce? then t.(produced := t.produced + 1)
    else if !Effective(s, a) then t
    else if a.DoTake? then t.(consumed := t.consumed + 1)
    else if a.DoAck? then t.(acked := t.acked + 1)
    else t.(nacked := t.nacked + 1)
  }

  function TallyOf(n: nat, acts: seq<Action>, max: int, i: nat): Tally
    requires Runs(n, acts, max)
  {
    if acts == [] then Tally(0, 0, 0, 0)
    else
      var front := acts[..|acts| - 1];
      Counted(TallyOf(n, front, max, i), After(n, front, max), acts[|acts| - 1], i)
  }

  function Shown(lo: Local): Tally {
    Tally(lo.produced, lo.consumed, lo.acked, lo.nacked)
  }

  lemma StepCounts(s: System, a: Action, max: int, i: nat)
    requires Enabled(s, a) && i < |s.nodes|
    ensures |Next(s, a, max).nodes| == |s.nodes|
    ensures Shown(Next(s, a, max).nodes[i]) == Counted(Shown(s.nodes[i]), s, a, i)
  {
  }

  lemma {:induction false} CountersCount(n: nat, acts: seq<Action>, max: int, i: nat)
    requires Runs(n, acts, max) && i < n
    ensures |After(n, acts, max).nodes| == n
    ensures Shown(After(n, acts, max).nodes[i]) == TallyOf(n, acts, max, i)
    decreases |acts|
  {
    if acts != [] {
      hide Next, Counted, Shown;
      var front, a := acts[..|acts| - 1], acts[|acts| - 1];
      CountersCount(n, front, max, i);
      StepCounts(After(n, front, max), a, max, i);
    }
  }

  /** Each counter of a node counts exactly what it is named after, and every message it consumed is
      in flight there, acknowledged or negatively acknowledged. */
  lemma CountersBalance(n: nat, acts: seq<Action>, max: int, i: nat)
    requires Runs(n, acts, max) && i < n
    ensures |After(n, acts, max).nodes| == n
    ensures var lo := After(n, acts, max).nodes[i];
            Tally(lo.produced, lo.consumed, lo.acked, lo.nacked) == TallyOf(n, acts, max, i) &&
            lo.consumed == |lo.inFlight| + lo.acked + lo.nacked
  {
    CountersCount(n, acts, max, i);
    var lives := RunOk(n, acts, max);
    assert LocalOk(After(n, acts, max).nodes[i], i, lives);
  }

  /** An acknowledged message is never delivered again. */
  lemma AckedNeverReturns(n: nat, acts: seq<Action>, max: int, id: MessageId)
    requires Runs(n, acts, max) && acts != []
    requires WasAcked(n, acts[..|acts| - 1], max, id)
    ensures Deliveries(n, acts, max, id) == Deliveries(n, acts[..|acts| - 1], max, id)
  {
    var front := acts[..|acts| - 1];
    var lives := RunOk(n, front, max);
    assert Settled(lives, id);
    var s, a := After(n, front, max), acts[|acts| - 1];
    if Delivers(s, a, id) {
      HeadFacts(s, lives, max, a.k);
    }
  }
}
