/** The consistent hash ring of the queue (src/nodes/queue_node.py:61-98), for any hash. */
module HashRings {
  import opened Wrappers
  import opened Sorting

  type Ring = map<nat, string>

  /** Where a node's i-th virtual replica hashes to. */
  type Points = (string, nat) -> nat

  function PointsOf(point: Points, replicas: nat, node: string): set<nat> {
    set i | 0 <= i < replicas :: point(node, i)
  }

  function Added(ring: Ring, points: set<nat>, node: string): Ring {
    ring + map h | h in points :: node
  }

  function Removed(ring: Ring, node: string): Ring {
    map h | h in ring && ring[h] != node :: ring[h]
  }

  function KeysOf(ring: Ring, node: string): set<nat> {
    set h | h in ring && ring[h] == node
  }

  /** k is the first key at or after h, or the very first key when none is. */
  predicate Serves(keys: set<nat>, h: nat, k: nat) {
    k in keys &&
    if exists x :: x in keys && h <= x then h <= k && forall x | x in keys && h <= x :: k <= x
    else forall x | x in keys :: k <= x
  }

  ghost predicate Owns(ring: Ring, h: nat, owner: Option<string>) {
    match owner
    case None => ring == map[]
    case Some(node) => exists k :: Serves(ring.Keys, h, k) && ring[k] == node
  }

  lemma NearestKey(keys: set<nat>, h: nat) returns (k: nat)
    requires keys != {}
    ensures Serves(keys, h, k)
  {
    var above := set x | x in keys && h <= x;
    var pool := if above == {} then keys else above;
    HasFirst(pool, Smaller);
    k :| k in pool && forall y | y in pool :: !Smaller(y, k);
    if above == {} {
      forall x | x in keys ensures x < h { assert x !in above; }
    } else {
      assert k in above;
      forall x | x in keys && h <= x ensures k <= x { assert x in above; }
    }
  }

  /** Every hash has exactly one owner, unless the ring is empty. */
  lemma OneOwner(ring: Ring, h: nat)
    ensures exists owner :: Owns(ring, h, owner)
    ensures forall x, y | Owns(ring, h, x) && Owns(ring, h, y) :: x == y
  {
    if ring == map[] {
      assert Owns(ring, h, None);
    } else {
      var k := NearestKey(ring.Keys, h);
      assert Owns(ring, h, Some(ring[k]));
    }
  }

  /** Adding a node takes hashes over, and moves none between the others. */
  lemma AddMovesOnlyToNewNode(ring: Ring, points: set<nat>, node: string, h: nat,
                              was: Option<string>, now: Option<string>)
    requires Owns(ring, h, was) && Owns(Added(ring, points, node), h, now)
    ensures now == was || now == Some(node)
  {
  }

  /** Removing a node moves only the hashes it owned. */
  lemma RemoveMovesOnlyOwned(ring: Ring, node: string, h: nat, was: Option<string>, now: Option<string>)
    requires Owns(ring, h, was) && Owns(Removed(ring, node), h, now)
    ensures now != Some(node)
    ensures was != Some(node) ==> now == was
  {
    var ring' := Removed(ring, node);
    if was.Some? && was.value != node {
      var k :| Serves(ring.Keys, h, k) && ring[k] == was.value;
      assert k in ring';
      assert Serves(ring'.Keys, h, k);
      assert Owns(ring', h, was);
      OneOwner(ring', h);
    }
  }

  /** Every key of the ring is a virtual replica of the node it belongs to. */
  ghost predicate Built(ring: Ring, point: Points, replicas: nat) {
    forall h | h in ring :: h in PointsOf(point, replicas, ring[h])
  }

  lemma BuiltUp(ring: Ring, point: Points, replicas: nat, node: string)
    requires Built(ring, point, replicas)
    ensures Built(Added(ring, PointsOf(point, replicas, node), node), point, replicas)
    ensures Built(Removed(ring, node), point, replicas)
  {
  }

  /** Adding and removing a node leaves the ring as it was exactly when the node's points
      collide with no key of the ring. */
  lemma AddThenRemove(ring: Ring, point: Points, replicas: nat, node: string)
    requires Built(ring, point, replicas)
    ensures var points := PointsOf(point, replicas, node);
            Removed(Added(ring, points, node), node) == ring <==> points !! ring.Keys
  {
  }

  lemma AddedAt(ring: Ring, points: set<nat>, node: string, h: nat)
    ensures h in Added(ring, points, node) <==> h in points || h in ring
    ensures h in Added(ring, points, node) ==>
            Added(ring, points, node)[h] == if h in points then node else ring[h]
  {
  }

  /** Two nodes can join in either order exactly when their points do not collide. */
  lemma JoiningOrder(ring: Ring, point: Points, replicas: nat, a: string, b: string)
    requires a != b
    ensures var p, q := PointsOf(point, replicas, a), PointsOf(point, replicas, b);
            Added(Added(ring, p, a), q, b) == Added(Added(ring, q, b), p, a) <==> p !! q
  {
    hide Added, PointsOf;
    var p, q := PointsOf(point, replicas, a), PointsOf(point, replicas, b);
    var withA, withB := Added(ring, p, a), Added(ring, q, b);
    var left, right := Added(withA, q, b), Added(withB, p, a);
    forall h ensures h in left <==> h in right
      ensures h in p && h in q ==> h in left && h in right && left[h] != right[h]
      ensures h in left && h in right && !(h in p && h in q) ==> left[h] == right[h]
    {
      AddedAt(ring, p, a, h);
      AddedAt(ring, q, b, h);
      AddedAt(withA, q, b, h);
      AddedAt(withB, p, a, h);
    }
  }

  lemma NoPointYet(ring: Ring, point: Points, node: string)
    ensures Added(ring, PointsOf(point, 0, node), node) == ring
  {
  }

  lemma OneMorePoint(ring: Ring, point: Points, i: nat, node: string)
    ensures Added(ring, PointsOf(point, i + 1, node), node) ==
            Added(ring, PointsOf(point, i, node), node)[point(node, i) := node]
  {
  }

  ghost function Without(ring: Ring, gone: set<nat>): Ring {
    ring - gone
  }

  lemma NoneGone(ring: Ring, all: set<nat>)
    ensures Without(ring, all - all) == ring
  {
  }

  lemma OneMoreGone(ring: Ring, all: set<nat>, rest: set<nat>, h: nat)
    requires h in rest && rest <= all
    ensures Without(ring, all - rest) - {h} == Without(ring, all - (rest - {h}))
  {
  }

  lemma AllGone(ring: Ring, node: string)
    ensures Without(ring, KeysOf(ring, node)) == Removed(ring, node)
  {
  }

  lemma Nearest(sorted: seq<nat>, keys: set<nat>, i: nat, h: nat)
    requires Ascending(sorted, Smaller) && (forall x :: x in sorted <==> x in keys) && i < |sorted|
    requires (h <= sorted[i] && forall j | 0 <= j < i :: sorted[j] < h) ||
             (i == 0 && forall j | 0 <= j < |sorted| :: sorted[j] < h)
    ensures Serves(keys, h, sorted[i])
  {
  }

  class ConsistentHashRing {
    const virtualNodes: nat
    const point: Points
    const hash: string -> nat
    var ring: Ring
    var sortedKeys: seq<nat>

    ghost predicate Valid()
      reads this
    {
      sortedKeys == Sorted(ring.Keys, Smaller) && Built(ring, point, virtualNodes)
    }

    constructor (virtualNodes: nat, point: Points, hash: string -> nat)
      ensures Valid() && ring == map[]
      ensures this.virtualNodes == virtualNodes && this.point == point && this.hash == hash
    {
      this.virtualNodes, this.point, this.hash := virtualNodes, point, hash;
      ring, sortedKeys := map[], [];
    }

    method AddNode(node: string)
      requires Valid()
      modifies this
      ensures Valid() && ring == Added(old(ring), PointsOf(point, virtualNodes, node), node)
    {
      hide PointsOf, Added, Sorted, Built;
      NoPointYet(ring, point, node);
      for i := 0 to virtualNodes
        invariant ring == Added(old(ring), PointsOf(point, i, node), node)
      {
        OneMorePoint(old(ring), point, i, node);
        ring := ring[point(node, i) := node];
      }
      sortedKeys := Sorted(ring.Keys, Smaller);
      BuiltUp(old(ring), point, virtualNodes, node);
    }

    method RemoveNode(node: string)
      requires Valid()
      modifies this
      ensures Valid() && ring == Removed(old(ring), node)
    {
      hide KeysOf, Removed, Built, PointsOf, Without;
      var keysToRemove := KeysOf(ring, node);
      ghost var was, all := ring, keysToRemove;
      NoneGone(was, all);
      while keysToRemove != {}
        invariant keysToRemove <= all && ring == Without(was, all - keysToRemove)
        decreases keysToRemove
      {
        var h :| h in keysToRemove;
        OneMoreGone(was, all, keysToRemove, h);
        ring, keysToRemove := ring - {h}, keysToRemove - {h};
      }
      AllGone(was, node);
      assert all - keysToRemove == all;
      sortedKeys := Sorted(ring.Keys, Smaller);
      BuiltUp(was, point, virtualNodes, node);
    }

    method GetNode(key: string) returns (node: Option<string>)
      requires Valid()
      ensures Owns(ring, hash(key), node)
    {
      if ring == map[] {
        return None;
      }
      var h := hash(key);
      for i := 0 to |sortedKeys|
        invariant forall j | 0 <= j < i :: sortedKeys[j] < h
      {
        if h <= sortedKeys[i] {
          Nearest(sortedKeys, ring.Keys, i, h);
          return Some(ring[sortedKeys[i]]);
        }
      }
      Nearest(sortedKeys, ring.Keys, 0, h);
      return Some(ring[sortedKeys[0]]);
    }
  }
}
