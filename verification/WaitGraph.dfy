/** The wait-for graph and its cycle search (src/nodes/lock_manager.py). */
module WaitGraph {
  import opened Wrappers
  import opened Commands

  type Graph = map<Client, set<Client>>

  predicate Edge(g: Graph, a: Client, b: Client) {
    a in g && b in g[a]
  }

  function Next(c: seq<Client>, i: nat): Client
    requires i < |c|
  {
    if i + 1 < |c| then c[i + 1] else c[0]
  }

  /** A simple cycle: different clients, each with an edge to the next and the last one
      with an edge to the first. */
  ghost predicate IsCycle(g: Graph, c: seq<Client>) {
    IsClosedWalk(g, c) && forall i, j | 0 <= i < j < |c| :: c[i] != c[j]
  }

  ghost predicate IsClosedWalk(g: Graph, c: seq<Client>) {
    c != [] && forall i {:trigger Next(c, i)} | 0 <= i < |c| :: Edge(g, c[i], Next(c, i))
  }

  // ---- A finishing order rules out cycles ----

  ghost predicate Distinct(s: seq<Client>) {
    forall i, j | 0 <= i < j < |s| :: s[i] != s[j]
  }

  /** In `done`, every successor of a client comes before it. */
  ghost predicate Ordered(g: Graph, done: seq<Client>) {
    Distinct(done) && forall i, b | 0 <= i < |done| && Edge(g, done[i], b) :: b in done[..i]
  }

  lemma Earlier(g: Graph, done: seq<Client>, i: nat, b: Client) returns (j: nat)
    requires Ordered(g, done) && i < |done| && Edge(g, done[i], b)
    ensures j < i && done[j] == b
  {
    assert b in done[..i];
    j :| 0 <= j < i && done[..i][j] == b;
  }

  ghost predicate IsWalk(g: Graph, c: seq<Client>) {
    c != [] && forall i {:trigger c[i + 1]} | 0 <= i < |c| - 1 :: Edge(g, c[i], c[i + 1])
  }

  /** Along a walk, the position in the finishing order falls. */
  lemma {:induction false} WalkDescends(g: Graph, done: seq<Client>, c: seq<Client>, first: nat, k: nat)
    returns (last: nat)
    requires Ordered(g, done) && IsWalk(g, c) && k < |c|
    requires first < |done| && done[first] == c[0]
    ensures last <= first && done[last] == c[k]
    decreases k
  {
    hide Ordered;
    if k == 0 {
      last := first;
    } else {
      last := WalkDescends(g, done, c, first, k - 1);
      var i := k - 1;
      assert Edge(g, c[i], c[i + 1]);
      last := Earlier(g, done, last, c[k]);
    }
  }

  lemma OrderedIsAcyclic(g: Graph, done: seq<Client>, c: seq<Client>)
    requires Ordered(g, done) && forall a | a in g :: a in done
    ensures !IsClosedWalk(g, c)
  {
    if IsWalk(g, c) {
      if c[0] in done {
        var first: nat :| first < |done| && done[first] == c[0];
        var last := WalkDescends(g, done, c, first, |c| - 1);
        assert !Edge(g, c[|c| - 1], Next(c, |c| - 1));
      } else {
        assert !Edge(g, c[0], Next(c, 0));
      }
    } else if c != [] {
      var i :| 0 <= i < |c| - 1 && !Edge(g, c[i], c[i + 1]);
      assert !Edge(g, c[i], Next(c, i));
    }
  }

  // ---- Depth-first search ----

  ghost function Nodes(g: Graph): set<Client> {
    g.Keys + set a, b | a in g && b in g[a] :: b
  }

  /** The clients on the path are being explored, those in `done` are finished. */
  ghost predicate SearchOk(g: Graph, visited: set<Client>, recStack: set<Client>,
                           path: seq<Client>, done: seq<Client>)
  {
    visited <= Nodes(g) && Distinct(path) && Ordered(g, done) &&
    (forall i | 0 <= i < |path| - 1 :: Edge(g, path[i], path[i + 1])) &&
    (forall a :: a in recStack <==> a in path) &&
    (forall a :: a in visited <==> a in path || a in done) &&
    (forall a | a in path :: a !in done)
  }

  lemma Enter(g: Graph, visited: set<Client>, recStack: set<Client>, path: seq<Client>,
              done: seq<Client>, node: Client)
    requires SearchOk(g, visited, recStack, path, done)
    requires node in Nodes(g) && node !in visited
    requires path != [] ==> Edge(g, path[|path| - 1], node)
    ensures SearchOk(g, visited + {node}, recStack + {node}, path + [node], done)
  {
  }

  lemma FewerLeft(all: set<Client>, visited: set<Client>, node: Client)
    requires node in all && node !in visited
    ensures |all - (visited + {node})| < |all - visited|
  {
    assert all - visited == all - (visited + {node}) + {node};
  }

  lemma Leave(g: Graph, visited: set<Client>, recStack: set<Client>, path: seq<Client>,
              done: seq<Client>, node: Client)
    requires SearchOk(g, visited, recStack, path + [node], done)
    requires forall b | Edge(g, node, b) :: b in done
    ensures SearchOk(g, visited, recStack - {node}, path, done + [node])
  {
    var longer, order := path + [node], done + [node];
    assert longer[|path|] == node;
    assert forall i | 0 <= i < |path| :: longer[i] == path[i];
    assert forall i | 0 <= i < |done| :: order[i] == done[i] && order[..i] == done[..i];
    assert order[..|done|] == done;
    assert forall a :: a in longer <==> a in path || a == node;
    assert forall a :: a in order <==> a in done || a == node;
    assert node !in path;
  }

  lemma ClosingEdge(g: Graph, visited: set<Client>, recStack: set<Client>, path: seq<Client>,
                    done: seq<Client>, start: nat)
    requires SearchOk(g, visited, recStack, path, done) && start < |path|
    requires Edge(g, path[|path| - 1], path[start])
    ensures IsCycle(g, path[start..])
  {
  }

  /** The state one search shares between its recursive calls. */
  class Search {
    const graph: Graph
    var visited: set<Client>
    var recStack: set<Client>
    var path: seq<Client>
    ghost var done: seq<Client>

    ghost predicate Valid()
      reads this
    {
      SearchOk(graph, visited, recStack, path, done)
    }

    constructor (graph: Graph)
      ensures Valid() && this.graph == graph && path == [] && done == []
    {
      this.graph := graph;
      visited, recStack, path, done := {}, {}, [], [];
    }

    /** Explores everything reachable from `node`. Without a cycle it leaves the path as it
        was and `node` finished; with one, it returns a cycle. */
    method Dfs(node: Client) returns (cycle: Option<seq<Client>>)
      requires Valid() && node in Nodes(graph) && node !in visited
      requires path != [] ==> Edge(graph, path[|path| - 1], node)
      modifies this
      ensures cycle.Some? ==> IsCycle(graph, cycle.value)
      ensures cycle.None? ==> Valid() && path == old(path) && node in done
      ensures cycle.None? ==> old(visited) <= visited && forall a | a in old(done) :: a in done
      decreases |Nodes(graph) - visited|
    {
      hide SearchOk, Nodes, IsCycle, Ordered, Distinct;
      Enter(graph, visited, recStack, path, done, node);
      FewerLeft(Nodes(graph), visited, node);
      visited := visited + {node};
      recStack := recStack + {node};
      path := path + [node];
      var rest := if node in graph then graph[node] else {};
      while rest != {}
        invariant Valid() && path == old(path) + [node]
        invariant old(visited) + {node} <= visited && forall a | a in old(done) :: a in done
        invariant forall b | Edge(graph, node, b) :: b in rest || b in done
        invariant forall b | b in rest :: Edge(graph, node, b)
        decreases rest
      {
        var neighbor :| neighbor in rest;
        rest := rest - {neighbor};
        Seen(graph, visited, recStack, path, done, node, neighbor);
        if neighbor !in visited {
          MoreVisited(Nodes(graph), old(visited) + {node}, visited);
          var result := Dfs(neighbor);
          if result.Some? {
            return result;
          }
        } else if neighbor in recStack {
          var start := IndexOf(path, neighbor);
          ClosingEdge(graph, visited, recStack, path, done, start);
          return Some(path[start..]);
        }
      }
      Leave(graph, visited, recStack, old(path), done, node);
      path := path[..|path| - 1];
      assert path == old(path);
      recStack := recStack - {node};
      done := done + [node];
      return None;
    }
  }

  lemma Seen(g: Graph, visited: set<Client>, recStack: set<Client>, path: seq<Client>,
             done: seq<Client>, a: Client, b: Client)
    requires SearchOk(g, visited, recStack, path, done) && Edge(g, a, b)
    ensures b in Nodes(g)
    ensures b in visited ==> b in done || b in recStack
    ensures b in recStack ==> b in path
  {
  }

  lemma MoreVisited(all: set<Client>, a: set<Client>, b: set<Client>)
    requires a <= b
    ensures |all - b| <= |all - a|
  {
    assert all - a == (all - b) + ((all - a) * b);
  }

  method IndexOf(s: seq<Client>, a: Client) returns (i: nat)
    requires a in s
    ensures i < |s| && s[i] == a && a !in s[..i]
  {
    i := 0;
    while s[i] != a
      invariant i < |s| && a !in s[..i]
      decreases |s| - i
    {
      i := i + 1;
    }
  }

  /** Returns a simple cycle if the graph has any cycle at all, and nothing otherwise. */
  method DetectCycle(g: Graph) returns (cycle: Option<seq<Client>>)
    ensures cycle.Some? ==> IsCycle(g, cycle.value)
    ensures cycle.None? ==> forall c :: !IsClosedWalk(g, c)
  {
    var search := new Search(g);
    var rest := g.Keys;
    while rest != {}
      invariant search.Valid() && search.graph == g && search.path == []
      invariant fresh(search)
      invariant forall a | a in g :: a in rest || a in search.done
      decreases rest
    {
      var node :| node in rest;
      rest := rest - {node};
      if node !in search.visited {
        var result := search.Dfs(node);
        if result.Some? {
          return result;
        }
      }
    }
    forall c ensures !IsClosedWalk(g, c) {
      OrderedIsAcyclic(g, search.done, c);
    }
    return None;
  }
}
