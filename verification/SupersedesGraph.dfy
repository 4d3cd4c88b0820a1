/** The relation check of `LongTermMemoryDocument.validate_document`: a depth-first
    walk with a `visiting` and a `visited` set, against the definition of acyclicity. */
module SupersedesGraph {

  type Graph<T(==)> = map<T, seq<T>>

  /** Every `supersedes` target is itself a node. */
  predicate Closed<T(==)>(g: Graph<T>) {
    forall n, t | n in g && t in g[n] :: t in g
  }

  ghost predicate IsPath<T>(g: Graph<T>, p: seq<T>) {
    && |p| >= 1
    && (forall i | 0 <= i < |p| :: p[i] in g)
    && (forall i | 0 <= i < |p| - 1 :: p[i + 1] in g[p[i]])
  }

  ghost predicate IsCycle<T>(g: Graph<T>, p: seq<T>) {
    IsPath(g, p) && |p| >= 2 && p[0] == p[|p| - 1]
  }

  ghost predicate Acyclic<T(!new)>(g: Graph<T>) {
    forall p: seq<T> :: !IsCycle(g, p)
  }

  /** `order` lists nodes so that every edge points to an earlier node. */
  ghost predicate Finished<T>(g: Graph<T>, order: seq<T>) {
    forall i | 0 <= i < |order| ::
      order[i] in g && forall t | t in g[order[i]] :: t in order[..i]
  }

  /** Along a path the positions in a finished order can be chosen to fall strictly. */
  lemma {:induction false} PathDescends<T>(g: Graph<T>, order: seq<T>, p: seq<T>, i: nat)
    returns (j: nat)
    requires Finished(g, order) && IsPath(g, p)
    requires i < |order| && order[i] == p[0]
    ensures j < |order| && order[j] == p[|p| - 1]
    ensures j <= i && (|p| >= 2 ==> j < i)
    decreases |p|
  {
    if |p| == 1 {
      j := i;
    } else {
      assert p[1] in g[p[0]];
      var k :| 0 <= k < i && order[k] == p[1];
      j := PathDescends(g, order, p[1..], k);
    }
  }

  /** First position of a node, so that a node has one position even if it were listed twice. */
  lemma {:induction false} FirstPosition<T>(order: seq<T>, n: T) returns (i: nat)
    requires n in order
    ensures i < |order| && order[i] == n && n !in order[..i]
  {
    if n in order[..|order| - 1] {
      i := FirstPosition(order[..|order| - 1], n);
      assert order[..|order| - 1][..i] == order[..i];
    } else {
      i := |order| - 1;
    }
  }

  lemma {:induction false} FinishedIsAcyclic<T(!new)>(g: Graph<T>, order: seq<T>)
    requires Finished(g, order)
    requires forall n | n in g :: n in order
    ensures Acyclic(g)
  {
    forall p: seq<T> ensures !IsCycle(g, p) {
      if IsCycle(g, p) {
        var i := FirstPosition(order, p[0]);
        var j := PathDescends(g, order, p, i);
        assert false;
      }
    }
  }

  /** The state of one `validate_document` call. `stack` and `finished` are the ghost
      orders in which nodes entered `visiting` and `visited`. */
  class CycleVisitor<T(==, !new)> {
    const graph: Graph<T>
    var visiting: set<T>
    var visited: set<T>
    ghost var stack: seq<T>
    ghost var finished: seq<T>

    ghost predicate Valid()
      reads this
    {
      && Closed(graph)
      && visiting == (set n | n in stack)
      && visited == (set n | n in finished)
      && visiting !! visited
      && visiting <= graph.Keys
      && (stack != [] ==> IsPath(graph, stack))
      && Finished(graph, finished)
    }

    constructor (graph: Graph<T>)
      requires Closed(graph)
      ensures Valid() && fresh(this)
      ensures this.graph == graph && visiting == {} && visited == {} && stack == []
    {
      this.graph := graph;
      visiting, visited := {}, {};
      stack, finished := [], [];
    }

    method Visit(n: T) returns (ok: bool)
      requires Valid() && n in graph
      requires stack != [] ==> n in graph[stack[|stack| - 1]]
      modifies this`visiting, this`visited, this`stack, this`finished
      ensures ok ==> Valid() && n in visited && old(visited) <= visited
      ensures ok ==> stack == old(stack) && visiting == old(visiting)
      ensures !ok ==> !Acyclic(graph)
      decreases graph.Keys - visiting
    {
      if n in visiting {
        ghost var k :| 0 <= k < |stack| && stack[k] == n;
        assert IsCycle(graph, stack[k..] + [n]);
        return false;
      }
      if n in visited {
        return true;
      }
      ghost var outer := stack;
      visiting := visiting + {n};
      stack := stack + [n];
      var targets := graph[n];
      for i := 0 to |targets|
        invariant Valid() && stack == outer + [n] && visiting == old(visiting) + {n}
        invariant old(visited) <= visited && n !in visited
        invariant forall j | 0 <= j < i :: targets[j] in visited
      {
        assert targets[i] in graph[n];
        assert stack[|stack| - 1] == n;
        ok := Visit(targets[i]);
        if !ok {
          return false;
        }
        assert n in visiting;
      }
      assert forall t | t in graph[n] :: t in finished;
      visiting := visiting - {n};
      stack := outer;
      visited := visited + {n};
      finished := finished + [n];
      assert finished[..|finished| - 1] + [n] == finished;
      assert n in finished;
      assert outer != [] ==> IsPath(graph, outer);
      return true;
    }
  }

  /** The loop over all nodes, in whatever order the document lists them. */
  method NoCycle<T(==, !new)>(graph: Graph<T>, nodes: seq<T>) returns (ok: bool)
    requires Closed(graph)
    requires forall n | n in nodes :: n in graph
    requires forall n | n in graph :: n in nodes
    ensures ok <==> Acyclic(graph)
  {
    var walk := new CycleVisitor(graph);
    for i := 0 to |nodes|
      invariant walk.Valid() && walk.stack == [] && walk.visiting == {} && walk.graph == graph
      invariant forall j | 0 <= j < i :: nodes[j] in walk.visited
    {
      ok := walk.Visit(nodes[i]);
      if !ok {
        return false;
      }
    }
    assert forall n | n in graph :: n in walk.finished;
    FinishedIsAcyclic(graph, walk.finished);
    return true;
  }
}
