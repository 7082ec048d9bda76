/** Cycle detection over the enabled modules: a depth-first search with two mutable sets. */
module Dependencies {
  import opened Wrappers

  /** The enabled modules, and what the release metadata says each module requires. */
  datatype Graph = Graph(nodes: set<string>, requirements: map<string, set<string>>)
  {
    /** Every enabled module has metadata. */
    predicate Known() {
      nodes <= requirements.Keys
    }

    predicate Edge(a: string, b: string) {
      a in nodes && b in nodes && a in requirements && b in requirements[a]
    }

    ghost predicate Path(p: seq<string>) {
      forall i | 0 <= i < |p| - 1 :: Edge(p[i], p[i + 1])
    }

    ghost predicate OnCycle(m: string) {
      exists p :: |p| >= 2 && p[0] == m && p[|p| - 1] == m && Path(p)
    }

    ghost predicate Acyclic() {
      forall m :: !OnCycle(m)
    }

    /** Each module listed after everything it requires. */
    ghost predicate Topological(order: seq<string>) {
      forall i, d | 0 <= i < |order| && Edge(order[i], d) :: d in order[..i]
    }
  }

  predicate Distinct(s: seq<string>) {
    forall i, j | 0 <= i < j < |s| :: s[i] != s[j]
  }

  function IndexOf(s: seq<string>, m: string): (i: nat)
    requires m in s
    ensures i < |s| && s[i] == m
  {
    if s[0] == m then 0 else 1 + IndexOf(s[1..], m)
  }

  lemma DistinctIndex(s: seq<string>, i: nat)
    requires Distinct(s) && i < |s|
    ensures IndexOf(s, s[i]) == i
  {
  }

  lemma EdgeDescends(g: Graph, order: seq<string>, a: string, b: string)
    requires Distinct(order) && g.Topological(order) && a in order && g.Edge(a, b)
    ensures b in order && IndexOf(order, b) < IndexOf(order, a)
  {
    var i := IndexOf(order, a);
    assert b in order[..i];
    var j :| 0 <= j < i && order[..i][j] == b;
    DistinctIndex(order, j);
  }

  lemma {:induction false} PathDescends(g: Graph, order: seq<string>, p: seq<string>)
    requires Distinct(order) && g.Topological(order) && |p| >= 2 && g.Path(p) && p[0] in order
    ensures p[|p| - 1] in order && IndexOf(order, p[|p| - 1]) < IndexOf(order, p[0])
    decreases |p|
  {
    EdgeDescends(g, order, p[0], p[1]);
    if |p| > 2 {
      forall i | 0 <= i < |p[1..]| - 1
        ensures g.Edge(p[1..][i], p[1..][i + 1])
      {
        assert p[1..][i] == p[i + 1] && p[1..][i + 1] == p[i + 2];
      }
      PathDescends(g, order, p[1..]);
    }
  }

  /** A graph whose nodes can be listed dependencies first has no cycle. */
  lemma TopologicalMeansAcyclic(g: Graph, order: seq<string>)
    requires Distinct(order) && g.Topological(order) && forall m | m in g.nodes :: m in order
    ensures g.Acyclic()
  {
    forall m | g.OnCycle(m)
      ensures false
    {
      var p :| |p| >= 2 && p[0] == m && p[|p| - 1] == m && g.Path(p);
      assert g.Edge(p[0], p[1]);
      PathDescends(g, order, p);
    }
  }

  lemma LastDropped(outer: seq<string>, m: string)
    requires Distinct(outer + [m])
    ensures Distinct(outer) && m !in outer
    ensures forall x :: x in outer + [m] <==> x in outer || x == m
  {
    var s := outer + [m];
    assert forall i | 0 <= i < |outer| :: s[i] == outer[i] && s[i] != s[|outer|];
  }

  lemma TopologicalAppends(g: Graph, order: seq<string>, m: string)
    requires g.Topological(order)
    requires forall d | g.Edge(m, d) :: d in order
    ensures g.Topological(order + [m])
  {
    var s := order + [m];
    forall i, d | 0 <= i < |s| && g.Edge(s[i], d)
      ensures d in s[..i]
    {
      if i < |order| {
        assert s[..i] == order[..i] && s[i] == order[i];
      } else {
        assert s[..i] == order;
      }
    }
  }

  lemma PathPrefix(g: Graph, outer: seq<string>, m: string)
    requires g.Path(outer + [m])
    ensures g.Path(outer)
  {
    forall i | 0 <= i < |outer| - 1
      ensures g.Edge(outer[i], outer[i + 1])
    {
      assert (outer + [m])[i] == outer[i] && (outer + [m])[i + 1] == outer[i + 1];
    }
  }

  lemma FewerUnvisited(nodes: set<string>, visiting: set<string>, m: string)
    requires m in nodes && m !in visiting
    ensures |nodes - (visiting + {m})| < |nodes - visiting|
  {
    assert nodes - visiting == nodes - (visiting + {m}) + {m};
  }

  class DependencySearch {
    const graph: Graph
    var visiting: set<string>
    var visited: set<string>

    /** The call stack, the modules in the order their visits finished, and those ever expanded. */
    ghost var stack: seq<string>
    ghost var finished: seq<string>
    ghost var expanded: seq<string>

    ghost predicate Valid()
      reads this
    {
      && graph.Known()
      && Distinct(stack) && (forall m :: m in stack <==> m in visiting)
      && Distinct(finished) && (forall m :: m in finished <==> m in visited)
      && Distinct(expanded) && (forall m :: m in expanded <==> m in visiting || m in visited)
      && visiting !! visited && visiting <= graph.nodes && visited <= graph.nodes
      && graph.Path(stack)
      && graph.Topological(finished)
    }

    constructor (graph: Graph)
      requires graph.Known()
      ensures Valid() && this.graph == graph && visiting == {} && visited == {} && stack == []
    {
      this.graph := graph;
      visiting, visited := {}, {};
      stack, finished, expanded := [], [], [];
    }

    /** Closes the cycle from an occurrence on the stack. */
    lemma StackCloses(m: string)
      requires Valid() && m in visiting && graph.Edge(stack[|stack| - 1], m)
      ensures graph.OnCycle(m)
    {
      var k := IndexOf(stack, m);
      var p := stack[k..] + [m];
      forall i | 0 <= i < |p| - 1
        ensures graph.Edge(p[i], p[i + 1])
      {
        if i < |p| - 2 {
          assert p[i] == stack[k + i] && p[i + 1] == stack[k + i + 1];
        }
      }
      assert graph.Path(p);
    }

    method Visit(m: string) returns (result: Result<(), string>)
      requires Valid() && m in graph.nodes
      requires stack != [] ==> graph.Edge(stack[|stack| - 1], m)
      requires stack == [] ==> visiting == {}
      modifies this
      ensures Distinct(expanded) && forall x | x in expanded :: x in graph.nodes
      ensures result.Ok? ==>
                && Valid() && visiting == old(visiting) && stack == old(stack)
                && old(visited) <= visited && m in visited
      ensures result.Err? ==> graph.OnCycle(result.error)
      decreases |graph.nodes - visiting|, 0
    {
      if m in visited {
        return Ok(());
      }
      if m in visiting {
        StackCloses(m);
        return Err(m);
      }
      ghost var outer := stack;
      FewerUnvisited(graph.nodes, visiting, m);
      Enter(m);
      result := VisitRequirements(m, outer);
      if result.Ok? {
        Leave(m, outer);
      }
    }

    /** The loop over the required dependencies of the module just entered. */
    method VisitRequirements(m: string, ghost outer: seq<string>) returns (result: Result<(), string>)
      requires Valid() && m in graph.nodes && stack == outer + [m]
      modifies this
      ensures Distinct(expanded) && forall x | x in expanded :: x in graph.nodes
      ensures result.Ok? ==>
                && Valid() && visiting == old(visiting) && stack == old(stack) && old(visited) <= visited
                && forall d | graph.Edge(m, d) :: d in visited
      ensures result.Err? ==> graph.OnCycle(result.error)
      decreases |graph.nodes - visiting|, 1
    {
      var todo := graph.requirements[m];
      while todo != {}
        invariant Valid() && stack == old(stack) && visiting == old(visiting)
        invariant old(visited) <= visited && todo <= graph.requirements[m]
        invariant forall d | d in graph.requirements[m] - todo && d in graph.nodes :: d in visited
        decreases |todo|
      {
        var dependency :| dependency in todo;
        todo := todo - {dependency};
        if dependency in graph.nodes {
          result := Visit(dependency);
          if result.Err? {
            return;
          }
        }
      }
      result := Ok(());
    }

    /** visiting.insert(module_id) */
    method Enter(m: string)
      requires Valid() && m in graph.nodes && m !in visiting && m !in visited
      requires stack != [] ==> graph.Edge(stack[|stack| - 1], m)
      modifies this
      ensures Valid() && stack == old(stack) + [m] && visiting == old(visiting) + {m} && visited == old(visited)
    {
      visiting := visiting + {m};
      stack, expanded := stack + [m], expanded + [m];
    }

    /** visiting.remove(module_id); visited.insert(module_id) */
    method Leave(m: string, ghost outer: seq<string>)
      requires Valid() && stack == outer + [m]
      requires forall d | graph.Edge(m, d) :: d in visited
      modifies this
      ensures Valid() && stack == outer && visiting == old(visiting) - {m} && visited == old(visited) + {m}
    {
      LastDropped(outer, m);
      PathPrefix(graph, outer, m);
      TopologicalAppends(graph, finished, m);
      visiting := visiting - {m};
      visited := visited + {m};
      stack, finished := outer, finished + [m];
    }
  }

  /**
   * Ok exactly when the enabled modules have no dependency cycle, and then with
   * every module listed after its dependencies; on an error, the module named
   * lies on a cycle.  No module is expanded twice.
   */
  method EnsureAcyclic(graph: Graph) returns (result: Result<(), string>, ghost order: seq<string>, ghost expanded: seq<string>)
    requires graph.Known()
    ensures result.Ok? <==> graph.Acyclic()
    ensures result.Ok? ==> Distinct(order) && graph.Topological(order) && forall m :: m in order <==> m in graph.nodes
    ensures result.Err? ==> graph.OnCycle(result.error)
    ensures Distinct(expanded) && forall m | m in expanded :: m in graph.nodes
  {
    var search := new DependencySearch(graph);
    var todo := graph.nodes;
    while todo != {}
      invariant search.Valid() && search.graph == graph && search.visiting == {} && search.stack == []
      invariant todo <= graph.nodes && graph.nodes - todo <= search.visited
      invariant fresh(search)
      decreases |todo|
    {
      var m :| m in todo;
      todo := todo - {m};
      result := search.Visit(m);
      if result.Err? {
        order, expanded := [], search.expanded;
        return;
      }
    }
    TopologicalMeansAcyclic(graph, search.finished);
    result, order, expanded := Ok(()), search.finished, search.expanded;
  }
}
