/** The routing engine's check for cycles among produced and consumed tags: a depth-first walk with
 *  the current path as its only memory. */
module Routing {
  import opened Bytes

  /** A tag of a controller. */
  datatype Point = Point(controller: nat, tag: nat)

  datatype Route = Route(id: nat, source: Point, destination: Point)

  type Graph = map<Point, seq<Point>>

  // ----- cycles -----

  predicate Edge(routes: seq<Route>, a: Point, b: Point) {
    exists r | r in routes :: r.source == a && r.destination == b
  }

  /** A walk along routes. */
  predicate Walk(routes: seq<Route>, p: seq<Point>) {
    p != [] && forall k | 0 <= k < |p| - 1 :: Edge(routes, p[k], p[k + 1])
  }

  /** A walk of at least one route that ends where it starts. */
  predicate Cycle(routes: seq<Route>, p: seq<Point>) {
    Walk(routes, p) && |p| >= 2 && p[0] == p[|p| - 1]
  }

  ghost predicate Cyclic(routes: seq<Route>) {
    exists p :: Cycle(routes, p)
  }

  // ----- the graph -----

  function Successors(g: Graph, n: Point): seq<Point> {
    if n in g then g[n] else []
  }

  /** `graph.setdefault(source, []).append(destination)`. */
  function AddRoute(g: Graph, r: Route): Graph {
    g[r.source := Successors(g, r.source) + [r.destination]]
  }

  function GraphOf(routes: seq<Route>): Graph {
    if routes == [] then map[] else AddRoute(GraphOf(routes[..|routes| - 1]), routes[|routes| - 1])
  }

  lemma {:induction false} GraphIsRoutes(routes: seq<Route>, a: Point, b: Point)
    ensures b in Successors(GraphOf(routes), a) <==> Edge(routes, a, b)
    ensures a in GraphOf(routes) <==> exists r :: r in routes && r.source == a
    decreases |routes|
  {
    if routes != [] {
      var front, last := routes[..|routes| - 1], routes[|routes| - 1];
      assert routes == front + [last];
      GraphIsRoutes(front, a, b);
    }
  }

  // ----- the walk -----

  /** `visit`: false where it raises. */
  predicate Visit(g: Graph, n: Point, path: set<Point>)
    decreases g.Keys - path
  {
    n !in path && (n in g ==> assert n in g.Keys - path; forall x | x in g[n] :: Visit(g, x, path + {n}))
  }

  /** Where a visit raises, a walk leads from the point into the path or to a point it has passed. */
  predicate Returns(p: seq<Point>, path: set<Point>) {
    p != [] && (p[|p| - 1] in path || exists k | 0 <= k < |p| - 1 :: p[k] == p[|p| - 1])
  }

  lemma {:induction false} RaiseHasWalk(routes: seq<Route>, n: Point, path: set<Point>) returns (p: seq<Point>)
    requires !Visit(GraphOf(routes), n, path)
    ensures Walk(routes, p) && p[0] == n && Returns(p, path)
    decreases GraphOf(routes).Keys - path
  {
    var g := GraphOf(routes);
    if n in path {
      p := [n];
    } else {
      var deeper := path + {n};
      assert n in g.Keys - path && n !in g.Keys - deeper;
      var x :| x in g[n] && !Visit(g, x, deeper);
      GraphIsRoutes(routes, n, x);
      var rest := RaiseHasWalk(routes, x, deeper);
      p := [n] + rest;
      forall k | 0 <= k < |p| - 1
        ensures Edge(routes, p[k], p[k + 1])
      {
        if k > 0 {
          assert Edge(routes, rest[k - 1], rest[k]);
        }
      }
      var last := p[|p| - 1];
      assert last == rest[|rest| - 1];
      if last == n {
        assert p[0] == last;
      } else if last !in path {
        var k :| 0 <= k < |rest| - 1 && rest[k] == rest[|rest| - 1];
        assert p[k + 1] == last;
      }
    }
  }

  /** A walk that returns to itself contains a cycle. */
  lemma {:induction false} ReturnIsCycle(routes: seq<Route>, p: seq<Point>)
    requires Walk(routes, p) && Returns(p, {})
    ensures Cyclic(routes)
  {
    var k :| 0 <= k < |p| - 1 && p[k] == p[|p| - 1];
    var c := p[k..];
    forall j | 0 <= j < |c| - 1
      ensures Edge(routes, c[j], c[j + 1])
    {
      assert Edge(routes, p[k + j], p[k + j + 1]);
    }
    assert Cycle(routes, c);
  }

  function Members(p: seq<Point>): set<Point> {
    set x | x in p
  }

  /** Visits along a walk succeed one after the other only as long as the walk does not return. */
  lemma {:induction false} VisitsFollow(routes: seq<Route>, p: seq<Point>, k: nat)
    requires Walk(routes, p) && k < |p| && Visit(GraphOf(routes), p[0], {})
    ensures Visit(GraphOf(routes), p[k], Members(p[..k]))
    decreases k
  {
    var g := GraphOf(routes);
    if k == 0 {
      assert Members(p[..0]) == {};
    } else {
      VisitsFollow(routes, p, k - 1);
      var a, path := p[k - 1], Members(p[..k - 1]);
      assert Edge(routes, p[k - 1], p[k - 1 + 1]);
      GraphIsRoutes(routes, a, p[k]);
      assert p[..k] == p[..k - 1] + [a];
      assert Members(p[..k]) == path + {a};
    }
  }

  lemma {:induction false} CycleIsSeen(routes: seq<Route>, p: seq<Point>)
    requires Cycle(routes, p)
    ensures p[0] in GraphOf(routes) && !Visit(GraphOf(routes), p[0], {})
  {
    var last := |p| - 1;
    assert Edge(routes, p[0], p[0 + 1]);
    GraphIsRoutes(routes, p[0], p[1]);
    assert p[..last][0] == p[0] && p[0] in Members(p[..last]);
    if Visit(GraphOf(routes), p[0], {}) {
      VisitsFollow(routes, p, last);
    }
  }

  /** Cycle detection is exact: every visit from a point of the graph succeeds if and only if there
   *  is no cycle. */
  lemma {:induction false} VisitsDecideCycles(routes: seq<Route>)
    ensures (forall n | n in GraphOf(routes) :: Visit(GraphOf(routes), n, {})) <==> !Cyclic(routes)
  {
    var g := GraphOf(routes);
    if n :| n in g && !Visit(g, n, {}) {
      var p := RaiseHasWalk(routes, n, {});
      ReturnIsCycle(routes, p);
    }
    if p :| Cycle(routes, p) {
      CycleIsSeen(routes, p);
    }
  }

  // ----- the engine -----

  datatype Diagnostics = Diagnostics(routeSequence: nat, staleCount: nat, writeFailureCount: nat)

  predicate SelfLoop(r: Route) {
    r.source == r.destination
  }

  /** The table with some routes entered in order. */
  function Entered(table: map<nat, Route>, routes: seq<Route>): map<nat, Route> {
    if routes == [] then table
    else
      var last := routes[|routes| - 1];
      Entered(table, routes[..|routes| - 1])[last.id := last]
  }

  class RoutingEngine {
    var routes: map<nat, Route>
    var diagnostics: map<nat, Diagnostics>

    constructor ()
      ensures routes == map[] && diagnostics == map[]
    {
      routes, diagnostics := map[], map[];
    }

    /** `visit`. */
    method VisitFrom(g: Graph, n: Point, path: set<Point>) returns (ok: bool)
      ensures ok <==> Visit(g, n, path)
      decreases g.Keys - path
    {
      if n in path {
        return false;
      }
      ok := true;
      if n in g {
        var next, k := g[n], 0;
        assert n in g.Keys - path && n !in g.Keys - (path + {n});
        while k < |next|
          invariant 0 <= k <= |next| && forall j | 0 <= j < k :: Visit(g, next[j], path + {n})
        {
          var fine := VisitFrom(g, next[k], path + {n});
          if !fine {
            assert next[k] in next;
            return false;
          }
          k := k + 1;
        }
      }
    }

    /** `configure`: it terminates, and it returns normally exactly when the routes have no cycle.
     *  The routes read before the exception stay entered. */
    method Configure(rs: seq<Route>) returns (ok: bool)
      modifies this
      ensures ok <==> !Cyclic(rs)
      ensures (forall r | r in rs :: !SelfLoop(r)) ==> routes == Entered(old(routes), rs)
      ensures forall k | 0 <= k < |rs| && SelfLoop(rs[k])
              && (forall j | 0 <= j < k :: !SelfLoop(rs[j])) :: routes == Entered(old(routes), rs[..k])
    {
      var graph: Graph := map[];
      var k := 0;
      while k < |rs|
        invariant 0 <= k <= |rs| && graph == GraphOf(rs[..k]) && routes == Entered(old(routes), rs[..k])
        invariant forall j | 0 <= j < k :: !SelfLoop(rs[j])
      {
        var r := rs[k];
        if r.destination == r.source {
          SelfLoopIsCycle(rs, r);
          return false;
        }
        assert rs[..k + 1][..k] == rs[..k];
        graph := AddRoute(graph, r);
        routes := routes[r.id := r];
        diagnostics := diagnostics[r.id := Diagnostics(0, 0, 0)];
        k := k + 1;
      }
      assert rs[..k] == rs;
      VisitsDecideCycles(rs);
      var left := graph.Keys;
      while left != {}
        invariant left <= graph.Keys && forall n | n in graph.Keys - left :: Visit(graph, n, {})
        invariant routes == Entered(old(routes), rs)
        decreases left
      {
        var n :| n in left;
        var fine := VisitFrom(graph, n, {});
        if !fine {
          return false;
        }
        left := left - {n};
      }
      ok := true;
    }
  }

  lemma {:induction false} SelfLoopIsCycle(rs: seq<Route>, r: Route)
    requires r in rs && r.source == r.destination
    ensures Cyclic(rs)
  {
    var p := [r.source, r.source];
    assert Edge(rs, p[0], p[1]);
    assert Cycle(rs, p);
  }
}
