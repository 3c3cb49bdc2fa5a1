/** Shortest paths over hash tables keyed by nodes, as the flow generator computes them, and the
    reconstruction of the links along a path. */
module ShortestPaths {
  import opened Collections

  datatype Edge<T> = Edge(src: T, dst: T, weight: real)

  // A number or Float::INFINITY.
  datatype Dist = Fin(d: real) | Inf

  predicate Less(a: Dist, b: Dist)
  {
    a.Fin? && (b.Inf? || a.d < b.d)
  }

  function Plus(a: Dist, b: Dist): Dist { if a.Fin? && b.Fin? then Fin(a.d + b.d) else Inf }

  // ---------- The graph ----------

  /** The weight in force from a to b: a later row of the graph replaces an earlier one. */
  function Weight<T(==)>(edges: seq<Edge<T>>, a: T, b: T): Option<real>
  {
    if edges == [] then None
    else
      var last := edges[|edges| - 1];
      if last.src == a && last.dst == b then Some(last.weight) else Weight(edges[..|edges| - 1], a, b)
  }

  function Road<T(==)>(edges: seq<Edge<T>>, a: T, b: T): Dist
  {
    match Weight(edges, a, b)
    case Some(c) => Fin(c)
    case None => if a == b then Fin(0.0) else Inf
  }

  ghost predicate NonNegative<T>(edges: seq<Edge<T>>) { forall e :: e in edges ==> e.weight >= 0.0 }

  lemma {:induction false} WeightIsEdge<T>(edges: seq<Edge<T>>, a: T, b: T)
    requires Weight(edges, a, b).Some?
    ensures Edge(a, b, Weight(edges, a, b).value) in edges
  {
    var last := edges[|edges| - 1];
    if !(last.src == a && last.dst == b) { WeightIsEdge(edges[..|edges| - 1], a, b); }
  }

  lemma {:induction false} EdgeHasWeight<T>(edges: seq<Edge<T>>, e: Edge<T>)
    requires e in edges
    ensures Weight(edges, e.src, e.dst).Some?
  {
    var n := |edges| - 1;
    if !(edges[n].src == e.src && edges[n].dst == e.dst) { EdgeHasWeight(edges[..n], e); }
  }

  /** The weight in force is that of the last row for the pair. */
  lemma {:induction false} LastRowCounts<T>(edges: seq<Edge<T>>, a: T, b: T, c: real)
    ensures Weight(edges, a, b) == Some(c) <==>
      exists i :: 0 <= i < |edges| && edges[i] == Edge(a, b, c) &&
        forall j :: i < j < |edges| ==> edges[j].src != a || edges[j].dst != b
  {
    if edges != [] {
      var n := |edges| - 1;
      if edges[n].src == a && edges[n].dst == b {
        assert edges[n] == Edge(a, b, edges[n].weight);
      } else {
        LastRowCounts(edges[..n], a, b, c);
        if Weight(edges[..n], a, b) == Some(c) {
          var i :| 0 <= i < n && edges[..n][i] == Edge(a, b, c) &&
            forall j :: i < j < n ==> edges[..n][j].src != a || edges[..n][j].dst != b;
          assert edges[i] == Edge(a, b, c) && forall j :: i < j < n ==> edges[..n][j] == edges[j];
        } else {
          assert forall i :: 0 <= i < n ==> edges[..n][i] == edges[i];
        }
      }
    }
  }

  /** Where every ordered pair has one weight, the weights in force are the edges. */
  lemma OneWeightPerPair<T>(edges: seq<Edge<T>>, a: T, b: T, c: real)
    requires forall e, e' :: e in edges && e' in edges && e.src == e'.src && e.dst == e'.dst ==> e.weight == e'.weight
    ensures Weight(edges, a, b) == Some(c) <==> Edge(a, b, c) in edges
  {
    if Weight(edges, a, b).Some? { WeightIsEdge(edges, a, b); }
    if Edge(a, b, c) in edges { EdgeHasWeight(edges, Edge(a, b, c)); }
  }

  predicate IsWalk<T(==)>(edges: seq<Edge<T>>, w: seq<T>)
  {
    |w| > 0 && forall i :: 0 <= i < |w| - 1 ==> Weight(edges, w[i], w[i + 1]).Some?
  }

  predicate From<T(==)>(edges: seq<Edge<T>>, w: seq<T>, a: T, b: T)
  {
    IsWalk(edges, w) && w[0] == a && w[|w| - 1] == b
  }

  function Length<T(==)>(edges: seq<Edge<T>>, w: seq<T>): real
    requires IsWalk(edges, w)
  {
    if |w| == 1 then 0.0
    else
      var n := |w| - 1;
      assert Weight(edges, w[n - 1], w[n - 1 + 1]).Some?;
      Length(edges, w[..n]) + Weight(edges, w[n - 1], w[n]).value
  }

  lemma {:induction false} LengthNonNegative<T>(edges: seq<Edge<T>>, w: seq<T>)
    requires NonNegative(edges) && IsWalk(edges, w)
    ensures Length(edges, w) >= 0.0
  {
    if |w| > 1 {
      var n := |w| - 1;
      assert Weight(edges, w[n - 1], w[n - 1 + 1]).Some?;
      WeightIsEdge(edges, w[n - 1], w[n]);
      LengthNonNegative(edges, w[..n]);
    }
  }

  lemma {:induction false} PrefixShorter<T>(edges: seq<Edge<T>>, w: seq<T>, n: nat)
    requires NonNegative(edges) && IsWalk(edges, w) && 0 < n <= |w|
    ensures IsWalk(edges, w[..n]) && Length(edges, w[..n]) <= Length(edges, w)
    decreases |w|
  {
    if n == |w| {
      assert w[..n] == w;
    } else {
      var m := |w| - 1;
      assert Weight(edges, w[m - 1], w[m - 1 + 1]).Some?;
      WeightIsEdge(edges, w[m - 1], w[m]);
      PrefixShorter(edges, w[..m], n);
      assert w[..m][..n] == w[..n];
    }
  }

  /** d is the length of a shortest walk from a to b; infinity when there is no walk. */
  ghost predicate Shortest<T(!new)>(edges: seq<Edge<T>>, a: T, b: T, d: Dist)
  {
    match d
    case Fin(x) =>
      && (exists w: seq<T> :: From(edges, w, a, b) && Length(edges, w) == x)
      && (forall w: seq<T> :: From(edges, w, a, b) ==> x <= Length(edges, w))
    case Inf => forall w: seq<T> :: !From(edges, w, a, b)
  }

  // ---------- What the tables say ----------

  // The distance used for a visited node; the start counts as 0 whatever its own row says.
  function Reached<T(==)>(start: T, r: map<T, Dist>, u: T): real
  {
    if u == start || u !in r || r[u].Inf? then 0.0 else r[u].d
  }

  ghost predicate Step<T>(edges: seq<Edge<T>>, start: T, r: map<T, Dist>, u: T, v: T)
  {
    v in r && r[v].Fin? && Weight(edges, u, v).Some? && r[v].d == Reached(start, r, u) + Weight(edges, u, v).value
  }

  /** Visited nodes in the order they were visited; each but the start was reached from an earlier one. */
  ghost predicate Visited<T>(edges: seq<Edge<T>>, start: T, r: map<T, Dist>, f: map<T, Option<T>>, order: seq<T>)
  {
    && order != [] && order[0] == start && start in f && f[start] == None
    && (forall i, j :: 0 <= i < j < |order| ==> order[i] != order[j])
    && (forall k :: 0 < k < |order| ==>
          order[k] in f && f[order[k]].Some? && f[order[k]].value in order[..k] &&
            Step(edges, start, r, f[order[k]].value, order[k]))
  }

  ghost predicate LowerBound<T(!new)>(edges: seq<Edge<T>>, start: T, u: T, d: real)
  {
    forall w: seq<T> :: From(edges, w, start, u) ==> d <= Length(edges, w)
  }

  ghost predicate AllLower<T(!new)>(edges: seq<Edge<T>>, start: T, r: map<T, Dist>, order: seq<T>)
  {
    forall k :: 0 <= k < |order| ==> LowerBound(edges, start, order[k], Reached(start, r, order[k]))
  }

  /** A node outside is at its best distance through the visited ones. */
  ghost predicate Frontier<T>(edges: seq<Edge<T>>, start: T, r: map<T, Dist>, f: map<T, Option<T>>, order: seq<T>, v: T)
  {
    && v in r && v in f
    && (forall u :: u in order && Weight(edges, u, v).Some? ==>
      r[v].Fin? && r[v].d <= Reached(start, r, u) + Weight(edges, u, v).value)
    && (if r[v].Fin? then f[v].Some? && f[v].value in order && Step(edges, start, r, f[v].value, v) else f[v] == None)
  }

  ghost predicate Consistent<T(!new)>(edges: seq<Edge<T>>, nodes: seq<T>, start: T, r: map<T, Dist>,
      f: map<T, Option<T>>, order: seq<T>)
  {
    && Visited(edges, start, r, f, order)
    && (forall v :: v in order ==> v in nodes)
    && (start in r && r[start] == Road(edges, start, start))
    && AllLower(edges, start, r, order)
    && (forall v :: v in nodes && v !in order ==> Frontier(edges, start, r, f, order, v))
  }

  // Every edge ends at a listed node.
  ghost predicate Covers<T>(edges: seq<Edge<T>>, nodes: seq<T>)
  {
    forall e :: e in edges ==> e.src in nodes && e.dst in nodes
  }

  lemma {:induction false} Leaves<T>(w: seq<T>, inside: seq<T>) returns (i: nat)
    requires |w| > 0 && w[0] in inside && w[|w| - 1] !in inside
    ensures i + 1 < |w| && w[i] in inside && w[i + 1] !in inside
  {
    if w[|w| - 2] in inside { i := |w| - 2; } else { i := Leaves(w[..|w| - 1], inside); }
  }

  /** A walk to an unvisited node passes some unvisited x at no less than x's tentative distance. */
  lemma Crossing<T(!new)>(edges: seq<Edge<T>>, nodes: seq<T>, start: T, r: map<T, Dist>, f: map<T, Option<T>>,
      order: seq<T>, w: seq<T>) returns (x: T)
    requires Consistent(edges, nodes, start, r, f, order) && NonNegative(edges) && Covers(edges, nodes)
    requires IsWalk(edges, w) && w[0] == start && w[|w| - 1] !in order
    ensures x in nodes && x !in order && x in r && r[x].Fin? && r[x].d <= Length(edges, w)
  {
    var i := Leaves(w, order);
    x := w[i + 1];
    var u := w[i];
    assert Weight(edges, u, x).Some?;
    WeightIsEdge(edges, u, x);
    PrefixShorter(edges, w, i + 2);
    PrefixShorter(edges, w, i + 1);
    assert w[..i + 2][..i + 1] == w[..i + 1];
    assert From(edges, w[..i + 1], start, u);
    var k :| 0 <= k < |order| && order[k] == u;
    assert LowerBound(edges, start, order[k], Reached(start, r, order[k]));
    assert Frontier(edges, start, r, f, order, x);
  }

  /** The nearest unvisited node is at its final distance. */
  lemma NearestIsFinal<T(!new)>(edges: seq<Edge<T>>, nodes: seq<T>, start: T, r: map<T, Dist>, f: map<T, Option<T>>,
      order: seq<T>, m: T)
    requires Consistent(edges, nodes, start, r, f, order) && NonNegative(edges) && Covers(edges, nodes)
    requires m in nodes && m !in order && r[m].Fin?
    requires forall v :: v in nodes && v !in order && r[v].Fin? ==> r[m].d <= r[v].d
    ensures LowerBound(edges, start, m, Reached(start, r, m))
  {
    forall w: seq<T> | From(edges, w, start, m) ensures Reached(start, r, m) <= Length(edges, w) {
      var x := Crossing(edges, nodes, start, r, f, order, w);
    }
  }

  lemma VisitedNext<T(!new)>(edges: seq<Edge<T>>, nodes: seq<T>, start: T, r: map<T, Dist>, f: map<T, Option<T>>,
      order: seq<T>, m: T)
    requires Consistent(edges, nodes, start, r, f, order) && m in nodes && m !in order && r[m].Fin?
    requires LowerBound(edges, start, m, Reached(start, r, m))
    ensures Visited(edges, start, r, f, order + [m]) && AllLower(edges, start, r, order + [m])
  {
    assert Frontier(edges, start, r, f, order, m);
    var next := order + [m];
    forall k | 0 < k < |next|
      ensures next[k] in f && f[next[k]].Some? && f[next[k]].value in next[..k] &&
        Step(edges, start, r, f[next[k]].value, next[k])
    {
      if k < |order| { assert next[..k] == order[..k]; } else { assert next[..k] == order; }
    }
  }

  ghost predicate Distinct<T>(s: seq<T>) { forall i, j :: 0 <= i < j < |s| ==> s[i] != s[j] }

  // ---------- Relaxation ----------

  function Relaxed<T(==)>(edges: seq<Edge<T>>, r: map<T, Dist>, m: T, j: T): Dist
    requires m in r && j in r
  {
    var via := Plus(r[m], Road(edges, m, j));
    if Less(via, r[j]) then via else r[j]
  }

  function Pred<T(==)>(edges: seq<Edge<T>>, r: map<T, Dist>, f: map<T, Option<T>>, m: T, j: T): Option<T>
    requires m in r && j in r && j in f
  {
    if Less(Plus(r[m], Road(edges, m, j)), r[j]) then Some(m) else f[j]
  }

  /** Rows of unvisited nodes do not matter to what is said of visited ones, nor of each other. */
  lemma OtherRow<T(!new)>(edges: seq<Edge<T>>, start: T, r: map<T, Dist>, f: map<T, Option<T>>, order: seq<T>, j: T,
      d: Dist, p: Option<T>)
    requires Visited(edges, start, r, f, order) && AllLower(edges, start, r, order) && j !in order
    ensures Visited(edges, start, r[j := d], f[j := p], order) && AllLower(edges, start, r[j := d], order)
    ensures forall v :: v != j && Frontier(edges, start, r, f, order, v) ==>
      Frontier(edges, start, r[j := d], f[j := p], order, v)
  {
    OtherRowFrontier(edges, start, r, f, order, j, d, p);
    hide Frontier, LowerBound, Road;
    forall k | 0 <= k < |order|
      ensures Reached(start, r[j := d], order[k]) == Reached(start, r, order[k]) && order[k] != j {}
    assert AllLower(edges, start, r[j := d], order) by { hide Visited; }
    hide AllLower;
  }

  lemma OtherRowFrontier<T(!new)>(edges: seq<Edge<T>>, start: T, r: map<T, Dist>, f: map<T, Option<T>>, order: seq<T>,
      j: T, d: Dist, p: Option<T>)
    requires j !in order
    ensures forall v :: v != j && Frontier(edges, start, r, f, order, v) ==>
      Frontier(edges, start, r[j := d], f[j := p], order, v)
  {
    forall u | u in order ensures Reached(start, r[j := d], u) == Reached(start, r, u) {}
  }

  lemma RelaxNew<T(!new)>(edges: seq<Edge<T>>, start: T, r: map<T, Dist>, f: map<T, Option<T>>, order: seq<T>, m: T,
      j: T)
    requires Frontier(edges, start, r, f, order, j) && m != start && m != j && j !in order && start in order
    requires m in r && r[m].Fin?
    ensures Frontier(edges, start, r[j := Relaxed(edges, r, m, j)], f[j := Pred(edges, r, f, m, j)], order + [m], j)
  {
  }

  lemma RelaxOld<T(!new)>(edges: seq<Edge<T>>, start: T, r: map<T, Dist>, f: map<T, Option<T>>, order: seq<T>, m: T,
      j: T)
    requires Frontier(edges, start, r, f, order, j) && m in order && m != start && m != j
    requires m in r && r[m].Fin?
    ensures Relaxed(edges, r, m, j) == r[j] && Pred(edges, r, f, m, j) == f[j]
  {
  }

  /** In the middle of a round: the first i nodes have seen the nodes of order', the others only those
      of order. */
  ghost predicate HalfRelaxed<T(!new)>(edges: seq<Edge<T>>, nodes: seq<T>, start: T, r: map<T, Dist>,
      f: map<T, Option<T>>,
                                       order: seq<T>, order': seq<T>, i: int)
  {
    && Visited(edges, start, r, f, order') && AllLower(edges, start, r, order')
    && (start in r && r[start] == Road(edges, start, start))
    && (forall k :: 0 <= k < i && k < |nodes| && nodes[k] !in order' ==> Frontier(edges, start, r, f, order', nodes[k]))
    && (forall k :: 0 <= i <= k < |nodes| && nodes[k] !in order' ==> Frontier(edges, start, r, f, order, nodes[k]))
  }

  lemma SkipRow<T(!new)>(edges: seq<Edge<T>>, nodes: seq<T>, start: T, r: map<T, Dist>, f: map<T, Option<T>>,
      order: seq<T>, order': seq<T>, i: nat)
    requires HalfRelaxed(edges, nodes, start, r, f, order, order', i) && i < |nodes| && nodes[i] in order'
    ensures HalfRelaxed(edges, nodes, start, r, f, order, order', i + 1)
  {
    hide Visited, AllLower, Frontier;
  }

  lemma RelaxRow<T(!new)>(edges: seq<Edge<T>>, nodes: seq<T>, start: T, r: map<T, Dist>, f: map<T, Option<T>>,
      order: seq<T>, order': seq<T>, i: nat, m: T)
    requires HalfRelaxed(edges, nodes, start, r, f, order, order', i) && i < |nodes| && nodes[i] !in order' &&
      Distinct(nodes)
    requires m in order' && m != start && m in r && r[m].Fin? && start in order
    requires order' == order || (order' == order + [m] && m !in order)
    ensures nodes[i] in r && nodes[i] in f
    ensures var j := nodes[i];
      && HalfRelaxed(edges, nodes, start, r[j := Relaxed(edges, r, m, j)], f[j := Pred(edges, r, f, m, j)], order,
        order', i + 1)
      && (order' == order ==> r[j := Relaxed(edges, r, m, j)] == r && f[j := Pred(edges, r, f, m, j)] == f)
  {
    hide Visited, AllLower, Frontier, Relaxed, Pred, Road;
    var j := nodes[i];
    RowRelaxed(edges, start, r, f, order, order', m, j);
    var d, p := Relaxed(edges, r, m, j), Pred(edges, r, f, m, j);
    forall k | 0 <= k < i + 1 && nodes[k] !in order'
      ensures Frontier(edges, start, r[j := d], f[j := p], order', nodes[k]) {
      if k < i { assert Frontier(edges, start, r, f, order', nodes[k]); }
    }
    forall k | i + 1 <= k < |nodes| && nodes[k] !in order'
      ensures Frontier(edges, start, r[j := d], f[j := p], order, nodes[k]) {
      assert nodes[k] != nodes[i];
    }
  }

  lemma RowRelaxed<T(!new)>(edges: seq<Edge<T>>, start: T, r: map<T, Dist>, f: map<T, Option<T>>, order: seq<T>,
      order': seq<T>, m: T, j: T)
    requires Visited(edges, start, r, f, order') && AllLower(edges, start, r, order') &&
      Frontier(edges, start, r, f, order, j)
    requires j !in order' && m in order' && m != start && m in r && r[m].Fin? && start in order
    requires order' == order || (order' == order + [m] && m !in order)
    ensures j in r && j in f && j != start
    ensures var d, p := Relaxed(edges, r, m, j), Pred(edges, r, f, m, j);
      && Visited(edges, start, r[j := d], f[j := p], order') && AllLower(edges, start, r[j := d], order')
      && Frontier(edges, start, r[j := d], f[j := p], order', j)
      && (forall v :: v != j && Frontier(edges, start, r, f, order', v) ==>
        Frontier(edges, start, r[j := d], f[j := p], order', v))
      && (forall v :: v != j && Frontier(edges, start, r, f, order, v) ==>
        Frontier(edges, start, r[j := d], f[j := p], order, v))
      && (order' == order ==> r[j := d] == r && f[j := p] == f)
  {
    assert j in r && j in f;
    hide Visited, AllLower, Frontier, Relaxed, Pred, Road;
    var d, p := Relaxed(edges, r, m, j), Pred(edges, r, f, m, j);
    OtherRow(edges, start, r, f, order', j, d, p);
    OtherRowFrontier(edges, start, r, f, order, j, d, p);
    if order' == order {
      RelaxOld(edges, start, r, f, order, m, j);
      assert r[j := d] == r && f[j := p] == f;
    } else {
      RelaxNew(edges, start, r, f, order, m, j);
    }
  }

  // ---------- The walk back along predecessors ----------

  function IndexOf<T(==)>(order: seq<T>, x: T): (k: nat)
    requires x in order
    ensures k < |order| && order[k] == x
  {
    if order[0] == x then 0 else 1 + IndexOf(order[1..], x)
  }

  ghost function Trace<T>(edges: seq<Edge<T>>, start: T, r: map<T, Dist>, f: map<T, Option<T>>, order: seq<T>,
      k: nat): seq<T>
    requires Visited(edges, start, r, f, order) && k < |order|
  {
    if k == 0 then [start]
    else
      var p := f[order[k]].value;
      Trace(edges, start, r, f, order, IndexOf(order[..k], p)) + [order[k]]
  }

  lemma {:induction false} TraceIsWalk<T>(edges: seq<Edge<T>>, start: T, r: map<T, Dist>, f: map<T, Option<T>>,
      order: seq<T>, k: nat)
    requires Visited(edges, start, r, f, order) && k < |order|
    ensures var w := Trace(edges, start, r, f, order, k);
      From(edges, w, start, order[k]) && Length(edges, w) == Reached(start, r, order[k])
    decreases k
  {
    if k > 0 {
      var i := IndexOf(order[..k], f[order[k]].value);
      TraceIsWalk(edges, start, r, f, order, i);
      var t := Trace(edges, start, r, f, order, i);
      var w := t + [order[k]];
      assert Step(edges, start, r, order[i], order[k]);
      forall j | 0 <= j < |w| - 1 ensures Weight(edges, w[j], w[j + 1]).Some? {
        if j < |t| - 1 { assert Weight(edges, t[j], t[j + 1]).Some?; }
      }
      assert w[..|w| - 1] == t;
      assert order[0] != order[k];
    }
  }

  lemma TraceEnds<T>(edges: seq<Edge<T>>, start: T, r: map<T, Dist>, f: map<T, Option<T>>, order: seq<T>, k: nat)
    requires Visited(edges, start, r, f, order) && k < |order|
    ensures var w := Trace(edges, start, r, f, order, k); w != [] && w[|w| - 1] == order[k]
  {
  }

  // A predecessor trace goes through no node twice.
  lemma {:induction false} TraceIsDistinct<T>(edges: seq<Edge<T>>, start: T, r: map<T, Dist>, f: map<T, Option<T>>,
      order: seq<T>, k: nat)
    requires Visited(edges, start, r, f, order) && k < |order|
    ensures var w := Trace(edges, start, r, f, order, k);
      Distinct(w) && forall x :: x in w ==> x in order[..k + 1]
    decreases k
  {
    if k > 0 {
      var i := IndexOf(order[..k], f[order[k]].value);
      TraceIsDistinct(edges, start, r, f, order, i);
      StartFirst(edges, start, r, f, order);
      hide Visited, Distinct, IndexOf;
      NextDistinct(order, i, k, Trace(edges, start, r, f, order, i));
    } else {
      assert order[0] == start;
    }
  }

  lemma NextDistinct<T>(order: seq<T>, i: nat, k: nat, w: seq<T>)
    requires Distinct(order) && i < k < |order| && Distinct(w) && forall x :: x in w ==> x in order[..i + 1]
    ensures Distinct(w + [order[k]]) && forall x :: x in w + [order[k]] ==> x in order[..k + 1]
  {
    assert order[..k + 1][k] == order[k];
    forall x | x in w ensures x in order[..k + 1] && x != order[k] {
      var j := IndexOf(order[..i + 1], x);
      assert order[..k + 1][j] == x;
    }
    var next := w + [order[k]];
    forall a, b | 0 <= a < b < |next| ensures next[a] != next[b] {
      assert w[a] in w;
    }
  }

  lemma {:induction false} SameIndex<T>(order: seq<T>, x: T, i: nat)
    requires i < |order| && order[i] == x && Distinct(order)
    ensures IndexOf(order, x) == i
  {
  }

  // ---------- The result ----------

  ghost predicate HasWayOut<T>(edges: seq<Edge<T>>, nodes: seq<T>, start: T)
  {
    exists v :: v in nodes && v != start && Weight(edges, start, v).Some?
  }

  lemma WayOut<T>(edges: seq<Edge<T>>, nodes: seq<T>, start: T, v: T)
    requires v in nodes && v != start && Road(edges, start, v).Fin?
    ensures HasWayOut(edges, nodes, start)
  {
  }

  // The distances are the weights of the start's own edges.
  ghost predicate StartRows<T>(edges: seq<Edge<T>>, start: T, nodes: seq<T>, r: map<T, Dist>)
  {
    forall v :: v in nodes ==> v in r && r[v] == Road(edges, start, v)
  }

  lemma NoWayOut<T>(edges: seq<Edge<T>>, nodes: seq<T>, start: T, r: map<T, Dist>)
    requires StartRows(edges, start, nodes, r)
    requires forall v :: v in nodes && v != start ==> r[v] == Inf
    ensures !HasWayOut(edges, nodes, start)
  {
  }

  lemma FirstConsistent<T(!new)>(edges: seq<Edge<T>>, nodes: seq<T>, start: T, r: map<T, Dist>, f: map<T, Option<T>>)
    requires NonNegative(edges) && start in nodes && FirstRows(edges, start, nodes, r, f)
    ensures Consistent(edges, nodes, start, r, f, [start]) && StartRows(edges, start, nodes, r)
  {
    forall w: seq<T> | From(edges, w, start, start) ensures 0.0 <= Length(edges, w) { LengthNonNegative(edges, w); }
  }

  lemma BeginRound<T(!new)>(edges: seq<Edge<T>>, nodes: seq<T>, start: T, r: map<T, Dist>, f: map<T, Option<T>>,
      order: seq<T>, order': seq<T>, m: T)
    requires Consistent(edges, nodes, start, r, f, order) && NonNegative(edges) && Covers(edges, nodes) &&
      m in nodes && m != start
    requires NextToVisit(nodes, r, order, m)
    requires order' == if m in order then order else order + [m]
    ensures HalfRelaxed(edges, nodes, start, r, f, order, order', 0)
    ensures r[m].Fin? && start in order && forall v :: v in order' ==> v in nodes
  {
    if m in order {
      var k := IndexOf(order, m);
      assert Step(edges, start, r, f[order[k]].value, order[k]);
    } else {
      hide Frontier, AllLower, Visited, LowerBound, Step;
      StartFirst(edges, start, r, f, order);
      NearestIsFinal(edges, nodes, start, r, f, order, m);
      VisitedNext(edges, nodes, start, r, f, order, m);
    }
  }

  lemma StartFirst<T>(edges: seq<Edge<T>>, start: T, r: map<T, Dist>, f: map<T, Option<T>>, order: seq<T>)
    requires Visited(edges, start, r, f, order)
    ensures order != [] && order[0] == start && start in order && Distinct(order)
  {
  }

  lemma Basics<T(!new)>(edges: seq<Edge<T>>, nodes: seq<T>, start: T, r: map<T, Dist>, f: map<T, Option<T>>,
      order: seq<T>)
    requires Consistent(edges, nodes, start, r, f, order)
    ensures order != [] && order[0] == start && start in order && Distinct(order)
    ensures forall v :: v in order ==> v in nodes
  {
  }

  lemma OwnDistance<T(!new)>(edges: seq<Edge<T>>, start: T)
    requires NonNegative(edges)
    ensures Shortest(edges, start, start, Road(edges, start, start)) <==>
      !(Weight(edges, start, start).Some? && Weight(edges, start, start).value > 0.0)
  {
    var here := [start];
    assert From(edges, here, start, start) && Length(edges, here) == 0.0;
    forall w: seq<T> | From(edges, w, start, start) ensures 0.0 <= Length(edges, w) { LengthNonNegative(edges, w); }
    if Weight(edges, start, start).Some? {
      WeightIsEdge(edges, start, start);
    }
  }

  lemma Resume<T(!new)>(edges: seq<Edge<T>>, nodes: seq<T>, start: T, r: map<T, Dist>, f: map<T, Option<T>>,
      before: seq<T>, order: seq<T>)
    requires HalfRelaxed(edges, nodes, start, r, f, before, order, |nodes|)
    requires forall v :: v in order ==> v in nodes
    ensures Consistent(edges, nodes, start, r, f, order)
  {
    forall v | v in nodes && v !in order ensures Frontier(edges, start, r, f, order, v) {
      var k := IndexOf(nodes, v);
      assert nodes[k] !in order;
    }
  }

  ghost predicate Stuck<T>(nodes: seq<T>, r: map<T, Dist>, order: seq<T>)
  {
    forall v :: v in nodes && v !in order ==> v in r && r[v] == Inf
  }

  lemma {:induction false} AllDistances<T(!new)>(edges: seq<Edge<T>>, nodes: seq<T>, start: T, r: map<T, Dist>,
      f: map<T, Option<T>>, order: seq<T>, v: T)
    requires Consistent(edges, nodes, start, r, f, order) && NonNegative(edges) && Covers(edges, nodes) &&
      Stuck(nodes, r, order)
    requires v in nodes && v != start
    ensures v in r && Shortest(edges, start, v, r[v])
  {
    if v in order {
      var k := IndexOf(order, v);
      TraceIsWalk(edges, start, r, f, order, k);
      assert From(edges, Trace(edges, start, r, f, order, k), start, v);
      assert LowerBound(edges, start, order[k], Reached(start, r, order[k]));
      assert Step(edges, start, r, f[order[k]].value, order[k]);
    } else {
      forall w: seq<T> | From(edges, w, start, v) ensures false {
        var x := Crossing(edges, nodes, start, r, f, order, w);
      }
    }
  }

  lemma {:induction false} DistinctFit<T(!new)>(a: seq<T>, b: seq<T>)
    requires forall i, j :: 0 <= i < j < |a| ==> a[i] != a[j]
    requires forall x :: x in a ==> x in b
    ensures |a| <= |b|
    ensures |a| == |b| ==> forall x :: x in b ==> x in a
    decreases |a|
  {
    if a != [] {
      var k := IndexOf(b, a[0]);
      var rest := b[..k] + b[k + 1..];
      forall x | x in a[1..] ensures x in rest {
        var i := IndexOf(a[1..], x);
        var j := IndexOf(b, x);
        assert a[0] != a[i + 1];
        if j < k { assert rest[j] == x; } else { assert rest[j - 1] == x; }
      }
      DistinctFit(a[1..], rest);
      if |a| == |b| {
        forall x | x in b ensures x in a {
          var j := IndexOf(b, x);
          if j < k { assert rest[j] == x; assert x in a[1..]; }
            else if j > k { assert rest[j - 1] == x; assert x in a[1..]; }
        }
      }
    }
  }

  // ---------- The object ----------

  /** A walk no longer than any other where there is one, and only the end where there is none. */
  ghost predicate BestWalk<T(!new)>(edges: seq<Edge<T>>, a: T, b: T, w: seq<T>)
  {
    if exists v: seq<T> :: From(edges, v, a, b)
    then From(edges, w, a, b) && forall v: seq<T> :: From(edges, v, a, b) ==> Length(edges, w) <= Length(edges, v)
    else w == [b]
  }

  lemma BestWalkFound<T(!new)>(edges: seq<Edge<T>>, nodes: seq<T>, start: T, r: map<T, Dist>, f: map<T, Option<T>>,
      order: seq<T>, v: T)
    requires Consistent(edges, nodes, start, r, f, order) && NonNegative(edges) && Covers(edges, nodes) &&
      Stuck(nodes, r, order)
    requires v in nodes
    ensures BestWalk(edges, start, v, if v in order then Trace(edges, start, r, f, order, IndexOf(order, v)) else [v])
  {
    if v in order {
      var k := IndexOf(order, v);
      TraceIsWalk(edges, start, r, f, order, k);
      assert LowerBound(edges, start, order[k], Reached(start, r, order[k]));
    } else {
      forall w: seq<T> ensures !From(edges, w, start, v) {
        if From(edges, w, start, v) { var x := Crossing(edges, nodes, start, r, f, order, w); }
      }
    }
  }

  /** The walk has exactly this length; where the length is infinite it is only the end. */
  ghost predicate Costs<T>(edges: seq<Edge<T>>, a: T, b: T, w: seq<T>, d: Dist)
  {
    if d.Fin? then From(edges, w, a, b) && Length(edges, w) == d.d else w == [b]
  }

  lemma BestWalkCosts<T(!new)>(edges: seq<Edge<T>>, a: T, b: T, w: seq<T>, d: Dist)
    requires BestWalk(edges, a, b, w) && Shortest(edges, a, b, d)
    ensures Costs(edges, a, b, w, d)
  {
  }

  lemma CostsAreBest<T(!new)>(edges: seq<Edge<T>>, a: T, b: T, w: seq<T>, d: Dist)
    requires Costs(edges, a, b, w, d) && Shortest(edges, a, b, d)
    ensures BestWalk(edges, a, b, w)
  {
  }

  // ---------- A node equal to 0 ----------

  // "No predecessor" is written 0 in the tables: what is left of a walk when nothing is read past a zero.
  function Cut<T(==)>(zeros: set<T>, w: seq<T>): seq<T>
  {
    if |w| <= 1 then w
    else
      var n := |w| - 1;
      if w[n - 1] in zeros then [w[n]] else Cut(zeros, w[..n]) + [w[n]]
  }

  lemma CutOne<T>(zeros: set<T>, x: T)
    ensures Cut(zeros, [x]) == [x]
  {
  }

  lemma CutNext<T>(zeros: set<T>, w: seq<T>, x: T)
    requires w != []
    ensures Cut(zeros, w + [x]) == if w[|w| - 1] in zeros then [x] else Cut(zeros, w) + [x]
  {
    assert (w + [x])[..|w|] == w;
  }

  ghost predicate Uncut<T>(zeros: set<T>, w: seq<T>) { forall i :: 0 <= i < |w| - 1 ==> w[i] !in zeros }

  // Cutting drops a front part: everything up to the last zero before the end.
  lemma {:induction false} CutIsSuffix<T>(zeros: set<T>, w: seq<T>) returns (j: nat)
    requires w != []
    ensures j < |w| && Cut(zeros, w) == w[j..]
    ensures Uncut(zeros, w[j..]) && (j > 0 ==> w[j - 1] in zeros)
  {
    var n := |w| - 1;
    if n == 0 || w[n - 1] in zeros {
      j := n;
    } else {
      j := CutIsSuffix(zeros, w[..n]);
      assert w[..n][j..] + [w[n]] == w[j..];
      forall i | 0 <= i < |w[j..]| - 1 ensures w[j..][i] !in zeros {
        if i < n - 1 - j { assert w[..n][j..][i] !in zeros; }
      }
    }
  }

  /** A best walk without repetitions stays a best walk exactly when no zero stands before its end. */
  lemma CutWalk<T(!new)>(edges: seq<Edge<T>>, a: T, b: T, zeros: set<T>, w: seq<T>)
    requires BestWalk(edges, a, b, w) && Distinct(w)
    ensures Cut(zeros, w) == w <==> Uncut(zeros, w)
    ensures BestWalk(edges, a, b, Cut(zeros, w)) <==> Uncut(zeros, w)
    ensures a in zeros && a != b && (exists v: seq<T> :: From(edges, v, a, b)) ==>
      !BestWalk(edges, a, b, Cut(zeros, w))
  {
    var j := CutIsSuffix(zeros, w);
    if j == 0 {
      assert w[0..] == w;
    } else {
      assert w[j] != w[0] && !Uncut(zeros, w) by { assert w[j - 1] in zeros; }
      assert From(edges, w, a, b);
    }
  }

  // The only zero that a row leads out of is the end itself, if any.
  ghost predicate LeavesNoZero<T>(edges: seq<Edge<T>>, zeros: set<T>, b: T)
  {
    forall e :: e in edges && e.src in zeros ==> e.src == b
  }

  // Then no walk without repetitions is cut.
  lemma NothingCut<T(!new)>(edges: seq<Edge<T>>, a: T, b: T, zeros: set<T>, w: seq<T>)
    requires BestWalk(edges, a, b, w) && Distinct(w)
    requires LeavesNoZero(edges, zeros, b)
    ensures Uncut(zeros, w)
  {
    forall i | 0 <= i < |w| - 1 ensures w[i] !in zeros {
      assert Weight(edges, w[i], w[i + 1]).Some?;
      WeightIsEdge(edges, w[i], w[i + 1]);
    }
  }

  /** w is what a best walk leaves, and a best walk itself exactly when no zero stands before the end. */
  ghost predicate BestUpToZero<T(!new)>(edges: seq<Edge<T>>, a: T, b: T, zeros: set<T>, w: seq<T>)
  {
    exists best: seq<T> ::
      && BestWalk(edges, a, b, best) && Distinct(best) && w == Cut(zeros, best)
      && (BestWalk(edges, a, b, w) <==> Uncut(zeros, best))
  }

  /** What the graph alone decides: the answer is a best walk when no shortest way meets a zero before the
      end, and none when all of them do, as when the start itself is a zero. */
  lemma GraphDecides<T(!new)>(edges: seq<Edge<T>>, a: T, b: T, zeros: set<T>, w: seq<T>)
    requires BestUpToZero(edges, a, b, zeros, w)
    ensures (forall v :: BestWalk(edges, a, b, v) && Distinct(v) ==> Uncut(zeros, v)) ==> BestWalk(edges, a, b, w)
    ensures (forall v :: BestWalk(edges, a, b, v) && Distinct(v) ==> !Uncut(zeros, v)) ==> !BestWalk(edges, a, b, w)
    ensures a in zeros && a != b && (exists v: seq<T> :: From(edges, v, a, b)) ==> !BestWalk(edges, a, b, w)
  {
    var best :| BestWalk(edges, a, b, best) && Distinct(best) && w == Cut(zeros, best) &&
      (BestWalk(edges, a, b, w) <==> Uncut(zeros, best));
    CutWalk(edges, a, b, zeros, best);
  }

  // The table holds the weights in force for these rows of the graph.
  ghost predicate RoadIs<T>(road: map<(T, T), Dist>, rows: seq<Edge<T>>, sources: seq<T>, nodes: seq<T>)
  {
    forall a, b {:trigger (a, b) in road} {:trigger road[(a, b)]} :: a in sources && b in nodes ==>
      (a, b) in road && road[(a, b)] == Road(rows, a, b)
  }

  // The first entry of a node: the direct edge from the start, if there is one.
  ghost predicate FirstEntry<T>(edges: seq<Edge<T>>, start: T, r: map<T, Dist>, f: map<T, Option<T>>, v: T)
  {
    v in r && v in f && r[v] == Road(edges, start, v) && f[v] == if v != start && r[v].Fin? then Some(start) else None
  }

  ghost predicate FirstRows<T>(edges: seq<Edge<T>>, start: T, nodes: seq<T>, r: map<T, Dist>, f: map<T, Option<T>>)
  {
    forall v :: v in nodes ==> FirstEntry(edges, start, r, f, v)
  }

  lemma SetFirst<T>(edges: seq<Edge<T>>, start: T, r: map<T, Dist>, f: map<T, Option<T>>, v: T)
    requires v in f && (f[v] == None || FirstEntry(edges, start, r, f, v))
    ensures var r', d := r[v := Road(edges, start, v)], Road(edges, start, v);
      var f' := if v != start && d.Fin? then f[v := Some(start)] else f;
      && FirstEntry(edges, start, r', f', v)
      && forall u :: u != v && FirstEntry(edges, start, r, f, u) ==> FirstEntry(edges, start, r', f', u)
  {
  }

  // Every node is an end of some row.
  ghost predicate Touched<T>(edges: seq<Edge<T>>, nodes: seq<T>)
  {
    forall v :: v in nodes ==> exists e :: e in edges && (e.src == v || e.dst == v)
  }

  // The marks say which nodes have been visited.
  ghost predicate Marks<T>(nodes: seq<T>, s: map<T, bool>, order: seq<T>)
  {
    forall v :: v in nodes ==> v in s && (s[v] <==> v in order)
  }

  lemma MarkOne<T>(nodes: seq<T>, s: map<T, bool>, order: seq<T>, m: T)
    requires Marks(nodes, s, order)
    ensures Marks(nodes, s[m := true], if m in order then order else order + [m])
  {
  }

  lemma FirstMark<T>(nodes: seq<T>, s: map<T, bool>, f: map<T, Option<T>>, start: T)
    requires Unmarked(nodes, s, f)
    ensures Marks(nodes, s[start := true], [start])
  {
  }

  // m has been visited, or is as near as any node that has not.
  ghost predicate NextToVisit<T>(nodes: seq<T>, r: map<T, Dist>, order: seq<T>, m: T)
  {
    && m in r
    && (m in order || (r[m].Fin? && forall v :: v in nodes && v !in order && v in r && r[v].Fin? ==> r[m].d <= r[v].d))
  }

  // The rows of all nodes before the search.
  ghost predicate Unmarked<T>(nodes: seq<T>, s: map<T, bool>, f: map<T, Option<T>>)
  {
    forall v :: v in nodes ==> v in s && v in f && !s[v] && f[v] == None
  }

  class Dijkstra<T(==, !new)> {
    const start: T
    const end: T
    const zeros: set<T>  // the values equal to 0, the tables' mark for no predecessor
    var nodes: seq<T>
    var road: map<(T, T), Dist>
    var r: map<T, Dist>
    var s: map<T, bool>
    var f: map<T, Option<T>>
    var path: seq<T>
    ghost var edges: seq<Edge<T>>
    ghost var order: seq<T>  // nodes in the order they were marked

    constructor (start: T, end: T, zeros: set<T>)
      ensures this.start == start && this.end == end && this.zeros == zeros && path == []
    {
      this.start, this.end, this.zeros := start, end, zeros;
      nodes, path, order, edges := [], [], [], [];
      road, r, s, f := map[], map[], map[], map[];
    }

    // The tables are set up for these edges.
    ghost predicate Tables()
      reads `nodes, `edges, `road, `r, `s, `f, `order
    {
      && Distinct(nodes) && Covers(edges, nodes) && NonNegative(edges)
      && RoadIs(road, edges, nodes, nodes)
      && r.Keys == s.Keys == f.Keys == (set v | v in nodes)
    }

    ghost predicate Marked()
      reads `nodes, `edges, `road, `r, `s, `f, `order
    {
      && Tables() && Consistent(edges, nodes, start, r, f, order)
      && Marks(nodes, s, order)
    }

    /** The search is over: every distance is final. */
    ghost predicate Solved()
      reads `nodes, `edges, `road, `r, `s, `f, `order
    {
      Marked() && Stuck(nodes, r, order)
    }

    method NumberOfVertices(matrix: seq<Edge<T>>)
      modifies `nodes
      ensures Distinct(nodes) && Covers(matrix, nodes)
      ensures Touched(matrix, nodes)
    {
      nodes := [];
      for i := 0 to |matrix|
        invariant Distinct(nodes) && Covers(matrix[..i], nodes)
        invariant Touched(matrix, nodes)
      {
        assert matrix[i] in matrix;
        if matrix[i].src !in nodes {
          nodes := nodes + [matrix[i].src];
        }
        if matrix[i].dst !in nodes {
          nodes := nodes + [matrix[i].dst];
        }
        assert matrix[..i + 1] == matrix[..i] + [matrix[i]];
      }
      assert matrix[..|matrix|] == matrix;
    }

    method ZeroRows()
      modifies `r, `s, `f
      ensures r.Keys == s.Keys == f.Keys == set v | v in nodes
      ensures Unmarked(nodes, s, f)
    {
      r, s, f := map[], map[], map[];
      for i := 0 to |nodes|
        invariant r.Keys == s.Keys == f.Keys == set v | v in nodes[..i]
        invariant forall v :: v in nodes[..i] ==> !s[v] && f[v] == None
      {
        r, s, f := r[nodes[i] := Fin(0.0)], s[nodes[i] := false], f[nodes[i] := None];
        assert nodes[..i + 1] == nodes[..i] + [nodes[i]];
      }
      assert nodes[..|nodes|] == nodes;
    }

    method EmptyRow(i: nat)
      requires i < |nodes| && RoadIs(road, [], nodes[..i], nodes)
      modifies `road
      ensures RoadIs(road, [], nodes[..i + 1], nodes)
    {
      for j := 0 to |nodes|
        invariant RoadIs(road, [], nodes[..i], nodes)
        invariant forall b :: b in nodes[..j] ==> (nodes[i], b) in road && road[(nodes[i], b)] == Road([], nodes[i], b)
      {
        if nodes[i] == nodes[j] {
          road := road[(nodes[i], nodes[j]) := Fin(0.0)];
        } else {
          road := road[(nodes[i], nodes[j]) := Inf];
        }
      }
    }

    method ReadAndInit(matrix: seq<Edge<T>>)
      requires Distinct(nodes) && Covers(matrix, nodes) && NonNegative(matrix)
      modifies `road, `r, `s, `f, `edges
      ensures Tables() && edges == matrix
      ensures Unmarked(nodes, s, f)
    {
      edges, road := matrix, map[];
      ZeroRows();
      for i := 0 to |nodes|
        modifies `road
        invariant RoadIs(road, [], nodes[..i], nodes)
      {
        EmptyRow(i);
      }
      assert nodes[..|nodes|] == nodes;
      for i := 0 to |matrix|
        modifies `road
        invariant RoadIs(road, matrix[..i], nodes, nodes)
      {
        road := road[(matrix[i].src, matrix[i].dst) := Fin(matrix[i].weight)];
        assert matrix[..i + 1][..i] == matrix[..i];
      }
      assert matrix[..|matrix|] == matrix;
    }

    // The rows of the start; false when the start has no rows (the original raises).
    method FirstRow() returns (ok: bool)
      requires Tables() && Unmarked(nodes, s, f)
      modifies `r, `f
      ensures ok <==> nodes == [] || start in nodes
      ensures Tables()
      ensures ok ==> FirstRows(edges, start, nodes, r, f)
    {
      hide Road, Covers, NonNegative, Distinct, FirstEntry;
      if nodes != [] && start !in nodes {
        return false;
      }
      for i := 0 to |nodes|
        modifies `r, `f
        invariant r.Keys == f.Keys == set v | v in nodes
        invariant forall v :: v in nodes[..i] ==> FirstEntry(edges, start, r, f, v)
        invariant forall v :: v in nodes && v !in nodes[..i] ==> f[v] == None
      {
        var v := nodes[i];
        assert v in nodes;
        SetFirst(edges, start, r, f, v);
        assert nodes[..i + 1] == nodes[..i] + [v];
        r := r[v := road[(start, v)]];
        if v != start && Less(r[v], Inf) {
          f := f[v := Some(start)];
        }
      }
      assert nodes[..|nodes|] == nodes;
      ok := true;
    }

    // The nearest unmarked node, or the position kept from the last search when all are at infinity.
    method Nearest(kept: Option<T>) returns (m: Option<T>)
      requires Tables()
      ensures m == kept || (m.Some? && m.value in nodes && !s[m.value] && r[m.value].Fin?)
      ensures (exists v :: v in nodes && !s[v] && r[v].Fin?) ==>
        m.Some? && m.value in nodes && !s[m.value] && r[m.value].Fin? &&
        forall v :: v in nodes && !s[v] && r[v].Fin? ==> r[m.value].d <= r[v].d
      ensures (forall v :: v in nodes && !s[v] ==> r[v] == Inf) ==> m == kept
    {
      var min := Inf;
      m := kept;
      for i := 0 to |nodes|
        invariant if min == Inf then m == kept else m.Some? && m.value in nodes && !s[m.value] && r[m.value] == min
        invariant forall k :: 0 <= k < i && !s[nodes[k]] ==> !Less(r[nodes[k]], min)
      {
        assert nodes[i] in nodes;
        if !s[nodes[i]] && Less(r[nodes[i]], min) {
          min := r[nodes[i]];
          m := Some(nodes[i]);
        }
      }
      forall v | v in nodes && !s[v] ensures !Less(r[v], min) {
        var k := IndexOf(nodes, v);
      }
    }

    // One round of relaxation from m, whose mark is already set.
    method RelaxAll(m: T, ghost order': seq<T>)
      requires Tables() && HalfRelaxed(edges, nodes, start, r, f, order, order', 0)
      requires m in nodes && m in order' && m != start && r[m].Fin? && start in order
      requires order' == order || (order' == order + [m] && m !in order)
      requires Marks(nodes, s, order')
      modifies `r, `f
      ensures Tables() && HalfRelaxed(edges, nodes, start, r, f, order, order', |nodes|)
      ensures order' == order ==> r == old(r) && f == old(f)
    {
      hide HalfRelaxed, Road, Covers, NonNegative, Distinct;
      for i := 0 to |nodes|
        modifies `r, `f
        invariant r.Keys == f.Keys == set v | v in nodes
        invariant HalfRelaxed(edges, nodes, start, r, f, order, order', i) && r[m] == old(r)[m]
        invariant order' == order ==> r == old(r) && f == old(f)
      {
        var j := nodes[i];
        assert j in nodes;
        if !s[j] {
          RelaxRow(edges, nodes, start, r, f, order, order', i, m);
          ghost var r0, f0 := r, f;
          if Less(Plus(r[m], road[(m, j)]), r[j]) {
            r := r[j := Plus(r[m], road[(m, j)])];
            f := f[j := Some(m)];
          }
          assert r == r0[j := Relaxed(edges, r0, m, j)] && f == f0[j := Pred(edges, r0, f0, m, j)];
        } else {
          SkipRow(edges, nodes, start, r, f, order, order', i);
        }
      }
    }

    method AnyUnmarked() returns (yes: bool)
      requires Tables()
      ensures yes <==> exists v :: v in nodes && !s[v]
    {
      yes := false;
      for i := 0 to |nodes|
        invariant yes <==> exists k :: 0 <= k < i && !s[nodes[k]]
      {
        assert nodes[i] in nodes;
        if !s[nodes[i]] {
          yes := true;
        }
      }
      if exists v :: v in nodes && !s[v] {
        ghost var v :| v in nodes && !s[v];
        ghost var k := IndexOf(nodes, v);
        assert !s[nodes[k]];
      }
    }

    // Marks m and relaxes the rest from it.
    method Visit(m: T)
      requires Marked() && m in nodes && m != start
      requires NextToVisit(nodes, r, order, m)
      modifies `r, `s, `f, `order
      ensures Marked() && m in order
      ensures order == if m in old(order) then old(order) else old(order) + [m]
      ensures m in old(order) ==> r == old(r)
    {
      hide Consistent, HalfRelaxed, Road, Covers, NonNegative, Distinct, RoadIs, Marks, NextToVisit;
      MarkOne(nodes, s, order, m);
      s := s[m := true];
      ghost var order' := if m in order then order else order + [m];
      BeginRound(edges, nodes, start, r, f, order, order', m);
      RelaxAll(m, order');
      Resume(edges, nodes, start, r, f, order, order');
      order := order';
    }

    // Between two rounds: the position kept from the last search, if any search succeeded.
    ghost predicate Between(posMin: Option<T>)
      reads `nodes, `edges, `road, `r, `s, `f, `order
    {
      && Marked()
      && (posMin.Some? ==> posMin.value in order && posMin.value in nodes && posMin.value != start)
      && (posMin.Some? ==> HasWayOut(edges, nodes, start))
      && (posMin.None? ==> order == [start] && StartRows(edges, start, nodes, r))
    }

    // One round; it raises when the first search finds nothing although some node is unmarked.
    method Round(posMin: Option<T>) returns (next: Option<T>, raises: bool)
      requires Between(posMin)
      modifies `r, `s, `f, `order
      ensures raises ==> |nodes| > 1 && !HasWayOut(edges, nodes, start)
      ensures !raises ==> Between(next) && (next.None? ==> |nodes| == 1)
      ensures !raises ==> |order| > old(|order|) || Stuck(nodes, r, order)
      ensures !raises && old(Stuck(nodes, r, order)) ==> Stuck(nodes, r, order)
    {
      hide Road, Consistent, Covers, NonNegative, HasWayOut, RoadIs;
      Basics(edges, nodes, start, r, f, order);
      raises := false;
      next := Nearest(posMin);
      if next.None? {
        raises := AnyUnmarked();
        if raises {
          NoWayOut(edges, nodes, start, r);
          ghost var k := IndexOf(nodes, start);
        } else {
          DistinctFit(nodes, order);
        }
      } else {
        if posMin.None? { WayOut(edges, nodes, start, next.value); }
        Visit(next.value);
      }
    }

    // The first row in place and the start marked.
    method Begin() returns (ok: bool)
      requires Tables() && Unmarked(nodes, s, f)
      modifies `r, `s, `f, `order
      ensures ok <==> nodes == [] || start in nodes
      ensures ok && nodes != [] ==> Between(None) && order == [start]
    {
      hide Road, Consistent, Covers, NonNegative, HasWayOut, RoadIs, Unmarked, Marks, FirstRows, StartRows, Distinct;
      FirstMark(nodes, s, f, start);
      ok := FirstRow();
      if !ok || nodes == [] {
        return;
      }
      s := s[start := true];
      order := [start];
      FirstConsistent(edges, nodes, start, r, f);
    }

    /** False when the original raises: the start has no row, or no way out of it although there are
        other nodes. */
    method GetShortestPathPerVertex() returns (ok: bool)
      requires Tables() && Unmarked(nodes, s, f)
      modifies `r, `s, `f, `order
      ensures ok <==> nodes == [] || (start in nodes && (|nodes| == 1 || HasWayOut(edges, nodes, start)))
      ensures ok && nodes != [] ==> Solved()
    {
      hide Between, Marked, Tables, HasWayOut, Stuck;
      ok := Begin();
      if !ok || nodes == [] {
        return;
      }
      var posMin: Option<T> := None;
      var times := if |nodes| == 1 then 1 else |nodes| - 1;
      for i := 0 to times
        modifies `r, `s, `f, `order
        invariant Between(posMin)
        invariant i > 0 && |nodes| > 1 ==> posMin.Some?
        invariant |order| >= i + 1 || Stuck(nodes, r, order)
      {
        var raises;
        posMin, raises := Round(posMin);
        if raises {
          return false;
        }
      }
      Finish(posMin);
      ok := true;
    }

    lemma Finish(posMin: Option<T>)
      requires Between(posMin) && (Stuck(nodes, r, order) || |order| >= |nodes|)
      ensures Solved() && start in nodes && (posMin.Some? ==> HasWayOut(edges, nodes, start))
    {
      hide Consistent, Covers, NonNegative, RoadIs, HasWayOut;
      Basics(edges, nodes, start, r, f, order);
      DistinctFit(order, nodes);
    }

    // Where the walk back along predecessors comes from.
    ghost function WalkTo(v: T): seq<T>
      requires Visited(edges, start, r, f, order)
      reads `edges, `r, `f, `order
    {
      if v in order then Trace(edges, start, r, f, order, IndexOf(order, v)) else [v]
    }

    // Visited nodes come after the nodes they were reached from.
    ghost function Rank(node: T): nat
      reads `order
    {
      if node in order then IndexOf(order, node) else 0
    }

    method RoadTo(node: T)
      requires Solved() && node in nodes
      modifies `path
      ensures path == old(path) + Cut(zeros, WalkTo(node))
      decreases Rank(node)
    {
      hide *;
      PredOf(node);
      CutAt(node);
      if f[node].Some? && f[node].value !in zeros {
        RoadTo(f[node].value);
      }
      path := path + [node];
    }

    lemma CutAt(node: T)
      requires Solved() && node in nodes && node in f
      ensures Visited(edges, start, r, f, order)
      ensures Cut(zeros, WalkTo(node)) ==
        if f[node].Some? && f[node].value !in zeros then Cut(zeros, WalkTo(f[node].value)) + [node] else [node]
    {
      hide *;
      PredOf(node);
      if f[node].Some? {
        WalkEnds(f[node].value);
        CutNext(zeros, WalkTo(f[node].value), node);
      } else {
        CutOne(zeros, node);
      }
    }

    lemma WalkEnds(v: T)
      requires Visited(edges, start, r, f, order)
      ensures var w := WalkTo(v); w != [] && w[|w| - 1] == v
    {
      hide Visited;
      if v in order { TraceEnds(edges, start, r, f, order, IndexOf(order, v)); }
    }

    lemma PredOf(node: T)
      requires Solved() && node in nodes
      ensures Visited(edges, start, r, f, order) && node in f
      ensures f[node] == None ==> WalkTo(node) == [node]
      ensures f[node].Some? ==> var p := f[node].value;
        p in order && p in nodes && Rank(p) < Rank(node) && WalkTo(node) == WalkTo(p) + [node]
    {
      if node in order { KnownPred(node); } else { assert Frontier(edges, start, r, f, order, node); }
    }

    lemma KnownPred(node: T)
      requires Solved() && node in order
      ensures var k := IndexOf(order, node);
        if k == 0 then node == start && f[node] == None && WalkTo(node) == [node]
        else f[node].Some? && f[node].value in order && f[node].value in nodes && IndexOf(order, f[node].value) < k &&
             WalkTo(node) == WalkTo(f[node].value) + [node]
    {
      var k := IndexOf(order, node);
      if k > 0 {
        var i := IndexOf(order[..k], f[node].value);
        assert order[i] == f[node].value;
        SameIndex(order, f[node].value, i);
      }
    }

    lemma BestFound()
      requires Solved() && end in nodes
      ensures Visited(edges, start, r, f, order)
      ensures BestWalk(edges, start, end, WalkTo(end)) && Distinct(WalkTo(end))
    {
      hide Consistent, Covers, NonNegative, BestWalk, RoadIs, Stuck;
      WalkToIs(end);
      BestWalkFound(edges, nodes, start, r, f, order, end);
      if end in order {
        TraceIsDistinct(edges, start, r, f, order, IndexOf(order, end));
      }
    }

    lemma WalkToIs(v: T)
      requires Consistent(edges, nodes, start, r, f, order)
      ensures Visited(edges, start, r, f, order)
      ensures WalkTo(v) == if v in order then Trace(edges, start, r, f, order, IndexOf(order, v)) else [v]
    {
    }

    method ShortestPath() returns (walk: Option<seq<T>>)
      requires nodes == [] || Solved()
      modifies `path
      ensures walk.None? <==> end !in nodes
      ensures nodes != [] ==> Solved()
      ensures walk.Some? ==> path == walk.value == old(path) + Cut(zeros, WalkTo(end))
      ensures walk.Some? && old(path) == [] ==> walk.value == Cut(zeros, WalkTo(end))
    {
      if end !in nodes {
        return None;
      }
      ghost var before := path;
      RoadTo(end);
      if before == [] { assert [] + Cut(zeros, WalkTo(end)) == Cut(zeros, WalkTo(end)); }
      walk := Some(path);
    }

    /** Building the object and asking for its path; None when the original raises or does not return. */
    method Run(matrix: seq<Edge<T>>) returns (walk: Option<seq<T>>)
      requires NonNegative(matrix) && path == []
      modifies this
      ensures Distinct(nodes) && Covers(matrix, nodes)
      ensures Touched(matrix, nodes)
      ensures walk.Some? <==> start in nodes && end in nodes && (|nodes| == 1 || HasWayOut(matrix, nodes, start))
      ensures walk.Some? ==> BestUpToZero(matrix, start, end, zeros, walk.value)
      ensures walk.Some? && LeavesNoZero(matrix, zeros, end) ==> BestWalk(matrix, start, end, walk.value)
      ensures walk.Some? ==> Solved() && edges == matrix && end in nodes && end in r
      ensures walk.Some? && end != start ==>
        (Costs(matrix, start, end, walk.value, r[end]) <==> BestWalk(matrix, start, end, walk.value))
    {
      hide *;
      NumberOfVertices(matrix);
      ReadAndInit(matrix);
      var ok := GetShortestPathPerVertex();
      if !ok {
        return None;
      }
      walk := ShortestPath();
      if walk.Some? {
        Answer(matrix, walk.value);
      }
    }

    lemma Answer(matrix: seq<Edge<T>>, w: seq<T>)
      requires Solved() && end in nodes && edges == matrix
      requires Visited(edges, start, r, f, order) ==> w == Cut(zeros, WalkTo(end))
      ensures BestUpToZero(matrix, start, end, zeros, w)
      ensures LeavesNoZero(matrix, zeros, end) ==> BestWalk(matrix, start, end, w)
      ensures end in r
      ensures end != start ==> (Costs(matrix, start, end, w, r[end]) <==> BestWalk(matrix, start, end, w))
    {
      hide *;
      BestFound();
      PathFound(w);
      CostFound(w);
    }

    lemma PathFound(w: seq<T>)
      requires Solved() && end in nodes && Visited(edges, start, r, f, order) && w == Cut(zeros, WalkTo(end))
      ensures BestUpToZero(edges, start, end, zeros, w)
      ensures LeavesNoZero(edges, zeros, end) ==> BestWalk(edges, start, end, w)
    {
      BestFound();
      hide BestWalk, Cut, Uncut, Distinct, WalkTo, Solved, Visited;
      CutWalk(edges, start, end, zeros, WalkTo(end));
      if LeavesNoZero(edges, zeros, end) {
        NothingCut(edges, start, end, zeros, WalkTo(end));
      }
    }

    lemma CostFound(w: seq<T>)
      requires Solved() && end in nodes
      ensures end in r
      ensures end != start ==> (Costs(edges, start, end, w, r[end]) <==> BestWalk(edges, start, end, w))
    {
      assert end in r && Consistent(edges, nodes, start, r, f, order) && NonNegative(edges) && Covers(edges, nodes);
      hide *;
      if end != start {
        AllDistances(edges, nodes, start, r, f, order, end);
        if BestWalk(edges, start, end, w) {
          BestWalkCosts(edges, start, end, w, r[end]);
        }
        if Costs(edges, start, end, w, r[end]) {
          CostsAreBest(edges, start, end, w, r[end]);
        }
      }
    }

    method Cost() returns (d: Dist)
      requires Solved() && end in nodes
      ensures end in r && d == r[end]
      ensures end != start ==> Shortest(edges, start, end, d)
      ensures end == start ==>
        (Shortest(edges, start, end, d) <==>
        !(Weight(edges, start, start).Some? && Weight(edges, start, start).value > 0.0))
    {
      d := r[end];
      if end != start {
        AllDistances(edges, nodes, start, r, f, order, end);
      } else {
        OwnDistance(edges, start);
      }
    }
  }

  // ---------- Inputs that fail ----------

  /** The cost at the start itself with a self-loop of weight 1. */
  lemma SelfLoopCost()
    ensures var edges := [Edge(0, 0, 1.0)]; NonNegative(edges) && !Shortest(edges, 0, 0, Road(edges, 0, 0))
  {
    var edges := [Edge(0, 0, 1.0)];
    OwnDistance(edges, 0);
    assert Weight(edges, 0, 0) == Some(1.0);
  }

  /** Building the object raises when no row leads out of the start. */
  method RaisesWithoutWayOut() returns (walk: Option<seq<int>>)
    ensures walk == None
  {
    var edges := [Edge(1, 0, 1.0)];
    var dijkstra := new Dijkstra(0, 1, {0});
    walk := dijkstra.Run(edges);
    OnlyRowBack(edges, dijkstra.nodes);
  }

  /** One row from node 0 to node 1: the path asked for comes without its start. */
  method ZeroCutsThePath() returns (walk: Option<seq<int>>)
    ensures walk == Some([1]) && !BestWalk([Edge(0, 1, 1.0)], 0, 1, [1])
  {
    var edges := [Edge(0, 1, 1.0)];
    var dijkstra := new Dijkstra(0, 1, {0});
    walk := dijkstra.Run(edges);
    OnlyRow(edges, dijkstra.nodes, walk);
  }

  lemma OnlyRow(edges: seq<Edge<int>>, nodes: seq<int>, walk: Option<seq<int>>)
    requires edges == [Edge(0, 1, 1.0)] && Covers(edges, nodes)
    requires walk.Some? <==> 0 in nodes && 1 in nodes && (|nodes| == 1 || HasWayOut(edges, nodes, 0))
    requires walk.Some? ==> BestUpToZero(edges, 0, 1, {0}, walk.value)
    ensures walk == Some([1]) && !BestWalk(edges, 0, 1, [1])
  {
    assert edges[0] in edges;
    assert Weight(edges, 0, 1) == Some(1.0);
    assert HasWayOut(edges, nodes, 0);
    assert IsWalk(edges, [0, 1]) && From(edges, [0, 1], 0, 1);
    var w :| BestWalk(edges, 0, 1, w) && Distinct(w) && walk.value == Cut({0}, w);
    assert From(edges, w, 0, 1);
    assert Weight(edges, w[|w| - 2], w[|w| - 2 + 1]).Some?;
    WeightIsEdge(edges, w[|w| - 2], w[|w| - 1]);
  }

  lemma OnlyRowBack(edges: seq<Edge<int>>, nodes: seq<int>)
    requires edges == [Edge(1, 0, 1.0)] && Covers(edges, nodes)
    ensures |nodes| != 1 && !HasWayOut(edges, nodes, 0)
  {
    assert edges[0] in edges && 1 in nodes && 0 in nodes;
    assert edges[..0] == [];
    assert forall v :: v != 0 ==> Weight(edges, 0, v) == None;
  }

  /** With the path, the cost: what the two public queries of one object say together. */
  method PathAndCost<T(==, !new)>(start: T, end: T, zeros: set<T>, matrix: seq<Edge<T>>)
    returns (walk: Option<seq<T>>, cost: Dist)
    requires NonNegative(matrix)
    ensures walk.Some? ==> BestUpToZero(matrix, start, end, zeros, walk.value)
    ensures walk.Some? && LeavesNoZero(matrix, zeros, end) ==> BestWalk(matrix, start, end, walk.value)
    ensures walk.Some? && end != start ==> Shortest(matrix, start, end, cost)
    ensures walk.Some? && end != start ==>
      (Costs(matrix, start, end, walk.value, cost) <==> BestWalk(matrix, start, end, walk.value))
  {
    var dijkstra := new Dijkstra(start, end, zeros);
    walk := dijkstra.Run(matrix);
    cost := Inf;
    if walk.Some? {
      cost := dijkstra.Cost();
    }
  }
}
