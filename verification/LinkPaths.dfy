/** From a shortest walk to the links of a flow's path, and the reachability check that is run before. */
module LinkPaths {
  import opened Collections
  import opened ShortestPaths

  datatype Link = Link(id: int, src: int, dst: int)
  datatype Host = Host(element: int, mac: int)

  function Rows(links: seq<Link>): (r: seq<Edge<int>>)
    ensures |r| == |links| && forall i :: 0 <= i < |links| ==> r[i] == Edge(links[i].src, links[i].dst, 1.0)
  {
    seq(|links|, i requires 0 <= i < |links| => Edge(links[i].src, links[i].dst, 1.0))
  }

  /** Links of the topology that lead from a to b, each starting where the one before ends. */
  ghost predicate Chain(links: seq<Link>, c: seq<Link>, a: int, b: int)
  {
    if c == [] then a == b
    else var last := c[|c| - 1]; last in links && last.dst == b && Chain(links, c[..|c| - 1], a, last.src)
  }

  ghost predicate Fewest(links: seq<Link>, c: seq<Link>, a: int, b: int)
  {
    Chain(links, c, a, b) && forall d: seq<Link> :: Chain(links, d, a, b) ==> |c| <= |d|
  }

  // A link from a to b exists exactly where the rows carry a weight, and that weight is one hop.
  lemma WeightIsLink(links: seq<Link>, a: int, b: int)
    ensures Weight(Rows(links), a, b).Some? <==> exists l :: l in links && l.src == a && l.dst == b
    ensures Weight(Rows(links), a, b).Some? ==> Weight(Rows(links), a, b).value == 1.0
  {
    if Weight(Rows(links), a, b).Some? {
      WeightIsEdge(Rows(links), a, b);
      var i :| 0 <= i < |links| && Rows(links)[i] == Edge(a, b, Weight(Rows(links), a, b).value);
      assert links[i] in links;
    }
    if exists l :: l in links && l.src == a && l.dst == b {
      var l :| l in links && l.src == a && l.dst == b;
      var i :| 0 <= i < |links| && links[i] == l;
      assert Rows(links)[i] == Edge(a, b, 1.0);
      EdgeHasWeight(Rows(links), Edge(a, b, 1.0));
    }
  }

  lemma {:induction false} WalkHops(links: seq<Link>, w: seq<int>)
    requires IsWalk(Rows(links), w)
    ensures Length(Rows(links), w) == (|w| - 1) as real
  {
    if |w| > 1 {
      var n := |w| - 1;
      assert Weight(Rows(links), w[n - 1], w[n - 1 + 1]).Some?;
      WeightIsLink(links, w[n - 1], w[n]);
      WalkHops(links, w[..n]);
    }
  }

  lemma {:induction false} ChainWalk(links: seq<Link>, c: seq<Link>, a: int, b: int) returns (w: seq<int>)
    requires Chain(links, c, a, b)
    ensures From(Rows(links), w, a, b) && |w| == |c| + 1
    decreases |c|
  {
    if c == [] {
      w := [a];
    } else {
      var last := c[|c| - 1];
      var v := ChainWalk(links, c[..|c| - 1], a, last.src);
      w := v + [b];
      WeightIsLink(links, last.src, b);
      forall i | 0 <= i < |w| - 1 ensures Weight(Rows(links), w[i], w[i + 1]).Some? {
        if i < |v| - 1 { assert Weight(Rows(links), v[i], v[i + 1]).Some?; }
      }
    }
  }

  lemma {:induction false} WalkChain(links: seq<Link>, w: seq<int>) returns (c: seq<Link>)
    requires IsWalk(Rows(links), w)
    ensures Chain(links, c, w[0], w[|w| - 1]) && |c| == |w| - 1
    decreases |w|
  {
    if |w| == 1 {
      c := [];
    } else {
      var n := |w| - 1;
      assert Weight(Rows(links), w[n - 1], w[n - 1 + 1]).Some?;
      WeightIsLink(links, w[n - 1], w[n]);
      var l :| l in links && l.src == w[n - 1] && l.dst == w[n];
      var d := WalkChain(links, w[..n]);
      c := d + [l];
    }
  }

  // ---------- find_path_between ----------

  ghost predicate IsEndpoint(links: seq<Link>, x: int) { exists l :: l in links && (l.src == x || l.dst == x) }

  ghost predicate LinkOut(links: seq<Link>, x: int) { exists l :: l in links && l.src == x && l.dst != x }

  ghost predicate OnlyLoops(links: seq<Link>, x: int) { forall l :: l in links ==> l.src == x && l.dst == x }

  // The search between these elements returns.
  ghost predicate Searchable(links: seq<Link>, src: int, dst: int)
  {
    IsEndpoint(links, src) && IsEndpoint(links, dst) && (LinkOut(links, src) || OnlyLoops(links, src))
  }

  /** The element of the first host with that address. */
  ghost predicate FirstNamed(hosts: seq<Host>, mac: int, element: int)
  {
    exists i :: 0 <= i < |hosts| && hosts[i] == Host(element, mac) && forall j :: 0 <= j < i ==> hosts[j].mac != mac
  }

  method FindHost(hosts: seq<Host>, mac: int) returns (element: Option<int>)
    ensures element.None? <==> forall h :: h in hosts ==> h.mac != mac
    ensures forall e :: FirstNamed(hosts, mac, e) <==> element == Some(e)
  {
    for i := 0 to |hosts|
      invariant forall j :: 0 <= j < i ==> hosts[j].mac != mac
    {
      if hosts[i].mac == mac {
        return Some(hosts[i].element);
      }
    }
    element := None;
  }

  /** The first link from a to b. */
  ghost predicate FirstLink(links: seq<Link>, a: int, b: int, link: Link)
  {
    && link in links && link.src == a && link.dst == b
    && exists i :: 0 <= i < |links| && links[i] == link && forall j :: 0 <= j < i ==>
      !(links[j].src == a && links[j].dst == b)
  }

  method FindLink(links: seq<Link>, a: int, b: int) returns (link: Link)
    requires exists l :: l in links && l.src == a && l.dst == b
    ensures FirstLink(links, a, b, link)
  {
    var i := 0;
    while !(links[i].src == a && links[i].dst == b)
      invariant 0 <= i < |links|
      invariant forall j :: 0 <= j < i ==> !(links[j].src == a && links[j].dst == b)
      decreases |links| - i
    {
      assert exists k :: i < k < |links| && links[k].src == a && links[k].dst == b;
      i := i + 1;
    }
    link := links[i];
  }

  // The links along a walk.
  method LinksAlong(links: seq<Link>, w: seq<int>) returns (chain: seq<Link>)
    requires IsWalk(Rows(links), w)
    ensures Chain(links, chain, w[0], w[|w| - 1]) && |chain| == |w| - 1
  {
    chain := [];
    for i := 0 to |w| - 1
      invariant |chain| == i && Chain(links, chain, w[0], w[i])
    {
      assert Weight(Rows(links), w[i], w[i + 1]).Some?;
      WeightIsLink(links, w[i], w[i + 1]);
      var l := FindLink(links, w[i], w[i + 1]);
      assert (chain + [l])[..i] == chain;
      chain := chain + [l];
    }
  }

  method Graph(links: seq<Link>) returns (graph: seq<Edge<int>>)
    ensures graph == Rows(links) && NonNegative(graph)
  {
    graph := [];
    for i := 0 to |links|
      invariant graph == Rows(links)[..i]
    {
      graph := graph + [Edge(links[i].src, links[i].dst, 1.0)];
    }
    assert graph == Rows(links);
  }

  /** None when the original raises or does not return. */
  method PathBetween(links: seq<Link>, src: int, dst: int) returns (path: Option<seq<Link>>)
    ensures path.Some? <==> Searchable(links, src, dst)
    ensures path.Some? && (exists c: seq<Link> :: Chain(links, c, src, dst)) ==> Fewest(links, path.value, src, dst)
    ensures path.Some? && !(exists c: seq<Link> :: Chain(links, c, src, dst)) ==> path.value == []
  {
    hide *;
    var graph := Graph(links);
    var solution := new Dijkstra(src, dst, {});  // nodes stand for objects here, none equal to 0
    var walk := solution.Run(graph);
    NoZeros(graph, dst);
    SearchReturns(links, solution.nodes, src, dst);
    if walk.None? {
      return None;
    }
    WalkFound(links, src, dst, walk.value);
    var chain := LinksAlong(links, walk.value);
    ChainIsBest(links, src, dst, walk.value, chain);
    path := Some(chain);
  }

  lemma NoZeros(graph: seq<Edge<int>>, dst: int)
    ensures LeavesNoZero(graph, {}, dst)
  {
  }

  lemma SearchReturns(links: seq<Link>, nodes: seq<int>, src: int, dst: int)
    requires Distinct(nodes) && Covers(Rows(links), nodes) && Touched(Rows(links), nodes)
    ensures Searchable(links, src, dst) <==>
      src in nodes && dst in nodes && (|nodes| == 1 || HasWayOut(Rows(links), nodes, src))
  {
    NodesAreEndpoints(links, nodes);
    WaysOut(links, nodes, src);
    hide IsEndpoint, LinkOut, OnlyLoops, HasWayOut, Distinct, Covers, Touched, Rows;
  }

  lemma ChainIsBest(links: seq<Link>, a: int, b: int, w: seq<int>, chain: seq<Link>)
    requires BestWalk(Rows(links), a, b, w)
    requires w != [] && Chain(links, chain, w[0], w[|w| - 1]) && |chain| == |w| - 1
    ensures if exists c: seq<Link> :: Chain(links, c, a, b) then Fewest(links, chain, a, b) else chain == []
  {
    hide Chain, BestWalk, Rows, IsWalk;
    WalkFound(links, a, b, w);
  }

  lemma NodesAreEndpoints(links: seq<Link>, nodes: seq<int>)
    requires Covers(Rows(links), nodes)
    requires Touched(Rows(links), nodes)
    ensures forall v :: v in nodes <==> IsEndpoint(links, v)
  {
    forall v | IsEndpoint(links, v) ensures v in nodes {
      var l :| l in links && (l.src == v || l.dst == v);
      var i :| 0 <= i < |links| && links[i] == l;
      assert Rows(links)[i] in Rows(links);
    }
    forall v | v in nodes ensures IsEndpoint(links, v) {
      var e :| e in Rows(links) && (e.src == v || e.dst == v);
      var i :| 0 <= i < |links| && Rows(links)[i] == e;
      assert links[i] in links;
    }
  }

  lemma WaysOut(links: seq<Link>, nodes: seq<int>, src: int)
    requires Distinct(nodes) && forall v :: v in nodes <==> IsEndpoint(links, v)
    ensures HasWayOut(Rows(links), nodes, src) <==> LinkOut(links, src)
    ensures src in nodes ==> (|nodes| == 1 <==> OnlyLoops(links, src))
  {
    forall v ensures Weight(Rows(links), src, v).Some? <==> exists l :: l in links && l.src == src && l.dst == v {
      WeightIsLink(links, src, v);
    }
    if LinkOut(links, src) {
      var l :| l in links && l.src == src && l.dst != src;
      assert IsEndpoint(links, l.dst);
      assert Weight(Rows(links), src, l.dst).Some?;
    }
    if src in nodes {
      var k := IndexOf(nodes, src);
      if |nodes| > 1 {
        var j := if k == 0 then 1 else 0;
        assert nodes[j] in nodes && nodes[j] != src && IsEndpoint(links, nodes[j]);
      }
      if |nodes| == 1 {
        forall l | l in links ensures l.src == src && l.dst == src {
          assert IsEndpoint(links, l.src) && IsEndpoint(links, l.dst);
        }
      }
    }
  }

  lemma WalkFound(links: seq<Link>, a: int, b: int, w: seq<int>)
    requires BestWalk(Rows(links), a, b, w)
    ensures IsWalk(Rows(links), w)
    ensures if exists c: seq<Link> :: Chain(links, c, a, b)
      then w[0] == a && w[|w| - 1] == b && (forall c: seq<Link> :: Chain(links, c, a, b) ==> |w| - 1 <= |c|)
      else |w| == 1
    ensures |w| == 1 && w[0] == a && w[|w| - 1] == b ==> Chain(links, [], a, b)
  {
    forall c: seq<Link> | Chain(links, c, a, b) ensures From(Rows(links), w, a, b) && |w| - 1 <= |c| {
      var v := ChainWalk(links, c, a, b);
      WalkHops(links, v);
      WalkHops(links, w);
    }
    if From(Rows(links), w, a, b) { var c := WalkChain(links, w); }
  }

  datatype Path = Path(src: int, dst: int, links: seq<Link>)

  /** The whole of find_path_between: hosts by their address, then the path between their elements.
      Where there is a chain of links at all between two different elements, one is found. */
  method FindPathBetween(links: seq<Link>, hosts: seq<Host>, srcMac: int, dstMac: int) returns (path: Option<Path>)
    ensures path.Some? <==>
      exists a, b :: FirstNamed(hosts, srcMac, a) && FirstNamed(hosts, dstMac, b) && Searchable(links, a, b)
    ensures path.Some? ==>
      var Path(src, dst, found) := path.value;
      && FirstNamed(hosts, srcMac, src) && FirstNamed(hosts, dstMac, dst)
      && if exists c: seq<Link> :: Chain(links, c, src, dst) then Fewest(links, found, src, dst) else found == []
    ensures forall a, b, c: seq<Link> ::
      FirstNamed(hosts, srcMac, a) && FirstNamed(hosts, dstMac, b) && a != b && Chain(links, c, a, b) ==> path.Some?
  {
    var src := FindHost(hosts, srcMac);
    var dst := FindHost(hosts, dstMac);
    if src.None? || dst.None? {
      return None;
    }
    var found := PathBetween(links, src.value, dst.value);
    forall c: seq<Link> | src.value != dst.value && Chain(links, c, src.value, dst.value)
      ensures Searchable(links, src.value, dst.value) {
      ChainLeaves(links, c, src.value, dst.value);
    }
    path := if found.Some? then Some(Path(src.value, dst.value, found.value)) else None;
  }

  lemma {:induction false} ChainLeaves(links: seq<Link>, c: seq<Link>, a: int, b: int)
    requires Chain(links, c, a, b) && a != b
    ensures IsEndpoint(links, a) && IsEndpoint(links, b) && LinkOut(links, a)
    decreases |c|
  {
    var last := c[|c| - 1];
    if last.src != a { ChainLeaves(links, c[..|c| - 1], a, last.src); }
  }
}
