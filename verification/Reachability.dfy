/** The semantic check that every flow has a path: depth-first search over a network that may have
    cycles, with a visited set shared by all the recursive calls. */
module Reachability {
  import opened Collections
  import opened LinkPaths

  // The outgoing elements of each element, in order; None stands for nil.
  type Network = map<int, seq<Option<int>>>

  ghost predicate Closed(net: Network)
  {
    forall a :: a in net ==> forall i :: 0 <= i < |net[a]| && net[a][i].Some? ==> net[a][i].value in net
  }

  ghost predicate Joined(net: Network, a: int, b: int) { a in net && Some(b) in net[a] }

  ghost predicate Route(net: Network, p: seq<int>, a: int, b: int)
  {
    if |p| == 0 then false
    else if |p| == 1 then a == b == p[0]
    else p[|p| - 1] == b && Joined(net, p[|p| - 2], b) && Route(net, p[..|p| - 1], a, p[|p| - 2])
  }

  ghost predicate Reaches(net: Network, a: int, b: int) { exists p: seq<int> :: Route(net, p, a, b) }

  lemma Itself(net: Network, a: int)
    ensures Reaches(net, a, a)
  {
    assert Route(net, [a], a, a);
  }

  lemma Further(net: Network, a: int, b: int, c: int)
    requires Reaches(net, a, b) && Joined(net, b, c)
    ensures Reaches(net, a, c)
  {
    var p: seq<int> :| Route(net, p, a, b);
    var q := p + [c];
    assert q[..|q| - 1] == p;
    assert p[|p| - 1] == b;
    assert Route(net, q, a, c);
  }

  lemma {:induction false} Compose(net: Network, a: int, b: int, q: seq<int>, c: int)
    requires Reaches(net, a, b) && Route(net, q, b, c)
    ensures Reaches(net, a, c)
    decreases |q|
  {
    if |q| > 1 {
      Compose(net, a, b, q[..|q| - 1], q[|q| - 2]);
      Further(net, a, q[|q| - 2], c);
    }
  }

  // Every outgoing element of a has been visited.
  ghost predicate Expanded(net: Network, a: int, visited: set<int>)
  {
    a in net && forall i :: 0 <= i < |net[a]| && net[a][i].Some? ==> net[a][i].value in visited
  }

  lemma {:induction false} ClosedContains(net: Network, visited: set<int>, a: int, p: seq<int>, b: int)
    requires a in visited && (forall x :: x in visited ==> Expanded(net, x, visited)) && Route(net, p, a, b)
    ensures b in visited
    decreases |p|
  {
    if |p| > 1 {
      ClosedContains(net, visited, a, p[..|p| - 1], p[|p| - 2]);
      var i :| 0 <= i < |net[p[|p| - 2]]| && net[p[|p| - 2]][i] == Some(b);
    }
  }

  class Search {
    const net: Network
    var reachables: set<int>

    constructor (net: Network)
      ensures this.net == net && reachables == {}
    {
      this.net, reachables := net, {};
    }

    /** Adds all that can be reached from the element without passing what was visited before. */
    method ReachablesFrom(element: Option<int>)
      requires Closed(net) && reachables <= net.Keys && (element.Some? ==> element.value in net)
      modifies `reachables
      ensures old(reachables) <= reachables <= net.Keys
      ensures element.None? ==> reachables == old(reachables)
      ensures element.Some? ==> element.value in reachables
      ensures forall x :: x in reachables - old(reachables) ==>
        Reaches(net, element.value, x) && Expanded(net, x, reachables)
      decreases net.Keys - reachables
    {
      if element.None? {
        return;
      }
      var a := element.value;
      if a in reachables {
        return;
      }
      ghost var before := reachables;
      reachables := reachables + {a};
      Itself(net, a);
      for i := 0 to |net[a]|
        modifies `reachables
        invariant before + {a} <= reachables <= net.Keys
        invariant forall k :: 0 <= k < i && net[a][k].Some? ==> net[a][k].value in reachables
        invariant forall x :: x in reachables - before ==> Reaches(net, a, x)
        invariant forall x :: x in reachables - before && x != a ==> Expanded(net, x, reachables)
      {
        ghost var was := reachables;
        ReachablesFrom(net[a][i]);
        forall x | x in reachables - was ensures Reaches(net, a, x) {
          Further(net, a, a, net[a][i].value);
          var q: seq<int> :| Route(net, q, net[a][i].value, x);
          Compose(net, a, net[a][i].value, q, x);
        }
        forall x | x in reachables - before && x != a ensures Expanded(net, x, reachables) {
          if x in was { assert Expanded(net, x, was); }
        }
      }
    }
  }

  /** Exactly the elements that can be reached: the visited set neither loses nor adds any. */
  method Reachables(net: Network, a: int) returns (r: set<int>)
    requires Closed(net) && a in net
    ensures forall b :: b in r <==> Reaches(net, a, b)
  {
    var search := new Search(net);
    search.ReachablesFrom(Some(a));
    r := search.reachables;
    forall b | Reaches(net, a, b) ensures b in r {
      var p: seq<int> :| Route(net, p, a, b);
      ClosedContains(net, r, a, p, b);
    }
  }

  /** The check of one flow: the first source and destination without a path, if any. */
  method CheckPathsExist(net: Network, sources: seq<int>, destinies: seq<int>) returns (missing: Option<(int, int)>)
    requires Closed(net) && forall a :: a in sources ==> a in net
    ensures missing.None? ==> forall a, b :: a in sources && b in destinies ==> Reaches(net, a, b)
    ensures missing.Some? ==>
      missing.value.0 in sources && missing.value.1 in destinies && !Reaches(net, missing.value.0, missing.value.1)
  {
    for i := 0 to |sources|
      invariant forall a, b :: a in sources[..i] && b in destinies ==> Reaches(net, a, b)
    {
      for j := 0 to |destinies|
        invariant forall b :: b in destinies[..j] ==> Reaches(net, sources[i], b)
      {
        var r := Reachables(net, sources[i]);
        if destinies[j] !in r {
          assert !Reaches(net, sources[i], destinies[j]);
          return Some((sources[i], destinies[j]));
        }
      }
    }
    missing := None;
  }

  // ---------- The check and the path search agree ----------

  // The outgoing elements are the far ends of the links.
  ghost predicate Linked(net: Network, links: seq<Link>)
  {
    forall a, b :: Joined(net, a, b) <==> exists l :: l in links && l.src == a && l.dst == b
  }

  lemma {:induction false} RouteIsChain(net: Network, links: seq<Link>, p: seq<int>, a: int,
      b: int) returns (c: seq<Link>)
    requires Linked(net, links) && Route(net, p, a, b)
    ensures Chain(links, c, a, b)
    decreases |p|
  {
    if |p| == 1 {
      c := [];
    } else {
      var d := RouteIsChain(net, links, p[..|p| - 1], a, p[|p| - 2]);
      var l :| l in links && l.src == p[|p| - 2] && l.dst == b;
      c := d + [l];
      assert c[..|c| - 1] == d;
    }
  }

  lemma {:induction false} ChainIsRoute(net: Network, links: seq<Link>, c: seq<Link>, a: int, b: int)
    requires Linked(net, links) && Chain(links, c, a, b)
    ensures Reaches(net, a, b)
    decreases |c|
  {
    if c == [] {
      Itself(net, a);
    } else {
      var last := c[|c| - 1];
      ChainIsRoute(net, links, c[..|c| - 1], a, last.src);
      assert Joined(net, last.src, b);
      Further(net, a, last.src, b);
    }
  }

  /** A flow that passes the check gets a shortest chain of links, and one that does not has none. */
  lemma CheckedMeansChained(net: Network, links: seq<Link>, a: int, b: int)
    requires Linked(net, links)
    ensures Reaches(net, a, b) <==> exists c: seq<Link> :: Chain(links, c, a, b)
    ensures Reaches(net, a, b) && a != b ==> IsEndpoint(links, a) && IsEndpoint(links, b) && LinkOut(links, a)
  {
    if Reaches(net, a, b) {
      var p: seq<int> :| Route(net, p, a, b);
      var c := RouteIsChain(net, links, p, a, b);
      assert exists d: seq<Link> :: Chain(links, d, a, b);
      if a != b { ChainLeaves(links, c, a, b); }
    }
    if exists c: seq<Link> :: Chain(links, c, a, b) {
      var c: seq<Link> :| Chain(links, c, a, b);
      ChainIsRoute(net, links, c, a, b);
    }
  }
}
