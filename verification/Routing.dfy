/** Event routing through nested couplings.

    A coupling passes an output of its active child to siblings along internal connections and to its
    own outputs along external output connections; an input goes down the external input connections.
    The flattened table joins the same connections without following any event. */
module Routing {

  // childSource, sourcePort, childSink, sinkPort.
  datatype Connection = Connection(src: nat, sport: int, dst: nat, dport: int)

  datatype Net = Leaf | Node(children: seq<Net>, ic: seq<Connection>, eic: seq<Connection>, eoc: seq<Connection>)

  // A port of the atomic model at the end of a path of child indices.
  datatype Endpoint = Endpoint(path: seq<nat>, port: int)

  predicate Wired(net: Net)
  {
    match net
    case Leaf => true
    case Node(children, ic, eic, eoc) =>
      && (forall k :: k in ic ==> k.src < |children| && k.dst < |children| && k.src != k.dst)
      && (forall k :: k in eic ==> k.dst < |children|)
      && (forall k :: k in eoc ==> k.src < |children|)
      && (forall i :: 0 <= i < |children| ==> Wired(children[i]))
  }

  ghost predicate AtomicAt(net: Net, path: seq<nat>)
  {
    match net
    case Leaf => path == []
    case Node(children, _, _, _) => path != [] && path[0] < |children| && AtomicAt(children[path[0]], path[1..])
  }

  // ---------- Following an event ----------

  function Prefix(i: nat, s: seq<Endpoint>): seq<Endpoint>
  {
    if s == [] then [] else [Endpoint([i] + s[0].path, s[0].port)] + Prefix(i, s[1..])
  }

  function FromPort(conns: seq<Connection>, p: int): (r: seq<Connection>)
    ensures forall k :: k in r ==> k in conns
  {
    if conns == [] then [] else (if conns[0].sport == p then [conns[0]] else []) + FromPort(conns[1..], p)
  }

  function FromChild(conns: seq<Connection>, i: nat, p: int): (r: seq<Connection>)
    ensures forall k :: k in r ==> k in conns && k.src == i && k.sport == p
  {
    if conns == [] then []
    else (if conns[0].src == i && conns[0].sport == p then [conns[0]] else []) + FromChild(conns[1..], i, p)
  }

  function SinkPorts(conns: seq<Connection>): seq<int>
  {
    if conns == [] then [] else [conns[0].dport] + SinkPorts(conns[1..])
  }

  /** Atomic inputs reached by an event on input port p: dext, recursively. */
  function Down(net: Net, p: int): seq<Endpoint>
    requires Wired(net)
    decreases net, 1, 0
  {
    match net
    case Leaf => [Endpoint([], p)]
    case Node(_, _, eic, _) => Fan(net, FromPort(eic, p))
  }

  function Fan(net: Net, conns: seq<Connection>): seq<Endpoint>
    requires Wired(net) && net.Node? && forall k :: k in conns ==> k.dst < |net.children|
    decreases net, 0, |conns|
  {
    if conns == [] then []
    else Prefix(conns[0].dst, Down(net.children[conns[0].dst], conns[0].dport)) + Fan(net, conns[1..])
  }

  /** propagate for each of the ports the active child i emitted on: along internal connections. */
  function Across(net: Net, i: nat, ports: seq<int>): seq<Endpoint>
    requires Wired(net) && net.Node?
  {
    if ports == [] then [] else Fan(net, FromChild(net.ic, i, ports[0])) + Across(net, i, ports[1..])
  }

  /** ... and along external output connections: the ports the father is asked to propagate. */
  function Out(eoc: seq<Connection>, i: nat, ports: seq<int>): seq<int>
  {
    if ports == [] then [] else SinkPorts(FromChild(eoc, i, ports[0])) + Out(eoc, i, ports[1..])
  }

  datatype Effect = Effect(targets: seq<Endpoint>, outs: seq<int>)

  /** One output of the atomic model at `path`: the inputs it reaches inside `net`, and the output
      ports of `net` it leaves by. */
  function Emit(net: Net, path: seq<nat>, p: int): Effect
    requires Wired(net) && AtomicAt(net, path)
  {
    match net
    case Leaf => Effect([], [p])
    case Node(children, _, _, eoc) =>
      var i, inner := path[0], Emit(children[path[0]], path[1..], p);
      Effect(Prefix(i, inner.targets) + Across(net, i, inner.outs), Out(eoc, i, inner.outs))
  }

  // ---------- The flattened table ----------

  datatype Row = Row(src: Endpoint, dst: Endpoint)

  /** Atomic outputs joined to output port p. */
  function Feeds(net: Net, p: int): seq<Endpoint>
    requires Wired(net)
    decreases net, 1, 0
  {
    match net
    case Leaf => [Endpoint([], p)]
    case Node(_, _, _, eoc) => FeedsVia(net, eoc, p)
  }

  function FeedsVia(net: Net, conns: seq<Connection>, p: int): seq<Endpoint>
    requires Wired(net) && net.Node? && forall k :: k in conns ==> k.src < |net.children|
    decreases net, 0, |conns|
  {
    if conns == [] then []
    else (if conns[0].dport == p then Prefix(conns[0].src, Feeds(net.children[conns[0].src], conns[0].sport)) else [])
         + FeedsVia(net, conns[1..], p)
  }

  function Product(a: seq<Endpoint>, b: seq<Endpoint>): seq<Row>
  {
    if a == [] then [] else RowsFrom(a[0], b) + Product(a[1..], b)
  }

  function RowsFrom(x: Endpoint, b: seq<Endpoint>): seq<Row>
  {
    if b == [] then [] else [Row(x, b[0])] + RowsFrom(x, b[1..])
  }

  function PrefixRows(i: nat, s: seq<Row>): seq<Row>
  {
    if s == [] then []
    else
      var src, dst := s[0].src, s[0].dst;
      [Row(Endpoint([i] + src.path, src.port), Endpoint([i] + dst.path, dst.port))] + PrefixRows(i, s[1..])
  }

  /** The connections between atomic models that a model without couplings would have. */
  function Table(net: Net): seq<Row>
    requires Wired(net)
    decreases net, 1, 0
  {
    match net
    case Leaf => []
    case Node(children, ic, _, _) => InnerTables(net, |children|) + JoinTable(net, ic)
  }

  function InnerTables(net: Net, n: nat): seq<Row>
    requires Wired(net) && net.Node? && n <= |net.children|
    decreases net, 0, n
  {
    if n == 0 then [] else InnerTables(net, n - 1) + PrefixRows(n - 1, Table(net.children[n - 1]))
  }

  function JoinTable(net: Net, conns: seq<Connection>): seq<Row>
    requires Wired(net) && net.Node? && forall k :: k in conns ==> k.src < |net.children| && k.dst < |net.children|
  {
    if conns == [] then []
    else Product(Prefix(conns[0].src, Feeds(net.children[conns[0].src], conns[0].sport)),
                 Prefix(conns[0].dst, Down(net.children[conns[0].dst], conns[0].dport)))
         + JoinTable(net, conns[1..])
  }

  // ---------- Counting ----------

  ghost function N<T>(s: seq<T>, x: T): nat { multiset(s)[x] }

  lemma Split<T>(a: seq<T>, b: seq<T>, x: T)
    ensures N(a + b, x) == N(a, x) + N(b, x)
  {
  }

  lemma Single<T>(h: T, x: T)
    ensures N([h], x) == if h == x then 1 else 0
    ensures N<T>([], x) == 0
  {
  }

  lemma Distribute(a: nat, b: nat, w: nat)
    ensures (a + b) * w == a * w + b * w
  {
  }

  function Tail(x: Endpoint): Endpoint { if x.path == [] then x else Endpoint(x.path[1..], x.port) }

  lemma InsideIs(i: nat, e: Endpoint, x: Endpoint)
    ensures Endpoint([i] + e.path, e.port) == x <==> x.path != [] && x.path[0] == i && e == Tail(x)
  {
    if x.path != [] { assert x.path == [x.path[0]] + x.path[1..]; }
    assert ([i] + e.path)[1..] == e.path;
  }

  lemma {:induction false} PrefixCount(i: nat, s: seq<Endpoint>, x: Endpoint)
    ensures N(Prefix(i, s), x) == if x.path != [] && x.path[0] == i then N(s, Tail(x)) else 0
  {
    hide N;
    Single(x, x);
    Single(Tail(x), Tail(x));
    if s != [] {
      PrefixCount(i, s[1..], x);
      var h := Endpoint([i] + s[0].path, s[0].port);
      Split([h], Prefix(i, s[1..]), x);
      Split([s[0]], s[1..], Tail(x));
      Single(h, x);
      Single(s[0], Tail(x));
      InsideIs(i, s[0], x);
      assert s == [s[0]] + s[1..];
    }
  }

  lemma {:induction false} PrefixRowsCount(i: nat, s: seq<Row>, x: Endpoint, y: Endpoint)
    requires x.path != [] && y.path != []
    ensures N(PrefixRows(i, s), Row(x, y)) == if x.path[0] == i && y.path[0] == i then N(s, Row(Tail(x), Tail(y)))
      else 0
  {
    hide N;
    var r, t := Row(x, y), Row(Tail(x), Tail(y));
    Single(r, r);
    Single(t, t);
    if s != [] {
      PrefixRowsCount(i, s[1..], x, y);
      var h := PrefixRows(i, s)[0];
      Split([h], PrefixRows(i, s[1..]), r);
      Split([s[0]], s[1..], t);
      Single(h, r);
      Single(s[0], t);
      InsideIs(i, s[0].src, x);
      InsideIs(i, s[0].dst, y);
      assert s == [s[0]] + s[1..];
      hide Tail;
    }
  }

  lemma {:induction false} PrefixRowsNonempty(i: nat, s: seq<Row>, x: Endpoint, y: Endpoint)
    requires y.path == []
    ensures N(PrefixRows(i, s), Row(x, y)) == 0
  {
    if s != [] {
      PrefixRowsNonempty(i, s[1..], x, y);
      Split([PrefixRows(i, s)[0]], PrefixRows(i, s[1..]), Row(x, y));
    }
  }

  lemma {:induction false} RowsFromCount(x: Endpoint, b: seq<Endpoint>, r: Row)
    ensures N(RowsFrom(x, b), r) == if r.src == x then N(b, r.dst) else 0
  {
    if b != [] {
      RowsFromCount(x, b[1..], r);
      Split([Row(x, b[0])], RowsFrom(x, b[1..]), r);
      assert b == [b[0]] + b[1..];
      Split([b[0]], b[1..], r.dst);
    }
  }

  lemma {:induction false} ProductCount(a: seq<Endpoint>, b: seq<Endpoint>, r: Row)
    ensures N(Product(a, b), r) == N(a, r.src) * N(b, r.dst)
  {
    hide N, RowsFrom;
    Single(r, r);
    Single(r.src, r.src);
    if a != [] {
      Single(a[0], r.src);
      ProductCount(a[1..], b, r);
      RowsFromCount(a[0], b, r);
      Split(RowsFrom(a[0], b), Product(a[1..], b), r);
      assert a == [a[0]] + a[1..];
      Split([a[0]], a[1..], r.src);
      Distribute(N([a[0]], r.src), N(a[1..], r.src), N(b, r.dst));
    }
  }

  // ---------- Outputs: forwards and backwards agree ----------

  // Each external output connection from child i to port p, as often as the child's port was used.
  ghost function OutCount(eoc: seq<Connection>, i: nat, ports: seq<int>, p: int): nat
  {
    if eoc == [] then 0
    else (if eoc[0].src == i && eoc[0].dport == p then N(ports, eoc[0].sport) else 0) + OutCount(eoc[1..], i, ports, p)
  }

  lemma {:induction false} OutCountSplit(eoc: seq<Connection>, i: nat, a: seq<int>, b: seq<int>, p: int)
    ensures OutCount(eoc, i, a + b, p) == OutCount(eoc, i, a, p) + OutCount(eoc, i, b, p)
  {
    if eoc != [] {
      OutCountSplit(eoc[1..], i, a, b, p);
      Split(a, b, eoc[0].sport);
    }
  }

  lemma {:induction false} OutCountOne(eoc: seq<Connection>, i: nat, o: int, p: int)
    ensures OutCount(eoc, i, [o], p) == N(SinkPorts(FromChild(eoc, i, o)), p)
  {
    hide N;
    Single(p, p);
    if eoc != [] {
      OutCountOne(eoc[1..], i, o, p);
      Single(o, eoc[0].sport);
      var rest := FromChild(eoc[1..], i, o);
      if eoc[0].src == i && eoc[0].sport == o {
        assert FromChild(eoc, i, o) == [eoc[0]] + rest;
        assert ([eoc[0]] + rest)[1..] == rest;
        Split([eoc[0].dport], SinkPorts(rest), p);
        Single(eoc[0].dport, p);
      } else {
        assert FromChild(eoc, i, o) == rest;
      }
    }
  }

  lemma {:induction false} OutCounts(eoc: seq<Connection>, i: nat, ports: seq<int>, p: int)
    ensures N(Out(eoc, i, ports), p) == OutCount(eoc, i, ports, p)
  {
    hide N, FromChild, SinkPorts, OutCount;
    Single(p, p);
    if ports == [] {
      NoOut(eoc, i, p);
    } else {
      OutCounts(eoc, i, ports[1..], p);
      OutCountOne(eoc, i, ports[0], p);
      Split(SinkPorts(FromChild(eoc, i, ports[0])), Out(eoc, i, ports[1..]), p);
      assert ports == [ports[0]] + ports[1..];
      OutCountSplit(eoc, i, [ports[0]], ports[1..], p);
    }
  }

  lemma {:induction false} NoOut(eoc: seq<Connection>, i: nat, p: int)
    ensures OutCount(eoc, i, [], p) == 0
  {
    if eoc != [] { NoOut(eoc[1..], i, p); }
  }

  lemma {:induction false} FeedsViaCount(net: Net, conns: seq<Connection>, path: seq<nat>, p: int, ports: seq<int>,
      r: int)
    requires Wired(net) && net.Node? && forall k :: k in conns ==> k.src < |net.children|
    requires AtomicAt(net, path)
    requires forall o :: N(ports, o) == N(Feeds(net.children[path[0]], o), Endpoint(path[1..], p))
    ensures N(FeedsVia(net, conns, r), Endpoint(path, p)) == OutCount(conns, path[0], ports, r)
    decreases conns
  {
    if conns != [] {
      FeedsViaCount(net, conns[1..], path, p, ports, r);
      var k := conns[0];
      var here := if k.dport == r then Prefix(k.src, Feeds(net.children[k.src], k.sport)) else [];
      Split(here, FeedsVia(net, conns[1..], r), Endpoint(path, p));
      PrefixCount(k.src, Feeds(net.children[k.src], k.sport), Endpoint(path, p));
    }
  }

  /** An atomic output leaves by port r as often as the flattened outputs of r list it. */
  lemma {:induction false} OutputsAgree(net: Net, path: seq<nat>, p: int, r: int)
    requires Wired(net) && AtomicAt(net, path)
    ensures N(Emit(net, path, p).outs, r) == N(Feeds(net, r), Endpoint(path, p))
    decreases net
  {
    if net.Node? {
      var child, outs := net.children[path[0]], Emit(net.children[path[0]], path[1..], p).outs;
      forall o ensures N(outs, o) ==
        N(Feeds(child, o), Endpoint(path[1..], p)) { OutputsAgree(child, path[1..], p, o); }
      FeedsViaCount(net, net.eoc, path, p, outs, r);
      OutCounts(net.eoc, path[0], outs, r);
    }
  }

  // ---------- Deliveries ----------

  function Weighted(a: nat, b: nat): nat { a * b }

  ghost function AcrossCount(net: Net, conns: seq<Connection>, i: nat, ports: seq<int>, x: Endpoint): nat
    requires Wired(net) && net.Node? && forall k :: k in conns ==> k.dst < |net.children|
  {
    if conns == [] then 0
    else
      var k := conns[0];
      assert k in conns && forall l :: l in conns[1..] ==> l in conns;
      (if k.src == i then Weighted(N(ports, k.sport), N(Prefix(k.dst, Down(net.children[k.dst], k.dport)), x)) else 0)
      + AcrossCount(net, conns[1..], i, ports, x)
  }

  lemma {:induction false} AcrossCountSplit(net: Net, conns: seq<Connection>, i: nat, a: seq<int>, b: seq<int>,
      x: Endpoint)
    requires Wired(net) && net.Node? && forall k :: k in conns ==> k.dst < |net.children|
    ensures AcrossCount(net, conns, i, a + b, x) == AcrossCount(net, conns, i, a, x) + AcrossCount(net, conns, i, b, x)
    decreases conns
  {
    hide N, Down, Prefix;
    if conns != [] {
      AcrossCountSplit(net, conns[1..], i, a, b, x);
      Split(a, b, conns[0].sport);
      var w := N(Prefix(conns[0].dst, Down(net.children[conns[0].dst], conns[0].dport)), x);
      Distribute(N(a, conns[0].sport), N(b, conns[0].sport), w);
    }
  }

  lemma {:induction false} AcrossCountOne(net: Net, conns: seq<Connection>, i: nat, o: int, x: Endpoint)
    requires Wired(net) && net.Node? && forall k :: k in conns ==> k.dst < |net.children|
    ensures AcrossCount(net, conns, i, [o], x) == N(Fan(net, FromChild(conns, i, o)), x)
    decreases conns
  {
    hide N, Down, Prefix;
    Single(x, x);
    if conns != [] {
      AcrossCountOne(net, conns[1..], i, o, x);
      Single(o, conns[0].sport);
      var rest := FromChild(conns[1..], i, o);
      if conns[0].src == i && conns[0].sport == o {
        assert FromChild(conns, i, o) == [conns[0]] + rest;
        assert ([conns[0]] + rest)[1..] == rest;
        Split(Prefix(conns[0].dst, Down(net.children[conns[0].dst], conns[0].dport)), Fan(net, rest), x);
      } else {
        assert FromChild(conns, i, o) == rest;
      }
    }
  }

  lemma {:induction false} AcrossCounts(net: Net, i: nat, ports: seq<int>, x: Endpoint)
    requires Wired(net) && net.Node?
    ensures N(Across(net, i, ports), x) == AcrossCount(net, net.ic, i, ports, x)
    decreases ports
  {
    hide N, Fan, FromChild, AcrossCount;
    Single(x, x);
    if ports == [] {
      NoAcross(net, net.ic, i, x);
    } else {
      AcrossCounts(net, i, ports[1..], x);
      AcrossCountOne(net, net.ic, i, ports[0], x);
      Split(Fan(net, FromChild(net.ic, i, ports[0])), Across(net, i, ports[1..]), x);
      assert ports == [ports[0]] + ports[1..];
      AcrossCountSplit(net, net.ic, i, [ports[0]], ports[1..], x);
    }
  }

  lemma {:induction false} NoAcross(net: Net, conns: seq<Connection>, i: nat, x: Endpoint)
    requires Wired(net) && net.Node? && forall k :: k in conns ==> k.dst < |net.children|
    ensures AcrossCount(net, conns, i, [], x) == 0
    decreases conns
  {
    if conns != [] { NoAcross(net, conns[1..], i, x); }
  }

  lemma {:induction false} JoinCounts(net: Net, conns: seq<Connection>, path: seq<nat>, p: int, ports: seq<int>,
      x: Endpoint)
    requires Wired(net) && net.Node? && forall k :: k in conns ==> k.src < |net.children| && k.dst < |net.children|
    requires AtomicAt(net, path)
    requires forall o :: N(ports, o) == N(Feeds(net.children[path[0]], o), Endpoint(path[1..], p))
    ensures N(JoinTable(net, conns), Row(Endpoint(path, p), x)) == AcrossCount(net, conns, path[0], ports, x)
    decreases conns
  {
    hide N, Down, Prefix, Feeds, Product;
    Single(Row(x, x), Row(x, x));
    Single(Row(Endpoint(path, p), x), Row(Endpoint(path, p), x));
    if conns != [] {
      JoinCounts(net, conns[1..], path, p, ports, x);
      var k := conns[0];
      var a, b := Prefix(k.src, Feeds(net.children[k.src], k.sport)), Prefix(k.dst, Down(net.children[k.dst], k.dport));
      Split(Product(a, b), JoinTable(net, conns[1..]), Row(Endpoint(path, p), x));
      ProductCount(a, b, Row(Endpoint(path, p), x));
      PrefixCount(k.src, Feeds(net.children[k.src], k.sport), Endpoint(path, p));
    }
  }

  lemma {:induction false} InnerCounts(net: Net, n: nat, x: Endpoint, y: Endpoint)
    requires Wired(net) && net.Node? && n <= |net.children| && x.path != [] && x.path[0] < |net.children|
    ensures N(InnerTables(net, n), Row(x, y)) ==
      if x.path[0] < n && y.path != [] && y.path[0] == x.path[0]
      then N(Table(net.children[x.path[0]]), Row(Tail(x), Tail(y))) else 0
    decreases n
  {
    hide N, Table, PrefixRows, Tail;
    Single(Row(x, y), Row(x, y));
    if n > 0 {
      InnerCounts(net, n - 1, x, y);
      var t := Table(net.children[n - 1]);
      Split(InnerTables(net, n - 1), PrefixRows(n - 1, t), Row(x, y));
      if y.path == [] { PrefixRowsNonempty(n - 1, t, x, y); } else { PrefixRowsCount(n - 1, t, x, y); }
    }
  }

  /** Routing an event level by level delivers it to every atomic input exactly as often as the
      flattened table connects the two. */
  lemma {:induction false} RoutingIsFlat(net: Net, path: seq<nat>, p: int, x: Endpoint)
    requires Wired(net) && AtomicAt(net, path)
    ensures multiset(Emit(net, path, p).targets)[x] == multiset(Table(net))[Row(Endpoint(path, p), x)]
    decreases net
  {
    if net.Node? {
      var i, child := path[0], net.children[path[0]];
      var inner := Emit(child, path[1..], p);
      forall o ensures N(inner.outs, o) ==
        N(Feeds(child, o), Endpoint(path[1..], p)) { OutputsAgree(child, path[1..], p, o); }
      Split(Prefix(i, inner.targets), Across(net, i, inner.outs), x);
      PrefixCount(i, inner.targets, x);
      AcrossCounts(net, i, inner.outs, x);
      JoinCounts(net, net.ic, path, p, inner.outs, x);
      InnerCounts(net, |net.children|, Endpoint(path, p), x);
      Split(InnerTables(net, |net.children|), JoinTable(net, net.ic), Row(Endpoint(path, p), x));
      RoutingIsFlat(child, path[1..], p, Tail(x));
    }
  }

  // ---------- Counting connections alone ----------

  /** The ways from input port p down to the input `port` of the atomic model at `path`: one connection
      after the other, each starting where the one before ends. */
  ghost function WaysDown(net: Net, p: int, path: seq<nat>, port: int): nat
    decreases net, 1, 0
  {
    match net
    case Leaf => if path == [] && port == p then 1 else 0
    case Node(_, _, eic, _) => WaysDownBy(net, eic, p, path, port)
  }

  ghost function WaysDownBy(net: Net, conns: seq<Connection>, p: int, path: seq<nat>, port: int): nat
    requires net.Node?
    decreases net, 0, |conns|
  {
    if conns == [] then 0
    else
      var k := conns[0];
      (if k.sport == p && path != [] && k.dst == path[0] && k.dst < |net.children|
        then WaysDown(net.children[k.dst], k.dport, path[1..], port) else 0)
      + WaysDownBy(net, conns[1..], p, path, port)
  }

  /** The ways from the output `port` of the atomic model at `path` up to output port p. */
  ghost function WaysUp(net: Net, path: seq<nat>, port: int, p: int): nat
    decreases net, 1, 0
  {
    match net
    case Leaf => if path == [] && port == p then 1 else 0
    case Node(_, _, _, eoc) => WaysUpBy(net, eoc, path, port, p)
  }

  ghost function WaysUpBy(net: Net, conns: seq<Connection>, path: seq<nat>, port: int, p: int): nat
    requires net.Node?
    decreases net, 0, |conns|
  {
    if conns == [] then 0
    else
      var k := conns[0];
      (if k.dport == p && path != [] && k.src == path[0] && k.src < |net.children|
        then WaysUp(net.children[k.src], path[1..], port, k.sport) else 0)
      + WaysUpBy(net, conns[1..], path, port, p)
  }

  /** The ways from an atomic output x to an atomic input y: up to a common coupling, across by one of its
      internal connections, and down. */
  ghost function Ways(net: Net, x: Endpoint, y: Endpoint): nat
    decreases net
  {
    if net.Leaf? || x.path == [] || y.path == [] || x.path[0] >= |net.children| then 0
    else
      (if x.path[0] == y.path[0] then Ways(net.children[x.path[0]], Tail(x), Tail(y)) else 0)
      + WaysAcross(net, net.ic, x, y)
  }

  ghost function WaysAcross(net: Net, conns: seq<Connection>, x: Endpoint, y: Endpoint): nat
    requires net.Node? && x.path != [] && y.path != []
    decreases conns
  {
    if conns == [] then 0
    else
      var k := conns[0];
      (if k.src == x.path[0] && k.src < |net.children| && k.dst == y.path[0] && k.dst < |net.children|
        then WaysUp(net.children[k.src], x.path[1..], x.port, k.sport) *
             WaysDown(net.children[k.dst], k.dport, y.path[1..], y.port) else 0)
      + WaysAcross(net, conns[1..], x, y)
  }

  /** An input port reaches an atomic input as often as connections lead there. */
  lemma {:induction false} DownIsWays(net: Net, p: int, path: seq<nat>, port: int)
    requires Wired(net)
    ensures N(Down(net, p), Endpoint(path, port)) == WaysDown(net, p, path, port)
    decreases net, 1, 0
  {
    hide N;
    if net.Leaf? {
      Single(Endpoint([], p), Endpoint(path, port));
    } else {
      FanIsWays(net, net.eic, p, path, port);
    }
  }

  lemma {:induction false} FanIsWays(net: Net, conns: seq<Connection>, p: int, path: seq<nat>, port: int)
    requires Wired(net) && net.Node? && forall k :: k in conns ==> k.dst < |net.children|
    ensures N(Fan(net, FromPort(conns, p)), Endpoint(path, port)) == WaysDownBy(net, conns, p, path, port)
    decreases net, 0, |conns|
  {
    hide N, Prefix, Down, WaysDown;
    var x := Endpoint(path, port);
    Single(x, x);
    if conns != [] {
      FanIsWays(net, conns[1..], p, path, port);
      var k, rest := conns[0], FromPort(conns[1..], p);
      if k.sport == p {
        assert FromPort(conns, p) == [k] + rest && ([k] + rest)[1..] == rest;
        Split(Prefix(k.dst, Down(net.children[k.dst], k.dport)), Fan(net, rest), x);
        PrefixCount(k.dst, Down(net.children[k.dst], k.dport), x);
        if path != [] && path[0] == k.dst { DownIsWays(net.children[k.dst], k.dport, path[1..], port); }
      } else {
        assert FromPort(conns, p) == rest;
      }
    }
  }

  lemma {:induction false} FeedsIsWays(net: Net, path: seq<nat>, port: int, p: int)
    requires Wired(net)
    ensures N(Feeds(net, p), Endpoint(path, port)) == WaysUp(net, path, port, p)
    decreases net, 1, 0
  {
    hide N;
    if net.Leaf? {
      Single(Endpoint([], p), Endpoint(path, port));
    } else {
      FeedsViaIsWays(net, net.eoc, path, port, p);
    }
  }

  lemma {:induction false} FeedsViaIsWays(net: Net, conns: seq<Connection>, path: seq<nat>, port: int, p: int)
    requires Wired(net) && net.Node? && forall k :: k in conns ==> k.src < |net.children|
    ensures N(FeedsVia(net, conns, p), Endpoint(path, port)) == WaysUpBy(net, conns, path, port, p)
    decreases net, 0, |conns|
  {
    hide N, Prefix, Feeds, WaysUp;
    var x := Endpoint(path, port);
    Single(x, x);
    if conns != [] {
      FeedsViaIsWays(net, conns[1..], path, port, p);
      var k := conns[0];
      var here := if k.dport == p then Prefix(k.src, Feeds(net.children[k.src], k.sport)) else [];
      Split(here, FeedsVia(net, conns[1..], p), x);
      PrefixCount(k.src, Feeds(net.children[k.src], k.sport), x);
      if path != [] && path[0] == k.src { FeedsIsWays(net.children[k.src], path[1..], port, k.sport); }
    }
  }

  lemma {:induction false} JoinIsWays(net: Net, conns: seq<Connection>, x: Endpoint, y: Endpoint)
    requires Wired(net) && net.Node? && forall k :: k in conns ==> k.src < |net.children| && k.dst < |net.children|
    requires x.path != [] && y.path != []
    ensures N(JoinTable(net, conns), Row(x, y)) == WaysAcross(net, conns, x, y)
    decreases conns
  {
    hide N, Down, Prefix, Feeds, Product, WaysUp, WaysDown;
    Single(Row(x, y), Row(x, y));
    if conns != [] {
      JoinIsWays(net, conns[1..], x, y);
      var k := conns[0];
      var up, down := Feeds(net.children[k.src], k.sport), Down(net.children[k.dst], k.dport);
      Split(Product(Prefix(k.src, up), Prefix(k.dst, down)), JoinTable(net, conns[1..]), Row(x, y));
      ProductCount(Prefix(k.src, up), Prefix(k.dst, down), Row(x, y));
      PrefixCount(k.src, up, x);
      PrefixCount(k.dst, down, y);
      FeedsIsWays(net.children[k.src], x.path[1..], x.port, k.sport);
      DownIsWays(net.children[k.dst], k.dport, y.path[1..], y.port);
    }
  }

  /** The flattened table has a row for each way, and so each event is delivered once for each way. */
  lemma {:induction false} TableIsWays(net: Net, x: Endpoint, y: Endpoint)
    requires Wired(net) && AtomicAt(net, x.path)
    ensures multiset(Table(net))[Row(x, y)] == Ways(net, x, y)
    decreases net
  {
    if net.Node? {
      var i := x.path[0];
      Split(InnerTables(net, |net.children|), JoinTable(net, net.ic), Row(x, y));
      InnerCounts(net, |net.children|, x, y);
      TableIsWays(net.children[i], Tail(x), Tail(y));
      if y.path == [] { JoinNonempty(net, net.ic, x, y); } else { JoinIsWays(net, net.ic, x, y); }
    }
  }

  lemma {:induction false} JoinNonempty(net: Net, conns: seq<Connection>, x: Endpoint, y: Endpoint)
    requires Wired(net) && net.Node? && forall k :: k in conns ==> k.src < |net.children| && k.dst < |net.children|
    requires y.path == []
    ensures N(JoinTable(net, conns), Row(x, y)) == 0
    decreases conns
  {
    hide N, Down, Prefix, Feeds, Product;
    Single(Row(x, y), Row(x, y));
    if conns != [] {
      JoinNonempty(net, conns[1..], x, y);
      var k := conns[0];
      var up, down := Feeds(net.children[k.src], k.sport), Down(net.children[k.dst], k.dport);
      Split(Product(Prefix(k.src, up), Prefix(k.dst, down)), JoinTable(net, conns[1..]), Row(x, y));
      ProductCount(Prefix(k.src, up), Prefix(k.dst, down), Row(x, y));
      PrefixCount(k.dst, down, y);
    }
  }

  /** Each atomic output reaches an atomic input exactly as often as connections lead from one to the other. */
  lemma EmitIsWays(net: Net, path: seq<nat>, p: int, y: Endpoint)
    requires Wired(net) && AtomicAt(net, path)
    ensures multiset(Emit(net, path, p).targets)[y] == Ways(net, Endpoint(path, p), y)
  {
    RoutingIsFlat(net, path, p, y);
    TableIsWays(net, Endpoint(path, p), y);
  }

  // ---------- The connection index ----------

  /** Routing reads, for its active child, the indices of the connections that start there. */
  function Picked(ic: seq<Connection>, index: seq<nat>, p: int): seq<Connection>
    requires forall j :: 0 <= j < |index| ==> index[j] < |ic|
  {
    if index == [] then []
    else (if ic[index[0]].sport == p then [ic[index[0]]] else []) + Picked(ic, index[1..], p)
  }

  lemma {:induction false} PickedAppend(ic: seq<Connection>, index: seq<nat>, k: nat, p: int)
    requires k < |ic| && forall j :: 0 <= j < |index| ==> index[j] < |ic|
    ensures forall j :: 0 <= j < |index + [k]| ==> (index + [k])[j] < |ic|
    ensures Picked(ic, index + [k], p) == Picked(ic, index, p) + (if ic[k].sport == p then [ic[k]] else [])
    decreases index
  {
    var both, last := index + [k], if ic[k].sport == p then [ic[k]] else [];
    if index == [] {
      assert both[1..] == [];
      assert last + [] == [] + last;
    } else {
      PickedAppend(ic, index[1..], k, p);
      assert both[1..] == index[1..] + [k] && both[0] == index[0];
      var h := if ic[index[0]].sport == p then [ic[index[0]]] else [];
      assert h + (Picked(ic, index[1..], p) + last) == (h + Picked(ic, index[1..], p)) + last;
    }
  }

  lemma {:induction false} FromChildAppend(conns: seq<Connection>, k: Connection, i: nat, p: int)
    ensures FromChild(conns + [k], i, p) == FromChild(conns, i, p) + (if k.src == i && k.sport == p then [k] else [])
    decreases conns
  {
    if conns != [] {
      FromChildAppend(conns[1..], k, i, p);
      assert (conns + [k])[1..] == conns[1..] + [k];
    }
  }

  /** The index that init builds: reading it gives the same connections, in the same order, as
      scanning all internal connections. */
  method BuildIndex(ic: seq<Connection>, children: nat) returns (index: seq<seq<nat>>)
    requires forall k :: k in ic ==> k.src < children
    ensures |index| == children + 1
    ensures forall i, j :: 0 <= i < children && 0 <= j < |index[i]| ==> index[i][j] < |ic|
    ensures forall i, p :: 0 <= i < children ==> Picked(ic, index[i], p) == FromChild(ic, i, p)
  {
    index := seq(children + 1, _ => []);
    for k := 0 to |ic|
      invariant |index| == children + 1
      invariant forall i, j :: 0 <= i < children && 0 <= j < |index[i]| ==> index[i][j] < |ic|
      invariant forall i, p :: 0 <= i < children ==> Picked(ic, index[i], p) == FromChild(ic[..k], i, p)
    {
      ghost var was := index;
      assert ic[k] in ic;
      index := index[ic[k].src := index[ic[k].src] + [k]];
      forall i, p | 0 <= i < children
        ensures Picked(ic, index[i], p) == FromChild(ic[..k + 1], i, p)
      {
        assert ic[..k + 1] == ic[..k] + [ic[k]];
        FromChildAppend(ic[..k], ic[k], i, p);
        PickedAppend(ic, was[i], k, p);
      }
    }
    assert ic[..|ic|] == ic;
  }
}
