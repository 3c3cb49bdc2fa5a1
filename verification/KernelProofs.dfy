/** What the hierarchy computes: each coupling caches the earliest time below it, and one step of the
    nested simulator is one step of a flat simulator over the flattened connection table. */
module KernelProofs {
  import opened Collections
  import opened ChildHeaps
  import opened Routing
  import opened Kernel

  // ---------- Next-event times ----------

  predicate ValidPath(net: Net, path: seq<nat>)
  {
    path == [] || (net.Node? && path[0] < |net.children| && ValidPath(net.children[path[0]], path[1..]))
  }

  function Sub(s: Sim, path: seq<nat>): Sim
  {
    if path == [] || s.Atom? || path[0] >= |s.children| then s else Sub(s.children[path[0]], path[1..])
  }

  /** No model below a coupling is due before the coupling says so; times past 1e100 are not told apart. */
  lemma {:induction false} TnIsMinimum(net: Net, s: Sim, now: int, path: seq<nat>)
    requires Fresh(net, s, now) && ValidPath(net, path)
    ensures s.tn <= Sub(s, path).tn || (s.tn >= PADDING_TIME && Sub(s, path).tn >= PADDING_TIME)
    decreases path
  {
    if path != [] {
      TnIsMinimum(net.children[path[0]], s.children[path[0]], now, path[1..]);
      PickIsEarly(Times(s.children), s.tc, path[0]);
    }
  }

  /** The chain of cached children ends at a model that is due exactly then. */
  lemma {:induction false} ChainAttains(net: Net, s: Sim, now: int)
    requires Fresh(net, s, now)
    ensures ValidPath(net, Chain(s)) && Sub(s, Chain(s)).tn == s.tn
    ensures AtomicAt(net, Chain(s)) || (Sub(s, Chain(s)).Coup? && Sub(s, Chain(s)).children == [])
  {
    if net.Node? && net.children != [] { ChainAttains(net.children[s.tc], s.children[s.tc], now); }
  }

  // ---------- Every model keeps its own appointment ----------

  /** In every model the next event is due at the last event's time plus what the model's own time advance
      said then; a coupling without children waits 1e21 seconds. */
  ghost predicate Scheduled(e: Engine, s: Sim)
  {
    match s
    case Atom(state, tl, tn) => tn == tl + e.ta(state, tl)
    case Coup(children, _, tl, tn) =>
      (children == [] ==> tn == tl + EMPTY_TA) && forall i :: 0 <= i < |children| ==> Scheduled(e, children[i])
  }

  ghost predicate AllScheduled(e: Engine, children: seq<Sim>)
  {
    forall i :: 0 <= i < |children| ==> Scheduled(e, children[i])
  }

  lemma {:induction false} InitScheduled(e: Engine, net: Net, states: seq<nat> -> State, t: int)
    requires Legal(e)
    ensures Scheduled(e, Init(e, net, states, t))
    decreases net, 1, 0
  {
    if net.Node? { InitAllScheduled(e, net, states, t, |net.children|); }
  }

  lemma {:induction false} InitAllScheduled(e: Engine, net: Net, states: seq<nat> -> State, t: int, n: nat)
    requires Legal(e) && net.Node? && n <= |net.children|
    ensures AllScheduled(e, InitAll(e, net, states, t, n))
    decreases net, 0, n
  {
    if n > 0 {
      InitAllScheduled(e, net, states, t, n - 1);
      InitScheduled(e, net.children[n - 1], path => states([n - 1] + path), t);
    }
  }

  /** An external event keeps all appointments, whichever models it reaches ... */
  lemma {:induction false} ExternalScheduled(e: Engine, net: Net, s: Sim, p: int, v: Value, t: int)
    requires Legal(e) && Wired(net) && Fresh(net, s, t) && Scheduled(e, s)
    ensures Scheduled(e, External(e, net, s, p, v, t))
    decreases net, 1, 0
  {
    if net.Node? { FanScheduled(e, net, s.children, -1, FromPort(net.eic, p), v, t); }
  }

  lemma {:induction false} FanScheduled(e: Engine, net: Net, children: seq<Sim>, active: int, conns: seq<Connection>,
      v: Value, t: int)
    requires Legal(e) && Wired(net) && net.Node? && FreshBut(net, children, active, t) && AllScheduled(e, children)
    requires forall k :: k in conns ==> k.dst < |net.children| && k.dst != active
    ensures AllScheduled(e, ExternalFan(e, net, children, active, conns, v, t))
    decreases net, 0, |conns|
  {
    if conns != [] {
      var k := conns[0];
      ExternalScheduled(e, net.children[k.dst], children[k.dst], k.dport, v, t);
      FanScheduled(e, net, children[k.dst := External(e, net.children[k.dst], children[k.dst], k.dport, v, t)], active,
        conns[1..], v, t);
    }
  }

  lemma {:induction false} AcrossScheduled(e: Engine, net: Net, children: seq<Sim>, active: nat, ports: seq<int>,
      v: Value, t: int)
    requires Legal(e) && Wired(net) && net.Node? && FreshBut(net, children, active, t) && AllScheduled(e, children)
    ensures AllScheduled(e, ExternalAcross(e, net, children, active, ports, v, t))
    decreases ports
  {
    if ports != [] {
      var conns := FromChild(net.ic, active, ports[0]);
      FanScheduled(e, net, children, active, conns, v, t);
      AcrossScheduled(e, net, ExternalFan(e, net, children, active, conns, v, t), active, ports[1..], v, t);
    }
  }

  lemma {:induction false} SpreadScheduled(e: Engine, net: Net, s: Sim, p: int, v: Value, t: int)
    requires Legal(e) && Wired(net) && Due(net, s, t) && Scheduled(e, s)
    ensures Scheduled(e, Spread(e, net, s, p, v, t).0)
    decreases net
  {
    if net.Node? && net.children != [] {
      SpreadScheduled(e, net.children[s.tc], s.children[s.tc], p, v, t);
      var (c, outs) := Spread(e, net.children[s.tc], s.children[s.tc], p, v, t);
      AcrossScheduled(e, net, s.children[s.tc := c], s.tc, outs, v, t);
    }
  }

  lemma {:induction false} InternalScheduled(e: Engine, net: Net, s: Sim, t: int)
    requires Legal(e) && Due(net, s, t) && Scheduled(e, s)
    ensures Scheduled(e, Internal(e, net, s, t))
    decreases net
  {
    if net.Node? && net.children != [] { InternalScheduled(e, net.children[s.tc], s.children[s.tc], t); }
  }

  /** ... and so does a whole step. */
  lemma StepScheduled(e: Engine, net: Net, s: Sim)
    requires Legal(e) && Wired(net) && Due(net, s, s.tn) && Scheduled(e, s)
    ensures Scheduled(e, Step(e, net, s))
  {
    match OutputOf(e, s, s.tn)
    case None => InternalScheduled(e, net, s, s.tn);
    case Some((p, v)) =>
      SpreadScheduled(e, net, s, p, v, s.tn);
      InternalScheduled(e, net, Spread(e, net, s, p, v, s.tn).0, s.tn);
  }

  // ---------- Events at one atomic model ----------

  ghost predicate InTime(net: Net, s: Sim, t: int) { Fresh(net, s, t) || Due(net, s, t) }

  ghost function AtomOf(net: Net, s: Sim, path: seq<nat>, t: int): (a: Sim)
    requires InTime(net, s, t) && AtomicAt(net, path)
    ensures a.Atom? && a.tl <= t <= a.tn
    decreases path
  {
    if net.Leaf? then s else AtomOf(net.children[path[0]], s.children[path[0]], path[1..], t)
  }

  /** After initialisation every atomic model has its own initial state and is due after its time advance. */
  lemma {:induction false} InitAt(e: Engine, net: Net, states: seq<nat> -> State, t: int, path: seq<nat>)
    requires Legal(e) && AtomicAt(net, path)
    ensures AtomOf(net, Init(e, net, states, t), path, t) == Atom(states(path), t, t + e.ta(states(path), t))
    decreases net
  {
    if net.Node? {
      var i := path[0];
      InitAllIs(e, net, states, t, |net.children|, i);
      InitAt(e, net.children[i], p => states([i] + p), t, path[1..]);
      assert path == [i] + path[1..];
    }
  }

  lemma {:induction false} InitAllIs(e: Engine, net: Net, states: seq<nat> -> State, t: int, n: nat, i: nat)
    requires Legal(e) && net.Node? && i < n <= |net.children|
    ensures InitAll(e, net, states, t, n)[i] == Init(e, net.children[i], p => states([i] + p), t)
    decreases n
  {
    if i < n - 1 { InitAllIs(e, net, states, t, n - 1, i); }
  }

  function Inject(e: Engine, a: Sim, ports: seq<int>, v: Value, t: int): (r: Sim)
    requires Legal(e) && a.Atom? && a.tl <= t <= a.tn
    ensures r.Atom? && r.tl <= t <= r.tn
    decreases ports
  {
    if ports == [] then a else Inject(e, AtomExternal(e, a, ports[0], v, t), ports[1..], v, t)
  }

  function PortsAt(targets: seq<Endpoint>, path: seq<nat>): seq<int>
  {
    if targets == [] then []
    else (if targets[0].path == path then [targets[0].port] else []) + PortsAt(targets[1..], path)
  }

  lemma PortsAtHead(a: seq<Endpoint>, path: seq<nat>)
    ensures a == [] ==> PortsAt(a, path) == []
    ensures a != [] ==> PortsAt(a, path) == (if a[0].path == path then [a[0].port] else []) + PortsAt(a[1..], path)
  {
  }

  lemma {:induction false} PortsAtSplit(a: seq<Endpoint>, b: seq<Endpoint>, path: seq<nat>)
    ensures PortsAt(a + b, path) == PortsAt(a, path) + PortsAt(b, path)
  {
    hide PortsAt;
    PortsAtHead(a, path);
    if a == [] {
      assert a + b == b;
    } else {
      PortsAtSplit(a[1..], b, path);
      PortsAtHead(a + b, path);
      assert (a + b)[1..] == a[1..] + b && (a + b)[0] == a[0];
      Join(if a[0].path == path then [a[0].port] else [], PortsAt(a[1..], path), PortsAt(b, path));
    }
  }

  lemma Join(a: seq<int>, b: seq<int>, c: seq<int>)
    ensures a + (b + c) == (a + b) + c
  {
  }

  lemma {:induction false} PortsAtPrefix(i: nat, s: seq<Endpoint>, path: seq<nat>)
    requires path != []
    ensures PortsAt(Prefix(i, s), path) == if path[0] == i then PortsAt(s, path[1..]) else []
  {
    if s != [] {
      PortsAtPrefix(i, s[1..], path);
      assert ([i] + s[0].path)[1..] == s[0].path;
      if path[0] == i { assert path == [i] + path[1..]; }
      assert Prefix(i, s)[1..] == Prefix(i, s[1..]);
    }
  }

  lemma {:induction false} PortsAtCount(targets: seq<Endpoint>, path: seq<nat>, q: int)
    ensures multiset(PortsAt(targets, path))[q] == multiset(targets)[Endpoint(path, q)]
  {
    if targets != [] {
      PortsAtCount(targets[1..], path, q);
      assert targets == [targets[0]] + targets[1..];
    }
  }

  lemma {:induction false} InjectSplit(e: Engine, a: Sim, p: seq<int>, q: seq<int>, v: Value, t: int)
    requires Legal(e) && a.Atom? && a.tl <= t <= a.tn
    ensures Inject(e, a, p + q, v, t) == Inject(e, Inject(e, a, p, v, t), q, v, t)
    decreases p
  {
    if p == [] {
      assert p + q == q;
    } else {
      InjectSplit(e, AtomExternal(e, a, p[0], v, t), p[1..], q, v, t);
      assert (p + q)[1..] == p[1..] + q;
    }
  }

  lemma {:induction false} ExternalAt(e: Engine, net: Net, s: Sim, p: int, v: Value, t: int, path: seq<nat>)
    requires Legal(e) && Wired(net) && Fresh(net, s, t) && AtomicAt(net, path)
    ensures AtomOf(net, External(e, net, s, p, v, t), path, t) ==
      Inject(e, AtomOf(net, s, path, t), PortsAt(Down(net, p), path), v, t)
    decreases net, 1, 0
  {
    if net.Leaf? {
      assert PortsAt([Endpoint([], p)], path) == [p];
    } else {
      FanAt(e, net, s.children, -1, FromPort(net.eic, p), v, t, path);
    }
  }

  lemma {:induction false} FanAt(e: Engine, net: Net, children: seq<Sim>, active: int, conns: seq<Connection>,
      v: Value, t: int, path: seq<nat>)
    requires Legal(e) && Wired(net) && net.Node? && FreshBut(net, children, active, t)
    requires forall k :: k in conns ==> k.dst < |net.children| && k.dst != active
    requires AtomicAt(net, path) && path[0] != active
    ensures var r := ExternalFan(e, net, children, active, conns, v, t);
      AtomOf(net.children[path[0]], r[path[0]], path[1..], t) ==
      Inject(e, AtomOf(net.children[path[0]], children[path[0]], path[1..], t), PortsAt(Fan(net, conns), path), v, t)
    decreases net, 0, |conns|
  {
    if conns != [] {
      var k, i := conns[0], path[0];
      var sub := Down(net.children[k.dst], k.dport);
      var children' := children[k.dst := External(e, net.children[k.dst], children[k.dst], k.dport, v, t)];
      FanAt(e, net, children', active, conns[1..], v, t, path);
      PortsAtSplit(Prefix(k.dst, sub), Fan(net, conns[1..]), path);
      PortsAtPrefix(k.dst, sub, path);
      if i == k.dst {
        ExternalAt(e, net.children[i], children[i], k.dport, v, t, path[1..]);
        InjectSplit(e, AtomOf(net.children[i], children[i], path[1..], t), PortsAt(sub, path[1..]),
          PortsAt(Fan(net, conns[1..]), path), v, t);
      } else {
        assert [] + PortsAt(Fan(net, conns[1..]), path) == PortsAt(Fan(net, conns[1..]), path);
      }
    }
  }

  lemma {:induction false} AcrossAt(e: Engine, net: Net, children: seq<Sim>, active: nat, ports: seq<int>, v: Value,
      t: int, path: seq<nat>)
    requires Legal(e) && Wired(net) && net.Node? && FreshBut(net, children, active, t)
    requires AtomicAt(net, path) && path[0] != active
    ensures var r := ExternalAcross(e, net, children, active, ports, v, t);
      AtomOf(net.children[path[0]], r[path[0]], path[1..], t) ==
      Inject(e, AtomOf(net.children[path[0]], children[path[0]], path[1..], t),
        PortsAt(Across(net, active, ports), path), v, t)
    decreases ports
  {
    if ports != [] {
      var i, conns := path[0], FromChild(net.ic, active, ports[0]);
      FanAt(e, net, children, active, conns, v, t, path);
      AcrossAt(e, net, ExternalFan(e, net, children, active, conns, v, t), active, ports[1..], v, t, path);
      PortsAtSplit(Fan(net, conns), Across(net, active, ports[1..]), path);
      InjectSplit(e, AtomOf(net.children[i], children[i], path[1..], t), PortsAt(Fan(net, conns), path),
        PortsAt(Across(net, active, ports[1..]), path), v, t);
    }
  }

  lemma {:induction false} FanElsewhere(net: Net, conns: seq<Connection>, active: nat, path: seq<nat>)
    requires Wired(net) && net.Node? && path != [] && path[0] == active
    requires forall k :: k in conns ==> k.dst < |net.children| && k.dst != active
    ensures PortsAt(Fan(net, conns), path) == []
    decreases conns
  {
    if conns != [] {
      var sub := Down(net.children[conns[0].dst], conns[0].dport);
      FanElsewhere(net, conns[1..], active, path);
      PortsAtSplit(Prefix(conns[0].dst, sub), Fan(net, conns[1..]), path);
      PortsAtPrefix(conns[0].dst, sub, path);
    }
  }

  lemma {:induction false} AcrossElsewhere(net: Net, active: nat, ports: seq<int>, path: seq<nat>)
    requires Wired(net) && net.Node? && path != [] && path[0] == active
    ensures PortsAt(Across(net, active, ports), path) == []
    decreases ports
  {
    if ports != [] {
      FanElsewhere(net, FromChild(net.ic, active, ports[0]), active, path);
      AcrossElsewhere(net, active, ports[1..], path);
      PortsAtSplit(Fan(net, FromChild(net.ic, active, ports[0])), Across(net, active, ports[1..]), path);
    }
  }

  lemma {:induction false} SpreadOuts(e: Engine, net: Net, s: Sim, p: int, v: Value, t: int)
    requires Legal(e) && Wired(net) && Due(net, s, t) && AtomicAt(net, Chain(s))
    ensures Spread(e, net, s, p, v, t).1 == Emit(net, Chain(s), p).outs
    decreases net
  {
    if net.Node? {
      assert Chain(s)[1..] == Chain(s.children[s.tc]);
      SpreadOuts(e, net.children[s.tc], s.children[s.tc], p, v, t);
    }
  }

  /** The output phase: the model at `path` gets exactly the inputs that routing lists for it. */
  lemma {:induction false} SpreadAt(e: Engine, net: Net, s: Sim, p: int, v: Value, t: int, path: seq<nat>)
    requires Legal(e) && Wired(net) && Due(net, s, t) && AtomicAt(net, Chain(s)) && AtomicAt(net, path)
    ensures AtomOf(net, Spread(e, net, s, p, v, t).0, path, t) ==
      Inject(e, AtomOf(net, s, path, t), PortsAt(Emit(net, Chain(s), p).targets, path), v, t)
    decreases net
  {
    if net.Node? {
      hide PortsAt, Inject, Across, Prefix, ExternalAcross, Legal, Out;
      var tc, i := s.tc, path[0];
      assert Chain(s)[1..] == Chain(s.children[tc]);
      var inner := Emit(net.children[tc], Chain(s.children[tc]), p);
      var (c, outs) := Spread(e, net.children[tc], s.children[tc], p, v, t);
      SpreadOuts(e, net.children[tc], s.children[tc], p, v, t);
      PortsAtSplit(Prefix(tc, inner.targets), Across(net, tc, outs), path);
      PortsAtPrefix(tc, inner.targets, path);
      SpreadInside(e, net, s, p, v, t);
      assert Emit(net, Chain(s), p).targets == Prefix(tc, inner.targets) + Across(net, tc, outs);
      hide Spread, Emit, Chain;
      if i == tc {
        SpreadAt(e, net.children[tc], s.children[tc], p, v, t, path[1..]);
        AcrossElsewhere(net, tc, outs, path);
        assert PortsAt(inner.targets, path[1..]) + [] == PortsAt(inner.targets, path[1..]);
      } else {
        AcrossAt(e, net, s.children[tc := c], tc, outs, v, t, path);
        assert [] + PortsAt(Across(net, tc, outs), path) == PortsAt(Across(net, tc, outs), path);
      }
    }
  }

  // The output phase at a coupling: first inside the active child, then across.
  lemma SpreadInside(e: Engine, net: Net, s: Sim, p: int, v: Value, t: int)
    requires Legal(e) && Wired(net) && net.Node? && net.children != [] && Due(net, s, t)
    ensures FreshBut(net, s.children, s.tc, t) && s.tc < |net.children| && Due(net.children[s.tc], s.children[s.tc], t)
    ensures var (c, outs) := Spread(e, net.children[s.tc], s.children[s.tc], p, v, t);
      Spread(e, net, s, p, v, t) ==
        (s.(children := ExternalAcross(e, net, s.children[s.tc := c], s.tc, outs, v, t)), Out(net.eoc, s.tc, outs))
  {
  }

  /** The transition phase: only the model at the end of the chain moves. */
  lemma {:induction false} InternalAt(e: Engine, net: Net, s: Sim, t: int, path: seq<nat>)
    requires Legal(e) && Due(net, s, t) && AtomicAt(net, path)
    ensures AtomOf(net, Internal(e, net, s, t), path, t) ==
      if path == Chain(s) then AtomInternal(e, DueAtom(net, s, t, path), t) else AtomOf(net, s, path, t)
    decreases net
  {
    if net.Node? && path[0] == s.tc {
      InternalAt(e, net.children[s.tc], s.children[s.tc], t, path[1..]);
      if path[1..] == Chain(s.children[s.tc]) { assert path == [s.tc] + path[1..]; }
    }
  }

  ghost function DueAtom(net: Net, s: Sim, t: int, path: seq<nat>): (a: Sim)
    requires Due(net, s, t) && AtomicAt(net, path) && path == Chain(s)
    ensures a.Atom? && a.tl <= t == a.tn
    ensures a == AtomOf(net, s, path, t)
    decreases net
  {
    match net
    case Leaf => s
    case Node(cs, _, _, _) =>
      assert path[1..] == Chain(s.children[s.tc]);
      DueAtom(cs[s.tc], s.children[s.tc], t, path[1..])
  }

  lemma {:induction false} OwnOutput(net: Net, path: seq<nat>, p: int)
    requires Wired(net) && AtomicAt(net, path)
    ensures PortsAt(Emit(net, path, p).targets, path) == []
    decreases net
  {
    if net.Node? {
      var inner := Emit(net.children[path[0]], path[1..], p);
      OwnOutput(net.children[path[0]], path[1..], p);
      PortsAtSplit(Prefix(path[0], inner.targets), Across(net, path[0], inner.outs), path);
      PortsAtPrefix(path[0], inner.targets, path);
      AcrossElsewhere(net, path[0], inner.outs, path);
    }
  }

  // The inputs of one step at the model at `path`.
  ghost function Inputs(e: Engine, net: Net, s: Sim, path: seq<nat>): seq<int>
    requires Wired(net) && AtomicAt(net, Chain(s))
  {
    match OutputOf(e, s, s.tn)
    case None => []
    case Some((p, _)) => PortsAt(Emit(net, Chain(s), p).targets, path)
  }

  /** One step of the nested simulator, seen at each atomic model: the due one takes its internal
      transition; any other one takes the external transitions its connections bring, all at time tn. */
  lemma StepIsFlat(e: Engine, net: Net, s: Sim, path: seq<nat>)
    requires Legal(e) && Wired(net) && Due(net, s, s.tn) && AtomicAt(net, Chain(s)) && AtomicAt(net, path)
    ensures var t, a := s.tn, AtomOf(net, s, path, s.tn);
      AtomOf(net, Step(e, net, s), path, t) ==
      if path == Chain(s) then AtomInternal(e, DueAtom(net, s, t, path), t)
      else if OutputOf(e, s, t).None? then a
      else Inject(e, a, Inputs(e, net, s, path), OutputOf(e, s, t).value.1, t)
  {
    match OutputOf(e, s, s.tn)
    case None => InternalAt(e, net, s, s.tn, path);
    case Some((p, v)) =>
      var u := Spread(e, net, s, p, v, s.tn).0;
      SpreadAt(e, net, s, p, v, s.tn, path);
      InternalAt(e, net, u, s.tn, path);
      if path == Chain(s) { OwnOutput(net, path, p); }
  }

  /** ... and those inputs are the rows of the flattened table, one event per row. */
  lemma InputsAreRows(e: Engine, net: Net, s: Sim, path: seq<nat>, q: int)
    requires Wired(net) && AtomicAt(net, Chain(s)) && OutputOf(e, s, s.tn).Some?
    ensures multiset(Inputs(e, net, s, path))[q] ==
      multiset(Table(net))[Row(Endpoint(Chain(s), OutputOf(e, s, s.tn).value.0), Endpoint(path, q))]
  {
    var p := OutputOf(e, s, s.tn).value.0;
    PortsAtCount(Emit(net, Chain(s), p).targets, path, q);
    RoutingIsFlat(net, Chain(s), p, Endpoint(path, q));
  }
}
