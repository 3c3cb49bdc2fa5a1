/** The abstract simulator: time bookkeeping of atomic models and couplings, the output and transition
    phases of one root step, and the root loop with its cut-off for models that do not advance time.

    Time is exact, in whole ticks. */
module Kernel {
  import opened Collections
  import opened ChildHeaps
  import opened Routing

  type State(!new)
  type Value(!new)

  // What the engine calls: the atomic models' functions, and the choice of the next child.
  datatype Engine = Engine(
    ta: (State, int) -> int,
    dint: (State, int, int) -> State,               // state, elapsed, time
    dext: (State, int, int, Value, int) -> State,   // state, elapsed, port, value, time
    output: (State, int) -> Option<(int, Value)>,   // port and value, None for the null event
    next: seq<int> -> nat)

  const EMPTY_TA: int := 1_000_000_000_000_000_000_000 * SECOND  // ta of a coupling without children

  // What every child tree promises about next().
  ghost predicate Picks(times: seq<int>, k: nat)
  {
    && k < |times|
    && (times[Earliest(times)] < PADDING_TIME ==> k == Earliest(times))
  }

  lemma TreePicks(heap: seq<seq<ModelTime>>, times: seq<int>)
    requires Tournament(heap, times) && times != []
    ensures NextOf(heap) >= 0 && Picks(times, NextOf(heap))
  {
    NextIsEarliest(heap, times);
  }

  ghost predicate Legal(e: Engine)
  {
    && (forall s, t :: e.ta(s, t) >= 0)
    && (forall times: seq<int> :: times != [] ==> Picks(times, e.next(times)))
  }

  datatype Sim =
    | Atom(state: State, tl: int, tn: int)
    | Coup(children: seq<Sim>, tc: nat, tl: int, tn: int)

  function Times(children: seq<Sim>): (r: seq<int>)
    ensures |r| == |children|
  {
    seq(|children|, i requires 0 <= i < |children| => children[i].tn)
  }

  // ---------- Consistency ----------

  /** At time `now` every model has had its last event, no event is overdue, and every coupling has
      cached the child that is due next. */
  ghost predicate Fresh(net: Net, s: Sim, now: int)
  {
    match net
    case Leaf => s.Atom? && s.tl <= now <= s.tn
    case Node(cs, _, _, _) =>
      && s.Coup? && s.tl <= now && |s.children| == |cs|
      && (forall i :: 0 <= i < |cs| ==> Fresh(cs[i], s.children[i], now))
      && (if cs == [] then now <= s.tn else Picks(Times(s.children), s.tc) && s.tn == s.children[s.tc].tn)
  }

  /** In the middle of a step at time t: the chain of active children is due, the rest is consistent. */
  ghost predicate Due(net: Net, s: Sim, t: int)
  {
    match net
    case Leaf => s.Atom? && s.tl <= t && s.tn == t
    case Node(cs, _, _, _) =>
      && s.Coup? && s.tl <= t && s.tn == t && |s.children| == |cs|
      && (cs != [] ==> s.tc < |cs| && Due(cs[s.tc], s.children[s.tc], t))
      && (forall i :: 0 <= i < |cs| && i != s.tc ==> Fresh(cs[i], s.children[i], t))
  }

  lemma PickIsEarly(times: seq<int>, k: nat, i: nat)
    requires Picks(times, k) && i < |times|
    ensures times[k] <= times[i] || (times[k] >= PADDING_TIME && times[i] >= PADDING_TIME)
  {
  }

  lemma {:induction false} FreshNow(net: Net, s: Sim, now: int)
    requires Fresh(net, s, now)
    ensures now <= s.tn
  {
    if net.Node? && net.children != [] { FreshNow(net.children[s.tc], s.children[s.tc], now); }
  }

  lemma {:induction false} FreshLater(net: Net, s: Sim, now: int, t: int)
    requires Fresh(net, s, now) && now <= t <= s.tn && t < PADDING_TIME
    ensures Fresh(net, s, t)
    decreases net
  {
    if net.Node? {
      forall i | 0 <= i < |net.children| ensures Fresh(net.children[i], s.children[i], t) {
        PickIsEarly(Times(s.children), s.tc, i);
        FreshLater(net.children[i], s.children[i], now, t);
      }
    }
  }

  lemma {:induction false} BecomesDue(net: Net, s: Sim, now: int)
    requires Fresh(net, s, now) && s.tn < PADDING_TIME
    ensures now <= s.tn && Due(net, s, s.tn)
    decreases net
  {
    FreshNow(net, s, now);
    if net.Node? && net.children != [] {
      BecomesDue(net.children[s.tc], s.children[s.tc], now);
      forall i | 0 <= i < |net.children| ensures Fresh(net.children[i], s.children[i], s.tn) {
        PickIsEarly(Times(s.children), s.tc, i);
        FreshLater(net.children[i], s.children[i], now, s.tn);
      }
    }
  }

  // ---------- Messages ----------

  /** The end of every message to a coupling: it records the time and asks its tree for the next child. */
  function Refresh(e: Engine, children: seq<Sim>, t: int): Sim
    requires Legal(e)
  {
    if children == [] then Coup([], 0, t, t + EMPTY_TA)
    else var k := e.next(Times(children)); Coup(children, k, t, children[k].tn)
  }

  /** imessage: the initial states in, consistent at time t out. */
  function Init(e: Engine, net: Net, states: seq<nat> -> State, t: int): (r: Sim)
    requires Legal(e)
    ensures Fresh(net, r, t)
    decreases net, 1, 0
  {
    match net
    case Leaf => var s := states([]); Atom(s, t, t + e.ta(s, t))
    case Node(cs, _, _, _) => Refresh(e, InitAll(e, net, states, t, |cs|), t)
  }

  function InitAll(e: Engine, net: Net, states: seq<nat> -> State, t: int, n: nat): (r: seq<Sim>)
    requires Legal(e) && net.Node? && n <= |net.children|
    ensures |r| == n && forall i :: 0 <= i < n ==> Fresh(net.children[i], r[i], t)
    decreases net, 0, n
  {
    if n == 0 then []
    else InitAll(e, net, states, t, n - 1) + [Init(e, net.children[n - 1], path => states([n - 1] + path), t)]
  }

  /** dextmessage of an atomic model; callers owe that the event is neither early nor late. */
  function AtomExternal(e: Engine, a: Sim, p: int, v: Value, t: int): (r: Sim)
    requires Legal(e) && a.Atom? && a.tl <= t <= a.tn
    ensures r.Atom? && r.tl == t <= r.tn
  {
    var s := e.dext(a.state, t - a.tl, p, v, t);
    Atom(s, t, t + e.ta(s, t))
  }

  /** dintmessage of an atomic model, at exactly the time it asked for. */
  function AtomInternal(e: Engine, a: Sim, t: int): (r: Sim)
    requires Legal(e) && a.Atom? && a.tl <= t == a.tn
    ensures r.Atom? && r.tl == t <= r.tn
  {
    var s := e.dint(a.state, t - a.tl, t);
    Atom(s, t, t + e.ta(s, t))
  }

  function External(e: Engine, net: Net, s: Sim, p: int, v: Value, t: int): (r: Sim)
    requires Legal(e) && Wired(net) && Fresh(net, s, t)
    ensures Fresh(net, r, t)
    decreases net, 1, 0
  {
    match net
    case Leaf => AtomExternal(e, s, p, v, t)
    case Node(_, _, eic, _) => Refresh(e, ExternalFan(e, net, s.children, -1, FromPort(eic, p), v, t), t)
  }

  // All children but `active` are consistent.
  ghost predicate FreshBut(net: Net, children: seq<Sim>, active: int, t: int)
    requires net.Node?
  {
    |children| == |net.children| && forall i :: 0 <= i < |children| && i != active ==>
      Fresh(net.children[i], children[i], t)
  }

  /** dextmessage to the sink of each connection, in order. */
  function ExternalFan(e: Engine, net: Net, children: seq<Sim>, active: int, conns: seq<Connection>, v: Value,
      t: int): (r: seq<Sim>)
    requires Legal(e) && Wired(net) && net.Node? && FreshBut(net, children, active, t)
    requires forall k :: k in conns ==> k.dst < |net.children| && k.dst != active
    ensures FreshBut(net, r, active, t)
    ensures 0 <= active < |r| ==> r[active] == children[active]
    decreases net, 0, |conns|
  {
    if conns == [] then children
    else
      var k := conns[0];
      ExternalFan(e, net, children[k.dst := External(e, net.children[k.dst], children[k.dst], k.dport, v, t)], active,
        conns[1..], v, t)
  }

  /** propagate along the internal connections, for each port the active child emitted on. */
  function ExternalAcross(e: Engine, net: Net, children: seq<Sim>, active: nat, ports: seq<int>, v: Value,
      t: int): (r: seq<Sim>)
    requires Legal(e) && Wired(net) && net.Node? && FreshBut(net, children, active, t)
    ensures FreshBut(net, r, active, t)
    ensures active < |r| ==> r[active] == children[active]
    decreases ports
  {
    if ports == [] then children
    else ExternalAcross(e, net, ExternalFan(e, net, children, active, FromChild(net.ic, active, ports[0]), v, t),
      active, ports[1..], v, t)
  }

  // ---------- One root step ----------

  /** The chain of cached active children. */
  function Chain(s: Sim): seq<nat>
  {
    match s
    case Atom(_, _, _) => []
    case Coup(cs, tc, _, _) => if tc < |cs| then [tc] + Chain(cs[tc]) else []
  }

  function OutputOf(e: Engine, s: Sim, t: int): Option<(int, Value)>
  {
    match s
    case Atom(state, _, _) => e.output(state, t)
    case Coup(cs, tc, _, _) => if tc < |cs| then OutputOf(e, cs[tc], t) else None
  }

  /** lambdamessage: the output of the due atomic model delivered everywhere, and the ports by which
      it leaves `net`. */
  function Spread(e: Engine, net: Net, s: Sim, p: int, v: Value, t: int): (r: (Sim, seq<int>))
    requires Legal(e) && Wired(net) && Due(net, s, t)
    ensures Due(net, r.0, t) && Chain(r.0) == Chain(s)
    decreases net
  {
    match net
    case Leaf => (s, [p])
    case Node(cs, _, _, eoc) =>
      if cs == [] then (s, [])
      else
        var (c, outs) := Spread(e, cs[s.tc], s.children[s.tc], p, v, t);
        var children := ExternalAcross(e, net, s.children[s.tc := c], s.tc, outs, v, t);
        (s.(children := children), Out(eoc, s.tc, outs))
  }

  /** dintmessage down the chain. */
  function Internal(e: Engine, net: Net, s: Sim, t: int): (r: Sim)
    requires Legal(e) && Due(net, s, t)
    ensures Fresh(net, r, t)
    decreases net
  {
    match net
    case Leaf => AtomInternal(e, s, t)
    case Node(cs, _, _, _) =>
      if cs == [] then Refresh(e, [], t)
      else Refresh(e, s.children[s.tc := Internal(e, cs[s.tc], s.children[s.tc], t)], t)
  }

  /** Output phase and transition phase at time s.tn. */
  function Step(e: Engine, net: Net, s: Sim): (r: Sim)
    requires Legal(e) && Wired(net) && Due(net, s, s.tn)
    ensures Fresh(net, r, s.tn)
  {
    match OutputOf(e, s, s.tn)
    case None => Internal(e, net, s, s.tn)
    case Some((p, v)) => Internal(e, net, Spread(e, net, s, p, v, s.tn).0, s.tn)
  }
}
