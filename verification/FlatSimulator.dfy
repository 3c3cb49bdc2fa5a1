/** The simulator without couplings: a map from paths to atomic models, all connected directly.  A run of
    the nested simulator is a run of this one, which chooses the earliest model and, among several, the
    first in the order of the paths. */
module FlatSimulation {
  import opened ChildHeaps
  import opened Routing
  import opened Kernel
  import opened KernelProofs

  // No coupling is without children.
  predicate Solid(net: Net)
  {
    match net
    case Leaf => true
    case Node(cs, _, _, _) => cs != [] && forall i :: 0 <= i < |cs| ==> Solid(cs[i])
  }

  // Paths in the order of children, level by level.
  predicate Before(p: seq<nat>, q: seq<nat>)
  {
    p != [] && q != [] && (p[0] < q[0] || (p[0] == q[0] && Before(p[1..], q[1..])))
  }

  /** Of two different atomic models one comes first. */
  lemma {:induction false} Ordered(net: Net, p: seq<nat>, q: seq<nat>)
    requires AtomicAt(net, p) && AtomicAt(net, q)
    ensures p == q || Before(p, q) || Before(q, p)
    decreases net
  {
    if net.Node? && p[0] == q[0] {
      Ordered(net.children[p[0]], p[1..], q[1..]);
      assert p == [p[0]] + p[1..] && q == [q[0]] + q[1..];
    }
  }

  // ---------- The flat simulator ----------

  type Flat = imap<seq<nat>, Sim>

  // All models have had their last event by `now` and none is overdue.
  ghost predicate Timely(f: Flat, now: int)
  {
    forall p :: p in f ==> f[p].Atom? && f[p].tl <= now <= f[p].tn
  }

  /** The earliest model, the first of several. */
  ghost predicate Next(f: Flat, c: seq<nat>)
  {
    c in f && forall p :: p in f ==> f[c].tn < f[p].tn || (f[c].tn == f[p].tn && !Before(p, c))
  }

  // c is an atomic model of the net, the next to act, and nobody is late.
  ghost predicate Acts(net: Net, f: Flat, c: seq<nat>)
  {
    AtomicAt(net, c) && Next(f, c) && Timely(f, f[c].tn)
  }

  /** The events an output brings to one model: one for each row of the flattened table, in the order of
      routing. */
  ghost function Brings(net: Net, c: seq<nat>, port: int, p: seq<nat>): (ports: seq<int>)
    requires Wired(net) && AtomicAt(net, c)
    ensures forall q :: multiset(ports)[q] == multiset(Table(net))[Row(Endpoint(c, port), Endpoint(p, q))]
  {
    var ports := PortsAt(Emit(net, c, port).targets, p);
    forall q ensures multiset(ports)[q] == multiset(Table(net))[Row(Endpoint(c, port), Endpoint(p, q))] {
      PortsAtCount(Emit(net, c, port).targets, p, q);
      RoutingIsFlat(net, c, port, Endpoint(p, q));
    }
    ports
  }

  /** A model after the events at these ports, one by one: each is its own external transition after the
      time it has waited, and the next event is due after its new time advance. */
  function Received(e: Engine, a: Sim, ports: seq<int>, v: Value, t: int): Sim
    requires a.Atom?
    decreases ports
  {
    if ports == [] then a
    else
      var s := e.dext(a.state, t - a.tl, ports[0], v, t);
      Received(e, Atom(s, t, t + e.ta(s, t)), ports[1..], v, t)
  }

  lemma {:induction false} InjectIsReceived(e: Engine, a: Sim, ports: seq<int>, v: Value, t: int)
    requires Legal(e) && a.Atom? && a.tl <= t <= a.tn
    ensures Inject(e, a, ports, v, t) == Received(e, a, ports, v, t)
    decreases ports
  {
    if ports != [] { InjectIsReceived(e, AtomExternal(e, a, ports[0], v, t), ports[1..], v, t); }
  }

  /** The chosen model's output reaches the models it is connected to, then it takes its own transition:
      its new state after the time it has waited, due after its new time advance. */
  ghost function FlatStep(e: Engine, net: Net, f: Flat, c: seq<nat>): Flat
    requires Legal(e) && Wired(net) && Acts(net, f, c)
  {
    var t := f[c].tn;
    var out := e.output(f[c].state, t);
    imap p | p in f ::
      if p == c then var s := e.dint(f[c].state, t - f[c].tl, t); Atom(s, t, t + e.ta(s, t))
      else if out.None? then f[p]
      else Received(e, f[p], Brings(net, c, out.value.0, p), out.value.1, t)
  }

  // ---------- The nested simulator seen flat ----------

  ghost function View(net: Net, s: Sim, t: int): Flat
    requires InTime(net, s, t)
  {
    imap p | AtomicAt(net, p) :: AtomOf(net, s, p, t)
  }

  lemma {:induction false} AnyTime(net: Net, s: Sim, p: seq<nat>, t: int, t': int)
    requires InTime(net, s, t) && InTime(net, s, t') && AtomicAt(net, p)
    ensures AtomOf(net, s, p, t) == AtomOf(net, s, p, t')
    decreases net
  {
    if net.Node? { AnyTime(net.children[p[0]], s.children[p[0]], p[1..], t, t'); }
  }

  lemma {:induction false} StaysLate(net: Net, s: Sim, now: int, p: seq<nat>)
    requires Fresh(net, s, now) && AtomicAt(net, p) && s.tn >= PADDING_TIME
    ensures AtomOf(net, s, p, now).tn >= PADDING_TIME
    decreases net
  {
    if net.Node? {
      PickIsEarly(Times(s.children), s.tc, p[0]);
      StaysLate(net.children[p[0]], s.children[p[0]], now, p[1..]);
    }
  }

  /** The chain of cached children ends at the model the flat simulator chooses. */
  lemma {:induction false} ChainIsFirst(net: Net, s: Sim, now: int, p: seq<nat>)
    requires Solid(net) && Fresh(net, s, now) && s.tn < PADDING_TIME && AtomicAt(net, p)
    ensures var c := Chain(s);
      && AtomicAt(net, c) && AtomOf(net, s, c, now).tn == s.tn
      && (s.tn < AtomOf(net, s, p, now).tn || (s.tn == AtomOf(net, s, p, now).tn && !Before(p, c)))
    decreases net
  {
    if net.Node? {
      var tc, i := s.tc, p[0];
      var times := Times(s.children);
      assert tc == Earliest(times) && times[tc] <= times[i] && (times[tc] == times[i] ==> tc <= i);
      Somewhere(net.children[tc]);
      var q :| AtomicAt(net.children[tc], q);
      ChainIsFirst(net.children[tc], s.children[tc], now, q);
      assert Chain(s)[1..] == Chain(s.children[tc]);
      if times[i] < PADDING_TIME {
        ChainIsFirst(net.children[i], s.children[i], now, p[1..]);
      } else {
        StaysLate(net.children[i], s.children[i], now, p[1..]);
      }
    }
  }

  lemma {:induction false} Somewhere(net: Net)
    requires Solid(net)
    ensures exists p :: AtomicAt(net, p)
  {
    if net.Leaf? {
      assert AtomicAt(net, []);
    } else {
      Somewhere(net.children[0]);
      var q :| AtomicAt(net.children[0], q);
      assert ([0] + q)[1..] == q;
      assert AtomicAt(net, [0] + q);
    }
  }

  lemma {:induction false} OutputOfDue(e: Engine, net: Net, s: Sim, now: int, t: int)
    requires Fresh(net, s, now) && AtomicAt(net, Chain(s))
    ensures OutputOf(e, s, t) == e.output(AtomOf(net, s, Chain(s), now).state, t)
    decreases net
  {
    if net.Node? {
      assert Chain(s)[1..] == Chain(s.children[s.tc]);
      OutputOfDue(e, net.children[s.tc], s.children[s.tc], now, t);
    }
  }

  lemma ChainIsNext(net: Net, s: Sim, now: int)
    requires Solid(net) && Fresh(net, s, now) && s.tn < PADDING_TIME
    ensures AtomicAt(net, Chain(s)) && Next(View(net, s, now), Chain(s)) && View(net, s, now)[Chain(s)].tn == s.tn
    ensures now <= s.tn && Timely(View(net, s, now), s.tn)
  {
    FreshNow(net, s, now);
    Somewhere(net);
    var q :| AtomicAt(net, q);
    ChainIsFirst(net, s, now, q);
    var f, c := View(net, s, now), Chain(s);
    forall p | p in f ensures f[c].tn < f[p].tn ||
      (f[c].tn == f[p].tn && !Before(p, c)) { ChainIsFirst(net, s, now, p); }
    forall p | p in f ensures f[p].Atom? && f[p].tl <= s.tn <= f[p].tn { ChainIsFirst(net, s, now, p); }
  }

  lemma StepAt(e: Engine, net: Net, s: Sim, now: int, p: seq<nat>)
    requires Legal(e) && Wired(net) && Fresh(net, s, now) && Due(net, s, s.tn) && AtomicAt(net, p)
    requires Acts(net, View(net, s, now), Chain(s)) && View(net, s, now)[Chain(s)].tn == s.tn
    ensures p in FlatStep(e, net, View(net, s, now), Chain(s))
    ensures FlatStep(e, net, View(net, s, now), Chain(s))[p] == AtomOf(net, Kernel.Step(e, net, s), p, s.tn)
  {
    hide Fresh, Due, AtomicAt, AtomOf, Kernel.Step, Inject, Emit, PortsAt, Legal, Wired, Table, Chain, OutputOf,
      Received;
    OutputOfDue(e, net, s, now, s.tn);
    StepIsFlat(e, net, s, p);
    AnyTime(net, s, p, now, s.tn);
    AnyTime(net, s, Chain(s), now, s.tn);
    var out := OutputOf(e, s, s.tn);
    if p != Chain(s) && out.Some? {
      InjectIsReceived(e, AtomOf(net, s, p, s.tn), Inputs(e, net, s, p), out.value.1, s.tn);
    }
  }

  lemma SameModels(net: Net, s: Sim, t: int, f: Flat)
    requires InTime(net, s, t) && (forall p :: p in f ==> AtomicAt(net, p))
    requires forall p :: AtomicAt(net, p) ==> p in f && f[p] == AtomOf(net, s, p, t)
    ensures View(net, s, t) == f
  {
    hide AtomicAt, AtomOf, InTime;
  }

  lemma SameDomain(e: Engine, net: Net, f: Flat, c: seq<nat>)
    requires Legal(e) && Wired(net) && Acts(net, f, c)
    ensures forall p :: p in FlatStep(e, net, f, c) <==> p in f
  {
    hide AtomicAt, Legal, Wired, Next, Timely;
  }

  lemma ViewDomain(net: Net, s: Sim, t: int)
    requires InTime(net, s, t)
    ensures forall p :: p in View(net, s, t) <==> AtomicAt(net, p)
  {
    hide AtomicAt, AtomOf, InTime;
  }

  /** One step of the nested simulator is the flat simulator's step, of the model it would choose. */
  lemma StepIsFlatStep(e: Engine, net: Net, s: Sim, now: int)
    requires Legal(e) && Wired(net) && Solid(net) && Fresh(net, s, now) && s.tn < PADDING_TIME
    ensures now <= s.tn && Due(net, s, s.tn)
    ensures var f, c := View(net, s, now), Chain(s);
      Acts(net, f, c) && f[c].tn == s.tn && View(net, Kernel.Step(e, net, s), s.tn) == FlatStep(e, net, f, c)
  {
    ChainIsNext(net, s, now);
    BecomesDue(net, s, now);
    var f, c, s' := View(net, s, now), Chain(s), Kernel.Step(e, net, s);
    assert Acts(net, f, c);
    hide Fresh, Due, AtomicAt, AtomOf, Kernel.Step, Legal, Wired, Acts, Chain, Solid, View, FlatStep;
    SameDomain(e, net, f, c);
    ViewDomain(net, s, now);
    forall p | AtomicAt(net, p)
      ensures p in FlatStep(e, net, f, c) && AtomOf(net, s', p, s.tn) == FlatStep(e, net, f, c)[p]
    {
      StepAt(e, net, s, now, p);
    }
    SameModels(net, s', s.tn, FlatStep(e, net, f, c));
  }

  // ---------- Runs ----------

  /** n steps of the nested simulator, as long as something is due before the padding time. */
  ghost predicate NestedRun(e: Engine, net: Net, s: Sim, now: int, n: nat, s': Sim, now': int)
    requires Legal(e) && Wired(net) && Fresh(net, s, now)
    decreases n
  {
    if n == 0 then s' == s && now' == now
    else
      s.tn < PADDING_TIME &&
      (BecomesDue(net, s, now);
       NestedRun(e, net, Kernel.Step(e, net, s), s.tn, n - 1, s', now'))
  }

  /** In every state of every run each model is due at its last event's time plus its time advance. */
  lemma {:induction false} RunKeepsSchedule(e: Engine, net: Net, s: Sim, now: int, n: nat, s': Sim, now': int)
    requires Legal(e) && Wired(net) && Fresh(net, s, now) && NestedRun(e, net, s, now, n, s', now')
    requires Scheduled(e, s)
    ensures Scheduled(e, s')
    decreases n
  {
    hide Fresh, Due, Kernel.Step, Scheduled, Wired, Legal;
    if n > 0 {
      BecomesDue(net, s, now);
      StepScheduled(e, net, s);
      RunKeepsSchedule(e, net, Kernel.Step(e, net, s), s.tn, n - 1, s', now');
    }
  }

  /** A run goes on with one more step. */
  lemma {:induction false} RunOneMore(e: Engine, net: Net, s: Sim, now: int, n: nat, s': Sim, now': int)
    requires Legal(e) && Wired(net) && Fresh(net, s, now) && NestedRun(e, net, s, now, n, s', now')
    requires s'.tn < PADDING_TIME
    ensures Fresh(net, s', now') && Due(net, s', s'.tn)
    ensures NestedRun(e, net, s, now, n + 1, Kernel.Step(e, net, s'), s'.tn)
    decreases n
  {
    hide Fresh, Due, Kernel.Step, Wired, Legal;
    BecomesDue(net, s, now);
    if n > 0 {
      RunOneMore(e, net, Kernel.Step(e, net, s), s.tn, n - 1, s', now');
    } else {
      assert NestedRun(e, net, Kernel.Step(e, net, s), s.tn, 0, Kernel.Step(e, net, s), s.tn);
    }
  }

  ghost predicate FlatRun(e: Engine, net: Net, f: Flat, n: nat, f': Flat)
    requires Legal(e) && Wired(net)
    decreases n
  {
    if n == 0 then f' == f
    else
      exists c :: Acts(net, f, c) && FlatRun(e, net, FlatStep(e, net, f, c), n - 1, f')
  }

  /** Every run of the nested simulator is a run of the flat one, with the same choice on every tie. */
  lemma {:induction false} RunIsFlatRun(e: Engine, net: Net, s: Sim, now: int, n: nat, s': Sim, now': int)
    requires Legal(e) && Wired(net) && Solid(net) && Fresh(net, s, now) && NestedRun(e, net, s, now, n, s', now')
    ensures Fresh(net, s', now') && FlatRun(e, net, View(net, s, now), n, View(net, s', now'))
    decreases n
  {
    hide Fresh, Due, AtomicAt, Kernel.Step, FlatStep, View, Legal, Wired, Acts, Chain, Solid;
    if n > 0 {
      StepIsFlatStep(e, net, s, now);
      RunIsFlatRun(e, net, Kernel.Step(e, net, s), s.tn, n - 1, s', now');
    }
  }

  lemma NextIsUnique(net: Net, f: Flat, c: seq<nat>, d: seq<nat>)
    requires Acts(net, f, c) && Acts(net, f, d)
    ensures c == d
  {
    hide AtomicAt, Before, Timely;
    Ordered(net, c, d);
  }

  /** The flat simulator has no choice left: a run from the same models ends in the same models. */
  lemma {:induction false} FlatRunIsUnique(e: Engine, net: Net, f: Flat, n: nat, f1: Flat, f2: Flat)
    requires Legal(e) && Wired(net) && FlatRun(e, net, f, n, f1) && FlatRun(e, net, f, n, f2)
    ensures f1 == f2
    decreases n
  {
    hide FlatStep, Legal, Wired, Acts;
    if n > 0 {
      var c :| Acts(net, f, c) && FlatRun(e, net, FlatStep(e, net, f, c), n - 1, f1);
      var d :| Acts(net, f, d) && FlatRun(e, net, FlatStep(e, net, f, d), n - 1, f2);
      NextIsUnique(net, f, c, d);
      FlatRunIsUnique(e, net, FlatStep(e, net, f, c), n - 1, f1, f2);
    }
  }
}
