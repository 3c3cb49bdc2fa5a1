/** A coupling as it runs: its children, the tree of their next-event times, the index of its internal
    connections, and the loops that pass events on.  Its children are values, as in the kernel. */
module CouplingObject {
  import opened ChildHeaps
  import opened Routing
  import opened Kernel
  import opened KernelProofs

  // What reading the index gives is what scanning the connections gives.
  ghost predicate IndexOf(ic: seq<Connection>, index: seq<seq<nat>>, children: nat)
  {
    && |index| == children + 1
    && (forall i, j :: 0 <= i < children && 0 <= j < |index[i]| ==> index[i][j] < |ic|)
    && (forall i, p :: 0 <= i < children ==> Picked(ic, index[i], p) == FromChild(ic, i, p))
  }

  /** The time and the choice that the tree gives for these children; the tree's padding rules out
      nothing before 1e100. */
  ghost predicate Chosen(children: seq<Sim>, tc: nat, tn: int, t: int)
  {
    if children == [] then tn == t + EMPTY_TA
    else tc < |children| && Picks(Times(children), tc) && tn == children[tc].tn
  }

  ghost predicate Sinks(net: Net, conns: seq<Connection>, active: int)
    requires net.Node?
  {
    forall k :: k in conns ==> k.dst < |net.children| && k.dst != active
  }

  // ExternalFan, under a name for its condition.
  ghost function FanOut(e: Engine, net: Net, children: seq<Sim>, active: int, conns: seq<Connection>, v: Value,
      t: int): seq<Sim>
    requires Legal(e) && Wired(net) && net.Node? && FreshBut(net, children, active, t) && Sinks(net, conns, active)
  {
    ExternalFan(e, net, children, active, conns, v, t)
  }

  ghost predicate InRange(ic: seq<Connection>, list: seq<nat>) { forall j :: 0 <= j < |list| ==> list[j] < |ic| }

  // What is still to be read of a list of the index.
  ghost function PickedFrom(ic: seq<Connection>, list: seq<nat>, i: nat, p: int): seq<Connection>
    requires InRange(ic, list) && i <= |list|
  {
    Picked(ic, list[i..], p)
  }

  class Coupling {
    const engine: Engine
    const net: Net
    const index: seq<seq<nat>>
    const heap: ChildHeap
    var childs: seq<Sim>
    var transitionChild: nat
    var e: int
    var tl: int
    var tn: int

    ghost predicate Valid()
      reads `childs, heap
    {
      && Legal(engine) && Wired(net) && net.Node? && |childs| == |net.children|
      && IndexOf(net.ic, index, |net.children|)
      && heap.Valid() && heap.leaf == Times(childs)
    }

    /** The kernel's value of this coupling. */
    ghost function View(): Sim
      reads `childs, `transitionChild, `tl, `tn
    {
      Coup(childs, transitionChild, tl, tn)
    }

    /** The value is s; past 1e100 the tree may choose another child than s has, all due past it too. */
    ghost predicate Is(s: Sim)
      reads `childs, `transitionChild, `tl, `tn
    {
      && s.Coup? && childs == s.children && tl == s.tl
      && (if childs == [] then tn == s.tn else tn < PADDING_TIME || s.tn < PADDING_TIME ==> View() == s)
    }

    lemma ChosenIs(t: int)
      requires Valid() && Chosen(childs, transitionChild, tn, t) && tl == t
      ensures Is(Refresh(engine, childs, t))
      ensures FreshBut(net, childs, -1, t) ==> Fresh(net, View(), t)
    {
      hide Tournament, IndexOf, Wired;
      if childs != [] {
        var times := Times(childs);
        assert Picks(times, engine.next(times)) && Picks(times, transitionChild);
        assert times[Earliest(times)] <= times[transitionChild] && times[Earliest(times)] <= times[engine.next(times)];
        hide Picks;
      }
    }

    constructor (engine: Engine, net: Net, states: seq<nat> -> State, t: int)
      requires Legal(engine) && Wired(net) && net.Node?
      ensures Valid() && this.engine == engine && this.net == net && fresh(heap)
      ensures childs == InitAll(engine, net, states, t, |net.children|)
    {
      var ic := BuildIndex(net.ic, |net.children|);
      this.engine, this.net, index := engine, net, ic;
      childs := InitAll(engine, net, states, t, |net.children|);
      heap := new ChildHeap();
      new;
      heap.Create(Times(childs));
    }

    method Ta(t: int) returns (ta: int)
      requires Valid()
      modifies `transitionChild, `tn
      ensures Valid() && ta == tn - t && Chosen(childs, transitionChild, tn, t)
    {
      if |childs| == 0 {
        tn := t + EMPTY_TA;  // the original returns this without setting tn; its callers set it so
        return EMPTY_TA;
      }
      TreePicks(heap.heap, Times(childs));
      transitionChild := heap.Next();
      tn := childs[transitionChild].tn;
      ta := tn - t;
    }

    method IMessage(t: int)
      requires Valid()
      modifies `transitionChild, `tn, `tl, `e
      ensures Valid() && e == 0 && tl == t && Chosen(childs, transitionChild, tn, t)
      ensures Is(Refresh(engine, childs, t))
    {
      e := 0;
      tl := t;
      var ta := Ta(t);
      tn := t + ta;
      ChosenIs(t);
    }

    /** Gives a child an external event and has the tree updated. */
    method Forward(k: Connection, v: Value, t: int)
      requires Valid() && k.dst < |childs| && Fresh(net.children[k.dst], childs[k.dst], t)
      modifies `childs, heap
      ensures Valid()
      ensures childs == old(childs)[k.dst := External(engine, net.children[k.dst], old(childs[k.dst]), k.dport, v, t)]
    {
      ghost var was := Times(childs);
      childs := childs[k.dst := External(engine, net.children[k.dst], childs[k.dst], k.dport, v, t)];
      heap.Update(k.dst, childs[k.dst].tn);
      assert heap.leaf == Times(childs);
    }

    method Dext(p: int, v: Value, t: int)
      requires Valid() && FreshBut(net, childs, -1, t)
      modifies `childs, heap
      ensures Valid() && FreshBut(net, childs, -1, t)
      ensures childs == ExternalFan(engine, net, old(childs), -1, FromPort(net.eic, p), v, t)
    {
      NoPort(net.eic, p);
      assert Sinks(net, FromPort(net.eic, p), -1);
      ghost var goal := FanOut(engine, net, childs, -1, FromPort(net.eic, p), v, t);
      hide ExternalFan, FanOut, Sinks, External, Tournament, IndexOf, FromPort, Legal, Wired, FreshBut, Fresh;
      for i := 0 to |net.eic|
        invariant Valid() && FreshBut(net, childs, -1, t) && Sinks(net, FromPort(net.eic[i..], p), -1)
        invariant FanOut(engine, net, childs, -1, FromPort(net.eic[i..], p), v, t) == goal
      {
        FromPortStep(net.eic, i, p);
        if net.eic[i].sport == p {
          FanStep(engine, net, childs, -1, net.eic[i], FromPort(net.eic[i + 1..], p), v, t);
          Forward(net.eic[i], v, t);
        }
      }
      NoFan(engine, net, childs, -1, v, t);
    }

    /** Along the indexed connections of the active child, to its siblings. */
    method PropagateInside(p: int, v: Value, t: int)
      requires Valid() && transitionChild < |childs| && FreshBut(net, childs, transitionChild, t)
      modifies `childs, heap
      ensures Valid() && FreshBut(net, childs, transitionChild, t)
      ensures childs == ExternalFan(engine, net, old(childs), transitionChild, FromChild(net.ic, transitionChild, p),
        v, t)
    {
      IndexStart(net, index, transitionChild, p);
      ghost var tc, list := transitionChild, index[transitionChild];
      NonePicked(net.ic, list, p);
      ghost var goal := FanOut(engine, net, childs, tc, FromChild(net.ic, tc, p), v, t);
      hide ExternalFan, FanOut, Sinks, External, Tournament, IndexOf, FromChild, PickedFrom, InRange, Legal, Wired,
        FreshBut, Fresh;
      for i := 0 to |index[transitionChild]|
        invariant Valid() && FreshBut(net, childs, tc, t) && Sinks(net, PickedFrom(net.ic, list, i, p), tc)
        invariant FanOut(engine, net, childs, tc, PickedFrom(net.ic, list, i, p), v, t) == goal
      {
        PickedStep(net.ic, list, i, p);
        var k := net.ic[index[transitionChild][i]];
        if k.sport == p {
          FanStep(engine, net, childs, tc, k, PickedFrom(net.ic, list, i + 1, p), v, t);
          Forward(k, v, t);
        }
      }
      NoFan(engine, net, childs, tc, v, t);
    }

    /** The ports by which an output of the active child leaves the coupling. */
    method PropagateOutside(p: int) returns (outs: seq<int>)
      requires net.Node?
      ensures outs == SinkPorts(FromChild(net.eoc, transitionChild, p))
    {
      outs := [];
      for i := 0 to |net.eoc|
        invariant outs == SinkPorts(FromChild(net.eoc[..i], transitionChild, p))
      {
        SinkPortsStep(net.eoc, i, transitionChild, p);
        if net.eoc[i].src == transitionChild && net.eoc[i].sport == p {
          outs := outs + [net.eoc[i].dport];
        }
      }
      assert net.eoc[..|net.eoc|] == net.eoc;
    }

    method Propagate(p: int, v: Value, t: int) returns (outs: seq<int>)
      requires Valid() && transitionChild < |childs| && FreshBut(net, childs, transitionChild, t)
      modifies `childs, heap
      ensures Valid() && FreshBut(net, childs, transitionChild, t)
      ensures childs == ExternalFan(engine, net, old(childs), transitionChild, FromChild(net.ic, transitionChild, p),
        v, t)
      ensures outs == SinkPorts(FromChild(net.eoc, transitionChild, p))
    {
      PropagateInside(p, v, t);
      outs := PropagateOutside(p);
    }

    /** The output phase: the active child's output, which may leave it by several ports, is propagated
        port by port; the ports by which it leaves this coupling are handed to the father. */
    method Lambda(p: int, v: Value, t: int) returns (outs: seq<int>)
      requires Valid() && transitionChild < |childs| && FreshBut(net, childs, transitionChild, t)
      requires Due(net.children[transitionChild], childs[transitionChild], t)
      modifies `childs, heap
      ensures Valid() && transitionChild < |childs|
      ensures var (c, ports) := Spread(engine, net.children[transitionChild], old(childs[transitionChild]), p, v, t);
        && childs == ExternalAcross(engine, net, old(childs)[transitionChild := c], transitionChild, ports, v, t)
        && outs == Out(net.eoc, transitionChild, ports)
      ensures Due(net, old(View()), t) ==> (View(), outs) == Spread(engine, net, old(View()), p, v, t)
    {
      hide ExternalAcross, ExternalFan, Spread, Tournament, IndexOf, Out, Internal, Legal, FromChild, SinkPorts;
      if Due(net, View(), t) { SpreadInside(engine, net, View(), p, v, t); }
      var i := transitionChild;
      var (c, ports) := Spread(engine, net.children[i], childs[i], p, v, t);
      assert Due(net.children[i], c, t) && c.tn == childs[i].tn;
      childs := childs[i := c];
      assert Times(childs) == Times(old(childs));
      ghost var spread := childs;
      outs := [];
      assert ports[0..] == ports;
      for k := 0 to |ports|
        invariant Valid() && FreshBut(net, childs, i, t)
        invariant ExternalAcross(engine, net, childs, i, ports[k..], v, t) ==
          ExternalAcross(engine, net, spread, i, ports, v, t)
        invariant outs + Out(net.eoc, i, ports[k..]) == Out(net.eoc, i, ports)
      {
        AcrossStep(engine, net, childs, i, ports[k..], v, t);
        assert ports[k..][1..] == ports[k + 1..];
        var more := Propagate(ports[k], v, t);
        assert outs + (more + Out(net.eoc, i, ports[k + 1..])) == (outs + more) + Out(net.eoc, i, ports[k + 1..]);
        outs := outs + more;
      }
      NoneAcross(engine, net, childs, i, v, t);
      assert ports[|ports|..] == [] && outs + [] == outs;
    }

    method Dint(t: int)
      requires Valid() && transitionChild < |childs| && Due(net.children[transitionChild], childs[transitionChild], t)
      modifies `childs, heap
      ensures Valid()
      ensures var i := transitionChild; childs == old(childs)[i := Internal(engine, net.children[i], old(childs[i]), t)]
    {
      var i := transitionChild;
      childs := childs[i := Internal(engine, net.children[i], childs[i], t)];
      heap.Update(i, childs[i].tn);
      assert heap.leaf == Times(childs);
    }

    /** An external event as the father delivers it. */
    method DextMessage(p: int, v: Value, t: int)
      requires Valid() && FreshBut(net, childs, -1, t)
      modifies `childs, `transitionChild, `tn, `tl, `e, heap
      ensures Valid() && tl == t && e == t - old(tl)
      ensures childs == ExternalFan(engine, net, old(childs), -1, FromPort(net.eic, p), v, t)
      ensures Chosen(childs, transitionChild, tn, t)
      ensures Fresh(net, old(View()), t) ==>
        Fresh(net, View(), t) && Is(External(engine, net, old(View()), p, v, t))
    {
      hide ExternalFan, Tournament, FreshBut, Fresh, External, IndexOf, Chosen, FromPort, Is, Refresh, Legal, Wired;
      if Fresh(net, View(), t) { ExternalNode(engine, net, View(), p, v, t); }
      e := t - tl;
      Dext(p, v, t);
      tl := t;
      var ta := Ta(t);
      tn := t + ta;
      ChosenIs(t);
    }

    /** The internal transition as the father orders it, after the output phase. */
    method DintMessage(t: int)
      requires Valid() && transitionChild < |childs| && Due(net.children[transitionChild], childs[transitionChild], t)
      modifies `childs, `transitionChild, `tn, `tl, `e, heap
      ensures Valid() && tl == t && e == t - old(tl)
      ensures var i := old(transitionChild);
        childs == old(childs)[i := Internal(engine, net.children[i], old(childs[i]), t)]
      ensures Chosen(childs, transitionChild, tn, t)
      ensures Due(net, old(View()), t) ==> Fresh(net, View(), t) && Is(Internal(engine, net, old(View()), t))
    {
      if Due(net, View(), t) { InternalNode(engine, net, View(), t); }
      hide Internal, Tournament, Due, Fresh, FreshBut, IndexOf, Chosen, Is, Refresh, Legal, Wired;
      e := t - tl;
      Dint(t);
      tl := t;
      var ta := Ta(t);
      tn := t + ta;
      ChosenIs(t);
    }
  }

  /** What the object caches is what the kernel's couplings cache, whenever something is due before 1e100:
      then there is only one choice. */
  lemma ChosenIsCached(e: Engine, children: seq<Sim>, tc: nat, tn: int, t: int)
    requires Legal(e) && children != [] && Chosen(children, tc, tn, t) && tn < PADDING_TIME
    ensures Refresh(e, children, t) == Coup(children, tc, t, tn)
  {
    var times := Times(children);
    assert Picks(times, e.next(times)) && Picks(times, tc);
    assert times[Earliest(times)] <= times[tc];
  }

  lemma ExternalNode(e: Engine, net: Net, s: Sim, p: int, v: Value, t: int)
    requires Legal(e) && Wired(net) && net.Node? && Fresh(net, s, t)
    ensures FreshBut(net, s.children, -1, t)
    ensures External(e, net, s, p, v, t) ==
      Refresh(e, ExternalFan(e, net, s.children, -1, FromPort(net.eic, p), v, t), t)
  {
  }

  lemma InternalNode(e: Engine, net: Net, s: Sim, t: int)
    requires Legal(e) && net.Node? && net.children != [] && Due(net, s, t)
    ensures s.tc < |net.children| && Due(net.children[s.tc], s.children[s.tc], t)
    ensures var children := s.children[s.tc := Internal(e, net.children[s.tc], s.children[s.tc], t)];
      FreshBut(net, children, -1, t) && Internal(e, net, s, t) == Refresh(e, children, t)
  {
  }

  lemma FromPortStep(conns: seq<Connection>, i: nat, p: int)
    requires i < |conns|
    ensures FromPort(conns[i..], p) == if conns[i].sport == p then [conns[i]] + FromPort(conns[i + 1..], p)
      else FromPort(conns[i + 1..], p)
  {
    assert conns[i..][1..] == conns[i + 1..];
  }

  lemma NoPort(conns: seq<Connection>, p: int)
    ensures conns[|conns|..] == [] && FromPort(conns[|conns|..], p) == [] && conns[0..] == conns
  {
  }

  lemma IndexStart(net: Net, index: seq<seq<nat>>, tc: nat, p: int)
    requires Wired(net) && net.Node? && IndexOf(net.ic, index, |net.children|) && tc < |net.children|
    ensures tc < |index| && InRange(net.ic, index[tc]) &&
      PickedFrom(net.ic, index[tc], 0, p) == FromChild(net.ic, tc, p)
    ensures Sinks(net, FromChild(net.ic, tc, p), tc)
  {
    assert index[tc][0..] == index[tc];
  }

  lemma PickedStep(ic: seq<Connection>, list: seq<nat>, i: nat, p: int)
    requires i < |list| && InRange(ic, list)
    ensures list[i] < |ic|
    ensures PickedFrom(ic, list, i, p) ==
            if ic[list[i]].sport == p then [ic[list[i]]] + PickedFrom(ic, list, i + 1, p)
              else PickedFrom(ic, list, i + 1, p)
  {
    assert list[i..][1..] == list[i + 1..];
  }

  lemma NonePicked(ic: seq<Connection>, list: seq<nat>, p: int)
    requires InRange(ic, list)
    ensures PickedFrom(ic, list, |list|, p) == []
  {
  }

  lemma SinkPortsStep(conns: seq<Connection>, i: nat, child: nat, p: int)
    requires i < |conns|
    ensures SinkPorts(FromChild(conns[..i + 1], child, p)) ==
            SinkPorts(FromChild(conns[..i], child, p)) + if conns[i].src == child && conns[i].sport == p
              then [conns[i].dport] else []
  {
    assert conns[..i + 1] == conns[..i] + [conns[i]];
    FromChildAppend(conns[..i], conns[i], child, p);
    var before := FromChild(conns[..i], child, p);
    assert before + [] == before && SinkPorts(before) + [] == SinkPorts(before);
    hide FromChild;
    SinkPortsAppend(before, conns[i]);
  }

  lemma {:induction false} SinkPortsAppend(conns: seq<Connection>, k: Connection)
    ensures SinkPorts(conns + [k]) == SinkPorts(conns) + [k.dport]
  {
    if conns != [] {
      assert (conns + [k])[1..] == conns[1..] + [k];
      SinkPortsAppend(conns[1..], k);
    }
  }

  lemma FanStep(e: Engine, net: Net, children: seq<Sim>, active: int, k: Connection, rest: seq<Connection>, v: Value,
      t: int)
    requires Legal(e) && Wired(net) && net.Node? && FreshBut(net, children, active, t) && Sinks(net, [k] + rest, active)
    ensures k.dst < |children| && Fresh(net.children[k.dst], children[k.dst], t) && Sinks(net, rest, active)
    ensures var moved := children[k.dst := External(e, net.children[k.dst], children[k.dst], k.dport, v, t)];
      FreshBut(net, moved, active, t) &&
      FanOut(e, net, children, active, [k] + rest, v, t) == FanOut(e, net, moved, active, rest, v, t)
  {
    var all := [k] + rest;
    assert all[1..] == rest && k in all && forall c :: c in rest ==> c in all;
    hide External, Wired, Legal;
  }

  lemma NoFan(e: Engine, net: Net, children: seq<Sim>, active: int, v: Value, t: int)
    requires Legal(e) && Wired(net) && net.Node? && FreshBut(net, children, active, t)
    ensures Sinks(net, [], active) && FanOut(e, net, children, active, [], v, t) == children
  {
  }

  lemma AcrossStep(e: Engine, net: Net, children: seq<Sim>, active: nat, ports: seq<int>, v: Value, t: int)
    requires Legal(e) && Wired(net) && net.Node? && FreshBut(net, children, active, t) && ports != []
    ensures ExternalAcross(e, net, children, active, ports, v, t) ==
            ExternalAcross(e, net, ExternalFan(e, net, children, active, FromChild(net.ic, active, ports[0]), v, t),
              active, ports[1..], v, t)
    ensures Out(net.eoc, active, ports) ==
      SinkPorts(FromChild(net.eoc, active, ports[0])) + Out(net.eoc, active, ports[1..])
  {
  }

  lemma NoneAcross(e: Engine, net: Net, children: seq<Sim>, active: nat, v: Value, t: int)
    requires Legal(e) && Wired(net) && net.Node? && FreshBut(net, children, active, t)
    ensures ExternalAcross(e, net, children, active, [], v, t) == children && Out(net.eoc, active, []) == []
  {
  }
}
