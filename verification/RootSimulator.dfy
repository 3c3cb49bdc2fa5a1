/** The root loop: it advances the clock to the next event, counts steps that leave the clock where it
    is, and gives up on a model that takes too many of them. */
module RootSimulation {
  import opened ChildHeaps
  import opened Routing
  import opened Kernel
  import opened KernelProofs
  import FlatSimulation

  class RootSimulator {
    const engine: Engine
    const net: Net
    const tf: int
    const maxSteps: nat
    var mainCoupling: Sim
    var t: int
    var lastTransition: int
    var stepsCount: int

    ghost predicate Valid()
      reads this
    {
      Legal(engine) && Wired(net) && tf < PADDING_TIME && Fresh(net, mainCoupling, t) && Scheduled(engine, mainCoupling)
    }

    constructor (engine: Engine, net: Net, states: seq<nat> -> State, ti: int, tf: int, maxSteps: nat)
      requires Legal(engine) && Wired(net) && tf < PADDING_TIME
      ensures Valid() && t == ti && stepsCount == 0 && lastTransition == 0
      ensures this.engine == engine && this.net == net && this.tf == tf && this.maxSteps == maxSteps
      ensures mainCoupling == Init(engine, net, states, ti)
    {
      this.engine, this.net, this.tf, this.maxSteps := engine, net, tf, maxSteps;
      t := ti;
      mainCoupling := Init(engine, net, states, ti);
      InitScheduled(engine, net, states, ti);
      lastTransition, stepsCount := 0, 0;
    }

    method Step() returns (done: bool)
      requires Valid()
      modifies this
      ensures t == old(mainCoupling.tn) >= old(t)
      ensures lastTransition == t && stepsCount == if old(lastTransition) == t then old(stepsCount) + 1 else 0
      ensures done <==> stepsCount > maxSteps || t > tf
      ensures done ==> mainCoupling == old(mainCoupling)
      ensures !done ==> Valid() && Due(net, old(mainCoupling), t)
      ensures !done ==> mainCoupling == Kernel.Step(engine, net, old(mainCoupling))
    {
      FreshNow(net, mainCoupling, t);
      ghost var before := t;
      t := mainCoupling.tn;
      if lastTransition == t {
        stepsCount := stepsCount + 1;
      } else {
        lastTransition := t;
        stepsCount := 0;
      }
      if stepsCount > maxSteps {
        return true;
      }
      if t <= tf {
        BecomesDue(net, mainCoupling, before);
        StepScheduled(engine, net, mainCoupling);
        mainCoupling := Kernel.Step(engine, net, mainCoupling);
        return false;
      } else {
        return true;
      }
    }

    /** The loop always ends, after one step of the kernel for each clock time; the clock never goes back,
        and no time is taken more than maxSteps + 1 times. */
    method Run() returns (clock: seq<int>)
      requires Valid() && stepsCount == 0
      modifies this
      ensures stepsCount > maxSteps || t > tf
      ensures Ticks(clock, old(t), tf, maxSteps)
      ensures FlatSimulation.NestedRun(engine, net, old(mainCoupling), old(t), |clock|, mainCoupling,
        Now(clock, old(t)))
    {
      clock := [];
      ghost var ti, start := t, mainCoupling;
      RunStarts();
      var done := false;
      hide *;
      while !done
        invariant !done ==> Valid() && t == Now(clock, ti)
        invariant done ==> stepsCount > maxSteps || t > tf
        invariant Ticks(clock, ti, tf, maxSteps)
        invariant !done && clock != [] ==> lastTransition == t <= tf && 0 <= stepsCount <= maxSteps
        invariant !done && clock != [] ==> multiset(clock)[t] <= stepsCount + 1
        invariant clock == [] ==> stepsCount >= 0
        invariant FlatSimulation.NestedRun(engine, net, start, ti, |clock|, mainCoupling, Now(clock, ti))
        decreases !done, clock == [],
                  if clock == [] then 0 else tf - t, if clock == [] then 0 else maxSteps - stepsCount
      {
        ghost var was, before := t, mainCoupling;
        assert tf < PADDING_TIME by { InBounds(); }
        done := Step();
        if !done {
          FlatSimulation.RunOneMore(engine, net, start, ti, |clock|, before, was);
          Ticked(clock, ti, tf, maxSteps, t, stepsCount);
          clock := clock + [t];
        }
      }
    }

    lemma InBounds()
      requires Valid()
      ensures tf < PADDING_TIME
    {
    }

    lemma RunStarts()
      requires Valid()
      ensures Legal(engine) && Wired(net) && Fresh(net, mainCoupling, t) && tf < PADDING_TIME
      ensures FlatSimulation.NestedRun(engine, net, mainCoupling, t, 0, mainCoupling, t)
      ensures Now([], t) == t && Ticks([], t, tf, maxSteps)
    {
    }
  }

  function Now(clock: seq<int>, ti: int): int { if clock == [] then ti else clock[|clock| - 1] }

  /** Times from ti to tf that never go back, none of them more than maxSteps + 1 times. */
  ghost predicate Ticks(clock: seq<int>, ti: int, tf: int, maxSteps: nat)
  {
    && (forall i :: 0 <= i < |clock| ==> ti <= clock[i] <= tf)
    && (forall i, j :: 0 <= i < j < |clock| ==> clock[i] <= clock[j])
    && (forall x :: multiset(clock)[x] <= maxSteps + 1)
  }

  lemma Ticked(clock: seq<int>, ti: int, tf: int, maxSteps: nat, t: int, steps: nat)
    requires Ticks(clock, ti, tf, maxSteps) && Now(clock, ti) <= t <= tf && steps <= maxSteps
    requires clock != [] && t == Now(clock, ti) ==> multiset(clock)[t] <= steps
    ensures Ticks(clock + [t], ti, tf, maxSteps) && Now(clock + [t], ti) == t
    ensures multiset(clock + [t])[t] <= steps + 1
  {
    if clock != [] && t > Now(clock, ti) { assert t !in clock; }
  }
}
