/** The base class of all atomic models: the times of the last and the next event around the model's
    own functions. */
module AtomicSimulation {
  import opened Collections
  import opened Kernel

  class Simulator {
    const engine: Engine
    var state: State
    var e: int
    var tl: int
    var tn: int

    function View(): Sim
      reads this
    {
      Atom(state, tl, tn)
    }

    constructor (engine: Engine, state: State)
      ensures this.engine == engine && this.state == state
    {
      this.engine, this.state := engine, state;
    }

    method IMessage(t: int)
      requires Legal(engine)
      modifies `e, `tl, `tn
      ensures state == old(state) && e == 0 && tl == t && tn == t + engine.ta(state, t) >= t
    {
      e := 0;
      tl := t;
      tn := t + engine.ta(state, t);
    }

    method LambdaMessage(t: int) returns (out: Option<(int, Value)>)
      ensures out == engine.output(state, t) == OutputOf(engine, View(), t)
    {
      out := engine.output(state, t);
    }

    /** The model sees how long it has been in its state, and is not due before the event. */
    method DintMessage(t: int)
      requires Legal(engine) && tl <= t == tn
      modifies `state, `e, `tl, `tn
      ensures View() == AtomInternal(engine, old(View()), t)
      ensures e == t - old(tl) >= 0 && state == engine.dint(old(state), e, t)
      ensures tl == t && tn == t + engine.ta(state, t) >= t
    {
      e := t - tl;
      state := engine.dint(state, e, t);
      tl := t;
      tn := t + engine.ta(state, t);
    }

    method DextMessage(port: int, value: Value, t: int)
      requires Legal(engine) && tl <= t <= tn
      modifies `state, `e, `tl, `tn
      ensures View() == AtomExternal(engine, old(View()), port, value, t)
      ensures e == t - old(tl) >= 0 && state == engine.dext(old(state), e, port, value, t)
      ensures tl == t && tn == t + engine.ta(state, t) >= t
    {
      e := t - tl;
      state := engine.dext(state, e, port, value, t);
      tl := t;
      tn := t + engine.ta(state, t);
    }
  }
}
