/** A weighted round robin over queues: every request goes to the current queue until its weight is
    used up, skipping empty queues. */
module RoundRobin {
  import opened Collections

  datatype Scheduler = Scheduler(index: int, pending: int, sizes: seq<int>, delayed: bool, sigma: Wait)

  datatype SchedulerEvent = SizeArrives(queue: int, size: int, e: real) | DequeueRequest | OtherPort | RequestSent

  datatype Outcome = Thrown | Done(next: Scheduler, chosen: seq<int>, emitted: seq<int>)

  ghost predicate Weights(w: seq<int>) { |w| > 0 && forall k :: 0 <= k < |w| ==> w[k] > 0 }

  // ---------- One request ----------

  /** The first non-empty queue in [lo, hi), or hi. */
  function Find(sizes: seq<int>, lo: nat, hi: nat): (r: nat)
    requires lo <= hi <= |sizes|
    ensures lo <= r <= hi && (r < hi ==> sizes[r] != 0)
    ensures forall k :: lo <= k < r ==> sizes[k] == 0
    decreases hi - lo
  {
    if lo == hi || sizes[lo] != 0 then lo else Find(sizes, lo + 1, hi)
  }

  function NextIndex(sizes: seq<int>, index: nat, pending: int): int
    requires index < |sizes|
  {
    var start := if pending == 0 then index + 1 else index;
    var i := Find(sizes, start, |sizes|);
    if i < |sizes| then i else var j := Find(sizes, 0, start); if j == start then -1 else j
  }

  predicate AllEmpty(sizes: seq<int>) { forall k :: 0 <= k < |sizes| ==> sizes[k] == 0 }

  function Serve(w: seq<int>, s: Scheduler): Scheduler
    requires |w| == |s.sizes| && 0 <= s.index < |w|
  {
    var j := NextIndex(s.sizes, s.index, s.pending);
    if j < 0 then s.(index := 0, pending := w[0], sigma := Forever, delayed := true)
    else s.(index := j, sigma := For(0.0), delayed := false,
      pending := (if s.pending == 0 then w[j] else s.pending) - 1)
  }

  function Handle(w: seq<int>, s: Scheduler, ev: SchedulerEvent): Outcome
    requires |w| == |s.sizes| && 0 <= s.index < |w|
  {
    match ev
    case OtherPort => Thrown
    case RequestSent => Done(s.(sigma := Forever), [], [s.index])
    case DequeueRequest =>
      if s.sigma == For(0.0) || s.delayed then Thrown else Served(w, s)
    case SizeArrives(q, size, e) =>
      if !(0 <= q < |s.sizes|) then Thrown
      else
        var s1 := s.(sizes := s.sizes[q := size]);
        if s.delayed && size != 0 then Served(w, s1) else Done(s1.(sigma := After(s.sigma, e)), [], [])
  }

  function Served(w: seq<int>, s: Scheduler): Outcome
    requires |w| == |s.sizes| && 0 <= s.index < |w|
  {
    var s1 := Serve(w, s);
    Done(s1, if s1.delayed then [] else [s1.index], [])
  }

  class WRRScheduler {
    const queueWeights: seq<int>
    var index: int
    var pending: int
    var sizes: seq<int>
    var delayed: bool
    var sigma: Wait

    function View(): Scheduler
      reads this
    {
      Scheduler(index, pending, sizes, delayed, sigma)
    }

    predicate Valid()
      reads this
    {
      |queueWeights| == |sizes| && 0 <= index < |sizes|
    }

    constructor (weights: seq<int>)
      requires |weights| > 0
      ensures Valid() && queueWeights == weights && View() == Start(weights)
    {
      queueWeights := weights;
      index, pending, sizes, delayed, sigma := 0, weights[0], seq(|weights|, _ => 0), false, Forever;
    }

    /** None when the number of weights is not the configured number of queues (the original throws). */
    static method Init(nQueues: int, weights: seq<int>) returns (model: Option<WRRScheduler>)
      requires |weights| > 0
      ensures model.None? <==> |weights| != nQueues
      ensures model.Some? ==> fresh(model.value) && model.value.Valid()
      ensures model.Some? ==> model.value.queueWeights == weights && model.value.View() == Start(weights)
    {
      if |weights| != nQueues {
        return None;
      }
      var scheduler := new WRRScheduler(weights);
      model := Some(scheduler);
    }

    method FindNonEmpty(lo: nat, hi: nat) returns (i: nat)
      requires lo <= hi <= |sizes|
      ensures i == Find(sizes, lo, hi)
    {
      i := lo;
      while i < hi && sizes[i] == 0
        invariant lo <= i <= hi && Find(sizes, lo, hi) == Find(sizes, i, hi)
      {
        i := i + 1;
      }
    }

    method GetNextWRRIndex() returns (j: int)
      requires Valid()
      modifies `index
      ensures j == NextIndex(sizes, old(index), pending)
    {
      if pending == 0 {
        index := index + 1;
      }
      var i := FindNonEmpty(index, |sizes|);
      if i == |sizes| {
        i := FindNonEmpty(0, index);
        if i == index {
          return -1;
        }
      }
      j := i;
    }

    method DextDequeRequest()
      requires Valid()
      modifies this
      ensures Valid() && View() == Serve(queueWeights, old(View()))
    {
      index := GetNextWRRIndex();
      if index >= 0 {
        sigma, delayed := For(0.0), false;
        if pending == 0 {
          pending := queueWeights[index];
        }
        pending := pending - 1;
      } else {
        index, pending, sigma, delayed := 0, queueWeights[0], Forever, true;
      }
    }

    method DextQueueSize(q: int, size: int, e: real) returns (thrown: bool)
      requires Valid()
      modifies this
      ensures Valid() && thrown == Handle(queueWeights, old(View()), SizeArrives(q, size, e)).Thrown?
      ensures View() == if thrown then old(View()) else Handle(queueWeights, old(View()), SizeArrives(q, size, e)).next
    {
      if q < 0 || |sizes| <= q {
        return true;
      }
      sizes := sizes[q := size];
      if delayed && size != 0 {
        DextDequeRequest();
      } else {
        sigma := After(sigma, e);
      }
      thrown := false;
    }

    method Dext(x: SchedulerEvent) returns (thrown: bool)
      requires Valid() && !x.RequestSent?
      modifies this
      ensures Valid() && thrown == Handle(queueWeights, old(View()), x).Thrown?
      ensures View() == if thrown then old(View()) else Handle(queueWeights, old(View()), x).next
    {
      match x
      case SizeArrives(q, size, e) =>
        thrown := DextQueueSize(q, size, e);
      case DequeueRequest =>
        if sigma == For(0.0) || delayed {
          return true;
        }
        DextDequeRequest();
        thrown := false;
      case OtherPort =>
        thrown := true;
    }

    method Lambda() returns (queue: int)
      requires Valid()
      ensures [queue] == Handle(queueWeights, View(), RequestSent).emitted
    {
      queue := index;
    }

    method Dint()
      requires Valid()
      modifies this
      ensures Valid() && View() == Handle(queueWeights, old(View()), RequestSent).next
    {
      sigma := Forever;
    }
  }

  function Start(w: seq<int>): Scheduler
    requires |w| > 0
  {
    Scheduler(0, w[0], seq(|w|, _ => 0), false, Forever)
  }

  // ---------- What is chosen ----------

  /** Steps forward around the ring from i to q, a full turn when they are equal. */
  function Dist(n: nat, i: nat, q: nat): (d: nat)
    requires i < n && q < n
    ensures 1 <= d <= n
  {
    if q > i then q - i else q - i + n
  }

  /** The current queue while it has weight and packets, else the nearest non-empty queue after it. */
  ghost predicate RightChoice(sizes: seq<int>, i: nat, pending: int, j: nat)
    requires i < |sizes|
  {
    && j < |sizes| && sizes[j] != 0
    && if pending != 0 && sizes[i] != 0 then j == i
       else forall k :: 0 <= k < |sizes| && sizes[k] != 0 ==> Dist(|sizes|, i, j) <= Dist(|sizes|, i, k)
  }

  /** The two searches find the right queue, and report failure exactly when there is none. */
  lemma NextIndexIsRight(sizes: seq<int>, index: nat, pending: int)
    requires index < |sizes|
    ensures var j := NextIndex(sizes, index, pending);
      if AllEmpty(sizes) then j == -1 else j >= 0 && RightChoice(sizes, index, pending, j)
  {
  }

  // ---------- Runs ----------

  ghost predicate Inv(w: seq<int>, s: Scheduler)
  {
    && |w| == |s.sizes| && 0 <= s.index < |w| && s.pending >= 0
    && (s.sigma == Forever || s.sigma == For(0.0))
    && (s.delayed ==> AllEmpty(s.sizes) && s.sigma == Forever)
    && (s.sigma == For(0.0) ==> !s.delayed)
  }

  // Time passes only up to the next internal event, and a request is sent when it is due.
  ghost predicate InTime(s: Scheduler, ev: SchedulerEvent)
  {
    match ev
    case SizeArrives(_, _, e) => s.sigma == For(0.0) ==> e == 0.0
    case RequestSent => s.sigma == For(0.0)
    case _ => true
  }

  lemma HandleKeepsInv(w: seq<int>, s: Scheduler, ev: SchedulerEvent)
    requires Weights(w) && Inv(w, s) && InTime(s, ev)
    ensures Handle(w, s, ev).Done? ==> Inv(w, Handle(w, s, ev).next)
    ensures Handle(w, s, ev).Thrown? <==>
      ev.OtherPort? || (ev.SizeArrives? && !(0 <= ev.queue < |w|)) ||
        (ev.DequeueRequest? && (s.sigma == For(0.0) || s.delayed))
  {
    NextIndexIsRight(s.sizes, s.index, s.pending);
    if ev.SizeArrives? && 0 <= ev.queue < |w| {
      NextIndexIsRight(s.sizes[ev.queue := ev.size], s.index, s.pending);
    }
  }

  datatype History = NotPossible | Failed | Ran(final: Scheduler, chosen: seq<int>, emitted: seq<int>)

  ghost function Run(w: seq<int>, s: Scheduler, events: seq<SchedulerEvent>): History
    requires Weights(w) && Inv(w, s)
    decreases events
  {
    if events == [] then Ran(s, [], [])
    else if !InTime(s, events[0]) then NotPossible
    else
      match Handle(w, s, events[0])
      case Thrown => Failed
      case Done(s1, chosen, emitted) =>
        HandleKeepsInv(w, s, events[0]);
        match Run(w, s1, events[1..])
        case Ran(s2, more, sent) => Ran(s2, chosen + more, emitted + sent)
        case other => other
  }

  // The request that has been chosen but not sent.
  function Due(s: Scheduler): seq<int> { if s.sigma == For(0.0) then [s.index] else [] }

  /** Every choice becomes exactly one request to that queue, sent before the next choice is made. */
  lemma {:induction false} ChoicesAreSent(w: seq<int>, s: Scheduler, events: seq<SchedulerEvent>)
    requires Weights(w) && Inv(w, s) && Run(w, s, events).Ran?
    ensures var r := Run(w, s, events); Due(s) + r.chosen == r.emitted + Due(r.final)
    decreases events
  {
    if events != [] {
      HandleKeepsInv(w, s, events[0]);
      var step := Handle(w, s, events[0]);
      ChoicesAreSent(w, step.next, events[1..]);
      OneStepSends(w, s, events[0]);
      var r := Run(w, step.next, events[1..]);
      Reassociate(Due(s), step.chosen, step.emitted, Due(step.next), r.chosen, r.emitted, Due(r.final));
      hide Handle, Inv, InTime, Due;
    }
  }

  lemma Reassociate(a: seq<int>, b: seq<int>, c: seq<int>, d: seq<int>, e: seq<int>, f: seq<int>, g: seq<int>)
    requires a + b == c + d && d + e == f + g
    ensures a + (b + e) == (c + f) + g
  {
    assert a + (b + e) == (a + b) + e;
    assert (c + d) + e == c + (d + e);
    assert c + (f + g) == (c + f) + g;
  }

  lemma OneStepSends(w: seq<int>, s: Scheduler, ev: SchedulerEvent)
    requires Weights(w) && Inv(w, s) && InTime(s, ev) && Handle(w, s, ev).Done?
    ensures var step := Handle(w, s, ev); Due(s) + step.chosen == step.emitted + Due(step.next)
  {
    NextIndexIsRight(s.sizes, s.index, s.pending);
    if ev.SizeArrives? { NextIndexIsRight(s.sizes[ev.queue := ev.size], s.index, s.pending); }
  }

  // ---------- A request that finds nothing ----------

  // Sizes that leave every queue empty.
  ghost predicate Zeros(n: nat, events: seq<SchedulerEvent>)
  {
    forall i :: 0 <= i < |events| ==> events[i].SizeArrives? && 0 <= events[i].queue < n && events[i].size == 0
  }

  // What the first packets after a failed request bring: queue q, at the reset queue's weight less one.
  ghost predicate Answered(w: seq<int>, r: History, q: int)
    requires |w| > 0
  {
    && r.Ran? && r.chosen == [q] && r.emitted == [q]
    && r.final.index == q && r.final.pending == w[0] - 1 && !r.final.delayed && r.final.sigma == Forever
  }

  lemma ArrivalServes(w: seq<int>, s: Scheduler, q: int, size: int, e: real)
    requires Weights(w) && Inv(w, s) && s.delayed && s.index == 0 && s.pending == w[0]
    requires 0 <= q < |w| && size != 0
    ensures Answered(w, Run(w, s, [SizeArrives(q, size, e), RequestSent]), q)
  {
    var arrival := SizeArrives(q, size, e);
    var sizes := s.sizes[q := size];
    NextIndexIsRight(sizes, 0, w[0]);
    assert sizes[q] != 0 && forall k :: 0 <= k < |sizes| && k != q ==> sizes[k] == 0;
    assert NextIndex(sizes, 0, w[0]) == q;
    hide NextIndex, RightChoice, AllEmpty;
    var s1 := s.(sizes := sizes, index := q, sigma := For(0.0), delayed := false, pending := w[0] - 1);
    assert Handle(w, s, arrival) == Done(s1, [q], []);
    assert Handle(w, s1, RequestSent) == Done(s1.(sigma := Forever), [], [q]);
    HandleKeepsInv(w, s, arrival);
    HandleKeepsInv(w, s1, RequestSent);
    hide Handle, Inv;
    assert [arrival, RequestSent][1..] == [RequestSent] && [RequestSent][1..] == [];
  }

  lemma ZeroWaits(w: seq<int>, s: Scheduler, zeros: seq<SchedulerEvent>)
    requires Weights(w) && Inv(w, s) && s.delayed && Zeros(|w|, zeros) && zeros != []
    ensures var step := Handle(w, s, zeros[0]);
      && InTime(s, zeros[0]) && step.Done? && Inv(w, step.next) && step.chosen == [] && step.emitted == []
      && step.next.delayed && step.next.index == s.index && step.next.pending == s.pending
    ensures Zeros(|w|, zeros[1..])
  {
    HandleKeepsInv(w, s, zeros[0]);
    hide NextIndex;
  }

  lemma {:induction false} Waits(w: seq<int>, s: Scheduler, zeros: seq<SchedulerEvent>, q: int, size: int, e: real)
    requires Weights(w) && Inv(w, s) && s.delayed && s.index == 0 && s.pending == w[0]
    requires Zeros(|w|, zeros) && 0 <= q < |w| && size != 0
    ensures Answered(w, Run(w, s, zeros + [SizeArrives(q, size, e), RequestSent]), q)
    decreases zeros
  {
    var arrival := SizeArrives(q, size, e);
    var events := zeros + [arrival, RequestSent];
    assert |w| == |s.sizes|;
    hide Handle, Inv, Zeros;
    if zeros == [] {
      assert events == [arrival, RequestSent];
      ArrivalServes(w, s, q, size, e);
    } else {
      ZeroWaits(w, s, zeros);
      assert events[0] == zeros[0] && events[1..] == zeros[1..] + [arrival, RequestSent];
      Waits(w, Handle(w, s, zeros[0]).next, zeros[1..], q, size, e);
      var r := Run(w, Handle(w, s, zeros[0]).next, events[1..]);
      assert [] + r.chosen == r.chosen && [] + r.emitted == r.emitted;
    }
  }

  /** A request that finds every queue empty is kept: the first packets to come are chosen, wherever they
      come, at the first queue's weight less one, whoever had weight left before. */
  lemma KeptRequest(w: seq<int>, s: Scheduler, zeros: seq<SchedulerEvent>, q: int, size: int, e: real)
    requires Weights(w) && Inv(w, s) && AllEmpty(s.sizes) && s.sigma == Forever && !s.delayed
    requires Zeros(|w|, zeros) && 0 <= q < |w| && size != 0
    ensures Answered(w, Run(w, s, [DequeueRequest] + (zeros + [SizeArrives(q, size, e), RequestSent])), q)
  {
    var later := zeros + [SizeArrives(q, size, e), RequestSent];
    assert ([DequeueRequest] + later)[1..] == later;
    NextIndexIsRight(s.sizes, s.index, s.pending);
    HandleKeepsInv(w, s, DequeueRequest);
    var u := Handle(w, s, DequeueRequest).next;
    assert u == s.(index := 0, pending := w[0], sigma := Forever, delayed := true);
    hide Handle, Inv, NextIndex, RightChoice, AllEmpty;
    Waits(w, u, zeros, q, size, e);
    assert [] + Run(w, u, later).chosen == Run(w, u, later).chosen;
    assert [] + Run(w, u, later).emitted == Run(w, u, later).emitted;
  }

  // ---------- Nobody waits for ever ----------

  function Total(w: seq<int>): int { if w == [] then 0 else w[0] + Total(w[1..]) }

  function Next(n: nat, i: nat): (j: nat)
    requires i < n
    ensures j < n
  {
    if i + 1 == n then 0 else i + 1
  }

  /** The weights of the m queues after i, around the ring. */
  function Ring(w: seq<int>, i: nat, m: nat): int
    requires i < |w|
    decreases m
  {
    if m == 0 then 0 else w[Next(|w|, i)] + Ring(w, Next(|w|, i), m - 1)
  }

  lemma {:induction false} RingGrows(w: seq<int>, i: nat, m: nat, k: nat)
    requires Weights(w) && i < |w| && m <= k
    ensures 0 <= Ring(w, i, m) <= Ring(w, i, k)
    decreases k
  {
    if m > 0 { RingGrows(w, Next(|w|, i), m - 1, k - 1); } else if k > 0 { RingGrows(w, Next(|w|, i), 0, k - 1); }
  }

  // The last queue of the stretch from i to q is q.
  lemma {:induction false} RingEnds(w: seq<int>, i: nat, q: nat)
    requires i < |w| && q < |w|
    ensures Ring(w, i, Dist(|w|, i, q)) == Ring(w, i, Dist(|w|, i, q) - 1) + w[q]
    decreases Dist(|w|, i, q)
  {
    if Next(|w|, i) != q { RingEnds(w, Next(|w|, i), q); }
  }

  lemma {:induction false} RingIsTail(w: seq<int>, i: nat, m: nat)
    requires i < |w| && i + m < |w|
    ensures Ring(w, i, m) + Total(w[i + 1 + m..]) == Total(w[i + 1..])
    decreases m
  {
    if m > 0 {
      RingIsTail(w, i + 1, m - 1);
      assert w[i + 1..][1..] == w[i + 2..];
    }
  }

  lemma {:induction false} TotalSplit(w: seq<int>, i: nat)
    requires i <= |w|
    ensures Total(w) == Total(w[..i]) + Total(w[i..])
  {
    if i > 0 {
      TotalSplit(w[1..], i - 1);
      assert w[1..][..i - 1] == w[..i][1..] && w[1..][i - 1..] == w[i..];
    } else {
      assert w[..0] == [] && w[0..] == w;
    }
  }

  lemma {:induction false} RingSplit(w: seq<int>, i: nat, a: nat, b: nat)
    requires i < |w| && i + a < |w|
    ensures Ring(w, i, a + b) == Ring(w, i, a) + Ring(w, i + a, b)
    decreases a
  {
    if a > 0 { RingSplit(w, i + 1, a - 1, b); }
  }

  /** A full turn passes every queue once. */
  lemma FullTurn(w: seq<int>, i: nat)
    requires i < |w|
    ensures Ring(w, i, |w|) == Total(w)
  {
    var n := |w|;
    RingSplit(w, i, n - 1 - i, i + 1);
    RingIsTail(w, i, n - 1 - i);
    assert w[n..] == [];
    assert Ring(w, n - 1, i + 1) == w[0] + Ring(w, 0, i);
    RingIsTail(w, 0, i);
    TotalSplit(w, i + 1);
    TotalSplit(w[1..], i);
    assert w[1..][i..] == w[i + 1..];
    assert w[0..] == w;
  }

  /** How many requests other queues can still get before q does. */
  function Ahead(w: seq<int>, s: Scheduler, q: nat): int
    requires |w| == |s.sizes| && 0 <= s.index < |w| && q < |w|
  {
    if s.index == q && s.pending > 0 then 0 else s.pending + Ring(w, s.index, Dist(|w|, s.index, q) - 1)
  }

  lemma AheadBound(w: seq<int>, s: Scheduler, q: nat)
    requires Weights(w) && Inv(w, s) && q < |w|
    ensures 0 <= Ahead(w, s, q) <= s.pending + Total(w) - w[q]
  {
    var d := Dist(|w|, s.index, q);
    RingGrows(w, s.index, d, |w|);
    RingGrows(w, s.index, 0, d - 1);
    RingEnds(w, s.index, q);
    FullTurn(w, s.index);
  }

  // Moving from i forward to j, short of q, uses up the weights passed.
  lemma {:induction false} RingPassed(w: seq<int>, i: nat, j: nat, q: nat)
    requires Weights(w) && i < |w| && j < |w| && q < |w| && Dist(|w|, i, j) < Dist(|w|, i, q)
    ensures Ring(w, i, Dist(|w|, i, q) - 1) >= w[j] + Ring(w, j, Dist(|w|, j, q) - 1)
    decreases Dist(|w|, i, j)
  {
    var k := Next(|w|, i);
    if k != j { RingPassed(w, k, j, q); }
  }

  lemma ServeApproaches(w: seq<int>, s: Scheduler, q: nat)
    requires Weights(w) && |w| == |s.sizes| && 0 <= s.index < |w| && s.pending >= 0 && q < |w| && s.sizes[q] != 0
    ensures var s1 := Serve(w, s);
      !s1.delayed && 0 <= s1.index < |w| && (s1.index != q ==> Ahead(w, s1, q) < Ahead(w, s, q))
  {
    var j := NextIndex(s.sizes, s.index, s.pending);
    NextIndexIsRight(s.sizes, s.index, s.pending);
    if j != q && j != s.index { RingPassed(w, s.index, j, q); }
  }

  ghost predicate NeverEmptied(events: seq<SchedulerEvent>, q: nat)
  {
    forall i :: 0 <= i < |events| ==> events[i].SizeArrives? && events[i].queue == q ==> events[i].size != 0
  }

  /** While queue q has packets, other queues get at most the weight left of the current one and the
      weights of the others before q is served. */
  lemma BoundedWait(w: seq<int>, s: Scheduler, events: seq<SchedulerEvent>, q: nat)
    requires Weights(w) && Inv(w, s) && q < |w| && s.sizes[q] != 0 && NeverEmptied(events, q)
    requires Run(w, s, events).Ran? && q !in Run(w, s, events).chosen
    ensures |Run(w, s, events).chosen| <= s.pending + Total(w) - w[q]
  {
    AheadBound(w, s, q);
    ChosenWithinAhead(w, s, events, q);
  }

  lemma {:induction false} ChosenWithinAhead(w: seq<int>, s: Scheduler, events: seq<SchedulerEvent>, q: nat)
    requires Weights(w) && Inv(w, s) && q < |w| && s.sizes[q] != 0 && NeverEmptied(events, q)
    requires Run(w, s, events).Ran? && q !in Run(w, s, events).chosen
    ensures |Run(w, s, events).chosen| <= Ahead(w, s, q)
    decreases events
  {
    AheadBound(w, s, q);
    if events != [] {
      HandleKeepsInv(w, s, events[0]);
      var step := Handle(w, s, events[0]);
      assert NeverEmptied(events[1..], q);
      ChosenWithinAhead(w, step.next, events[1..], q);
      OneStepAhead(w, s, events[0], q);
    }
  }

  lemma OneStepAhead(w: seq<int>, s: Scheduler, ev: SchedulerEvent, q: nat)
    requires Weights(w) && Inv(w, s) && InTime(s, ev) && q < |w| && s.sizes[q] != 0
    requires Handle(w, s, ev).Done? && q !in Handle(w, s, ev).chosen
    requires ev.SizeArrives? && ev.queue == q ==> ev.size != 0
    ensures var step := Handle(w, s, ev);
      0 <= step.next.index < |w| == |step.next.sizes| && |step.chosen| + Ahead(w, step.next, q) <= Ahead(w, s, q)
  {
    hide Serve, Ring;
    HandleKeepsInv(w, s, ev);
    if ev.DequeueRequest? { ServeApproaches(w, s, q); }
  }

  // ---------- Everybody gets its share ----------

  /** The next k choices when no queue is ever empty. */
  function Schedule(w: seq<int>, i: nat, pending: nat, k: nat): (r: seq<int>)
    requires i < |w| && forall j :: 0 <= j < |w| ==> w[j] > 0
    ensures |r| == k
    decreases k
  {
    if k == 0 then []
    else if pending > 0 then [i] + Schedule(w, i, pending - 1, k - 1)
    else var j := Next(|w|, i); [j] + Schedule(w, j, w[j] - 1, k - 1)
  }

  function Count(s: seq<int>, q: int): nat
  {
    if s == [] then 0 else (if s[0] == q then 1 else 0) + Count(s[1..], q)
  }

  ghost predicate AllBusy(s: Scheduler, events: seq<SchedulerEvent>)
  {
    && (forall k :: 0 <= k < |s.sizes| ==> s.sizes[k] != 0)
    && (forall i :: 0 <= i < |events| ==> events[i].SizeArrives? ==> events[i].size != 0)
  }

  lemma ServeWhenBusy(w: seq<int>, s: Scheduler)
    requires Weights(w) && |w| == |s.sizes| && 0 <= s.index < |w| && AllBusy(s, [])
    ensures var j := NextIndex(s.sizes, s.index, s.pending);
      !AllEmpty(s.sizes) && j == if s.pending == 0 then Next(|w|, s.index) else s.index
  {
    assert s.sizes[0] != 0;
    NextIndexIsRight(s.sizes, s.index, s.pending);
    if s.pending == 0 {
      var j := Next(|w|, s.index);
      assert s.sizes[j] != 0 && Dist(|w|, s.index, j) == 1;
    }
  }

  lemma StaysBusy(w: seq<int>, s: Scheduler, ev: SchedulerEvent, rest: seq<SchedulerEvent>)
    requires Weights(w) && Inv(w, s) && AllBusy(s, [ev] + rest) && Handle(w, s, ev).Done?
    ensures AllBusy(Handle(w, s, ev).next, rest)
  {
    assert ([ev] + rest)[0] == ev;
    assert forall i :: 0 <= i < |rest| ==> rest[i] == ([ev] + rest)[i + 1];
    hide NextIndex, After;
  }

  // What one event does to the choice of the next queue while nobody is empty.
  lemma BusyStep(w: seq<int>, s: Scheduler, ev: SchedulerEvent)
    requires Weights(w) && Inv(w, s) && InTime(s, ev) && AllBusy(s, []) && Handle(w, s, ev).Done?
    ensures 0 <= s.index < |w| && s.pending >= 0
    ensures var step := Handle(w, s, ev);
      if ev.DequeueRequest? then
        var j := if s.pending == 0 then Next(|w|, s.index) else s.index;
        && step.chosen == [j] && step.next.index == j
        && step.next.pending == (if s.pending == 0 then w[j] else s.pending) - 1
      else step.chosen == [] && step.next.index == s.index && step.next.pending == s.pending
  {
    hide NextIndex, RightChoice, After;
    assert s.sizes[0] != 0;
    if ev.DequeueRequest? { ServeWhenBusy(w, s); }
  }

  // One event while nobody is empty: the choices are the schedule's.
  lemma BusyChoice(w: seq<int>, s: Scheduler, ev: SchedulerEvent, k: nat)
    requires Weights(w) && Inv(w, s) && InTime(s, ev) && AllBusy(s, []) && Handle(w, s, ev).Done?
    ensures var step := Handle(w, s, ev);
      && Inv(w, step.next)
      && step.chosen + Schedule(w, step.next.index, step.next.pending, k) ==
        Schedule(w, s.index, s.pending, |step.chosen| + k)
  {
    HandleKeepsInv(w, s, ev);
    BusyStep(w, s, ev);
    hide Handle, Inv;
    var rest := Schedule(w, Handle(w, s, ev).next.index, Handle(w, s, ev).next.pending, k);
    assert [] + rest == rest;
  }

  lemma {:induction false} RunFollowsSchedule(w: seq<int>, s: Scheduler, events: seq<SchedulerEvent>)
    requires Weights(w) && Inv(w, s) && AllBusy(s, events) && Run(w, s, events).Ran?
    ensures var chosen := Run(w, s, events).chosen; chosen == Schedule(w, s.index, s.pending, |chosen|)
    decreases events
  {
    if events != [] {
      assert events == [events[0]] + events[1..];
      var step := Handle(w, s, events[0]);
      StaysBusy(w, s, events[0], events[1..]);
      HandleKeepsInv(w, s, events[0]);
      hide Handle, Inv, InTime, Schedule;
      RunFollowsSchedule(w, step.next, events[1..]);
      BusyChoice(w, s, events[0], |Run(w, step.next, events[1..]).chosen|);
    }
  }

  // Packets that come to some queues before anything is requested.
  ghost predicate Fills(n: nat, events: seq<SchedulerEvent>)
  {
    forall i :: 0 <= i < |events| ==> events[i].SizeArrives? && 0 <= events[i].queue < n
  }

  lemma {:induction false} FillsKeep(w: seq<int>, s: Scheduler, fills: seq<SchedulerEvent>)
    requires Weights(w) && Inv(w, s) && !s.delayed && s.sigma == Forever && Fills(|w|, fills)
    ensures var r := Run(w, s, fills);
      && r.Ran? && r.chosen == [] && r.emitted == [] && Inv(w, r.final)
      && r.final.index == s.index && r.final.pending == s.pending && !r.final.delayed && r.final.sigma == Forever
    decreases fills
  {
    if fills != [] {
      HandleKeepsInv(w, s, fills[0]);
      FillsKeep(w, Handle(w, s, fills[0]).next, fills[1..]);
    }
  }

  /** A new scheduler begins with queue 0 and its full weight: once every queue has packets, its choices are
      the schedule from there. */
  lemma FirstTurn(w: seq<int>, fills: seq<SchedulerEvent>, events: seq<SchedulerEvent>)
    requires Weights(w) && Fills(|w|, fills)
    ensures Inv(w, Start(w)) && Run(w, Start(w), fills).Ran? && Inv(w, Run(w, Start(w), fills).final)
    ensures var s := Run(w, Start(w), fills).final;
      AllBusy(s, events) && Run(w, s, events).Ran? ==>
        Run(w, s, events).chosen == Schedule(w, 0, w[0], |Run(w, s, events).chosen|)
  {
    FillsKeep(w, Start(w), fills);
    var s := Run(w, Start(w), fills).final;
    hide Run, Inv, Schedule;
    if AllBusy(s, events) && Run(w, s, events).Ran? { RunFollowsSchedule(w, s, events); }
  }

  lemma {:induction false} TurnCount(w: seq<int>, i: nat, pending: nat, k: nat, q: int)
    requires Weights(w) && i < |w|
    ensures Count(Schedule(w, i, pending, pending + k), q) ==
      (if i == q then pending else 0) + Count(Schedule(w, i, 0, k), q)
    decreases pending
  {
    if pending > 0 {
      TurnCount(w, i, pending - 1, k, q);
      assert ([i] + Schedule(w, i, pending - 1, pending - 1 + k))[1..] == Schedule(w, i, pending - 1, pending - 1 + k);
    }
  }

  lemma NextTurnCount(w: seq<int>, i: nat, k: nat, q: int)
    requires Weights(w) && i < |w|
    ensures var j := Next(|w|, i);
      Count(Schedule(w, i, 0, w[j] + k), q) == (if j == q then w[j] else 0) + Count(Schedule(w, j, 0, k), q)
  {
    var j := Next(|w|, i);
    TurnCount(w, j, w[j] - 1, k, q);
    assert ([j] + Schedule(w, j, w[j] - 1, w[j] - 1 + k))[1..] == Schedule(w, j, w[j] - 1, w[j] - 1 + k);
  }

  function Advance(n: nat, i: nat, m: nat): (j: nat)
    requires i < n && m <= n
    ensures j < n
  {
    if i + m < n then i + m else i + m - n
  }

  // m turns from i give q its weight if they reach it.
  lemma {:induction false} TurnsCount(w: seq<int>, i: nat, m: nat, k: nat, q: nat)
    requires Weights(w) && i < |w| && q < |w| && m <= |w|
    ensures Ring(w, i, m) >= 0
    ensures Count(Schedule(w, i, 0, Ring(w, i, m) + k), q) ==
            (if m >= Dist(|w|, i, q) then w[q] else 0) + Count(Schedule(w, Advance(|w|, i, m), 0, k), q)
    decreases m
  {
    hide Schedule, Count;
    if m > 0 {
      var j := Next(|w|, i);
      TurnsCount(w, j, m - 1, k, q);
      NextTurnCount(w, i, Ring(w, j, m - 1) + k, q);
      assert Ring(w, i, m) + k == w[j] + (Ring(w, j, m - 1) + k);
    }
  }

  lemma {:induction false} RoundsCount(w: seq<int>, i: nat, rounds: nat, q: nat)
    requires Weights(w) && i < |w| && q < |w|
    ensures Total(w) >= 0 && rounds * Total(w) >= 0
    ensures Count(Schedule(w, i, 0, rounds * Total(w)), q) == rounds * w[q]
    decreases rounds
  {
    hide Schedule, Count, Ring, Total;
    RingGrows(w, i, 0, |w|);
    FullTurn(w, i);
    if rounds > 0 {
      RoundsCount(w, i, rounds - 1, q);
      Multiply(rounds, Total(w));
      Multiply(rounds, w[q]);
      TurnsCount(w, i, |w|, (rounds - 1) * Total(w), q);
    } else {
      NoneCounted(w, i, q);
    }
  }

  lemma Multiply(a: int, b: int)
    ensures a * b == b + (a - 1) * b
  {
  }

  lemma NoneCounted(w: seq<int>, i: nat, q: int)
    requires Weights(w) && i < |w|
    ensures Count(Schedule(w, i, 0, 0), q) == 0
  {
  }

  /** While no queue is empty, after the weight left of the current queue every further round of as many
      choices as the weights add up to picks each queue exactly as often as its weight. */
  lemma FairRounds(w: seq<int>, s: Scheduler, events: seq<SchedulerEvent>, rounds: nat, q: nat)
    requires Weights(w) && Inv(w, s) && AllBusy(s, events) && Run(w, s, events).Ran? && q < |w|
    requires |Run(w, s, events).chosen| == s.pending + rounds * Total(w)
    ensures Count(Run(w, s, events).chosen, q) == (if s.index == q then s.pending else 0) + rounds * w[q]
  {
    RunFollowsSchedule(w, s, events);
    RoundsCount(w, s.index, rounds, q);
    TurnCount(w, s.index, s.pending, rounds * Total(w), q);
    hide *;
  }
}
