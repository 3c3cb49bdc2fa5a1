/** A byte-bounded first-in first-out queue feeding a link that carries one packet at a time and asks
    for the next one.  The specification functions act on values; the classes run the models' methods
    and are proved against them. */
module Queueing {
  import opened Collections

  datatype Packet = Packet(id: int, bits: nat)

  function Bytes(p: Packet): nat { if p.bits % 8 == 0 then p.bits / 8 else p.bits / 8 + 1 }

  /** The fewest whole bytes that hold the bits. */
  lemma BytesHoldBits(p: Packet, n: nat)
    ensures n >= Bytes(p) <==> 8 * n >= p.bits
  {
  }

  function TotalBytes(s: seq<Packet>): nat { if s == [] then 0 else Bytes(s[0]) + TotalBytes(s[1..]) }

  lemma {:induction false} TotalBytesAppend(s: seq<Packet>, p: Packet)
    ensures TotalBytes(s + [p]) == TotalBytes(s) + Bytes(p)
  {
    if s != [] {
      assert (s + [p])[1..] == s[1..] + [p];
      TotalBytesAppend(s[1..], p);
    }
  }

  // ---------- The queue ----------

  datatype ServerState = ServerWaiting | ServerBusy

  datatype Queue = Queue(queued: seq<Packet>, bytes: int, server: ServerState, sigma: Wait, discarded: int)

  datatype QueueInput = Job(packet: Packet) | Request | OtherPort

  /** None where the original throws: a second request before the first was answered. */
  function QueueExternal(q: Queue, capacity: nat, x: QueueInput, e: real): Option<Queue>
  {
    if x.Request? && q.server == ServerWaiting then None
    else
      var q1 := match x
        case Job(p) =>
          if q.bytes + Bytes(p) >= capacity then q.(discarded := q.discarded + 1)
          else q.(queued := q.queued + [p], bytes := q.bytes + Bytes(p))
        case Request => q.(server := ServerWaiting)
        case OtherPort => q;
      Some(q1.(sigma := if q1.queued != [] && q1.server == ServerWaiting then For(0.0) else After(q.sigma, e)))
  }

  /** None where the original throws. */
  function QueueOutput(q: Queue): Option<Packet>
  {
    if q.server == ServerWaiting && q.queued != [] then Some(q.queued[0]) else None
  }

  function QueueInternal(q: Queue): Queue
    requires q.queued != []
  {
    q.(queued := q.queued[1..], bytes := q.bytes - Bytes(q.queued[0]), server := ServerBusy, sigma := Forever)
  }

  const MAX_LONG: int := 9223372036854775807

  function AsUnsigned(n: int): (u: nat)
    requires -MAX_LONG - 1 <= n <= MAX_LONG
    ensures u < 2 * (MAX_LONG + 1) && (u - n) % (2 * (MAX_LONG + 1)) == 0
  {
    if n >= 0 then n else n + 2 * (MAX_LONG + 1)
  }

  class NetworkQueue {
    const maxCapacity: nat
    var queuedPackets: seq<Packet>
    var queueSizeBytes: int
    var serverState: ServerState
    var sigma: Wait
    var discardedPackets: int

    function View(): Queue
      reads this
    {
      Queue(queuedPackets, queueSizeBytes, serverState, sigma, discardedPackets)
    }

    /** A capacity of -1 is no limit; what is compared later is the unsigned value. */
    constructor (capacity: int)
      requires -MAX_LONG - 1 <= capacity <= MAX_LONG
      ensures maxCapacity == (if capacity == -1 then MAX_LONG else AsUnsigned(capacity))
      ensures View() == Queue([], 0, ServerBusy, Forever, 0)
    {
      maxCapacity := if capacity == -1 then MAX_LONG else AsUnsigned(capacity);
      queuedPackets, queueSizeBytes, serverState, sigma, discardedPackets := [], 0, ServerBusy, Forever, 0;
    }

    method QueuePacket(p: Packet)
      modifies this
      ensures View() == old(View()).(queued := old(queuedPackets) + [p], bytes := old(queueSizeBytes) + Bytes(p))
    {
      queuedPackets := queuedPackets + [p];
      queueSizeBytes := queueSizeBytes + Bytes(p);
    }

    method UnqueuePacket()
      requires queuedPackets != []
      modifies this
      ensures View() == old(View()).(queued := old(queuedPackets)[1..],
        bytes := old(queueSizeBytes) - Bytes(old(queuedPackets)[0]))
    {
      queueSizeBytes := queueSizeBytes - Bytes(queuedPackets[0]);
      queuedPackets := queuedPackets[1..];
    }

    method Dext(x: QueueInput, e: real) returns (thrown: bool)
      modifies this
      ensures thrown <==> QueueExternal(old(View()), maxCapacity, x, e).None?
      ensures View() == if thrown then old(View()) else QueueExternal(old(View()), maxCapacity, x, e).value
    {
      if x.Job? {
        if queueSizeBytes + Bytes(x.packet) >= maxCapacity {
          discardedPackets := discardedPackets + 1;
        } else {
          QueuePacket(x.packet);
        }
      } else if x.Request? {
        if serverState == ServerWaiting {
          return true;
        }
        serverState := ServerWaiting;
      }
      if queuedPackets != [] && serverState == ServerWaiting {
        sigma := For(0.0);
      } else {
        sigma := After(sigma, e);
      }
      thrown := false;
    }

    method Lambda() returns (out: Option<Packet>)
      ensures out == QueueOutput(View())
    {
      if serverState == ServerWaiting && |queuedPackets| > 0 {
        out := Some(queuedPackets[0]);
      } else {
        out := None;
      }
    }

    method Dint()
      requires queuedPackets != []
      modifies this
      ensures View() == QueueInternal(old(View()))
    {
      UnqueuePacket();
      sigma := Forever;
      serverState := ServerBusy;
    }
  }

  // ---------- The link ----------

  datatype LinkState = FirstRequest | WaitingNextJob | Processing

  datatype Line = Line(state: LinkState, incoming: Option<Packet>, sigma: Wait)

  datatype Medium = Medium(perBit: real, delay: real)

  function ServiceTime(m: Medium, p: Packet): real { m.perBit * p.bits as real + m.delay }

  /** The time on the line for a link of c bits per second: the packet's bits over c, and the delay. */
  lemma ServiceIs(c: real, d: real, p: Packet)
    requires c > 0.0
    ensures ServiceTime(Medium(1.0 / c, d), p) == p.bits as real / c + d
  {
    var perBit, bits := 1.0 / c, p.bits as real;
    assert perBit * c == 1.0;
    calc {
      perBit * bits;
      { assert (bits / c) * c == bits; }
      perBit * ((bits / c) * c);
      (perBit * c) * (bits / c);
      bits / c;
    }
  }

  function LinkExternal(l: Line, m: Medium, p: Packet): Option<Line>
  {
    if l.state != WaitingNextJob then None else Some(Line(Processing, Some(p), For(ServiceTime(m, p))))
  }

  function LinkInternal(l: Line): Option<Line>
  {
    if l.state == WaitingNextJob then None else Some(l.(state := WaitingNextJob, sigma := Forever))
  }

  // Some(None) is the first request, which carries no packet of the network.
  function LinkOutput(l: Line): Option<Option<Packet>>
  {
    match l.state
    case Processing => Some(l.incoming)
    case FirstRequest => Some(None)
    case WaitingNextJob => None
  }

  class Link {
    const medium: Medium
    ghost const bitsPerSecond: real
    var state: LinkState
    var incomingPacket: Option<Packet>
    var sigma: Wait

    function View(): Line
      reads this
    {
      Line(state, incomingPacket, sigma)
    }

    constructor (capacity: real, delay: real)
      requires capacity > 0.0
      ensures bitsPerSecond == capacity && medium == Medium(1.0 / capacity, delay)
      ensures View() == Line(FirstRequest, None, For(0.0))
    {
      bitsPerSecond := capacity;
      medium := Medium(1.0 / capacity, delay);
      state, incomingPacket, sigma := FirstRequest, None, For(0.0);
    }

    method Dext(p: Packet) returns (thrown: bool)
      modifies this
      ensures thrown <==> LinkExternal(old(View()), medium, p).None?
      ensures View() == if thrown then old(View()) else LinkExternal(old(View()), medium, p).value
      ensures !thrown && bitsPerSecond > 0.0 && medium.perBit == 1.0 / bitsPerSecond ==>
        sigma == For(p.bits as real / bitsPerSecond + medium.delay)
    {
      if state != WaitingNextJob {
        return true;
      }
      incomingPacket := Some(p);
      sigma := For(ServiceTime(medium, p));
      state := Processing;
      thrown := false;
      if bitsPerSecond > 0.0 { ServiceIs(bitsPerSecond, medium.delay, p); }
    }

    method Dint() returns (thrown: bool)
      modifies this
      ensures thrown <==> LinkInternal(old(View())).None?
      ensures View() == if thrown then old(View()) else LinkInternal(old(View())).value
    {
      match state
      case Processing | FirstRequest =>
        state := WaitingNextJob;
        sigma := Forever;
        thrown := false;
      case WaitingNextJob =>
        thrown := true;
    }

    method Lambda() returns (out: Option<Option<Packet>>)
      ensures out == LinkOutput(View())
    {
      match state
      case Processing => out := Some(incomingPacket);
      case FirstRequest => out := Some(None);
      case WaitingNextJob => out := None;
    }
  }

  // ---------- The two together ----------

  datatype Timed = Timed(packet: Packet, at: real)

  // Both models with the times of their last events, the clock, and the history seen from outside.
  datatype Station = Station(
    queue: Queue, queueLast: real, line: Line, lineLast: real, now: real,
    accepted: seq<Timed>, sent: seq<Timed>)

  datatype Setting = Setting(start: real, capacity: nat, medium: Medium)

  datatype StationEvent = Arrival(packet: Packet, at: real) | QueueFires | LineFires

  datatype Outcome = NotPossible | Thrown | Done(station: Station)

  ghost predicate Sensible(g: Setting) { g.medium.perBit > 0.0 && g.medium.delay >= 0.0 }

  function Init(g: Setting): Station
  {
    Station(Queue([], 0, ServerBusy, Forever, 0), g.start, Line(FirstRequest, None, For(0.0)), g.start, g.start, [], [])
  }

  predicate NotAfter(t: real, last: real, w: Wait) { w.For? ==> t <= last + w.left }

  // A model may act at the time its wait is over, if no other model is overdue by then.
  predicate Possible(s: Station, ev: StationEvent)
  {
    match ev
    case Arrival(_, t) => s.now <= t && NotAfter(t, s.queueLast, s.queue.sigma) && NotAfter(t, s.lineLast, s.line.sigma)
    case QueueFires => s.queue.sigma.For? && NotAfter(s.queueLast + s.queue.sigma.left, s.lineLast, s.line.sigma)
    case LineFires => s.line.sigma.For? && NotAfter(s.lineLast + s.line.sigma.left, s.queueLast, s.queue.sigma)
  }

  /** Output and external transitions come before the internal transition of the model that fires. */
  function Happen(g: Setting, s: Station, ev: StationEvent): Outcome
  {
    if !Possible(s, ev) then NotPossible
    else
      match ev
      case Arrival(p, t) =>
        var q := QueueExternal(s.queue, g.capacity, Job(p), t - s.queueLast);
        if q.None? then Thrown
        else
          Done(s.(queue := q.value, queueLast := t, now := t,
                  accepted := if |q.value.queued| > |s.queue.queued| then s.accepted + [Timed(p, t)] else s.accepted))
      case QueueFires =>
        var t := s.queueLast + s.queue.sigma.left;
        var out := QueueOutput(s.queue);
        if out.None? then Thrown
        else
          var l := LinkExternal(s.line, g.medium, out.value);
          if l.None? then Thrown
          else Done(s.(line := l.value, lineLast := t, queue := QueueInternal(s.queue), queueLast := t, now := t))
      case LineFires =>
        var t := s.lineLast + s.line.sigma.left;
        var out := LinkOutput(s.line);
        if out.None? then Thrown
        else
          var q := QueueExternal(s.queue, g.capacity, Request, t - s.queueLast);
          var l := LinkInternal(s.line);
          if q.None? || l.None? then Thrown
          else
            Done(s.(queue := q.value, queueLast := t, line := l.value, lineLast := t, now := t,
                    sent := if out.value.Some? then s.sent + [Timed(out.value.value, t)] else s.sent))
  }

  function Replay(g: Setting, events: seq<StationEvent>): Outcome
  {
    if events == [] then Done(Init(g))
    else
      var n := |events| - 1;
      match Replay(g, events[..n])
      case Done(s) => Happen(g, s, events[n])
      case other => other
  }

  // ---------- The Lindley recursion ----------

  function Max(a: real, b: real): real { if a < b then b else a }

  /** When the k-th accepted packet leaves the link. */
  function Leaves(g: Setting, accepted: seq<Timed>, k: nat): real
    requires k < |accepted|
    decreases k, 2
  {
    Begins(g, accepted, k) + ServiceTime(g.medium, accepted[k].packet)
  }

  /** When the link starts on it: once it is there and the link is free. */
  function Begins(g: Setting, accepted: seq<Timed>, k: nat): real
    requires k < |accepted|
    decreases k, 1
  {
    Max(accepted[k].at, FreeAt(g, accepted, k))
  }

  function FreeAt(g: Setting, accepted: seq<Timed>, k: nat): real
    requires k <= |accepted|
    decreases k, 0
  {
    if k == 0 then g.start else Leaves(g, accepted, k - 1)
  }

  lemma {:induction false} FreeAtAppend(g: Setting, accepted: seq<Timed>, a: Timed, k: nat)
    requires k <= |accepted|
    ensures FreeAt(g, accepted + [a], k) == FreeAt(g, accepted, k)
  {
    hide ServiceTime;
    if k > 0 {
      FreeAtAppend(g, accepted, a, k - 1);
      assert Begins(g, accepted + [a], k - 1) == Begins(g, accepted, k - 1);
      assert Leaves(g, accepted + [a], k - 1) == Leaves(g, accepted, k - 1);
    }
  }

  // ---------- The invariant ----------

  function Packets(s: seq<Timed>): (r: seq<Packet>)
    ensures |r| == |s|
  {
    seq(|s|, i requires 0 <= i < |s| => s[i].packet)
  }

  // Accepted packets are sent, on the line, or queued, in that order.
  ghost predicate InOrder(g: Setting, s: Station)
  {
    var k, busy := |s.sent|, if s.line.state == Processing then 1 else 0;
    && k + busy + |s.queue.queued| == |s.accepted|
    && s.queue.queued == Packets(s.accepted)[k + busy..]
    && (busy == 1 ==> s.line.incoming == Some(s.accepted[k].packet))
    && (forall i :: 0 <= i < k ==> s.sent[i] == Timed(s.accepted[i].packet, Leaves(g, s.accepted, i)))
    && (forall i, j :: 0 <= i < j < |s.accepted| ==> s.accepted[i].at <= s.accepted[j].at)
    && (forall i :: 0 <= i < |s.accepted| ==> g.start <= s.accepted[i].at <= s.now)
  }

  ghost predicate WithinBounds(g: Setting, q: Queue)
  {
    q.bytes == TotalBytes(q.queued) && (q.queued != [] ==> q.bytes < g.capacity)
  }

  ghost predicate OnTime(g: Setting, s: Station)
    requires InOrder(g, s)
  {
    var k := |s.sent|;
    && g.start <= s.now && s.queueLast <= s.now
    && FreeAt(g, s.accepted, k) <= (if s.line.state == Processing then FreeAt(g, s.accepted, k + 1) else s.now)
    && match s.line.state
       case FirstRequest =>
         && s.line.sigma == For(0.0) && s.lineLast == g.start == s.now && k == 0
         && s.queue.server == ServerBusy && s.queue.sigma == Forever
       case Processing =>
         && s.line.sigma.For? && s.lineLast + s.line.sigma.left == Leaves(g, s.accepted, k)
         && Begins(g, s.accepted, k) <= s.now <= Leaves(g, s.accepted, k)
         && s.queue.server == ServerBusy && s.queue.sigma == Forever
       case WaitingNextJob =>
         && s.line.sigma == Forever && s.queue.server == ServerWaiting
         && (if s.queue.queued == [] then s.queue.sigma == Forever
             else s.queue.sigma == For(0.0) && s.queueLast == s.now == Begins(g, s.accepted, k))
  }

  ghost predicate Inv(g: Setting, s: Station)
  {
    InOrder(g, s) && WithinBounds(g, s.queue) && OnTime(g, s)
  }

  lemma ServiceNonNegative(m: Medium, p: Packet)
    requires m.perBit > 0.0 && m.delay >= 0.0
    ensures ServiceTime(m, p) >= 0.0
  {
    assert m.perBit * p.bits as real >= 0.0;
  }

  // The past does not depend on later arrivals.
  lemma PastStays(g: Setting, accepted: seq<Timed>, a: Timed, k: nat)
    requires k <= |accepted|
    ensures FreeAt(g, accepted + [a], k) == FreeAt(g, accepted, k)
    ensures k < |accepted| ==>
      Begins(g, accepted + [a], k) == Begins(g, accepted, k) && Leaves(g, accepted + [a], k) == Leaves(g, accepted, k)
    ensures k == |accepted| ==> Begins(g, accepted + [a], k) == Max(a.at, FreeAt(g, accepted, k))
  {
    hide ServiceTime;
    FreeAtAppend(g, accepted, a, k);
    if k < |accepted| { FreeAtAppend(g, accepted, a, k + 1); }
  }

  lemma AcceptanceKeepsOrder(g: Setting, s: Station, p: Packet, t: real, q: Queue)
    requires InOrder(g, s) && s.now <= t && g.start <= t && q.queued == s.queue.queued + [p]
    ensures InOrder(g, s.(queue := q, queueLast := t, now := t, accepted := s.accepted + [Timed(p, t)]))
  {
    hide Leaves;
    var a := s.accepted + [Timed(p, t)];
    var s' := s.(queue := q, queueLast := t, now := t, accepted := a);
    assert Packets(a) == Packets(s.accepted) + [p];
    forall k | 0 <= k < |s.accepted| ensures Leaves(g, a, k) == Leaves(g, s.accepted, k) {
      PastStays(g, s.accepted, Timed(p, t), k);
    }
  }

  lemma AcceptanceKeepsTime(g: Setting, s: Station, p: Packet, t: real, s': Station)
    requires Inv(g, s) && Possible(s, Arrival(p, t)) && Happen(g, s, Arrival(p, t)) == Done(s')
    requires InOrder(g, s') && s'.accepted == s.accepted + [Timed(p, t)]
    ensures OnTime(g, s')
  {
    hide Leaves, Begins, FreeAt, ServiceTime, Bytes, TotalBytes;
    var k := |s.sent|;
    PastStays(g, s.accepted, Timed(p, t), k);
    if k < |s.accepted| { PastStays(g, s.accepted, Timed(p, t), k + 1); }
  }

  lemma ArrivalKeepsInv(g: Setting, s: Station, p: Packet, t: real)
    requires Sensible(g) && Inv(g, s) && Possible(s, Arrival(p, t))
    ensures Happen(g, s, Arrival(p, t)).Done? && Inv(g, Happen(g, s, Arrival(p, t)).station)
  {
    hide Leaves, Begins, FreeAt, ServiceTime, Bytes, TotalBytes;
    var s' := Happen(g, s, Arrival(p, t)).station;
    if s'.accepted != s.accepted {
      TotalBytesAppend(s.queue.queued, p);
      AcceptanceKeepsOrder(g, s, p, t, s'.queue);
      AcceptanceKeepsTime(g, s, p, t, s');
      hide InOrder, OnTime;
    }
  }

  lemma QueueFiresKeepsInv(g: Setting, s: Station)
    requires Sensible(g) && Inv(g, s) && Possible(s, QueueFires)
    ensures Happen(g, s, QueueFires).Done? && Inv(g, Happen(g, s, QueueFires).station)
  {
    var k := |s.sent|;
    assert s.queue.queued[0] == s.accepted[k].packet;
    ServiceNonNegative(g.medium, s.accepted[k].packet);
  }

  // The packets that have reached the link.
  function Started(s: Station): nat { |s.sent| + if s.line.state == Processing then 1 else 0 }

  lemma LineFiresKeepsOrder(g: Setting, s: Station)
    requires Inv(g, s) && Possible(s, LineFires)
    ensures Happen(g, s, LineFires).Done? && InOrder(g, Happen(g, s, LineFires).station)
  {
    hide ServiceTime, TotalBytes, Begins, Leaves, FreeAt;
  }

  lemma LineFiresKeepsInv(g: Setting, s: Station)
    requires Sensible(g) && Inv(g, s) && Possible(s, LineFires)
    ensures Happen(g, s, LineFires).Done? && Inv(g, Happen(g, s, LineFires).station)
  {
    LineFiresKeepsOrder(g, s);
    var next := Started(s);
    assert FreeAt(g, s.accepted, next) == s.lineLast + s.line.sigma.left;
    assert next < |s.accepted| ==> Begins(g, s.accepted, next) == Max(s.accepted[next].at, FreeAt(g, s.accepted, next));
    hide ServiceTime, TotalBytes, Begins, Leaves, FreeAt, Bytes, InOrder;
  }

  lemma {:induction false} ReplayInv(g: Setting, events: seq<StationEvent>)
    requires Sensible(g)
    ensures Replay(g, events) != Thrown
    ensures Replay(g, events).Done? ==> Inv(g, Replay(g, events).station)
  {
    if events != [] {
      var n := |events| - 1;
      ReplayInv(g, events[..n]);
      var before := Replay(g, events[..n]);
      if before.Done? && Possible(before.station, events[n]) {
        match events[n]
        case Arrival(p, t) => ArrivalKeepsInv(g, before.station, p, t);
        case QueueFires => QueueFiresKeepsInv(g, before.station);
        case LineFires => LineFiresKeepsInv(g, before.station);
      }
    }
  }

  // ---------- The main results ----------

  function OnLine(s: Station): seq<Packet>
  {
    if s.line.state == Processing && s.line.incoming.Some? then [s.line.incoming.value] else []
  }

  // What a link of c bits per second and delay d makes of a packet that comes at `arrival` while the link
  // is taken until `free`.
  function Departure(c: real, d: real, arrival: real, free: real, p: Packet): real
    requires c > 0.0
  {
    (if arrival < free then free else arrival) + p.bits as real / c + d
  }

  ghost predicate LeftOnTime(start: real, c: real, d: real, s: Station, k: nat)
    requires c > 0.0 && k < |s.sent| <= |s.accepted|
  {
    && s.sent[k].packet == s.accepted[k].packet
    && s.sent[k].at <= s.now
    && s.sent[k].at ==
      Departure(c, d, s.accepted[k].at, if k == 0 then start else s.sent[k - 1].at, s.sent[k].packet)
  }

  // The departures so far follow the recursion, and no accepted packet is lost or overtaken.
  ghost predicate Lindley(start: real, c: real, d: real, s: Station)
    requires c > 0.0
  {
    && |s.sent| <= |s.accepted|
    && (forall k :: 0 <= k < |s.sent| ==> LeftOnTime(start, c, d, s, k))
    && Packets(s.accepted) == Packets(s.sent) + OnLine(s) + s.queue.queued
  }

  lemma NothingLost(g: Setting, s: Station)
    requires Inv(g, s)
    ensures |s.sent| <= |s.accepted| && Packets(s.accepted) == Packets(s.sent) + OnLine(s) + s.queue.queued
  {
    hide Leaves, ServiceTime, TotalBytes, OnTime;
  }

  lemma InvIsLindley(g: Setting, c: real, d: real, s: Station)
    requires c > 0.0 && g.medium == Medium(1.0 / c, d) && Sensible(g) && Inv(g, s)
    ensures Lindley(g.start, c, d, s)
  {
    NothingLost(g, s);
    forall k | 0 <= k < |s.sent| ensures LeftOnTime(g.start, c, d, s, k) {
      SentByNow(g, s, k);
      LeavesUnfolds(g, s.accepted, k);
      ServiceIs(c, d, s.accepted[k].packet);
      hide Leaves, ServiceTime, TotalBytes, OnTime;
    }
  }

  lemma LeavesUnfolds(g: Setting, accepted: seq<Timed>, k: nat)
    requires k < |accepted|
    ensures Leaves(g, accepted, k) ==
            Max(accepted[k].at, if k == 0 then g.start else Leaves(g, accepted, k - 1)) +
              ServiceTime(g.medium, accepted[k].packet)
  {
    hide ServiceTime;
    assert FreeAt(g, accepted, k) == if k == 0 then g.start else Leaves(g, accepted, k - 1);
  }

  lemma SentByNow(g: Setting, s: Station, k: nat)
    requires Sensible(g) && Inv(g, s) && k < |s.sent|
    ensures Leaves(g, s.accepted, k) <= s.now
  {
    hide ServiceTime, TotalBytes;
    LeavesGrow(g, s.accepted, k, |s.sent| - 1);
    assert FreeAt(g, s.accepted, |s.sent|) == Leaves(g, s.accepted, |s.sent| - 1);
  }

  /** In every run no model throws, and the k-th packet to leave the link is the k-th accepted one, at
      the later of its arrival and the previous departure plus its length over the capacity plus the
      delay. */
  lemma LindleyRecursion(start: real, bytes: nat, c: real, d: real, events: seq<StationEvent>)
    requires c > 0.0 && d >= 0.0
    ensures var end := Replay(Setting(start, bytes, Medium(1.0 / c, d)), events);
      end != Thrown && (end.Done? ==> Lindley(start, c, d, end.station))
  {
    var g := Setting(start, bytes, Medium(1.0 / c, d));
    assert Sensible(g);
    hide Lindley, Inv;
    ReplayInv(g, events);
    if Replay(g, events).Done? { InvIsLindley(g, c, d, Replay(g, events).station); }
  }

  function Arrivals(events: seq<StationEvent>): nat
  {
    if events == [] then 0
    else Arrivals(events[..|events| - 1]) + if events[|events| - 1].Arrival? then 1 else 0
  }

  /** Every packet that came was accepted or counted as discarded. */
  lemma {:induction false} NoneForgotten(g: Setting, events: seq<StationEvent>)
    requires Replay(g, events).Done?
    ensures var s := Replay(g, events).station; |s.accepted| + s.queue.discarded == Arrivals(events)
  {
    if events != [] {
      var n := |events| - 1;
      NoneForgotten(g, events[..n]);
      hide ServiceTime, Bytes;
    }
  }

  lemma {:induction false} LeavesGrow(g: Setting, accepted: seq<Timed>, j: nat, k: nat)
    requires Sensible(g) && j <= k < |accepted|
    ensures Leaves(g, accepted, j) <= Leaves(g, accepted, k) &&
      Begins(g, accepted, j) <= Begins(g, accepted, k) <= Leaves(g, accepted, k)
    decreases k
  {
    ServiceNonNegative(g.medium, accepted[k].packet);
    hide ServiceTime;
    if j < k {
      LeavesGrow(g, accepted, j, k - 1);
      assert FreeAt(g, accepted, k) == Leaves(g, accepted, k - 1);
    }
  }

  /** A packet is accepted exactly when it fits, strictly, beside the accepted packets still to be
      started; those are queued until the recursion says that the link begins on them. */
  lemma AcceptedWhenItFits(g: Setting, s: Station, p: Packet, t: real)
    requires Sensible(g) && Inv(g, s) && Possible(s, Arrival(p, t))
    ensures Started(s) <= |s.accepted| && Happen(g, s, Arrival(p, t)).Done?
    ensures Happen(g, s, Arrival(p, t)).station.accepted ==
            if TotalBytes(Packets(s.accepted)[Started(s)..]) + Bytes(p) < g.capacity then s.accepted + [Timed(p, t)]
              else s.accepted
    ensures forall k :: 0 <= k < |s.accepted| ==>
      if k < Started(s) then Begins(g, s.accepted, k) <= s.now else s.now <= Begins(g, s.accepted, k)
  {
    hide ServiceTime, TotalBytes, Bytes, Begins, Leaves, FreeAt;
    ArrivalKeepsInv(g, s, p, t);
    forall k | 0 <= k < |s.accepted|
      ensures if k < Started(s) then Begins(g, s.accepted, k) <= s.now else s.now <= Begins(g, s.accepted, k)
    {
      BeginsAround(g, s, k);
    }
  }

  lemma BeginsAround(g: Setting, s: Station, k: nat)
    requires Sensible(g) && Inv(g, s) && k < |s.accepted|
    ensures if k < Started(s) then Begins(g, s.accepted, k) <= s.now else s.now <= Begins(g, s.accepted, k)
  {
    hide ServiceTime, TotalBytes, Bytes;
    if k < Started(s) {
      LeavesGrow(g, s.accepted, k, Started(s) - 1);
    } else {
      LeavesGrow(g, s.accepted, Started(s), k);
      assert s.accepted[0].at == g.start || s.line.state != FirstRequest;
    }
  }

  function Work(s: Station): nat { 2 * |s.queue.queued| + if s.line.state == WaitingNextJob then 0 else 1 }

  lemma NextInternal(g: Setting, s: Station) returns (ev: StationEvent)
    requires Sensible(g) && Inv(g, s) && Work(s) > 0
    ensures !ev.Arrival? && Happen(g, s, ev).Done?
    ensures var s' := Happen(g, s, ev).station; Inv(g, s') && Work(s') == Work(s) - 1 && s'.accepted == s.accepted
  {
    hide ServiceTime, TotalBytes, Bytes, Begins, Leaves, FreeAt;
    if s.line.state == WaitingNextJob {
      ev := QueueFires;
      QueueFiresKeepsInv(g, s);
    } else {
      ev := LineFires;
      LineFiresKeepsInv(g, s);
    }
  }

  lemma AllSent(g: Setting, events: seq<StationEvent>)
    requires Sensible(g) && Replay(g, events).Done? && Work(Replay(g, events).station) == 0
    ensures var s := Replay(g, events).station; Packets(s.sent) == Packets(s.accepted)
  {
    hide Replay, ServiceTime, Packets, Inv;
    ReplayInv(g, events);
    var s := Replay(g, events).station;
    NothingLost(g, s);
    assert Packets(s.sent) + [] + [] == Packets(s.sent);
  }

  lemma OneMoreEvent(g: Setting, events: seq<StationEvent>, ev: StationEvent)
    requires Replay(g, events).Done?
    ensures Replay(g, events + [ev]) == Happen(g, Replay(g, events).station, ev)
  {
    hide Happen;
    assert (events + [ev])[..|events|] == events;
  }

  /** The handshake never stalls: without further arrivals the two models alone send everything. */
  lemma {:induction false} Drains(g: Setting, events: seq<StationEvent>) returns (more: seq<StationEvent>)
    requires Sensible(g) && Replay(g, events).Done?
    ensures |more| == Work(Replay(g, events).station)
    ensures forall i :: 0 <= i < |more| ==> !more[i].Arrival?
    ensures Replay(g, events + more).Done?
    ensures var s := Replay(g, events + more).station;
      s.accepted == Replay(g, events).station.accepted && Packets(s.sent) == Packets(s.accepted)
    decreases Work(Replay(g, events).station)
  {
    hide Inv, Happen, ServiceTime, Packets, Lindley;
    var s := Replay(g, events).station;
    ReplayInv(g, events);
    if Work(s) == 0 {
      more := [];
      assert events + more == events;
      AllSent(g, events);
    } else {
      var ev := NextInternal(g, s);
      OneMoreEvent(g, events, ev);
      hide Replay;
      var rest := Drains(g, events + [ev]);
      more := [ev] + rest;
      assert events + more == events + [ev] + rest;
    }
  }
}
