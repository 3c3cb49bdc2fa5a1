/** Whole runs of one sender, in terms of what happens to it: the congestion window between timeouts and
    acknowledgements of the oldest packet, when it plans to send, and how often it sent each packet. */
module TcpWindow {
  import opened TcpSending

  // What a sender meets: an input, or its alarm.
  datatype Happening = Takes(x: Input) | Alarmed

  /** states[i + 1] is what the sender makes of the i-th happening in states[i]. */
  ghost predicate History(states: seq<Sender>, events: seq<Happening>)
  {
    && |states| == |events| + 1
    && forall i :: 0 <= i < |events| ==> Next(states[i], events[i], states[i + 1])
  }

  ghost predicate Next(s: Sender, e: Happening, t: Sender)
  {
    match e
    case Takes(x) => t == External(s, x)
    case Alarmed => s.alarm != Never && Fire(s).Emit? && t == Fire(s).sender
  }

  predicate TimesOut(s: Sender, e: Happening) { e.Alarmed? && s.mode == Retransmitting }

  // An acknowledgement of the oldest packet, which has been sent.
  predicate Confirms(s: Sender, e: Happening)
  {
    && e.Takes? && e.x.AckIn? && s.buffer != []
    && s.buffer[0].packet.seqNo == e.x.seqNo && s.buffer[0].forwarded && !s.buffer[0].ackReceived
  }

  function Confirmed(states: seq<Sender>, events: seq<Happening>): nat
    requires |states| == |events| + 1
    decreases |events|
  {
    if events == [] then 0
    else
      var n := |events| - 1;
      Confirmed(states[..n + 1], events[..n]) + if Confirms(states[n], events[n]) then 1 else 0
  }

  /** A timeout leaves a window of one packet and remembers half the old one; other sends leave it alone. */
  lemma FiringWindow(s: Sender)
    requires SenderInv(s) && s.alarm != Never
    ensures Fire(s).Emit?
    ensures var v, w := Fire(s).sender.window, s.window;
      if s.mode == Retransmitting then v.cwnd == 1 && v.threshold == w.cwnd / 2 && v.avoidance == SlowStart else v == w
  {
    FireKeepsInv(s);
  }

  /** Only an acknowledgement of the oldest packet moves the window, and it drops that packet: in slow
      start the window grows by one, in congestion avoidance when no more are due. */
  lemma InputWindow(s: Sender, x: Input)
    ensures var t, v, w := External(s, x), External(s, x).window, s.window;
      if Confirms(s, Takes(x)) then
        && t.buffer == s.buffer[1..] && v.threshold == w.threshold
        && v.cwnd == w.cwnd + (if w.avoidance == SlowStart || w.pendingAcks == 0 then 1 else 0)
        && (v.avoidance == SlowStart <==> w.avoidance == SlowStart && v.cwnd < w.threshold)
        && (v.avoidance == CongestionAvoidance ==>
          v.pendingAcks == if w.avoidance == SlowStart || w.pendingAcks == 0 then v.cwnd else w.pendingAcks - 1)
      else
        v == w && |t.buffer| >= |s.buffer|
    ensures !x.AckIn? || Confirms(s, Takes(x)) ==> External(s, x).mode != Waiting
  {
  }

  lemma {:induction false} AcksAdd(w: Window, a: nat, b: nat)
    ensures WindowAfterAcks(w, a + b) == WindowAfterAcks(WindowAfterAcks(w, a), b)
    decreases b
  {
    if b > 0 { AcksAdd(w, a, b - 1); }
  }

  lemma {:induction false} HistoryInv(states: seq<Sender>, events: seq<Happening>)
    requires History(states, events) && SenderInv(states[0])
    ensures forall i :: 0 <= i < |states| ==> SenderInv(states[i])
    decreases |events|
  {
    hide SenderInv, Next;
    if events != [] {
      var n := |events| - 1;
      assert states[..n + 1][0] == states[0] && states[..n + 1][n] == states[n];
      HistoryInv(states[..n + 1], events[..n]);
      assert Next(states[n], events[n], states[n + 1]) && SenderInv(states[n]);
      NextInv(states[n], events[n], states[n + 1]);
    }
  }

  lemma NextInv(s: Sender, e: Happening, t: Sender)
    requires SenderInv(s) && Next(s, e, t)
    ensures SenderInv(t)
  {
    hide SenderInv;
    match e {
      case Takes(x) => ExternalKeepsInv(s, x);
      case Alarmed => FireKeepsInv(s);
    }
  }

  lemma NextWindow(s: Sender, e: Happening, t: Sender)
    requires SenderInv(s) && Next(s, e, t)
    ensures TimesOut(s, e) ==> t.window == WindowAfterTimeout(s.window)
    ensures !TimesOut(s, e) ==> t.window == if Confirms(s, e) then WindowAfterAck(s.window) else s.window
  {
    if e.Alarmed? { FiringWindow(s); }
  }

  // Without timeouts the window depends on the number of confirmations alone.
  lemma {:induction false} WindowCounts(states: seq<Sender>, events: seq<Happening>)
    requires History(states, events) && forall i :: 0 <= i < |states| ==> SenderInv(states[i])
    requires forall i :: 0 <= i < |events| ==> !TimesOut(states[i], events[i])
    ensures states[|events|].window == WindowAfterAcks(states[0].window, Confirmed(states, events))
    decreases |events|
  {
    hide SenderInv, Next, TimesOut, Confirms, WindowAfterAck;
    if events != [] {
      var n := |events| - 1;
      WindowCounts(states[..n + 1], events[..n]);
      assert Next(states[n], events[n], states[n + 1]);
      NextWindow(states[n], events[n], states[n + 1]);
    }
  }

  lemma {:induction false} AcksKeepThreshold(w: Window, k: nat)
    ensures WindowAfterAcks(w, k).threshold == w.threshold
    ensures w.avoidance == CongestionAvoidance ==> WindowAfterAcks(w, k).avoidance == CongestionAvoidance
  {
    if k > 0 { AcksKeepThreshold(w, k - 1); }
  }

  // After `more` confirmations beyond the limit, each window v costing v + 1 of them.
  predicate Triangular(limit: int, more: int, v: int)
  {
    v >= limit && v * (v + 1) - limit * (limit + 1) <= 2 * more < (v + 1) * (v + 2) - limit * (limit + 1)
  }

  // One packet and k more up to the limit, then v exactly when it lies between the triangular bounds.
  ghost predicate Regrown(w: Window, half: int, k: nat, v: int)
  {
    var limit := if half <= 2 then 2 else half;
    && w.threshold == half
    && (w.avoidance == SlowStart <==> k + 1 < limit)
    && (k < limit ==> w.cwnd == k + 1)
    && (k + 1 >= limit ==> (v == w.cwnd <==> Triangular(limit, k + 1 - limit, v)))
  }

  lemma PastLimit(m: Window, more: nat, v: int)
    requires m.avoidance == CongestionAvoidance && m.pendingAcks == m.cwnd && m.cwnd >= 1
    ensures var w := WindowAfterAcks(m, more);
      w.avoidance == CongestionAvoidance && w.threshold == m.threshold &&
      (v == w.cwnd <==> Triangular(m.cwnd, more, v))
  {
    hide WindowAfterAcks;
    AcksKeepThreshold(m, more);
    AvoidanceGrowth(m, more, v);
  }

  lemma GrowsBack(w: Window, k: nat, v: int)
    requires w.cwnd >= 1
    ensures Regrown(WindowAfterAcks(WindowAfterTimeout(w), k), w.cwnd / 2, k, v)
  {
    var start := WindowAfterTimeout(w);
    var limit := if w.cwnd / 2 <= 2 then 2 else w.cwnd / 2;
    hide WindowAfterAcks, WindowAfterTimeout, Triangular;
    SlowStartGrowth(w, limit - 1);
    if k < limit {
      SlowStartGrowth(w, k);
      if k + 1 == limit { PastLimit(WindowAfterAcks(start, k), 0, v); AcksAdd(start, k, 0); }
    } else {
      AcksAdd(start, limit - 1, k + 1 - limit);
      PastLimit(WindowAfterAcks(start, limit - 1), k + 1 - limit, v);
    }
  }

  lemma Later(states: seq<Sender>, events: seq<Happening>)
    requires History(states, events) && events != []
    ensures History(states[1..], events[1..]) && Next(states[0], events[0], states[1])
  {
    hide Next;
    forall i | 0 <= i < |events| - 1 ensures Next(states[1..][i], events[1..][i], states[1..][i + 1]) {
      assert Next(states[i + 1], events[i + 1], states[i + 2]);
    }
  }

  /** The window after a timeout, whatever is sent and taken in between: k confirmations without another
      timeout make it k + 1 up to half the lost window (at least 2), and from there on it is the one number
      between two triangular bounds. */
  lemma AfterTimeout(states: seq<Sender>, events: seq<Happening>, v: int)
    requires History(states, events) && SenderInv(states[0])
    requires events != [] && TimesOut(states[0], events[0])
    requires forall i :: 0 < i < |events| ==> !TimesOut(states[i], events[i])
    ensures Regrown(states[|events|].window, states[0].window.cwnd / 2, Confirmed(states[1..], events[1..]), v)
  {
    assert states[0].window.cwnd >= 1;
    hide SenderInv, Confirmed, Next, TimesOut, History, WindowAfterAcks, WindowAfterTimeout, Regrown;
    HistoryInv(states, events);
    Later(states, events);
    NextWindow(states[0], events[0], states[1]);
    WindowCounts(states[1..], events[1..]);
    GrowsBack(states[0].window, Confirmed(states[1..], events[1..]), v);
  }

  // ---------- When it plans to send ----------

  function InAir(b: seq<Queued>): nat
  {
    if b == [] then 0 else InAir(b[..|b| - 1]) + if b[|b| - 1].onTheFly then 1 else 0
  }

  /** It sends at once exactly when the window has room for one more packet in the air and some packet is
      not there, unless that is the only one, sent before, under a window of two; else it waits for the
      timeout, for ever with nothing buffered. */
  ghost predicate Planned(s: Sender)
  {
    var now := InAir(s.buffer) < s.window.cwnd && (exists i :: 0 <= i < |s.buffer| && !s.buffer[i].onTheFly)
      && !(|s.buffer| == 1 && s.buffer[0].forwarded && s.window.cwnd == 2);
    && (s.mode == Waiting ==> s.buffer == [] && s.alarm == Never)
    && (s.mode != Waiting ==> (s.mode == Forwarding <==> now))
    && s.alarm == if now then Now else if s.buffer == [] then Never else AtTimeout
  }

  lemma {:induction false} InAirIsUnacked(b: seq<Queued>)
    requires forall i :: 0 <= i < |b| && b[i].onTheFly ==> b[i].forwarded && !b[i].ackReceived
    ensures InAir(b) == Unacked(b)
  {
    if b != [] { InAirIsUnacked(b[..|b| - 1]); }
  }

  lemma RescheduledIsPlanned(s: Sender)
    requires SenderInv(Reschedule(s))
    ensures Planned(Reschedule(s))
  {
    var t := Reschedule(s);
    LayersCount(t);
    hide SenderInv, InAir, Unacked;
    var n := FirstIdle(t.buffer);
    assert n < |t.buffer| ==> !t.buffer[n].onTheFly;
  }

  lemma LayersCount(s: Sender)
    requires SenderInv(s)
    ensures InAir(s.buffer) == Unacked(s.buffer) == FirstIdle(s.buffer)
    ensures forall i :: 0 <= i < |s.buffer| && s.buffer[i].onTheFly ==> s.buffer[i].forwarded
    ensures forall i :: 0 <= i < |s.buffer| && i < FirstIdle(s.buffer) ==> s.buffer[i].onTheFly
    ensures forall i :: FirstIdle(s.buffer) <= i < |s.buffer| ==> !s.buffer[i].onTheFly
  {
    InAirIsUnacked(s.buffer);
    UnackedCountsPrefix(s.buffer, FirstIdle(s.buffer), Sent(s.buffer));
  }

  /** A timeout never sends a packet for the first time. */
  lemma OldestWasSent(s: Sender)
    requires SenderInv(s) && Planned(s) && s.mode == Retransmitting && s.buffer != []
    ensures s.buffer[0].forwarded
  {
    LayersCount(s);
    hide InAir, Unacked, FirstIdle, Layered;
  }

  lemma NextPlanned(s: Sender, e: Happening, t: Sender)
    requires SenderInv(s) && Planned(s) && Next(s, e, t)
    ensures SenderInv(t) && Planned(t)
  {
    NextInv(s, e, t);
    var u := PlansAgain(s, e, t);
    hide *;
    if t != s { RescheduledIsPlanned(u); }
  }

  lemma PlansAgain(s: Sender, e: Happening, t: Sender) returns (u: Sender)
    requires Next(s, e, t)
    ensures t == s || t == Reschedule(u)
  {
    hide Reschedule, FindMatch, Output;
    match e {
      case Takes(Outgoing(p)) => u := s.(buffer := s.buffer + [Stamped(s, p)], lastSeq := s.lastSeq + 1);
      case Takes(AckIn(ack)) =>
        u := if s.buffer == [] then s else s.(buffer := s.buffer[1..], window := WindowAfterAck(s.window));
      case Takes(OtherPort) => u := s;
      case Alarmed => u := Output(s).sender;
    }
  }

  lemma StartsPlanned(s: Sender)
    requires Initial(s)
    ensures SenderInv(s) && Planned(s)
  {
    LayersUnique(s.buffer, 0, 0);
  }

  /** In every state of every run the plan is the right one. */
  lemma {:induction false} AlwaysPlanned(states: seq<Sender>, events: seq<Happening>)
    requires History(states, events) && Initial(states[0])
    ensures forall i :: 0 <= i < |states| ==> SenderInv(states[i]) && Planned(states[i])
    decreases |events|
  {
    hide SenderInv, Planned, Next, Initial;
    if events == [] {
      StartsPlanned(states[0]);
    } else {
      var n := |events| - 1;
      AlwaysPlanned(states[..n + 1], events[..n]);
      assert states[..n + 1][n] == states[n] && Next(states[n], events[n], states[n + 1]);
      NextPlanned(states[n], events[n], states[n + 1]);
    }
  }

  // ---------- How often each packet was sent ----------

  ghost predicate Sends(s: Sender, e: Happening, n: int)
  {
    e.Alarmed? && Fire(s).Emit? && Fire(s).packet.seqNo == n
  }

  ghost function TimesSent(states: seq<Sender>, events: seq<Happening>, n: int): nat
    requires |states| == |events| + 1
    decreases |events|
  {
    if events == [] then 0
    else
      var k := |events| - 1;
      TimesSent(states[..k + 1], events[..k], n) + if Sends(states[k], events[k], n) then 1 else 0
  }

  // A packet waiting was sent once and then retransmitted as often as its counter says, or never.
  ghost predicate CountIs(q: Queued, times: nat)
  {
    times == (if q.forwarded then q.retransmissions + 1 else 0) && (!q.forwarded ==> q.retransmissions == 0)
  }

  ghost predicate Counted(states: seq<Sender>, events: seq<Happening>)
    requires |states| == |events| + 1
  {
    var s := states[|events|];
    && (forall i :: 0 <= i < |s.buffer| ==> CountIs(s.buffer[i], TimesSent(states, events, s.buffer[i].packet.seqNo)))
    && (forall n :: n >= s.lastSeq ==> TimesSent(states, events, n) == 0)
  }

  // What one happening does to the counters: at most one packet is sent, and it counts one more.
  ghost predicate CountersMove(s: Sender, e: Happening, t: Sender)
  {
    && t.lastSeq >= s.lastSeq
    && (forall n :: n >= s.lastSeq ==> !Sends(s, e, n))
    && forall j :: 0 <= j < |t.buffer| ==> Stays(s, e, t.buffer[j])
  }

  ghost predicate Stays(s: Sender, e: Happening, q: Queued)
  {
    if q.packet.seqNo >= s.lastSeq then !q.forwarded && q.retransmissions == 0
    else
      var i := q.packet.seqNo - Base(s);
      0 <= i < |s.buffer| && MovesOn(s.buffer[i], q, Sends(s, e, q.packet.seqNo))
  }

  ghost predicate MovesOn(q: Queued, q': Queued, sent: bool)
  {
    && q'.packet == q.packet && q'.forwarded == (q.forwarded || sent)
    && q'.retransmissions == q.retransmissions + if sent && q.forwarded then 1 else 0
  }

  lemma FiringCounts(s: Sender)
    requires SenderInv(s) && Planned(s) && s.alarm != Never
    ensures Fire(s).Emit? && CountersMove(s, Alarmed, Fire(s).sender)
  {
    FireKeepsInv(s);
    hide *;
    Numbers(s);
    if s.mode == Retransmitting { OldestWasSent(s); }
    FiredBuffer(s);
    FiringMoves(s, Fire(s).sender, Chosen(s));
  }

  lemma FiringMoves(s: Sender, t: Sender, c: nat)
    requires Fire(s).Emit? && c < |s.buffer| == |t.buffer| && t.lastSeq == s.lastSeq
    requires Fire(s).packet.seqNo == s.buffer[c].packet.seqNo
    requires forall j :: 0 <= j < |s.buffer| ==> s.buffer[j].packet.seqNo == Base(s) + j
    requires forall j :: 0 <= j < |s.buffer| ==> MovesOn(s.buffer[j], t.buffer[j], j == c)
    ensures CountersMove(s, Alarmed, t)
  {
    hide Fire, Base, Stays, MovesOn, Sends;
    forall j | 0 <= j < |t.buffer| ensures Stays(s, Alarmed, t.buffer[j]) { FiredStays(s, c, j, t.buffer[j]); }
    forall n | n >= s.lastSeq ensures !Sends(s, Alarmed, n) { OldSent(s, c, n); }
  }

  lemma FiredStays(s: Sender, c: nat, j: nat, q: Queued)
    requires j < |s.buffer| && c < |s.buffer| && Fire(s).Emit?
    requires s.buffer[j].packet.seqNo == Base(s) + j && s.buffer[c].packet.seqNo == Base(s) + c
    requires Fire(s).packet.seqNo == s.buffer[c].packet.seqNo && MovesOn(s.buffer[j], q, j == c)
    ensures Stays(s, Alarmed, q)
  {
    hide Fire;
  }

  lemma OldSent(s: Sender, c: nat, n: int)
    requires c < |s.buffer| && Fire(s).Emit? && Fire(s).packet.seqNo == s.buffer[c].packet.seqNo == Base(s) + c
    ensures n >= s.lastSeq ==> !Sends(s, Alarmed, n)
  {
    hide Fire;
  }

  lemma KeptStays(s: Sender, x: Input, i: nat)
    requires i < |s.buffer| && s.buffer[i].packet.seqNo == Base(s) + i
    ensures Stays(s, Takes(x), s.buffer[i])
  {
  }

  lemma Numbers(s: Sender)
    requires SenderInv(s)
    ensures forall i :: 0 <= i < |s.buffer| ==> s.buffer[i].packet.seqNo == Base(s) + i
    ensures s.alarm != Never ==> s.buffer != []
  {
  }

  // The buffer after a firing: only the packet chosen counts one more sending.
  lemma FiredBuffer(s: Sender)
    requires SenderInv(s) && s.alarm != Never && (s.mode == Retransmitting ==> s.buffer != [] && s.buffer[0].forwarded)
    ensures Fire(s).Emit? && Chosen(s) < |s.buffer| && Fire(s).packet.seqNo == s.buffer[Chosen(s)].packet.seqNo
    ensures var t := Fire(s).sender;
      && t.lastSeq == s.lastSeq && |t.buffer| == |s.buffer|
      && forall j :: 0 <= j < |s.buffer| ==> MovesOn(s.buffer[j], t.buffer[j], j == Chosen(s))
  {
    FireKeepsInv(s);
    hide SenderInv, FirstIdle, Unacked, HeldForTimeout, Reschedule;
    assert Fire(s).sender == Reschedule(Output(s).sender);
    RescheduleKeepsBuffer(Output(s).sender);
  }

  lemma RescheduleKeepsBuffer(s: Sender)
    ensures Reschedule(s).buffer == s.buffer && Reschedule(s).lastSeq == s.lastSeq
  {
  }

  lemma TakingCounts(s: Sender, x: Input)
    requires SenderInv(s)
    ensures CountersMove(s, Takes(x), External(s, x))
  {
    hide SenderInv, External, Base, Stays, Sends, FirstIdle, Unacked, InAir, FindMatch;
    Numbers(s);
    TakenBuffer(s, x);
    var t := External(s, x);
    assert forall n :: !Sends(s, Takes(x), n) by { NothingSent(s, x); }
    forall j | 0 <= j < |t.buffer| ensures Stays(s, Takes(x), t.buffer[j]) {
      if t.buffer == s.buffer {
        KeptStays(s, x, j);
      } else if s.buffer != [] && t.buffer == s.buffer[1..] {
        KeptStays(s, x, j + 1);
      } else if j < |s.buffer| {
        assert t.buffer[j] == t.buffer[..|s.buffer|][j];
        KeptStays(s, x, j);
      } else {
        NewStays(s, x, t.buffer[j]);
      }
    }
  }

  lemma NothingSent(s: Sender, x: Input)
    ensures forall n :: !Sends(s, Takes(x), n)
  {
  }

  lemma NewStays(s: Sender, x: Input, q: Queued)
    requires q.packet.seqNo == s.lastSeq && !q.forwarded && q.retransmissions == 0
    ensures Stays(s, Takes(x), q)
  {
  }

  lemma TakenBuffer(s: Sender, x: Input)
    ensures var t := External(s, x);
      || (t.buffer == s.buffer && t.lastSeq == s.lastSeq)
      || (s.buffer != [] && t.buffer == s.buffer[1..] && t.lastSeq == s.lastSeq)
      || (|t.buffer| == |s.buffer| + 1 && t.buffer[..|s.buffer|] == s.buffer && t.lastSeq == s.lastSeq + 1 &&
          var q := t.buffer[|s.buffer|]; q.packet.seqNo == s.lastSeq && !q.forwarded && q.retransmissions == 0)
  {
    hide FindMatch, Unacked, FirstIdle, HeldForTimeout;
  }

  lemma CountsMove(states: seq<Sender>, events: seq<Happening>)
    requires |states| == |events| + 1 && events != []
    requires var n := |events| - 1;
      Counted(states[..n + 1], events[..n]) && CountersMove(states[n], events[n], states[n + 1])
    ensures Counted(states, events)
  {
    var n := |events| - 1;
    var s, t := states[n], states[n + 1];
    assert states[..n + 1][n] == s;
    hide Sends;
    forall j | 0 <= j < |t.buffer|
      ensures CountIs(t.buffer[j], TimesSent(states, events, t.buffer[j].packet.seqNo))
    {
      var q := t.buffer[j];
      assert Stays(s, events[n], q);
      if q.packet.seqNo < s.lastSeq {
        var i := q.packet.seqNo - Base(s);
        assert CountIs(s.buffer[i], TimesSent(states[..n + 1], events[..n], q.packet.seqNo));
      }
    }
    forall x | x >= t.lastSeq ensures TimesSent(states, events, x) == 0 {
      assert TimesSent(states[..n + 1], events[..n], x) == 0;
    }
    assert states[|events|] == t;
  }

  /** Over every run, each waiting packet was sent as often as its counter says. */
  lemma {:induction false} CountersAreRight(states: seq<Sender>, events: seq<Happening>)
    requires History(states, events) && Initial(states[0])
    ensures Counted(states, events)
    decreases |events|
  {
    if events != [] {
      var n := |events| - 1;
      CountersAreRight(states[..n + 1], events[..n]);
      AlwaysPlanned(states, events);
      assert SenderInv(states[n]) && Planned(states[n]) && Next(states[n], events[n], states[n + 1]);
      hide SenderInv, Planned, History, Counted, CountersMove, Initial, External, Fire;
      if events[n].Alarmed? { FiringCounts(states[n]); } else { TakingCounts(states[n], events[n].x); }
      CountsMove(states, events);
    }
  }
}
