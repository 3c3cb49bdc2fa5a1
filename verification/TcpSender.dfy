/** The sliding-window sender: one queue of unacknowledged packets, a congestion window and a
    retransmission timer.  The specification functions act on the value `Sender`; the class runs the
    same transitions in place, with the loops of the original. */
module TcpSending {

  datatype Packet = Packet(ros: int, seqNo: int, payload: int)

  // What the sender keeps about a packet that is not acknowledged yet.
  datatype Queued = Queued(packet: Packet, forwarded: bool, onTheFly: bool, retransmissions: nat, ackReceived: bool)

  datatype Mode = Forwarding | Retransmitting | Waiting
  datatype Avoidance = SlowStart | CongestionAvoidance

  // sigma without the clock: zero, "when the retransmission timer fires", or infinity.
  datatype Alarm = Now | AtTimeout | Never

  datatype Window = Window(cwnd: int, avoidance: Avoidance, pendingAcks: int, threshold: int)

  datatype Sender = Sender(buffer: seq<Queued>, lastSeq: nat, window: Window, mode: Mode, alarm: Alarm)

  datatype Input = Outgoing(packet: Packet) | AckIn(seqNo: int) | OtherPort

  datatype Emission = InvalidState | Emit(sender: Sender, packet: Packet)

  // ---------- Queries on the buffer ----------

  /** Length of the longest prefix that is on the fly: the position find_if stops at. */
  function FirstIdle(b: seq<Queued>): (n: nat)
    ensures n <= |b|
    ensures forall i :: 0 <= i < n ==> b[i].onTheFly
    ensures n < |b| ==> !b[n].onTheFly
  {
    if b == [] || !b[0].onTheFly then 0 else 1 + FirstIdle(b[1..])
  }

  /** Length of the longest prefix that was sent at least once. */
  ghost function Sent(b: seq<Queued>): (n: nat)
    ensures n <= |b|
    ensures forall i :: 0 <= i < n ==> b[i].forwarded
    ensures n < |b| ==> !b[n].forwarded
  {
    if b == [] || !b[0].forwarded then 0 else 1 + Sent(b[1..])
  }

  predicate CountsAsUnacked(q: Queued) { !q.ackReceived && q.forwarded && q.onTheFly }

  function Unacked(b: seq<Queued>): nat
  {
    if b == [] then 0 else Unacked(b[..|b| - 1]) + (if CountsAsUnacked(b[|b| - 1]) then 1 else 0)
  }

  predicate Matches(q: Queued, ack: int) { q.packet.seqNo == ack && q.forwarded && !q.ackReceived }

  function FindMatch(b: seq<Queued>, ack: int): (n: nat)
    ensures n <= |b|
    ensures forall i :: 0 <= i < n ==> !Matches(b[i], ack)
    ensures n < |b| ==> Matches(b[n], ack)
  {
    if b == [] || Matches(b[0], ack) then 0 else 1 + FindMatch(b[1..], ack)
  }

  function Grounded(b: seq<Queued>): (r: seq<Queued>)
    ensures |r| == |b|
    ensures forall i :: 0 <= i < |b| ==> r[i] == b[i].(onTheFly := false)
  {
    seq(|b|, i requires 0 <= i < |b| => b[i].(onTheFly := false))
  }

  // ---------- Transitions ----------

  function WindowAfterAck(w: Window): Window
  {
    match w.avoidance
    case SlowStart =>
      var grown := w.(cwnd := w.cwnd + 1);
      if grown.threshold <= grown.cwnd
      then grown.(avoidance := CongestionAvoidance, pendingAcks := grown.cwnd)
      else grown
    case CongestionAvoidance =>
      if w.pendingAcks == 0
      then w.(cwnd := w.cwnd + 1, pendingAcks := w.cwnd + 1)
      else w.(pendingAcks := w.pendingAcks - 1)
  }

  function WindowAfterTimeout(w: Window): Window
  {
    w.(threshold := w.cwnd / 2, cwnd := 1, avoidance := SlowStart)
  }

  predicate HeldForTimeout(s: Sender, next: nat)
    requires next < |s.buffer|
  {
    |s.buffer| == 1 && s.buffer[next].forwarded && s.window.cwnd == 2
  }

  function Reschedule(s: Sender): Sender
  {
    var next := FirstIdle(s.buffer);
    if s.window.cwnd - Unacked(s.buffer) > 0 && next < |s.buffer| && !HeldForTimeout(s, next)
    then s.(mode := Forwarding, alarm := Now)
    else s.(mode := Retransmitting, alarm := if s.buffer == [] then Never else AtTimeout)
  }

  function Stamped(s: Sender, p: Packet): Queued
  {
    Queued(p.(seqNo := s.lastSeq), false, false, 0, false)
  }

  function AcceptAck(s: Sender): Sender
    requires s.buffer != []
  {
    Reschedule(s.(buffer := s.buffer[1..], window := WindowAfterAck(s.window)))
  }

  function External(s: Sender, x: Input): Sender
  {
    match x
    case Outgoing(p) => Reschedule(s.(buffer := s.buffer + [Stamped(s, p)], lastSeq := s.lastSeq + 1))
    case AckIn(ack) => if s.buffer != [] && FindMatch(s.buffer, ack) == 0 then AcceptAck(s) else s
    case OtherPort => Reschedule(s)
  }

  function MarkForwarded(q: Queued): Queued
  {
    q.(forwarded := true, onTheFly := true,
       retransmissions := if q.forwarded then q.retransmissions + 1 else q.retransmissions)
  }

  /** The output function; it also updates the flags and, on a timeout, the window. */
  function Output(s: Sender): Emission
  {
    match s.mode
    case Forwarding =>
      var n := FirstIdle(s.buffer);
      if n == |s.buffer| then InvalidState
      else Emit(s.(buffer := s.buffer[n := MarkForwarded(s.buffer[n])]), s.buffer[n].packet)
    case Retransmitting =>
      if s.buffer == [] then InvalidState
      else
        var b := Grounded(s.buffer);
        var front := b[0].(forwarded := true, onTheFly := true, retransmissions := b[0].retransmissions + 1);
        Emit(s.(buffer := b[0 := front], window := WindowAfterTimeout(s.window)), front.packet)
    case Waiting => InvalidState
  }

  /** Output followed by the internal transition, as one step of the simulator runs them. */
  function Fire(s: Sender): Emission
  {
    var e := Output(s);
    if e.InvalidState? then e else Emit(Reschedule(e.sender), e.packet)
  }

  // ---------- What every step keeps ----------

  /** Sequence number of the oldest unacknowledged packet. */
  function Base(s: Sender): int { s.lastSeq - |s.buffer| }

  ghost predicate Numbered(s: Sender)
  {
    && |s.buffer| <= s.lastSeq
    && forall i :: 0 <= i < |s.buffer| ==> s.buffer[i].packet.seqNo == Base(s) + i && !s.buffer[i].ackReceived
  }

  // `fly` packets on the fly, then packets that were sent before, then fresh ones.
  ghost predicate LayeredAs(b: seq<Queued>, fly: nat, sent: nat)
  {
    && fly <= sent <= |b|
    && forall i :: 0 <= i < |b| ==> (b[i].onTheFly <==> i < fly) && (b[i].forwarded <==> i < sent)
  }

  ghost predicate Layered(b: seq<Queued>) { LayeredAs(b, FirstIdle(b), Sent(b)) }

  ghost predicate Scheduled(s: Sender)
  {
    && (s.mode == Forwarding ==>
      s.alarm == Now && FirstIdle(s.buffer) < |s.buffer| && FirstIdle(s.buffer) < s.window.cwnd)
    && (s.mode == Retransmitting ==> s.alarm == if s.buffer == [] then Never else AtTimeout)
    && (s.mode == Waiting ==> s.alarm == Never && s.buffer == [])
  }

  ghost predicate SenderInv(s: Sender)
  {
    && Numbered(s)
    && s.window.cwnd >= 1
    && Layered(s.buffer)
    && FirstIdle(s.buffer) <= s.window.cwnd
    && Scheduled(s)
  }

  // The mode before the first event is never read: no alarm is set.
  predicate Initial(s: Sender)
  {
    s.buffer == [] && s.lastSeq == 0 && s.window.cwnd == 1 && s.window.avoidance == SlowStart &&
    s.alarm == Never && s.mode == Waiting
  }

  lemma {:induction false} LayersUnique(b: seq<Queued>, fly: nat, sent: nat)
    requires LayeredAs(b, fly, sent)
    ensures FirstIdle(b) == fly && Sent(b) == sent && Layered(b)
  {
    if b != [] {
      LayersUnique(b[1..], if fly == 0 then 0 else fly - 1, if sent == 0 then 0 else sent - 1);
    }
  }

  lemma {:induction false} FirstIdleAt(b: seq<Queued>, n: nat)
    requires n <= |b| && (n < |b| ==> !b[n].onTheFly)
    requires forall i :: 0 <= i < n ==> b[i].onTheFly
    ensures FirstIdle(b) == n
  {
    if n > 0 { FirstIdleAt(b[1..], n - 1); }
  }

  lemma {:induction false} FindMatchAt(b: seq<Queued>, ack: int, n: nat)
    requires n <= |b| && (n < |b| ==> Matches(b[n], ack))
    requires forall i :: 0 <= i < n ==> !Matches(b[i], ack)
    ensures FindMatch(b, ack) == n
  {
    if n > 0 { FindMatchAt(b[1..], ack, n - 1); }
  }

  lemma {:induction false} UnackedCountsPrefix(b: seq<Queued>, fly: nat, sent: nat)
    requires LayeredAs(b, fly, sent)
    requires forall i :: 0 <= i < |b| ==> !b[i].ackReceived
    ensures Unacked(b) == fly
  {
    if b != [] {
      var n := |b| - 1;
      UnackedCountsPrefix(b[..n], if fly == |b| then n else fly, if sent == |b| then n else sent);
    }
  }

  lemma RescheduleKeeps(s: Sender, fly: nat, sent: nat)
    requires Numbered(s) && LayeredAs(s.buffer, fly, sent)
    requires s.window.cwnd >= 1 && fly <= s.window.cwnd
    ensures SenderInv(Reschedule(s))
  {
    LayersUnique(s.buffer, fly, sent);
    UnackedCountsPrefix(s.buffer, fly, sent);
  }

  lemma AckKeeps(s: Sender)
    requires SenderInv(s) && s.buffer != [] && s.buffer[0].forwarded
    ensures SenderInv(AcceptAck(s))
  {
    var fly, sent := FirstIdle(s.buffer), Sent(s.buffer);
    var t := s.(buffer := s.buffer[1..], window := WindowAfterAck(s.window));
    assert LayeredAs(t.buffer, if fly == 0 then 0 else fly - 1, sent - 1);
    RescheduleKeeps(t, if fly == 0 then 0 else fly - 1, sent - 1);
  }

  lemma OutgoingKeeps(s: Sender, p: Packet)
    requires SenderInv(s)
    ensures SenderInv(External(s, Outgoing(p)))
  {
    hide FirstIdle, Sent, Unacked, Reschedule;
    RescheduleKeeps(s.(buffer := s.buffer + [Stamped(s, p)], lastSeq := s.lastSeq + 1), FirstIdle(s.buffer),
      Sent(s.buffer));
  }

  /** Every external transition keeps the shape of the sender. */
  lemma ExternalKeepsInv(s: Sender, x: Input)
    requires SenderInv(s)
    ensures SenderInv(External(s, x))
  {
    hide FirstIdle, Sent, Unacked, Reschedule;
    match x
    case Outgoing(p) => OutgoingKeeps(s, p);
    case AckIn(ack) =>
      if s.buffer != [] && FindMatch(s.buffer, ack) == 0 { AckKeeps(s); }
    case OtherPort => RescheduleKeeps(s, FirstIdle(s.buffer), Sent(s.buffer));
  }

  /** The packet a step emits: the first idle one, or the front after a timeout. */
  function Chosen(s: Sender): nat { if s.mode == Forwarding then FirstIdle(s.buffer) else 0 }

  lemma ForwardingKeepsInv(s: Sender)
    requires SenderInv(s) && s.mode == Forwarding
    ensures Fire(s).Emit? && SenderInv(Fire(s).sender) && FirstIdle(s.buffer) < |s.buffer|
    ensures Fire(s).packet == s.buffer[FirstIdle(s.buffer)].packet
  {
    hide FirstIdle, Sent, Unacked, Reschedule;
    var fly, sent := FirstIdle(s.buffer), Sent(s.buffer);
    RescheduleKeeps(Output(s).sender, fly + 1, if sent == fly then fly + 1 else sent);
  }

  lemma TimeoutKeepsInv(s: Sender)
    requires SenderInv(s) && s.mode == Retransmitting && s.buffer != []
    ensures Fire(s).Emit? && SenderInv(Fire(s).sender) && Fire(s).packet == s.buffer[0].packet
  {
    hide FirstIdle, Sent, Unacked, Reschedule;
    RescheduleKeeps(Output(s).sender, 1, if Sent(s.buffer) == 0 then 1 else Sent(s.buffer));
  }

  /** When the alarm is set, the output function finds its packet and the step keeps the shape. */
  lemma FireKeepsInv(s: Sender)
    requires SenderInv(s) && s.alarm != Never
    ensures Fire(s).Emit? && SenderInv(Fire(s).sender) && Chosen(s) < |s.buffer|
    ensures Fire(s).packet == s.buffer[Chosen(s)].packet
  {
    hide FirstIdle, Sent, Unacked, Fire, Numbered, Layered;
    if s.mode == Forwarding { ForwardingKeepsInv(s); } else { TimeoutKeepsInv(s); }
  }

  // The same packets, with the one at n in the air.
  ghost predicate Airborne(s: Sender, t: Sender, n: nat)
  {
    && t.lastSeq == s.lastSeq && |t.buffer| == |s.buffer|
    && forall i :: 0 <= i < |s.buffer| ==>
         && t.buffer[i].packet == s.buffer[i].packet
         && (t.buffer[i].forwarded <==> s.buffer[i].forwarded || i == n)
         && (t.buffer[i].onTheFly <==> i == n || (s.mode == Forwarding && s.buffer[i].onTheFly))
  }

  /** What a step leaves in the buffer: the same packets, with the emitted one in the air and, after a
      timeout, no other. */
  lemma FireBuffer(s: Sender)
    requires SenderInv(s) && s.alarm != Never
    ensures Fire(s).Emit? && Airborne(s, Fire(s).sender, Chosen(s))
  {
    FireKeepsInv(s);
    hide Unacked, Sent, FirstIdle, SenderInv;
    assert Fire(s).sender.buffer == Output(s).sender.buffer && Fire(s).sender.lastSeq == Output(s).sender.lastSeq;
    hide Fire, Reschedule;
  }

  /** The buffer as the protocol sees it: consecutive numbers up to the last one handed out, packets
      in the air form a prefix of the packets ever sent, and they fit the window. */
  ghost predicate Shaped(s: Sender)
  {
    && (forall i, j :: 0 <= i < j < |s.buffer| ==> s.buffer[j].packet.seqNo - s.buffer[i].packet.seqNo == j - i)
    && (s.buffer != [] ==> s.buffer[|s.buffer| - 1].packet.seqNo == s.lastSeq - 1)
    && (forall i, j :: 0 <= i < j < |s.buffer| && s.buffer[j].onTheFly ==> s.buffer[i].onTheFly)
    && (forall i, j :: 0 <= i < j < |s.buffer| && s.buffer[j].forwarded ==> s.buffer[i].forwarded)
    && (forall i :: 0 <= i < |s.buffer| && s.buffer[i].onTheFly ==> s.buffer[i].forwarded)
    && Unacked(s.buffer) <= s.window.cwnd
    && (s.mode == Forwarding ==> exists i :: 0 <= i < |s.buffer| && !s.buffer[i].onTheFly)
    && (s.alarm == Never <==> s.buffer == [])
  }

  lemma InvShapes(s: Sender)
    requires SenderInv(s)
    ensures Shaped(s)
  {
    UnackedCountsPrefix(s.buffer, FirstIdle(s.buffer), Sent(s.buffer));
    if s.mode == Forwarding { assert !s.buffer[FirstIdle(s.buffer)].onTheFly; }
    hide FirstIdle, Sent, Unacked;
  }

  // ---------- Growth of the congestion window ----------

  function WindowAfterAcks(w: Window, k: nat): Window
  {
    if k == 0 then w else WindowAfterAck(WindowAfterAcks(w, k - 1))
  }

  lemma {:induction false} AvoidanceCredit(w: Window, k: nat)
    requires w.avoidance == CongestionAvoidance && w.pendingAcks == w.cwnd && w.cwnd >= 0
    ensures var v := WindowAfterAcks(w, k);
      v.avoidance == CongestionAvoidance && 0 <= v.pendingAcks <= v.cwnd && v.cwnd >= w.cwnd &&
      v.cwnd * (v.cwnd + 1) - w.cwnd * (w.cwnd + 1) + 2 * (v.cwnd - v.pendingAcks) == 2 * k
  {
    if k > 0 {
      AvoidanceCredit(w, k - 1);
      NextTriangle(WindowAfterAcks(w, k - 1).cwnd);
    }
  }

  lemma NextTriangle(v: int)
    ensures (v + 1) * (v + 2) == v * (v + 1) + 2 * (v + 1)
  {
  }

  lemma {:induction false} SquareGrows(a: int, b: int)
    requires 0 <= a < b
    ensures (a + 1) * (a + 2) <= b * (b + 1)
    decreases b
  {
    if a + 1 < b {
      SquareGrows(a, b - 1);
      NextTriangle(b - 1);
    }
  }

  /** In congestion avoidance the window after k accepted acknowledgements is the one whole number
      between the two triangular bounds: it takes window + 1 of them to grow by one. */
  lemma AvoidanceGrowth(w: Window, k: nat, v: int)
    requires w.avoidance == CongestionAvoidance && w.pendingAcks == w.cwnd && w.cwnd >= 1
    ensures v == WindowAfterAcks(w, k).cwnd <==>
      v >= w.cwnd && v * (v + 1) - w.cwnd * (w.cwnd + 1) <= 2 * k < (v + 1) * (v + 2) - w.cwnd * (w.cwnd + 1)
  {
    AvoidanceCredit(w, k);
    var r := WindowAfterAcks(w, k);
    NextTriangle(r.cwnd);
    if w.cwnd <= v < r.cwnd { SquareGrows(v, r.cwnd); }
    if r.cwnd < v { SquareGrows(r.cwnd, v); }
  }

  /** After a timeout, slow start adds one per acknowledgement and stops at half the lost window
      (or right after the first acknowledgement when that half is at most two). */
  lemma {:induction false} SlowStartGrowth(w: Window, k: nat)
    requires w.cwnd >= 1
    ensures var v := WindowAfterAcks(WindowAfterTimeout(w), k);
      var limit := if w.cwnd / 2 <= 2 then 2 else w.cwnd / 2;
      k < limit ==>
        && v.cwnd == k + 1
        && (v.avoidance == CongestionAvoidance <==> k + 1 == limit)
        && (k + 1 == limit ==> v.pendingAcks == v.cwnd)
        && v.threshold == w.cwnd / 2
  {
    if k > 0 { SlowStartGrowth(w, k - 1); }
  }

  // ---------- The model object ----------

  class TcpSender {
    var sendBuffer: seq<Queued>
    var lastSequenceNumber: nat
    var window: Window
    var myState: Mode
    var sigma: Alarm

    function View(): Sender
      reads this
    {
      Sender(sendBuffer, lastSequenceNumber, window, myState, sigma)
    }

    constructor (slowStartThreshold: int)
      ensures Initial(View()) && SenderInv(View())
      ensures View().window.threshold == slowStartThreshold
    {
      sendBuffer, lastSequenceNumber := [], 0;
      window := Window(1, SlowStart, 0, slowStartThreshold);
      myState, sigma := Waiting, Never;
      new;
      LayersUnique(sendBuffer, 0, 0);
    }

    method NextPacketPendingForward() returns (n: nat)
      ensures n == FirstIdle(sendBuffer)
    {
      n := 0;
      while n < |sendBuffer| && sendBuffer[n].onTheFly
        invariant n <= |sendBuffer|
        invariant forall i :: 0 <= i < n ==> sendBuffer[i].onTheFly
      {
        n := n + 1;
      }
      FirstIdleAt(sendBuffer, n);
    }

    method UnAckPackets() returns (count: nat)
      ensures count == Unacked(sendBuffer)
    {
      count := 0;
      for i := 0 to |sendBuffer|
        invariant count == Unacked(sendBuffer[..i])
      {
        assert sendBuffer[..i + 1][..i] == sendBuffer[..i];
        if CountsAsUnacked(sendBuffer[i]) {
          count := count + 1;
        }
      }
      assert sendBuffer[..|sendBuffer|] == sendBuffer;
    }

    method SetNextSigma()
      modifies `myState, `sigma
      ensures View() == Reschedule(old(View()))
    {
      var next := NextPacketPendingForward();
      var unacked := UnAckPackets();
      if window.cwnd - unacked > 0 && next < |sendBuffer| {
        myState, sigma := Forwarding, Now;
        if |sendBuffer| == 1 && sendBuffer[next].forwarded && window.cwnd == 2 {
          myState, sigma := Retransmitting, AtTimeout;
        }
      } else {
        myState := Retransmitting;
        sigma := if |sendBuffer| == 0 then Never else AtTimeout;
      }
    }

    method ValidateReceivedAck(ack: int) returns (n: nat)
      ensures n == FindMatch(sendBuffer, ack)
    {
      n := 0;
      while n < |sendBuffer| && !Matches(sendBuffer[n], ack)
        invariant n <= |sendBuffer|
        invariant forall i :: 0 <= i < n ==> !Matches(sendBuffer[i], ack)
      {
        n := n + 1;
      }
      FindMatchAt(sendBuffer, ack, n);
    }

    method SetNewCAAfterAckReceived()
      modifies `window
      ensures window == WindowAfterAck(old(window))
    {
      match window.avoidance {
        case SlowStart =>
          window := window.(cwnd := window.cwnd + 1);
          if window.threshold <= window.cwnd {
            window := window.(avoidance := CongestionAvoidance, pendingAcks := window.cwnd);
          }
        case CongestionAvoidance =>
          if window.pendingAcks == 0 {
            window := window.(cwnd := window.cwnd + 1);
            window := window.(pendingAcks := window.cwnd);
          } else {
            window := window.(pendingAcks := window.pendingAcks - 1);
          }
      }
    }

    method BufferPacket(p: Packet)
      modifies `sendBuffer, `lastSequenceNumber
      ensures View() == old(View()).(buffer := old(sendBuffer) + [Stamped(old(View()), p)],
        lastSeq := old(lastSequenceNumber) + 1)
    {
      sendBuffer := sendBuffer + [Queued(p.(seqNo := lastSequenceNumber), false, false, 0, false)];
      lastSequenceNumber := lastSequenceNumber + 1;
    }

    /** Accepts an acknowledgement of the front packet and ignores any other. */
    method ReceiveAck(ack: int) returns (accepted: bool)
      modifies `sendBuffer, `window
      ensures accepted <==> old(sendBuffer) != [] && FindMatch(old(sendBuffer), ack) == 0
      ensures View() ==
        if accepted then old(View()).(buffer := old(sendBuffer)[1..], window := WindowAfterAck(old(window)))
          else old(View())
    {
      var n := ValidateReceivedAck(ack);
      if n == |sendBuffer| || n != 0 {
        return false;
      }
      hide FindMatch, WindowAfterAck;
      ghost var was := sendBuffer;
      sendBuffer := sendBuffer[0 := sendBuffer[0].(ackReceived := true)];
      SetNewCAAfterAckReceived();
      sendBuffer := sendBuffer[1..];
      assert sendBuffer == was[1..];
      accepted := true;
    }

    method Dext(x: Input)
      modifies this
      ensures View() == External(old(View()), x)
      ensures SenderInv(old(View())) ==> SenderInv(View())
    {
      hide SenderInv, Reschedule, FindMatch;
      ghost var was := View();
      match x {
        case Outgoing(p) =>
          BufferPacket(p);
          SetNextSigma();
        case AckIn(ack) =>
          var accepted := ReceiveAck(ack);
          if accepted {
            SetNextSigma();
          }
        case OtherPort =>
          SetNextSigma();
      }
      assert View() == External(was, x);
      if SenderInv(was) { ExternalKeepsInv(was, x); }
    }

    method Lambda() returns (out: Emission)
      modifies `sendBuffer, `window
      ensures out == Output(old(View()))
      ensures View() == if out.Emit? then out.sender else old(View())
    {
      ghost var before := View();
      match myState {
        case Forwarding =>
          var n := NextPacketPendingForward();
          if n == |sendBuffer| {
            return InvalidState;
          }
          var q := sendBuffer[n];
          if q.forwarded {
            q := q.(retransmissions := q.retransmissions + 1);
          }
          sendBuffer := sendBuffer[n := q.(forwarded := true, onTheFly := true)];
          out := Emit(View(), q.packet);
          assert sendBuffer == before.buffer[n := MarkForwarded(before.buffer[n])];
        case Retransmitting =>
          if |sendBuffer| == 0 {
            return InvalidState;
          }
          for i := 0 to |sendBuffer|
            modifies `sendBuffer
            invariant |sendBuffer| == |before.buffer|
            invariant forall j :: 0 <= j < i ==> sendBuffer[j] == before.buffer[j].(onTheFly := false)
            invariant forall j :: i <= j < |before.buffer| ==> sendBuffer[j] == before.buffer[j]
          {
            sendBuffer := sendBuffer[i := sendBuffer[i].(onTheFly := false)];
          }
          assert sendBuffer == Grounded(before.buffer);
          window := window.(threshold := window.cwnd / 2, cwnd := 1, avoidance := SlowStart);
          var q := sendBuffer[0];
          q := q.(forwarded := true, retransmissions := q.retransmissions + 1, onTheFly := true);
          sendBuffer := sendBuffer[0 := q];
          out := Emit(View(), q.packet);
          assert out.sender.buffer == Output(before).sender.buffer;
        case Waiting =>
          out := InvalidState;
      }
    }

    method Dint()
      modifies `myState, `sigma
      ensures View() == Reschedule(old(View()))
    {
      SetNextSigma();
    }
  }
}
