/** The whole transport: one sender per source, a network that loses, duplicates and reorders in both
    directions, one acknowledger and one receive buffer shared by all sources. */
module TcpProtocol {
  import opened TcpSending
  import opened TcpReceiving

  datatype System = System(
    senders: map<int, Sender>,
    given: map<int, seq<Packet>>,     // everything handed to each sender, in order
    data: set<Packet>,                // packets the network may still deliver, any number of times
    toAck: seq<Packet>,               // the acknowledger's queue
    acks: set<Ack>,                   // acknowledgements the network may still deliver
    receiver: map<int, Buffer>,
    delivered: seq<Packet>)           // everything the receive buffer has forwarded

  datatype Step =
    | Give(ros: int, packet: Packet)  // the application hands a packet to its sender
    | FireSender(ros: int)            // the sender's alarm goes off
    | Deliver(data: Packet)           // a packet reaches acknowledger and receive buffer
    | EmitAck                         // the acknowledger answers its oldest packet
    | DeliverAck(ack: Ack)
    | Forward(ready: int)             // the receive buffer hands over its next packet
    | LoseData(lost: Packet)
    | LoseAck(lostAck: Ack)

  ghost predicate Enabled(s: System, a: Step)
  {
    match a
    case Give(ros, p) => ros in s.senders && ros in s.given && p.ros == ros
    case FireSender(ros) => ros in s.senders && s.senders[ros].alarm != Never && Fire(s.senders[ros]).Emit?
    case Deliver(p) => p in s.data
    case EmitAck => s.toAck != []
    case DeliverAck(k) => k in s.acks && k.ros in s.senders
    case Forward(ros) => FirstReady(s.receiver, ros)
    case LoseData(p) => p in s.data
    case LoseAck(k) => k in s.acks
  }

  ghost function Apply(s: System, a: Step): System
    requires Enabled(s, a)
  {
    match a
    case Give(ros, p) =>
      s.(senders := s.senders[ros := External(s.senders[ros], Outgoing(p))],
        given := s.given[ros := s.given[ros] + [p]])
    case FireSender(ros) =>
      s.(senders := s.senders[ros := Fire(s.senders[ros]).sender], data := s.data + {Fire(s.senders[ros]).packet})
    case Deliver(p) => s.(toAck := s.toAck + [p], receiver := Arrive(s.receiver, p))
    case EmitAck => s.(toAck := s.toAck[1..], acks := s.acks + {Ack(s.toAck[0].ros, s.toAck[0].seqNo)})
    case DeliverAck(k) => s.(senders := s.senders[k.ros := External(s.senders[k.ros], AckIn(k.seqNo))])
    case Forward(ros) =>
      s.(receiver := Serve(s.receiver, ros),
         delivered := s.delivered + [s.receiver[ros].received[s.receiver[ros].next]])
    case LoseData(p) => s.(data := s.data - {p})
    case LoseAck(k) => s.(acks := s.acks - {k})
  }

  ghost predicate Start(s: System)
  {
    && s.given.Keys == s.senders.Keys
    && (forall r :: r in s.senders ==> Initial(s.senders[r]) && s.given[r] == [])
    && s.data == {} && s.toAck == [] && s.acks == {} && s.receiver == map[] && s.delivered == []
  }

  /** `t` is reached from `s` by the steps of `run`, each enabled when it is taken. */
  ghost predicate Run(s: System, run: seq<Step>, t: System)
    decreases run
  {
    if run == [] then s == t
    else Enabled(s, run[0]) && Run(Apply(s, run[0]), run[1..], t)
  }

  // ---------- The invariant ----------

  // The packet with number n that source r's sender puts on the wire.
  function OnWire(given: seq<Packet>, n: nat): Packet
    requires n < |given|
  {
    given[n].(seqNo := n)
  }

  ghost predicate Genuine(given: map<int, seq<Packet>>, p: Packet)
  {
    p.ros in given && 0 <= p.seqNo < |given[p.ros]| && p == OnWire(given[p.ros], p.seqNo)
  }

  ghost predicate Contents(s: Sender, given: seq<Packet>, ros: int)
  {
    && s.lastSeq == |given|
    && (forall i :: 0 <= i < |given| ==> given[i].ros == ros)
    && |s.buffer| <= |given|
    && (forall i :: 0 <= i < |s.buffer| ==> s.buffer[i].packet == OnWire(given, Base(s) + i))
  }

  ghost predicate SendersAgree(senders: map<int, Sender>, given: map<int, seq<Packet>>)
  {
    && given.Keys == senders.Keys
    && (forall r :: r in senders ==> SenderInv(senders[r]))
    && (forall r :: r in senders ==> Contents(senders[r], given[r], r))
  }

  ghost predicate WireGenuine(data: set<Packet>, given: map<int, seq<Packet>>)
  {
    forall p :: p in data ==> Genuine(given, p)
  }

  ghost predicate QueueHeld(toAck: seq<Packet>, given: map<int, seq<Packet>>, receiver: map<int, Buffer>)
  {
    forall i :: 0 <= i < |toAck| ==> Genuine(given, toAck[i]) && Has(receiver, toAck[i].ros, toAck[i].seqNo)
  }

  ghost predicate AcksHeld(acks: set<Ack>, given: map<int, seq<Packet>>, receiver: map<int, Buffer>)
  {
    forall k :: k in acks ==> k.ros in given && Has(receiver, k.ros, k.seqNo)
  }

  ghost predicate BufferAgrees(b: Buffer, given: seq<Packet>)
  {
    && 0 <= b.next <= |given|
    && forall k :: k in b.received ==> b.next <= k < |given| && b.received[k] == OnWire(given, k)
  }

  ghost predicate BuffersAgree(receiver: map<int, Buffer>, given: map<int, seq<Packet>>)
  {
    forall r :: r in receiver ==> r in given && BufferAgrees(receiver[r], given[r])
  }

  ghost predicate DroppedHeld(senders: map<int, Sender>, receiver: map<int, Buffer>)
  {
    forall r, n: nat :: r in senders && n < Base(senders[r]) ==> Has(receiver, r, n)
  }

  /** The packets of one source in a mixed stream. */
  function Of(stream: seq<Packet>, ros: int): seq<Packet>
  {
    if stream == [] then []
    else Of(stream[..|stream| - 1], ros) +
         (if stream[|stream| - 1].ros == ros then [stream[|stream| - 1]] else [])
  }

  function FirstNumbered(given: seq<Packet>, n: nat): seq<Packet>
    requires n <= |given|
  {
    seq(n, i requires 0 <= i < n => OnWire(given, i))
  }

  function NextOf(receiver: map<int, Buffer>, ros: int): int
  {
    if ros in receiver then receiver[ros].next else 0
  }

  ghost predicate InOrder(delivered: seq<Packet>, given: map<int, seq<Packet>>, receiver: map<int, Buffer>)
  {
    forall r :: r in given ==>
      0 <= NextOf(receiver, r) <= |given[r]| && Of(delivered, r) == FirstNumbered(given[r], NextOf(receiver, r))
  }

  ghost predicate Inv(s: System)
  {
    && SendersAgree(s.senders, s.given)
    && WireGenuine(s.data, s.given)
    && QueueHeld(s.toAck, s.given, s.receiver)
    && AcksHeld(s.acks, s.given, s.receiver)
    && BuffersAgree(s.receiver, s.given)
    && DroppedHeld(s.senders, s.receiver)
    && InOrder(s.delivered, s.given, s.receiver)
  }

  lemma StartInv(s: System)
    requires Start(s)
    ensures Inv(s)
  {
    forall r | r in s.senders ensures SenderInv(s.senders[r]) && Contents(s.senders[r], s.given[r], r) {
      LayersUnique(s.senders[r].buffer, 0, 0);
    }
  }

  // -- A packet handed over: what was given only grows.

  ghost predicate Grows(given: map<int, seq<Packet>>, given': map<int, seq<Packet>>)
  {
    given'.Keys == given.Keys && forall r :: r in given ==> given[r] <= given'[r]
  }

  lemma GrowthKeeps(s: System, given': map<int, seq<Packet>>)
    requires Grows(s.given, given')
    requires WireGenuine(s.data, s.given) && QueueHeld(s.toAck, s.given, s.receiver)
    requires BuffersAgree(s.receiver, s.given) && InOrder(s.delivered, s.given, s.receiver)
    ensures WireGenuine(s.data, given') && QueueHeld(s.toAck, given', s.receiver)
    ensures BuffersAgree(s.receiver, given') && InOrder(s.delivered, given', s.receiver)
  {
    forall r | r in given' ensures Of(s.delivered, r) == FirstNumbered(given'[r], NextOf(s.receiver, r)) {
      assert FirstNumbered(given'[r], NextOf(s.receiver, r)) == FirstNumbered(s.given[r], NextOf(s.receiver, r));
    }
  }

  lemma GiveContents(s: Sender, given: seq<Packet>, ros: int, p: Packet)
    requires Contents(s, given, ros) && p.ros == ros
    ensures Contents(External(s, Outgoing(p)), given + [p], ros)
    ensures Base(External(s, Outgoing(p))) == Base(s)
  {
  }

  lemma GiveInv(s: System, ros: int, p: Packet)
    requires Inv(s) && Enabled(s, Give(ros, p))
    ensures Inv(Apply(s, Give(ros, p)))
  {
    hide SenderInv, Contents, External;
    ExternalKeepsInv(s.senders[ros], Outgoing(p));
    GiveContents(s.senders[ros], s.given[ros], ros, p);
    GrowthKeeps(s, s.given[ros := s.given[ros] + [p]]);
  }

  // -- A packet sent: it is one of the buffer's.

  lemma FireContents(s: Sender, given: map<int, seq<Packet>>, ros: int)
    requires ros in given && SenderInv(s) && Contents(s, given[ros], ros) && s.alarm != Never
    ensures Fire(s).Emit? && SenderInv(Fire(s).sender) && Contents(Fire(s).sender, given[ros], ros)
    ensures Base(Fire(s).sender) == Base(s) && Genuine(given, Fire(s).packet)
  {
    hide SenderInv, Fire, FirstIdle;
    FireKeepsInv(s);
    FireBuffer(s);
    assert given[ros][Base(s) + Chosen(s)].ros == ros;
  }

  lemma FireInv(s: System, ros: int)
    requires Inv(s) && Enabled(s, FireSender(ros))
    ensures Inv(Apply(s, FireSender(ros)))
  {
    hide SenderInv, Contents, Fire;
    FireContents(s.senders[ros], s.given, ros);
  }

  // -- A packet received: what the receiver has only grows.

  ghost predicate HasMore(m: map<int, Buffer>, m': map<int, Buffer>)
  {
    forall r, n :: Has(m, r, n) ==> Has(m', r, n)
  }

  lemma HoldsMore(s: System, m: map<int, Buffer>)
    requires HasMore(s.receiver, m)
    requires QueueHeld(s.toAck, s.given, s.receiver) && AcksHeld(s.acks, s.given, s.receiver)
    requires DroppedHeld(s.senders, s.receiver)
    ensures QueueHeld(s.toAck, s.given, m) && AcksHeld(s.acks, s.given, m) && DroppedHeld(s.senders, m)
  {
  }

  lemma ArriveKeeps(s: System, p: Packet)
    requires Genuine(s.given, p) && BuffersAgree(s.receiver, s.given) && InOrder(s.delivered, s.given, s.receiver)
    ensures var m := Arrive(s.receiver, p);
      HasMore(s.receiver, m) && Has(m, p.ros, p.seqNo) && BuffersAgree(m, s.given) && InOrder(s.delivered, s.given, m)
  {
    assert forall r :: NextOf(Arrive(s.receiver, p), r) == NextOf(s.receiver, r);
  }

  lemma DeliverInv(s: System, p: Packet)
    requires Inv(s) && Enabled(s, Deliver(p))
    ensures Inv(Apply(s, Deliver(p)))
  {
    hide Genuine, Has, BuffersAgree, InOrder, AcksHeld, DroppedHeld, SendersAgree, HasMore, Arrive;
    ArriveKeeps(s, p);
    HoldsMore(s, Arrive(s.receiver, p));
  }

  // -- An acknowledgement accepted: the sender drops exactly the packet it names.

  lemma AckContents(s: Sender, given: seq<Packet>, ros: int, ack: int)
    requires SenderInv(s) && Contents(s, given, ros)
    ensures var t := External(s, AckIn(ack));
      SenderInv(t) && Contents(t, given, ros) && (t == s || (Base(s) == ack && Base(t) == ack + 1))
  {
    ExternalKeepsInv(s, AckIn(ack));
  }

  lemma AckInv(s: System, k: Ack)
    requires Inv(s) && Enabled(s, DeliverAck(k))
    ensures Inv(Apply(s, DeliverAck(k)))
  {
    hide SenderInv, Contents, External;
    AckContents(s.senders[k.ros], s.given[k.ros], k.ros, k.seqNo);
  }

  // -- A packet forwarded: the next one of its source.

  lemma OfAppend(stream: seq<Packet>, p: Packet, ros: int)
    ensures Of(stream + [p], ros) == Of(stream, ros) + (if p.ros == ros then [p] else [])
  {
    assert (stream + [p])[..|stream|] == stream;
  }

  lemma ServeMonotone(m: map<int, Buffer>, ros: int)
    requires ros in m && Ready(m[ros]) && m[ros].received[m[ros].next].seqNo == m[ros].next
    ensures HasMore(m, Serve(m, ros))
  {
  }

  lemma RemoveAgrees(b: Buffer, given: seq<Packet>)
    requires BufferAgrees(b, given) && Ready(b)
    ensures b.received[b.next] == OnWire(given, b.next)
    ensures BufferAgrees(Remove(b, b.received[b.next]), given)
  {
  }

  lemma ServeAgrees(m: map<int, Buffer>, given: map<int, seq<Packet>>, ros: int)
    requires BuffersAgree(m, given) && ros in m && Ready(m[ros])
    ensures BuffersAgree(Serve(m, ros), given)
    ensures m[ros].received[m[ros].next] == OnWire(given[ros], m[ros].next)
  {
    RemoveAgrees(m[ros], given[ros]);
  }

  lemma ServeKeeps(s: System, ros: int)
    requires BuffersAgree(s.receiver, s.given) && FirstReady(s.receiver, ros)
    requires s.receiver[ros].received[s.receiver[ros].next].ros == ros
    requires InOrder(s.delivered, s.given, s.receiver)
    ensures InOrder(s.delivered + [s.receiver[ros].received[s.receiver[ros].next]], s.given, Serve(s.receiver, ros))
  {
    var m, n := Serve(s.receiver, ros), s.receiver[ros].next;
    var p := s.receiver[ros].received[n];
    RemoveAgrees(s.receiver[ros], s.given[ros]);
    forall r | r in s.given
      ensures 0 <= NextOf(m, r) <= |s.given[r]| && Of(s.delivered + [p], r) == FirstNumbered(s.given[r], NextOf(m, r))
    {
      OfAppend(s.delivered, p, r);
      if r == ros { assert FirstNumbered(s.given[r], n + 1) == FirstNumbered(s.given[r], n) + [p]; }
    }
  }

  lemma SourceOf(s: System, ros: int, n: int)
    requires SendersAgree(s.senders, s.given) && ros in s.given && 0 <= n < |s.given[ros]|
    ensures OnWire(s.given[ros], n).ros == ros
  {
    assert Contents(s.senders[ros], s.given[ros], ros);
  }

  lemma ForwardInv(s: System, ros: int)
    requires Inv(s) && Enabled(s, Forward(ros))
    ensures Inv(Apply(s, Forward(ros)))
  {
    ServeAgrees(s.receiver, s.given, ros);
    SourceOf(s, ros, s.receiver[ros].next);
    ServeKeeps(s, ros);
    ServeMonotone(s.receiver, ros);
    HoldsMore(s, Serve(s.receiver, ros));
  }

  // -- The acknowledger answers, and the network loses.

  lemma EmitAckInv(s: System)
    requires Inv(s) && Enabled(s, EmitAck)
    ensures Inv(Apply(s, EmitAck))
  {
    hide Genuine, Has, BuffersAgree, InOrder, DroppedHeld, SendersAgree, WireGenuine;
    assert Genuine(s.given, s.toAck[0]) && s.toAck[0].ros in s.given by { GenuineSource(s.given, s.toAck[0]); }
  }

  lemma GenuineSource(given: map<int, seq<Packet>>, p: Packet)
    ensures Genuine(given, p) ==> p.ros in given
  {
  }

  lemma LossInv(s: System, data: set<Packet>, acks: set<Ack>)
    requires Inv(s) && data <= s.data && acks <= s.acks
    ensures Inv(s.(data := data, acks := acks))
  {
    hide Genuine, Has, BuffersAgree, InOrder, DroppedHeld, SendersAgree, QueueHeld;
  }

  lemma StepInv(s: System, a: Step)
    requires Inv(s) && Enabled(s, a)
    ensures Inv(Apply(s, a))
  {
    hide Inv, External, Fire, Arrive, Serve;
    match a
    case Give(ros, p) => GiveInv(s, ros, p);
    case FireSender(ros) => FireInv(s, ros);
    case Deliver(p) => DeliverInv(s, p);
    case EmitAck => EmitAckInv(s);
    case DeliverAck(k) => AckInv(s, k);
    case Forward(ros) => ForwardInv(s, ros);
    case LoseData(p) => LossInv(s, s.data - {p}, s.acks);
    case LoseAck(k) => LossInv(s, s.data, s.acks - {k});
  }

  lemma {:induction false} RunInv(s: System, run: seq<Step>, t: System)
    requires Inv(s) && Run(s, run, t)
    ensures Inv(t)
    decreases run
  {
    if run != [] {
      StepInv(s, run[0]);
      RunInv(Apply(s, run[0]), run[1..], t);
    }
  }

  // ---------- Safety ----------

  // Packet n of a source waits in the receive buffer, as it was given.
  ghost predicate Waiting(s: System, ros: int, n: nat)
  {
    && ros in s.receiver && n in s.receiver[ros].received
    && ros in s.given && n < |s.given[ros]| && s.receiver[ros].received[n] == OnWire(s.given[ros], n)
  }

  lemma OutIsPrefix(t: System, ros: int)
    requires Inv(t) && ros in t.given
    ensures Of(t.delivered, ros) <= FirstNumbered(t.given[ros], |t.given[ros]|)
    ensures |Of(t.delivered, ros)| == NextOf(t.receiver, ros)
  {
    hide Of, SendersAgree, QueueHeld, AcksHeld, BuffersAgree, DroppedHeld, WireGenuine;
  }

  lemma DroppedWaits(t: System, ros: int, n: nat)
    requires Inv(t) && ros in t.senders && NextOf(t.receiver, ros) <= n < Base(t.senders[ros])
    ensures Waiting(t, ros, n)
  {
    hide Of, QueueHeld, AcksHeld, InOrder, WireGenuine, SenderInv, Contents;
    assert Has(t.receiver, ros, n);
  }

  /** Whatever the network does, each source's packets come out as the packets that went in: a prefix,
      in order, once each, numbered 0, 1, 2, ...; and what its sender has dropped is at the receiver. */
  lemma ReliableDelivery(s: System, run: seq<Step>, t: System, ros: int)
    requires Start(s) && Run(s, run, t) && ros in t.senders
    ensures ros in t.given && Of(t.delivered, ros) <= FirstNumbered(t.given[ros], |t.given[ros]|)
    ensures forall n: nat :: |Of(t.delivered, ros)| <= n < Base(t.senders[ros]) ==> Waiting(t, ros, n)
    ensures SenderInv(t.senders[ros])
  {
    SenderOf(s, run, t, ros);
    hide Inv, SenderInv, Run, Of, Waiting;
    StartInv(s);
    RunInv(s, run, t);
    OutIsPrefix(t, ros);
    forall n: nat | |Of(t.delivered, ros)| <= n < Base(t.senders[ros]) ensures Waiting(t, ros, n) {
      DroppedWaits(t, ros, n);
    }
  }

  lemma SenderOf(s: System, run: seq<Step>, t: System, ros: int)
    requires Start(s) && Run(s, run, t) && ros in t.senders
    ensures ros in t.given && SenderInv(t.senders[ros])
  {
    StartInv(s);
    RunInv(s, run, t);
    hide SenderInv, Contents, Run, QueueHeld, AcksHeld, InOrder, WireGenuine, BuffersAgree, DroppedHeld;
  }

  /** In every reachable state of the whole protocol every sender's buffer is in shape. */
  lemma SenderShape(s: System, run: seq<Step>, t: System, ros: int)
    requires Start(s) && Run(s, run, t) && ros in t.senders
    ensures Shaped(t.senders[ros])
  {
    hide *;
    SenderOf(s, run, t, ros);
    InvShapes(t.senders[ros]);
  }
}
