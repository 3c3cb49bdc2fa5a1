/** A network that cooperates from now on always drains the protocol: from every reachable state,
    whatever was lost before, some run without further losses delivers everything that was given. */
module TcpLiveness {
  import opened Collections
  import opened TcpSending
  import opened TcpReceiving
  import opened TcpProtocol

  // No losses, and nothing new from the application.
  predicate Cooperative(run: seq<Step>)
  {
    forall i :: 0 <= i < |run| ==> !run[i].Give? && !run[i].LoseData? && !run[i].LoseAck?
  }

  lemma {:induction false} Append(s: System, first: seq<Step>, t: System, second: seq<Step>, u: System)
    requires Run(s, first, t) && Run(t, second, u)
    ensures Run(s, first + second, u)
    decreases first
  {
    if first == [] {
      assert first + second == second;
    } else {
      Append(Apply(s, first[0]), first[1..], t, second, u);
      assert (first + second)[1..] == first[1..] + second;
    }
  }

  lemma Here(s: System)
    ensures Run(s, [], s)
  {
  }

  lemma One(s: System, a: Step)
    requires Inv(s) && Enabled(s, a)
    ensures Run(s, [a], Apply(s, a)) && Inv(Apply(s, a))
  {
    StepInv(s, a);
    assert Run(Apply(s, a), [a][1..], Apply(s, a));
  }

  // The parts of the state that a run for one source leaves alone.
  ghost predicate SameElsewhere(s: System, t: System, ros: int)
  {
    && t.given == s.given && t.senders.Keys == s.senders.Keys
    && forall r :: r in s.senders && r != ros ==> t.senders[r] == s.senders[r]
  }

  // ---------- One packet ----------

  lemma FireFromFront(s: Sender, given: map<int, seq<Packet>>, ros: int)
    requires ros in given && SenderInv(s) && Contents(s, given[ros], ros) && s.buffer != []
    ensures s.alarm != Never && Fire(s).Emit?
    ensures var t := Fire(s).sender;
      && |t.buffer| == |s.buffer| && Base(t) == Base(s)
      && (Chosen(s) == 0 ==> Fire(s).packet == OnWire(given[ros], Base(s)) && t.buffer[0].forwarded)
      && (Chosen(s) != 0 ==> FirstIdle(t.buffer) == FirstIdle(s.buffer) + 1)
  {
    FireContents(s, given, ros);
    FireKeepsInv(s);
    FireBuffer(s);
    if Chosen(s) != 0 { FirstIdleAt(Fire(s).sender.buffer, FirstIdle(s.buffer) + 1); }
  }

  lemma InvAt(s: System, ros: int)
    requires Inv(s) && ros in s.senders
    ensures ros in s.given && SenderInv(s.senders[ros]) && Contents(s.senders[ros], s.given[ros], ros)
    ensures 0 <= Base(s.senders[ros]) <= |s.given[ros]|
    ensures s.senders[ros].buffer != [] ==> Base(s.senders[ros]) < |s.given[ros]|
    ensures forall i :: 0 <= i < |s.senders[ros].buffer| ==>
      s.senders[ros].buffer[i].packet.seqNo == Base(s.senders[ros]) + i && !s.senders[ros].buffer[i].ackReceived
  {
  }

  /** The sender gets to its oldest packet: it fills the window, then the timeout resends the front. */
  lemma {:induction false} ResendFront(s: System, ros: int) returns (run: seq<Step>, t: System)
    requires Inv(s) && ros in s.senders && s.senders[ros].buffer != []
    ensures Run(s, run, t) && Cooperative(run) && Inv(t) && SameElsewhere(s, t, ros)
    ensures |run| <= |s.senders[ros].buffer| - FirstIdle(s.senders[ros].buffer) + 1
    ensures t.toAck == s.toAck && |t.senders[ros].buffer| == |s.senders[ros].buffer|
    ensures Base(t.senders[ros]) == Base(s.senders[ros]) && t.senders[ros].buffer[0].forwarded
    ensures Base(s.senders[ros]) >= 0 && Base(s.senders[ros]) < |s.given[ros]|
    ensures OnWire(s.given[ros], Base(s.senders[ros])) in t.data
    decreases if ros in s.senders then |s.senders[ros].buffer| - FirstIdle(s.senders[ros].buffer) else 0
  {
    hide Inv, SenderInv, Contents, Run, Fire, FirstIdle;
    InvAt(s, ros);
    var x := s.senders[ros];
    FireFromFront(x, s.given, ros);
    var u := Apply(s, FireSender(ros));
    One(s, FireSender(ros));
    run, t := [FireSender(ros)], u;
    if Chosen(x) != 0 {
      var rest;
      rest, t := ResendFront(u, ros);
      Append(s, run, u, rest, t);
      run := run + rest;
    }
  }

  lemma {:induction false} AnswerAll(s: System) returns (run: seq<Step>, t: System)
    requires Inv(s)
    ensures Run(s, run, t) && Cooperative(run) && Inv(t) && |run| == |s.toAck|
    ensures t.senders == s.senders && t.given == s.given && t.toAck == []
    ensures forall i :: 0 <= i < |s.toAck| ==> Ack(s.toAck[i].ros, s.toAck[i].seqNo) in t.acks
    ensures s.acks <= t.acks
    decreases |s.toAck|
  {
    hide Inv, Run, Fire, External;
    Here(s);
    run, t := [], s;
    if s.toAck != [] {
      var u := Apply(s, EmitAck);
      One(s, EmitAck);
      var rest;
      rest, t := AnswerAll(u);
      Append(s, [EmitAck], u, rest, t);
      run := [EmitAck] + rest;
      forall i | 0 <= i < |s.toAck| ensures Ack(s.toAck[i].ros, s.toAck[i].seqNo) in t.acks {
        if i > 0 { assert s.toAck[i] == u.toAck[i - 1]; }
      }
    }
  }

  lemma AcceptFront(s: System, ros: int)
    requires Inv(s) && ros in s.senders && s.senders[ros].buffer != [] && s.senders[ros].buffer[0].forwarded
    requires Ack(ros, Base(s.senders[ros])) in s.acks
    ensures var a := DeliverAck(Ack(ros, Base(s.senders[ros])));
      && Enabled(s, a) && Run(s, [a], Apply(s, a)) && Inv(Apply(s, a)) && SameElsewhere(s, Apply(s, a), ros)
      && |Apply(s, a).senders[ros].buffer| == |s.senders[ros].buffer| - 1
  {
    hide Inv, SenderInv, FirstIdle, Unacked;
    InvAt(s, ros);
    One(s, DeliverAck(Ack(ros, Base(s.senders[ros]))));
    assert FindMatch(s.senders[ros].buffer, Base(s.senders[ros])) == 0;
  }

  // The oldest packet is on the wire: delivering it and all answers shortens the buffer.
  lemma DeliverFront(s: System, ros: int) returns (run: seq<Step>, t: System)
    requires Inv(s) && ros in s.senders && s.senders[ros].buffer != [] && s.senders[ros].buffer[0].forwarded
    requires ros in s.given && 0 <= Base(s.senders[ros]) < |s.given[ros]|
    requires OnWire(s.given[ros], Base(s.senders[ros])) in s.data
    ensures Run(s, run, t) && Cooperative(run) && Inv(t) && SameElsewhere(s, t, ros)
    ensures |t.senders[ros].buffer| == |s.senders[ros].buffer| - 1
    ensures |run| == |s.toAck| + 3
  {
    hide Inv, Run, Fire, External;
    InvAt(s, ros);
    var p := OnWire(s.given[ros], Base(s.senders[ros]));
    assert s.given[ros][p.seqNo].ros == ros;
    One(s, Deliver(p));
    var u := Apply(s, Deliver(p));
    var r, v := AnswerAll(u);
    assert u.toAck[|u.toAck| - 1] == p;
    AcceptFront(v, ros);
    var a := DeliverAck(Ack(ros, Base(v.senders[ros])));
    t := Apply(v, a);
    Append(s, [Deliver(p)], u, r, v);
    Append(s, [Deliver(p)] + r, v, [a], t);
    run := [Deliver(p)] + r + [a];
  }

  /** From any state, even one where the network has lost all it held, a bounded run without losses
      makes a waiting sender drop its oldest packet. */
  lemma AdvanceOne(s: System, ros: int) returns (run: seq<Step>, t: System)
    requires Inv(s) && ros in s.senders && s.senders[ros].buffer != []
    ensures Run(s, run, t) && Cooperative(run) && Inv(t) && SameElsewhere(s, t, ros)
    ensures |t.senders[ros].buffer| == |s.senders[ros].buffer| - 1
    ensures |run| <= |s.senders[ros].buffer| + |s.toAck| + 4
  {
    hide Inv, Run, Fire, External;
    InvAt(s, ros);
    var first, u := ResendFront(s, ros);
    var rest;
    rest, t := DeliverFront(u, ros);
    Append(s, first, u, rest, t);
    run := first + rest;
  }

  lemma FrontIdle(s: Sender)
    requires SenderInv(s) && s.buffer != []
    ensures if s.buffer[0].onTheFly then s.buffer[0].forwarded else Chosen(s) == 0
  {
  }

  /** The window does not matter where the oldest packet is not lost: when it is on the wire, or not in
      the air so that it is the next to go, one firing at most, one delivery, the answers and one
      acknowledgement are enough. */
  lemma AdvanceSoon(s: System, ros: int) returns (run: seq<Step>, t: System)
    requires Inv(s) && ros in s.senders && s.senders[ros].buffer != []
    requires s.senders[ros].buffer[0].onTheFly ==>
      ros in s.given && 0 <= Base(s.senders[ros]) < |s.given[ros]| &&
      OnWire(s.given[ros], Base(s.senders[ros])) in s.data
    ensures Run(s, run, t) && Cooperative(run) && Inv(t) && SameElsewhere(s, t, ros)
    ensures |t.senders[ros].buffer| == |s.senders[ros].buffer| - 1
    ensures |run| == |s.toAck| + if s.senders[ros].buffer[0].onTheFly then 3 else 4
  {
    hide Inv, SenderInv, Contents, Run, Fire, External, Chosen;
    InvAt(s, ros);
    FrontIdle(s.senders[ros]);
    if s.senders[ros].buffer[0].onTheFly {
      run, t := DeliverFront(s, ros);
    } else {
      FireFromFront(s.senders[ros], s.given, ros);
      One(s, FireSender(ros));
      var u := Apply(s, FireSender(ros));
      var rest;
      rest, t := DeliverFront(u, ros);
      Append(s, [FireSender(ros)], u, rest, t);
      run := [FireSender(ros)] + rest;
    }
  }

  // ---------- Everything ----------

  lemma {:induction false} DrainSender(s: System, ros: int) returns (run: seq<Step>, t: System)
    requires Inv(s) && ros in s.senders
    ensures Run(s, run, t) && Cooperative(run) && Inv(t) && SameElsewhere(s, t, ros)
    ensures t.senders[ros].buffer == []
    decreases if ros in s.senders then |s.senders[ros].buffer| else 0
  {
    hide Inv, Run, Fire, External;
    Here(s);
    run, t := [], s;
    if s.senders[ros].buffer != [] {
      var u;
      run, u := AdvanceOne(s, ros);
      var rest;
      rest, t := DrainSender(u, ros);
      Append(s, run, u, rest, t);
      run := run + rest;
    }
  }

  lemma {:induction false} DrainAll(s: System, todo: set<int>) returns (run: seq<Step>, t: System)
    requires Inv(s) && todo <= s.senders.Keys
    requires forall r :: r in s.senders && r !in todo ==> s.senders[r].buffer == []
    ensures Run(s, run, t) && Cooperative(run) && Inv(t) && t.given == s.given && t.senders.Keys == s.senders.Keys
    ensures forall r :: r in t.senders ==> t.senders[r].buffer == []
    decreases todo
  {
    hide Inv, Run, Fire, External;
    Here(s);
    run, t := [], s;
    if todo != {} {
      var ros := Witness(todo);
      var u;
      run, u := DrainSender(s, ros);
      var rest;
      rest, t := DrainAll(u, todo - {ros});
      Append(s, run, u, rest, t);
      run := run + rest;
    }
  }

  lemma {:induction false} LeastReady(m: map<int, Buffer>, among: set<int>) returns (ros: int)
    requires among != {} && forall r :: r in among <==> r in m && Ready(m[r])
    ensures FirstReady(m, ros)
  {
    ros := Witness(among);
    var below := set r | r in among && r < ros;
    while below != {}
      invariant ros in among && below == set r | r in among && r < ros
      decreases below
    {
      ros := Witness(below);
      below := set r | r in among && r < ros;
    }
    forall r | r in m && r < ros ensures !Ready(m[r]) { assert r !in below; }
  }

  ghost function Stored(m: map<int, Buffer>): set<(int, int)>
  {
    set r, k | r in m && k in m[r].received :: (r, k)
  }

  lemma StoredShrinks(m: map<int, Buffer>, ros: int)
    requires ros in m && Ready(m[ros]) && m[ros].received[m[ros].next].seqNo == m[ros].next
    ensures Stored(Serve(m, ros)) < Stored(m)
  {
    var t, x := Serve(m, ros), (ros, m[ros].next);
    assert x in Stored(m) && x !in Stored(t);
    forall y | y in Stored(t) ensures y in Stored(m) {
      if y.0 != ros { assert t[y.0] == m[y.0]; }
    }
  }

  lemma NextIsNumbered(s: System, ros: int)
    requires Inv(s) && ros in s.receiver && Ready(s.receiver[ros])
    ensures s.receiver[ros].received[s.receiver[ros].next].seqNo == s.receiver[ros].next
  {
    hide SendersAgree, QueueHeld, AcksHeld, InOrder, WireGenuine, DroppedHeld;
    ServeAgrees(s.receiver, s.given, ros);
  }

  lemma {:induction false} ForwardAll(s: System) returns (run: seq<Step>, t: System)
    requires Inv(s)
    ensures Run(s, run, t) && Cooperative(run) && Inv(t)
    ensures t.given == s.given && t.senders == s.senders
    ensures forall r :: r in t.receiver ==> !Ready(t.receiver[r])
    decreases Stored(s.receiver)
  {
    hide Inv, Run, Stored;
    run, t := [], s;
    Here(s);
    var among := set r | r in s.receiver && Ready(s.receiver[r]);
    if among == {} {
      forall r | r in t.receiver ensures !Ready(t.receiver[r]) { assert r !in among; }
    } else {
      var ros := LeastReady(s.receiver, among);
      One(s, Forward(ros));
      NextIsNumbered(s, ros);
      StoredShrinks(s.receiver, ros);
      var u := Apply(s, Forward(ros));
      var rest;
      rest, t := ForwardAll(u);
      Append(s, [Forward(ros)], u, rest, t);
      run := [Forward(ros)] + rest;
    }
  }

  lemma AllOut(s: System, ros: int)
    requires Inv(s) && ros in s.given && forall r :: r in s.senders ==> s.senders[r].buffer == []
    requires forall r :: r in s.receiver ==> !Ready(s.receiver[r])
    ensures Of(s.delivered, ros) == FirstNumbered(s.given[ros], |s.given[ros]|)
  {
    hide Of, QueueHeld, AcksHeld, WireGenuine, SenderInv;
    var n := NextOf(s.receiver, ros);
    assert Base(s.senders[ros]) == |s.given[ros]|;
    assert n < |s.given[ros]| ==> Has(s.receiver, ros, n);
  }

  /** From every reachable state some run without losses empties every sender and brings out all that
      was given, for every source. */
  lemma AlwaysDrains(start: System, past: seq<Step>, s: System) returns (run: seq<Step>, t: System)
    requires Start(start) && Run(start, past, s)
    ensures Run(s, run, t) && Cooperative(run) && t.given == s.given
    ensures forall r :: r in t.senders ==> t.senders[r].buffer == []
    ensures forall r :: r in t.given ==> Of(t.delivered, r) == FirstNumbered(t.given[r], |t.given[r]|)
  {
    hide Inv, Run, Start;
    StartInv(start);
    RunInv(start, past, s);
    var r1, u := DrainAll(s, s.senders.Keys);
    var r2;
    r2, t := ForwardAll(u);
    Append(s, r1, u, r2, t);
    run := r1 + r2;
    forall r | r in t.given ensures Of(t.delivered, r) == FirstNumbered(t.given[r], |t.given[r]|) { AllOut(t, r); }
  }
}
