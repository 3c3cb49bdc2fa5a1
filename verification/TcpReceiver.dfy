/** The receiving side: a reordering and de-duplicating buffer per source, and the acknowledger that
    answers every packet with its own sequence number. */
module TcpReceiving {
  import opened Collections
  import opened TcpSending

  datatype Ack = Ack(ros: int, seqNo: int)

  datatype Buffer = Buffer(received: map<int, Packet>, next: int)

  // ---------- Transitions of one buffer ----------

  function Add(b: Buffer, p: Packet): Buffer
  {
    if p.seqNo < b.next || p.seqNo in b.received then b
    else b.(received := b.received[p.seqNo := p])
  }

  function Remove(b: Buffer, p: Packet): Buffer
  {
    b.(received := b.received - {p.seqNo}, next := b.next + 1)
  }

  /** The smallest buffered number is the one expected next. */
  predicate Ready(b: Buffer)
  {
    b.next in b.received && forall k :: k in b.received ==> b.next <= k
  }

  /** Of several packets with one number the first to arrive is kept. */
  lemma FirstCopyStays(b: Buffer, p: Packet, q: Packet)
    requires q.seqNo == p.seqNo
    ensures Add(Add(b, p), q) == Add(b, p)
    ensures p.seqNo >= b.next && p.seqNo !in b.received ==> Add(Add(b, p), q).received[p.seqNo] == p
  {
  }

  // ---------- Transitions of the whole receiver ----------

  function Arrive(m: map<int, Buffer>, p: Packet): map<int, Buffer>
  {
    if p.ros in m then m[p.ros := Add(m[p.ros], p)]
    else m[p.ros := Buffer(map[p.seqNo := p], 0)]
  }

  predicate SomeReady(m: map<int, Buffer>) { exists r :: r in m && Ready(m[r]) }

  /** Buffers are visited by increasing source; the first ready one is served. */
  ghost predicate FirstReady(m: map<int, Buffer>, ros: int)
  {
    ros in m && Ready(m[ros]) && forall r :: r in m && r < ros ==> !Ready(m[r])
  }

  function Serve(m: map<int, Buffer>, ros: int): map<int, Buffer>
    requires ros in m && Ready(m[ros])
  {
    m[ros := Remove(m[ros], m[ros].received[m[ros].next])]
  }

  // Packets are filed under their own source and number.
  ghost predicate WellFiled(m: map<int, Buffer>)
  {
    forall r :: r in m ==> forall k :: k in m[r].received ==> m[r].received[k].ros == r && m[r].received[k].seqNo == k
  }

  ghost predicate Has(m: map<int, Buffer>, ros: int, n: int)
  {
    ros in m && (n < m[ros].next || n in m[ros].received)
  }

  // ---------- The model objects ----------

  class BufferInfo {
    var receivedBuffer: map<int, Packet>
    var nextExpectedSeqNumber: int

    function View(): Buffer
      reads this
    {
      Buffer(receivedBuffer, nextExpectedSeqNumber)
    }

    constructor (packet: Packet)
      ensures View() == Buffer(map[packet.seqNo := packet], 0)
    {
      receivedBuffer := map[packet.seqNo := packet];
      nextExpectedSeqNumber := 0;
    }

    method AddPacket(packet: Packet)
      modifies this
      ensures View() == Add(old(View()), packet)
    {
      if packet.seqNo < nextExpectedSeqNumber {
        return;
      }
      if packet.seqNo in receivedBuffer {
        return;
      }
      receivedBuffer := receivedBuffer[packet.seqNo := packet];
    }

    method RemovePacket(packet: Packet)
      modifies this
      ensures View() == Remove(old(View()), packet)
    {
      receivedBuffer := receivedBuffer - {packet.seqNo};
      nextExpectedSeqNumber := nextExpectedSeqNumber + 1;
    }

    method ShouldSendNextPacket() returns (yes: bool)
      ensures yes <==> Ready(View())
    {
      if receivedBuffer == map[] {
        return false;
      }
      var min := MinimumOf(receivedBuffer.Keys);
      yes := min == nextExpectedSeqNumber;
    }

    method GetNextPacket() returns (packet: Packet)
      requires Ready(View())
      ensures packet == receivedBuffer[nextExpectedSeqNumber]
    {
      packet := receivedBuffer[nextExpectedSeqNumber];
    }
  }

  class TcpReceiverBuffer {
    var buffers: map<int, BufferInfo>
    var armed: bool  // sigma is zero

    ghost predicate Valid()
      reads this, buffers.Values
    {
      && (forall r, r' :: r in buffers && r' in buffers && r != r' ==> buffers[r] != buffers[r'])
      && WellFiled(View())
    }

    function View(): map<int, Buffer>
      reads this, buffers.Values
    {
      map r | r in buffers :: buffers[r].View()
    }

    constructor ()
      ensures Valid() && View() == map[] && !armed
    {
      buffers, armed := map[], false;
    }

    method GetNextPacketToSend() returns (packet: Option<Packet>, ghost ros: int)
      ensures packet.None? <==> !SomeReady(View())
      ensures packet.Some? ==> FirstReady(View(), ros) && packet.value == View()[ros].received[View()[ros].next]
    {
      var rest := buffers.Keys;
      ros := 0;
      while rest != {}
        invariant rest <= buffers.Keys
        invariant forall r, r' :: r in buffers && r !in rest && r' in rest ==> r < r'
        invariant forall r :: r in buffers && r !in rest ==> !Ready(buffers[r].View())
        decreases rest
      {
        var r := MinimumOf(rest);
        rest := rest - {r};
        var ready := buffers[r].ShouldSendNextPacket();
        if ready {
          var p := buffers[r].GetNextPacket();
          ros := r;
          assert View()[ros] == buffers[r].View();
          return Some(p), ros;
        }
      }
      packet := None;
    }

    method SetNextSigma()
      modifies `armed
      ensures armed <==> SomeReady(View())
    {
      var p, _ := GetNextPacketToSend();
      armed := p.Some?;
    }

    method AddPacketToBuffer(packet: Packet)
      requires Valid()
      modifies this, buffers.Values
      ensures Valid() && View() == Arrive(old(View()), packet)
    {
      ghost var was := View();
      if packet.ros !in buffers {
        var info := new BufferInfo(packet);
        buffers := buffers[packet.ros := info];
      } else {
        assert buffers[packet.ros].View() == was[packet.ros];
        buffers[packet.ros].AddPacket(packet);
      }
      forall r | r in buffers ensures buffers[r].View() == Arrive(was, packet)[r] {
        if r != packet.ros { assert buffers[r].View() == was[r]; }
      }
    }

    method Dext(packet: Packet)
      requires Valid()
      modifies this, buffers.Values
      ensures Valid() && View() == Arrive(old(View()), packet)
      ensures armed <==> SomeReady(View())
    {
      AddPacketToBuffer(packet);
      SetNextSigma();
    }

    /** None when there is nothing to forward (the original would dereference a null packet). */
    method Lambda() returns (out: Option<Packet>, ghost ros: int)
      requires Valid()
      modifies buffers.Values
      ensures Valid()
      ensures out.None? <==> !SomeReady(old(View()))
      ensures out.None? ==> View() == old(View())
      ensures out.Some? ==>
        && FirstReady(old(View()), ros)
        && out.value == old(View())[ros].received[old(View())[ros].next]
        && View() == Serve(old(View()), ros)
    {
      out, ros := GetNextPacketToSend();
      if out.Some? {
        ghost var was := View();
        assert out.value.ros == ros && buffers[ros].View() == was[ros];
        buffers[out.value.ros].RemovePacket(out.value);
        forall r | r in buffers ensures buffers[r].View() == Serve(was, ros)[r] {
          if r != ros { assert buffers[r].View() == was[r]; }
        }
      }
    }

    method Dint()
      modifies `armed
      ensures armed <==> SomeReady(View())
    {
      SetNextSigma();
    }
  }

  class TcpAck {
    var packetsToAck: seq<Packet>
    var armed: bool  // sigma is zero

    ghost predicate Valid() reads this { armed <==> packetsToAck != [] }

    constructor ()
      ensures Valid() && packetsToAck == []
    {
      packetsToAck, armed := [], false;
    }

    method Dext(packet: Packet)
      modifies this
      ensures Valid() && packetsToAck == old(packetsToAck) + [packet]
    {
      packetsToAck := packetsToAck + [packet];
      armed := true;
    }

    method Lambda() returns (out: Ack)
      requires packetsToAck != []
      modifies `packetsToAck
      ensures out == Ack(old(packetsToAck)[0].ros, old(packetsToAck)[0].seqNo)
      ensures packetsToAck == old(packetsToAck)[1..]
    {
      var p := packetsToAck[0];
      packetsToAck := packetsToAck[1..];
      out := Ack(p.ros, p.seqNo);
    }

    method Dint()
      modifies `armed
      ensures Valid() && packetsToAck == old(packetsToAck)
    {
      armed := false;
      if |packetsToAck| != 0 {
        armed := true;
      }
    }
  }
}
