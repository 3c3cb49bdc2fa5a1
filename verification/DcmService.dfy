/** Whole runs of the data collection manager: who sends when, what each request carries, and when credits
    are no limit. */
module DcmService {
  import opened Collections
  import opened DataCollection

  // ---------- First served, first sent ----------

  /** The sessions an event hands credits to, in order. */
  function Grants(c: Layout, ev: Event): seq<nat>
  {
    match ev
    case In(Request(_, robs, _), order) => if Known(c, robs) then order else []
    case In(Ticket, order) => order
    case _ => []
  }

  function AllGrants(c: Layout, events: seq<Event>): seq<nat>
  {
    if events == [] then [] else AllGrants(c, events[..|events| - 1]) + Grants(c, Last(events))
  }

  // The sessions that sent, in order.
  ghost function Senders(states: seq<Dcm>, events: seq<Event>): seq<nat>
    requires |states| == |events| + 1
    decreases |events|
  {
    if events == [] then []
    else
      var n := |events| - 1;
      Senders(states[..n + 1], events[..n]) +
      if events[n].Send? && states[n].outQueue != [] then [states[n].outQueue[0]] else []
  }

  lemma {:induction false} GiveAllQueues(s: Dcm, order: seq<nat>)
    requires CanGive(s, order)
    ensures GiveAll(s, order).outQueue == s.outQueue + order
    decreases order
  {
    if order != [] {
      GiveAllQueues(Give(s, order[0]), order[1..]);
      assert s.outQueue + [order[0]] + order[1..] == s.outQueue + order;
    }
  }

  lemma FetchQueues(c: Layout, s: Dcm, eventId: int, robs: seq<int>, puId: int)
    requires |s.sessions| == |c.ros|
    ensures var f := Fetch(c, s, eventId, robs, puId); |f.sessions| == |c.ros| && f.outQueue == s.outQueue
  {
  }

  lemma StepQueues(c: Layout, s: Dcm, ev: Event, s': Dcm)
    requires |s.sessions| == |c.ros| && Step(c, s, ev, s')
    ensures ev.Send? ==> s.outQueue != [] && s.outQueue == [s.outQueue[0]] + s'.outQueue
    ensures ev.In? ==> s'.outQueue == s.outQueue + Grants(c, ev)
  {
    hide Fetch, GiveAll, CanGive, NoneFits;
    match ev
    case Send =>
    case In(Request(eventId, robs, puId), order) =>
      if Known(c, robs) {
        FetchQueues(c, s, eventId, robs, puId);
        GiveAllQueues(Fetch(c, s, eventId, robs, puId), order);
      } else {
        assert s.outQueue + [] == s.outQueue;
      }
    case In(Ticket, order) => GiveAllQueues(s.(available := s.available + 1), order);
    case _ => assert s.outQueue + [] == s.outQueue;
  }

  /** Sessions send in the order in which they were given credits, once for each time. */
  lemma {:induction false} SentAsServed(c: Layout, credits: int, states: seq<Dcm>, events: seq<Event>)
    requires Trace(c, credits, states, events)
    ensures AllGrants(c, events) == Senders(states, events) + Last(states).outQueue
    decreases |events|
  {
    if events != [] {
      var n := |events| - 1;
      assert Last(states[..n + 1]) == states[n];
      SentAsServed(c, credits, states[..n + 1], events[..n]);
      StepQueues(c, states[n], events[n], states[n + 1]);
      hide Step, Trace, AllGrants;
      Queued(Senders(states[..n + 1], events[..n]), states[n].outQueue, states[n + 1].outQueue, Grants(c, events[n]));
      assert AllGrants(c, events) == AllGrants(c, events[..n]) + Grants(c, events[n]) by { GrantsUnfold(c, events); }
    }
  }

  lemma GrantsUnfold(c: Layout, events: seq<Event>)
    requires events != []
    ensures AllGrants(c, events) == AllGrants(c, events[..|events| - 1]) + Grants(c, events[|events| - 1])
  {
  }

  lemma Queued(sent: seq<nat>, queue: seq<nat>, queue': seq<nat>, granted: seq<nat>)
    ensures queue' == queue + granted ==> sent + queue + granted == sent + queue'
    ensures queue != [] && queue == [queue[0]] + queue' ==> sent + queue + [] == sent + [queue[0]] + queue'
  {
    assert sent + queue + granted == sent + (queue + granted);
    if queue != [] && queue == [queue[0]] + queue' { assert sent + [queue[0]] + queue' == sent + queue; }
  }

  // ---------- What a request carries ----------

  /** The transaction is this event's for session j: its own event and processing unit, the fragments that
      the session answers for, as often as asked, in order. */
  ghost predicate Answers(c: Layout, ev: Event, j: nat, info: Info)
    requires j < |c.ros|
  {
    && ev.In? && ev.x.Request? && info.eventId == ev.x.eventId && info.puId == ev.x.puId
    && info.rosId == c.ros[j] && info.dcmId == c.dcmId
    && info.robIds != [] && Sorted(info.robIds)
    && forall r :: multiset(info.robIds)[r] == if r in c.owner && c.owner[r] == j then multiset(ev.x.robIds)[r] else 0
  }

  lemma TransactionAnswers(c: Layout, ev: Event, j: nat)
    requires j < |c.ros| && ev.In? && ev.x.Request?
    ensures forall info :: info in NewFor(c, j, ev.x.eventId, ev.x.robIds, ev.x.puId) ==> Answers(c, ev, j, info)
  {
    var robs := ev.x.robIds;
    if Known(c, robs) && Wanted(c, robs, j) != [] {
      SortIsRight(Wanted(c, robs, j));
      forall r ensures multiset(Wanted(c, robs, j))[r] ==
        if r in c.owner && c.owner[r] == j then multiset(robs)[r] else 0 { WantedCounts(c, robs, j, r); }
    }
  }

  lemma {:induction false} RequestedAnswers(c: Layout, events: seq<Event>, j: nat, k: nat) returns (i: nat)
    requires j < |c.ros| && k < |Requested(c, events, j)|
    ensures i < |events| && Answers(c, events[i], j, Requested(c, events, j)[k])
    decreases |events|
  {
    var n := |events| - 1;
    var before := Requested(c, events[..n], j);
    if k < |before| {
      i := RequestedAnswers(c, events[..n], j, k);
    } else {
      i := n;
      TransactionAnswers(c, events[n], j);
      hide Answers, NewFor;
      assert Requested(c, events, j)[k] in Requested(c, events, j)[|before|..];
    }
  }

  /** Over every run, what a session sends answers one of the requests that came. */
  lemma SentAnswers(c: Layout, credits: int, states: seq<Dcm>, events: seq<Event>, j: nat, k: nat) returns (i: nat)
    requires Trace(c, credits, states, events) && j < |c.ros| && k < |Emitted(states, events, j)|
    ensures i < |events| && Answers(c, events[i], j, Emitted(states, events, j)[k])
  {
    SentInOrder(c, credits, states, events, j);
    hide Trace, Emitted, Requested, Answers;
    i := RequestedAnswers(c, events, j, k);
  }

  // ---------- When credits are no limit ----------

  function Fragments(infos: seq<Info>): nat
  {
    if infos == [] then 0 else Fragments(infos[..|infos| - 1]) + |infos[|infos| - 1].robIds|
  }

  function Unsent(sessions: seq<Waiting>): nat
  {
    if sessions == [] then 0
    else Unsent(sessions[..|sessions| - 1]) + Fragments(sessions[|sessions| - 1].pending)
  }

  /** The fragments asked for so far, in requests whose fragments are all known. */
  function Total(c: Layout, events: seq<Event>): nat
  {
    if events == [] then 0
    else
      Total(c, events[..|events| - 1]) +
      match Last(events)
      case In(Request(_, robs, _), _) => if Known(c, robs) then |robs| else 0
      case _ => 0
  }

  lemma {:induction false} FragmentsFirst(infos: seq<Info>)
    requires infos != []
    ensures Fragments(infos) == |infos[0].robIds| + Fragments(infos[1..])
  {
    var n := |infos| - 1;
    if n > 0 {
      FragmentsFirst(infos[..n]);
      assert infos[..n][1..] == infos[1..][..n - 1];
    }
  }

  lemma {:induction false} UnsentSame(a: seq<Waiting>, b: seq<Waiting>)
    requires |a| == |b| && forall j :: 0 <= j < |a| ==> a[j].pending == b[j].pending
    ensures Unsent(a) == Unsent(b)
  {
    if a != [] { UnsentSame(a[..|a| - 1], b[..|b| - 1]); }
  }

  lemma {:induction false} UnsentUpdate(sessions: seq<Waiting>, j: nat, w: Waiting)
    requires j < |sessions|
    ensures Unsent(sessions[j := w]) == Unsent(sessions) - Fragments(sessions[j].pending) + Fragments(w.pending)
  {
    var n := |sessions| - 1;
    if j < n {
      assert sessions[j := w][..n] == sessions[..n][j := w];
      UnsentUpdate(sessions[..n], j, w);
    } else {
      assert sessions[j := w][..n] == sessions[..n];
    }
  }

  // The fragments of a request that the first n sessions answer for.
  function WantedBy(c: Layout, robs: seq<int>, n: nat): nat
    requires Known(c, robs)
  {
    if n == 0 then 0 else WantedBy(c, robs, n - 1) + |Wanted(c, robs, n - 1)|
  }

  lemma {:induction false} WantedByLast(c: Layout, robs: seq<int>, n: nat)
    requires Known(c, robs) && robs != []
    ensures var k := |robs| - 1;
      WantedBy(c, robs, n) == WantedBy(c, robs[..k], n) + if c.owner[robs[k]] < n then 1 else 0
  {
    if n > 0 { WantedByLast(c, robs, n - 1); }
  }

  lemma {:induction false} WantedByNone(c: Layout, n: nat)
    ensures WantedBy(c, [], n) == 0
  {
    if n > 0 { WantedByNone(c, n - 1); }
  }

  lemma {:induction false} AllWanted(c: Layout, robs: seq<int>)
    requires LayoutOk(c) && Known(c, robs)
    ensures WantedBy(c, robs, |c.ros|) == |robs|
  {
    if robs == [] {
      WantedByNone(c, |c.ros|);
    } else {
      var k := |robs| - 1;
      AllWanted(c, robs[..k]);
      WantedByLast(c, robs, |c.ros|);
      var r := robs[k];
      assert r in c.owner && c.owner[r] < |c.ros|;
    }
  }

  lemma {:induction false} AddsUp(a: seq<Waiting>, b: seq<Waiting>, c: Layout, robs: seq<int>, n: nat)
    requires Known(c, robs) && n <= |a| && n <= |b|
    requires forall j: nat :: j < n ==>
      Fragments(b[j].pending) == Fragments(a[j].pending) + |Wanted(c, robs, j)|
    ensures Unsent(b[..n]) == Unsent(a[..n]) + WantedBy(c, robs, n)
  {
    hide Unsent, Fragments, Wanted;
    if n > 0 {
      AddsUp(a, b, c, robs, n - 1);
      UnsentOneMore(a, n - 1);
      UnsentOneMore(b, n - 1);
    } else {
      assert a[..0] == [] && b[..0] == [];
    }
  }

  lemma FetchAdds(c: Layout, s: Dcm, eventId: int, robs: seq<int>, puId: int)
    requires |s.sessions| == |c.ros| && Known(c, robs)
    ensures Unsent(Fetch(c, s, eventId, robs, puId).sessions) == Unsent(s.sessions) + WantedBy(c, robs, |c.ros|)
  {
    hide Fetch, Unsent, Fragments, Wanted, WantedBy;
    FetchQueues(c, s, eventId, robs, puId);
    var f := Fetch(c, s, eventId, robs, puId);
    forall j: nat | j < |c.ros|
      ensures Fragments(f.sessions[j].pending) == Fragments(s.sessions[j].pending) + |Wanted(c, robs, j)|
    {
      SessionFetched(c, s, eventId, robs, puId, j);
    }
    AddsUp(s.sessions, f.sessions, c, robs, |c.ros|);
    assert f.sessions[..|c.ros|] == f.sessions && s.sessions[..|c.ros|] == s.sessions;
  }

  lemma UnsentOneMore(sessions: seq<Waiting>, n: nat)
    requires n < |sessions|
    ensures Unsent(sessions[..n + 1]) == Unsent(sessions[..n]) + Fragments(sessions[n].pending)
  {
    assert sessions[..n + 1][..n] == sessions[..n];
  }

  lemma SessionFetched(c: Layout, s: Dcm, eventId: int, robs: seq<int>, puId: int, j: nat)
    requires |s.sessions| == |c.ros| && Known(c, robs) && j < |c.ros|
    ensures var f := Fetch(c, s, eventId, robs, puId);
      j < |f.sessions| &&
      Fragments(f.sessions[j].pending) == Fragments(s.sessions[j].pending) + |Wanted(c, robs, j)|
  {
    FetchedSessions(c, s, eventId, robs, puId);
    OneFetched(c, s.sessions[j], j, eventId, robs, puId);
    hide Fragments, Transaction, Wanted;
  }

  lemma OneFetched(c: Layout, w: Waiting, j: nat, eventId: int, robs: seq<int>, puId: int)
    requires j < |c.ros| && Known(c, robs)
    ensures Fragments(w.pending + [Transaction(c, j, eventId, robs, puId)]) ==
      Fragments(w.pending) + |Wanted(c, robs, j)|
  {
    SortIsRight(Wanted(c, robs, j));
    var t := Transaction(c, j, eventId, robs, puId);
    hide Transaction, Wanted, Sort;
    assert (w.pending + [t])[..|w.pending|] == w.pending;
  }

  lemma StepUnsent(c: Layout, s: Dcm, ev: Event, s': Dcm)
    requires LayoutOk(c) && |s.sessions| == |c.ros| && Step(c, s, ev, s')
    ensures |s'.sessions| == |c.ros|
    ensures Unsent(s'.sessions) == Unsent(s.sessions) +
      (match ev case In(Request(_, robs, _), _) => if Known(c, robs) then |robs| else 0 case _ => 0) -
      if ev.Send? then |s.sessions[s.outQueue[0]].pending[0].robIds| else 0
  {
    hide Fetch, CanGive, Unsent, GiveAll, NoneFits;
    match ev
    case Send =>
      var j := s.outQueue[0];
      UnsentUpdate(s.sessions, j, Pop(s.sessions[j]));
      FragmentsFirst(s.sessions[j].pending);
    case In(Request(eventId, robs, puId), order) =>
      if Known(c, robs) {
        var f := Fetch(c, s, eventId, robs, puId);
        FetchAdds(c, s, eventId, robs, puId);
        FetchQueues(c, s, eventId, robs, puId);
        AllWanted(c, robs);
        forall j: nat | j < |c.ros| ensures s'.sessions[j].pending == f.sessions[j].pending {
          GiveAllPending(f, order, j);
        }
        UnsentSame(s'.sessions, f.sessions);
      }
    case In(Ticket, order) =>
      forall j: nat | j < |c.ros| ensures s'.sessions[j].pending == s.sessions[j].pending {
        GiveAllPending(s.(available := s.available + 1), order, j);
      }
      UnsentSame(s'.sessions, s.sessions);
    case _ =>
  }

  /** Over every run the fragments waiting and those sent are as many as were asked for. */
  lemma {:induction false} FragmentsConserved(c: Layout, credits: int, states: seq<Dcm>, events: seq<Event>)
    requires LayoutOk(c) && Trace(c, credits, states, events)
    ensures |Last(states).sessions| == |c.ros|
    ensures Unsent(Last(states).sessions) + SentSize(states, events) == Total(c, events)
    decreases |events|
  {
    if events == [] {
      NothingUnsent(|c.ros|);
    } else {
      var n := |events| - 1;
      assert Last(states[..n + 1]) == states[n];
      FragmentsConserved(c, credits, states[..n + 1], events[..n]);
      StepUnsent(c, states[n], events[n], states[n + 1]);
      assert Step(c, states[n], events[n], states[n + 1]);
      assert events[n].Send? ==> CanSend(states[n]);
      hide Step, Unsent, Trace;
    }
  }

  lemma {:induction false} NothingUnsent(n: nat)
    ensures Unsent(seq(n, _ => Waiting(0, []))) == 0
  {
    if n > 0 {
      NothingUnsent(n - 1);
      assert seq(n, _ => Waiting(0, []))[..n - 1] == seq(n - 1, _ => Waiting(0, []));
    }
  }

  // Sessions hold no more than they have to send; one in need of credits holds none yet.
  lemma {:induction false} HeldWithin(sessions: seq<Waiting>, j: nat)
    requires forall i :: 0 <= i < |sessions| ==> Settled(sessions[i])
    ensures Held(sessions) <= Unsent(sessions)
    ensures j < |sessions| && sessions[j].credits == 0 && sessions[j].pending != [] ==>
      Held(sessions) + |sessions[j].pending[0].robIds| <= Unsent(sessions)
  {
    if sessions != [] {
      var n := |sessions| - 1;
      HeldWithin(sessions[..n], j);
      assert Settled(sessions[n]);
      if sessions[n].pending != [] { FragmentsFirst(sessions[n].pending); }
    }
  }

  /** While no more fragments were asked for than there were credits to begin with (all that an int holds,
      for a negative number) and tickets, no session waits for credits after an input is done. */
  lemma EnoughForAll(c: Layout, credits: int, states: seq<Dcm>, events: seq<Event>, j: nat)
    requires LayoutOk(c) && Trace(c, credits, states, events) && NoneFits(Last(states))
    requires Total(c, events) <= (if credits < 0 then 2147483647 else credits) + Tickets(events)
    requires j < |c.ros|
    ensures |Last(states).sessions| == |c.ros|
    ensures var w := Last(states).sessions[j]; w.pending != [] ==> w.credits == |w.pending[0].robIds|
  {
    var s := Last(states);
    CreditsConserved(c, credits, states, events);
    FragmentsConserved(c, credits, states, events);
    HeldWithin(s.sessions, j);
    assert Settled(s.sessions[j]) && !Fits(s, j);
    hide Trace, Held, Unsent, SentSize, Total, Tickets;
  }
}
