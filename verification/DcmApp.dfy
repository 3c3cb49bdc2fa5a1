/** The data collection manager: requests for fragments wait in a session per source until there are
    enough credits for the whole of the session's first transaction. */
module DataCollection {
  import opened Collections

  datatype Info = Info(eventId: int, rosId: int, robIds: seq<int>, puId: int, dcmId: int)

  // A session with its transactions in the order of their numbers.
  datatype Waiting = Waiting(credits: int, pending: seq<Info>)

  datatype Dcm = Dcm(sessions: seq<Waiting>, available: int, outQueue: seq<nat>)

  // The source each session stands for, the session of each fragment, and the index of the manager.
  datatype Layout = Layout(ros: seq<int>, owner: map<int, nat>, dcmId: int)

  ghost predicate LayoutOk(c: Layout) { forall r :: r in c.owner ==> c.owner[r] < |c.ros| }

  // ---------- Sessions ----------

  function Size(w: Waiting): nat { if w.pending == [] then 0 else |w.pending[0].robIds| }

  function Need(w: Waiting): int { if w.pending == [] || w.credits >= Size(w) then 0 else Size(w) - w.credits }

  function Pop(w: Waiting): Waiting
    requires w.pending != []
  {
    Waiting(w.credits - Size(w), w.pending[1..])
  }

  // ---------- Handing out credits ----------

  predicate Fits(s: Dcm, j: nat)
  {
    j < |s.sessions| && Need(s.sessions[j]) != 0 && s.available >= Need(s.sessions[j])
  }

  ghost predicate NoneFits(s: Dcm) { forall j: nat :: !Fits(s, j) }

  function Give(s: Dcm, j: nat): Dcm
    requires j < |s.sessions|
  {
    var n := Need(s.sessions[j]);
    Dcm(s.sessions[j := s.sessions[j].(credits := s.sessions[j].credits + n)], s.available - n, s.outQueue + [j])
  }

  /** From s, sessions can be served in this order, each one fitting when its turn comes. */
  ghost predicate CanGive(s: Dcm, order: seq<nat>)
    decreases order
  {
    order == [] || (Fits(s, order[0]) && CanGive(Give(s, order[0]), order[1..]))
  }

  ghost function GiveAll(s: Dcm, order: seq<nat>): (r: Dcm)
    requires CanGive(s, order)
    ensures |r.sessions| == |s.sessions|
    decreases order
  {
    if order == [] then s else GiveAll(Give(s, order[0]), order[1..])
  }

  lemma {:induction false} GiveOneMore(s: Dcm, order: seq<nat>, j: nat)
    requires CanGive(s, order) && Fits(GiveAll(s, order), j)
    ensures CanGive(s, order + [j]) && GiveAll(s, order + [j]) == Give(GiveAll(s, order), j)
    decreases order
  {
    if order == [] {
      assert CanGive(Give(s, j), []);
      assert [j][1..] == [];
    } else {
      GiveOneMore(Give(s, order[0]), order[1..], j);
      assert (order + [j])[1..] == order[1..] + [j];
    }
  }

  // ---------- Requests ----------

  function Known(c: Layout, robs: seq<int>): bool { forall i :: 0 <= i < |robs| ==> robs[i] in c.owner }

  /** The fragments of a request that session j answers for, as they come. */
  function Wanted(c: Layout, robs: seq<int>, j: nat): seq<int>
    requires Known(c, robs)
  {
    if robs == [] then []
    else
      var n := |robs| - 1;
      Wanted(c, robs[..n], j) + if c.owner[robs[n]] == j then [robs[n]] else []
  }

  ghost predicate Sorted(s: seq<int>) { forall i, k :: 0 <= i < k < |s| ==> s[i] <= s[k] }

  function Insert(s: seq<int>, x: int): seq<int>
    decreases s
  {
    if s == [] || x <= s[0] then [x] + s else [s[0]] + Insert(s[1..], x)
  }

  function Sort(s: seq<int>): seq<int>
    decreases s
  {
    if s == [] then [] else Insert(Sort(s[1..]), s[0])
  }

  lemma {:induction false} InsertKeeps(s: seq<int>, x: int)
    ensures multiset(Insert(s, x)) == multiset(s) + multiset{x}
    decreases s
  {
    if s != [] && x > s[0] {
      InsertKeeps(s[1..], x);
      assert s == [s[0]] + s[1..];
    }
  }

  lemma {:induction false} InsertSorted(s: seq<int>, x: int)
    requires Sorted(s)
    ensures Sorted(Insert(s, x))
    ensures Insert(s, x)[0] == if s == [] || x <= s[0] then x else s[0]
    decreases s
  {
    if s != [] && x > s[0] { InsertSorted(s[1..], x); }
  }

  lemma {:induction false} SortIsRight(s: seq<int>)
    ensures Sorted(Sort(s)) && multiset(Sort(s)) == multiset(s) && |Sort(s)| == |s|
    decreases s
  {
    if s != [] {
      SortIsRight(s[1..]);
      InsertKeeps(Sort(s[1..]), s[0]);
      InsertSorted(Sort(s[1..]), s[0]);
      assert s == [s[0]] + s[1..];
      assert |multiset(Sort(s))| == |multiset(s)|;
    }
  }

  function Transaction(c: Layout, j: nat, eventId: int, robs: seq<int>, puId: int): Info
    requires j < |c.ros| && Known(c, robs)
  {
    Info(eventId, c.ros[j], Sort(Wanted(c, robs, j)), puId, c.dcmId)
  }

  /** What a request adds to session j: one transaction if it answers for any of the fragments, nothing
      at all if some fragment is unknown. */
  function NewFor(c: Layout, j: nat, eventId: int, robs: seq<int>, puId: int): seq<Info>
    requires j < |c.ros|
  {
    if Known(c, robs) && Wanted(c, robs, j) != [] then [Transaction(c, j, eventId, robs, puId)] else []
  }

  function Fetch(c: Layout, s: Dcm, eventId: int, robs: seq<int>, puId: int): Dcm
    requires |s.sessions| == |c.ros|
  {
    s.(sessions := seq(|c.ros|, j requires 0 <= j < |c.ros| =>
      s.sessions[j].(pending := s.sessions[j].pending + NewFor(c, j, eventId, robs, puId))))
  }

  function Listed(m: map<int, Info>, lo: int, hi: int): (r: seq<Info>)
    requires lo <= hi && forall k :: lo <= k < hi ==> k in m
    ensures |r| == hi - lo && forall i :: 0 <= i < |r| ==> r[i] == m[lo + i]
  {
    seq(hi - lo, i requires 0 <= i < hi - lo => m[lo + i])
  }

  // ---------- The model objects ----------

  class Session {
    const rosId: int
    var pendingTransactions: map<int, Info>
    var credits: int
    var nextTransactionId: int
    ghost var first: int

    ghost predicate Valid()
      reads this
    {
      first <= nextTransactionId && forall k :: k in pendingTransactions <==> first <= k < nextTransactionId
    }

    ghost function View(): Waiting
      reads this
      requires Valid()
    {
      Waiting(credits, Listed(pendingTransactions, first, nextTransactionId))
    }

    constructor (ros: int)
      ensures Valid() && View() == Waiting(0, []) && rosId == ros
    {
      rosId, pendingTransactions, credits, nextTransactionId, first := ros, map[], 0, 0, 0;
    }

    lemma EmptyOrFirst()
      requires Valid()
      ensures pendingTransactions == map[] <==> first == nextTransactionId
      ensures first != nextTransactionId ==> first in pendingTransactions
    {
      if first == nextTransactionId {
        assert forall k :: k !in pendingTransactions;
        assert pendingTransactions.Keys == {};
        assert |pendingTransactions| == 0;
      } else {
        assert first in pendingTransactions;
      }
    }

    method FirstTransaction() returns (id: int)
      requires Valid() && pendingTransactions != map[]
      ensures id == first && id in pendingTransactions && pendingTransactions[id] == View().pending[0]
    {
      id := MinimumOf(pendingTransactions.Keys);
      EmptyOrFirst();
    }

    method MinCreditsNeeded() returns (n: int)
      requires Valid()
      ensures n == Need(View())
    {
      EmptyOrFirst();
      if pendingTransactions == map[] {
        return 0;
      }
      var id := FirstTransaction();
      var size := |pendingTransactions[id].robIds|;
      n := if credits >= size then 0 else size - credits;
    }

    method GiveCredits(n: int)
      requires Valid()
      modifies this
      ensures Valid() && View() == old(View()).(credits := old(View()).credits + n)
    {
      credits := credits + n;
    }

    method HasEnoughCredits() returns (yes: bool)
      requires Valid()
      ensures yes <==> View().pending != [] && Size(View()) <= View().credits
    {
      EmptyOrFirst();
      if pendingTransactions == map[] {
        return false;
      }
      var id := FirstTransaction();
      yes := |pendingTransactions[id].robIds| <= credits;
    }

    /** None stands for the "Invalid state" the original throws. */
    method PopNextTransaction() returns (out: Option<Info>)
      requires Valid()
      modifies this
      ensures Valid()
      ensures out.None? <==> old(View()).pending == [] || Size(old(View())) > old(View()).credits
      ensures out.None? ==> View() == old(View())
      ensures out.Some? ==> out.value == old(View()).pending[0] && View() == Pop(old(View()))
    {
      EmptyOrFirst();
      var enough := HasEnoughCredits();
      if !enough {
        return None;
      }
      var id := FirstTransaction();
      ghost var rest := View().pending[1..];
      var ret := pendingTransactions[id];
      pendingTransactions := pendingTransactions - {id};
      credits := credits - |ret.robIds|;
      first := first + 1;
      assert View().pending == rest;
      out := Some(ret);
    }

    method AsyncFetch(eventId: int, robIds: seq<int>, puId: int, dcmId: int)
      requires Valid()
      modifies this
      ensures Valid()
      ensures View() == old(View()).(pending := old(View()).pending + [Info(eventId, rosId, Sort(robIds), puId, dcmId)])
    {
      ghost var was := View().pending;
      var sorted := Sort(robIds);
      pendingTransactions := pendingTransactions[nextTransactionId := Info(eventId, rosId, sorted, puId, dcmId)];
      nextTransactionId := nextTransactionId + 1;
      assert View().pending == was + [Info(eventId, rosId, sorted, puId, dcmId)];
    }
  }

  lemma GiveMakesNoneFit(s: Dcm, j: nat)
    requires Fits(s, j)
    ensures !Fits(Give(s, j), j)
    ensures forall k: nat :: Fits(Give(s, j), k) ==> Fits(s, k)
  {
  }

  /** Different sessions in need, among them all that fit. */
  ghost predicate Selection(s: Dcm, selected: seq<nat>)
  {
    && (forall j: nat :: Fits(s, j) ==> j in selected)
    && (forall i :: 0 <= i < |selected| ==> selected[i] < |s.sessions| && Need(s.sessions[selected[i]]) != 0)
    && (forall i, j :: 0 <= i < j < |selected| ==> selected[i] != selected[j])
  }

  lemma SelectionShrinks(s: Dcm, was: seq<nat>, k: nat)
    requires Selection(s, was) && k < |was|
    ensures was[k] < |s.sessions|
    ensures Selection(if Fits(s, was[k]) then Give(s, was[k]) else s, was[..k] + was[k + 1..])
  {
    var j, rest := was[k], was[..k] + was[k + 1..];
    assert forall i: nat :: i in was ==> i == j || i in rest;
    if Fits(s, j) { GiveMakesNoneFit(s, j); }
  }

  ghost predicate Distributed(s: Dcm, order: seq<nat>, s': Dcm)
  {
    CanGive(s, order) && s' == GiveAll(s, order) && NoneFits(s')
  }

  /** Whether the session at the front of the queue has the credits for its first transaction. */
  predicate CanSend(s: Dcm)
  {
    s.outQueue != [] && s.outQueue[0] < |s.sessions| &&
    var w := s.sessions[s.outQueue[0]]; w.pending != [] && Size(w) <= w.credits
  }

  function Sent(s: Dcm): Dcm
    requires CanSend(s)
  {
    s.(outQueue := s.outQueue[1..], sessions := s.sessions[s.outQueue[0] := Pop(s.sessions[s.outQueue[0]])])
  }

  // Some sessions have been served, the ones in todo have not.
  ghost predicate Fetching(s: seq<Waiting>, done: seq<Waiting>, todo: set<nat>, now: seq<Waiting>)
  {
    |now| == |s| == |done| && forall j: nat :: j < |s| ==> now[j] == if j in todo then s[j] else done[j]
  }

  ghost predicate Grouped(c: Layout, robs: seq<int>, groups: map<nat, seq<int>>)
    requires Known(c, robs)
  {
    forall j: nat :: (j in groups <==> Wanted(c, robs, j) != []) && (j in groups ==> groups[j] == Wanted(c, robs, j))
  }

  // A session with one more transaction, for these fragments.
  function ForGroup(c: Layout, w: Waiting, j: nat, eventId: int, robs: seq<int>, puId: int): Waiting
    requires j < |c.ros|
  {
    w.(pending := w.pending + [Info(eventId, c.ros[j], Sort(robs), puId, c.dcmId)])
  }

  lemma FetchPlan(c: Layout, s: Dcm, eventId: int, robs: seq<int>, puId: int, requests: map<nat, seq<int>>)
    requires LayoutOk(c) && |s.sessions| == |c.ros| && Known(c, robs) && Grouped(c, robs, requests)
    ensures var done := Fetch(c, s, eventId, robs, puId).sessions;
      && Fetch(c, s, eventId, robs, puId) == s.(sessions := done)
      && |done| == |c.ros| && Fetching(s.sessions, done, requests.Keys, s.sessions)
      && forall j :: j in requests ==>
        j < |c.ros| && done[j] == ForGroup(c, s.sessions[j], j, eventId, requests[j], puId)
  {
    FetchedSessions(c, s, eventId, robs, puId);
    hide Fetch, Sort;
    forall j | j in requests ensures j < |c.ros| { WantedSomewhere(c, robs, j); }
    hide Wanted;
  }

  lemma FetchingStep(s: seq<Waiting>, done: seq<Waiting>, todo: set<nat>, now: seq<Waiting>, j: nat)
    requires Fetching(s, done, todo, now) && j in todo && j < |s|
    ensures |now| == |s| == |done| && now[j] == s[j] && Fetching(s, done, todo - {j}, now[j := done[j]])
  {
  }

  lemma FetchingEnds(s: seq<Waiting>, done: seq<Waiting>, now: seq<Waiting>)
    requires Fetching(s, done, {}, now)
    ensures now == done
  {
  }

  lemma {:induction false} WantedSomewhere(c: Layout, robs: seq<int>, j: nat)
    requires LayoutOk(c) && Known(c, robs) && Wanted(c, robs, j) != []
    ensures j < |c.ros|
  {
    var n := |robs| - 1;
    var r := robs[n];
    assert r in c.owner && c.owner[r] < |c.ros|;
    if Wanted(c, robs[..n], j) != [] { WantedSomewhere(c, robs[..n], j); } else { assert c.owner[r] == j; }
  }

  lemma FetchedSessions(c: Layout, s: Dcm, eventId: int, robs: seq<int>, puId: int)
    requires |s.sessions| == |c.ros| && Known(c, robs)
    ensures forall j: nat :: j < |c.ros| ==>
      Fetch(c, s, eventId, robs, puId).sessions[j] ==
        if Wanted(c, robs, j) == [] then s.sessions[j]
        else s.sessions[j].(pending := s.sessions[j].pending + [Transaction(c, j, eventId, robs, puId)])
  {
  }

  const MAX_INT: int := 2147483647

  function Start(c: Layout, credits: int): Dcm
  {
    Dcm(seq(|c.ros|, _ => Waiting(0, [])), if credits < 0 then MAX_INT else credits, [])
  }

  datatype Input = Request(eventId: int, robIds: seq<int>, puId: int) | WrongPacket | Ticket | OtherPort

  /** What an input may do: grants go to sessions in some order in which each one fits, until none does. */
  ghost predicate Reacted(c: Layout, s: Dcm, x: Input, order: seq<nat>, s': Dcm)
    requires |s.sessions| == |c.ros|
  {
    match x
    case WrongPacket => s' == s
    case OtherPort => s' == s
    case Request(eventId, robIds, puId) =>
      if !Known(c, robIds) then s' == s else Distributed(Fetch(c, s, eventId, robIds, puId), order, s')
    case Ticket => Distributed(s.(available := s.available + 1), order, s')
  }

  class DcmApp {
    const layout: Layout
    const sessions: seq<Session>
    var creditsAvailable: int
    var outQueue: seq<nat>
    var sigma: Wait

    ghost predicate Valid()
      reads `outQueue, sessions
    {
      && LayoutOk(layout) && |sessions| == |layout.ros|
      && (forall i, j :: 0 <= i < j < |sessions| ==> sessions[i] != sessions[j])
      && (forall i :: 0 <= i < |sessions| ==> sessions[i].Valid() && sessions[i].rosId == layout.ros[i])
      && (forall i :: 0 <= i < |outQueue| ==> outQueue[i] < |sessions|)
    }

    ghost function Sessions(): (r: seq<Waiting>)
      reads `outQueue, sessions
      requires Valid()
      ensures |r| == |sessions| && forall i :: 0 <= i < |r| ==> r[i] == sessions[i].View()
    {
      seq(|sessions|, i requires 0 <= i < |sessions| && sessions[i].Valid() reads sessions => sessions[i].View())
    }

    ghost function View(): Dcm
      reads `outQueue, `creditsAvailable, sessions
      requires Valid()
    {
      Dcm(Sessions(), creditsAvailable, outQueue)
    }

    constructor (c: Layout, credits: int)
      requires LayoutOk(c)
      ensures Valid() && fresh(sessions) && layout == c && View() == Start(c, credits) && sigma == Forever
    {
      var all: seq<Session> := [];
      for i := 0 to |c.ros|
        invariant |all| == i && forall k :: 0 <= k < i ==> fresh(all[k])
        invariant forall k :: 0 <= k < i ==>
          all[k].Valid() && all[k].View() == Waiting(0, []) && all[k].rosId == c.ros[k]
        invariant forall k, l :: 0 <= k < l < i ==> all[k] != all[l]
      {
        var session := new Session(c.ros[i]);
        all := all + [session];
      }
      layout, sessions, outQueue, sigma := c, all, [], Forever;
      creditsAvailable := if credits < 0 then MAX_INT else credits;
    }

    twostate lemma OneChanged(j: nat)
      requires old(Valid()) && Valid() && j < |sessions|
      requires forall i :: 0 <= i < |sessions| && i != j ==> unchanged(sessions[i])
      ensures Sessions() == old(Sessions())[j := sessions[j].View()]
    {
    }

    method TryToGive(j: nat) returns (given: bool)
      requires Valid() && j < |sessions| && Need(View().sessions[j]) != 0
      modifies `outQueue, `creditsAvailable, sessions
      ensures Valid() && given == Fits(old(View()), j)
      ensures View() == if given then Give(old(View()), j) else old(View())
    {
      hide LayoutOk, Sessions;
      var creditsGiven := sessions[j].MinCreditsNeeded();
      given := creditsAvailable >= creditsGiven;
      if given {
        sessions[j].GiveCredits(creditsGiven);
        outQueue := outQueue + [j];
        creditsAvailable := creditsAvailable - creditsGiven;
        OneChanged(j);
      }
    }

    /** Served in any order: the original shuffles the selected sessions. */
    method GiveSelected(selected: seq<nat>) returns (ghost order: seq<nat>)
      requires Valid() && Selection(View(), selected)
      modifies `outQueue, `creditsAvailable, sessions
      ensures Valid() && CanGive(old(View()), order) && View() == GiveAll(old(View()), order)
      ensures NoneFits(View())
    {
      var rest: seq<nat> := selected;
      ghost var start := View();
      order := [];
      assert CanGive(start, order) && GiveAll(start, order) == start;
      hide GiveAll, CanGive, Need, View;
      while rest != []
        invariant Valid() && CanGive(start, order) && View() == GiveAll(start, order)
        invariant Selection(View(), rest)
        decreases |rest|
      {
        var k :| 0 <= k < |rest|;
        var j: nat := rest[k];
        ghost var before, was := View(), rest;
        rest := rest[..k] + rest[k + 1..];
        var given := TryToGive(j);
        SelectionShrinks(before, was, k);
        if given {
          GiveOneMore(start, order, j);
          order := order + [j];
        }
      }
    }

    method SelectSessions() returns (selected: seq<nat>)
      requires Valid()
      ensures Selection(View(), selected) && forall i :: 0 <= i < |selected| ==> Fits(View(), selected[i])
    {
      ghost var s := View();
      selected := [];
      for i := 0 to |sessions|
        invariant forall j: nat :: j < i && Fits(s, j) ==> j in selected
        invariant forall k :: 0 <= k < |selected| ==> selected[k] < i && Fits(s, selected[k])
        invariant forall i, j :: 0 <= i < j < |selected| ==> selected[i] != selected[j]
      {
        var need := sessions[i].MinCreditsNeeded();
        assert sessions[i].View() == s.sessions[i];
        if need != 0 && creditsAvailable >= need {
          selected := selected + [i];
        }
      }
    }

    method DistributeCredits() returns (ghost order: seq<nat>)
      requires Valid()
      modifies `outQueue, `creditsAvailable, sessions
      ensures Valid() && CanGive(old(View()), order) && View() == GiveAll(old(View()), order)
      ensures NoneFits(View())
    {
      order := [];
      var again := true;
      ghost var first := true;
      while again  // the original's do-while; its second round never selects anybody
        invariant Valid() && CanGive(old(View()), order) && View() == GiveAll(old(View()), order)
        invariant first ==> again && order == []
        invariant !first ==> NoneFits(View())
        decreases if first then 2 else if again then 1 else 0
      {
        ghost var was := View();
        var selected := SelectSessions();
        ghost var more := GiveSelected(selected);
        order := if first then more else order;
        first := false;
        assert selected != [] ==> Fits(was, selected[0]);
        again := selected != [];
      }
    }

    method SetSigma()
      modifies `sigma
      ensures sigma == if outQueue != [] then For(0.0) else Forever
    {
      sigma := if |outQueue| != 0 then For(0.0) else Forever;
    }

    method Dint()
      modifies `sigma
      ensures sigma == if outQueue != [] then For(0.0) else Forever
    {
      SetSigma();
    }

    /** The fragments of a request, by the session that answers for them; None when one is unknown. */
    method GroupBySession(robIds: seq<int>) returns (requests: Option<map<nat, seq<int>>>)
      requires Valid()
      ensures requests.None? <==> !Known(layout, robIds)
      ensures requests.Some? ==> Grouped(layout, robIds, requests.value)
    {
      var groups: map<nat, seq<int>> := map[];
      for i := 0 to |robIds|
        invariant Known(layout, robIds[..i]) && Grouped(layout, robIds[..i], groups)
      {
        if robIds[i] !in layout.owner {
          return None;
        }
        var j := layout.owner[robIds[i]];
        assert robIds[..i + 1][..i] == robIds[..i];
        groups := groups[j := (if j in groups then groups[j] else []) + [robIds[i]]];
      }
      assert robIds[..|robIds|] == robIds;
      requests := Some(groups);
    }

    /** Hands one session its group of fragments. */
    method FetchGroup(j: nat, eventId: int, robIds: seq<int>, puId: int)
      requires Valid() && j < |sessions|
      modifies sessions
      ensures Valid()
      ensures Sessions() == old(Sessions())[j := ForGroup(layout, old(Sessions())[j], j, eventId, robIds, puId)]
    {
      hide Sort;
      sessions[j].AsyncFetch(eventId, robIds, puId, layout.dcmId);
      OneChanged(j);
    }

    lemma OneSessionPerRos()
      requires Valid()
      ensures LayoutOk(layout) && |Sessions()| == |layout.ros| && |sessions| == |layout.ros|
    {
    }

    /** The groups are visited in any order, as the original's hash map does. */
    method FetchGroups(eventId: int, ghost robIds: seq<int>, puId: int, requests: map<nat, seq<int>>)
      requires Valid() && Known(layout, robIds) && Grouped(layout, robIds, requests)
      modifies sessions
      ensures Valid() && View() == Fetch(layout, old(View()), eventId, robIds, puId)
    {
      hide Fetch, Valid, Known, Grouped, Fetching, ForGroup, LayoutOk, Sessions;
      OneSessionPerRos();
      var todo := requests.Keys;
      ghost var s, done := Sessions(), Fetch(layout, View(), eventId, robIds, puId).sessions;
      FetchPlan(layout, View(), eventId, robIds, puId, requests);
      while todo != {}
        invariant Valid() && todo <= requests.Keys && Fetching(s, done, todo, Sessions())
        decreases todo
      {
        var j := Pick(todo);
        FetchingStep(s, done, todo, Sessions(), j);
        FetchGroup(j, eventId, requests[j], puId);
        todo := todo - {j};
      }
      FetchingEnds(s, done, Sessions());
    }

    method RequestArrives(eventId: int, robIds: seq<int>, puId: int) returns (known: bool, ghost order: seq<nat>)
      requires Valid()
      modifies `outQueue, `creditsAvailable, sessions
      ensures Valid() && known == Known(layout, robIds) && sigma == old(sigma)
      ensures if known then Distributed(Fetch(layout, old(View()), eventId, robIds, puId), order, View())
        else View() == old(View())
    {
      hide Fetch, GiveAll, CanGive, NoneFits;
      order := [];
      var requests := GroupBySession(robIds);
      known := requests.Some?;
      if known {
        FetchGroups(eventId, robIds, puId, requests.value);
        order := DistributeCredits();
      }
    }

    method TicketArrives() returns (ghost order: seq<nat>)
      requires Valid()
      modifies `outQueue, `creditsAvailable, sessions
      ensures Valid()
      ensures Distributed(old(View()).(available := old(creditsAvailable) + 1), order, View())
    {
      hide GiveAll, CanGive, NoneFits;
      creditsAvailable := creditsAvailable + 1;
      order := DistributeCredits();
    }

    method Dext(x: Input, e: real) returns (ghost order: seq<nat>)
      requires Valid()
      modifies this, sessions
      ensures Valid()
      ensures Reacted(layout, old(View()), x, order, View())
      ensures sigma ==
        if x.WrongPacket? then After(old(sigma), e)
        else if x.Request? && !Known(layout, x.robIds) then old(sigma)
        else if outQueue != [] then For(0.0)
        else Forever
    {
      hide Fetch, Distributed, Known;
      order := [];
      match x {
        case WrongPacket =>
          sigma := After(sigma, e);
          return;
        case OtherPort =>
        case Request(eventId, robIds, puId) =>
          var known;
          known, order := RequestArrives(eventId, robIds, puId);
          if !known {
            return;
          }
        case Ticket =>
          order := TicketArrives();
      }
      SetSigma();
    }

    /** The first queued session's first transaction; None stands for the "Invalid state" thrown. */
    method Lambda() returns (out: Option<Info>)
      requires Valid() && outQueue != []
      modifies this, sessions
      ensures Valid()
      ensures var s := old(View());
        && (out.None? <==> !CanSend(s))
        && (out.Some? ==> out.value == s.sessions[s.outQueue[0]].pending[0] && View() == Sent(s))
        && (out.None? ==> View() == s.(outQueue := s.outQueue[1..]))
    {
      var j := outQueue[0];
      outQueue := outQueue[1..];
      out := sessions[j].PopNextTransaction();
      OneChanged(j);
    }
  }

  // ---------- Runs ----------

  // An input with the order in which it hands out credits, or the output of one request.
  datatype Event = In(x: Input, order: seq<nat>) | Send

  ghost predicate Step(c: Layout, s: Dcm, ev: Event, s': Dcm)
    requires |s.sessions| == |c.ros|
  {
    match ev
    case In(x, order) => Reacted(c, s, x, order, s')
    case Send => CanSend(s) && s' == Sent(s)
  }

  // A session's credits are none or exactly its first transaction's size.
  ghost predicate Settled(w: Waiting)
  {
    && (w.credits == 0 || (w.pending != [] && w.credits == Size(w)))
    && (forall i :: 0 <= i < |w.pending| ==> w.pending[i].robIds != [])
  }

  ghost predicate Inv(c: Layout, s: Dcm)
  {
    && |s.sessions| == |c.ros| && s.available >= 0
    && (forall j :: 0 <= j < |s.sessions| ==> Settled(s.sessions[j]))
    && (forall i :: 0 <= i < |s.outQueue| ==> s.outQueue[i] < |s.sessions| && s.sessions[s.outQueue[i]].credits > 0)
    && (forall j: nat :: j < |s.sessions| && s.sessions[j].credits > 0 ==> j in s.outQueue)
    && (forall i, k :: 0 <= i < k < |s.outQueue| ==> s.outQueue[i] != s.outQueue[k])
  }

  lemma StartInv(c: Layout, credits: int)
    ensures Inv(c, Start(c, credits))
  {
  }

  lemma GiveKeepsInv(c: Layout, s: Dcm, j: nat)
    requires Inv(c, s) && Fits(s, j)
    ensures Inv(c, Give(s, j))
  {
    assert s.sessions[j].credits == 0;
    assert j !in s.outQueue;
    var s' := Give(s, j);
    forall k: nat | k < |s'.sessions| && s'.sessions[k].credits > 0 ensures k in s'.outQueue {
      assert k != j ==> k in s.outQueue;
    }
  }

  lemma {:induction false} GiveAllKeepsInv(c: Layout, s: Dcm, order: seq<nat>)
    requires Inv(c, s) && CanGive(s, order)
    ensures Inv(c, GiveAll(s, order))
    decreases order
  {
    if order != [] {
      GiveKeepsInv(c, s, order[0]);
      GiveAllKeepsInv(c, Give(s, order[0]), order[1..]);
    }
  }

  lemma FetchKeepsInv(c: Layout, s: Dcm, eventId: int, robs: seq<int>, puId: int)
    requires Inv(c, s) && Known(c, robs)
    ensures Inv(c, Fetch(c, s, eventId, robs, puId))
  {
    var s' := Fetch(c, s, eventId, robs, puId);
    FetchedSessions(c, s, eventId, robs, puId);
    hide Fetch;
    forall j: nat | j < |c.ros| ensures Settled(s'.sessions[j]) && s'.sessions[j].credits == s.sessions[j].credits {
      SortIsRight(Wanted(c, robs, j));
    }
  }

  lemma SendKeepsInv(c: Layout, s: Dcm)
    requires Inv(c, s) && s.outQueue != []
    ensures CanSend(s) && Inv(c, Sent(s))
  {
    var s', j := Sent(s), s.outQueue[0];
    assert Settled(s.sessions[j]);
    forall k: nat | k < |s'.sessions| && s'.sessions[k].credits > 0 ensures k in s'.outQueue {
      assert k in s.outQueue && k != j;
    }
  }

  lemma StepKeepsInv(c: Layout, s: Dcm, ev: Event, s': Dcm)
    requires Inv(c, s) && Step(c, s, ev, s')
    ensures Inv(c, s')
  {
    hide Fetch, GiveAll, CanGive, Settled;
    match ev
    case Send => SendKeepsInv(c, s);
    case In(x, order) =>
      match x
      case Request(eventId, robs, puId) =>
        if Known(c, robs) {
          FetchKeepsInv(c, s, eventId, robs, puId);
          GiveAllKeepsInv(c, Fetch(c, s, eventId, robs, puId), order);
        }
      case Ticket => GiveAllKeepsInv(c, s.(available := s.available + 1), order);
      case _ =>
  }

  /** A run from the start: each state follows from the one before by the event between them. */
  ghost predicate Trace(c: Layout, credits: int, states: seq<Dcm>, events: seq<Event>)
    decreases |events|
  {
    && |states| == |events| + 1
    && if events == [] then states[0] == Start(c, credits)
       else
         var n := |events| - 1;
         && Trace(c, credits, states[..n + 1], events[..n])
         && |states[n].sessions| == |c.ros| && Step(c, states[n], events[n], states[n + 1])
  }

  function Last<T>(s: seq<T>): T
    requires s != []
  {
    s[|s| - 1]
  }

  // ---------- Conservation ----------

  function Held(sessions: seq<Waiting>): int
  {
    if sessions == [] then 0 else Held(sessions[..|sessions| - 1]) + sessions[|sessions| - 1].credits
  }

  function Credits(s: Dcm): int { s.available + Held(s.sessions) }

  function Tickets(events: seq<Event>): nat
  {
    if events == [] then 0 else Tickets(events[..|events| - 1]) + if Last(events).In? && Last(events).x.Ticket? then 1
      else 0
  }

  /** The fragments in the requests sent so far. */
  ghost function SentSize(states: seq<Dcm>, events: seq<Event>): nat
    requires |states| == |events| + 1
    decreases |events|
  {
    if events == [] then 0
    else
      var n := |events| - 1;
      SentSize(states[..n + 1], events[..n]) +
      if events[n].Send? && CanSend(states[n])
        then |states[n].sessions[states[n].outQueue[0]].pending[0].robIds| else 0
  }

  lemma {:induction false} HeldUpdate(sessions: seq<Waiting>, j: nat, w: Waiting)
    requires j < |sessions|
    ensures Held(sessions[j := w]) == Held(sessions) - sessions[j].credits + w.credits
  {
    var n := |sessions| - 1;
    if j < n {
      assert sessions[j := w][..n] == sessions[..n][j := w];
      HeldUpdate(sessions[..n], j, w);
    } else {
      assert sessions[j := w][..n] == sessions[..n];
    }
  }

  lemma {:induction false} HeldSame(a: seq<Waiting>, b: seq<Waiting>)
    requires |a| == |b| && forall j :: 0 <= j < |a| ==> a[j].credits == b[j].credits
    ensures Held(a) == Held(b)
  {
    if a != [] { HeldSame(a[..|a| - 1], b[..|b| - 1]); }
  }

  lemma {:induction false} GiveAllConserves(s: Dcm, order: seq<nat>)
    requires CanGive(s, order)
    ensures Credits(GiveAll(s, order)) == Credits(s)
    decreases order
  {
    if order != [] {
      var j := order[0];
      HeldUpdate(s.sessions, j, Give(s, j).sessions[j]);
      GiveAllConserves(Give(s, j), order[1..]);
    }
  }

  lemma StepConserves(c: Layout, s: Dcm, ev: Event, s': Dcm)
    requires |s.sessions| == |c.ros| && Step(c, s, ev, s')
    ensures Credits(s') == Credits(s) + (if ev.In? && ev.x.Ticket? then 1 else 0)
                         - (if ev.Send? then Size(s.sessions[s.outQueue[0]]) else 0)
  {
    match ev
    case Send => HeldUpdate(s.sessions, s.outQueue[0], Pop(s.sessions[s.outQueue[0]]));
    case In(x, order) =>
      match x
      case Request(eventId, robs, puId) =>
        if Known(c, robs) {
          var f := Fetch(c, s, eventId, robs, puId);
          HeldSame(s.sessions, f.sessions);
          GiveAllConserves(f, order);
        }
      case Ticket => GiveAllConserves(s.(available := s.available + 1), order);
      case _ =>
  }

  lemma {:induction false} HeldNothing(n: nat)
    ensures Held(seq(n, _ => Waiting(0, []))) == 0
  {
    if n > 0 {
      HeldNothing(n - 1);
      assert seq(n, _ => Waiting(0, []))[..n - 1] == seq(n - 1, _ => Waiting(0, []));
    }
  }

  /** In every run the credits available, those held by sessions and the fragments already asked for add
      up to the initial credits and the tickets; none is ever overdrawn, and the session at the front of
      the queue can always send. */
  lemma {:induction false} CreditsConserved(c: Layout, credits: int, states: seq<Dcm>, events: seq<Event>)
    requires Trace(c, credits, states, events)
    ensures Inv(c, Last(states)) && Last(states).available >= 0
    ensures Last(states).outQueue != [] <==> CanSend(Last(states))
    ensures Credits(Last(states)) + SentSize(states, events) == Start(c, credits).available + Tickets(events)
    decreases |events|
  {
    if events == [] {
      StartInv(c, credits);
      HeldNothing(|c.ros|);
    } else {
      var n := |events| - 1;
      assert Last(states[..n + 1]) == states[n];
      CreditsConserved(c, credits, states[..n + 1], events[..n]);
      StepKeepsInv(c, states[n], events[n], states[n + 1]);
      StepConserves(c, states[n], events[n], states[n + 1]);
      hide Step, Held;
    }
    if Last(states).outQueue != [] { SendKeepsInv(c, Last(states)); }
  }

  lemma {:induction false} HeldNonNegative(sessions: seq<Waiting>)
    requires forall j :: 0 <= j < |sessions| ==> sessions[j].credits >= 0
    ensures Held(sessions) >= 0
  {
    if sessions != [] { HeldNonNegative(sessions[..|sessions| - 1]); }
  }

  /** As long as no more tickets came than fragments were asked for, the counter never passes its first
      value: with that value in the range of int, it stays there. */
  lemma CreditsStayInRange(c: Layout, credits: int, states: seq<Dcm>, events: seq<Event>)
    requires Trace(c, credits, states, events) && Tickets(events) <= SentSize(states, events)
    ensures 0 <= Last(states).available <= Start(c, credits).available
  {
    CreditsConserved(c, credits, states, events);
    HeldNonNegative(Last(states).sessions);
  }

  // ---------- Every fragment once, in order ----------

  /** What session j was asked for, transaction by transaction. */
  function Requested(c: Layout, events: seq<Event>, j: nat): seq<Info>
    requires j < |c.ros|
    decreases |events|
  {
    if events == [] then []
    else
      Requested(c, events[..|events| - 1], j) +
      match Last(events)
      case In(Request(eventId, robs, puId), _) => NewFor(c, j, eventId, robs, puId)
      case _ => []
  }

  /** What was sent for session j. */
  ghost function Emitted(states: seq<Dcm>, events: seq<Event>, j: nat): seq<Info>
    requires |states| == |events| + 1
    decreases |events|
  {
    if events == [] then []
    else
      var n := |events| - 1;
      Emitted(states[..n + 1], events[..n], j) +
      if events[n].Send? && CanSend(states[n]) && states[n].outQueue[0] == j then [states[n].sessions[j].pending[0]]
        else []
  }

  lemma {:induction false} GiveAllPending(s: Dcm, order: seq<nat>, j: nat)
    requires CanGive(s, order) && j < |s.sessions|
    ensures GiveAll(s, order).sessions[j].pending == s.sessions[j].pending
    decreases order
  {
    if order != [] { GiveAllPending(Give(s, order[0]), order[1..], j); }
  }

  lemma StepPending(c: Layout, s: Dcm, ev: Event, s': Dcm, j: nat)
    requires |s.sessions| == |c.ros| && Step(c, s, ev, s') && j < |c.ros|
    ensures |s'.sessions| == |c.ros|
    ensures match ev
      case Send => s'.sessions[j].pending == if s.outQueue[0] == j then s.sessions[j].pending[1..]
        else s.sessions[j].pending
      case In(Request(eventId, robs, puId), _) => s'.sessions[j].pending ==
        s.sessions[j].pending + NewFor(c, j, eventId, robs, puId)
      case _ => s'.sessions[j].pending == s.sessions[j].pending
  {
    if ev.In? && ev.x.Request? && Known(c, ev.x.robIds) {
      GiveAllPending(Fetch(c, s, ev.x.eventId, ev.x.robIds, ev.x.puId), ev.order, j);
    } else if ev.In? && ev.x.Ticket? {
      GiveAllPending(s.(available := s.available + 1), ev.order, j);
    }
  }

  /** Per session, what was sent followed by what waits is exactly what was requested, in that order. */
  lemma {:induction false} SentInOrder(c: Layout, credits: int, states: seq<Dcm>, events: seq<Event>, j: nat)
    requires Trace(c, credits, states, events) && j < |c.ros|
    ensures |Last(states).sessions| == |c.ros|
    ensures Emitted(states, events, j) + Last(states).sessions[j].pending == Requested(c, events, j)
    decreases |events|
  {
    if events != [] {
      var n := |events| - 1;
      var s, ev, s' := states[n], events[n], states[n + 1];
      assert Last(states[..n + 1]) == s;
      SentInOrder(c, credits, states[..n + 1], events[..n], j);
      var out := if ev.Send? && s.outQueue[0] == j then [s.sessions[j].pending[0]] else [];
      var more := if ev.In? && ev.x.Request? then NewFor(c, j, ev.x.eventId, ev.x.robIds, ev.x.puId) else [];
      assert Emitted(states, events, j) == Emitted(states[..n + 1], events[..n], j) + out;
      assert Requested(c, events, j) == Requested(c, events[..n], j) + more;
      StepPending(c, s, ev, s', j);
      assert out + s'.sessions[j].pending == s.sessions[j].pending + more;
      Regrouped(Emitted(states[..n + 1], events[..n], j), out, s'.sessions[j].pending, s.sessions[j].pending, more);
      hide Step, NewFor, Emitted, Requested, Trace, CanSend;
    }
  }

  lemma Regrouped(a: seq<Info>, b: seq<Info>, d: seq<Info>, e: seq<Info>, f: seq<Info>)
    requires b + d == e + f
    ensures (a + b) + d == (a + e) + f
  {
    assert (a + b) + d == a + (b + d);
    assert (a + e) + f == a + (e + f);
  }

  function RobsOf(infos: seq<Info>): multiset<int>
  {
    if infos == [] then multiset{} else RobsOf(infos[..|infos| - 1]) + multiset(Last(infos).robIds)
  }

  /** How often fragment r was asked for in requests whose fragments are all known. */
  function Asked(c: Layout, events: seq<Event>, r: int): nat
    decreases |events|
  {
    if events == [] then 0
    else
      Asked(c, events[..|events| - 1], r) +
      match Last(events)
      case In(Request(_, robs, _), _) => if Known(c, robs) then multiset(robs)[r] else 0
      case _ => 0
  }

  lemma {:induction false} RobsOfAppend(a: seq<Info>, b: seq<Info>)
    ensures RobsOf(a + b) == RobsOf(a) + RobsOf(b)
    decreases |b|
  {
    if b == [] {
      assert a + b == a;
    } else {
      assert (a + b)[..|a + b| - 1] == a + b[..|b| - 1];
      RobsOfAppend(a, b[..|b| - 1]);
    }
  }

  lemma {:induction false} WantedCounts(c: Layout, robs: seq<int>, j: nat, r: int)
    requires Known(c, robs)
    ensures multiset(Wanted(c, robs, j))[r] == if r in c.owner && c.owner[r] == j then multiset(robs)[r] else 0
  {
    if robs != [] {
      var n := |robs| - 1;
      WantedCounts(c, robs[..n], j, r);
      assert robs == robs[..n] + [robs[n]];
      assert r == robs[n] ==> r in c.owner;
    }
  }

  lemma NewForCounts(c: Layout, j: nat, eventId: int, robs: seq<int>, puId: int, r: int)
    requires j < |c.ros| && r in c.owner && c.owner[r] == j
    ensures RobsOf(NewFor(c, j, eventId, robs, puId))[r] == if Known(c, robs) then multiset(robs)[r] else 0
  {
    if Known(c, robs) {
      var w := Wanted(c, robs, j);
      WantedCounts(c, robs, j, r);
      SortIsRight(w);
      if w != [] {
        var t := Transaction(c, j, eventId, robs, puId);
        assert RobsOf([t]) == RobsOf([]) + multiset(t.robIds);
      }
    }
  }

  lemma {:induction false} RequestedCounts(c: Layout, events: seq<Event>, j: nat, r: int)
    requires j < |c.ros| && r in c.owner && c.owner[r] == j
    ensures RobsOf(Requested(c, events, j))[r] == Asked(c, events, r)
    decreases |events|
  {
    if events != [] {
      var before := Requested(c, events[..|events| - 1], j);
      RequestedCounts(c, events[..|events| - 1], j, r);
      match Last(events)
      case In(Request(eventId, robs, puId), _) =>
        NewForCounts(c, j, eventId, robs, puId, r);
        RobsOfAppend(before, NewFor(c, j, eventId, robs, puId));
      case _ => assert before + [] == before;
    }
  }

  /** Over every run each fragment asked for waits or has been sent, exactly as often as it was asked for. */
  lemma EveryFragmentOnce(c: Layout, credits: int, states: seq<Dcm>, events: seq<Event>, r: int)
    requires LayoutOk(c) && Trace(c, credits, states, events) && r in c.owner
    ensures |Last(states).sessions| == |c.ros|
    ensures var j := c.owner[r];
      RobsOf(Emitted(states, events, j))[r] + RobsOf(Last(states).sessions[j].pending)[r] == Asked(c, events, r)
  {
    var j := c.owner[r];
    SentInOrder(c, credits, states, events, j);
    RobsOfAppend(Emitted(states, events, j), Last(states).sessions[j].pending);
    RequestedCounts(c, events, j, r);
  }

  // ---------- When credits lie idle ----------

  // A session waits with another transaction behind its first, and that one fits what is available.
  predicate SecondFits(s: Dcm, k: nat)
  {
    k < |s.sessions| && |s.sessions[k].pending| >= 2 && |s.sessions[k].pending[1].robIds| <= s.available
  }

  /** One request sent: the sender's need is now its second transaction, no other need changes. */
  lemma FitsAfterSend(c: Layout, s: Dcm, k: nat)
    requires Inv(c, s) && s.outQueue != []
    ensures CanSend(s) && (Fits(Sent(s), k) <==> if k == s.outQueue[0] then SecondFits(s, k) else Fits(s, k))
  {
    var j := s.outQueue[0];
    assert Settled(s.sessions[j]);
    var rest := s.sessions[j].pending[1..];
    assert rest != [] ==> rest[0] == s.sessions[j].pending[1];
  }

  /** Nothing fits after a send if and only if the sender has no second transaction that fits, and no
      other session fitted before. */
  lemma IdleAfterSend(c: Layout, s: Dcm)
    requires Inv(c, s) && s.outQueue != []
    ensures CanSend(s)
    ensures NoneFits(Sent(s)) <==> !SecondFits(s, s.outQueue[0]) && forall k: nat :: k != s.outQueue[0] ==> !Fits(s, k)
  {
    forall k: nat ensures CanSend(s) &&
      (Fits(Sent(s), k) <==> if k == s.outQueue[0] then SecondFits(s, k) else Fits(s, k)) {
      FitsAfterSend(c, s, k);
    }
    hide Inv, Fits, SecondFits, Sent, CanSend;
  }

  /** The requests of all queued sessions sent, as happens before any time passes. */
  function AllSent(s: Dcm): Dcm
    decreases |s.outQueue|
  {
    if CanSend(s) then AllSent(Sent(s)) else s
  }

  /** When everything queued has been sent, a session's need fits if and only if it was queued with a
      second transaction that fits, or was not queued and fitted before. */
  lemma {:induction false} FitsAfterAll(c: Layout, s: Dcm, k: nat)
    requires Inv(c, s)
    ensures AllSent(s).outQueue == []
    ensures Fits(AllSent(s), k) <==> if k in s.outQueue then SecondFits(s, k) else Fits(s, k)
    decreases |s.outQueue|
  {
    if s.outQueue != [] {
      SendKeepsInv(c, s);
      FitsAfterSend(c, s, k);
      var s', j := Sent(s), s.outQueue[0];
      FitsAfterAll(c, s', k);
      assert s.outQueue == [j] + s'.outQueue;
      assert k == j ==> k !in s'.outQueue;
      hide Fits;
    }
  }

  /** Exactly when credits lie idle: after any input and all the sends it causes, the manager waits for
      another input although some session's need fits, if and only if some session was queued whose
      second transaction fits what the input left, or the input handed out nothing and a need fitted. */
  lemma IdleCredits(c: Layout, s: Dcm, x: Input, order: seq<nat>, s': Dcm)
    requires Inv(c, s) && Step(c, s, In(x, order), s')
    ensures AllSent(s').outQueue == []
    ensures !NoneFits(AllSent(s')) <==>
      || (exists k: nat :: k in s'.outQueue && SecondFits(s', k))
      || (!HandsOut(c, x) && exists k: nat :: k !in s'.outQueue && Fits(s, k))
  {
    StepKeepsInv(c, s, In(x, order), s');
    FitsAfterAll(c, s', 0);
    forall k: nat ensures Fits(AllSent(s'), k) <==> if k in s'.outQueue then SecondFits(s', k) else Fits(s', k) {
      FitsAfterAll(c, s', k);
    }
    if HandsOut(c, x) { assert NoneFits(s'); } else { assert s' == s; }
    hide Inv, Fits, SecondFits, AllSent, Step;
  }

  // The inputs that make the manager distribute credits.
  predicate HandsOut(c: Layout, x: Input) { x.Ticket? || (x.Request? && Known(c, x.robIds)) }

  const ONE_SOURCE: Layout := Layout([7], map[1 := 0], 0)
  const ONE_FRAGMENT: Info := Info(5, 7, [1], 9, 0)
  const ASK_ONE: Input := Request(5, [1], 9)

  lemma FetchOne(s: Dcm)
    requires |s.sessions| == 1
    ensures Known(ONE_SOURCE, [1])
    ensures Fetch(ONE_SOURCE, s, 5, [1], 9) ==
      s.(sessions := [s.sessions[0].(pending := s.sessions[0].pending + [ONE_FRAGMENT])])
  {
    assert Wanted(ONE_SOURCE, [1], 0) == [1] by { assert [1][..0] == []; }
    assert Sort([1]) == [1] by { assert [1][1..] == []; }
    FetchedSessions(ONE_SOURCE, s, 5, [1], 9);
  }

  lemma FirstRequest() returns (s: Dcm)
    ensures s == Dcm([Waiting(1, [ONE_FRAGMENT])], 1, [0]) &&
      Step(ONE_SOURCE, Start(ONE_SOURCE, 2), In(ASK_ONE, [0]), s)
  {
    s := Dcm([Waiting(1, [ONE_FRAGMENT])], 1, [0]);
    var asked := Dcm([Waiting(0, [ONE_FRAGMENT])], 2, []);
    FetchOne(Start(ONE_SOURCE, 2));
    hide Fetch, Wanted, Sort, Known;
    assert Start(ONE_SOURCE, 2).sessions[0].pending + [ONE_FRAGMENT] == [ONE_FRAGMENT];
    assert Give(asked, 0) == s && Fits(asked, 0);
    assert CanGive(s, []) && [0][1..] == [];
    assert CanGive(asked, [0]) && GiveAll(asked, [0]) == s;
  }

  lemma SecondRequest(s: Dcm) returns (s': Dcm)
    requires s == Dcm([Waiting(1, [ONE_FRAGMENT])], 1, [0])
    ensures s' == Dcm([Waiting(1, [ONE_FRAGMENT, ONE_FRAGMENT])], 1, [0]) && Step(ONE_SOURCE, s, In(ASK_ONE, []), s')
  {
    s' := Dcm([Waiting(1, [ONE_FRAGMENT, ONE_FRAGMENT])], 1, [0]);
    FetchOne(s);
    hide Fetch, Wanted, Sort, Known;
    assert [ONE_FRAGMENT] + [ONE_FRAGMENT] == [ONE_FRAGMENT, ONE_FRAGMENT];
    assert CanGive(s', []) && GiveAll(s', []) == s' && NoneFits(s');
  }

  lemma FirstSent(s: Dcm) returns (s': Dcm)
    requires s == Dcm([Waiting(1, [ONE_FRAGMENT, ONE_FRAGMENT])], 1, [0])
    ensures s' == Dcm([Waiting(0, [ONE_FRAGMENT])], 1, []) && Step(ONE_SOURCE, s, Send, s')
  {
    s' := Dcm([Waiting(0, [ONE_FRAGMENT])], 1, []);
    assert s.outQueue[1..] == [] && s.sessions[0].pending[1..] == [ONE_FRAGMENT];
    assert s.sessions[0 := Waiting(0, [ONE_FRAGMENT])] == s'.sessions;
  }

  /** It does happen: with two credits and two requests for one fragment each of one source, one request
      goes out and then the manager waits for another input although the other one fits. */
  lemma IdleCreditsExist() returns (c: Layout, states: seq<Dcm>, events: seq<Event>)
    ensures LayoutOk(c) && Trace(c, 2, states, events)
    ensures Last(states).outQueue == [] && Fits(Last(states), 0)
  {
    hide Step, Trace;
    c := ONE_SOURCE;
    var s0 := Start(c, 2);
    var s1 := FirstRequest();
    var s2 := SecondRequest(s1);
    var s3 := FirstSent(s2);
    NoMore(c, 2);
    OneMore(c, 2, [s0], [], In(ASK_ONE, [0]), s1);
    OneMore(c, 2, [s0] + [s1], [] + [In(ASK_ONE, [0])], In(ASK_ONE, []), s2);
    OneMore(c, 2, [s0] + [s1] + [s2], [] + [In(ASK_ONE, [0])] + [In(ASK_ONE, [])], Send, s3);
    states, events := [s0] + [s1] + [s2] + [s3], [] + [In(ASK_ONE, [0])] + [In(ASK_ONE, [])] + [Send];
  }

  lemma NoMore(c: Layout, credits: int)
    ensures Trace(c, credits, [Start(c, credits)], [])
  {
  }

  lemma OneMore(c: Layout, credits: int, states: seq<Dcm>, events: seq<Event>, ev: Event, s': Dcm)
    requires Trace(c, credits, states, events)
    requires |Last(states).sessions| == |c.ros| && Step(c, Last(states), ev, s')
    ensures Trace(c, credits, states + [s'], events + [ev])
  {
    hide Step, Start;
    assert (states + [s'])[..|events| + 1] == states;
    assert (events + [ev])[..|events|] == events;
  }
}
