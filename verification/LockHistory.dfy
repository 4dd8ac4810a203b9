/**
 * Every sequence of requests, releases and timeouts at one lock: grants follow the order of arrival,
 * waiters that timed out left aside.
 */
module LockHistory {
  import opened LockPort
  import opened LockTable

  datatype Event = Arrive(grant: Grant) | Leave(ticket: nat) | GiveUp(ticket: nat)

  /** A lock with the order in which its requests arrived, were granted, and left or gave up. */
  datatype History = History(entry: Entry, arrivals: seq<nat>, granted: seq<nat>, left: seq<nat>, gone: set<nat>)

  const START := History(UNUSED, [], [], [], {})

  /** Requests arrive once; only a holder releases; only a waiter times out. */
  predicate Enabled(h: History, ev: Event)
  {
    match ev
    case Arrive(g) => g.ticket !in h.arrivals
    case Leave(t) => HasTicket(h.entry.holders, t)
    case GiveUp(t) => HasTicket(h.entry.queue, t)
  }

  /** The tickets a pump takes from the queue. */
  function Pumped(e: Entry): seq<nat>
  {
    Tickets(e.queue[..GrantCount(e.holders, e.queue)])
  }

  function Step(h: History, ev: Event): History
  {
    match ev
    case Arrive(g) =>
      var e := Request(h.entry, g);
      h.(entry := e, arrivals := h.arrivals + [g.ticket],
         granted := if |e.queue| == |h.entry.queue| then h.granted + [g.ticket] else h.granted)
    case Leave(t) =>
      var e := Entry(Drop(h.entry.holders, t), h.entry.queue);
      h.(entry := Pump(e), granted := h.granted + Pumped(e), left := h.left + [t])
    case GiveUp(t) =>
      var e := Entry(h.entry.holders, Drop(h.entry.queue, t));
      h.(entry := Pump(e), granted := h.granted + Pumped(e), gone := h.gone + {t})
  }

  /** The arrivals that did not give up, in order. */
  function Surviving(arrivals: seq<nat>, gone: set<nat>): seq<nat>
  {
    if arrivals == [] then []
    else
      var last := arrivals[|arrivals| - 1];
      Surviving(arrivals[..|arrivals| - 1], gone) + if last in gone then [] else [last]
  }

  ghost predicate HistoryOk(h: History)
  {
    && EntryOk(h.entry)
    && Distinct(h.arrivals)
    && (forall t :: t in h.gone ==> t in h.arrivals)
    && (forall g :: g in h.entry.holders ==> g.ticket in h.granted)
    && Surviving(h.arrivals, h.gone) == h.granted + Tickets(h.entry.queue)
  }

  lemma {:induction false} SurvivingMembers(arrivals: seq<nat>, gone: set<nat>)
    ensures forall t :: t in Surviving(arrivals, gone) <==> t in arrivals && t !in gone
    ensures Distinct(arrivals) ==> Distinct(Surviving(arrivals, gone))
  {
    if arrivals != [] {
      var init, last := arrivals[..|arrivals| - 1], arrivals[|arrivals| - 1];
      SurvivingMembers(init, gone);
      assert arrivals == init + [last];
    }
  }

  function Without(ts: seq<nat>, t: nat): seq<nat>
  {
    if ts == [] then []
    else Without(ts[..|ts| - 1], t) + if ts[|ts| - 1] == t then [] else [ts[|ts| - 1]]
  }

  lemma {:induction false} SurvivingGone(arrivals: seq<nat>, gone: set<nat>, t: nat)
    ensures Surviving(arrivals, gone + {t}) == Without(Surviving(arrivals, gone), t)
  {
    if arrivals != [] {
      var init, last := arrivals[..|arrivals| - 1], arrivals[|arrivals| - 1];
      SurvivingGone(init, gone, t);
      var s := Surviving(init, gone);
      assert (s + [last])[..|s|] == s;
      assert s + [] == s;
    }
  }

  lemma {:induction false} WithoutAbsent(ts: seq<nat>, t: nat)
    requires t !in ts
    ensures Without(ts, t) == ts
  {
    if ts != [] { WithoutAbsent(ts[..|ts| - 1], t); }
  }

  lemma {:induction false} WithoutAt(before: seq<nat>, t: nat, after: seq<nat>)
    requires t !in before && t !in after
    ensures Without(before + [t] + after, t) == before + after
  {
    if after == [] {
      assert before + [t] + after == before + [t];
      assert (before + [t])[..|before|] == before;
      WithoutAbsent(before, t);
    } else {
      var init := after[..|after| - 1];
      WithoutAt(before, t, init);
      assert (before + [t] + after)[..|before + [t] + after| - 1] == before + [t] + init;
    }
  }

  lemma ArriveKeepsOrder(h: History, g: Grant)
    requires HistoryOk(h) && Enabled(h, Arrive(g))
    ensures HistoryOk(Step(h, Arrive(g)))
  {
    QueueArrived(h);
    RequestOk(h.entry, g);
    DistinctAppend(h.arrivals, g.ticket);
    ArriveExtendsLine(h, g);
  }

  lemma ArriveExtendsLine(h: History, g: Grant)
    requires HistoryOk(h) && Enabled(h, Arrive(g))
    ensures var h' := Step(h, Arrive(g));
      Surviving(h'.arrivals, h'.gone) == h'.granted + Tickets(h'.entry.queue)
  {
    assert (h.arrivals + [g.ticket])[..|h.arrivals|] == h.arrivals;
    assert g.ticket !in h.gone;
    assert Tickets(h.entry.queue + [g]) == Tickets(h.entry.queue) + [g.ticket];
    assert h.granted + Tickets(h.entry.queue) + [g.ticket] == h.granted + (Tickets(h.entry.queue) + [g.ticket]);
  }

  lemma QueueArrived(h: History)
    requires HistoryOk(h)
    ensures forall g :: g in h.entry.holders + h.entry.queue ==> g.ticket in h.arrivals && g.ticket !in h.gone
  {
    SurvivingMembers(h.arrivals, h.gone);
    forall g | g in h.entry.holders + h.entry.queue ensures g.ticket in h.arrivals && g.ticket !in h.gone {
      if g in h.entry.queue {
        var i :| 0 <= i < |h.entry.queue| && h.entry.queue[i] == g;
        assert Tickets(h.entry.queue)[i] == g.ticket;
      }
      assert g.ticket in h.granted + Tickets(h.entry.queue);
    }
  }

  lemma LeaveKeepsOrder(h: History, t: nat)
    requires HistoryOk(h) && Enabled(h, Leave(t))
    ensures HistoryOk(Step(h, Leave(t)))
  {
    ReleaseOk(h.entry, t);
    var i := DropSplits(h.entry.holders, t);
    PumpMovesTickets(Entry(Drop(h.entry.holders, t), h.entry.queue), h.granted);
  }

  /** A pump moves tickets from the queue to the granted ones and keeps their order. */
  lemma PumpMovesTickets(e: Entry, granted: seq<nat>)
    requires forall g :: g in e.holders ==> g.ticket in granted
    ensures granted + Pumped(e) + Tickets(Pump(e).queue) == granted + Tickets(e.queue)
    ensures forall g :: g in Pump(e).holders ==> g.ticket in granted + Pumped(e)
  {
    var n := GrantCount(e.holders, e.queue);
    assert Tickets(e.queue[..n]) + Tickets(e.queue[n..]) == Tickets(e.queue);
    forall g | g in Pump(e).holders ensures g.ticket in granted + Pumped(e) { PumpedHeld(e, granted, g); }
  }

  lemma PumpedHeld(e: Entry, granted: seq<nat>, g: Grant)
    requires (g in e.holders ==> g.ticket in granted) && g in Pump(e).holders
    ensures g.ticket in granted + Pumped(e)
  {
    var n := GrantCount(e.holders, e.queue);
    assert Pump(e).holders == e.holders + e.queue[..n];
    if g !in e.holders { TicketsMembers(e.queue[..n]); }
  }

  lemma TicketsMembers(grants: seq<Grant>)
    ensures forall g :: g in grants ==> g.ticket in Tickets(grants)
  {
    forall g | g in grants ensures g.ticket in Tickets(grants) {
      var i :| 0 <= i < |grants| && grants[i] == g;
      assert Tickets(grants)[i] == g.ticket;
    }
  }

  lemma GiveUpKeepsOrder(h: History, t: nat)
    requires HistoryOk(h) && Enabled(h, GiveUp(t))
    ensures HistoryOk(Step(h, GiveUp(t)))
  {
    TimeOutOk(h.entry, t);
    QueueArrived(h);
    SurvivingMembers(h.arrivals, h.gone);
    SurvivingGone(h.arrivals, h.gone, t);
    WithoutGivenUp(h.granted, h.entry.queue, t);
    PumpMovesTickets(Entry(h.entry.holders, Drop(h.entry.queue, t)), h.granted);
  }

  lemma WithoutGivenUp(granted: seq<nat>, queue: seq<Grant>, t: nat)
    requires Distinct(granted + Tickets(queue)) && HasTicket(queue, t)
    ensures Without(granted + Tickets(queue), t) == granted + Tickets(Drop(queue, t))
  {
    var i := DropSplits(queue, t);
    var ts := Tickets(queue);
    var before, after := ts[..i], ts[i + 1..];
    assert ts == before + [t] + after;
    Regrouped(granted, before, t, after);
    DistinctAround(granted + before, t, after);
    WithoutAt(granted + before, t, after);
    TicketsWithout(queue, i);
  }

  lemma Regrouped(xs: seq<nat>, ys: seq<nat>, t: nat, zs: seq<nat>)
    ensures xs + (ys + [t] + zs) == xs + ys + [t] + zs && xs + ys + zs == xs + (ys + zs)
  {
  }

  lemma TicketsWithout(queue: seq<Grant>, i: nat)
    requires i < |queue|
    ensures Tickets(queue[..i] + queue[i + 1..]) == Tickets(queue)[..i] + Tickets(queue)[i + 1..]
  {
  }

  lemma DistinctAround(before: seq<nat>, t: nat, after: seq<nat>)
    requires Distinct(before + [t] + after)
    ensures t !in before && t !in after
  {
    var whole := before + [t] + after;
    assert whole[|before|] == t;
    assert forall j :: 0 <= j < |before| ==> whole[j] == before[j];
    assert forall j :: 0 <= j < |after| ==> whole[|before| + 1 + j] == after[j];
  }

  lemma StepKeepsOrder(h: History, ev: Event)
    requires HistoryOk(h) && Enabled(h, ev)
    ensures HistoryOk(Step(h, ev))
  {
    match ev
    case Arrive(g) => ArriveKeepsOrder(h, g);
    case Leave(t) => LeaveKeepsOrder(h, t);
    case GiveUp(t) => GiveUpKeepsOrder(h, t);
  }

  /** Whoever was granted the lock holds it or has left it, and nobody else does. */
  ghost predicate GrantsConserved(h: History)
  {
    multiset(h.granted) == multiset(Tickets(h.entry.holders)) + multiset(h.left)
  }

  lemma StepConservesGrants(h: History, ev: Event)
    requires GrantsConserved(h) && Enabled(h, ev)
    ensures GrantsConserved(Step(h, ev))
  {
    match ev
    case Arrive(g) => ArriveConserves(h, g);
    case Leave(t) => LeaveConserves(h, t);
    case GiveUp(t) => PumpConserves(Entry(h.entry.holders, Drop(h.entry.queue, t)));
  }

  lemma ArriveConserves(h: History, g: Grant)
    requires GrantsConserved(h) && Enabled(h, Arrive(g))
    ensures GrantsConserved(Step(h, Arrive(g)))
  {
    assert Tickets(h.entry.holders + [g]) == Tickets(h.entry.holders) + [g.ticket];
  }

  lemma LeaveConserves(h: History, t: nat)
    requires GrantsConserved(h) && Enabled(h, Leave(t))
    ensures GrantsConserved(Step(h, Leave(t)))
  {
    var i := DropSplits(h.entry.holders, t);
    TakenOut(h.entry.holders, i);
    TicketsWithout(h.entry.holders, i);
    PumpConserves(Entry(Drop(h.entry.holders, t), h.entry.queue));
  }

  lemma TakenOut(grants: seq<Grant>, i: nat)
    requires i < |grants|
    ensures var ts := Tickets(grants); multiset(ts) == multiset(ts[..i] + ts[i + 1..]) + multiset{grants[i].ticket}
  {
    var ts := Tickets(grants);
    assert ts == ts[..i] + [ts[i]] + ts[i + 1..];
  }

  lemma PumpConserves(e: Entry)
    ensures Tickets(Pump(e).holders) == Tickets(e.holders) + Pumped(e)
  {
  }

  /** The history of a lock nobody has asked for yet, after `events`. */
  function After(events: seq<Event>): History
  {
    if events == [] then START
    else Step(After(events[..|events| - 1]), events[|events| - 1])
  }

  /** Each event is enabled when it happens. */
  ghost predicate Legal(events: seq<Event>)
  {
    events != [] ==>
      && Legal(events[..|events| - 1])
      && Enabled(After(events[..|events| - 1]), events[|events| - 1])
  }

  lemma {:induction false} LegalKeepsOrder(events: seq<Event>)
    requires Legal(events)
    ensures HistoryOk(After(events)) && GrantsConserved(After(events))
  {
    if events != [] {
      LegalKeepsOrder(events[..|events| - 1]);
      StepConservesGrants(After(events[..|events| - 1]), events[|events| - 1]);
      StepKeepsOrder(After(events[..|events| - 1]), events[|events| - 1]);
    }
  }

  /**
   * After every history whoever waits must: at the head is a writer behind some holder, or a reader behind
   * a writer. So readers at the head never wait for one another.
   */
  lemma {:induction false} NobodyWaitsInVain(events: seq<Event>)
    requires Legal(events)
    ensures var e := After(events).entry;
      && (e.queue != [] && e.queue[0].mode == Exclusive ==> e.holders != [])
      && (e.queue != [] && e.queue[0].mode == Shared ==> exists h :: h in e.holders && h.mode == Exclusive)
  {
    LegalKeepsOrder(events);
    HeadMustWaitExactly(After(events).entry);
  }

  lemma {:induction false} SurvivingKeepsOrder(
      arrivals: seq<nat>, gone: set<nat>, i: nat, j: nat) returns (p: nat, q: nat)
    requires i < j < |arrivals| && arrivals[i] !in gone && arrivals[j] !in gone
    ensures p < q < |Surviving(arrivals, gone)|
    ensures Surviving(arrivals, gone)[p] == arrivals[i] && Surviving(arrivals, gone)[q] == arrivals[j]
  {
    var init, last := arrivals[..|arrivals| - 1], arrivals[|arrivals| - 1];
    if j < |init| {
      p, q := SurvivingKeepsOrder(init, gone, i, j);
    } else {
      SurvivingMembers(init, gone);
      assert init[i] in Surviving(init, gone);
      p :| 0 <= p < |Surviving(init, gone)| && Surviving(init, gone)[p] == arrivals[i];
      q := |Surviving(init, gone)|;
    }
  }

  /**
   * Nobody overtakes: if a later request was granted, an earlier one that did not time out was
   * granted before it. In particular later readers never overtake a waiting writer.
   */
  lemma NoOvertaking(events: seq<Event>, i: nat, j: nat)
    requires Legal(events)
    requires i < j < |After(events).arrivals| && After(events).arrivals[i] !in After(events).gone
    requires After(events).arrivals[j] in After(events).granted
    ensures var h := After(events);
      exists p, q :: 0 <= p < q < |h.granted| && h.granted[p] == h.arrivals[i] && h.granted[q] == h.arrivals[j]
  {
    var h := After(events);
    LegalKeepsOrder(events);
    SurvivingMembers(h.arrivals, h.gone);
    var line := Surviving(h.arrivals, h.gone);
    assert forall k :: 0 <= k < |h.granted| ==> line[k] == h.granted[k];
    var g :| 0 <= g < |h.granted| && h.granted[g] == h.arrivals[j];
    assert line[g] == h.arrivals[j] && h.arrivals[j] in line;
    var p, q := SurvivingKeepsOrder(h.arrivals, h.gone, i, j);
    assert line[q] == line[g];
    assert h.granted[p] == h.arrivals[i] && h.granted[q] == h.arrivals[j];
  }
}
