/**
 * The queue channel as a state machine (src/channels/queue.channel.ts). The event loop runs one segment
 * at a time, from one await to the next; a step is one such segment, and any step may come next. The
 * handler's own calls on the channel are steps after the one that started it.
 */
module QueueMachine {
  import opened Common

  type Msg = nat

  /** Where the pump is: not running, waiting for a handler, or waiting for the event loop. */
  datatype Pump = Resting | Handling | Yielding

  datatype Start = Start(msg: Msg, consumer: nat)

  /**
   * `closers` counts the `close` calls that wait for a handler. `accepted` and `started` record the
   * messages whose send resolved, and those handed to a handler, with the consumer that got them.
   */
  datatype Channel = Channel(
    capacity: nat, buffer: seq<Msg>, consumers: seq<nat>, nextId: nat, cursor: nat,
    scheduled: bool, pump: Pump, closers: nat, closed: bool, accepted: seq<Msg>, started: seq<Start>)

  const MAX_SAFE_INTEGER := 0x1f_ffff_ffff_ffff

  datatype Step =
    | Subscribe
    | Unsubscribe(id: nat)
    | Send(msg: Msg)
    | Tick
    | PumpHandled
    | Yielded
    | Close
    | CloserHandled

  function New(capacity: nat): Channel
  {
    Channel(capacity, [], [], 1, 0, false, Resting, 0, false, [], [])
  }

  predicate CanStart(c: Channel) { c.buffer != [] && c.consumers != [] }

  /** The oldest message goes to the consumer under the cursor. */
  function StartNext(c: Channel): Channel
    requires CanStart(c)
  {
    c.(buffer := c.buffer[1..], cursor := (c.cursor + 1) % MAX_SAFE_INTEGER,
       started := c.started + [Start(c.buffer[0], c.consumers[c.cursor % |c.consumers|])])
  }

  function PumpOn(c: Channel): Channel
  {
    if !c.closed && CanStart(c) then StartNext(c).(pump := Handling) else c.(pump := Resting)
  }

  function CloserOn(c: Channel): Channel
  {
    if CanStart(c) then StartNext(c).(closers := c.closers + 1) else c
  }

  function Without(consumers: seq<nat>, id: nat): seq<nat> { Filter(consumers, (x: nat) => x != id) }

  predicate Accepts(c: Channel) { !c.closed && |c.buffer| < c.capacity }

  predicate Enabled(c: Channel, step: Step)
  {
    match step
    case Tick => c.scheduled
    case PumpHandled => c.pump == Handling
    case Yielded => c.pump == Yielding
    case CloserHandled => c.closers > 0
    case _ => true
  }

  function Apply(c: Channel, step: Step): Channel
    requires Enabled(c, step)
  {
    match step
    case Subscribe => c.(consumers := c.consumers + [c.nextId], nextId := c.nextId + 1, scheduled := true)
    case Unsubscribe(id) => c.(consumers := Without(c.consumers, id))
    case Send(msg) =>
      if Accepts(c) then c.(buffer := c.buffer + [msg], accepted := c.accepted + [msg], scheduled := true) else c
    case Tick => if c.pump == Resting then PumpOn(c.(scheduled := false)) else c.(scheduled := false)
    case PumpHandled => c.(pump := Yielding)
    case Yielded => PumpOn(c)
    case Close => CloserOn(c.(closed := true))
    case CloserHandled => CloserOn(c.(closers := c.closers - 1))
  }

  function Messages(started: seq<Start>): (msgs: seq<Msg>)
    ensures |msgs| == |started|
  {
    seq(|started|, i requires 0 <= i < |started| => started[i].msg)
  }

  /** The pump sleeps only when it has nothing to do or nobody to give it to. */
  predicate Awake(c: Channel)
  {
    !c.closed && CanStart(c) ==> c.scheduled || c.pump != Resting
  }

  predicate Distinct(ids: seq<nat>) { forall i, j :: 0 <= i < j < |ids| ==> ids[i] != ids[j] }

  predicate ConsumersOk(c: Channel)
  {
    Distinct(c.consumers) && forall i :: 0 <= i < |c.consumers| ==> c.consumers[i] < c.nextId
  }

  /** Messages are started in the order of their sends, each once; the rest is in the buffer, within capacity. */
  ghost predicate Inv(c: Channel)
  {
    && Awake(c)
    && c.accepted == Messages(c.started) + c.buffer
    && |c.buffer| <= c.capacity
    && c.cursor < MAX_SAFE_INTEGER
    && ConsumersOk(c)
  }

  lemma StartKeepsOrder(c: Channel)
    requires CanStart(c) && c.accepted == Messages(c.started) + c.buffer
    ensures StartNext(c).accepted == Messages(StartNext(c).started) + StartNext(c).buffer
  {
    assert Messages(StartNext(c).started) == Messages(c.started) + [c.buffer[0]];
  }

  lemma {:induction false} FilterKeepsDistinct(ids: seq<nat>, id: nat, next: nat)
    requires Distinct(ids) && forall i :: 0 <= i < |ids| ==> ids[i] < next
    ensures var left := Without(ids, id);
      && Distinct(left) && (forall x :: x in left <==> x in ids && x != id)
      && forall i :: 0 <= i < |left| ==> left[i] < next
  {
    if ids != [] {
      var init, last := ids[..|ids| - 1], ids[|ids| - 1];
      FilterKeepsDistinct(init, id, next);
      assert ids == init + [last];
      assert last !in init;
    }
  }

  lemma StepKeepsInv(c: Channel, step: Step)
    requires Inv(c) && Enabled(c, step)
    ensures Inv(Apply(c, step))
  {
    match step
    case Subscribe =>
    case Unsubscribe(id) => FilterKeepsDistinct(c.consumers, id, c.nextId);
    case Send(msg) => assert Messages(c.started) + (c.buffer + [msg]) == Messages(c.started) + c.buffer + [msg];
    case Tick => PumpKeepsInv(c.(scheduled := false));
    case PumpHandled =>
    case Yielded => PumpKeepsInv(c);
    case Close => CloserKeepsInv(c.(closed := true));
    case CloserHandled => CloserKeepsInv(c.(closers := c.closers - 1));
  }

  /** The invariant but for the wake-up. */
  ghost predicate Loose(c: Channel)
  {
    && c.accepted == Messages(c.started) + c.buffer && |c.buffer| <= c.capacity
    && c.cursor < MAX_SAFE_INTEGER && ConsumersOk(c)
  }

  lemma StartKeepsLoose(c: Channel)
    requires Loose(c) && CanStart(c)
    ensures Loose(StartNext(c))
  {
    StartKeepsOrder(c);
  }

  lemma PumpKeepsInv(c: Channel)
    requires Loose(c)
    ensures Inv(PumpOn(c))
  {
    if CanStart(c) { StartKeepsLoose(c); }
  }

  lemma CloserKeepsInv(c: Channel)
    requires Loose(c) && Awake(c)
    ensures Inv(CloserOn(c))
  {
    if CanStart(c) { StartKeepsLoose(c); }
  }

  // ---- Whole runs.

  /** Any steps, one after the other, each enabled in the state it finds. */
  predicate Runs(c: Channel, steps: seq<Step>)
    decreases |steps|, 0
  {
    |steps| > 0 ==> Runs(c, steps[..|steps| - 1]) && Enabled(End(c, steps[..|steps| - 1]), steps[|steps| - 1])
  }

  function End(c: Channel, steps: seq<Step>): Channel
    requires Runs(c, steps)
    decreases |steps|, 1
  {
    if |steps| == 0 then c else Apply(End(c, steps[..|steps| - 1]), steps[|steps| - 1])
  }

  /** In every interleaving: first in, first out, each message once, within capacity, no lost wake-up. */
  lemma {:induction false} EveryRunIsFifo(capacity: nat, steps: seq<Step>)
    requires Runs(New(capacity), steps)
    ensures Inv(End(New(capacity), steps))
  {
    if |steps| > 0 {
      EveryRunIsFifo(capacity, steps[..|steps| - 1]);
      StepKeepsInv(End(New(capacity), steps[..|steps| - 1]), steps[|steps| - 1]);
    }
  }

  /** The channel's own steps, as opposed to what its users do. */
  predicate Internal(step: Step)
  {
    step.Tick? || step.PumpHandled? || step.Yielded? || step.CloserHandled?
  }

  predicate Quiet(c: Channel)
  {
    !c.scheduled && c.pump == Resting && c.closers == 0
  }

  function Work(c: Channel): nat
  {
    var pumping := match c.pump case Resting => 0 case Handling => 2 case Yielding => 1;
    4 * |c.buffer| + (if c.scheduled then 1 else 0) + c.closers + pumping
  }

  predicate AllInternal(steps: seq<Step>) { forall i :: 0 <= i < |steps| ==> Internal(steps[i]) }

  lemma InternalWorks(c: Channel, step: Step)
    requires Internal(step) && Enabled(c, step)
    ensures Work(Apply(c, step)) < Work(c)
    ensures var d := Apply(c, step); d.consumers == c.consumers && d.accepted == c.accepted && d.closed == c.closed
  {
  }

  lemma {:induction false} InternalRunsEnd(c: Channel, steps: seq<Step>)
    requires Runs(c, steps) && AllInternal(steps)
    ensures Work(End(c, steps)) + |steps| <= Work(c)
    ensures End(c, steps).consumers == c.consumers && End(c, steps).accepted == c.accepted
    ensures End(c, steps).closed == c.closed
  {
    if |steps| > 0 {
      InternalRunsEnd(c, steps[..|steps| - 1]);
      InternalWorks(End(c, steps[..|steps| - 1]), steps[|steps| - 1]);
    }
  }

  /**
   * Left to itself an open channel with consumers stops after a bounded number of steps, and only when
   * every message it accepted has been handed to a consumer.
   */
  lemma {:induction false} EveryMessageIsStarted(c: Channel, steps: seq<Step>)
    requires Inv(c) && Runs(c, steps) && AllInternal(steps) && !c.closed && c.consumers != []
    ensures |steps| <= Work(c)
    ensures Quiet(End(c, steps)) <==> !exists step :: Internal(step) && Enabled(End(c, steps), step)
    ensures Quiet(End(c, steps)) ==> Messages(End(c, steps).started) == c.accepted
  {
    InternalRunsEnd(c, steps);
    RunKeepsInv(c, steps);
    QuietOnly(End(c, steps));
  }

  /** A channel that is not quiet has a step of its own to take. */
  lemma QuietOnly(c: Channel)
    ensures Quiet(c) <==> !exists step :: Internal(step) && Enabled(c, step)
  {
    if !Quiet(c) {
      var next := if c.scheduled then Tick
                  else if c.pump == Handling then PumpHandled
                  else if c.pump == Yielding then Yielded
                  else CloserHandled;
      assert Internal(next) && Enabled(c, next);
    }
  }

  lemma {:induction false} RunKeepsInv(c: Channel, steps: seq<Step>)
    requires Inv(c) && Runs(c, steps)
    ensures Inv(End(c, steps))
  {
    if |steps| > 0 {
      RunKeepsInv(c, steps[..|steps| - 1]);
      StepKeepsInv(End(c, steps[..|steps| - 1]), steps[|steps| - 1]);
    }
  }

  // ---- Closing.

  /** A closed channel that still has a message has a `close` call at work on it. */
  predicate Draining(c: Channel)
  {
    c.closed && (c.buffer != [] ==> c.closers > 0)
  }

  /** There is a consumer in every state of the run but perhaps the last. */
  predicate ConsumersThroughout(c: Channel, steps: seq<Step>)
    requires Runs(c, steps)
  {
    |steps| > 0 ==>
      ConsumersThroughout(c, steps[..|steps| - 1]) && End(c, steps[..|steps| - 1]).consumers != []
  }

  lemma DrainingStays(c: Channel, step: Step)
    requires c.closed && c.consumers != [] && Enabled(c, step) && (Draining(c) || step == Close)
    ensures Draining(Apply(c, step)) && Apply(c, step).accepted == c.accepted
  {
  }

  /**
   * While there are consumers, `close` drains: whatever else happens, when no `close` call is at work
   * any more every message accepted has been handed to a consumer.
   */
  lemma {:induction false} CloseDrains(c: Channel, steps: seq<Step>)
    requires Inv(c) && c.consumers != [] && Runs(Apply(c, Close), steps) && ConsumersThroughout(Apply(c, Close), steps)
    ensures var d := End(Apply(c, Close), steps);
      d.accepted == c.accepted && Draining(d) && (d.closers == 0 ==> Messages(d.started) == c.accepted)
  {
    StepKeepsInv(c, Close);
    RunKeepsInv(Apply(c, Close), steps);
    CloseDraining(c, steps);
    var d := End(Apply(c, Close), steps);
    assert d.closers == 0 ==> d.buffer == [];
  }

  lemma {:induction false} CloseDraining(c: Channel, steps: seq<Step>)
    requires c.consumers != [] && Runs(Apply(c, Close), steps) && ConsumersThroughout(Apply(c, Close), steps)
    ensures Draining(End(Apply(c, Close), steps)) && End(Apply(c, Close), steps).accepted == c.accepted
  {
    if |steps| > 0 {
      CloseDraining(c, steps[..|steps| - 1]);
      DrainingStays(End(Apply(c, Close), steps[..|steps| - 1]), steps[|steps| - 1]);
    }
  }

  /** Without consumers the channel's own steps hand out nothing. */
  lemma {:induction false} NobodyTakes(c: Channel, steps: seq<Step>)
    requires c.consumers == [] && Runs(c, steps) && AllInternal(steps)
    ensures End(c, steps).buffer == c.buffer && End(c, steps).consumers == []
  {
    if |steps| > 0 { NobodyTakes(c, steps[..|steps| - 1]); }
  }

  /** With consumers a closed channel keeps draining, whatever step of its own comes next. */
  lemma {:induction false} KeepsDraining(c: Channel, steps: seq<Step>)
    requires c.consumers != [] && Draining(c) && Runs(c, steps) && AllInternal(steps)
    ensures Draining(End(c, steps)) && End(c, steps).consumers == c.consumers
  {
    if |steps| > 0 {
      KeepsDraining(c, steps[..|steps| - 1]);
      DrainingStays(End(c, steps[..|steps| - 1]), steps[|steps| - 1]);
    }
  }

  /**
   * After a `close`, whatever state the channel was in, every `close` call ends: the channel stops after
   * a bounded number of its own steps, and only when all calls have ended. It then holds exactly the
   * messages that nobody was there to take, and has handed out the others.
   */
  lemma {:induction false} CloseEnds(c: Channel, steps: seq<Step>)
    requires Inv(c) && Runs(Apply(c, Close), steps) && AllInternal(steps)
    ensures |steps| <= Work(Apply(c, Close))
    ensures var d := End(Apply(c, Close), steps);
      && (Quiet(d) <==> !exists step :: Internal(step) && Enabled(d, step))
      && (Quiet(d) ==> d.buffer == (if c.consumers == [] then c.buffer else []))
      && Messages(d.started) + d.buffer == c.accepted
  {
    var closed := Apply(c, Close);
    StepKeepsInv(c, Close);
    RunKeepsInv(closed, steps);
    InternalRunsEnd(closed, steps);
    QuietOnly(End(closed, steps));
    if c.consumers == [] {
      NobodyTakes(closed, steps);
    } else {
      DrainingStays(c.(closed := true), Close);
      KeepsDraining(closed, steps);
    }
  }

  predicate NoClose(steps: seq<Step>) { forall i :: 0 <= i < |steps| ==> steps[i] != Close }

  /**
   * What a closed channel still holds when its last `close` call ended is never handed out, in any run,
   * whoever subscribes, until it is closed again.
   */
  lemma {:induction false} LeftBehind(c: Channel, steps: seq<Step>)
    requires c.closed && c.closers == 0 && Runs(c, steps) && NoClose(steps)
    ensures var d := End(c, steps);
      d.closed && d.closers == 0 && d.started == c.started && d.buffer == c.buffer && d.accepted == c.accepted
  {
    if |steps| > 0 {
      var init, last := steps[..|steps| - 1], steps[|steps| - 1];
      LeftBehind(c, init);
      StaysBehind(End(c, init), last);
    }
  }

  lemma StaysBehind(c: Channel, step: Step)
    requires c.closed && c.closers == 0 && Enabled(c, step) && step != Close
    ensures var d := Apply(c, step);
      d.closed && d.closers == 0 && d.started == c.started && d.buffer == c.buffer && d.accepted == c.accepted
  {
  }

  // ---- Unsubscribing.

  /** `id` is not subscribed, and will never be given out again. */
  predicate Gone(c: Channel, id: nat) { id !in c.consumers && id < c.nextId }

  /** What was started since `c` was started by others. */
  predicate StartedByOthers(c: Channel, d: Channel, id: nat)
  {
    |c.started| <= |d.started| && d.started[..|c.started|] == c.started
    && forall i :: |c.started| <= i < |d.started| ==> d.started[i].consumer != id
  }

  lemma GoneStays(c: Channel, d: Channel, step: Step, id: nat)
    requires Gone(d, id) && StartedByOthers(c, d, id) && Enabled(d, step)
    requires forall x :: x in Without(d.consumers, if step.Unsubscribe? then step.id else id) ==> x in d.consumers
    ensures Gone(Apply(d, step), id) && StartedByOthers(c, Apply(d, step), id)
  {
    var more := Apply(d, step).started;
    assert forall i :: |d.started| <= i < |more| ==> more[i].consumer in d.consumers;
    assert more[..|d.started|] == d.started;
  }

  /** Whatever the channel and its users do afterwards, an unsubscribed consumer is handed no message. */
  lemma {:induction false} UnsubscribedGetsNothing(c: Channel, id: nat, steps: seq<Step>)
    requires Inv(c) && id < c.nextId && Runs(Apply(c, Unsubscribe(id)), steps)
    ensures var d := End(Apply(c, Unsubscribe(id)), steps); Gone(d, id) && StartedByOthers(c, d, id)
  {
    FilterKeepsDistinct(c.consumers, id, c.nextId);
    if |steps| > 0 {
      var init, step := steps[..|steps| - 1], steps[|steps| - 1];
      UnsubscribedGetsNothing(c, id, init);
      var d := End(Apply(c, Unsubscribe(id)), init);
      StepKeepsInv(c, Unsubscribe(id));
      RunKeepsInv(Apply(c, Unsubscribe(id)), init);
      FilterKeepsDistinct(d.consumers, if step.Unsubscribe? then step.id else id, d.nextId);
      GoneStays(c, d, step, id);
    }
  }

  // ---- Round robin.

  predicate KeepsConsumers(steps: seq<Step>)
  {
    forall i :: 0 <= i < |steps| ==> !steps[i].Subscribe? && !steps[i].Unsubscribe?
  }

  /** Start `i` after `c`, while the consumers stay the same, goes to the consumer `i` places on. */
  predicate InTurn(c: Channel, started: seq<Start>, i: nat)
    requires c.consumers != []
  {
    |c.started| + i < |started| ==> started[|c.started| + i].consumer == c.consumers[(c.cursor + i) % |c.consumers|]
  }

  /** Nothing was started, or one message for the consumer under the cursor. */
  predicate OneMore(c: Channel, d: Channel)
    requires c.consumers != []
  {
    && d.consumers == c.consumers
    && (|| (d.started == c.started && d.cursor == c.cursor)
        || (|d.started| == |c.started| + 1 && d.started[..|c.started|] == c.started && d.cursor == c.cursor + 1
            && d.started[|c.started|].consumer == c.consumers[c.cursor % |c.consumers|]))
  }

  lemma OneTurn(c: Channel, step: Step)
    requires c.consumers != [] && Enabled(c, step) && !step.Subscribe? && !step.Unsubscribe?
    requires c.cursor + 1 < MAX_SAFE_INTEGER
    ensures OneMore(c, Apply(c, step))
  {
  }

  /** `d` follows `c` with its turns kept. */
  ghost predicate KeptTurns(c: Channel, d: Channel)
    requires c.consumers != []
  {
    && d.consumers == c.consumers && |c.started| <= |d.started|
    && d.cursor == c.cursor + |d.started| - |c.started|
    && forall i: nat :: InTurn(c, d.started, i)
  }

  lemma TurnsGrow(c: Channel, d: Channel, e: Channel)
    requires c.consumers != [] && KeptTurns(c, d) && OneMore(d, e)
    ensures KeptTurns(c, e)
  {
    forall i: nat ensures InTurn(c, e.started, i) {
      TurnGrows(c, d, e, i);
    }
  }

  lemma TurnGrows(c: Channel, d: Channel, e: Channel, i: nat)
    requires c.consumers != [] && d.consumers == c.consumers && InTurn(c, d.started, i) && OneMore(d, e)
    requires |c.started| <= |d.started| && d.cursor == c.cursor + |d.started| - |c.started|
    ensures InTurn(c, e.started, i)
  {
    if |c.started| + i < |d.started| {
      assert e.started[..|d.started|][|c.started| + i] == d.started[|c.started| + i];
    }
  }

  lemma {:induction false} TakesTurns(c: Channel, steps: seq<Step>)
    requires c.consumers != [] && Runs(c, steps) && KeepsConsumers(steps) && c.cursor + |steps| < MAX_SAFE_INTEGER
    ensures KeptTurns(c, End(c, steps)) && |End(c, steps).started| <= |c.started| + |steps|
  {
    if |steps| > 0 {
      var init, step := steps[..|steps| - 1], steps[|steps| - 1];
      TakesTurns(c, init);
      OneTurn(End(c, init), step);
      TurnsGrow(c, End(c, init), End(c, steps));
    }
  }

  lemma Factored(m: int, q: int, n: int)
    ensures (m - q) * n == m * n - q * n
  {
  }

  lemma AtLeast(k: int, n: nat)
    requires k >= 1
    ensures k * n >= n
  {
    Factored(k, 1, n);
  }

  /** A number has one quotient and one remainder. */
  lemma RemainderOf(x: nat, n: nat, q: nat, r: nat)
    requires n > 0 && r < n && x == q * n + r
    ensures x % n == r
  {
    var m := x / n;
    Factored(m, q, n);
    Factored(q, m, n);
    if m > q { AtLeast(m - q, n); }
    if m < q { AtLeast(q - m, n); }
  }

  lemma SameRemainder(a: nat, d: nat, n: nat)
    requires 0 < d < n
    ensures (a + d) % n != a % n
  {
    var q, r := a / n, a % n;
    if r + d < n {
      RemainderOf(a + d, n, q, r + d);
    } else {
      Factored(q + 1, 1, n);
      RemainderOf(a + d, n, q + 1, r + d - n);
    }
  }

  /** Of any `n` consecutive starts among `n` consumers no two go to the same one. */
  lemma {:induction false} EachOnceARound(c: Channel, steps: seq<Step>, i: nat, j: nat)
    requires Inv(c) && c.consumers != [] && Runs(c, steps) && KeepsConsumers(steps)
    requires c.cursor + |steps| < MAX_SAFE_INTEGER
    requires |c.started| <= i < j < |End(c, steps).started| && j - i < |c.consumers|
    ensures End(c, steps).started[i].consumer != End(c, steps).started[j].consumer
  {
    TakesTurns(c, steps);
    var d, n, k := End(c, steps), |c.consumers|, i - |c.started|;
    assert InTurn(c, d.started, k) && InTurn(c, d.started, k + j - i);
    SameRemainder(c.cursor + k, j - i, n);
    var x, y := (c.cursor + k) % n, (c.cursor + k + j - i) % n;
    assert x < y ==> c.consumers[x] != c.consumers[y];
    assert y < x ==> c.consumers[y] != c.consumers[x];
  }

  /** When the cursor wraps around, the turn is kept if and only if the consumers divide the largest cursor plus one. */
  lemma TurnAtWrap(c: Channel)
    requires CanStart(c) && c.cursor == 0x1f_ffff_ffff_fffe
    ensures StartNext(c).cursor == 0
    ensures StartNext(c).cursor % |c.consumers| == (c.cursor + 1) % |c.consumers| <==>
      0x1f_ffff_ffff_ffff % |c.consumers| == 0
  {
    RemainderOf(0, |c.consumers|, 0, 0);
  }
}
