/**
 * The queue channel (src/channels/queue.channel.ts). Each method is what runs between two awaits; it
 * takes the step of `QueueMachine` of the same name, so what is proved of its runs holds of the channel.
 */
module QueueChannel {
  import opened Common
  import opened QueueMachine

  datatype SendError = ChannelClosed | CapacityExceeded

  class QueueChannel {
    const capacity: nat
    var buffer: seq<Msg>
    var consumers: seq<nat>
    var nextConsumerId: nat
    var rrCursor: nat
    var pumpScheduled: bool
    var pumping: bool
    var closed: bool

    // Where the pump and the `close` calls wait, and what happened so far.
    ghost var waiting: Pump
    ghost var closers: nat
    ghost var accepted: seq<Msg>
    ghost var started: seq<Start>

    ghost function Look(): Channel
      reads this
    {
      Channel(
        capacity, buffer, consumers, nextConsumerId, rrCursor, pumpScheduled, waiting, closers, closed,
        accepted, started)
    }

    /** What holds between two segments. */
    ghost predicate Valid()
      reads this
    {
      Inv(Look()) && (pumping <==> waiting != Resting)
    }

    constructor (capacity: nat)
      ensures Look() == New(capacity) && Valid()
    {
      this.capacity := capacity;
      buffer, consumers, nextConsumerId, rrCursor := [], [], 1, 0;
      pumpScheduled, pumping, closed := false, false, false;
      waiting, closers, accepted, started := Resting, 0, [], [];
    }

    method Subscribe() returns (id: nat)
      requires Valid()
      modifies this
      ensures Valid() && Look() == Apply(old(Look()), QueueMachine.Subscribe) && id == old(nextConsumerId)
      ensures id !in old(consumers) && consumers == old(consumers) + [id] && pumpScheduled
    {
      StepKeepsInv(Look(), QueueMachine.Subscribe);
      id := nextConsumerId;
      nextConsumerId := nextConsumerId + 1;
      consumers := consumers + [id];
      SchedulePump();
    }

    method Unsubscribe(id: nat)
      requires Valid()
      modifies this
      ensures Valid() && Look() == Apply(old(Look()), QueueMachine.Unsubscribe(id))
      ensures forall x :: x in consumers <==> x in old(consumers) && x != id
    {
      FilterKeepsDistinct(consumers, id, nextConsumerId);
      StepKeepsInv(Look(), QueueMachine.Unsubscribe(id));
      consumers := Without(consumers, id);
    }

    /** Never drops silently: a message is refused, or it is accepted and will keep its place. */
    method Send(msg: Msg) returns (result: Result<(), SendError>)
      requires Valid()
      modifies this
      ensures Valid() && Look() == Apply(old(Look()), QueueMachine.Send(msg))
      ensures result.Ok? <==> accepted == old(accepted) + [msg]
      ensures result.Ok? <==> !old(closed) && |old(buffer)| < capacity
      ensures result.Ok? ==> buffer == old(buffer) + [msg] && pumpScheduled
      ensures result.Err? ==> Look() == old(Look()) && (result.error == ChannelClosed <==> closed)
    {
      StepKeepsInv(Look(), QueueMachine.Send(msg));
      if closed { return Err(ChannelClosed); }
      if |buffer| >= capacity { return Err(CapacityExceeded); }
      buffer := buffer + [msg];
      accepted := accepted + [msg];
      SchedulePump();
      result := Ok(());
    }

    method SchedulePump()
      modifies this`pumpScheduled
      ensures pumpScheduled
    {
      if pumpScheduled { return; }
      pumpScheduled := true;
    }

    /** The scheduled pump runs, unless one is running already. */
    method Tick()
      requires Valid() && pumpScheduled
      modifies this
      ensures Valid() && Look() == Apply(old(Look()), QueueMachine.Tick)
    {
      StepKeepsInv(Look(), QueueMachine.Tick);
      pumpScheduled := false;
      if pumping { return; }
      pumping := true;
      PumpTurn();
    }

    /** The head of the pump's loop: start the next message, or stop. */
    method PumpTurn()
      requires pumping && rrCursor < MAX_SAFE_INTEGER
      modifies this
      ensures Look() == PumpOn(old(Look())) && (pumping <==> waiting != Resting)
    {
      if !closed && |buffer| > 0 && |consumers| > 0 {
        var begun := ProcessNext();
        waiting := Handling;
      } else {
        pumping := false;
        waiting := Resting;
      }
    }

    /** Up to the handler: takes the oldest message, and puts it back when nobody is there to take it. */
    method ProcessNext() returns (begun: Option<Start>)
      requires rrCursor < MAX_SAFE_INTEGER
      modifies this`buffer, this`rrCursor, this`started
      ensures CanStart(old(Look())) ==>
        Look() == StartNext(old(Look())) && begun == Some(started[|started| - 1])
      ensures !CanStart(old(Look())) ==> begun == None && Look() == old(Look())
    {
      if |buffer| == 0 { return None; }
      var msg := buffer[0];
      buffer := buffer[1..];
      var consumer := PickConsumer();
      if consumer.None? {
        buffer := [msg] + buffer;
        return None;
      }
      begun := Some(Start(msg, consumer.value));
      started := started + [begun.value];
    }

    method PickConsumer() returns (consumer: Option<nat>)
      requires rrCursor < MAX_SAFE_INTEGER
      modifies this`rrCursor
      ensures consumers == [] ==> consumer == None && rrCursor == old(rrCursor)
      ensures consumers != [] ==>
        consumer == Some(consumers[old(rrCursor) % |consumers|]) && rrCursor == (old(rrCursor) + 1) % MAX_SAFE_INTEGER
    {
      if |consumers| == 0 { return None; }
      consumer := Some(consumers[rrCursor % |consumers|]);
      rrCursor := (rrCursor + 1) % MAX_SAFE_INTEGER;
    }

    /** The handler the pump waited for settled, well or not; the pump yields to the event loop. */
    method PumpHandled()
      requires Valid() && waiting == Handling
      modifies this
      ensures Valid() && Look() == Apply(old(Look()), QueueMachine.PumpHandled)
    {
      StepKeepsInv(Look(), QueueMachine.PumpHandled);
      waiting := Yielding;
    }

    method Yielded()
      requires Valid() && waiting == Yielding
      modifies this
      ensures Valid() && Look() == Apply(old(Look()), QueueMachine.Yielded)
    {
      StepKeepsInv(Look(), QueueMachine.Yielded);
      PumpTurn();
    }

    method Close() returns (done: bool)
      requires Valid()
      modifies this
      ensures Valid() && Look() == Apply(old(Look()), QueueMachine.Close)
      ensures done <==> buffer == old(buffer) && (buffer == [] || consumers == [])
    {
      StepKeepsInv(Look(), QueueMachine.Close);
      closed := true;
      done := CloserTurn();
    }

    /** The head of the loop of a `close` call; `done` when the call resolves. */
    method CloserTurn() returns (done: bool)
      requires rrCursor < MAX_SAFE_INTEGER
      modifies this
      ensures Look() == CloserOn(old(Look())) && done == !CanStart(old(Look())) && pumping == old(pumping)
    {
      done := !(|buffer| > 0 && |consumers| > 0);
      if !done {
        var begun := ProcessNext();
        closers := closers + 1;
      }
    }

    method CloserHandled() returns (done: bool)
      requires Valid() && closers > 0
      modifies this
      ensures Valid() && Look() == Apply(old(Look()), QueueMachine.CloserHandled)
      ensures done <==> closers < old(closers)
    {
      StepKeepsInv(Look(), QueueMachine.CloserHandled);
      closers := closers - 1;
      done := CloserTurn();
    }
  }
}
