/**
 * `EventSource<T>` / `EventSourceBaseImpl<T>`: three callback channels and a FIFO
 * event queue that `Dispatch` drains on the caller's thread. The model is the
 * sequential view: the lock and the wake-up signal are left out, and each handler
 * call is recorded in a trace, in the order the calls happen.
 */
module EventSources {

  /** The three events a client can subscribe to. */
  datatype Channel = EventReceived | SourceDown | SourceUp

  /** One observable step: a handler invoked with an event, or an event put in the queue. */
  datatype Action<T> = Fired(channel: Channel, data: T) | Queued(data: T)

  /** Declared in the source but never compared against: `EnqueueEvent` does not reject. */
  const MaxQueueSize: nat := 100000

  /** What firing `channel` with `data` does: one handler call when a handler is subscribed, nothing otherwise. */
  function Firing<T>(subscribed: set<Channel>, channel: Channel, data: T): (r: seq<Action<T>>)
    ensures channel in subscribed <==> r == [Fired(channel, data)]
    ensures channel !in subscribed <==> r == []
  {
    if channel in subscribed then [Fired(channel, data)] else []
  }

  /** The handler calls that draining `events` makes: one `EventReceived` per event, in queue order. */
  function Deliveries<T>(subscribed: set<Channel>, events: seq<T>): (r: seq<Action<T>>)
  {
    if events == [] then [] else Firing(subscribed, EventReceived, events[0]) + Deliveries(subscribed, events[1..])
  }

  /** FIFO: with a handler, the i-th delivery carries the i-th queued event, and there is one per event. */
  lemma {:induction false} DeliveriesInOrder<T>(subscribed: set<Channel>, events: seq<T>)
    ensures EventReceived in subscribed ==> |Deliveries(subscribed, events)| == |events|
    ensures EventReceived in subscribed ==>
      forall i :: 0 <= i < |events| ==> Deliveries(subscribed, events)[i] == Fired(EventReceived, events[i])
    ensures EventReceived !in subscribed ==> Deliveries(subscribed, events) == []
  {
    if events != [] {
      DeliveriesInOrder(subscribed, events[1..]);
      if EventReceived in subscribed {
        var d := Deliveries(subscribed, events);
        assert d == [Fired(EventReceived, events[0])] + Deliveries(subscribed, events[1..]);
        forall i | 0 <= i < |events| ensures d[i] == Fired(EventReceived, events[i]) {
          if i > 0 { assert d[i] == Deliveries(subscribed, events[1..])[i - 1]; }
        }
      }
    }
  }

  /** Draining two batches one after the other delivers the same as draining them together. */
  lemma {:induction false} DeliveriesConcat<T>(subscribed: set<Channel>, a: seq<T>, b: seq<T>)
    ensures Deliveries(subscribed, a + b) == Deliveries(subscribed, a) + Deliveries(subscribed, b)
  {
    if a == [] {
      assert a + b == b;
    } else {
      assert (a + b)[1..] == a[1..] + b;
      DeliveriesConcat(subscribed, a[1..], b);
    }
  }

  class EventSourceBaseImpl<T> {
    /** The channels a handler is attached to. */
    var subscribed: set<Channel>
    /** Events waiting for `Dispatch`, oldest first. */
    var eventQueue: seq<T>
    /** Every handler call and every enqueue so far, in order. */
    var trace: seq<Action<T>>

    constructor ()
      ensures subscribed == {} && eventQueue == [] && trace == []
    {
      subscribed, eventQueue, trace := {}, [], [];
    }

    /** `channel += handler`. */
    method Subscribe(channel: Channel)
      modifies this
      ensures subscribed == old(subscribed) + {channel}
      ensures eventQueue == old(eventQueue) && trace == old(trace)
    {
      subscribed := subscribed + {channel};
    }

    /** `NumberOfEventInQueue`. */
    function NumberOfEventInQueue(): nat
      reads this
    {
      |eventQueue|
    }

    method FireEventReceived(data: T)
      modifies this
      ensures trace == old(trace) + Firing(subscribed, EventReceived, data)
      ensures subscribed == old(subscribed) && eventQueue == old(eventQueue)
    {
      if EventReceived in subscribed {
        trace := trace + [Fired(EventReceived, data)];
      }
    }

    method FireSourceDown(data: T)
      modifies this
      ensures trace == old(trace) + Firing(subscribed, SourceDown, data)
      ensures subscribed == old(subscribed) && eventQueue == old(eventQueue)
    {
      if SourceDown in subscribed {
        trace := trace + [Fired(SourceDown, data)];
      }
    }

    method FireSourceUp(data: T)
      modifies this
      ensures trace == old(trace) + Firing(subscribed, SourceUp, data)
      ensures subscribed == old(subscribed) && eventQueue == old(eventQueue)
    {
      if SourceUp in subscribed {
        trace := trace + [Fired(SourceUp, data)];
      }
    }

    /** Appends at the tail, whatever the queue's length. */
    method EnqueueEvent(newEvent: T)
      modifies this
      ensures eventQueue == old(eventQueue) + [newEvent]
      ensures NumberOfEventInQueue() == old(NumberOfEventInQueue()) + 1
      ensures trace == old(trace) + [Queued(newEvent)]
      ensures subscribed == old(subscribed)
    {
      eventQueue := eventQueue + [newEvent];
      trace := trace + [Queued(newEvent)];
    }

    /** The drain loop of `Dispatch`: fires `EventReceived` for each queued event, oldest first. */
    method Dispatch()
      modifies this
      ensures eventQueue == [] && NumberOfEventInQueue() == 0
      ensures trace == old(trace) + Deliveries(subscribed, old(eventQueue))
      ensures subscribed == old(subscribed)
    {
      ghost var events := eventQueue;
      ghost var k := 0;
      while |eventQueue| != 0
        invariant 0 <= k <= |events|
        invariant eventQueue == events[k..]
        invariant trace == old(trace) + Deliveries(subscribed, events[..k])
        invariant subscribed == old(subscribed)
        decreases |eventQueue|
      {
        var next := eventQueue[0];
        eventQueue := eventQueue[1..];
        FireEventReceived(next);
        DeliveriesConcat(subscribed, events[..k], [next]);
        assert events[..k + 1] == events[..k] + [next];
        k := k + 1;
      }
      assert events[..k] == events;
    }
  }

  /** Enqueueing A, B, C and dispatching calls the handler with A, B, C and leaves the queue empty. */
  method DispatchOrderExample<T>(a: T, b: T, c: T) returns (calls: seq<Action<T>>, left: nat)
    ensures calls == [Fired(EventReceived, a), Fired(EventReceived, b), Fired(EventReceived, c)]
    ensures left == 0
  {
    var source := new EventSourceBaseImpl<T>();
    source.Subscribe(EventReceived);
    source.EnqueueEvent(a);
    source.EnqueueEvent(b);
    source.EnqueueEvent(c);
    assert source.eventQueue == [a, b, c] && source.subscribed == {EventReceived};
    var before := |source.trace|;
    source.Dispatch();
    calls := source.trace[before..];
    assert calls == Deliveries({EventReceived}, [a, b, c]);
    DeliveriesInOrder({EventReceived}, [a, b, c]);
    left := source.NumberOfEventInQueue();
  }

  /** Dispatch on an empty queue calls no handler; firing without a handler calls nothing. */
  method QuietExample<T>(a: T) returns (calls: seq<Action<T>>)
    ensures calls == []
  {
    var source := new EventSourceBaseImpl<T>();
    source.Subscribe(EventReceived);
    source.Dispatch();
    source.FireSourceDown(a);
    source.FireSourceUp(a);
    calls := source.trace;
  }
}
