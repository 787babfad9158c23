/** The notification hub: two append-only lists of callbacks, one per event
    kind, and what notifying them does. A callback is an opaque reference; its
    invocation is recorded as a `Call` in an observable log. */
module Notifications {

  import opened Wrappers
  import opened Platform

  /** A registered callback function, by identity. The same function may be
      registered more than once. */
  type CallbackId = nat

  /** What a notification hands to the callbacks: `(isConnected, error)` for a
      connection change, `(data)` for received data. */
  datatype Event =
    | ConnectionChange(connected: bool, error: Option<Error>)
    | DataReceived(data: string)

  /** One invocation of one callback with one event. */
  datatype Call = Call(callback: CallbackId, event: Event)

  /** `callbacks.forEach(cb => cb(...))`: every callback once, in registration order. */
  function Broadcast(callbacks: seq<CallbackId>, e: Event): (calls: seq<Call>)
    ensures |calls| == |callbacks|
    ensures forall i :: 0 <= i < |callbacks| ==> calls[i] == Call(callbacks[i], e)
  {
    if callbacks == [] then [] else [Call(callbacks[0], e)] + Broadcast(callbacks[1..], e)
  }

  /** A callback registered later is invoked after every earlier one, and the
      earlier ones are invoked as before. */
  lemma BroadcastAfterRegister(callbacks: seq<CallbackId>, callback: CallbackId, e: Event)
    ensures Broadcast(callbacks + [callback], e) == Broadcast(callbacks, e) + [Call(callback, e)]
  {
  }

  /** The list an event is dispatched to. */
  function Listeners(connectionCallbacks: seq<CallbackId>, dataCallbacks: seq<CallbackId>, e: Event): seq<CallbackId> {
    match e
    case ConnectionChange(_, _) => connectionCallbacks
    case DataReceived(_) => dataCallbacks
  }

  /** The calls made when the events are notified one after the other. */
  function Deliver(connectionCallbacks: seq<CallbackId>, dataCallbacks: seq<CallbackId>, events: seq<Event>): seq<Call> {
    if events == [] then []
    else Broadcast(Listeners(connectionCallbacks, dataCallbacks, events[0]), events[0])
         + Deliver(connectionCallbacks, dataCallbacks, events[1..])
  }

  /** Every call made hands over one of the events, to a callback registered for its kind. */
  lemma {:induction false} DeliverDispatches(connectionCallbacks: seq<CallbackId>, dataCallbacks: seq<CallbackId>, events: seq<Event>)
    ensures forall k :: 0 <= k < |Deliver(connectionCallbacks, dataCallbacks, events)| ==>
              && Deliver(connectionCallbacks, dataCallbacks, events)[k].event in events
              && Deliver(connectionCallbacks, dataCallbacks, events)[k].callback
                   in Listeners(connectionCallbacks, dataCallbacks, Deliver(connectionCallbacks, dataCallbacks, events)[k].event)
  {
    var calls := Deliver(connectionCallbacks, dataCallbacks, events);
    if events != [] {
      var head := Broadcast(Listeners(connectionCallbacks, dataCallbacks, events[0]), events[0]);
      var tail := Deliver(connectionCallbacks, dataCallbacks, events[1..]);
      DeliverDispatches(connectionCallbacks, dataCallbacks, events[1..]);
      forall k | 0 <= k < |calls|
        ensures calls[k].event in events
        ensures calls[k].callback in Listeners(connectionCallbacks, dataCallbacks, calls[k].event)
      {
        if k < |head| {
          assert calls[k] == head[k] == Call(Listeners(connectionCallbacks, dataCallbacks, events[0])[k], events[0]);
        } else {
          assert calls[k] == tail[k - |head|];
          assert tail[k - |head|].event in events[1..];
          var j :| 0 <= j < |events[1..]| && events[1..][j] == calls[k].event;
          assert events[j + 1] == calls[k].event;
        }
      }
    }
  }

  /** Notifying a run of events and then another gives the calls of both runs, in order. */
  lemma {:induction false} DeliverAppend(connectionCallbacks: seq<CallbackId>, dataCallbacks: seq<CallbackId>, a: seq<Event>, b: seq<Event>)
    ensures Deliver(connectionCallbacks, dataCallbacks, a + b)
         == Deliver(connectionCallbacks, dataCallbacks, a) + Deliver(connectionCallbacks, dataCallbacks, b)
    decreases |a|
  {
    if a == [] {
      assert a + b == b;
    } else {
      assert (a + b)[0] == a[0];
      assert (a + b)[1..] == a[1..] + b;
      DeliverAppend(connectionCallbacks, dataCallbacks, a[1..], b);
    }
  }

  /** A single notification is one broadcast to the list of its kind. */
  lemma DeliverOne(connectionCallbacks: seq<CallbackId>, dataCallbacks: seq<CallbackId>, e: Event)
    ensures Deliver(connectionCallbacks, dataCallbacks, [e])
         == Broadcast(Listeners(connectionCallbacks, dataCallbacks, e), e)
  {
  }

  /** Two notifications are two broadcasts, in order. */
  lemma DeliverTwo(connectionCallbacks: seq<CallbackId>, dataCallbacks: seq<CallbackId>, first: Event, second: Event)
    ensures Deliver(connectionCallbacks, dataCallbacks, [first, second])
         == Broadcast(Listeners(connectionCallbacks, dataCallbacks, first), first)
            + Broadcast(Listeners(connectionCallbacks, dataCallbacks, second), second)
  {
    assert [first, second][1..] == [second];
    DeliverOne(connectionCallbacks, dataCallbacks, second);
  }
}
