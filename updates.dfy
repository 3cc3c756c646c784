/**
 * What a store's update notifications look like from outside. Listeners and
 * callbacks are opaque functions, so each operation returns the ordered trace
 * of the calls it makes, with the state each call observes.
 */
module Updates {
  import opened Wrappers
  import opened ImmutableState

  /** The one event of a store's private update emitter. */
  datatype UpdateEvent = StoreUpdate

  /** The identity of a listener function. */
  type ListenerId = nat

  /** The identity of the callback passed to `set`. */
  type CallbackId = nat

  datatype Invocation =
    | Notified(listener: ListenerId, observed: State)
    | CallbackRan(callback: CallbackId, observed: State)

  /** One emission of the update event: each reached listener, in order, seeing `s`. */
  function Notifications(listeners: seq<ListenerId>, s: State): (r: seq<Invocation>)
    ensures |r| == |listeners|
    ensures forall i :: 0 <= i < |r| ==> r[i] == Notified(listeners[i], s)
  {
    seq(|listeners|, i requires 0 <= i < |listeners| => Notified(listeners[i], s))
  }

  /** `set(diff, callback)` after the merge: notify every listener, then run the callback if there is one. */
  function SetTrace(listeners: seq<ListenerId>, s: State, callback: Option<CallbackId>): seq<Invocation>
  {
    Notifications(listeners, s) + (if callback.Some? then [CallbackRan(callback.value, s)] else [])
  }

  /**
   * The order `set` promises: every reached listener once, in order, then the
   * callback last and only if one was given; every call sees the merged state.
   */
  lemma SetTraceOrder(listeners: seq<ListenerId>, s: State, callback: Option<CallbackId>)
    ensures var t := SetTrace(listeners, s, callback);
      |t| == |listeners| + (if callback.Some? then 1 else 0) &&
      (forall i :: 0 <= i < |listeners| ==> t[i] == Notified(listeners[i], s)) &&
      (callback.Some? ==> t[|t| - 1] == CallbackRan(callback.value, s)) &&
      (forall i :: 0 <= i < |t| && t[i].CallbackRan? ==> callback.Some? && i == |t| - 1)
  {
  }
}
