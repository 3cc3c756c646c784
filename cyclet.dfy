/**
 * `Store` and `Cyclet` of cyclet.js: the listener-keyed store. Its
 * constructor binds handlers and methods first and runs `init` last; it
 * remembers, per listener, the subscription of that listener's latest
 * `addListener`, so `removeListener(listener)` can cancel it by identity.
 * The module-wide action emitter is held by the `Cyclet` object, which the
 * model uses for the module scope, and is handed to each store it creates.
 */
module Cyclet {
  import opened Wrappers
  import opened ImmutableState
  import opened Emitter
  import opened Definition
  import opened Updates

  type UpdateSubscription = Subscription<UpdateEvent, ListenerId>

  /** A store's listener bookkeeping: the live registrations on its update emitter and the subscriptions-by-listener map. */
  datatype Tracking = Tracking(live: seq<UpdateSubscription>, byListener: map<ListenerId, UpdateSubscription>)

  /**
   * The bookkeeping is consistent: the live registrations are distinct, and
   * every tracked subscription is one of them, on the store's emitter, is
   * the registration of its own listener for the update event, and is
   * tracked for one listener only.
   */
  ghost predicate TrackingValid(t: Tracking, emitter: EventEmitter<UpdateEvent, ListenerId>)
  {
    Distinct(t.live) &&
    (forall l :: l in t.byListener ==>
      t.byListener[l] in t.live && t.byListener[l].emitter == emitter &&
      t.byListener[l].listener == l && t.byListener[l].event == StoreUpdate) &&
    (forall l1, l2 :: l1 in t.byListener && l2 in t.byListener && l1 != l2 ==> t.byListener[l1] != t.byListener[l2])
  }

  /** A store with no listeners is consistent. */
  lemma NoListenersTracking(emitter: EventEmitter<UpdateEvent, ListenerId>)
    ensures TrackingValid(Tracking([], map[]), emitter)
  {
  }

  /** `addListener(l)` with the new registration `s`: it goes live and becomes the one tracked for `l`. */
  function AfterAddListener(t: Tracking, l: ListenerId, s: UpdateSubscription): Tracking
  {
    Tracking(t.live + [s], t.byListener[l := s])
  }

  /** `removeListener(l)`: cancel and forget the subscription tracked for `l`; nothing when there is none. */
  function AfterRemoveListener(t: Tracking, l: ListenerId): Tracking
  {
    if l in t.byListener then Tracking(Without(t.live, t.byListener[l]), t.byListener - {l})
    else t
  }

  /** Adding a listener with a registration that was not live keeps the bookkeeping consistent. */
  lemma AddListenerKeepsTracking(t: Tracking, emitter: EventEmitter<UpdateEvent, ListenerId>, l: ListenerId, s: UpdateSubscription)
    requires TrackingValid(t, emitter) && s !in t.live
    requires s.emitter == emitter && s.listener == l && s.event == StoreUpdate
    ensures TrackingValid(AfterAddListener(t, l, s), emitter)
  {
  }

  /** Removing a listener keeps the bookkeeping consistent. */
  lemma RemoveListenerKeepsTracking(t: Tracking, emitter: EventEmitter<UpdateEvent, ListenerId>, l: ListenerId)
    requires TrackingValid(t, emitter)
    ensures TrackingValid(AfterRemoveListener(t, l), emitter)
  {
    if l in t.byListener {
      var s := t.byListener[l];
      WithoutKeepsDistinct(t.live, s);
      forall other | other in t.byListener - {l}
        ensures t.byListener[other] in Without(t.live, s)
      {
        WithoutMembers(t.live, s, t.byListener[other]);
      }
    }
  }

  /** `removeListener(l)` twice is `removeListener(l)` once. */
  lemma RemoveListenerIdempotent(t: Tracking, l: ListenerId)
    ensures AfterRemoveListener(AfterRemoveListener(t, l), l) == AfterRemoveListener(t, l)
  {
  }

  /**
   * `removeListener(l)` leaves every other listener tracked as before, with
   * its registration still live, and takes exactly one call to `l` out of
   * the next notification.
   */
  lemma RemoveListenerLeavesOthers(t: Tracking, emitter: EventEmitter<UpdateEvent, ListenerId>, l: ListenerId, other: ListenerId)
    requires TrackingValid(t, emitter) && l in t.byListener && other != l
    ensures var t' := AfterRemoveListener(t, l);
      (other in t'.byListener <==> other in t.byListener) &&
      (other in t.byListener ==> t'.byListener[other] == t.byListener[other] && t'.byListener[other] in t'.live)
    ensures multiset(ListenersFor(Entries(AfterRemoveListener(t, l).live), StoreUpdate)) + multiset{l}
         == multiset(ListenersFor(Entries(t.live), StoreUpdate))
  {
    var s := t.byListener[l];
    RemoveSilencesOneCall(t.live, s, StoreUpdate);
    if other in t.byListener {
      WithoutMembers(t.live, s, t.byListener[other]);
    }
  }

  /**
   * `removeListener(l)`, where `l`'s tracked registration sits at `i`: the
   * next notification reaches the listeners registered before it, then those
   * registered after it, in their order, and only the call to `l` from that
   * registration is gone.
   */
  lemma RemoveListenerKeepsOrder(t: Tracking, emitter: EventEmitter<UpdateEvent, ListenerId>, l: ListenerId, i: nat)
    requires TrackingValid(t, emitter) && l in t.byListener && i < |t.live| && t.live[i] == t.byListener[l]
    ensures ListenersFor(Entries(t.live), StoreUpdate)
         == ListenersFor(Entries(t.live[..i]), StoreUpdate) + [l] + ListenersFor(Entries(t.live[i + 1..]), StoreUpdate)
    ensures ListenersFor(Entries(AfterRemoveListener(t, l).live), StoreUpdate)
         == ListenersFor(Entries(t.live[..i]), StoreUpdate) + ListenersFor(Entries(t.live[i + 1..]), StoreUpdate)
  {
    RemoveKeepsOrder(t.live, i, StoreUpdate);
  }

  /**
   * A second `addListener(l)` replaces the tracked handle: `removeListener(l)`
   * then cancels only the second registration, and the first one stays live,
   * so `l` is still notified once.
   */
  lemma {:induction false} ReAddedListenerStaysLive(t: Tracking, l: ListenerId, s1: UpdateSubscription, s2: UpdateSubscription)
    requires s1 !in t.live && s2 !in t.live && s1 != s2
    ensures var t' := AfterRemoveListener(AfterAddListener(AfterAddListener(t, l, s1), l, s2), l);
      t' == Tracking(t.live + [s1], t.byListener - {l})
    ensures ListenersFor(Entries(AfterRemoveListener(AfterAddListener(AfterAddListener(t, l, s1), l, s2), l).live), StoreUpdate)
         == ListenersFor(Entries(t.live), StoreUpdate) + (if s1.event == StoreUpdate then [s1.listener] else [])
  {
    WithoutAppend(t.live + [s1], [s2], s2);
    WithoutAbsent(t.live + [s1], s2);
    assert [s2][..0] == [];
    assert Without([s2], s2) == [];
    assert t.byListener[l := s1][l := s2] - {l} == t.byListener - {l};
    EntriesAppend(t.live, [s1]);
    ListenersForAppend(Entries(t.live), Entries([s1]), StoreUpdate);
    assert Entries([s1]) == [Entry(s1.event, s1.listener)];
  }

  class Store {
    /** The current state version; replaced, never changed in place. */
    var state: State
    /** The store's private update emitter. */
    const updateEmitter: EventEmitter<UpdateEvent, ListenerId>
    /** The subscription of each listener's latest `addListener`. */
    var subscriptionsByListener: map<ListenerId, UpdateSubscription>
    /** The definition keys installed as methods (`this[key] = definition[key].bind(this)`). */
    var methods: set<string>
    /** What `init` saw when it ran; `None` if the definition has no `init`. */
    ghost var initView: Option<InitView<Store>>

    ghost function Tracked(): Tracking
      reads this, updateEmitter
    {
      Tracking(updateEmitter.registrations, subscriptionsByListener)
    }

    ghost predicate Valid()
      reads this, updateEmitter
    {
      updateEmitter.Valid() && TrackingValid(Tracked(), updateEmitter)
    }

    /**
     * `new Store(definition)`: empty state and no listeners; every `$`-key
     * registered on the action emitter, every other non-`init` key installed
     * as a method, and then `init` run, seeing all of those bindings.
     */
    constructor (actionEmitter: EventEmitter<string, Handler<Store>>, definition: seq<string>)
      requires actionEmitter.Valid()
      modifies actionEmitter
      ensures Valid() && fresh(updateEmitter)
      ensures state == Empty && updateEmitter.registrations == [] && subscriptionsByListener == map[]
      ensures actionEmitter.Valid()
      ensures Entries(actionEmitter.registrations) == old(Entries(actionEmitter.registrations)) + ActionBindings(this, definition)
      ensures methods == MethodKeys(definition)
      ensures initView == if HasInit(definition)
        then Some(InitView(MethodKeys(definition), old(Entries(actionEmitter.registrations)) + ActionBindings(this, definition)))
        else None
    {
      updateEmitter := new EventEmitter();
      state := Empty;
      subscriptionsByListener := map[];
      methods := {};
      initView := None;
      new;
      BindDefinition(actionEmitter, definition);
      if HasInit(definition) {
        initView := Some(InitView(methods, Entries(actionEmitter.registrations)));
      }
      NoListenersTracking(updateEmitter);
      assert Tracked() == Tracking([], map[]);
    }

    /**
     * The constructor's `for (let key in definition)` loop: each `$`-key's
     * bound function registered on the action emitter under the stripped
     * name, in key order, and each other non-`init` key installed as a method.
     */
    method BindDefinition(actionEmitter: EventEmitter<string, Handler<Store>>, definition: seq<string>)
      requires actionEmitter.Valid() && methods == {}
      modifies this`methods, actionEmitter
      ensures actionEmitter.Valid()
      ensures Entries(actionEmitter.registrations) == old(Entries(actionEmitter.registrations)) + ActionBindings(this, definition)
      ensures methods == MethodKeys(definition)
    {
      ghost var before := Entries(actionEmitter.registrations);
      var i := 0;
      while i < |definition|
        invariant 0 <= i <= |definition|
        invariant actionEmitter.Valid()
        invariant Entries(actionEmitter.registrations) == before + ActionBindings(this, definition[..i])
        invariant methods == MethodKeys(definition[..i])
      {
        var key := definition[i];
        assert definition[..i + 1] == definition[..i] + [key];
        ActionBindingsSnoc(this, definition[..i], key);
        MethodKeysSnoc(definition[..i], key);
        BindKey(actionEmitter, key);
        i := i + 1;
      }
      assert definition[..i] == definition;
    }

    /** One pass of the key loop: a `$`-key registers its handler, any other key but `init` becomes a method. */
    method BindKey(actionEmitter: EventEmitter<string, Handler<Store>>, key: string)
      requires actionEmitter.Valid()
      modifies this`methods, actionEmitter
      ensures actionEmitter.Valid()
      ensures Entries(actionEmitter.registrations) == old(Entries(actionEmitter.registrations))
        + (if IsActionKey(key) then [Entry(key[1..], Handler(this, key))] else [])
      ensures methods == old(methods) + (if IsMethodKey(key) then {key} else {})
    {
      if IsActionKey(key) {
        ghost var regs := actionEmitter.registrations;
        var sub := actionEmitter.AddListener(key[1..], Handler(this, key));
        EntriesAppend(regs, [sub]);
      } else if key != InitKey {
        methods := methods + {key};
      }
    }

    /** `addListener(l)`: a new registration for `l`, which becomes the one tracked for `l`. */
    method AddListener(l: ListenerId)
      requires Valid()
      modifies this`subscriptionsByListener, updateEmitter
      ensures Valid()
      ensures l in subscriptionsByListener && fresh(subscriptionsByListener[l])
      ensures subscriptionsByListener[l].event == StoreUpdate && subscriptionsByListener[l].listener == l
      ensures Tracked() == AfterAddListener(old(Tracked()), l, subscriptionsByListener[l])
    {
      ghost var before := Tracked();
      var sub := updateEmitter.AddListener(StoreUpdate, l);
      AddListenerKeepsTracking(before, updateEmitter, l, sub);
      subscriptionsByListener := subscriptionsByListener[l := sub];
    }

    /** `removeListener(l)`: cancel the subscription tracked for `l` and forget it; a no-op when none is tracked. */
    method RemoveListener(l: ListenerId)
      requires Valid()
      modifies this`subscriptionsByListener, updateEmitter
      ensures Valid()
      ensures Tracked() == AfterRemoveListener(old(Tracked()), l)
    {
      RemoveListenerKeepsTracking(Tracked(), updateEmitter, l);
      if l in subscriptionsByListener {
        var sub := subscriptionsByListener[l];
        sub.Remove();
        subscriptionsByListener := subscriptionsByListener - {l};
      }
    }

    /** `get(key)`: the current state's value under `key`, or undefined. */
    function Get(key: string): (r: Option<Value>)
      reads this
      ensures r.Some? <==> key in state
      ensures r.Some? ==> r.value == state[key]
    {
      ImmutableState.Get(state, key)
    }

    /** `notifyListeners()`: one emission of the update event; the state stays as it is. */
    method NotifyListeners() returns (trace: seq<Invocation>)
      ensures trace == Notifications(ListenersFor(Entries(updateEmitter.registrations), StoreUpdate), state)
    {
      var invoked := updateEmitter.Emit(StoreUpdate);
      trace := Notifications(invoked, state);
    }

    /** `set(diff, callback)`: merge `diff` into the state, then notify, then run the callback if given. */
    method Set(diff: State, callback: Option<CallbackId>) returns (trace: seq<Invocation>)
      modifies this`state
      ensures state == Merge(old(state), diff)
      ensures forall k :: Get(k) == if k in diff then Some(diff[k]) else old(Get(k))
      ensures trace == SetTrace(ListenersFor(Entries(updateEmitter.registrations), StoreUpdate), state, callback)
    {
      state := Merge(state, diff);
      trace := NotifyListeners();
      if callback.Some? {
        trace := trace + [CallbackRan(callback.value, state)];
      }
    }

    /** `clear()`: install the empty state, then notify. */
    method Clear() returns (trace: seq<Invocation>)
      modifies this`state
      ensures state == Empty
      ensures forall k :: Get(k) == None
      ensures trace == Notifications(ListenersFor(Entries(updateEmitter.registrations), StoreUpdate), Empty)
    {
      state := Empty;
      trace := NotifyListeners();
    }
  }

  /** The module scope of cyclet.js: its one action emitter, `createStore` and `exec`. */
  class Cyclet {
    const actionEmitter: EventEmitter<string, Handler<Store>>

    /** `const actionEmitter = new EventEmitter()`. */
    constructor ()
      ensures fresh(actionEmitter) && actionEmitter.Valid() && actionEmitter.registrations == []
    {
      actionEmitter := new EventEmitter();
    }

    /** `Cyclet.createStore(definition)`: a new store bound to the module's action emitter. */
    method CreateStore(definition: seq<string>) returns (store: Store)
      requires actionEmitter.Valid()
      modifies actionEmitter
      ensures fresh(store) && fresh(store.updateEmitter) && store.Valid() && actionEmitter.Valid()
      ensures store.state == Empty && store.updateEmitter.registrations == [] && store.subscriptionsByListener == map[]
      ensures Entries(actionEmitter.registrations) == old(Entries(actionEmitter.registrations)) + ActionBindings(store, definition)
      ensures store.methods == MethodKeys(definition)
      ensures store.initView == if HasInit(definition)
        then Some(InitView(MethodKeys(definition), Entries(actionEmitter.registrations)))
        else None
    {
      store := new Store(actionEmitter, definition);
    }

    /** `Cyclet.exec(name, ...args)`: every handler registered under `name`, in registration order, called with `args`. */
    method Exec(name: string, args: seq<Value>) returns (calls: seq<HandlerCall<Store>>)
      ensures calls == Dispatch(ListenersFor(Entries(actionEmitter.registrations), name), args)
    {
      var handlers := actionEmitter.Emit(name);
      calls := Dispatch(handlers, args);
    }
  }
}
