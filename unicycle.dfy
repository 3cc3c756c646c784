/**
 * `Store` and `Unicycle` of Unicycle.js, the older store. It differs from
 * cyclet.js in three ways: the action emitter belongs to a `Unicycle`
 * instance and is handed to every store that instance creates; `addListener`
 * returns the raw subscription and there is no `removeListener`; and the
 * constructor runs `init` before it binds any handler or method.
 */
module Unicycle {
  import opened Wrappers
  import opened ImmutableState
  import opened Emitter
  import opened Definition
  import opened Updates

  class Store {
    /** `this._state`: the current state version. */
    var state: State
    /** `this._updateEmitter`. */
    const updateEmitter: EventEmitter<UpdateEvent, ListenerId>
    /** The definition keys installed as methods. */
    var methods: set<string>
    /** What `init` saw when it ran; `None` if the definition has no `init`. */
    ghost var initView: Option<InitView<Store>>

    ghost predicate Valid()
      reads this, updateEmitter
    {
      updateEmitter.Valid()
    }

    /**
     * `new Store(actionEmitter, definition)`: empty state and no listeners;
     * `init` first, while the store has no methods and the action emitter
     * holds only what it held before; then every `$`-key registered on the
     * action emitter and every other non-`init` key installed as a method.
     */
    constructor (actionEmitter: EventEmitter<string, Handler<Store>>, definition: seq<string>)
      requires actionEmitter.Valid()
      modifies actionEmitter
      ensures Valid() && fresh(updateEmitter)
      ensures state == Empty && updateEmitter.registrations == []
      ensures actionEmitter.Valid()
      ensures Entries(actionEmitter.registrations) == old(Entries(actionEmitter.registrations)) + ActionBindings(this, definition)
      ensures methods == MethodKeys(definition)
      ensures initView == if HasInit(definition)
        then Some(InitView({}, old(Entries(actionEmitter.registrations))))
        else None
      ensures forall e :: e in old(Entries(actionEmitter.registrations)) ==> e.listener.owner != this
    {
      updateEmitter := new EventEmitter();
      state := Empty;
      methods := {};
      initView := None;
      new;
      if HasInit(definition) {
        initView := Some(InitView(methods, Entries(actionEmitter.registrations)));
      }
      BindDefinition(actionEmitter, definition);
    }

    /**
     * The constructor's `for (var key in definition)` loop: each `$`-key's
     * bound function registered on the action emitter under the stripped
     * name, in key order, and each other non-`init` key installed as a method.
     */
    method BindDefinition(actionEmitter: EventEmitter<string, Handler<Store>>, definition: seq<string>)
      requires actionEmitter.Valid() && methods == {}
      modifies this`methods, actionEmitter
      ensures actionEmitter.Valid()
      ensures Entries(actionEmitter.registrations) == old(Entries(actionEmitter.registrations)) + ActionBindings(this, definition)
      ensures methods == MethodKeys(definition)
    {
      ghost var before := Entries(actionEmitter.registrations);
      var i := 0;
      while i < |definition|
        invariant 0 <= i <= |definition|
        invariant actionEmitter.Valid()
        invariant Entries(actionEmitter.registrations) == before + ActionBindings(this, definition[..i])
        invariant methods == MethodKeys(definition[..i])
      {
        var key := definition[i];
        assert definition[..i + 1] == definition[..i] + [key];
        ActionBindingsSnoc(this, definition[..i], key);
        MethodKeysSnoc(definition[..i], key);
        BindKey(actionEmitter, key);
        i := i + 1;
      }
      assert definition[..i] == definition;
    }

    /** One pass of the key loop: a `$`-key registers its handler, any other key but `init` becomes a method. */
    method BindKey(actionEmitter: EventEmitter<string, Handler<Store>>, key: string)
      requires actionEmitter.Valid()
      modifies this`methods, actionEmitter
      ensures actionEmitter.Valid()
      ensures Entries(actionEmitter.registrations) == old(Entries(actionEmitter.registrations))
        + (if IsActionKey(key) then [Entry(key[1..], Handler(this, key))] else [])
      ensures methods == old(methods) + (if IsMethodKey(key) then {key} else {})
    {
      if IsActionKey(key) {
        ghost var regs := actionEmitter.registrations;
        var sub := actionEmitter.AddListener(key[1..], Handler(this, key));
        EntriesAppend(regs, [sub]);
      } else if key != InitKey {
        methods := methods + {key};
      }
    }

    /** `addListener(l)`: a new registration for `l` on the update emitter, returned to the caller. */
    method AddListener(l: ListenerId) returns (sub: Subscription<UpdateEvent, ListenerId>)
      requires Valid()
      modifies updateEmitter
      ensures Valid()
      ensures fresh(sub) && sub.emitter == updateEmitter && sub.event == StoreUpdate && sub.listener == l
      ensures updateEmitter.registrations == old(updateEmitter.registrations) + [sub]
    {
      sub := updateEmitter.AddListener(StoreUpdate, l);
    }

    /** `get(key)`: the current state's value under `key`, or undefined. */
    function Get(key: string): (r: Option<Value>)
      reads this
      ensures r.Some? <==> key in state
      ensures r.Some? ==> r.value == state[key]
    {
      ImmutableState.Get(state, key)
    }

    /** `notifyListeners()`: one emission of `'update'`; the state stays as it is. */
    method NotifyListeners() returns (trace: seq<Invocation>)
      ensures trace == Notifications(ListenersFor(Entries(updateEmitter.registrations), StoreUpdate), state)
    {
      var invoked := updateEmitter.Emit(StoreUpdate);
      trace := Notifications(invoked, state);
    }

    /** `set(diff, callback)`: merge `diff` into the state, then notify, then run the callback if given. */
    method Set(diff: State, callback: Option<CallbackId>) returns (trace: seq<Invocation>)
      modifies this`state
      ensures state == Merge(old(state), diff)
      ensures forall k :: Get(k) == if k in diff then Some(diff[k]) else old(Get(k))
      ensures trace == SetTrace(ListenersFor(Entries(updateEmitter.registrations), StoreUpdate), state, callback)
    {
      state := Merge(state, diff);
      trace := NotifyListeners();
      if callback.Some? {
        trace := trace + [CallbackRan(callback.value, state)];
      }
    }

    /** `clear()`: install the empty state, then notify. */
    method Clear() returns (trace: seq<Invocation>)
      modifies this`state
      ensures state == Empty
      ensures forall k :: Get(k) == None
      ensures trace == Notifications(ListenersFor(Entries(updateEmitter.registrations), StoreUpdate), Empty)
    {
      state := Empty;
      trace := NotifyListeners();
    }
  }

  /** A `Unicycle` instance: its own action emitter, `createStore` and `exec`. */
  class Unicycle {
    /** `this._actionEmitter`. */
    const actionEmitter: EventEmitter<string, Handler<Store>>

    constructor ()
      ensures fresh(actionEmitter) && actionEmitter.Valid() && actionEmitter.registrations == []
    {
      actionEmitter := new EventEmitter();
    }

    /** `createStore(definition)`: a new store whose handlers go on this instance's action emitter. */
    method CreateStore(definition: seq<string>) returns (store: Store)
      requires actionEmitter.Valid()
      modifies actionEmitter
      ensures fresh(store) && fresh(store.updateEmitter) && store.Valid() && actionEmitter.Valid()
      ensures store.state == Empty && store.updateEmitter.registrations == []
      ensures Entries(actionEmitter.registrations) == old(Entries(actionEmitter.registrations)) + ActionBindings(store, definition)
      ensures store.methods == MethodKeys(definition)
      ensures store.initView == if HasInit(definition)
        then Some(InitView({}, old(Entries(actionEmitter.registrations))))
        else None
    {
      store := new Store(actionEmitter, definition);
    }

    /** `exec(name, ...args)`: every handler on this instance's emitter registered under `name`, in order, with `args`. */
    method Exec(name: string, args: seq<Value>) returns (calls: seq<HandlerCall<Store>>)
      ensures calls == Dispatch(ListenersFor(Entries(actionEmitter.registrations), name), args)
    {
      var handlers := actionEmitter.Emit(name);
      calls := Dispatch(handlers, args);
    }
  }

  /**
   * Two stores created from one `Unicycle` share its action emitter: after
   * both constructions, an `exec(name)` reaches what was registered before,
   * then the first store's handler for `"$" + name`, then the second's.
   */
  lemma SharedEmitterReachesBothStores(before: seq<Entry<string, Handler<Store>>>,
                                       first: Store, firstKeys: seq<string>,
                                       second: Store, secondKeys: seq<string>, name: string)
    requires DistinctKeys(firstKeys) && DistinctKeys(secondKeys)
    ensures ListenersFor(before + ActionBindings(first, firstKeys) + ActionBindings(second, secondKeys), name)
         == ListenersFor(before, name)
          + (if "$" + name in firstKeys then [Handler(first, "$" + name)] else [])
          + (if "$" + name in secondKeys then [Handler(second, "$" + name)] else [])
  {
    ListenersForAppend(before + ActionBindings(first, firstKeys), ActionBindings(second, secondKeys), name);
    ListenersForAppend(before, ActionBindings(first, firstKeys), name);
    HandlersForAction(first, firstKeys, name);
    HandlersForAction(second, secondKeys, name);
  }
}
