# Store, dispatch and subscription core of cyclet

This project models, in Dafny, the store core of the cyclet library: a
unidirectional-data-flow state container. A *store* holds a shallow
key/value state that every `set` or `clear` replaces with a new version,
notifies its own listeners after every change, and receives *actions*
broadcast by `exec` through an action emitter. A store is built from a
*definition*: a key starting with `$` is an action handler for the action
named by the rest of the key, the key `init` is a start-up hook, and every
other key becomes a method of the store.

The library exists in two versions, and both are modelled:

- `cyclet.js` (module `Cyclet`): one module-wide action emitter; the store
  keeps, per listener, the subscription of that listener's latest
  `addListener`, so `removeListener(listener)` can cancel it by identity;
  the constructor binds handlers and methods first and runs `init` last.
- `Unicycle.js` (module `Unicycle`): the action emitter belongs to a
  `Unicycle` instance and is shared by the stores it creates;
  `addListener` returns the raw subscription and there is no
  `removeListener`; the constructor runs `init` before binding anything.

Shared modules:

- `ImmutableState`: state as `map<string, Value>`, `Get` (absent key reads
  as `None`, JavaScript's `undefined`) and the shallow right-biased `Merge`.
- `Emitter`: the event channel (`EventEmitter` class) as an ordered list of
  live `Subscription` objects; `AddListener` appends one, `Subscription.Remove`
  cancels exactly that one, `Emit` returns the listeners it invokes, in
  registration order. `ListenersFor` and `Without` are the specification
  functions these methods are proved against.
- `Definition`: classification of definition keys, the bound handler
  `Handler(store, key)`, `ActionBindings` (what a constructor registers on
  the action emitter) and `MethodKeys` (what it installs as methods).
- `Updates`: the ordered traces `notifyListeners`, `set` and `clear`
  produce. Every listener call records the state the listener observes.

Modelling choices:

- Listener, handler, callback and `init` functions are opaque. A listener or
  callback is an identifier, and a handler is the pair (store, key) it is
  bound to. Operations that call them return the ordered trace of the calls.
- The definition is the sequence of its keys in the order
  `for (... in definition)` visits them. Nothing sorts the keys. `init` is
  present when the key `init` is one of them.
- JavaScript has a module-level `const actionEmitter`, and Dafny has no
  mutable globals. So in `cyclet.js` the emitter is a field of the `Cyclet`
  object, which stands for the module scope. The `Store` constructors of
  both versions take the action emitter as a parameter.
- When `init` runs, the store records an `InitView` snapshot: the methods
  installed so far and the entries on the action emitter. For `cyclet.js`,
  the snapshot holds every binding of the definition. For `Unicycle.js`, it
  holds no method and only the emitter's earlier entries.

## Model

| member | source | states |
|---|---|---|
| `ImmutableState.Get` | cyclet.js:82-84 | a key present in the state reads as its value; an absent key reads as undefined |
| `ImmutableState.Merge` | cyclet.js:86-89 | the merged version has the keys of both inputs; keys in the diff take the incoming value and all other keys keep the old one |
| `ImmutableState.GetAfterMerge` | cyclet.js:82-89 | after `set(diff)`, `get(k)` returns `diff[k]` for a key in `diff` and the previous value for every other key |
| `ImmutableState.GetEmpty` | cyclet.js:96-99 | after `clear`, every key reads as undefined |
| `Emitter.EventEmitter.AddListener` | cyclet.js:65-68 | appends exactly one new registration, a fresh subscription for the given event and listener, after the existing ones |
| `Emitter.EventEmitter.Emit` | cyclet.js:101-103 | invokes one call per live registration for the event, in registration order, and changes nothing |
| `Emitter.ListenersForMembers` | cyclet.js:101-103 | an emission reaches a listener exactly when the listener has a live registration for that event |
| `Emitter.UnregisteredEventReachesNobody` | cyclet.js:113-115 | an action or event that no one registered for invokes nothing |
| `Emitter.ListenersForAppend` | Unicycle.js:56-58 | an emission over registrations added in two batches reaches the first batch's listeners, then the second batch's |
| `Emitter.Subscription.Remove` | cyclet.js:77 | `subscription.remove()` leaves every other registration live, in order, and keeps the channel consistent |
| `Emitter.WithoutMembers` | cyclet.js:77 | after a removal, the registrations left are exactly the other registrations |
| `Emitter.RemoveIdempotent` | Unicycle.js:70 | removing a subscription twice has the same effect as removing it once |
| `Emitter.RemoveSilencesOneCall` | Unicycle.js:23-25 | removing a live subscription leaves emissions of other events as they were, and takes exactly one call to its listener out of emissions of its event |
| `Emitter.RemoveKeepsOrder` | cyclet.js:77 | cancelling one registration keeps every emission in registration order: the listeners registered before it, then those after it, with only its own call gone |
| `Emitter.RemovedListenerSilent` | Unicycle.js:70 | after `remove()`, a listener whose only registration it was is not invoked by later notifications |
| `Definition.ReservedInitKey` | cyclet.js:31 | `init` is classified as neither an action key nor a method key |
| `Definition.ActionBindingsOwned` | cyclet.js:23-30 | every registration a definition adds belongs to the store, comes from a `$`-key of the definition, and is under that key minus its first character |
| `Definition.ActionBindingsMembers` | cyclet.js:24-29 | a (name, handler) registration is added exactly when its key is a `$`-key of the definition and the name is that key minus its first character |
| `Definition.ActionBindingsOnePerKey` | cyclet.js:24-29 | each `$`-key registers as many handlers as it occurs as a key, so exactly one for an object's key |
| `Definition.MethodKeysMembers` | cyclet.js:31-33 | the installed methods are exactly the keys that are neither `$`-prefixed nor `init` |
| `Definition.HandlersForAction` | cyclet.js:26-29 | an action `name` reaches a store's handler for the key `"$" + name` if the definition has that key, and no handler of that store otherwise |
| `Updates.SetTraceOrder` | cyclet.js:86-94 | `set` notifies every reached listener once, in order, then runs the callback last, and only if one was given; every call sees the merged state |
| `Cyclet.NoListenersTracking` | cyclet.js:20-22 | a new store with no listeners has consistent listener bookkeeping |
| `Cyclet.AddListenerKeepsTracking` | cyclet.js:62-70 | `addListener` keeps the bookkeeping consistent: tracked subscriptions are live, distinct, and belong to their own listener |
| `Cyclet.RemoveListenerKeepsTracking` | cyclet.js:72-80 | `removeListener` keeps the bookkeeping consistent |
| `Cyclet.RemoveListenerIdempotent` | cyclet.js:72-80 | `removeListener(l)` twice equals `removeListener(l)` once |
| `Cyclet.RemoveListenerLeavesOthers` | cyclet.js:72-80 | other listeners' map entries and registrations are unchanged, and exactly one call to `l` leaves the next notification |
| `Cyclet.RemoveListenerKeepsOrder` | cyclet.js:72-80 | after `removeListener(l)`, the next notification reaches the listeners registered before `l`'s tracked registration, then those after it, in order, with only that call to `l` gone |
| `Cyclet.ReAddedListenerStaysLive` | cyclet.js:62-80 | after `addListener(l)` twice, `removeListener(l)` cancels only the second registration; the first stays live, so `l` is still notified once |
| `Cyclet.Store.constructor` | cyclet.js:19-38 | empty state and no listeners (the state `init` starts from, see "Left out"); the definition's handlers are appended to the action emitter and its methods installed; `init`, if present, runs once, after all bindings, and sees all of them |
| `Cyclet.Store.BindDefinition` | cyclet.js:23-34 | the key loop registers exactly `ActionBindings` on the action emitter, in key order, and installs exactly `MethodKeys` |
| `Cyclet.Store.BindKey` | cyclet.js:24-33 | one pass of the key loop: a `$`-key appends its handler under the stripped name; any other key except `init` is added to the methods |
| `Cyclet.Store.AddListener` | cyclet.js:62-70 | adds a fresh registration for `l`; it overwrites the tracked handle for `l` and leaves any earlier registration live |
| `Cyclet.Store.RemoveListener` | cyclet.js:72-80 | cancels and forgets the subscription tracked for `l`; with no entry for `l` it changes nothing |
| `Cyclet.Store.Get` | cyclet.js:82-84 | `get(key)` is defined exactly for the keys of the current state and returns the value stored there |
| `Cyclet.Store.NotifyListeners` | cyclet.js:101-103 | one notification per live registration, in order, each seeing the unchanged state |
| `Cyclet.Store.Set` | cyclet.js:82-94 | the new state is the old state merged with `diff`, so afterwards `get(k)` returns `diff[k]` for a key of `diff` and the previous `get(k)` otherwise; then every listener is notified with the new state; then the callback runs, if one was given |
| `Cyclet.Store.Clear` | cyclet.js:82-99 | the state becomes empty, so every `get(k)` is undefined, then every listener is notified once |
| `Cyclet.Cyclet.constructor` | cyclet.js:15 | the module's action emitter starts empty |
| `Cyclet.Cyclet.CreateStore` | cyclet.js:109-111 | a fresh store whose handlers are appended to the module's action emitter |
| `Cyclet.Cyclet.Exec` | cyclet.js:113-115 | calls every handler registered under `name`, in registration order, with the given arguments |
| `Unicycle.Store.constructor` | Unicycle.js:6-21 | empty state and no listeners (the state `init` starts from, see "Left out"); `init`, if present, runs first, while the store has no methods and the action emitter holds only its earlier entries, none of them a handler of this store; then the handlers and methods are bound |
| `Unicycle.Store.BindDefinition` | Unicycle.js:12-20 | the key loop registers exactly `ActionBindings` on the injected action emitter and installs exactly `MethodKeys` |
| `Unicycle.Store.BindKey` | Unicycle.js:13-19 | one pass of the key loop: a `$`-key appends its handler under the stripped name; any other key except `init` is added to the methods |
| `Unicycle.Store.AddListener` | Unicycle.js:23-25 | returns a fresh subscription for `l` on the update emitter, appended after the existing registrations |
| `Unicycle.Store.Get` | Unicycle.js:27-29 | `get(key)` is defined exactly for the keys of the current state and returns the value stored there |
| `Unicycle.Store.Set` | Unicycle.js:27-37 | the new state is the old state merged with `diff`, so afterwards `get(k)` returns `diff[k]` for a key of `diff` and the previous `get(k)` otherwise; then every listener is notified with the new state; then the callback runs, if one was given |
| `Unicycle.Store.Clear` | Unicycle.js:27-42 | the state becomes empty, so every `get(k)` is undefined, then every listener is notified once |
| `Unicycle.Store.NotifyListeners` | Unicycle.js:44-46 | one `'update'` emission: one notification per live registration, with the state unchanged |
| `Unicycle.Unicycle.constructor` | Unicycle.js:52-54 | each instance starts with its own empty action emitter |
| `Unicycle.Unicycle.CreateStore` | Unicycle.js:56-58 | a fresh store whose handlers are appended to this instance's action emitter |
| `Unicycle.Unicycle.Exec` | Unicycle.js:77-79 | calls every handler on this instance's emitter registered under `name`, in order, with the given arguments |
| `Unicycle.SharedEmitterReachesBothStores` | Unicycle.js:56-58 | two stores from one instance share its emitter, so `exec(name)` reaches the earlier entries, then the first store's handler for `"$" + name`, then the second store's |

## Left out

- View-layer code is not modelled: `tell`, `connectToStores` (its props/state overlay in `render` and its `shallowequal` check) and the `listenTo` mixin with `forceUpdate`. This is React lifecycle code over libraries outside the core.
- Immutable.js is modelled only at the top level. `fromJS` deep conversion, nested structural sharing and merge type errors are not modelled. Numbers are unbounded integers, not floating point.
- fbemitter internals are not modelled: snapshot-at-emit, listener exceptions that stop an emission early, and `emit` with no event name. The emitter is a plain ordered list of registrations.
- The bodies of listeners, callbacks, handlers and `init` are not run. Calls to them appear only in traces. The traces of `Set`, `Clear` and `NotifyListeners` assume listeners do not change the store while an emission is running. Re-entrant `set` and `exec` are not modelled.
- JavaScript's `bind` and `this` are not modelled. A method installed on a store is recorded only by its name. If a definition key is `get`, `set` or another store method name, it would shadow that method, and the model does not capture this.
- The definition is modelled only by its own keys. `for...in` also visits inherited enumerable keys; these are left out. So are definitions whose values are not functions, and an `init` key whose value is falsy.
- `module.exports = new Unicycle()` makes one shared instance. The model lets any number of `Unicycle` objects exist.
- cyclet.js has exactly one module scope, so exactly one action emitter. The model lets any number of `Cyclet` objects exist, each with its own emitter.
- `Cyclet.Store.constructor`: `init` is assumed not to touch the store. The empty state and empty listener list it promises are the post-state `init` starts from. In the source, `init` may call `this.set(...)` or `this.addListener(...)`, and the store then holds whatever `init` left. The same holds for `Cyclet.Cyclet.CreateStore`.
- `Unicycle.Store.constructor`: `init` is assumed not to touch the store, exactly as for cyclet.js. The empty state and empty listener list it promises are the post-state `init` starts from. The same holds for `Unicycle.Unicycle.CreateStore`.
- In Unicycle.js, a definition key `_state` or `_updateEmitter` would overwrite the store's own field, since the store keeps them under plain property names. cyclet.js keeps its fields under Symbol keys, which no definition key can reach. The model keeps the fields apart from the methods and does not capture this overwrite.
- `ImmutableState.Value` has no `undefined`. So `set({k: undefined})`, which stores the key `k` with an undefined value, cannot be represented.
