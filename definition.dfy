/**
 * Store definitions and how a store's constructor reads them. A definition
 * is given by its keys in the order `for (let key in definition)` visits
 * them; the functions behind the keys are opaque and stand here as the pair
 * (store, key) they are bound to. A key whose first character is `$` is an
 * action handler for the action named by the rest of the key, the key
 * `init` is the optional start-up hook, and every other key is a plain
 * method installed on the store.
 */
module Definition {
  import opened ImmutableState
  import opened Emitter

  /** The reserved key of the start-up hook. */
  const InitKey: string := "init"

  /** `key[0] === '$'`: false for the empty key, whose `key[0]` is undefined. */
  predicate IsActionKey(key: string)
  {
    |key| > 0 && key[0] == '$'
  }

  /** A key the constructor installs as a method: neither an action key nor `init`. */
  predicate IsMethodKey(key: string)
  {
    !IsActionKey(key) && key != InitKey
  }

  /** `if (definition.init)`: the definition has a start-up hook. */
  predicate HasInit(keys: seq<string>)
  {
    InitKey in keys
  }

  /** The keys of an object literal: no key appears twice. */
  predicate DistinctKeys(keys: seq<string>)
  {
    forall i, j :: 0 <= i < j < |keys| ==> keys[i] != keys[j]
  }

  /** `definition[key].bind(store)`: a definition function bound to its store. */
  datatype Handler<S> = Handler(owner: S, key: string)

  /** What an `exec` delivers to one handler: the handler and the action's arguments. */
  datatype HandlerCall<S> = HandlerCall(handler: Handler<S>, args: seq<Value>)

  /**
   * The registrations a store's construction adds to the action emitter, in
   * key order: for each `$`-key, its bound function under the key minus its
   * first character.
   */
  function ActionBindings<S>(owner: S, keys: seq<string>): seq<Entry<string, Handler<S>>>
  {
    if keys == [] then []
    else
      var key := keys[|keys| - 1];
      ActionBindings(owner, keys[..|keys| - 1]) + (if IsActionKey(key) then [Entry(key[1..], Handler(owner, key))] else [])
  }

  /** The names the constructor installs as methods on the store. */
  function MethodKeys(keys: seq<string>): set<string>
  {
    if keys == [] then {}
    else
      var key := keys[|keys| - 1];
      MethodKeys(keys[..|keys| - 1]) + (if IsMethodKey(key) then {key} else {})
  }

  lemma ActionBindingsSnoc<S>(owner: S, keys: seq<string>, key: string)
    ensures ActionBindings(owner, keys + [key])
         == ActionBindings(owner, keys) + (if IsActionKey(key) then [Entry(key[1..], Handler(owner, key))] else [])
  {
    assert (keys + [key])[..|keys|] == keys;
  }

  lemma MethodKeysSnoc(keys: seq<string>, key: string)
    ensures MethodKeys(keys + [key]) == MethodKeys(keys) + (if IsMethodKey(key) then {key} else {})
  {
    assert (keys + [key])[..|keys|] == keys;
  }

  /** What a running `init` can see: the store's installed methods and the entries on the action emitter. */
  datatype InitView<S> = InitView(methods: set<string>, actionEntries: seq<Entry<string, Handler<S>>>)

  /** The calls an `exec` makes: each reached handler, in order, with the same arguments. */
  function Dispatch<S>(handlers: seq<Handler<S>>, args: seq<Value>): (r: seq<HandlerCall<S>>)
    ensures |r| == |handlers|
    ensures forall i :: 0 <= i < |r| ==> r[i].handler == handlers[i] && r[i].args == args
  {
    seq(|handlers|, i requires 0 <= i < |handlers| => HandlerCall(handlers[i], args))
  }

  /** Key classification: `init` is never a method and never a handler; a `$`-key is never a method. */
  lemma ReservedInitKey()
    ensures !IsActionKey(InitKey) && !IsMethodKey(InitKey)
  {
  }

  /**
   * Every `$`-key of the definition, and nothing else, registers its bound
   * function under the key minus its first character.
   */
  lemma {:induction false} ActionBindingsMembers<S>(owner: S, keys: seq<string>, name: string, key: string)
    ensures Entry(name, Handler(owner, key)) in ActionBindings(owner, keys)
        <==> key in keys && IsActionKey(key) && name == key[1..]
  {
    if keys != [] {
      var init := keys[..|keys| - 1];
      ActionBindingsMembers(owner, init, name, key);
      assert keys == init + [keys[|keys| - 1]];
    }
  }

  /** The installed methods are exactly the keys that are neither `$`-keys nor `init`. */
  lemma {:induction false} MethodKeysMembers(keys: seq<string>, key: string)
    ensures key in MethodKeys(keys) <==> key in keys && IsMethodKey(key)
  {
    if keys != [] {
      var init := keys[..|keys| - 1];
      MethodKeysMembers(init, key);
      assert keys == init + [keys[|keys| - 1]];
    }
  }

  /**
   * Every registration a definition adds belongs to its store and comes from
   * one of its `$`-keys, under that key minus its first character.
   */
  lemma ActionBindingsOwned<S>(owner: S, keys: seq<string>, e: Entry<string, Handler<S>>)
    requires e in ActionBindings(owner, keys)
    ensures e.listener.owner == owner && e.listener.key in keys
    ensures IsActionKey(e.listener.key) && e.event == e.listener.key[1..]
  {
    ActionBindingsMembers(owner, keys, e.event, e.listener.key);
  }

  /** Each `$`-key registers exactly as many handlers as it occurs in the definition: one, for an object's keys. */
  lemma {:induction false} ActionBindingsOnePerKey<S>(owner: S, keys: seq<string>, key: string)
    requires IsActionKey(key)
    ensures multiset(ActionBindings(owner, keys))[Entry(key[1..], Handler(owner, key))] == multiset(keys)[key]
  {
    if keys != [] {
      var init, last := keys[..|keys| - 1], keys[|keys| - 1];
      ActionBindingsOnePerKey(owner, init, key);
      assert keys == init + [last];
      if IsActionKey(last) && Entry(last[1..], Handler(owner, last)) == Entry(key[1..], Handler(owner, key)) {
        assert last == key;
      }
    }
  }

  /**
   * `exec(name)` reaches a store's bindings only through the key `"$" + name`:
   * its one handler if the definition has that key, none otherwise.
   */
  lemma {:induction false} HandlersForAction<S>(owner: S, keys: seq<string>, name: string)
    requires DistinctKeys(keys)
    ensures ListenersFor(ActionBindings(owner, keys), name)
         == if "$" + name in keys then [Handler(owner, "$" + name)] else []
  {
    if keys != [] {
      var init, last := keys[..|keys| - 1], keys[|keys| - 1];
      assert keys == init + [last];
      assert DistinctKeys(init);
      HandlersForAction(owner, init, name);
      var tail := if IsActionKey(last) then [Entry(last[1..], Handler(owner, last))] else [];
      ListenersForAppend(ActionBindings(owner, init), tail, name);
      if IsActionKey(last) {
        assert last == [last[0]] + last[1..];
        assert [tail[0]][..0] == [];
        if last[1..] == name {
          assert last == "$" + name;
          assert "$" + name !in init;
        } else {
          assert last != "$" + name;
        }
      } else {
        assert last != "$" + name;
      }
    }
  }
}
