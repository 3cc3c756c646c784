/**
 * The event channel both stores are built on (fbemitter's EventEmitter, of
 * which the source shows only the calls): an ordered list of live
 * registrations, each one a subscription that knows its channel, its event
 * name and its listener. `emit` invokes, in registration order, the listener
 * of every registration for the event; `remove` on a subscription cancels that
 * one registration and nothing else.
 */
module Emitter {

  /** A registration as `emit` sees it: the event it is for and its listener. */
  datatype Entry<E, L> = Entry(event: E, listener: L)

  /** The handle `addListener` returns. */
  class Subscription<E(==), L> {
    const emitter: EventEmitter<E, L>
    const event: E
    const listener: L

    constructor (emitter: EventEmitter<E, L>, event: E, listener: L)
      ensures this.emitter == emitter && this.event == event && this.listener == listener
    {
      this.emitter := emitter;
      this.event := event;
      this.listener := listener;
    }

    /** `subscription.remove()`: deregisters exactly this registration; a second call finds nothing to remove. */
    method Remove()
      requires emitter.Valid()
      modifies emitter
      ensures emitter.Valid()
      ensures emitter.registrations == Without(old(emitter.registrations), this)
    {
      WithoutKeepsDistinct(emitter.registrations, this);
      WithoutShrinks(emitter.registrations, this);
      emitter.registrations := Without(emitter.registrations, this);
    }
  }

  class EventEmitter<E(==), L> {
    /** The live registrations, oldest first. */
    var registrations: seq<Subscription<E, L>>

    /** Every registration belongs to this channel and appears once. */
    ghost predicate Valid()
      reads this
    {
      Distinct(registrations) &&
      forall s :: s in registrations ==> s.emitter == this
    }

    constructor ()
      ensures Valid() && registrations == []
    {
      registrations := [];
    }

    /** `addListener(event, listener)`: appends one new registration and returns its handle. */
    method AddListener(event: E, listener: L) returns (sub: Subscription<E, L>)
      requires Valid()
      modifies this
      ensures Valid()
      ensures fresh(sub) && sub.emitter == this && sub.event == event && sub.listener == listener
      ensures registrations == old(registrations) + [sub]
    {
      sub := new Subscription(this, event, listener);
      registrations := registrations + [sub];
    }

    /**
     * `emit(event)`: the listeners invoked, in the order they run: one call
     * per live registration for `event`, oldest registration first. The
     * channel itself is left unchanged.
     */
    method Emit(event: E) returns (invoked: seq<L>)
      ensures invoked == ListenersFor(Entries(registrations), event)
    {
      invoked := [];
      var i := 0;
      while i < |registrations|
        invariant 0 <= i <= |registrations|
        invariant invoked == ListenersFor(Entries(registrations[..i]), event)
      {
        var sub := registrations[i];
        assert registrations[..i + 1] == registrations[..i] + [sub];
        EntriesAppend(registrations[..i], [sub]);
        if sub.event == event {
          invoked := invoked + [sub.listener];
        }
        i := i + 1;
      }
      assert registrations[..i] == registrations;
    }
  }

  ghost predicate Distinct<E, L>(regs: seq<Subscription<E, L>>)
  {
    forall i, j :: 0 <= i < j < |regs| ==> regs[i] != regs[j]
  }

  /** What `emit` sees of a list of registrations. */
  function Entries<E(==), L>(regs: seq<Subscription<E, L>>): seq<Entry<E, L>>
  {
    seq(|regs|, i requires 0 <= i < |regs| => Entry(regs[i].event, regs[i].listener))
  }

  /**
   * The listeners an emission of `event` reaches, in registration order:
   * exactly the listeners of the entries for `event`, each as often as it
   * is registered.
   */
  function ListenersFor<E(==), L>(entries: seq<Entry<E, L>>, event: E): (r: seq<L>)
    ensures |r| <= |entries|
  {
    if entries == [] then []
    else
      var last := entries[|entries| - 1];
      ListenersFor(entries[..|entries| - 1], event) + (if last.event == event then [last.listener] else [])
  }

  /** A listener is reached by an emission of `event` exactly when it has an entry for `event`. */
  lemma {:induction false} ListenersForMembers<E, L>(entries: seq<Entry<E, L>>, event: E, l: L)
    ensures l in ListenersFor(entries, event) <==> Entry(event, l) in entries
  {
    if entries != [] {
      var init := entries[..|entries| - 1];
      ListenersForMembers(init, event, l);
      assert entries == init + [entries[|entries| - 1]];
    }
  }

  /** The registrations left once `s` is removed: all the others, in their order. */
  function Without<E(==), L>(regs: seq<Subscription<E, L>>, s: Subscription<E, L>): (r: seq<Subscription<E, L>>)
    ensures |r| <= |regs|
  {
    if regs == [] then []
    else
      var last := regs[|regs| - 1];
      Without(regs[..|regs| - 1], s) + (if last == s then [] else [last])
  }

  /** What survives a removal: every registration other than `s`, and nothing else. */
  lemma {:induction false} WithoutMembers<E, L>(regs: seq<Subscription<E, L>>, s: Subscription<E, L>, x: Subscription<E, L>)
    ensures x in Without(regs, s) <==> x in regs && x != s
  {
    if regs != [] {
      var init := regs[..|regs| - 1];
      WithoutMembers(init, s, x);
      assert regs == init + [regs[|regs| - 1]];
    }
  }

  lemma WithoutShrinks<E, L>(regs: seq<Subscription<E, L>>, s: Subscription<E, L>)
    ensures forall x :: x in Without(regs, s) ==> x in regs && x != s
  {
    forall x | x in Without(regs, s)
      ensures x in regs && x != s
    {
      WithoutMembers(regs, s, x);
    }
  }

  lemma EntriesAppend<E, L>(a: seq<Subscription<E, L>>, b: seq<Subscription<E, L>>)
    ensures Entries(a + b) == Entries(a) + Entries(b)
  {
  }

  /** An emission over two spans of registrations reaches the first span's listeners, then the second's. */
  lemma {:induction false} ListenersForAppend<E, L>(a: seq<Entry<E, L>>, b: seq<Entry<E, L>>, event: E)
    ensures ListenersFor(a + b, event) == ListenersFor(a, event) + ListenersFor(b, event)
  {
    if b != [] {
      var b' := b[..|b| - 1];
      assert (a + b)[..|a + b| - 1] == a + b';
      ListenersForAppend(a, b', event);
    } else {
      assert a + b == a;
    }
  }

  /** An event nobody registered for reaches no listener. */
  lemma UnregisteredEventReachesNobody<E, L>(entries: seq<Entry<E, L>>, event: E)
    requires forall e :: e in entries ==> e.event != event
    ensures ListenersFor(entries, event) == []
  {
    if ListenersFor(entries, event) != [] {
      var l := ListenersFor(entries, event)[0];
      ListenersForMembers(entries, event, l);
    }
  }

  lemma {:induction false} WithoutAbsent<E, L>(regs: seq<Subscription<E, L>>, s: Subscription<E, L>)
    requires s !in regs
    ensures Without(regs, s) == regs
  {
    if regs != [] {
      WithoutAbsent(regs[..|regs| - 1], s);
    }
  }

  /** Removing a subscription a second time changes nothing. */
  lemma RemoveIdempotent<E, L>(regs: seq<Subscription<E, L>>, s: Subscription<E, L>)
    ensures Without(Without(regs, s), s) == Without(regs, s)
  {
    WithoutMembers(regs, s, s);
    WithoutAbsent(Without(regs, s), s);
  }

  lemma {:induction false} WithoutAppend<E, L>(a: seq<Subscription<E, L>>, b: seq<Subscription<E, L>>, s: Subscription<E, L>)
    ensures Without(a + b, s) == Without(a, s) + Without(b, s)
  {
    if b != [] {
      var b' := b[..|b| - 1];
      assert (a + b)[..|a + b| - 1] == a + b';
      WithoutAppend(a, b', s);
    } else {
      assert a + b == a;
    }
  }

  lemma WithoutKeepsDistinct<E, L>(regs: seq<Subscription<E, L>>, s: Subscription<E, L>)
    requires Distinct(regs)
    ensures Distinct(Without(regs, s))
  {
    if s in regs {
      var i :| 0 <= i < |regs| && regs[i] == s;
      WithoutSplit(regs, s, i);
    } else {
      WithoutAbsent(regs, s);
    }
  }

  /** In a list where `s` appears once, at `i`, removing it cuts out exactly that position. */
  lemma WithoutSplit<E, L>(regs: seq<Subscription<E, L>>, s: Subscription<E, L>, i: nat)
    requires Distinct(regs) && i < |regs| && regs[i] == s
    ensures Without(regs, s) == regs[..i] + regs[i + 1..]
  {
    OnlyAt(regs, i);
    WithoutCut(regs[..i], s, regs[i + 1..]);
    assert regs == (regs[..i] + [s]) + regs[i + 1..];
  }

  /** A distinct list holds its element at `i` nowhere before or after `i`. */
  lemma OnlyAt<E, L>(regs: seq<Subscription<E, L>>, i: nat)
    requires Distinct(regs) && i < |regs|
    ensures regs[i] !in regs[..i] && regs[i] !in regs[i + 1..]
  {
    var pre, post := regs[..i], regs[i + 1..];
    forall k | 0 <= k < |pre|
      ensures pre[k] != regs[i]
    {
      assert pre[k] == regs[k];
    }
    forall k | 0 <= k < |post|
      ensures post[k] != regs[i]
    {
      assert post[k] == regs[i + 1 + k];
    }
  }

  lemma {:induction false} WithoutCut<E, L>(pre: seq<Subscription<E, L>>, s: Subscription<E, L>, post: seq<Subscription<E, L>>)
    requires s !in pre && s !in post
    ensures Without(pre + [s] + post, s) == pre + post
  {
    var whole := pre + [s] + post;
    if post == [] {
      assert whole[..|whole| - 1] == pre;
      WithoutAbsent(pre, s);
    } else {
      var init, last := post[..|post| - 1], post[|post| - 1];
      assert whole[..|whole| - 1] == pre + [s] + init;
      WithoutCut(pre, s, init);
      assert pre + post == (pre + init) + [last];
    }
  }

  lemma EntriesAround<E, L>(regs: seq<Subscription<E, L>>, i: nat)
    requires i < |regs|
    ensures Entries(regs) == Entries(regs[..i]) + [Entry(regs[i].event, regs[i].listener)] + Entries(regs[i + 1..])
    ensures Entries(regs[..i] + regs[i + 1..]) == Entries(regs[..i]) + Entries(regs[i + 1..])
  {
    assert regs == regs[..i] + [regs[i]] + regs[i + 1..];
    EntriesAppend(regs[..i] + [regs[i]], regs[i + 1..]);
    EntriesAppend(regs[..i], [regs[i]]);
    EntriesAppend(regs[..i], regs[i + 1..]);
  }

  /** An emission over `a`, one more entry `x`, then `b`: with and without `x`. */
  lemma ListenersForAround<E, L>(a: seq<Entry<E, L>>, x: Entry<E, L>, b: seq<Entry<E, L>>, event: E)
    ensures ListenersFor(a + [x] + b, event)
         == ListenersFor(a, event) + (if x.event == event then [x.listener] else []) + ListenersFor(b, event)
    ensures ListenersFor(a + b, event) == ListenersFor(a, event) + ListenersFor(b, event)
  {
    ListenersForAppend(a + [x], b, event);
    ListenersForAppend(a, [x], event);
    assert [x][..0] == [];
    ListenersForAppend(a, b, event);
  }

  lemma MultisetAround<L>(la: seq<L>, y: L, lb: seq<L>)
    ensures multiset(la + lb) + multiset{y} == multiset(la + [y] + lb)
  {
  }

  /**
   * Cancelling one live registration `s`: emissions of other events are
   * unchanged, and an emission of `s.event` reaches the same listeners
   * less exactly one call to `s.listener`.
   */
  lemma RemoveSilencesOneCall<E, L>(regs: seq<Subscription<E, L>>, s: Subscription<E, L>, event: E)
    requires Distinct(regs) && s in regs
    ensures event != s.event ==>
      ListenersFor(Entries(Without(regs, s)), event) == ListenersFor(Entries(regs), event)
    ensures event == s.event ==>
      multiset(ListenersFor(Entries(Without(regs, s)), event)) + multiset{s.listener}
      == multiset(ListenersFor(Entries(regs), event))
  {
    var i :| 0 <= i < |regs| && regs[i] == s;
    RemoveSilencesAt(regs, i, event);
  }

  lemma RemoveSilencesAt<E, L>(regs: seq<Subscription<E, L>>, i: nat, event: E)
    requires Distinct(regs) && i < |regs|
    ensures var s := regs[i];
      var before, after := ListenersFor(Entries(regs), event), ListenersFor(Entries(Without(regs, s)), event);
      (event != s.event ==> after == before) &&
      (event == s.event ==> multiset(after) + multiset{s.listener} == multiset(before))
  {
    WithoutSplit(regs, regs[i], i);
    CutSilencesOneCall(regs, i, event);
  }

  /** Cutting position `i` out of the registrations drops exactly that registration's call. */
  lemma CutSilencesOneCall<E, L>(regs: seq<Subscription<E, L>>, i: nat, event: E)
    requires i < |regs|
    ensures var s := regs[i];
      var before, after := ListenersFor(Entries(regs), event), ListenersFor(Entries(regs[..i] + regs[i + 1..]), event);
      (event != s.event ==> after == before) &&
      (event == s.event ==> multiset(after) + multiset{s.listener} == multiset(before))
  {
    var s := regs[i];
    var a, b := Entries(regs[..i]), Entries(regs[i + 1..]);
    EntriesAround(regs, i);
    ListenersForAround(a, Entry(s.event, s.listener), b, event);
    MultisetAround(ListenersFor(a, event), s.listener, ListenersFor(b, event));
  }

  /**
   * Cancelling the registration at `i` of a distinct list keeps the order of
   * every emission: it reaches the listeners registered before `i`, then
   * those registered after; only the call from position `i` is gone.
   */
  lemma RemoveKeepsOrder<E, L>(regs: seq<Subscription<E, L>>, i: nat, event: E)
    requires Distinct(regs) && i < |regs|
    ensures ListenersFor(Entries(regs), event)
         == ListenersFor(Entries(regs[..i]), event)
          + (if regs[i].event == event then [regs[i].listener] else [])
          + ListenersFor(Entries(regs[i + 1..]), event)
    ensures ListenersFor(Entries(Without(regs, regs[i])), event)
         == ListenersFor(Entries(regs[..i]), event) + ListenersFor(Entries(regs[i + 1..]), event)
  {
    WithoutSplit(regs, regs[i], i);
    EntriesAround(regs, i);
    ListenersForAround(Entries(regs[..i]), Entry(regs[i].event, regs[i].listener), Entries(regs[i + 1..]), event);
  }

  /**
   * After `s.remove()`, a listener whose only registration for `s.event` was
   * `s` is no longer reached by emissions of that event.
   */
  lemma RemovedListenerSilent<E, L>(regs: seq<Subscription<E, L>>, s: Subscription<E, L>)
    requires forall x :: x in regs && x != s ==> x.event != s.event || x.listener != s.listener
    ensures s.listener !in ListenersFor(Entries(Without(regs, s)), s.event)
  {
    var rest := Without(regs, s);
    forall j | 0 <= j < |rest|
      ensures Entries(rest)[j] != Entry(s.event, s.listener)
    {
      WithoutMembers(regs, s, rest[j]);
    }
    ListenersForMembers(Entries(rest), s.event, s.listener);
  }
}
