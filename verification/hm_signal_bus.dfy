/**
  `SignalBus` of hm-signal-bus: a registry from signal type to
  `SignalBinding`. Every binding is created with the default `Normal` style,
  and `Fire` calls the plain receivers synchronously, letting whatever a
  receiver raises propagate to the caller unchanged.
 */
module HmSignalBus {
  import opened Tiers
  import opened Container
  import opened Registry
  import Dispatch

  type SignalBinding = ReceiverContainer
  type SignalBindingStyle = Style

  /** `K` stands for the signal's `Type`, the dictionary key. */
  class SignalBus<K(==)> {
    var bindings: map<K, SignalBinding>

    /** The registry as a value. */
    ghost function Signals(): map<K, Entry>
      reads this, bindings.Values
    {
      map k | k in bindings :: Entry(bindings[k].style, bindings[k].Current())
    }

    /** Every binding is well formed, has the default style, holds plain
        receivers only, and belongs to one key. */
    ghost predicate Valid()
      reads this, bindings.Values
    {
      && PlainOnly(Signals())
      && (forall k :: k in bindings ==> bindings[k].style == Normal)
      && forall k, k' :: k in bindings && k' in bindings && k != k' ==> bindings[k] != bindings[k']
    }

    /** What `Valid` says about one declared signal's binding. */
    lemma ValidAt(signal: K)
      requires Valid() && signal in bindings
      ensures bindings[signal].Valid() && bindings[signal].style == Normal
    {
      assert Signals()[signal].contents == bindings[signal].Current();
    }

    constructor ()
      ensures Valid()
      ensures bindings == map[]
    {
      bindings := map[];
    }

    /** Declare `signal` with a default-style binding; a second declaration
        fails and keeps the existing binding. */
    method DeclareSignal(signal: K) returns (outcome: Outcome<K>)
      requires Valid()
      modifies this
      ensures Valid()
      ensures outcome == if signal in old(bindings) then AlreadyDeclared(signal) else Ok
      ensures fresh(bindings.Values - old(bindings.Values))
      ensures Signals() == WithDeclared(old(Signals()), signal, Normal)
    {
      ghost var before := Signals();
      if signal in bindings {
        outcome := AlreadyDeclared(signal);
        return;
      }
      var binding := new ReceiverContainer();
      bindings := bindings[signal := binding];
      outcome := Ok;
      assert Signals() == before[signal := Entry(Normal, Empty)] by {
        forall k | k in old(bindings)
          ensures Signals()[k] == before[k]
        {
          assert bindings[k] == old(bindings[k]);
        }
        assert Signals()[signal] == Entry(Normal, Empty);
      }
      WithDeclaredKeepsPlainOnly(before, signal, Normal);
    }

    /** Register the `Action<TSignal>` with handle `handle` at `priority`;
        an undeclared signal fails and nothing changes. */
    method Subscribe(signal: K, handle: nat, priority: int := 0) returns (outcome: Outcome<K>)
      requires Valid()
      modifies bindings.Values
      ensures Valid()
      ensures outcome == if signal in bindings then Ok else NotDeclared(signal)
      ensures Signals() == WithAdded(old(Signals()), signal, Receiver(handle, Action), priority)
    {
      if signal !in bindings {
        outcome := NotDeclared(signal);
        return;
      }
      var binding := bindings[signal];
      ValidAt(signal);
      binding.Add(Receiver(handle, Action), priority);
      outcome := Ok;
      assert Signals() == WithAdded(old(Signals()), signal, Receiver(handle, Action), priority);
      WithAddedKeepsPlainOnly(old(Signals()), signal, handle, priority);
    }

    /** Remove the first registration of handle `handle` at `priority`; an
        undeclared signal fails and nothing changes. */
    method Unsubscribe(signal: K, handle: nat, priority: int := 0) returns (outcome: Outcome<K>)
      requires Valid()
      modifies bindings.Values
      ensures Valid()
      ensures outcome == if signal in bindings then Ok else NotDeclared(signal)
      ensures Signals() == WithDropped(old(Signals()), signal, Receiver(handle, Action), priority)
    {
      if signal !in bindings {
        outcome := NotDeclared(signal);
        return;
      }
      var binding := bindings[signal];
      ValidAt(signal);
      binding.Remove(Receiver(handle, Action), priority);
      outcome := Ok;
      assert Signals() == WithDropped(old(Signals()), signal, Receiver(handle, Action), priority);
      WithDroppedKeepsPlainOnly(old(Signals()), signal, handle, priority);
    }

    /** Fire `signal`: call its plain receivers in dispatch order. A
        receiver in `throws` raises and the exception leaves `Fire` as it
        is; `invoked` lists the receivers called up to and including it.
        Nothing in the registry changes. */
    method Fire(signal: K, throws: set<Receiver>) returns (outcome: Outcome<K>, invoked: seq<Receiver>)
      ensures signal !in bindings ==> outcome == NotDeclared(signal) && invoked == []
      ensures signal in bindings && !bindings[signal].HasReceivers() ==>
        outcome == NoSubscribersWarning(signal) && invoked == []
      ensures signal in bindings && bindings[signal].HasReceivers() ==>
        var order := Order(bindings[signal].receivers);
        && invoked == UntilThrow(order, throws)
        && outcome == (if ThrowsAny(order, throws) then ReceiverThrew(signal) else Ok)
      ensures Valid() && signal in bindings ==>
        (bindings[signal].HasReceivers() <==> Order(bindings[signal].receivers) != [])
    {
      if signal !in bindings {
        outcome, invoked := NotDeclared(signal), [];
        return;
      }
      var binding := bindings[signal];
      assert Valid() ==> binding.style == Normal by {
        if Valid() {
          ValidAt(signal);
        }
      }
      if !binding.HasReceivers() {
        outcome, invoked := NoSubscribersWarning(signal), [];
        return;
      }
      var failed;
      invoked, failed := binding.Invoke(throws);
      outcome := if failed then ReceiverThrew(signal) else Ok;
    }

    /** `Fire` as the revision is written, where the binding casts each
        receiver to `Action<object>` before calling it. The receivers in
        `castFails` are those whose runtime type does not convert (every
        delegate created as `Action<T>` with `T` other than `object`); the
        first of them reached raises at the cast without running, and the
        exception leaves `Fire`. */
    method FireAsWritten(signal: K, throws: set<Receiver>, castFails: set<Receiver>)
      returns (outcome: Outcome<K>, invoked: seq<Receiver>)
      ensures signal !in bindings ==> outcome == NotDeclared(signal) && invoked == []
      ensures signal in bindings && !bindings[signal].HasReceivers() ==>
        outcome == NoSubscribersWarning(signal) && invoked == []
      ensures signal in bindings && bindings[signal].HasReceivers() ==>
        var order := Order(bindings[signal].receivers);
        && invoked == CastWalk(order, throws, castFails)
        && outcome == (if ThrowsAny(order, throws + castFails) then ReceiverThrew(signal) else Ok)
      ensures signal in bindings && bindings[signal].HasReceivers() ==>
        var order := Order(bindings[signal].receivers);
        && (order != [] && order[0] in castFails ==> outcome == ReceiverThrew(signal) && invoked == [])
        && ((forall i :: 0 <= i < |order| ==> order[i] !in castFails) ==>
              invoked == UntilThrow(order, throws)
              && outcome == (if ThrowsAny(order, throws) then ReceiverThrew(signal) else Ok))
    {
      if signal !in bindings {
        outcome, invoked := NotDeclared(signal), [];
        return;
      }
      var binding := bindings[signal];
      if !binding.HasReceivers() {
        outcome, invoked := NoSubscribersWarning(signal), [];
        return;
      }
      var failed;
      invoked, failed := Dispatch.InvokeCastingToObject(binding.receivers, throws, castFails);
      outcome := if failed then ReceiverThrew(signal) else Ok;
      ghost var order := Order(binding.receivers);
      if order != [] && order[0] in castFails {
        CastWalkFirstFails(order, throws, castFails);
      }
      if forall i :: 0 <= i < |order| ==> order[i] !in castFails {
        CastWalkWithoutCastFailures(order, throws, castFails);
      }
    }
  }
}
