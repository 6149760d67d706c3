/**
  `SignalBus` of h-signal-bus: a registry from signal type to
  `SignalSubscription`. A signal is declared once with a `SignalType`, and
  `Fire` dispatches on that type, wrapping whatever a receiver raises into a
  fire error that names the signal.
 */
module HSignalBus {
  import opened Tiers
  import opened Container
  import opened Registry
  import Dispatch

  type SignalSubscription = ReceiverContainer
  type SignalType = Style

  /** `K` stands for the signal's `Type`, the dictionary key. */
  class SignalBus<K(==)> {
    var subscriptions: map<K, SignalSubscription>

    /** The registry as a value. */
    ghost function Signals(): map<K, Entry>
      reads this, subscriptions.Values
    {
      map k | k in subscriptions :: Entry(subscriptions[k].style, subscriptions[k].Current())
    }

    /** Every subscription is well formed, holds plain receivers only (the
        one thing `Subscribe` can store), and belongs to one key. */
    ghost predicate Valid()
      reads this, subscriptions.Values
    {
      && PlainOnly(Signals())
      && forall k, k' :: k in subscriptions && k' in subscriptions && k != k' ==> subscriptions[k] != subscriptions[k']
    }

    /** What `Valid` says about one declared signal's subscription. */
    lemma ValidAt(signal: K)
      requires Valid() && signal in subscriptions
      ensures subscriptions[signal].Valid()
      ensures subscriptions[signal].taskReceivers == map[] && subscriptions[signal].uniTaskReceivers == map[]
    {
      assert Signals()[signal].contents == subscriptions[signal].Current();
    }

    constructor ()
      ensures Valid()
      ensures subscriptions == map[]
    {
      subscriptions := map[];
    }

    /** Declare `signal` with the given type; a second declaration fails and
        keeps the existing subscription. */
    method DeclareSignal(signal: K, signalType: SignalType := Normal) returns (outcome: Outcome<K>)
      requires Valid()
      modifies this
      ensures Valid()
      ensures outcome == if signal in old(subscriptions) then AlreadyDeclared(signal) else Ok
      ensures fresh(subscriptions.Values - old(subscriptions.Values))
      ensures Signals() == WithDeclared(old(Signals()), signal, signalType)
    {
      ghost var before := Signals();
      if signal in subscriptions {
        outcome := AlreadyDeclared(signal);
        return;
      }
      var subscription := new ReceiverContainer(signalType);
      subscriptions := subscriptions[signal := subscription];
      outcome := Ok;
      assert Signals() == before[signal := Entry(signalType, Empty)] by {
        forall k | k in old(subscriptions)
          ensures Signals()[k] == before[k]
        {
          assert subscriptions[k] == old(subscriptions[k]);
        }
        assert Signals()[signal] == Entry(signalType, Empty);
      }
      WithDeclaredKeepsPlainOnly(before, signal, signalType);
    }

    /** Register the `Action<TSignal>` with handle `handle` at `priority`;
        an undeclared signal fails and nothing changes. */
    method Subscribe(signal: K, handle: nat, priority: int := 0) returns (outcome: Outcome<K>)
      requires Valid()
      modifies subscriptions.Values
      ensures Valid()
      ensures outcome == if signal in subscriptions then Ok else NotDeclared(signal)
      ensures Signals() == WithAdded(old(Signals()), signal, Receiver(handle, Action), priority)
    {
      if signal !in subscriptions {
        outcome := NotDeclared(signal);
        return;
      }
      var subscription := subscriptions[signal];
      ValidAt(signal);
      subscription.Add(Receiver(handle, Action), priority);
      outcome := Ok;
      assert Signals() == WithAdded(old(Signals()), signal, Receiver(handle, Action), priority);
      WithAddedKeepsPlainOnly(old(Signals()), signal, handle, priority);
    }

    /** Remove the first registration of handle `handle` at `priority`; an
        undeclared signal fails and nothing changes. */
    method Unsubscribe(signal: K, handle: nat, priority: int := 0) returns (outcome: Outcome<K>)
      requires Valid()
      modifies subscriptions.Values
      ensures Valid()
      ensures outcome == if signal in subscriptions then Ok else NotDeclared(signal)
      ensures Signals() == WithDropped(old(Signals()), signal, Receiver(handle, Action), priority)
    {
      if signal !in subscriptions {
        outcome := NotDeclared(signal);
        return;
      }
      var subscription := subscriptions[signal];
      ValidAt(signal);
      subscription.Remove(Receiver(handle, Action), priority);
      outcome := Ok;
      assert Signals() == WithDropped(old(Signals()), signal, Receiver(handle, Action), priority);
      WithDroppedKeepsPlainOnly(old(Signals()), signal, handle, priority);
    }

    /** Fire `signal`. `reached` lists the receivers called (plain style) or
        started (Task and UniTask styles), in dispatch order; a receiver in
        `throws` raises, which surfaces as a fire error naming the signal.
        Nothing in the registry changes. */
    method Fire(signal: K, throws: set<Receiver>) returns (outcome: Outcome<K>, reached: seq<Receiver>)
      ensures signal !in subscriptions ==> outcome == NotDeclared(signal) && reached == []
      ensures signal in subscriptions && !subscriptions[signal].HasReceivers() ==>
        outcome == NoSubscribersWarning(signal) && reached == []
      ensures signal in subscriptions && subscriptions[signal].HasReceivers() ==>
        var s := subscriptions[signal];
        var order := Order(Get(s.Current(), ShapeOf(s.style)));
        && reached == (if s.style == Normal then UntilThrow(order, throws) else order)
        && outcome == (if ThrowsAny(order, throws) then FireError(signal) else Ok)
      ensures Valid() && signal in subscriptions && subscriptions[signal].style != Normal ==>
        outcome == NoSubscribersWarning(signal) && reached == []
    {
      if signal !in subscriptions {
        outcome, reached := NotDeclared(signal), [];
        return;
      }
      var subscription := subscriptions[signal];
      assert Valid() ==> subscription.taskReceivers == map[] && subscription.uniTaskReceivers == map[] && subscription.Valid() by {
        if Valid() {
          ValidAt(signal);
        }
      }
      if !subscription.HasReceivers() {
        outcome, reached := NoSubscribersWarning(signal), [];
        return;
      }
      var failed;
      match subscription.style {
        case Normal =>
          reached, failed := subscription.Invoke(throws);
        case Task =>
          reached, failed := subscription.InvokeAsyncTask(throws);
        case UniTask =>
          reached, failed := subscription.InvokeAsyncUniTask(throws);
      }
      outcome := if failed then FireError(signal) else Ok;
    }

    /** `Fire` as the revision is written, where `Invoke` casts each plain
        receiver to `Action<object>` before calling it. The receivers in
        `castFails` are those whose runtime type does not convert (every
        delegate created as `Action<T>` with `T` other than `object`); the
        first of them reached raises at the cast without running, and the
        catch turns that into a fire error. The async launches involve no
        cast and are as in `Fire`. */
    method FireAsWritten(signal: K, throws: set<Receiver>, castFails: set<Receiver>)
      returns (outcome: Outcome<K>, reached: seq<Receiver>)
      ensures signal !in subscriptions ==> outcome == NotDeclared(signal) && reached == []
      ensures signal in subscriptions && !subscriptions[signal].HasReceivers() ==>
        outcome == NoSubscribersWarning(signal) && reached == []
      ensures signal in subscriptions && subscriptions[signal].HasReceivers() ==>
        var s := subscriptions[signal];
        var order := Order(Get(s.Current(), ShapeOf(s.style)));
        if s.style == Normal then
          && reached == CastWalk(order, throws, castFails)
          && outcome == (if ThrowsAny(order, throws + castFails) then FireError(signal) else Ok)
        else
          && reached == order
          && outcome == (if ThrowsAny(order, throws) then FireError(signal) else Ok)
      ensures signal in subscriptions && subscriptions[signal].HasReceivers() && subscriptions[signal].style == Normal ==>
        var order := Order(subscriptions[signal].receivers);
        && (order != [] && order[0] in castFails ==> outcome == FireError(signal) && reached == [])
        && ((forall i :: 0 <= i < |order| ==> order[i] !in castFails) ==>
              reached == UntilThrow(order, throws)
              && outcome == (if ThrowsAny(order, throws) then FireError(signal) else Ok))
    {
      if signal !in subscriptions {
        outcome, reached := NotDeclared(signal), [];
        return;
      }
      var subscription := subscriptions[signal];
      if !subscription.HasReceivers() {
        outcome, reached := NoSubscribersWarning(signal), [];
        return;
      }
      var failed;
      match subscription.style {
        case Normal =>
          reached, failed := Dispatch.InvokeCastingToObject(subscription.receivers, throws, castFails);
          ghost var order := Order(subscription.receivers);
          if order != [] && order[0] in castFails {
            CastWalkFirstFails(order, throws, castFails);
          }
          if forall i :: 0 <= i < |order| ==> order[i] !in castFails {
            CastWalkWithoutCastFailures(order, throws, castFails);
          }
        case Task =>
          reached, failed := subscription.InvokeAsyncTask(throws);
        case UniTask =>
          reached, failed := subscription.InvokeAsyncUniTask(throws);
      }
      outcome := if failed then FireError(signal) else Ok;
    }
  }
}
