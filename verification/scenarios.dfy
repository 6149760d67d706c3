/**
  The behaviours the repository's NUnit tests check, stated as methods over
  a fresh bus: each builds the bus the test builds and promises, in its
  postcondition, what the test asserts.
 */
module Scenarios {
  import opened Tiers
  import opened Container
  import opened Registry
  import HmSignalBus
  import HSignalBus

  /** The signal type the tests declare. */
  datatype SignalKey = TestSignal

  /** The plain receiver with handle `h`, as `Subscribe<TSignal>` stores it. */
  function Plain(h: nat): Receiver {
    Receiver(h, Action)
  }

  /** A registry whose only declared signal is `TestSignal`, holding the
      plain tiers `m`. */
  function Holding(style: Style, m: TierMap): map<SignalKey, Entry> {
    map[TestSignal := Entry(style, Contents(m, map[], map[]))]
  }

  /** Subscribing a plain receiver to `TestSignal` appends it to the plain
      tiers and keeps the style. */
  lemma AddToHolding(style: Style, m: TierMap, h: nat, p: int)
    ensures WithAdded(Holding(style, m), TestSignal, Plain(h), p) == Holding(style, Append(m, Plain(h), p))
  {
    assert Added(Contents(m, map[], map[]), Plain(h), p) == Contents(Append(m, Plain(h), p), map[], map[]);
  }

  /** The first receiver at a new priority opens a one-element tier. */
  lemma AppendFresh(m: TierMap, r: Receiver, p: int)
    requires p !in m
    ensures Append(m, r, p) == m[p := [r]]
  {
    assert TierAt(m, p) + [r] == [r];
  }

  lemma OneSubscriber()
    ensures Append(map[], Plain(1), 0) == map[0 := [Plain(1)]]
    ensures Order(map[0 := [Plain(1)]]) == [Plain(1)]
  {
    AppendFresh(map[], Plain(1), 0);
    var m := map[0 := [Plain(1)]];
    OrderByKeys(m, [0]);
    assert Flatten(m, [0]) == [Plain(1)] + Flatten(m, []);
  }

  lemma ThreePriorities()
    ensures Append(Append(Append(map[], Plain(0), 0), Plain(1), 1), Plain(2), 2)
         == map[0 := [Plain(0)], 1 := [Plain(1)], 2 := [Plain(2)]]
    ensures Order(map[0 := [Plain(0)], 1 := [Plain(1)], 2 := [Plain(2)]]) == [Plain(2), Plain(1), Plain(0)]
  {
    AppendFresh(map[], Plain(0), 0);
    AppendFresh(map[0 := [Plain(0)]], Plain(1), 1);
    AppendFresh(map[0 := [Plain(0)], 1 := [Plain(1)]], Plain(2), 2);
    var m := map[0 := [Plain(0)], 1 := [Plain(1)], 2 := [Plain(2)]];
    OrderByKeys(m, [2, 1, 0]);
    assert Flatten(m, [0]) == [Plain(0)] + Flatten(m, []);
    assert Flatten(m, [1, 0]) == [Plain(1)] + Flatten(m, [0]);
    assert Flatten(m, [2, 1, 0]) == [Plain(2)] + Flatten(m, [1, 0]);
  }

  lemma ThreeInOneTier()
    ensures Append(Append(Append(map[], Plain(0), 0), Plain(1), 0), Plain(2), 0)
         == map[0 := [Plain(0), Plain(1), Plain(2)]]
    ensures Order(map[0 := [Plain(0), Plain(1), Plain(2)]]) == [Plain(0), Plain(1), Plain(2)]
  {
    AppendFresh(map[], Plain(0), 0);
    assert [Plain(0)] + [Plain(1)] == [Plain(0), Plain(1)];
    assert [Plain(0), Plain(1)] + [Plain(2)] == [Plain(0), Plain(1), Plain(2)];
    var m := map[0 := [Plain(0), Plain(1), Plain(2)]];
    OrderByKeys(m, [0]);
    assert Flatten(m, [0]) == m[0] + Flatten(m, []);
  }

  lemma TwoPriorities()
    ensures Append(Append(map[], Plain(1), 1), Plain(2), 2) == map[1 := [Plain(1)], 2 := [Plain(2)]]
    ensures Order(map[1 := [Plain(1)], 2 := [Plain(2)]]) == [Plain(2), Plain(1)]
  {
    AppendFresh(map[], Plain(1), 1);
    AppendFresh(map[1 := [Plain(1)]], Plain(2), 2);
    var m := map[1 := [Plain(1)], 2 := [Plain(2)]];
    OrderByKeys(m, [2, 1]);
    assert Flatten(m, [1]) == [Plain(1)] + Flatten(m, []);
    assert Flatten(m, [2, 1]) == [Plain(2)] + Flatten(m, [1]);
  }

  /** An hm-signal-bus bus whose only declared signal is `TestSignal`. */
  method DeclaredBus() returns (bus: HmSignalBus.SignalBus<SignalKey>)
    ensures fresh(bus) && fresh(bus.bindings.Values) && bus.Valid()
    ensures bus.Signals() == Holding(Normal, map[])
  {
    bus := new HmSignalBus.SignalBus();
    var declared := bus.DeclareSignal(TestSignal);
  }

  /** An h-signal-bus bus whose only declared signal is `TestSignal`. */
  method DeclaredHBus(style: Style) returns (bus: HSignalBus.SignalBus<SignalKey>)
    ensures fresh(bus) && fresh(bus.subscriptions.Values) && bus.Valid()
    ensures bus.Signals() == Holding(style, map[])
  {
    bus := new HSignalBus.SignalBus();
    var declared := bus.DeclareSignal(TestSignal, style);
  }

  /** One subscriber at the default priority receives the fired signal. */
  method FireReachesSubscriber() returns (outcome: Outcome<SignalKey>, invoked: seq<Receiver>)
    ensures outcome == Ok && invoked == [Plain(1)]
  {
    var bus := DeclaredBus();
    var subscribed := bus.Subscribe(TestSignal, 1);
    AddToHolding(Normal, map[], 1, 0);
    OneSubscriber();
    assert TestSignal in bus.Signals();
    var binding := bus.bindings[TestSignal];
    assert bus.Signals()[TestSignal].contents == binding.Current();
    UntilThrowNone([Plain(1)], {});
    outcome, invoked := bus.Fire(TestSignal, {});
  }

  /** Three subscribers at priorities 0, 1 and 2 are called 2, 1, 0. */
  method FireFollowsPriority() returns (invoked: seq<Receiver>)
    ensures invoked == [Plain(2), Plain(1), Plain(0)]
  {
    var bus := DeclaredBus();
    var subscribed := bus.Subscribe(TestSignal, 0, 0);
    AddToHolding(Normal, map[], 0, 0);
    subscribed := bus.Subscribe(TestSignal, 1, 1);
    AddToHolding(Normal, Append(map[], Plain(0), 0), 1, 1);
    subscribed := bus.Subscribe(TestSignal, 2, 2);
    AddToHolding(Normal, Append(Append(map[], Plain(0), 0), Plain(1), 1), 2, 2);
    ThreePriorities();
    assert TestSignal in bus.Signals();
    var binding := bus.bindings[TestSignal];
    assert bus.Signals()[TestSignal].contents == binding.Current();
    UntilThrowNone([Plain(2), Plain(1), Plain(0)], {});
    var outcome;
    outcome, invoked := bus.Fire(TestSignal, {});
  }

  /** Three subscribers at one priority are called in subscription order,
      by the first fire and again by the second. */
  method FiresRepeatInSubscriptionOrder() returns (first: seq<Receiver>, second: seq<Receiver>)
    ensures first == second == [Plain(0), Plain(1), Plain(2)]
  {
    var bus := DeclaredBus();
    var subscribed := bus.Subscribe(TestSignal, 0);
    AddToHolding(Normal, map[], 0, 0);
    subscribed := bus.Subscribe(TestSignal, 1);
    AddToHolding(Normal, Append(map[], Plain(0), 0), 1, 0);
    subscribed := bus.Subscribe(TestSignal, 2);
    AddToHolding(Normal, Append(Append(map[], Plain(0), 0), Plain(1), 0), 2, 0);
    ThreeInOneTier();
    assert TestSignal in bus.Signals();
    var binding := bus.bindings[TestSignal];
    assert bus.Signals()[TestSignal].contents == binding.Current();
    UntilThrowNone([Plain(0), Plain(1), Plain(2)], {});
    var outcome;
    outcome, first := bus.Fire(TestSignal, {});
    outcome, second := bus.Fire(TestSignal, {});
  }

  /** A declared signal without subscribers only warns. */
  method FireWithoutSubscribersWarns() returns (outcome: Outcome<SignalKey>, invoked: seq<Receiver>)
    ensures outcome == NoSubscribersWarning(TestSignal) && invoked == []
  {
    var bus := DeclaredBus();
    assert TestSignal in bus.Signals();
    var binding := bus.bindings[TestSignal];
    assert bus.Signals()[TestSignal].contents == binding.Current();
    outcome, invoked := bus.Fire(TestSignal, {});
  }

  /** Firing a signal that was never declared fails. */
  method UndeclaredFireFails() returns (fire: Outcome<SignalKey>, invoked: seq<Receiver>)
    ensures fire == NotDeclared(TestSignal) && invoked == []
  {
    var bus := new HmSignalBus.SignalBus<SignalKey>();
    fire, invoked := bus.Fire(TestSignal, {});
  }

  /** Subscribing to or unsubscribing from a signal that was never declared
      fails. */
  method UndeclaredSubscribeFails() returns (subscribe: Outcome<SignalKey>, unsubscribe: Outcome<SignalKey>)
    ensures subscribe == unsubscribe == NotDeclared(TestSignal)
  {
    var bus := new HmSignalBus.SignalBus<SignalKey>();
    subscribe := bus.Subscribe(TestSignal, 1);
    unsubscribe := bus.Unsubscribe(TestSignal, 1);
  }

  /** Declaring twice fails the second time. */
  method DuplicateDeclarationFails() returns (first: Outcome<SignalKey>, second: Outcome<SignalKey>)
    ensures first == Ok && second == AlreadyDeclared(TestSignal)
  {
    var bus := new HmSignalBus.SignalBus<SignalKey>();
    first := bus.DeclareSignal(TestSignal);
    second := bus.DeclareSignal(TestSignal);
  }

  /** On a declared signal, subscribing and then unsubscribing the same
      receiver both succeed and leave the bus as it was. */
  method SubscribeThenUnsubscribe()
    returns (bus: HmSignalBus.SignalBus<SignalKey>, subscribe: Outcome<SignalKey>, unsubscribe: Outcome<SignalKey>)
    ensures subscribe == unsubscribe == Ok
    ensures bus.Signals() == Holding(Normal, map[])
  {
    bus := DeclaredBus();
    subscribe := bus.Subscribe(TestSignal, 1);
    unsubscribe := bus.Unsubscribe(TestSignal, 1);
    SubscribeThenUnsubscribeRestores(Holding(Normal, map[]), TestSignal, Plain(1), 0);
  }

  /** h-signal-bus: a signal declared with the Task style gets its
      subscriber in the plain dictionary, so firing it only warns. */
  method TaskSignalOnlyWarns() returns (outcome: Outcome<SignalKey>, reached: seq<Receiver>)
    ensures outcome == NoSubscribersWarning(TestSignal) && reached == []
  {
    var bus := DeclaredHBus(Task);
    var subscribed := bus.Subscribe(TestSignal, 1);
    AddToHolding(Task, map[], 1, 0);
    assert TestSignal in bus.Signals() && bus.Signals()[TestSignal].style == Task;
    outcome, reached := bus.Fire(TestSignal, {});
  }

  /** h-signal-bus: a raising receiver stops the walk after itself and the
      fire reports an error naming the signal. */
  method RaisingReceiverIsWrapped() returns (outcome: Outcome<SignalKey>, reached: seq<Receiver>)
    ensures outcome == FireError(TestSignal) && reached == [Plain(2)]
  {
    var bus := DeclaredHBus(Normal);
    var subscribed := bus.Subscribe(TestSignal, 1, 1);
    AddToHolding(Normal, map[], 1, 1);
    subscribed := bus.Subscribe(TestSignal, 2, 2);
    AddToHolding(Normal, Append(map[], Plain(1), 1), 2, 2);
    TwoPriorities();
    assert TestSignal in bus.Signals();
    var subscription := bus.subscriptions[TestSignal];
    assert bus.Signals()[TestSignal] == Entry(subscription.style, subscription.Current());
    UntilThrowAt([Plain(2), Plain(1)], 1, {Plain(2)});
    outcome, reached := bus.Fire(TestSignal, {Plain(2)});
  }

  /** The single-subscriber fire of the play-mode tests, with the binding
      as written: the tests subscribe a lambda typed `Action<TestSignal>`,
      whose cast to `Action<object>` fails, so the subscriber never runs,
      while the corrected `Fire` reaches it. */
  method TypedSubscriberNeverRunsAsWritten()
    returns (asWritten: seq<Receiver>, written: Outcome<SignalKey>, corrected: seq<Receiver>)
    ensures asWritten == [] && written == ReceiverThrew(TestSignal)
    ensures corrected == [Plain(1)]
  {
    var bus := DeclaredBus();
    var subscribed := bus.Subscribe(TestSignal, 1);
    AddToHolding(Normal, map[], 1, 0);
    OneSubscriber();
    assert TestSignal in bus.Signals();
    var binding := bus.bindings[TestSignal];
    assert bus.Signals()[TestSignal].contents == binding.Current();
    UntilThrowNone([Plain(1)], {});
    written, asWritten := bus.FireAsWritten(TestSignal, {}, {Plain(1)});
    var outcome;
    outcome, corrected := bus.Fire(TestSignal, {});
  }

  /** The same fire on h-signal-bus as written: the cast of the
      `Action<TestSignal>` lambda fails, the catch reports a fire error and
      the subscriber never runs, while the corrected `Fire` reaches it. */
  method TypedSubscriberNeverRunsAsWrittenOnH()
    returns (asWritten: seq<Receiver>, written: Outcome<SignalKey>, corrected: seq<Receiver>)
    ensures asWritten == [] && written == FireError(TestSignal)
    ensures corrected == [Plain(1)]
  {
    var bus := DeclaredHBus(Normal);
    var subscribed := bus.Subscribe(TestSignal, 1);
    AddToHolding(Normal, map[], 1, 0);
    OneSubscriber();
    assert TestSignal in bus.Signals();
    var subscription := bus.subscriptions[TestSignal];
    assert bus.Signals()[TestSignal] == Entry(subscription.style, subscription.Current());
    UntilThrowNone([Plain(1)], {});
    written, asWritten := bus.FireAsWritten(TestSignal, {}, {Plain(1)});
    var outcome;
    outcome, corrected := bus.Fire(TestSignal, {});
  }

  /** The same fire with a subscriber created as `Action<object>`: its cast
      succeeds, so the binding as written reaches it just as `Fire` does. */
  method ObjectTypedSubscriberRunsAsWritten()
    returns (asWritten: seq<Receiver>, written: Outcome<SignalKey>)
    ensures asWritten == [Plain(1)] && written == Ok
  {
    var bus := DeclaredBus();
    var subscribed := bus.Subscribe(TestSignal, 1);
    AddToHolding(Normal, map[], 1, 0);
    OneSubscriber();
    assert TestSignal in bus.Signals();
    var binding := bus.bindings[TestSignal];
    assert bus.Signals()[TestSignal].contents == binding.Current();
    UntilThrowNone([Plain(1)], {});
    written, asWritten := bus.FireAsWritten(TestSignal, {}, {});
  }
}
