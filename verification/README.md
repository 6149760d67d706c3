# HMSignalBus dispatch core in Dafny

HMSignalBus is a Unity signal bus. A game declares a signal type once, then
subscribes receivers to it with an integer priority and fires signal
instances at it. The bus keeps one receiver container per declared type
(`SignalBinding` or `SignalSubscription`). A container maps each priority to
the list of receivers registered there, in insertion order. Firing walks the
tiers from the highest priority down and, inside a tier, in insertion order.

The repository holds several revisions of these two pieces, and this model
covers all of them:

- `Runtime/SignalBinding.cs` is a container with a single dictionary and
  synchronous dispatch only.
- Three containers share one design: `SignalBinding` of hm-signal-bus,
  `SignalSubscription` of h-signal-bus and `SignalSubscription` of
  hm-signal-bus. Each keeps three dictionaries, one per receiver shape: plain
  `Action`, `Func<object, Task>` and `Func<object, UniTask>`. A style fixed
  at construction picks which dictionary `HasReceivers` consults.
- `SignalBus` of h-signal-bus declares each signal with a `SignalType`. Its
  `Fire` dispatches on that type and wraps any receiver exception into a fire
  error.
- `SignalBus` of hm-signal-bus declares every signal with the default
  `Normal` binding. Its `Fire` calls the plain receivers synchronously.

The project has these modules:

- `Tiers` (`tiers.dfy`): one priority dictionary as a value, a `TierMap`
  from priority to a sequence of receivers.
  - `Append` and `Removed` are what `Add` and `Remove` do to it.
  - The dispatch order `Order` repeatedly takes the largest priority and
    concatenates its tier. It is related to an independent reference
    definition, which flattens the tiers along the sorted list of
    priorities.
  - `UntilThrow` is the prefix that a synchronous walk reaches when a
    receiver raises.
- `Dispatch` (`dispatch.dfy`): the imperative steps every container performs
  on one dictionary: create-then-append, remove-then-drop-empty-tier, and
  the nested dispatch loops. Each is proved against the `Tiers` functions.
- `Container` (`container.dfy`): the three-map container as a class. The
  same class models `SignalBinding` and both `SignalSubscription`s, which
  are textually the same code under different names. The table below cites
  `hm-signal-bus/Assets/Runtime/SignalBinding.cs`. In
  `h-signal-bus/Assets/Runtime/SignalSubscription.cs` the same members are
  the constructor at line 22, `Add` at 26-49, `Remove` at 50-82, `Invoke` at
  83-88, `InvokeAsyncTask` at 89-98, `InvokeAsyncUniTask` at 99-108 and
  `HasReceivers` at 109-116. `hm-signal-bus/Assets/Runtime/SignalSubscription.cs`
  has the same layout, with `InvokeAsyncTask` at 89-99, `InvokeAsyncUniTask`
  at 100-110 and `HasReceivers` at 111-118.
- `RootSignalBinding` (`root_signal_binding.dfy`): the single-map container
  as a class.
- `Registry` (`registry.dfy`): what a bus stores, as a value. It also has
  the result datatype that stands for the bus's exceptions and warning.
- `HSignalBus` and `HmSignalBus` (`h_signal_bus.dfy`, `hm_signal_bus.dfy`):
  the two buses as classes holding a `map` from signal key to container.
- `Scenarios` (`scenarios.dfy`): the repository's NUnit tests, each stated
  as a method whose postcondition is what the test asserts.

Modelling choices:

- **Receivers.** A receiver is an opaque handle with equality plus a shape
  tag (`Receiver(id, shape)`). `List.Remove` removes the first element equal
  to its argument, which here means the first equal handle.
- **Exceptions.** Whether a receiver raises when called comes from a
  parameter `throws: set<Receiver>`.
- **Async dispatch.** The async invokers return the units they launch, in
  launch order.
- **Casts.** Whether a stored plain receiver converts to `Action<object>`
  depends on the delegate's runtime type, not on the signal type: a delegate
  created as `Action<object>` converts, one created as `Action<TestSignal>`
  does not. The members that model the cast take the receivers whose cast
  fails as a parameter `castFails: set<Receiver>`.

## Model

| member | source | states |
|---|---|---|
| Tiers.Append | hm-signal-bus/Assets/Runtime/SignalBinding.cs:59-62 | the tier for `p` is the old tier (empty when absent) with `r` at its end; the key set gains `p`; every other tier is unchanged |
| Tiers.FirstIndex | Runtime/SignalBinding.cs:40 | the index `List.Remove` looks for: the position of an `r` with no `r` before it |
| Tiers.RemoveFirst | Runtime/SignalBinding.cs:40 | removing a receiver the tier does not hold changes nothing; removing one it holds shortens the tier by one |
| Tiers.RemoveFirstSpec | Runtime/SignalBinding.cs:40 | `List.Remove` takes out exactly one copy of `r` (multiset difference), and that copy is the first occurrence with the rest kept in order |
| Tiers.Removed | Runtime/SignalBinding.cs:35-44 | an absent priority leaves the dictionary unchanged; otherwise tier `p` loses its first `r`, and the tier is deleted once that leaves it empty; no key is added; only `p` may disappear; every other tier is unchanged |
| Tiers.AppendKeepsInvariant | hm-signal-bus/Assets/Runtime/SignalBinding.cs:42-65 | `Add` keeps every stored tier non-empty and every receiver in the dictionary of its own shape |
| Tiers.RemovedKeepsInvariant | hm-signal-bus/Assets/Runtime/SignalBinding.cs:95-101 | `Remove` keeps every stored tier non-empty, because a tier whose count reaches 0 is deleted, and keeps every receiver of its dictionary's shape |
| Tiers.RemoveFirstOfAppended | hm-signal-bus/Assets/Runtime/SignalSubscription.cs:26-82 | removing `r` from a tier that just had `r` appended, and held no `r` before, gives back the tier |
| Tiers.AppendThenRemovedRestores | hm-signal-bus/Assets/Runtime/SignalSubscription.cs:26-82 | on a dictionary with no empty tier, `Add(r, p)` then `Remove(r, p)` restores the dictionary when `r` was not already in tier `p` |
| Tiers.TopExists | Runtime/SignalBinding.cs:52 | a non-empty dictionary has a largest priority, the first that `OrderByDescending` yields |
| Tiers.Order | Runtime/SignalBinding.cs:52-54 | the dispatch order: the tier of the largest priority, then the order of the remaining tiers |
| Tiers.OrderUnfold | Runtime/SignalBinding.cs:52-54 | the dispatch order is the top tier followed by the order of the remaining tiers |
| Tiers.OrderAround | Runtime/SignalBinding.cs:52-54 | for any priority `p`, the dispatch order is the order of the tiers above `p`, then tier `p`, then the order of the tiers below `p` |
| Tiers.OrderMembers | Runtime/SignalBinding.cs:50-55 | a receiver is visited if and only if some stored tier holds it |
| Tiers.OrderCount | Runtime/SignalBinding.cs:50-55 | the number of times `Invoke` visits `x` is the number of times the tiers hold it, counted tier by tier, so each stored registration is called exactly once |
| Tiers.OrderEmptyIff | Runtime/SignalBinding.cs:61 | nobody is visited if and only if no tier is non-empty; with no empty tier stored, that means the dictionary is empty |
| Tiers.AppendOrder | hm-signal-bus/Assets/Runtime/SignalBinding.cs:42-65 | after `Add(r, p)`, `r` is visited after everything at priority `p` or above and before every lower tier; nothing else moves |
| Tiers.RemovedOrder | hm-signal-bus/Assets/Runtime/SignalBinding.cs:72-104 | after `Remove(r, p)`, the order changes only inside tier `p`, which loses its first `r` |
| Tiers.UnsubscribedNotVisited | Runtime/SignalBinding.cs:35-44 | a receiver registered once, at `p` only, is no longer visited after `Remove(r, p)` |
| Tiers.FlattenFrame | Runtime/SignalBinding.cs:52-54 | flattening along a list of priorities depends only on the tiers at those priorities |
| Tiers.OrderByKeys | Runtime/SignalBinding.cs:52-54 | the dispatch order equals the reference definition: tiers concatenated along the priorities sorted in strictly descending order |
| Tiers.UntilThrow | Runtime/SignalBinding.cs:52-54 | the receivers a synchronous walk calls: the prefix of the order up to and including the first receiver in `throws` |
| Tiers.UntilThrowNone | Runtime/SignalBinding.cs:52-54 | when no receiver raises, the walk calls every receiver and nothing fails |
| Tiers.UntilThrowAt | Runtime/SignalBinding.cs:52-54 | when the first raising receiver is at position `n - 1`, the walk calls exactly the first `n` receivers and fails |
| Tiers.FirstThrow | Runtime/SignalBinding.cs:52-54 | if some receiver raises, there is a first one that does |
| Tiers.WalkStopsInTier | Runtime/SignalBinding.cs:52-54 | a walk that passed earlier tiers without a throw and meets the first raising receiver inside a tier stops there, with the tier's prefix called |
| Tiers.UntilThrowPrefix | Runtime/SignalBinding.cs:52-54 | the receivers reached form a prefix of the dispatch order: all of it when nobody raises; otherwise the prefix ending at the first receiver that raises, with no raising receiver before it |
| Tiers.UntilThrowSameOn | Runtime/SignalBinding.cs:52-54 | the walk depends only on which receivers of the order raise: two raising sets that agree on every receiver of the order give the same walk and the same failure |
| Tiers.CastWalk | hm-signal-bus/Assets/Runtime/SignalBinding.cs:110-115 | the receivers whose bodies run when each one is cast before it is called: the walk stops at the first receiver that raises (after its body) or whose cast fails (before its body) |
| Tiers.CastWalkPrefix | hm-signal-bus/Assets/Runtime/SignalBinding.cs:110-115 | the receivers run form a prefix of the order holding no receiver whose cast fails |
| Tiers.CastWalkWithoutCastFailures | hm-signal-bus/Assets/Runtime/SignalBinding.cs:110-115 | when no receiver of the order fails the cast, the walk as written calls what the corrected walk calls and fails exactly when it does |
| Tiers.CastWalkFirstFails | hm-signal-bus/Assets/Runtime/SignalBinding.cs:110-115 | when the first receiver's cast fails, nobody runs and the walk raises |
| Dispatch.AddToTier | Runtime/SignalBinding.cs:22-28 | creating the absent tier and then appending yields `Append(m, receiver, priority)` |
| Dispatch.RemoveFromTier | hm-signal-bus/Assets/Runtime/SignalBinding.cs:95-101 | removing the first occurrence when the tier exists, then deleting the tier when its count is 0, yields `Removed(m, receiver, priority)` |
| Dispatch.TopKey | Runtime/SignalBinding.cs:52 | returns the largest stored priority |
| Dispatch.InvokeTier | Runtime/SignalBinding.cs:53-54 | the inner loop calls the tier in insertion order; if nobody raises, it calls all of them; otherwise it calls the prefix that ends at the first receiver that raises |
| Dispatch.InvokeInOrder | Runtime/SignalBinding.cs:50-55 | the receivers called are `UntilThrow(Order(m))`, and the call fails exactly when some receiver in the order raises |
| Dispatch.InvokeCastingToObject | hm-signal-bus/Assets/Runtime/SignalBinding.cs:110-115 | the `Action<object>` cast as written, decided per receiver: the receivers run are `CastWalk(Order(m), throws, castFails)`, and the call fails exactly when the order holds a receiver that raises or whose cast fails |
| Dispatch.LaunchTier | hm-signal-bus/Assets/Runtime/SignalBinding.cs:127-128 | the inner launch loop starts one unit per receiver of a tier, in insertion order |
| Dispatch.LaunchInOrder | hm-signal-bus/Assets/Runtime/SignalBinding.cs:121-131 | the units launched are exactly `Order(m)`, one per stored receiver |
| Container.Added | hm-signal-bus/Assets/Runtime/SignalBinding.cs:44-63 | routes by shape: only the dictionary of the receiver's shape gets `Append`; the other two are unchanged; well-formedness is kept |
| Container.Dropped | hm-signal-bus/Assets/Runtime/SignalBinding.cs:74-103 | routes by shape: only the dictionary of the receiver's shape gets `Removed`; the other two are unchanged; well-formedness is kept |
| Container.AddedThenDroppedRestores | hm-signal-bus/Assets/Runtime/SignalSubscription.cs:26-82 | `Add(r, p)` then `Remove(r, p)` restores all three dictionaries when `r` was not already in tier `p` |
| Container.ReceiverContainer.constructor | hm-signal-bus/Assets/Runtime/SignalBinding.cs:24-33 | the style is the argument, `Normal` by default; the style is a `const`, so nothing changes it later; all three dictionaries start empty |
| Container.ReceiverContainer.Add | hm-signal-bus/Assets/Runtime/SignalBinding.cs:42-65 | the new contents are `Added(old contents, receiver, priority)`, and the container stays well formed |
| Container.ReceiverContainer.Remove | hm-signal-bus/Assets/Runtime/SignalBinding.cs:72-104 | the new contents are `Dropped(old contents, receiver, priority)`, and the container stays well formed |
| Container.ReceiverContainer.Invoke | hm-signal-bus/Assets/Runtime/SignalBinding.cs:110-115 | the plain receivers reached are the plain dispatch order cut at the first one that raises; the call fails exactly when one raises; the cast is taken as `Action<TSignal>` (see Findings) |
| Container.ReceiverContainer.InvokeAsyncTask | hm-signal-bus/Assets/Runtime/SignalBinding.cs:121-131 | launches exactly the Task dictionary's dispatch order, and fails exactly when one of the launched units raises |
| Container.ReceiverContainer.InvokeAsyncUniTask | hm-signal-bus/Assets/Runtime/SignalBinding.cs:137-147 | launches exactly the UniTask dictionary's dispatch order, and fails exactly when one of the launched units raises |
| Container.ReceiverContainer.HasReceivers | hm-signal-bus/Assets/Runtime/SignalBinding.cs:153-160 | true if and only if the dictionary the style selects yields a non-empty dispatch order; when well formed, exactly when that dictionary is non-empty; the other two are ignored |
| RootSignalBinding.SignalBinding.constructor | Runtime/SignalBinding.cs:13 | the dictionary starts empty |
| RootSignalBinding.SignalBinding.Add | Runtime/SignalBinding.cs:22-28 | the dictionary becomes `Append(old, receiver, priority)`, and every stored tier stays non-empty |
| RootSignalBinding.SignalBinding.Remove | Runtime/SignalBinding.cs:35-44 | the dictionary becomes `Removed(old, receiver, priority)`, which is unchanged for an absent priority, and every stored tier stays non-empty |
| RootSignalBinding.SignalBinding.Invoke | Runtime/SignalBinding.cs:50-55 | the receivers called are the dispatch order cut at the first one that raises; the call fails exactly when one raises |
| RootSignalBinding.SignalBinding.HasReceivers | Runtime/SignalBinding.cs:61 | true if and only if some receiver would be visited; when no tier is empty, exactly when the dictionary is non-empty |
| Registry.WithDeclared | h-signal-bus/Assets/Runtime/SignalBus.cs:33-41 | declaring adds the key; a declared key keeps its entry untouched; a new key gets an empty container of the given style; every other key is unchanged |
| Registry.WithAdded | h-signal-bus/Assets/Runtime/SignalBus.cs:15-23 | the key set is unchanged; only the signal's container gets `Add`, which keeps its style |
| Registry.WithDropped | h-signal-bus/Assets/Runtime/SignalBus.cs:24-32 | the key set is unchanged; only the signal's container gets `Remove`, which keeps its style |
| Registry.WithDeclaredKeepsPlainOnly | h-signal-bus/Assets/Runtime/SignalBus.cs:33-41 | a new, empty container keeps the registry well formed, with only plain receivers stored |
| Registry.WithAddedKeepsPlainOnly | h-signal-bus/Assets/Runtime/SignalBus.cs:15-23 | `Subscribe` only ever stores an `Action<TSignal>`, so the Task and UniTask dictionaries of every container stay empty |
| Registry.WithDroppedKeepsPlainOnly | h-signal-bus/Assets/Runtime/SignalBus.cs:24-32 | `Unsubscribe` keeps the registry well formed and plain-only |
| Registry.SubscribeThenUnsubscribeRestores | hm-signal-bus/Assets/Runtime/SignalBus.cs:36-60 | on a declared key, subscribing a receiver its tier does not hold and then unsubscribing it restores the whole registry, every other key included |
| HSignalBus.SignalBus.constructor | h-signal-bus/Assets/Runtime/SignalBus.cs:11 | the bus starts with no declared signal |
| HSignalBus.SignalBus.DeclareSignal | h-signal-bus/Assets/Runtime/SignalBus.cs:33-41 | a declared key gives `AlreadyDeclared` and leaves the registry as it was; a new key gets a fresh empty subscription of the given `SignalType`; the registry becomes `WithDeclared(old, signal, type)` |
| HSignalBus.SignalBus.Subscribe | h-signal-bus/Assets/Runtime/SignalBus.cs:15-23 | an undeclared key gives `NotDeclared` and changes nothing; otherwise the result is `Ok` and the registry becomes `WithAdded(old, signal, plain receiver, priority)` |
| HSignalBus.SignalBus.Unsubscribe | h-signal-bus/Assets/Runtime/SignalBus.cs:24-32 | an undeclared key gives `NotDeclared` and changes nothing; otherwise the result is `Ok` and the registry becomes `WithDropped(old, ...)` |
| HSignalBus.SignalBus.Fire | h-signal-bus/Assets/Runtime/SignalBus.cs:42-75 | an undeclared key gives `NotDeclared`; no receivers gives the warning and calls nobody; otherwise a `Normal` signal calls the dispatch order up to the first raising receiver, a `Task` or `UniTask` signal launches the selected dictionary's order, and any raise becomes `FireError(signal)`; a `Task` or `UniTask` signal on a valid bus always takes the warning path; the registry is not modified (the corrected cast, see Findings) |
| HSignalBus.SignalBus.FireAsWritten | h-signal-bus/Assets/Runtime/SignalBus.cs:42-75 | `Fire` over the `Action<object>` cast as written: a `Normal` signal with receivers runs `CastWalk` of its order and reports `FireError(signal)` exactly when some receiver in the order raises or fails the cast; if the first receiver fails the cast, nobody runs; if none fails it, the result is that of `Fire`; `Task` and `UniTask` signals and the other paths are as in `Fire` |
| HmSignalBus.SignalBus.constructor | hm-signal-bus/Assets/Runtime/SignalBus.cs:12 | the bus starts with no declared signal |
| HmSignalBus.SignalBus.DeclareSignal | hm-signal-bus/Assets/Runtime/SignalBus.cs:20-28 | a second declaration gives `AlreadyDeclared` and keeps the binding; a first one stores a fresh, empty, `Normal` binding; the registry becomes `WithDeclared(old, signal, Normal)` |
| HmSignalBus.SignalBus.Subscribe | hm-signal-bus/Assets/Runtime/SignalBus.cs:36-44 | an undeclared key gives `NotDeclared` and changes nothing; otherwise the result is `Ok` and the registry becomes `WithAdded(old, ...)` |
| HmSignalBus.SignalBus.Unsubscribe | hm-signal-bus/Assets/Runtime/SignalBus.cs:52-60 | an undeclared key gives `NotDeclared` and changes nothing; otherwise the result is `Ok` and the registry becomes `WithDropped(old, ...)` |
| HmSignalBus.SignalBus.Fire | hm-signal-bus/Assets/Runtime/SignalBus.cs:67-77 | an undeclared key gives `NotDeclared`; no receivers gives the warning and calls nobody; otherwise the plain receivers are called in dispatch order up to the first that raises, whose exception passes through as `ReceiverThrew(signal)`; the registry is not modified (the corrected cast, see Findings) |
| HmSignalBus.SignalBus.FireAsWritten | hm-signal-bus/Assets/Runtime/SignalBus.cs:67-77 | `Fire` over the `Action<object>` cast as written: a signal with receivers runs `CastWalk` of its order and raises exactly when some receiver in the order raises or fails the cast; if the first receiver fails the cast, nobody runs; if none fails it, the result is that of `Fire`; the other paths are as in `Fire` |
| Scenarios.FireReachesSubscriber | Tests/PlayMode/SignalBusPlayModeTests.cs:17-30 | declare, subscribe one receiver, fire: the result is `Ok` and exactly that receiver is called (the corrected cast, see Findings) |
| Scenarios.FiresRepeatInSubscriptionOrder | Tests/PlayMode/SignalBusPlayModeTests.cs:33-51 | with three receivers at the default priority, each of two fires calls all three in subscription order (the corrected cast, see Findings) |
| Scenarios.FireFollowsPriority | Tests/PlayMode/SignalBusPlayModeTests.cs:53-72 | receivers at priorities 0, 1 and 2 are called in the order 2, 1, 0 (the corrected cast, see Findings) |
| Scenarios.FireWithoutSubscribersWarns | Tests/PlayMode/SignalBusPlayModeTests.cs:74-82 | firing a declared signal with no receivers gives the warning and calls nobody |
| Scenarios.UndeclaredFireFails | Tests/PlayMode/SignalBusPlayModeTests.cs:84-90 | firing on an empty bus gives `NotDeclared` and calls nobody |
| Scenarios.UndeclaredSubscribeFails | hm-signal-bus/Assets/Tests/EditMode/SignalBusEditModeTests.cs:40-46 | subscribing and unsubscribing on an empty bus both give `NotDeclared` |
| Scenarios.DuplicateDeclarationFails | hm-signal-bus/Assets/Tests/EditMode/SignalBusEditModeTests.cs:23-28 | the first declaration gives `Ok`, the second `AlreadyDeclared` |
| Scenarios.SubscribeThenUnsubscribe | hm-signal-bus/Assets/Tests/EditMode/SignalBusEditModeTests.cs:31-38 | subscribe and unsubscribe on a declared signal both give `Ok`, and the bus is back to its declared-only state |
| Scenarios.TaskSignalOnlyWarns | h-signal-bus/Assets/Runtime/SignalBus.cs:42-64 | on h-signal-bus, a signal declared with the `Task` style warns and launches nothing, even after a subscribe |
| Scenarios.RaisingReceiverIsWrapped | h-signal-bus/Assets/Runtime/SignalBus.cs:70-73 | on h-signal-bus, when the receiver at priority 2 raises, the fire reports `FireError(signal)`, and the receiver at priority 1 is never called (the corrected cast, see Findings) |
| Scenarios.TypedSubscriberNeverRunsAsWritten | Tests/PlayMode/SignalBusPlayModeTests.cs:17-30 | with the cast as written and the test's subscriber created as `Action<TestSignal>`, the one-subscriber fire calls nobody and raises; with the corrected cast, the subscriber is called |
| Scenarios.TypedSubscriberNeverRunsAsWrittenOnH | h-signal-bus/Assets/Runtime/SignalSubscription.cs:83-88 | on h-signal-bus with the cast as written and a subscriber created as `Action<TestSignal>`, the one-subscriber fire calls nobody and reports `FireError(signal)`; with the corrected cast, the subscriber is called |
| Scenarios.ObjectTypedSubscriberRunsAsWritten | hm-signal-bus/Assets/Runtime/SignalBinding.cs:110-115 | with the cast as written and a subscriber created as `Action<object>`, the cast succeeds and the one-subscriber fire calls it and gives `Ok` |

## Left out

- Awaiting: `Task.WhenAll` and `UniTask.WhenAll`, completion order and how
  the exceptions of several units are aggregated are not modelled. Only the
  launch order is.
- Container.ReceiverContainer.InvokeAsyncTask: failure is one flag, true
  exactly when a launched unit raises. A `Func` that throws before returning
  its task would stop the launch loop early in C#; this model always
  launches every unit.
- Container.ReceiverContainer.InvokeAsyncUniTask: the same simplification
  for `UniTask` units.
- Thread safety: `ConcurrentDictionary` semantics and the non-atomic
  check-then-insert of `DeclareSignal` are not modelled. Every operation
  runs to completion alone.
- Delegates: delegate equality, delegate invocation and pattern matching on
  delegate types are replaced by opaque receiver handles with a shape tag.
  The buses' `Subscribe` and `Unsubscribe` take the handle of the
  `Action<TSignal>` they are given.
- Re-entrancy: a receiver that subscribes, unsubscribes or fires during
  `Invoke` is not modelled. `OrderByDescending` copies the tier list before
  the first receiver runs, so adding or deleting a tier during the walk does
  not disturb it. A change to the `List` of the tier being walked makes its
  enumerator raise in C#.
- Type identity and messages: `typeof(TSignal)` becomes the key type
  parameter `K`. Exception types, message strings and `Type.Name`
  formatting are folded into the `Outcome` constructors.
- Logging: Unity's `Debug.LogWarning` is the `NoSubscribersWarning`
  outcome.
- The static singleton wrappers `Runtime/SignalBusUtilities.cs` and
  `hm-signal-bus/Assets/Runtime/SignalBusUtilities.cs` are not part of this
  model. They are a Unity bootstrap plus forwarding calls and the throw and
  log helpers that `Outcome` stands for.
- Out-of-range enum values: the `_ => false` arm of `HasReceivers` and the
  `default` arm of the h-signal-bus `Fire` switch cannot be reached once the
  style is a closed datatype.
- Test harness: NUnit, `yield return null`, the payload values the tests
  store and the empty `hm-signal-bus/Assets/Tests/PlayMode/SignalBusPlayModeTests.cs`
  are not modelled. The scenarios state the call order that the stored
  payloads witness.
- The h-signal-bus `SignalBus.Subscribe` only accepts `Action<TSignal>`, so
  its Task and UniTask signals never get a receiver. This is proved
  (`Registry.WithAddedKeepsPlainOnly`, the last postcondition of
  `HSignalBus.SignalBus.Fire`, `Scenarios.TaskSignalOnlyWarns`) rather than
  left out; the async dispatch paths are reachable only through the
  container itself.

## Findings

| source | as written | input that shows it | evidently intended | confidence | as-written member | corrected member |
|---|---|---|---|---|---|---|
| hm-signal-bus/Assets/Runtime/SignalBinding.cs:114 | `Invoke(object)` casts every stored plain receiver to `Action<object>`. `SignalBus.Subscribe<TSignal>` (hm-signal-bus/Assets/Runtime/SignalBus.cs:43) takes an `Action<TSignal>`, and the cast succeeds only for a delegate whose runtime type is `Action<object>`; every lambda or method group written as an `Action<TSignal>` with `TSignal` other than `object` fails it, and the first such receiver in the order raises `InvalidCastException` before its body runs. The same cast appears at hm-signal-bus/Assets/Runtime/SignalSubscription.cs:87, which neither bus modelled here uses | declare `TestSignal`, subscribe one lambda typed `Action<TestSignal>` and fire `new TestSignal(42)`, as Tests/PlayMode/SignalBusPlayModeTests.cs:17-30 does: the cast raises before the receiver runs | cast to `Action<TSignal>`, as Runtime/SignalBinding.cs:54 does, so every subscribed receiver is called in dispatch order | high, not executed | HmSignalBus.SignalBus.FireAsWritten | HmSignalBus.SignalBus.Fire |
| h-signal-bus/Assets/Runtime/SignalSubscription.cs:87 | `Invoke(object)` casts every stored plain receiver to `Action<object>`, while `SignalBus.Subscribe<TSignal>` (h-signal-bus/Assets/Runtime/SignalBus.cs:15-22) takes an `Action<TSignal>`; the cast fails for every delegate whose runtime type is not `Action<object>`, and `Fire` (h-signal-bus/Assets/Runtime/SignalBus.cs:70-72) reports the first such failure as a fire error. Since `Task` and `UniTask` signals never get a receiver, the bus as written calls only receivers created as `Action<object>`, and none after the first one whose cast fails | declare `TestSignal` with the `Normal` type, subscribe one lambda typed `Action<TestSignal>` and fire it: the cast raises and `Fire` throws its fire error before the receiver runs | cast to `Action<TSignal>`, as Runtime/SignalBinding.cs:54 does | high, not executed | HSignalBus.SignalBus.FireAsWritten | HSignalBus.SignalBus.Fire |
