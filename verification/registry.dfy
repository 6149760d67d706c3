/**
  What a signal bus stores, as a value: for every declared signal key, the
  style it was declared with and the contents of its receiver container.
  Both registries (`SignalBus` of h-signal-bus and of hm-signal-bus) are
  specified against these functions.
 */
module Registry {
  import opened Tiers
  import opened Container

  /** Outcome of a bus operation. The source raises the three errors as
      exceptions and reports the missing receivers with a warning log. */
  datatype Outcome<K> =
    | Ok
    | NoSubscribersWarning(signal: K)
    | AlreadyDeclared(signal: K)
    | NotDeclared(signal: K)
    | FireError(signal: K)
    | ReceiverThrew(signal: K)

  /** One declared signal: its style and its container's contents. */
  datatype Entry = Entry(style: Style, contents: Contents)

  /** The contents of a freshly constructed container. */
  const Empty := Contents(map[], map[], map[])

  /** Every entry is well formed and holds plain receivers only. */
  ghost predicate PlainOnly<K>(s: map<K, Entry>)
  {
    forall k :: k in s ==> Wellformed(s[k].contents) && s[k].contents.taskReceivers == map[] && s[k].contents.uniTaskReceivers == map[]
  }

  /** `DeclareSignal`: a new key gets an empty container of the given
      style; a declared key keeps its entry untouched. */
  function WithDeclared<K>(s: map<K, Entry>, signal: K, style: Style): (s': map<K, Entry>)
    ensures s'.Keys == s.Keys + {signal}
    ensures signal in s ==> s' == s
    ensures signal !in s ==> s'[signal] == Entry(style, Empty)
    ensures forall k :: k in s ==> s'[k] == s[k]
  {
    if signal in s then s else s[signal := Entry(style, Empty)]
  }

  /** `Subscribe`: the key's container gets `Add(r, p)`; an undeclared key
      leaves everything as it is. */
  function WithAdded<K>(s: map<K, Entry>, signal: K, r: Receiver, p: int): (s': map<K, Entry>)
    ensures s'.Keys == s.Keys
    ensures signal in s ==> s'[signal] == Entry(s[signal].style, Added(s[signal].contents, r, p))
    ensures forall k :: k in s && k != signal ==> s'[k] == s[k]
  {
    if signal in s then s[signal := s[signal].(contents := Added(s[signal].contents, r, p))] else s
  }

  /** `Unsubscribe`: the key's container gets `Remove(r, p)`. */
  function WithDropped<K>(s: map<K, Entry>, signal: K, r: Receiver, p: int): (s': map<K, Entry>)
    ensures s'.Keys == s.Keys
    ensures signal in s ==> s'[signal] == Entry(s[signal].style, Dropped(s[signal].contents, r, p))
    ensures forall k :: k in s && k != signal ==> s'[k] == s[k]
  {
    if signal in s then s[signal := s[signal].(contents := Dropped(s[signal].contents, r, p))] else s
  }

  /** Declaring adds an empty container, which is well formed and plain. */
  lemma WithDeclaredKeepsPlainOnly<K>(s: map<K, Entry>, signal: K, style: Style)
    requires PlainOnly(s)
    ensures PlainOnly(WithDeclared(s, signal, style))
  {
  }

  /** Subscribing plain receivers keeps a plain-only registry plain-only, so
      a signal declared with the Task or UniTask style never gets a receiver
      its `Fire` would dispatch to. */
  lemma WithAddedKeepsPlainOnly<K>(s: map<K, Entry>, signal: K, handle: nat, p: int)
    requires PlainOnly(s)
    ensures PlainOnly(WithAdded(s, signal, Receiver(handle, Action), p))
  {
    var s' := WithAdded(s, signal, Receiver(handle, Action), p);
    forall k | k in s'
      ensures Wellformed(s'[k].contents) && s'[k].contents.taskReceivers == map[] && s'[k].contents.uniTaskReceivers == map[]
    {
      if k == signal {
        assert Get(s'[k].contents, TaskFunc) == Get(s[k].contents, TaskFunc);
        assert Get(s'[k].contents, UniTaskFunc) == Get(s[k].contents, UniTaskFunc);
      }
    }
  }

  lemma WithDroppedKeepsPlainOnly<K>(s: map<K, Entry>, signal: K, handle: nat, p: int)
    requires PlainOnly(s)
    ensures PlainOnly(WithDropped(s, signal, Receiver(handle, Action), p))
  {
    var s' := WithDropped(s, signal, Receiver(handle, Action), p);
    forall k | k in s'
      ensures Wellformed(s'[k].contents) && s'[k].contents.taskReceivers == map[] && s'[k].contents.uniTaskReceivers == map[]
    {
      if k == signal {
        assert Get(s'[k].contents, TaskFunc) == Get(s[k].contents, TaskFunc);
        assert Get(s'[k].contents, UniTaskFunc) == Get(s[k].contents, UniTaskFunc);
      }
    }
  }

  /** On a declared key, subscribing a receiver its tier does not hold and
      unsubscribing it with the same priority gives back the registry
      exactly, every other key included. */
  lemma SubscribeThenUnsubscribeRestores<K>(s: map<K, Entry>, signal: K, r: Receiver, p: int)
    requires signal in s && Wellformed(s[signal].contents)
    requires r !in TierAt(Get(s[signal].contents, r.shape), p)
    ensures WithDropped(WithAdded(s, signal, r, p), signal, r, p) == s
  {
    AddedThenDroppedRestores(s[signal].contents, r, p);
    var s' := WithDropped(WithAdded(s, signal, r, p), signal, r, p);
    assert s'[signal] == s[signal];
  }
}
