/**
  The three-map receiver container. Three revisions of it exist, identical
  up to names: `SignalBinding` of hm-signal-bus (style enum
  `SignalBindingStyle`), and `SignalSubscription` of h-signal-bus (`SignalType`)
  and of hm-signal-bus (`SignalStyle`). Each keeps one sorted dictionary of
  receiver tiers per callback shape, plus a style fixed at construction that
  selects the dictionary `HasReceivers` consults.
 */
module Container {
  import opened Tiers
  import Dispatch

  datatype Style = Normal | Task | UniTask

  /** The three dictionaries as one value. */
  datatype Contents = Contents(receivers: TierMap, taskReceivers: TierMap, uniTaskReceivers: TierMap)

  /** The dictionary that holds receivers of `shape`: `Func<object, Task>`
      and `Func<object, UniTask>` each have their own, every other delegate
      goes to the plain one. */
  function Get(c: Contents, shape: Shape): TierMap {
    match shape
    case Action => c.receivers
    case TaskFunc => c.taskReceivers
    case UniTaskFunc => c.uniTaskReceivers
  }

  /** The receiver shape a style dispatches to. */
  function ShapeOf(style: Style): Shape {
    match style
    case Normal => Action
    case Task => TaskFunc
    case UniTask => UniTaskFunc
  }

  /** Every stored tier is non-empty and holds only receivers of its
      dictionary's shape. */
  ghost predicate Wellformed(c: Contents) {
    && NoEmptyTier(c.receivers) && AllOfShape(c.receivers, Action)
    && NoEmptyTier(c.taskReceivers) && AllOfShape(c.taskReceivers, TaskFunc)
    && NoEmptyTier(c.uniTaskReceivers) && AllOfShape(c.uniTaskReceivers, UniTaskFunc)
  }

  /** The contents after `Add(r, p)`: `r` is appended to tier `p` of its own
      shape's dictionary and nothing else changes. */
  function Added(c: Contents, r: Receiver, p: int): (c': Contents)
    ensures Get(c', r.shape) == Append(Get(c, r.shape), r, p)
    ensures forall shape :: shape != r.shape ==> Get(c', shape) == Get(c, shape)
    ensures Wellformed(c) ==> Wellformed(c')
  {
    var c' := match r.shape
      case Action => c.(receivers := Append(c.receivers, r, p))
      case TaskFunc => c.(taskReceivers := Append(c.taskReceivers, r, p))
      case UniTaskFunc => c.(uniTaskReceivers := Append(c.uniTaskReceivers, r, p));
    assert Wellformed(c) ==> Wellformed(c') by {
      if Wellformed(c) {
        AppendKeepsInvariant(Get(c, r.shape), r, p);
      }
    }
    c'
  }

  /** The contents after `Remove(r, p)`: the first `r` leaves tier `p` of its
      own shape's dictionary, an emptied tier is dropped, and nothing else
      changes. */
  function Dropped(c: Contents, r: Receiver, p: int): (c': Contents)
    ensures Get(c', r.shape) == Removed(Get(c, r.shape), r, p)
    ensures forall shape :: shape != r.shape ==> Get(c', shape) == Get(c, shape)
    ensures Wellformed(c) ==> Wellformed(c')
  {
    var c' := match r.shape
      case Action => c.(receivers := Removed(c.receivers, r, p))
      case TaskFunc => c.(taskReceivers := Removed(c.taskReceivers, r, p))
      case UniTaskFunc => c.(uniTaskReceivers := Removed(c.uniTaskReceivers, r, p));
    assert Wellformed(c) ==> Wellformed(c') by {
      if Wellformed(c) {
        RemovedKeepsInvariant(Get(c, r.shape), r, p, r.shape);
      }
    }
    c'
  }

  /** Adding a receiver that its tier does not hold yet and then removing it
      gives back the original contents exactly. */
  lemma AddedThenDroppedRestores(c: Contents, r: Receiver, p: int)
    requires Wellformed(c)
    requires r !in TierAt(Get(c, r.shape), p)
    ensures Dropped(Added(c, r, p), r, p) == c
  {
    AppendThenRemovedRestores(Get(c, r.shape), r, p);
  }

  class ReceiverContainer {
    var receivers: TierMap
    var taskReceivers: TierMap
    var uniTaskReceivers: TierMap
    /** Set once by the constructor; there is no setter. */
    const style: Style

    function Current(): Contents
      reads this
    {
      Contents(receivers, taskReceivers, uniTaskReceivers)
    }

    ghost predicate Valid()
      reads this
    {
      Wellformed(Current())
    }

    constructor (style: Style := Normal)
      ensures Valid()
      ensures this.style == style
      ensures Current() == Contents(map[], map[], map[])
    {
      this.style := style;
      receivers, taskReceivers, uniTaskReceivers := map[], map[], map[];
    }

    /** Classify `receiver` by its shape and append it to the tier for
        `priority` in that shape's dictionary, creating the tier if absent. */
    method Add(receiver: Receiver, priority: int := 0)
      requires Valid()
      modifies this
      ensures Valid()
      ensures Current() == Added(old(Current()), receiver, priority)
    {
      var plain, task, uniTask := receivers, taskReceivers, uniTaskReceivers;
      match receiver.shape {
        case TaskFunc =>
          task := Dispatch.AddToTier(task, receiver, priority);
        case UniTaskFunc =>
          uniTask := Dispatch.AddToTier(uniTask, receiver, priority);
        case Action =>
          plain := Dispatch.AddToTier(plain, receiver, priority);
      }
      receivers, taskReceivers, uniTaskReceivers := plain, task, uniTask;
    }

    /** Remove the first `receiver` from the tier for `priority` in its
        shape's dictionary, dropping the tier once it is empty; an absent
        tier is left alone. */
    method Remove(receiver: Receiver, priority: int := 0)
      requires Valid()
      modifies this
      ensures Valid()
      ensures Current() == Dropped(old(Current()), receiver, priority)
    {
      var plain, task, uniTask := receivers, taskReceivers, uniTaskReceivers;
      match receiver.shape {
        case TaskFunc =>
          task := Dispatch.RemoveFromTier(task, receiver, priority);
        case UniTaskFunc =>
          uniTask := Dispatch.RemoveFromTier(uniTask, receiver, priority);
        case Action =>
          plain := Dispatch.RemoveFromTier(plain, receiver, priority);
      }
      receivers, taskReceivers, uniTaskReceivers := plain, task, uniTask;
    }

    /** Call the plain receivers, highest priority first and in insertion
        order within a tier; a receiver in `throws` raises and ends the
        call. */
    method Invoke(throws: set<Receiver>) returns (invoked: seq<Receiver>, failed: bool)
      ensures invoked == UntilThrow(Order(receivers), throws)
      ensures failed <==> ThrowsAny(Order(receivers), throws)
    {
      invoked, failed := Dispatch.InvokeInOrder(receivers, throws);
    }

    /** Start one task per task receiver in dispatch order, then await them
        all; the await faults when some started task faults. */
    method InvokeAsyncTask(throws: set<Receiver>) returns (launched: seq<Receiver>, failed: bool)
      ensures launched == Order(taskReceivers)
      ensures failed <==> ThrowsAny(launched, throws)
    {
      launched := Dispatch.LaunchInOrder(taskReceivers);
      failed := ThrowsAny(launched, throws);
    }

    /** The same for the UniTask receivers. */
    method InvokeAsyncUniTask(throws: set<Receiver>) returns (launched: seq<Receiver>, failed: bool)
      ensures launched == Order(uniTaskReceivers)
      ensures failed <==> ThrowsAny(launched, throws)
    {
      launched := Dispatch.LaunchInOrder(uniTaskReceivers);
      failed := ThrowsAny(launched, throws);
    }

    /** True exactly when dispatching the dictionary the style selects would
        reach someone; under the invariant, when that dictionary stores any
        tier. The other two dictionaries play no part. */
    function HasReceivers(): (b: bool)
      reads this
      ensures b <==> Order(Get(Current(), ShapeOf(style))) != []
      ensures Valid() ==> (b <==> Get(Current(), ShapeOf(style)) != map[])
    {
      OrderEmptyIff(Get(Current(), ShapeOf(style)));
      match style
      case Normal => AnyNonEmpty(receivers)
      case Task => AnyNonEmpty(taskReceivers)
      case UniTask => AnyNonEmpty(uniTaskReceivers)
    }
  }
}
