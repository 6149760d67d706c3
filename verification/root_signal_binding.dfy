/**
  `SignalBinding` of the root `Runtime` revision: one sorted dictionary of
  receiver tiers, dispatched synchronously. Receivers are not classified by
  shape; every delegate goes into the single dictionary.
 */
module RootSignalBinding {
  import opened Tiers
  import Dispatch

  class SignalBinding {
    var receivers: TierMap

    ghost predicate Valid()
      reads this
    {
      NoEmptyTier(receivers)
    }

    constructor ()
      ensures Valid()
      ensures receivers == map[]
    {
      receivers := map[];
    }

    /** Append `receiver` to the tier for `priority`, creating the tier if
        it is absent. */
    method Add(receiver: Receiver, priority: int := 0)
      requires Valid()
      modifies this
      ensures Valid()
      ensures receivers == Append(old(receivers), receiver, priority)
    {
      receivers := Dispatch.AddToTier(receivers, receiver, priority);
    }

    /** Return at once when there is no tier for `priority`; otherwise drop
        the first `receiver` from it and drop the tier once it is empty. */
    method Remove(receiver: Receiver, priority: int := 0)
      requires Valid()
      modifies this
      ensures Valid()
      ensures receivers == Removed(old(receivers), receiver, priority)
    {
      RemovedKeepsInvariant(receivers, receiver, priority, receiver.shape);
      receivers := Dispatch.RemoveFromTier(receivers, receiver, priority);
    }

    /** Call every receiver, highest priority first and in insertion order
        within a tier; a receiver in `throws` raises and ends the call. */
    method Invoke(throws: set<Receiver>) returns (invoked: seq<Receiver>, failed: bool)
      ensures invoked == UntilThrow(Order(receivers), throws)
      ensures failed <==> ThrowsAny(Order(receivers), throws)
    {
      invoked, failed := Dispatch.InvokeInOrder(receivers, throws);
    }

    /** True exactly when `Invoke` would reach someone; under the invariant,
        exactly when some tier is stored. */
    function HasReceivers(): (b: bool)
      reads this
      ensures b <==> Order(receivers) != []
      ensures Valid() ==> (b <==> receivers != map[])
    {
      OrderEmptyIff(receivers);
      AnyNonEmpty(receivers)
    }
  }
}
