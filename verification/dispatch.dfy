/**
  The steps every receiver container performs on one of its sorted
  dictionaries: adding to and removing from a tier, and the two dispatch
  loops that walk the tiers from the highest priority down and, inside a
  tier, in insertion order.
 */
module Dispatch {
  import opened Tiers

  /** `Add` on one dictionary: create the tier for `priority` when it is
      missing, then append `receiver` to it. */
  method AddToTier(m: TierMap, receiver: Receiver, priority: int) returns (m': TierMap)
    ensures m' == Append(m, receiver, priority)
  {
    m' := m;
    if priority !in m' {
      m' := m'[priority := []];
    }
    m' := m'[priority := m'[priority] + [receiver]];
  }

  /** `Remove` on one dictionary: when the tier for `priority` exists, drop
      the first occurrence of `receiver` from it and then drop the tier if it
      became empty. */
  method RemoveFromTier(m: TierMap, receiver: Receiver, priority: int) returns (m': TierMap)
    ensures m' == Removed(m, receiver, priority)
  {
    m' := m;
    if priority in m' {
      m' := m'[priority := RemoveFirst(m'[priority], receiver)];
      if |m'[priority]| == 0 {
        m' := m' - {priority};
      }
    }
  }

  /** The first key `OrderByDescending(kvp => kvp.Key)` yields. */
  method TopKey(m: TierMap) returns (k: int)
    requires m != map[]
    ensures IsTop(k, m)
  {
    TopExists(m);
    k :| IsTop(k, m);
  }

  /** The inner loop of `Invoke`: call the receivers of one tier in
      insertion order, stopping at the first one that raises. */
  method InvokeTier(tier: seq<Receiver>, throws: set<Receiver>) returns (called: seq<Receiver>, raised: bool)
    ensures !raised ==> called == tier && forall j :: 0 <= j < |tier| ==> tier[j] !in throws
    ensures raised ==> 0 < |called| <= |tier| && called == tier[..|called|] && called[|called| - 1] in throws
    ensures raised ==> forall j :: 0 <= j < |called| - 1 ==> called[j] !in throws
  {
    called, raised := [], false;
    var i := 0;
    while i < |tier|
      invariant 0 <= i <= |tier|
      invariant called == tier[..i]
      invariant forall j :: 0 <= j < i ==> tier[j] !in throws
    {
      called := called + [tier[i]];
      if tier[i] in throws {
        raised := true;
        assert called == tier[..i + 1];
        return;
      }
      i := i + 1;
    }
    assert tier[..i] == tier;
  }

  /** Synchronous `Invoke`: call each receiver in dispatch order. A receiver
      in `throws` raises, which ends the walk with that receiver as the last
      one called. */
  method InvokeInOrder(m: TierMap, throws: set<Receiver>) returns (invoked: seq<Receiver>, failed: bool)
    ensures invoked == UntilThrow(Order(m), throws)
    ensures failed <==> ThrowsAny(Order(m), throws)
  {
    ghost var all := Order(m);
    invoked, failed := [], false;
    var rest := m;
    while rest != map[]
      invariant invoked + Order(rest) == all
      invariant forall j :: 0 <= j < |invoked| ==> invoked[j] !in throws
      decreases |rest|
    {
      var k := TopKey(rest);
      OrderUnfold(rest, k);
      RemoveKeySize(rest, k);
      assert all == invoked + rest[k] + Order(rest - {k});
      var called, raised := InvokeTier(rest[k], throws);
      if raised {
        WalkStopsInTier(invoked, rest[k], Order(rest - {k}), called, throws);
        invoked := invoked + called;
        failed := true;
        return;
      }
      invoked := invoked + called;
      rest := rest - {k};
    }
    assert invoked == all;
    UntilThrowNone(all, throws);
  }

  /** `Invoke` of the three-map containers as written: each stored receiver
      is cast to `Action<object>` before it is called. The cast depends on
      the delegate's runtime type: `Action` is contravariant, so a delegate
      created as `Action<object>` converts, while one created as
      `Action<TSignal>` for any other `TSignal` (every lambda or method
      group passed to `Subscribe<TSignal>`) does not. The receivers in
      `castFails` are the ones whose cast fails; that cast raises before the
      receiver's body runs and ends the walk like any other exception. */
  method InvokeCastingToObject(m: TierMap, throws: set<Receiver>, castFails: set<Receiver>)
    returns (invoked: seq<Receiver>, failed: bool)
    ensures invoked == CastWalk(Order(m), throws, castFails)
    ensures failed <==> ThrowsAny(Order(m), throws + castFails)
  {
    var reached;
    reached, failed := InvokeInOrder(m, throws + castFails);
    if reached != [] && reached[|reached| - 1] in castFails {
      invoked := reached[..|reached| - 1];
    } else {
      invoked := reached;
    }
  }

  /** The inner launch loop: start one unit per receiver of a tier, in
      insertion order. */
  method LaunchTier(tier: seq<Receiver>) returns (started: seq<Receiver>)
    ensures started == tier
  {
    started := [];
    var i := 0;
    while i < |tier|
      invariant 0 <= i <= |tier|
      invariant started == tier[..i]
    {
      started := started + [tier[i]];
      i := i + 1;
    }
    assert tier[..i] == tier;
  }

  /** The launch loop of `InvokeAsyncTask` / `InvokeAsyncUniTask`: start one
      unit per receiver, in dispatch order, before anything is awaited. */
  method LaunchInOrder(m: TierMap) returns (units: seq<Receiver>)
    ensures units == Order(m)
  {
    ghost var all := Order(m);
    units := [];
    var rest := m;
    while rest != map[]
      invariant units + Order(rest) == all
      decreases |rest|
    {
      var k := TopKey(rest);
      OrderUnfold(rest, k);
      RemoveKeySize(rest, k);
      var started := LaunchTier(rest[k]);
      assert all == units + started + Order(rest - {k});
      units := units + started;
      rest := rest - {k};
    }
  }
}
