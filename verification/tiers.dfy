/**
  Priority tiers: the value-level specification shared by every receiver
  container of the signal bus.

  A container keeps, per callback shape, a sorted dictionary from an integer
  priority to the list of receivers registered at that priority. Here such a
  dictionary is a `TierMap`, and the order in which a container visits its
  receivers is `Order`: the tier with the largest priority first, each tier
  in insertion order.
 */
module Tiers {

  /** The three callback shapes a container tells apart: any delegate that is
      neither of the two asynchronous function shapes is a plain action. */
  datatype Shape = Action | TaskFunc | UniTaskFunc

  /** An opaque, comparable callback handle. Two receivers are the same
      delegate exactly when they are equal. */
  datatype Receiver = Receiver(id: nat, shape: Shape)

  /** Priority -> receivers at that priority, in insertion order. */
  type TierMap = map<int, seq<Receiver>>

  /** The container invariant: a tier that is stored is never empty. */
  ghost predicate NoEmptyTier(m: TierMap)
  {
    forall p :: p in m ==> m[p] != []
  }

  /** Every receiver stored in `m` has the given shape. */
  ghost predicate AllOfShape(m: TierMap, shape: Shape)
  {
    forall p, x :: p in m && x in m[p] ==> x.shape == shape
  }

  /** Some stored tier holds at least one receiver (`Any(Count > 0)`). */
  predicate AnyNonEmpty(m: TierMap)
  {
    exists p :: p in m && |m[p]| > 0
  }

  /** The tier at priority `p`, empty when there is none. */
  function TierAt(m: TierMap, p: int): seq<Receiver>
  {
    if p in m then m[p] else []
  }

  /** The tiers strictly above / strictly below priority `p`. */
  function Above(m: TierMap, p: int): TierMap
  {
    map q | q in m && q > p :: m[q]
  }

  function Below(m: TierMap, p: int): TierMap
  {
    map q | q in m && q < p :: m[q]
  }

  // ---------------------------------------------------------------------
  // Adding and removing receivers
  // ---------------------------------------------------------------------

  /** `Add`: create the tier for `p` if it is absent, then append `r`. */
  function Append(m: TierMap, r: Receiver, p: int): (m': TierMap)
    ensures m'.Keys == m.Keys + {p}
    ensures m'[p] == TierAt(m, p) + [r]
    ensures forall q :: q in m && q != p ==> m'[q] == m[q]
  {
    m[p := TierAt(m, p) + [r]]
  }

  /** `List.IndexOf`: the position of the first element equal to `r`. */
  function FirstIndex(s: seq<Receiver>, r: Receiver): (i: nat)
    requires r in s
    ensures i < |s| && s[i] == r && r !in s[..i]
  {
    if s[0] == r then 0
    else
      var i := 1 + FirstIndex(s[1..], r);
      assert s[..i] == [s[0]] + s[1..][..i - 1];
      i
  }

  /** `List.Remove`: delete the first element equal to `r`, if any. */
  function RemoveFirst(s: seq<Receiver>, r: Receiver): (t: seq<Receiver>)
    ensures r !in s ==> t == s
    ensures r in s ==> |t| == |s| - 1
  {
    if r in s then
      var i := FirstIndex(s, r);
      s[..i] + s[i + 1..]
    else s
  }

  /** `List.Remove` deletes exactly one occurrence of `r` when there is one,
      and it is the first: everything before it stays, everything after it
      moves up by one. */
  lemma RemoveFirstSpec(s: seq<Receiver>, r: Receiver)
    ensures multiset(RemoveFirst(s, r)) == multiset(s) - multiset{r}
    ensures r in s ==> exists i :: 0 <= i < |s| && s[i] == r && r !in s[..i] && RemoveFirst(s, r) == s[..i] + s[i + 1..]
  {
    if r in s {
      var i := FirstIndex(s, r);
      assert s == s[..i] + [s[i]] + s[i + 1..];
    }
  }

  /** `Remove`: absent priority is a no-op; otherwise remove the first `r`
      from tier `p` and drop the tier once it is empty. */
  function Removed(m: TierMap, r: Receiver, p: int): (m': TierMap)
    ensures p !in m ==> m' == m
    ensures m'.Keys <= m.Keys && m.Keys - {p} <= m'.Keys
    ensures TierAt(m', p) == RemoveFirst(TierAt(m, p), r)
    ensures p in m && RemoveFirst(m[p], r) == [] ==> p !in m'
    ensures forall q :: q in m && q != p ==> m'[q] == m[q]
  {
    if p !in m then m
    else
      var t := RemoveFirst(m[p], r);
      if |t| == 0 then m - {p} else m[p := t]
  }

  /** Appending keeps every tier non-empty and every receiver of the
      dictionary's shape. */
  lemma AppendKeepsInvariant(m: TierMap, r: Receiver, p: int)
    requires NoEmptyTier(m) && AllOfShape(m, r.shape)
    ensures NoEmptyTier(Append(m, r, p)) && AllOfShape(Append(m, r, p), r.shape)
  {
  }

  /** Removing keeps every tier non-empty (an emptied tier is dropped) and
      every receiver of the dictionary's shape. */
  lemma RemovedKeepsInvariant(m: TierMap, r: Receiver, p: int, shape: Shape)
    requires NoEmptyTier(m)
    ensures NoEmptyTier(Removed(m, r, p))
    ensures AllOfShape(m, shape) ==> AllOfShape(Removed(m, r, p), shape)
  {
    var m' := Removed(m, r, p);
    forall q: int, x: Receiver | AllOfShape(m, shape) && q in m' && x in m'[q]
      ensures x.shape == shape
    {
      if q == p {
        RemoveFirstSpec(m[p], r);
        assert x in multiset(m'[q]);
        assert x in multiset(m[q]);
      }
    }
  }

  lemma RemoveFirstOfAppended(s: seq<Receiver>, r: Receiver)
    requires r !in s
    ensures RemoveFirst(s + [r], r) == s
  {
    var i := FirstIndex(s + [r], r);
    assert forall j :: 0 <= j < |s| ==> (s + [r])[j] == s[j];
    assert i == |s|;
    assert (s + [r])[..i] == s;
  }

  /** Subscribing a receiver that tier `p` does not hold and then
      unsubscribing it restores the container exactly. */
  lemma AppendThenRemovedRestores(m: TierMap, r: Receiver, p: int)
    requires NoEmptyTier(m)
    requires r !in TierAt(m, p)
    ensures Removed(Append(m, r, p), r, p) == m
  {
    var s := TierAt(m, p);
    var a := Append(m, r, p);
    RemoveFirstOfAppended(s, r);
    var d := Removed(a, r, p);
    assert TierAt(d, p) == s;
    assert AgreeOutside(m, d, p);
    if s == [] {
      assert p !in m && p !in d;
    } else {
      assert p in m && p in d;
    }
    assert d.Keys == m.Keys;
  }

  // ---------------------------------------------------------------------
  // Dispatch order
  // ---------------------------------------------------------------------

  /** `k` is the largest stored priority of `m`. */
  predicate IsTop(k: int, m: TierMap)
  {
    k in m && forall q :: q in m ==> q <= k
  }

  /** A map holding priority `w` has a largest priority. */
  lemma {:induction false} TopAtLeast(m: TierMap, w: int)
    requires w in m
    ensures exists k :: IsTop(k, m)
    decreases |m|
  {
    var rest := m - {w};
    RemoveKeySize(m, w);
    if forall q :: q in m ==> q <= w {
      assert IsTop(w, m);
    } else {
      assert exists y :: y in m && y > w;
      var y :| y in m && y > w;
      assert y in rest;
      TopAtLeast(rest, y);
      var top :| IsTop(top, rest);
      forall q | q in m ensures q <= top {
        if q != w { assert q in rest; }
      }
      assert IsTop(top, m);
    }
  }

  lemma SomeKey(m: TierMap)
    requires m != map[]
    ensures exists k :: k in m
  {
    if forall k :: k !in m {
      assert false;
    }
  }

  lemma TopExists(m: TierMap)
    requires m != map[]
    ensures exists k :: IsTop(k, m)
  {
    SomeKey(m);
    var w :| w in m;
    TopAtLeast(m, w);
  }

  lemma RemoveKeySize(m: TierMap, k: int)
    requires k in m
    ensures |m - {k}| == |m| - 1
  {
    assert (m - {k}).Keys == m.Keys - {k};
  }

  /** `OrderByDescending(key)` followed by a walk through each tier: the
      receivers of the highest tier, then the order of everything else. */
  ghost function Order(m: TierMap): seq<Receiver>
    decreases |m|
  {
    if m == map[] then []
    else
      TopExists(m);
      var k :| IsTop(k, m);
      RemoveKeySize(m, k);
      m[k] + Order(m - {k})
  }

  lemma OrderUnfold(m: TierMap, k: int)
    requires IsTop(k, m)
    ensures Order(m) == m[k] + Order(m - {k})
  {
  }

  /** Strictly descending priority: the receivers of tier `p` come after
      every receiver of a higher tier and before every receiver of a lower
      one, in their insertion order. */
  lemma {:induction false} OrderAround(m: TierMap, p: int)
    ensures Order(m) == Order(Above(m, p)) + TierAt(m, p) + Order(Below(m, p))
    decreases |m|
  {
    if m == map[] {
      assert Above(m, p) == map[];
      assert Below(m, p) == map[];
    } else {
      TopExists(m);
      var k :| IsTop(k, m);
      OrderUnfold(m, k);
      if k == p {
        assert Above(m, p) == map[];
        assert Below(m, p) == m - {k};
      } else if k > p {
        var a := Above(m, p);
        assert IsTop(k, a);
        OrderUnfold(a, k);
        assert a - {k} == Above(m - {k}, p);
        assert Below(m - {k}, p) == Below(m, p);
        assert TierAt(m - {k}, p) == TierAt(m, p);
        RemoveKeySize(m, k);
        OrderAround(m - {k}, p);
      } else {
        assert p !in m;
        assert Above(m, p) == map[];
        assert Below(m, p) == m;
      }
    }
  }

  /** Every stored receiver is visited, and nothing else is. */
  lemma {:induction false} OrderMembers(m: TierMap, x: Receiver)
    ensures x in Order(m) <==> exists p :: p in m && x in m[p]
    decreases |m|
  {
    if m != map[] {
      TopExists(m);
      var k :| IsTop(k, m);
      OrderUnfold(m, k);
      RemoveKeySize(m, k);
      OrderMembers(m - {k}, x);
      if x in Order(m) && x !in m[k] {
        var q :| q in m - {k} && x in (m - {k})[q];
        assert q in m && x in m[q];
      }
      if p :| p in m && x in m[p] {
        if p != k {
          assert p in m - {k} && x in (m - {k})[p];
        }
      }
    }
  }

  /** The number of visits of `x` is the number of times the tiers hold it. */
  lemma {:induction false} OrderCount(m: TierMap, p: int, x: Receiver)
    requires p in m
    ensures multiset(Order(m))[x] == multiset(m[p])[x] + multiset(Order(m - {p}))[x]
  {
    OrderAround(m, p);
    OrderAround(m - {p}, p);
    assert Above(m - {p}, p) == Above(m, p);
    assert Below(m - {p}, p) == Below(m, p);
  }

  /** A container visits no one exactly when no stored tier is non-empty;
      under the invariant, exactly when it stores no tier. */
  lemma OrderEmptyIff(m: TierMap)
    ensures Order(m) == [] <==> !AnyNonEmpty(m)
    ensures NoEmptyTier(m) ==> (AnyNonEmpty(m) <==> m != map[])
  {
    if AnyNonEmpty(m) {
      var p :| p in m && |m[p]| > 0;
      OrderMembers(m, m[p][0]);
    } else if Order(m) != [] {
      OrderMembers(m, Order(m)[0]);
    }
    if NoEmptyTier(m) && m != map[] {
      var p :| p in m;
      assert |m[p]| > 0;
    }
  }

  /** Two tier maps that agree everywhere except at priority `p`. */
  ghost predicate AgreeOutside(m: TierMap, d: TierMap, p: int)
  {
    forall q :: q != p ==> (q in m <==> q in d) && (q in m ==> m[q] == d[q])
  }

  lemma AgreeOutsideSplit(m: TierMap, d: TierMap, p: int)
    requires AgreeOutside(m, d, p)
    ensures Above(d, p) == Above(m, p) && Below(d, p) == Below(m, p)
  {
  }

  /** A receiver added at priority `p` is visited after every receiver
      already stored at priority `p` or above and before every lower one. */
  lemma AppendOrder(m: TierMap, r: Receiver, p: int)
    ensures Order(Append(m, r, p)) == Order(Above(m, p)) + TierAt(m, p) + [r] + Order(Below(m, p))
  {
    var a := Append(m, r, p);
    assert TierAt(a, p) == TierAt(m, p) + [r];
    assert AgreeOutside(m, a, p);
    AgreeOutsideSplit(m, a, p);
    OrderAround(a, p);
    OrderAround(m, p);
  }

  /** Removing touches the visit order only inside tier `p`. */
  lemma RemovedOrder(m: TierMap, r: Receiver, p: int)
    ensures Order(Removed(m, r, p)) == Order(Above(m, p)) + RemoveFirst(TierAt(m, p), r) + Order(Below(m, p))
  {
    var d := Removed(m, r, p);
    OrderAround(d, p);
    OrderAround(m, p);
    AgreeOutsideSplit(m, d, p);
  }

  /** A receiver registered once, at priority `p` only, is no longer visited
      after it is removed from `p`. */
  lemma UnsubscribedNotVisited(m: TierMap, r: Receiver, p: int)
    requires multiset(TierAt(m, p))[r] <= 1
    requires forall q :: q in m && q != p ==> r !in m[q]
    ensures r !in Order(Removed(m, r, p))
  {
    var d := Removed(m, r, p);
    RemoveFirstSpec(TierAt(m, p), r);
    assert multiset(TierAt(d, p))[r] == 0;
    OrderMembers(d, r);
  }

  // ---------------------------------------------------------------------
  // A reference definition of the order: flatten tiers along a list of
  // priorities sorted in descending order.
  // ---------------------------------------------------------------------

  predicate StrictlyDescending(ks: seq<int>)
  {
    forall i, j :: 0 <= i < j < |ks| ==> ks[i] > ks[j]
  }

  function Flatten(m: TierMap, ks: seq<int>): seq<Receiver>
  {
    if ks == [] then [] else TierAt(m, ks[0]) + Flatten(m, ks[1..])
  }

  lemma {:induction false} FlattenFrame(m: TierMap, m': TierMap, ks: seq<int>)
    requires forall i :: 0 <= i < |ks| ==> TierAt(m, ks[i]) == TierAt(m', ks[i])
    ensures Flatten(m, ks) == Flatten(m', ks)
  {
    if ks != [] {
      assert TierAt(m, ks[0]) == TierAt(m', ks[0]);
      FlattenFrame(m, m', ks[1..]);
    }
  }

  /** The first of the stored priorities, listed in descending order, is
      the largest. */
  lemma HeadIsTop(m: TierMap, ks: seq<int>)
    requires StrictlyDescending(ks) && ks != []
    requires forall k :: k in m <==> k in ks
    ensures IsTop(ks[0], m)
  {
    forall q | q in m ensures q <= ks[0] {
      var j :| 0 <= j < |ks| && ks[j] == q;
    }
  }

  /** Dropping the largest priority leaves the rest of the list as the
      remaining priorities, still in descending order, with their tiers. */
  lemma TailKeys(m: TierMap, ks: seq<int>)
    requires StrictlyDescending(ks) && ks != []
    requires forall k :: k in m <==> k in ks
    ensures StrictlyDescending(ks[1..])
    ensures forall q :: q in m - {ks[0]} <==> q in ks[1..]
    ensures Flatten(m - {ks[0]}, ks[1..]) == Flatten(m, ks[1..])
  {
    var k, tail := ks[0], ks[1..];
    forall q ensures q in m - {k} <==> q in tail {
      if q in tail {
        var j :| 0 <= j < |tail| && tail[j] == q;
        assert ks[j + 1] == q;
      }
      if q in m && q != k {
        var j :| 0 <= j < |ks| && ks[j] == q;
        assert j > 0;
        assert tail[j - 1] == q;
      }
    }
    forall i | 0 <= i < |tail| ensures TierAt(m - {k}, tail[i]) == TierAt(m, tail[i]) {
      assert tail[i] == ks[i + 1];
    }
    FlattenFrame(m - {k}, m, tail);
  }

  /** `Order` agrees with flattening the tiers along the stored priorities
      sorted in descending order. */
  lemma {:induction false} OrderByKeys(m: TierMap, ks: seq<int>)
    requires StrictlyDescending(ks)
    requires forall k :: k in m <==> k in ks
    ensures Order(m) == Flatten(m, ks)
    decreases |ks|
  {
    if ks == [] {
      forall k | k in m ensures k in ks { }
      assert m == map[];
    } else {
      HeadIsTop(m, ks);
      OrderUnfold(m, ks[0]);
      TailKeys(m, ks);
      OrderByKeys(m - {ks[0]}, ks[1..]);
    }
  }

  // ---------------------------------------------------------------------
  // Receivers that raise
  // ---------------------------------------------------------------------

  /** Some receiver of `s` raises when invoked. */
  predicate ThrowsAny(s: seq<Receiver>, throws: set<Receiver>)
  {
    exists i :: 0 <= i < |s| && s[i] in throws
  }

  /** The receivers actually invoked by a synchronous walk over `s` that
      stops at the first receiver that raises (that one included). */
  function UntilThrow(s: seq<Receiver>, throws: set<Receiver>): seq<Receiver>
  {
    if s == [] then []
    else if s[0] in throws then [s[0]]
    else [s[0]] + UntilThrow(s[1..], throws)
  }

  /** A walk over receivers none of which raises calls all of them. */
  lemma {:induction false} UntilThrowNone(s: seq<Receiver>, throws: set<Receiver>)
    requires forall j :: 0 <= j < |s| ==> s[j] !in throws
    ensures UntilThrow(s, throws) == s && !ThrowsAny(s, throws)
  {
    if s != [] {
      assert s[0] !in throws;
      UntilThrowNone(s[1..], throws);
      assert s == [s[0]] + s[1..];
    }
  }

  /** A walk whose first raising receiver sits at position `n - 1` calls
      exactly the first `n` receivers. */
  lemma {:induction false} UntilThrowAt(s: seq<Receiver>, n: nat, throws: set<Receiver>)
    requires 0 < n <= |s| && s[n - 1] in throws
    requires forall j :: 0 <= j < n - 1 ==> s[j] !in throws
    ensures UntilThrow(s, throws) == s[..n] && ThrowsAny(s, throws)
  {
    if n > 1 {
      assert s[0] !in throws;
      assert forall j :: 0 <= j < n - 2 ==> s[1..][j] == s[j + 1];
      UntilThrowAt(s[1..], n - 1, throws);
      assert s[..n] == [s[0]] + s[1..][..n - 1];
    }
  }

  /** When some receiver raises, there is a first one that does. */
  lemma {:induction false} FirstThrow(s: seq<Receiver>, throws: set<Receiver>)
    requires ThrowsAny(s, throws)
    ensures exists i :: 0 <= i < |s| && s[i] in throws && forall j :: 0 <= j < i ==> s[j] !in throws
  {
    if s[0] !in throws {
      var i :| 0 <= i < |s| && s[i] in throws;
      assert s[1..][i - 1] in throws;
      FirstThrow(s[1..], throws);
      var n :| 0 <= n < |s[1..]| && s[1..][n] in throws && forall j :: 0 <= j < n ==> s[1..][j] !in throws;
      assert s[n + 1] in throws;
      forall j | 0 <= j < n + 1 ensures s[j] !in throws {
        if j > 0 { assert s[j] == s[1..][j - 1]; }
      }
    }
  }

  /** A walk that passed `done` without a throw and then calls the prefix
      `called` of `tier`, whose last receiver is the first to raise, stops
      there. */
  lemma WalkStopsInTier(done: seq<Receiver>, tier: seq<Receiver>, later: seq<Receiver>, called: seq<Receiver>, throws: set<Receiver>)
    requires forall j :: 0 <= j < |done| ==> done[j] !in throws
    requires 0 < |called| <= |tier| && called == tier[..|called|] && called[|called| - 1] in throws
    requires forall j :: 0 <= j < |called| - 1 ==> called[j] !in throws
    ensures UntilThrow(done + tier + later, throws) == done + called
    ensures ThrowsAny(done + tier + later, throws)
  {
    var s := done + tier + later;
    var c := |called|;
    var n := |done| + c;
    assert s[n - 1] == tier[c - 1] == called[c - 1];
    forall j | 0 <= j < n - 1 ensures s[j] !in throws {
      if j >= |done| { assert s[j] == tier[j - |done|] == called[j - |done|]; }
    }
    UntilThrowAt(s, n, throws);
    assert s[..n] == done + tier[..c];
  }

  /** The walk calls a prefix of `s`: all of it when nobody raises, and
      otherwise up to and including the first receiver that raises. */
  lemma UntilThrowPrefix(s: seq<Receiver>, throws: set<Receiver>)
    ensures var t := UntilThrow(s, throws);
      && |t| <= |s| && t == s[..|t|]
      && (!ThrowsAny(s, throws) ==> t == s)
      && (ThrowsAny(s, throws) ==> |t| > 0 && t[|t| - 1] in throws && !ThrowsAny(t[..|t| - 1], throws))
  {
    if ThrowsAny(s, throws) {
      FirstThrow(s, throws);
      var i :| 0 <= i < |s| && s[i] in throws && forall j :: 0 <= j < i ==> s[j] !in throws;
      UntilThrowAt(s, i + 1, throws);
    } else {
      UntilThrowNone(s, throws);
    }
  }

  // ---------------------------------------------------------------------
  // The walk of the three-map containers as written, which casts each
  // stored receiver to `Action<object>` before calling it. A receiver whose
  // runtime type does not convert (`castFails`) raises at the cast, before
  // its body runs.
  // ---------------------------------------------------------------------

  /** Two raise sets that agree on the members of `s` give the same walk. */
  lemma {:induction false} UntilThrowSameOn(s: seq<Receiver>, a: set<Receiver>, b: set<Receiver>)
    requires forall i :: 0 <= i < |s| ==> (s[i] in a <==> s[i] in b)
    ensures UntilThrow(s, a) == UntilThrow(s, b)
    ensures ThrowsAny(s, a) <==> ThrowsAny(s, b)
  {
    if s != [] {
      assert s[0] in a <==> s[0] in b;
      UntilThrowSameOn(s[1..], a, b);
      assert forall i :: 0 <= i < |s[1..]| ==> s[1..][i] == s[i + 1];
      if ThrowsAny(s[1..], a) {
        var i :| 0 <= i < |s[1..]| && s[1..][i] in a;
        assert s[i + 1] in a;
      }
      if ThrowsAny(s[1..], b) {
        var i :| 0 <= i < |s[1..]| && s[1..][i] in b;
        assert s[i + 1] in b;
      }
      if ThrowsAny(s, a) && s[0] !in a {
        var i :| 0 <= i < |s| && s[i] in a;
        assert s[1..][i - 1] in a;
      }
      if ThrowsAny(s, b) && s[0] !in b {
        var i :| 0 <= i < |s| && s[i] in b;
        assert s[1..][i - 1] in b;
      }
    }
  }

  /** The receivers whose bodies run in a walk that raises at the first
      receiver in `throws` (after running it) or in `castFails` (before
      running it). */
  function CastWalk(s: seq<Receiver>, throws: set<Receiver>, castFails: set<Receiver>): seq<Receiver>
  {
    var reached := UntilThrow(s, throws + castFails);
    if reached != [] && reached[|reached| - 1] in castFails then reached[..|reached| - 1] else reached
  }

  /** The walk as written runs a prefix of `s` that holds no receiver
      whose cast fails. */
  lemma CastWalkPrefix(s: seq<Receiver>, throws: set<Receiver>, castFails: set<Receiver>)
    ensures var t := CastWalk(s, throws, castFails);
      && |t| <= |s| && t == s[..|t|]
      && (forall i :: 0 <= i < |t| ==> t[i] !in castFails)
  {
    var reached := UntilThrow(s, throws + castFails);
    UntilThrowPrefix(s, throws + castFails);
    if ThrowsAny(s, throws + castFails) {
      assert !ThrowsAny(reached[..|reached| - 1], throws + castFails);
      forall i | 0 <= i < |reached| - 1 ensures reached[i] !in castFails {
        assert reached[..|reached| - 1][i] == reached[i];
      }
    }
  }

  /** With no receiver of `s` failing the cast, the walk as written is the
      corrected walk and fails exactly when it does. */
  lemma CastWalkWithoutCastFailures(s: seq<Receiver>, throws: set<Receiver>, castFails: set<Receiver>)
    requires forall i :: 0 <= i < |s| ==> s[i] !in castFails
    ensures CastWalk(s, throws, castFails) == UntilThrow(s, throws)
    ensures ThrowsAny(s, throws + castFails) <==> ThrowsAny(s, throws)
  {
    var reached := UntilThrow(s, throws + castFails);
    UntilThrowSameOn(s, throws + castFails, throws);
    UntilThrowPrefix(s, throws);
    if reached != [] {
      assert reached[|reached| - 1] == s[|reached| - 1];
    }
  }

  /** When the first receiver's cast fails, nobody runs and the walk
      raises. */
  lemma CastWalkFirstFails(s: seq<Receiver>, throws: set<Receiver>, castFails: set<Receiver>)
    requires s != [] && s[0] in castFails
    ensures CastWalk(s, throws, castFails) == [] && ThrowsAny(s, throws + castFails)
  {
    assert s[0] in throws + castFails;
    assert UntilThrow(s, throws + castFails) == [s[0]];
  }
}
