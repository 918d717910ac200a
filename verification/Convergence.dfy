/** Repeated reconcile passes: every pass that changes anything lowers a potential, so
    passes reach a fixed point, which is the state in which nothing is left to do.
 */
module Convergence {
  import opened Tables
  import opened Sets
  import opened Selection
  import opened Ownership
  import opened Replacement
  import opened Reconcile

  /** One pass, for some order of the query results and some playbook outcomes. */
  ghost predicate Passes(s: Store, t: Store, now: Time, percent: int) {
    exists rel, needs, oks :: IsPass(s, t, now, percent, rel, needs, oks)
  }

  /** One pass in which every playbook succeeds. */
  ghost predicate PassesWell(s: Store, t: Store, now: Time, percent: int) {
    exists rel, needs, oks :: IsPass(s, t, now, percent, rel, needs, oks) && forall k :: 0 <= k < |oks| ==> oks[k]
  }

  /** Machines that another resize could still move in its present direction. */
  function Slack(s: Store, percent: int): nat {
    if !Managed(s, percent) || |FreeSpares(s)| == Desired(s, percent) then 0
    else if |FreeSpares(s)| < Desired(s, percent) then |Promotable(s)|
    else |IdleSpares(s)|
  }

  ghost function Work(s: Store, now: Time): nat {
    |Guarded(s, now)| + |NeedIds(s, now)|
  }

  ghost function Potential(s: Store, now: Time, percent: int): nat {
    Work(s, now) * (|s.machines| + 1) + Slack(s, percent)
  }

  // ---------- What one pass does ----------

  lemma PassEffect(s: Store, t: Store, now: Time, percent: int, rel: seq<nat>, needs: seq<nat>, oks: seq<bool>)
    requires RowsOk(s, now) && IsPass(s, t, now, percent, rel, needs, oks)
    ensures var r, u := Resize(s, percent), Released(s, now, percent, rel);
            && RowsOk(r, now) && RowsOk(u, now) && RowsOk(t, now)
            && OnlyReleased(r, u, Releasable(s, now)) && Releasable(r, now) == Releasable(s, now)
            && (Releasable(s, now) == {} ==> u == r)
            && Releasable(u, now) == {}
            && NeedIds(u, now) == NeedIds(s, now)
            && Pending(u, now, needs, NeedsOf(u, needs))
            && OnlyAllocated(u, t, NeedsOf(u, needs))
    ensures Guarded(t, now) == Guarded(s, now) - Releasable(s, now)
    ensures NeedIds(t, now) <= NeedIds(s, now)
    ensures t != Released(s, now, percent, rel) ==> |NeedIds(t, now)| < |NeedIds(s, now)|
    ensures |FreeSpares(Released(s, now, percent, rel))| + |NeedIds(t, now)| == |FreeSpares(t)| + |NeedIds(s, now)|
  {
    var r, u := Resize(s, percent), Released(s, now, percent, rel);
    ResizeFlags(s, percent);
    SameHoldKeepsRows(s, r, now);
    FlagsKeepQueries(s, r, now);
    ReleaseStage(r, now, rel);
    forall k | 0 <= k < |needs| ensures needs[k] in NeedIds(u, now) {
      assert needs[k] in needs;
    }
    AllocateAllEffect(u, now, needs, NeedsOf(u, needs), oks);
  }

  ghost predicate SameFleet(s: Store, t: Store) {
    && t.machines.Keys == s.machines.Keys
    && forall i :: i in s.machines ==>
         t.machines[i].enabled == s.machines[i].enabled && t.machines[i].online == s.machines[i].online
  }

  lemma SameFleetCounts(s: Store, t: Store, percent: int)
    requires SameFleet(s, t)
    ensures |t.machines| == |s.machines| && OnlineIds(t) == OnlineIds(s)
  {
    assert |t.machines.Keys| == |s.machines.Keys|;
  }

  lemma ResizeFleet(s: Store, percent: int)
    ensures SameFleet(s, Resize(s, percent))
  {
    if Managed(s, percent) && |FreeSpares(s)| < Desired(s, percent) {
      PromoteFleet(s, Promotions(s, percent));
    } else if Managed(s, percent) && |FreeSpares(s)| > Desired(s, percent) {
      DemoteFleet(s, Demotions(s, percent));
    }
  }

  lemma PromoteFleet(s: Store, ids: set<nat>)
    ensures SameFleet(s, Promote(s, ids))
  {
  }

  lemma DemoteFleet(s: Store, ids: set<nat>)
    ensures SameFleet(s, Demote(s, ids))
  {
  }

  lemma StagesKeepFleet(s: Store, r: Store, u: Store, t: Store, ids: set<nat>, needs: seq<Need>)
    requires SameFleet(s, r) && OnlyReleased(r, u, ids) && OnlyAllocated(u, t, needs)
    ensures SameFleet(s, t)
  {
    forall i | i in s.machines
      ensures t.machines[i].enabled == s.machines[i].enabled && t.machines[i].online == s.machines[i].online
    {
      assert u.machines[i].enabled == r.machines[i].enabled && u.machines[i].online == r.machines[i].online;
    }
  }

  /** The fleet stays what it is. */
  lemma PassKeepsFleet(s: Store, t: Store, now: Time, percent: int, rel: seq<nat>, needs: seq<nat>, oks: seq<bool>)
    requires RowsOk(s, now) && IsPass(s, t, now, percent, rel, needs, oks)
    ensures SameFleet(s, t) && |t.machines| == |s.machines| && OnlineIds(t) == OnlineIds(s)
  {
    var u := Released(s, now, percent, rel);
    PassEffect(s, t, now, percent, rel, needs, oks);
    ResizeFleet(s, percent);
    StagesKeepFleet(s, Resize(s, percent), u, t, Releasable(s, now), NeedsOf(u, needs));
    SameFleetCounts(s, t, percent);
  }

  lemma PromotionSettles(s: Store, percent: int)
    requires Managed(s, percent) && |FreeSpares(s)| < Desired(s, percent) && Promotable(s) != {}
    ensures Slack(Resize(s, percent), percent) < Slack(s, percent)
  {
    var t := Resize(s, percent);
    PromotionBound(s, percent);
    var ids := Promotions(s, percent);
    TakeIsTake(s, Promotable(s), Desired(s, percent) - |FreeSpares(s)|, false);
    PromotionEffect(s, ids);
    if |FreeSpares(t)| < Desired(s, percent) {
      SubsetSize(ids, Promotable(s));
      assert Promotable(t) == {};
    }
  }

  lemma DemotionSettles(s: Store, percent: int)
    requires Managed(s, percent) && |FreeSpares(s)| > Desired(s, percent)
    ensures Slack(Resize(s, percent), percent) < Slack(s, percent)
  {
    var ids := Demotions(s, percent);
    FreeSparesAreIdle(s);
    DemoteTake(s, |FreeSpares(s)| - Desired(s, percent));
    assert Resize(s, percent) == Demote(s, ids);
  }

  lemma EmptyPromotion(s: Store)
    ensures Promote(s, {}) == s
  {
    assert Promote(s, {}).machines == s.machines;
  }

  lemma ResizeSettles(s: Store, percent: int)
    requires Resize(s, percent) != s
    ensures Slack(Resize(s, percent), percent) < Slack(s, percent)
  {
    if |FreeSpares(s)| < Desired(s, percent) {
      if Promotable(s) == {} {
        EmptyPromotion(s);
      }
      PromotionSettles(s, percent);
    } else {
      DemotionSettles(s, percent);
    }
  }

  lemma SlackBound(s: Store, percent: int)
    ensures Slack(s, percent) <= |s.machines|
  {
    FreeSparesAreIdle(s);
  }

  lemma Lexicographic(a: nat, b: nat, m: nat, x: nat, y: nat)
    requires b < a && y <= m
    ensures b * (m + 1) + y < a * (m + 1) + x
  {
    var step := a - b - 1;
    assert a * (m + 1) == b * (m + 1) + (m + 1) + step * (m + 1);
    assert step * (m + 1) >= 0;
  }

  /** The work never grows, and a pass without progress on it only resized the pool. */
  lemma PassLowersWork(s: Store, t: Store, now: Time, percent: int, rel: seq<nat>, needs: seq<nat>, oks: seq<bool>)
    requires RowsOk(s, now) && IsPass(s, t, now, percent, rel, needs, oks)
    ensures Work(t, now) < Work(s, now) || (Work(t, now) == Work(s, now) && t == Resize(s, percent))
  {
    PassEffect(s, t, now, percent, rel, needs, oks);
    SubsetSize(Guarded(t, now), Guarded(s, now));
    SubsetSize(NeedIds(t, now), NeedIds(s, now));
    if Releasable(s, now) != {} {
      var id :| id in Releasable(s, now);
      assert id in Guarded(s, now) && id !in Guarded(t, now);
    }
  }

  /** Every pass that changes anything lowers the potential, whatever fails in it. */
  lemma PassLowersPotential(s: Store, t: Store, now: Time, percent: int)
    requires RowsOk(s, now) && Passes(s, t, now, percent) && t != s
    ensures RowsOk(t, now) && Potential(t, now, percent) < Potential(s, now, percent)
  {
    var rel, needs, oks :| IsPass(s, t, now, percent, rel, needs, oks);
    PassEffect(s, t, now, percent, rel, needs, oks);
    PassKeepsFleet(s, t, now, percent, rel, needs, oks);
    PassLowersWork(s, t, now, percent, rel, needs, oks);
    if Work(t, now) == Work(s, now) {
      ResizeSettles(s, percent);
    }
    LowerPotential(s, t, now, percent);
  }

  lemma LowerPotential(s: Store, t: Store, now: Time, percent: int)
    requires |t.machines| == |s.machines|
    requires Work(t, now) < Work(s, now) || (Work(t, now) == Work(s, now) && Slack(t, percent) < Slack(s, percent))
    ensures Potential(t, now, percent) < Potential(s, now, percent)
  {
    SlackBound(t, percent);
    if Work(t, now) < Work(s, now) {
      Lexicographic(Work(s, now), Work(t, now), |s.machines|, Slack(s, percent), Slack(t, percent));
    }
  }

  // ---------- Balance of a pass ----------

  /** A pass adds the spares it gets back to those the resize leaves, and takes one for every need it meets. */
  lemma PassBalance(s: Store, t: Store, now: Time, percent: int, rel: seq<nat>, needs: seq<nat>, oks: seq<bool>)
    requires RowsOk(s, now) && IsPass(s, t, now, percent, rel, needs, oks)
    ensures |FreeSpares(Released(s, now, percent, rel))| == |FreeSpares(Resize(s, percent))| + |Returning(s, now)|
    ensures |FreeSpares(t)| + |NeedIds(s, now)|
            == |FreeSpares(Resize(s, percent))| + |Returning(s, now)| + |NeedIds(t, now)|
    ensures Promotable(t) == Promotable(Resize(s, percent))
  {
    var r, u := Resize(s, percent), Released(s, now, percent, rel);
    PassEffect(s, t, now, percent, rel, needs, oks);
    ResizeReturns(s, now, percent);
    ReleasedSpares(r, u, now);
    AllocatedPromotable(u, t, NeedsOf(u, needs));
  }

  lemma ResizeReturns(s: Store, now: Time, percent: int)
    ensures Returning(Resize(s, percent), now) == Returning(s, now)
  {
    var r := Resize(s, percent);
    ResizeFlags(s, percent);
    ResizeFleet(s, percent);
    FlagsKeepQueries(s, r, now);
    assert MachinesOf(r, Releasable(r, now)) == MachinesOf(s, Releasable(s, now));
  }

  /** When every playbook succeeds the pass meets as many needs as it has spares for. */
  lemma PassMeets(s: Store, t: Store, now: Time, percent: int, rel: seq<nat>, needs: seq<nat>, oks: seq<bool>)
    requires RowsOk(s, now) && IsPass(s, t, now, percent, rel, needs, oks)
    requires forall k :: 0 <= k < |oks| ==> oks[k]
    ensures var n, f := |NeedIds(s, now)|, |FreeSpares(Resize(s, percent))| + |Returning(s, now)|;
            |NeedIds(t, now)| == n - Min(n, f) && |FreeSpares(t)| == f - Min(n, f)
  {
    var u := Released(s, now, percent, rel);
    PassEffect(s, t, now, percent, rel, needs, oks);
    PassBalance(s, t, now, percent, rel, needs, oks);
    StageMeets(u, t, now, needs, oks);
  }

  lemma StageMeets(u: Store, t: Store, now: Time, needs: seq<nat>, oks: seq<bool>)
    requires RowsOk(u, now) && Lists(needs, NeedIds(u, now)) && |oks| == |needs|
    requires Pending(u, now, needs, NeedsOf(u, needs)) && t == AllocateAll(u, now, NeedsOf(u, needs), oks)
    requires forall k :: 0 <= k < |oks| ==> oks[k]
    ensures var n, f := |NeedIds(u, now)|, |FreeSpares(u)|;
            |NeedIds(t, now)| == n - Min(n, f) && |FreeSpares(t)| == f - Min(n, f)
  {
    ListSize(needs, NeedIds(u, now));
    GreedyAllocation(u, now, needs, NeedsOf(u, needs), oks);
  }

  /** Free spares in the hands of a pass: what the resize leaves and what the releases bring back. */
  ghost function Supply(s: Store, now: Time, percent: int): nat {
    |FreeSpares(Resize(s, percent))| + |Returning(s, now)|
  }

  /** The supply in numbers one can count before the pass. */
  lemma SupplyInNumbers(s: Store, now: Time, percent: int)
    ensures var f, r := |FreeSpares(s)|, |Returning(s, now)|;
            Supply(s, now, percent)
            == if !Managed(s, percent) || f == Desired(s, percent) then f + r
               else if f < Desired(s, percent) then Min(Desired(s, percent), f + |Promotable(s)|) + r
               else f - |Demotions(s, percent) * FreeSpares(s)| + r
  {
    if Managed(s, percent) && |FreeSpares(s)| < Desired(s, percent) {
      PromotionBound(s, percent);
    } else if Managed(s, percent) && |FreeSpares(s)| > Desired(s, percent) {
      var ids := Demotions(s, percent);
      DemotionEffect(s, ids);
      DifferenceSize(FreeSpares(s), ids);
      assert ids * FreeSpares(s) == FreeSpares(s) * ids;
    }
  }

  // ---------- The fixed point ----------

  /** The pool has its target, or falls short of it with nothing left to promote. */
  predicate PoolSettled(s: Store, percent: int) {
    Managed(s, percent) ==>
      || |FreeSpares(s)| == Desired(s, percent)
      || (|FreeSpares(s)| < Desired(s, percent) && Promotable(s) == {})
  }

  /** Nothing left to do: a settled pool, nothing to release, and no need that a free spare could meet. */
  ghost predicate Quiescent(s: Store, now: Time, percent: int) {
    PoolSettled(s, percent) && Releasable(s, now) == {} && (NeedIds(s, now) == {} || FreeSpares(s) == {})
  }

  lemma ResizeFixed(s: Store, percent: int)
    ensures Resize(s, percent) == s <==> PoolSettled(s, percent)
  {
    if Managed(s, percent) {
      if |FreeSpares(s)| < Desired(s, percent) {
        EmptyPromotion(s);
        if Promotable(s) != {} {
          PromotionSettles(s, percent);
        } else {
          assert Promotions(s, percent) == {};
        }
      } else if |FreeSpares(s)| > Desired(s, percent) {
        DemotionSettles(s, percent);
      }
    }
  }

  lemma {:induction false} NothingGranted(s: Store, now: Time, needs: seq<Need>, oks: seq<bool>)
    requires |needs| == |oks| && FreeSpares(s) == {}
    ensures AllocateAll(s, now, needs, oks) == s
    decreases |needs|
  {
    if needs != [] {
      NothingGranted(s, now, needs[1..], oks[1..]);
    }
  }

  /** A pass whose playbooks all succeed changes nothing exactly when nothing is left to do. */
  lemma FixedIffQuiescent(s: Store, t: Store, now: Time, percent: int)
    requires RowsOk(s, now) && PassesWell(s, t, now, percent)
    ensures t == s <==> Quiescent(s, now, percent)
  {
    var rel, needs, oks :| IsPass(s, t, now, percent, rel, needs, oks) && forall k :: 0 <= k < |oks| ==> oks[k];
    var u := Released(s, now, percent, rel);
    PassEffect(s, t, now, percent, rel, needs, oks);
    ResizeFixed(s, percent);
    ListSize(needs, NeedIds(u, now));
    GreedyAllocation(u, now, needs, NeedsOf(u, needs), oks);
    if Quiescent(s, now, percent) {
      if FreeSpares(s) == {} {
        NothingGranted(s, now, NeedsOf(u, needs), oks);
      } else {
        assert needs == [];
      }
    } else if t == s {
      SameAfterPass(s, now, percent, rel, needs, oks);
      assert false;
    }
  }

  /** If a pass ends where it began then none of its stages did anything. */
  lemma SameAfterPass(s: Store, now: Time, percent: int, rel: seq<nat>, needs: seq<nat>, oks: seq<bool>)
    requires RowsOk(s, now) && IsPass(s, s, now, percent, rel, needs, oks)
    requires forall k :: 0 <= k < |oks| ==> oks[k]
    ensures Quiescent(s, now, percent)
  {
    var u := Released(s, now, percent, rel);
    PassEffect(s, s, now, percent, rel, needs, oks);
    ListSize(needs, NeedIds(u, now));
    GreedyAllocation(u, now, needs, NeedsOf(u, needs), oks);
    assert Releasable(s, now) <= Guarded(s, now) && Guarded(s, now) == Guarded(s, now) - Releasable(s, now);
    assert Releasable(s, now) * Guarded(s, now) == {};
    ResizeFixed(s, percent);
    if Resize(s, percent) != s {
      ResizeSettles(s, percent);
    }
  }

  /** There always is a pass in which no playbook fails. */
  lemma SomePass(s: Store, now: Time, percent: int) returns (t: Store)
    ensures PassesWell(s, t, now, percent)
  {
    var rel := SomeOrder(Releasable(Resize(s, percent), now));
    var u := Released(s, now, percent, rel);
    var needs := SomeOrder(NeedIds(u, now));
    var oks := seq(|needs|, k => true);
    t := AllocateAll(u, now, NeedsOf(u, needs), oks);
    assert IsPass(s, t, now, percent, rel, needs, oks);
  }

  // ---------- Convergence ----------

  ghost predicate IsTrace(tr: seq<Store>, now: Time, percent: int) {
    |tr| > 0 && forall i :: 0 <= i < |tr| - 1 ==> Passes(tr[i], tr[i + 1], now, percent)
  }

  lemma WellIsPass(s: Store, t: Store, now: Time, percent: int)
    requires PassesWell(s, t, now, percent)
    ensures Passes(s, t, now, percent)
  {
  }

  lemma {:induction false} TraceKeepsRows(tr: seq<Store>, now: Time, percent: int, n: nat)
    requires IsTrace(tr, now, percent) && RowsOk(tr[0], now) && n < |tr|
    ensures RowsOk(tr[n], now)
    decreases n
  {
    if n > 0 {
      TraceKeepsRows(tr, now, percent, n - 1);
      var rel, needs, oks :| IsPass(tr[n - 1], tr[n], now, percent, rel, needs, oks);
      PassEffect(tr[n - 1], tr[n], now, percent, rel, needs, oks);
    }
  }

  /** With the clock and the machines' health fixed and no API step, at most Potential passes
      change anything: whatever order the queries list rows in and whatever playbooks fail. */
  lemma {:induction false} PassesConverge(tr: seq<Store>, now: Time, percent: int, n: nat)
    requires IsTrace(tr, now, percent) && RowsOk(tr[0], now) && n < |tr|
    requires forall i :: 0 <= i < n ==> tr[i + 1] != tr[i]
    ensures n + Potential(tr[n], now, percent) <= Potential(tr[0], now, percent)
    decreases n
  {
    if n > 0 {
      PassesConverge(tr, now, percent, n - 1);
      TraceKeepsRows(tr, now, percent, n - 1);
      assert tr[n - 1 + 1] != tr[n - 1] && Passes(tr[n - 1], tr[n - 1 + 1], now, percent);
      PassLowersPotential(tr[n - 1], tr[n], now, percent);
    }
  }

  /** Passes whose playbooks succeed reach, within Potential passes, a state with nothing left to do, and stay there. */
  lemma PassesSettle(tr: seq<Store>, now: Time, percent: int) returns (k: nat)
    requires |tr| > 0 && RowsOk(tr[0], now)
    requires forall i :: 0 <= i < |tr| - 1 ==> PassesWell(tr[i], tr[i + 1], now, percent)
    requires |tr| > Potential(tr[0], now, percent) + 1
    ensures k <= Potential(tr[0], now, percent)
    ensures Quiescent(tr[k], now, percent)
    ensures forall j :: k <= j < |tr| ==> tr[j] == tr[k]
  {
    forall i | 0 <= i < |tr| - 1 ensures Passes(tr[i], tr[i + 1], now, percent) {
      WellIsPass(tr[i], tr[i + 1], now, percent);
    }
    k := 0;
    while tr[k + 1] != tr[k]
      invariant k <= Potential(tr[0], now, percent)
      invariant forall i :: 0 <= i < k ==> tr[i + 1] != tr[i]
      decreases Potential(tr[0], now, percent) - k
    {
      PassesConverge(tr, now, percent, k + 1);
      k := k + 1;
    }
    TraceKeepsRows(tr, now, percent, k);
    FixedIffQuiescent(tr[k], tr[k + 1], now, percent);
    StaysQuiescent(tr, now, percent, k);
  }

  lemma StaysQuiescent(tr: seq<Store>, now: Time, percent: int, k: nat)
    requires k < |tr| && RowsOk(tr[k], now) && Quiescent(tr[k], now, percent)
    requires forall i :: 0 <= i < |tr| - 1 ==> PassesWell(tr[i], tr[i + 1], now, percent)
    ensures forall j :: k <= j < |tr| ==> tr[j] == tr[k]
  {
    var j := k;
    while j + 1 < |tr|
      invariant k <= j < |tr|
      invariant forall i :: k <= i <= j ==> tr[i] == tr[k]
    {
      FixedIffQuiescent(tr[j], tr[j + 1], now, percent);
      j := j + 1;
    }
  }

  /** Once the pool is at or below its target it stays there while nothing is released. */
  lemma PassKeepsBelowTarget(s: Store, t: Store, now: Time, percent: int)
    requires RowsOk(s, now) && Passes(s, t, now, percent) && Releasable(s, now) == {}
    requires Managed(s, percent) && |FreeSpares(s)| <= Desired(s, percent)
    ensures Managed(t, percent) && Desired(t, percent) == Desired(s, percent)
    ensures |FreeSpares(t)| <= Desired(t, percent)
  {
    var rel, needs, oks :| IsPass(s, t, now, percent, rel, needs, oks);
    PassEffect(s, t, now, percent, rel, needs, oks);
    PassKeepsFleet(s, t, now, percent, rel, needs, oks);
    if |FreeSpares(s)| < Desired(s, percent) {
      PromotionBound(s, percent);
    }
    SubsetSize(FreeSpares(t), FreeSpares(Resize(s, percent)));
  }

  /** After a pass that had to promote, no pass demotes until some replacement is released. */
  lemma {:induction false} StaysBelowTarget(tr: seq<Store>, now: Time, percent: int, i: nat, j: nat)
    requires IsTrace(tr, now, percent) && RowsOk(tr[0], now) && i <= j < |tr|
    requires forall k :: i <= k < j ==> Releasable(tr[k], now) == {}
    requires Managed(tr[i], percent) && |FreeSpares(tr[i])| < Desired(tr[i], percent)
    ensures Managed(tr[j], percent) && |FreeSpares(tr[j])| <= Desired(tr[j], percent)
    ensures Dropped(tr[j], Resize(tr[j], percent)) == {}
    decreases j
  {
    if i < j {
      StaysBelowTarget(tr, now, percent, i, j - 1);
      TraceKeepsRows(tr, now, percent, j - 1);
      assert Passes(tr[j - 1], tr[j - 1 + 1], now, percent);
      PassKeepsBelowTarget(tr[j - 1], tr[j], now, percent);
    }
    if |FreeSpares(tr[j])| < Desired(tr[j], percent) {
      PromotionBound(tr[j], percent);
    }
  }
}
