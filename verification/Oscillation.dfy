/** Promotion and demotion over repeated passes: exactly when one pass undoes what another one
    did. From tables without orphaned replacements a promotion is only ever undone by the second
    pass; so is a demotion, unless a playbook fails in between.
 */
module Oscillation {
  import opened Wrappers
  import opened Tables
  import opened Sets
  import opened Ownership
  import opened Replacement
  import opened Reconcile
  import opened Convergence
  import opened Visibility

  /** The next pass from s would raise, or drop, some machine's spare flag. */
  ghost predicate Promotes(s: Store, percent: int) {
    Raised(s, Resize(s, percent)) != {}
  }

  ghost predicate Demotes(s: Store, percent: int) {
    Dropped(s, Resize(s, percent)) != {}
  }

  predicate Below(s: Store, percent: int) {
    Managed(s, percent) && |FreeSpares(s)| < Desired(s, percent)
  }

  predicate Above(s: Store, percent: int) {
    Managed(s, percent) && |FreeSpares(s)| > Desired(s, percent)
  }

  lemma PromotesIff(s: Store, percent: int)
    ensures Promotes(s, percent) <==> Below(s, percent) && Promotable(s) != {}
  {
    if Below(s, percent) {
      PromotionBound(s, percent);
      if Promotable(s) == {} {
        assert Raised(s, Resize(s, percent)) <= Promotable(s);
      }
    } else if Above(s, percent) {
      DemotionBound(s, percent);
    } else {
      assert Resize(s, percent) == s;
    }
  }

  lemma DemotesIff(s: Store, percent: int)
    ensures Demotes(s, percent) <==> Above(s, percent)
  {
    if Below(s, percent) {
      PromotionBound(s, percent);
    } else if Above(s, percent) {
      DemotionBound(s, percent);
    } else {
      assert Resize(s, percent) == s;
    }
  }

  /** The fleet, and with it the target, is the same after a pass. */
  lemma SameTarget(s: Store, t: Store, now: Time, percent: int)
    requires RowsOk(s, now) && Passes(s, t, now, percent)
    ensures RowsOk(t, now)
    ensures Managed(t, percent) <==> Managed(s, percent)
    ensures percent > 0 ==> Desired(t, percent) == Desired(s, percent)
  {
    var rel, needs, oks :| IsPass(s, t, now, percent, rel, needs, oks);
    PassEffect(s, t, now, percent, rel, needs, oks);
    PassKeepsFleet(s, t, now, percent, rel, needs, oks);
  }

  // ---------- The first two passes ----------

  lemma PassSupply(s: Store, t: Store, now: Time, percent: int)
    requires RowsOk(s, now) && Passes(s, t, now, percent)
    ensures |FreeSpares(t)| + |NeedIds(s, now)| == Supply(s, now, percent) + |NeedIds(t, now)|
    ensures Promotable(t) == Promotable(Resize(s, percent))
  {
    var rel, needs, oks :| IsPass(s, t, now, percent, rel, needs, oks);
    PassBalance(s, t, now, percent, rel, needs, oks);
  }

  lemma WellSupply(s: Store, t: Store, now: Time, percent: int)
    requires RowsOk(s, now) && PassesWell(s, t, now, percent)
    ensures var n, f := |NeedIds(s, now)|, Supply(s, now, percent);
            |NeedIds(t, now)| == n - Min(n, f) && |FreeSpares(t)| == f - Min(n, f)
  {
    var rel, needs, oks :| IsPass(s, t, now, percent, rel, needs, oks) && forall k :: 0 <= k < |oks| ==> oks[k];
    PassMeets(s, t, now, percent, rel, needs, oks);
  }

  /** A pass that promotes is undone by the next one exactly when the supply exceeds the target by
      more than the needs it met: when it released more than it had to give out. */
  lemma PromoteThenDemote(s: Store, t: Store, now: Time, percent: int)
    requires RowsOk(s, now) && Passes(s, t, now, percent) && Promotes(s, percent)
    ensures Demotes(t, percent) <==>
              Supply(s, now, percent) > Desired(s, percent) + (|NeedIds(s, now)| - |NeedIds(t, now)|)
  {
    PromotesIff(s, percent);
    DemotesIff(t, percent);
    SameTarget(s, t, now, percent);
    PassSupply(s, t, now, percent);
  }

  /** The same on the tables before the pass, when every playbook succeeds. */
  lemma WellPromoteThenDemote(s: Store, t: Store, now: Time, percent: int)
    requires RowsOk(s, now) && PassesWell(s, t, now, percent) && Promotes(s, percent)
    ensures Demotes(t, percent) <==> Supply(s, now, percent) > Desired(s, percent) + |NeedIds(s, now)|
  {
    WellIsPass(s, t, now, percent);
    PromoteThenDemote(s, t, now, percent);
    WellSupply(s, t, now, percent);
  }

  /** A pass that meets so many needs that it ends below the target, with a machine left to promote. */
  ghost predicate Dips(s: Store, t: Store, now: Time, percent: int) {
    && Managed(s, percent)
    && Supply(s, now, percent) + |NeedIds(t, now)| < Desired(s, percent) + |NeedIds(s, now)|
    && Promotable(Resize(s, percent)) != {}
  }

  /** The pass after any other one promotes exactly when that one dipped. */
  lemma PromotesAfter(s: Store, t: Store, now: Time, percent: int)
    requires RowsOk(s, now) && Passes(s, t, now, percent)
    ensures Promotes(t, percent) <==> Dips(s, t, now, percent)
  {
    PromotesIff(t, percent);
    SameTarget(s, t, now, percent);
    PassSupply(s, t, now, percent);
  }

  /** The other direction: a pass that demotes is undone by the next one exactly when the needs
      then take more spares than it should have left over, and a machine can be promoted. */
  lemma WellDemoteThenPromote(s: Store, t: Store, now: Time, percent: int)
    requires RowsOk(s, now) && PassesWell(s, t, now, percent) && Demotes(s, percent)
    ensures Promotes(t, percent) <==>
              && 0 < Desired(s, percent) && Supply(s, now, percent) < Desired(s, percent) + |NeedIds(s, now)|
              && Promotable(Resize(s, percent)) != {}
  {
    WellIsPass(s, t, now, percent);
    DemotesIff(s, percent);
    PromotesIff(t, percent);
    SameTarget(s, t, now, percent);
    PassSupply(s, t, now, percent);
    WellSupply(s, t, now, percent);
  }

  // ---------- Later passes ----------

  /** After one pass nothing is releasable any more, and it stays so. */
  lemma {:induction false} TraceSettles(tr: seq<Store>, now: Time, percent: int, n: nat)
    requires IsTrace(tr, now, percent) && RowsOk(tr[0], now) && NoOrphans(tr[0], now) && n < |tr|
    ensures RowsOk(tr[n], now) && NoOrphans(tr[n], now)
    ensures n > 0 ==> Releasable(tr[n], now) == {}
    decreases n
  {
    if n > 0 {
      TraceSettles(tr, now, percent, n - 1);
      assert Passes(tr[n - 1], tr[n - 1 + 1], now, percent);
      PassSettles(tr[n - 1], tr[n], now, percent);
    }
  }

  lemma PassSettles(s: Store, t: Store, now: Time, percent: int)
    requires RowsOk(s, now) && NoOrphans(s, now) && Passes(s, t, now, percent)
    ensures RowsOk(t, now) && NoOrphans(t, now) && Releasable(t, now) == {}
  {
    var rel, needs, oks :| IsPass(s, t, now, percent, rel, needs, oks);
    PassEffect(s, t, now, percent, rel, needs, oks);
    PassSettlesReplacements(s, t, now, percent, rel, needs, oks, "");
  }

  /** From the second pass on, whatever playbooks fail: no pass demotes after one that promoted. */
  lemma NoOscillation(tr: seq<Store>, now: Time, percent: int, i: nat, j: nat)
    requires IsTrace(tr, now, percent) && RowsOk(tr[0], now) && NoOrphans(tr[0], now)
    requires 1 <= i <= j < |tr| && Promotes(tr[i], percent)
    ensures !Demotes(tr[j], percent)
  {
    PromotesIff(tr[i], percent);
    forall k | i <= k < j ensures Releasable(tr[k], now) == {} {
      TraceSettles(tr, now, percent, k);
    }
    StaysBelowTarget(tr, now, percent, i, j);
  }

  /** Once a pass leaves the pool at or below its target, no later pass demotes. */
  lemma {:induction false} StaysNotAbove(tr: seq<Store>, now: Time, percent: int, i: nat, j: nat)
    requires IsTrace(tr, now, percent) && RowsOk(tr[0], now) && NoOrphans(tr[0], now)
    requires 1 <= i <= j < |tr| && !Above(tr[i], percent)
    ensures !Above(tr[j], percent)
    decreases j
  {
    if i < j {
      StaysNotAbove(tr, now, percent, i, j - 1);
      TraceSettles(tr, now, percent, j - 1);
      assert Passes(tr[j - 1], tr[j - 1 + 1], now, percent);
      SameTarget(tr[j - 1], tr[j], now, percent);
      if Managed(tr[j - 1], percent) {
        PassKeepsBelowTarget(tr[j - 1], tr[j], now, percent);
      }
    }
  }

  /** The exact condition over whole traces, whatever playbooks fail: some pass demotes after
      another one promoted if and only if the first pass promotes and brings back more spares
      than the target and the needs it met account for. */
  lemma OscillatesIff(tr: seq<Store>, now: Time, percent: int)
    requires IsTrace(tr, now, percent) && RowsOk(tr[0], now) && NoOrphans(tr[0], now) && |tr| > 1
    ensures (exists i, j :: 0 <= i < j < |tr| && Promotes(tr[i], percent) && Demotes(tr[j], percent)) <==>
              && Promotes(tr[0], percent)
              && Supply(tr[0], now, percent) > Desired(tr[0], percent) + (|NeedIds(tr[0], now)| - |NeedIds(tr[1], now)|)
  {
    assert Passes(tr[0], tr[0 + 1], now, percent);
    if i, j :| 0 <= i < j < |tr| && Promotes(tr[i], percent) && Demotes(tr[j], percent) {
      if i > 0 {
        NoOscillation(tr, now, percent, i, j);
      }
      DemotesIff(tr[j], percent);
      if !Above(tr[1], percent) {
        StaysNotAbove(tr, now, percent, 1, j);
      }
      DemotesIff(tr[1], percent);
    }
    if Promotes(tr[0], percent) {
      PromoteThenDemote(tr[0], tr[1], now, percent);
    }
  }

  // ---------- Later passes in which no playbook fails ----------

  ghost predicate IsWellTrace(tr: seq<Store>, now: Time, percent: int) {
    |tr| > 0 && forall i :: 0 <= i < |tr| - 1 ==> PassesWell(tr[i], tr[i + 1], now, percent)
  }

  lemma WellTraceIsTrace(tr: seq<Store>, now: Time, percent: int)
    requires IsWellTrace(tr, now, percent)
    ensures IsTrace(tr, now, percent)
  {
    forall i | 0 <= i < |tr| - 1 ensures Passes(tr[i], tr[i + 1], now, percent) {
      WellIsPass(tr[i], tr[i + 1], now, percent);
    }
  }

  /** Nothing will lower the pool below its target, or nothing is left to raise it with. */
  ghost predicate Steady(s: Store, now: Time, percent: int) {
    Managed(s, percent) ==>
      || (|FreeSpares(s)| >= Desired(s, percent) && (NeedIds(s, now) == {} || Desired(s, percent) == 0))
      || (|FreeSpares(s)| < Desired(s, percent) && Promotable(s) == {})
  }

  lemma SteadyStays(s: Store, t: Store, now: Time, percent: int)
    requires RowsOk(s, now) && Releasable(s, now) == {} && PassesWell(s, t, now, percent) && Steady(s, now, percent)
    ensures Steady(t, now, percent)
  {
    WellIsPass(s, t, now, percent);
    SameTarget(s, t, now, percent);
    PassSupply(s, t, now, percent);
    WellSupply(s, t, now, percent);
    assert MachinesOf(s, {}) == {} && Returning(s, now) == {};
    if Above(s, percent) {
      DemotionBound(s, percent);
    } else if Below(s, percent) {
      PromotionBound(s, percent);
      EmptyPromotion(s);
      assert Managed(s, percent) ==> Promotions(s, percent) == {};
    }
  }

  lemma SteadyNeverPromotes(s: Store, now: Time, percent: int)
    requires Steady(s, now, percent)
    ensures !Promotes(s, percent)
  {
    PromotesIff(s, percent);
  }

  /** No playbook fails in the passes from tr[i] to tr[j]. */
  ghost predicate WellBetween(tr: seq<Store>, now: Time, percent: int, i: nat, j: nat) {
    forall k, l :: i <= k && l == k + 1 && l <= j && l < |tr| ==> PassesWell(tr[k], tr[l], now, percent)
  }

  lemma WellPart(tr: seq<Store>, now: Time, percent: int)
    requires IsWellTrace(tr, now, percent)
    ensures forall a, b :: 0 <= a <= b < |tr| ==> WellBetween(tr, now, percent, a, b)
  {
    forall k, l | 0 <= k && l == k + 1 && l < |tr| ensures PassesWell(tr[k], tr[l], now, percent) {
      assert PassesWell(tr[k], tr[k + 1], now, percent);
    }
  }

  lemma {:induction false} SteadyTrace(tr: seq<Store>, now: Time, percent: int, i: nat, j: nat)
    requires IsTrace(tr, now, percent) && RowsOk(tr[0], now) && NoOrphans(tr[0], now)
    requires 1 <= i <= j < |tr| && WellBetween(tr, now, percent, i, j) && Steady(tr[i], now, percent)
    ensures Steady(tr[j], now, percent)
    decreases j
  {
    if i < j {
      SteadyTrace(tr, now, percent, i, j - 1);
      TraceSettles(tr, now, percent, j - 1);
      assert PassesWell(tr[j - 1], tr[j], now, percent);
      SteadyStays(tr[j - 1], tr[j], now, percent);
    }
  }

  /** A pass in which no playbook fails leaves no need, or no free spare. */
  lemma SteadyUnlessPromoting(s: Store, t: Store, now: Time, percent: int)
    requires RowsOk(s, now) && PassesWell(s, t, now, percent) && !Promotes(t, percent)
    ensures Steady(t, now, percent)
  {
    WellSupply(s, t, now, percent);
    PromotesIff(t, percent);
  }

  /** From the second pass on: no pass promotes after one that did not have to, in particular
      none after one that demoted, as long as no playbook fails in the pass before that one and
      in those up to the other. */
  lemma NoRebound(tr: seq<Store>, now: Time, percent: int, i: nat, j: nat)
    requires IsTrace(tr, now, percent) && RowsOk(tr[0], now) && NoOrphans(tr[0], now)
    requires 1 <= i <= j < |tr| && WellBetween(tr, now, percent, i - 1, j) && !Promotes(tr[i], percent)
    ensures !Promotes(tr[j], percent)
  {
    TraceSettles(tr, now, percent, i - 1);
    assert PassesWell(tr[i - 1], tr[i], now, percent);
    SteadyUnlessPromoting(tr[i - 1], tr[i], now, percent);
    SteadyTrace(tr, now, percent, i, j);
    SteadyNeverPromotes(tr[j], now, percent);
  }

  /** The exact condition in the other direction, over any trace, whatever playbooks fail and
      orphans or not: some pass promotes after another one demoted if and only if that one or a
      later pass dips. */
  lemma ReboundsIff(tr: seq<Store>, now: Time, percent: int)
    requires IsTrace(tr, now, percent) && RowsOk(tr[0], now)
    ensures (exists i, j :: 0 <= i < j < |tr| && Demotes(tr[i], percent) && Promotes(tr[j], percent)) <==>
            (exists i, k, l :: 0 <= i <= k && l == k + 1 && l < |tr| && Demotes(tr[i], percent) && Dips(tr[k], tr[l], now, percent))
  {
    forall k, l | 0 <= k && l == k + 1 && l < |tr| ensures Promotes(tr[l], percent) <==> Dips(tr[k], tr[l], now, percent) {
      TraceKeepsRows(tr, now, percent, k);
      assert Passes(tr[k], tr[k + 1], now, percent);
      PromotesAfter(tr[k], tr[l], now, percent);
    }
    if i, j :| 0 <= i < j < |tr| && Demotes(tr[i], percent) && Promotes(tr[j], percent) {
      var k := j - 1;
      assert 0 <= i <= k && j == k + 1 && Dips(tr[k], tr[j], now, percent);
    }
  }

  /** When no playbook fails: some pass promotes after another one demoted if and only if the
      first pass demotes and its needs then take the pool below the target. */
  lemma WellReboundsIff(tr: seq<Store>, now: Time, percent: int)
    requires IsWellTrace(tr, now, percent) && RowsOk(tr[0], now) && NoOrphans(tr[0], now) && |tr| > 1
    ensures (exists i, j :: 0 <= i < j < |tr| && Demotes(tr[i], percent) && Promotes(tr[j], percent)) <==>
              && Demotes(tr[0], percent)
              && 0 < Desired(tr[0], percent)
              && Supply(tr[0], now, percent) < Desired(tr[0], percent) + |NeedIds(tr[0], now)|
              && Promotable(Resize(tr[0], percent)) != {}
  {
    WellTraceIsTrace(tr, now, percent);
    assert PassesWell(tr[0], tr[0 + 1], now, percent);
    if i, j :| 0 <= i < j < |tr| && Demotes(tr[i], percent) && Promotes(tr[j], percent) {
      DemotesIff(tr[i], percent);
      PromotesIff(tr[i], percent);
      WellPart(tr, now, percent);
      if i > 0 {
        NoRebound(tr, now, percent, i, j);
      } else if !Promotes(tr[1], percent) {
        NoRebound(tr, now, percent, 1, j);
      }
    }
    if Demotes(tr[0], percent) {
      WellDemoteThenPromote(tr[0], tr[1], now, percent);
    }
  }

  /** And for the first direction: the condition on the tables before the first pass. */
  lemma WellOscillatesIff(tr: seq<Store>, now: Time, percent: int)
    requires IsWellTrace(tr, now, percent) && RowsOk(tr[0], now) && NoOrphans(tr[0], now) && |tr| > 1
    ensures (exists i, j :: 0 <= i < j < |tr| && Promotes(tr[i], percent) && Demotes(tr[j], percent)) <==>
              && Promotes(tr[0], percent)
              && Supply(tr[0], now, percent) > Desired(tr[0], percent) + |NeedIds(tr[0], now)|
  {
    WellTraceIsTrace(tr, now, percent);
    OscillatesIff(tr, now, percent);
    assert PassesWell(tr[0], tr[0 + 1], now, percent);
    if Promotes(tr[0], percent) {
      PromoteThenDemote(tr[0], tr[1], now, percent);
      WellPromoteThenDemote(tr[0], tr[1], now, percent);
    }
  }

  /** In numbers: both conditions only ask for counts of machines and rows before the first pass. */
  lemma WellOscillatesInNumbers(tr: seq<Store>, now: Time, percent: int)
    requires IsWellTrace(tr, now, percent) && RowsOk(tr[0], now) && NoOrphans(tr[0], now) && |tr| > 1
    ensures var s := tr[0];
            (exists i, j :: 0 <= i < j < |tr| && Promotes(tr[i], percent) && Demotes(tr[j], percent)) <==>
              && Managed(s, percent) && |FreeSpares(s)| < Desired(s, percent) && Promotable(s) != {}
              && Min(Desired(s, percent), |FreeSpares(s)| + |Promotable(s)|) + |Returning(s, now)|
                 > Desired(s, percent) + |NeedIds(s, now)|
  {
    WellOscillatesIff(tr, now, percent);
    InNumbers(tr[0], now, percent);
  }

  lemma InNumbers(s: Store, now: Time, percent: int)
    ensures Promotes(s, percent) && Supply(s, now, percent) > Desired(s, percent) + |NeedIds(s, now)| <==>
              && Managed(s, percent) && |FreeSpares(s)| < Desired(s, percent) && Promotable(s) != {}
              && Min(Desired(s, percent), |FreeSpares(s)| + |Promotable(s)|) + |Returning(s, now)|
                 > Desired(s, percent) + |NeedIds(s, now)|
  {
    PromotesIff(s, percent);
    SupplyInNumbers(s, now, percent);
  }

  // ---------- Both do happen ----------

  const PRIMARY := Row(1, 0, "alice", Some(600), Some("h"), None)
  const BOOKED := Held(Fresh("m"), "alice", Some(600))

  /** Alice's machine 1 is back, spare 2 still replaces it, and machine 3 is free. */
  function Recovered(): Store {
    Store(map["alice" := 0], map[1 := BOOKED, 2 := BOOKED.(sparePool := true), 3 := Fresh("m")],
          map[0 := PRIMARY, 1 := PRIMARY.(machineId := 2, replacementFor := Some(1))], 2)
  }

  lemma RecoveredOk()
    ensures RowsOk(Recovered(), 0) && NoOrphans(Recovered(), 0)
    ensures Releasable(Recovered(), 0) == {1} && NeedIds(Recovered(), 0) == {}
  {
    var s := Recovered();
    assert LivePrimary(s, 0, 1, 0);
    assert s.rows[0].machineId == 1 && HasActiveRow(s, 0, 1, "alice");
  }

  lemma RecoveredSets()
    ensures OnlineIds(Recovered()) == {1, 2, 3} && FreeSpares(Recovered()) == {} && Promotable(Recovered()) == {3}
    ensures Releasable(Recovered(), 0) == {1} ==> Returning(Recovered(), 0) == {2}
  {
    if Releasable(Recovered(), 0) == {1} {
      assert 1 in {1} && 1 in Recovered().rows;
      assert MachinesOf(Recovered(), {1}) == {2};
    }
  }

  lemma RecoveredResized()
    ensures |FreeSpares(Resize(Recovered(), 34))| == 1
    ensures Below(Recovered(), 34) && Desired(Recovered(), 34) == 1
  {
    RecoveredSets();
    assert |{1, 2, 3}| == 3 && |{3}| == 1;
    PromotionBound(Recovered(), 34);
  }

  /** With a third of the fleet as spares the first pass promotes machine 3, releases spare 2,
      and the second pass demotes one of them again. */
  lemma PromotionIsUndone() returns (tr: seq<Store>)
    ensures IsWellTrace(tr, 0, 34) && |tr| == 2 && tr[0] == Recovered()
    ensures RowsOk(tr[0], 0) && NoOrphans(tr[0], 0)
    ensures Promotes(tr[0], 34) && Demotes(tr[1], 34)
  {
    var s := Recovered();
    var t := SomePass(s, 0, 34);
    tr := [s, t];
    RecoveredOk();
    RecoveredSets();
    RecoveredResized();
    PromotesIff(s, 34);
    WellPromoteThenDemote(s, t, 0, 34);
  }

  /** Alice's machine 1 is down, and two spares are free. */
  function Waiting(): Store {
    Store(map["alice" := 0],
          map[1 := BOOKED.(enabled := false), 2 := Fresh("m").(sparePool := true), 3 := Fresh("m").(sparePool := true)],
          map[0 := PRIMARY], 1)
  }

  lemma WaitingOk()
    ensures RowsOk(Waiting(), 0) && NoOrphans(Waiting(), 0)
    ensures Releasable(Waiting(), 0) == {} && NeedIds(Waiting(), 0) == {0}
  {
  }

  lemma WaitingSets()
    ensures OnlineIds(Waiting()) == {2, 3} && FreeSpares(Waiting()) == {2, 3} && IdleSpares(Waiting()) == {2, 3}
  {
  }

  lemma WaitingResized()
    ensures |FreeSpares(Resize(Waiting(), 50))| == 1 && Promotable(Resize(Waiting(), 50)) != {}
    ensures Above(Waiting(), 50) && Desired(Waiting(), 50) == 1
  {
    var s := Waiting();
    WaitingSets();
    assert |{2, 3}| == 2;
    DemotionBound(s, 50);
    var i :| i in Demotions(s, 50);
    assert i in FreeSpares(s);
    assert i in Promotable(Demote(s, Demotions(s, 50)));
  }

  /** With half of the fleet as spares the first pass demotes one of them, gives Alice the other,
      and the second pass promotes again. */
  lemma DemotionIsUndone() returns (tr: seq<Store>)
    ensures IsWellTrace(tr, 0, 50) && |tr| == 2 && tr[0] == Waiting()
    ensures RowsOk(tr[0], 0) && NoOrphans(tr[0], 0)
    ensures Demotes(tr[0], 50) && Promotes(tr[1], 50)
  {
    var s := Waiting();
    var t := SomePass(s, 0, 50);
    tr := [s, t];
    WaitingOk();
    WaitingResized();
    DemotesIff(s, 50);
    assert MachinesOf(s, {}) == {} && Returning(s, 0) == {};
    WellDemoteThenPromote(s, t, 0, 50);
  }

  // ---------- A demotion undone later, after a playbook that failed ----------

  const BOBS := Row(2, 1, "bob", Some(600), Some("h"), None)
  const BOBBED := Held(Fresh("m"), "bob", Some(600))

  /** Alice's machine 1 is down; Bob's machine 2 is back, and spare 3 still replaces it; spare 4 is free. */
  function TwoUsers(): Store {
    Store(map["alice" := 0, "bob" := 1],
          map[1 := BOOKED.(enabled := false), 2 := BOBBED, 3 := BOBBED.(sparePool := true), 4 := Fresh("m").(sparePool := true)],
          map[0 := PRIMARY, 1 := BOBS, 2 := BOBS.(machineId := 3, replacementFor := Some(2))], 3)
  }

  lemma TwoUsersRows()
    ensures RowsOk(TwoUsers(), 0)
  {
    var s := TwoUsers();
    assert s.rows.Keys == {0, 1, 2};
    assert RowFormed(s, 0) && RowFormed(s, 1) && RowFormed(s, 2);
    assert RowHeld(s, 0) && RowHeld(s, 1) && RowHeld(s, 2);
  }

  lemma TwoUsersLive()
    ensures NoOrphans(TwoUsers(), 0)
  {
    assert LivePrimary(TwoUsers(), 0, 2, 1);
  }

  lemma TwoUsersQueries()
    ensures Releasable(TwoUsers(), 0) == {2} && NeedIds(TwoUsers(), 0) == {0}
  {
    var s := TwoUsers();
    assert s.rows[1].machineId == 2 && HasActiveRow(s, 0, 2, "bob");
  }

  lemma TwoUsersOk()
    ensures RowsOk(TwoUsers(), 0) && NoOrphans(TwoUsers(), 0)
    ensures Releasable(TwoUsers(), 0) == {2} && NeedIds(TwoUsers(), 0) == {0}
    ensures !Demotes(TwoUsers(), 34)
  {
    TwoUsersRows();
    TwoUsersLive();
    TwoUsersQueries();
    TwoUsersSets();
    DemotesIff(TwoUsers(), 34);
  }

  lemma TwoUsersSets()
    ensures OnlineIds(TwoUsers()) == {2, 3, 4} && FreeSpares(TwoUsers()) == {4} && IdleSpares(TwoUsers()) == {4}
    ensures Managed(TwoUsers(), 34) && Desired(TwoUsers(), 34) == 1 && Resize(TwoUsers(), 34) == TwoUsers()
  {
    assert |{2, 3, 4}| == 3 && |{4}| == 1;
  }

  /** A pass in which every playbook fails only resizes and releases. */
  lemma FailedPass(s: Store, now: Time, percent: int) returns (t: Store, rel: seq<nat>, needs: seq<nat>, oks: seq<bool>)
    ensures IsPass(s, t, now, percent, rel, needs, oks) && t == Released(s, now, percent, rel)
  {
    rel := SomeOrder(Releasable(Resize(s, percent), now));
    t := Released(s, now, percent, rel);
    needs := SomeOrder(NeedIds(t, now));
    oks := seq(|needs|, k => false);
    NothingProvisioned(t, now, NeedsOf(t, needs), oks);
  }

  lemma {:induction false} NothingProvisioned(s: Store, now: Time, needs: seq<Need>, oks: seq<bool>)
    requires |needs| == |oks| && forall k :: 0 <= k < |oks| ==> !oks[k]
    ensures AllocateAll(s, now, needs, oks) == s
    decreases |needs|
  {
    if needs != [] {
      NothingProvisioned(s, now, needs[1..], oks[1..]);
    }
  }

  /** After the failed pass spares 3 and 4 are free and Alice still waits. */
  lemma AfterFailedPass() returns (t: Store)
    ensures Passes(TwoUsers(), t, 0, 34) && RowsOk(t, 0)
    ensures Releasable(t, 0) == {} && NeedIds(t, 0) == {0}
    ensures FreeSpares(t) == {3, 4} == IdleSpares(t)
    ensures Managed(t, 34) && Desired(t, 34) == 1
  {
    var s := TwoUsers();
    TwoUsersOk();
    TwoUsersSets();
    var rel, needs, oks;
    t, rel, needs, oks := FailedPass(s, 0, 34);
    PassEffect(s, t, 0, 34, rel, needs, oks);
    SameTarget(s, t, 0, 34);
    PassSettles(s, t, 0, 34);
    ReleasedThree(t);
  }

  lemma ReleasedThree(t: Store)
    requires OnlyReleased(TwoUsers(), t, {2})
    ensures FreeSpares(t) == {3, 4} == IdleSpares(t)
  {
    assert 2 in {2} && MachinesOf(TwoUsers(), {2}) == {3};
  }

  lemma DippingDemotion(s: Store)
    requires FreeSpares(s) == {3, 4} == IdleSpares(s) && Managed(s, 34) && Desired(s, 34) == 1
    requires Releasable(s, 0) == {} && NeedIds(s, 0) == {0}
    ensures Demotes(s, 34) && Supply(s, 0, 34) == 1 && Promotable(Resize(s, 34)) != {}
  {
    assert |{3, 4}| == 2;
    DemotesIff(s, 34);
    DemotionBound(s, 34);
    assert MachinesOf(s, {}) == {} && Returning(s, 0) == {};
    var i :| i in Demotions(s, 34);
    assert i in FreeSpares(s);
    assert i in Promotable(Demote(s, Demotions(s, 34)));
  }

  /** So a demotion can be undone after the second pass, when a playbook failed in the first: it
      left two spares free and Alice waiting; the second pass demotes one of them and gives Alice
      the other; the third one promotes. The first pass did not demote. */
  lemma LateRebound() returns (tr: seq<Store>)
    ensures IsTrace(tr, 0, 34) && |tr| == 3 && tr[0] == TwoUsers()
    ensures RowsOk(tr[0], 0) && NoOrphans(tr[0], 0)
    ensures !Demotes(tr[0], 34) && Demotes(tr[1], 34) && Promotes(tr[2], 34)
  {
    var b := AfterFailedPass();
    var c := SomePass(b, 0, 34);
    DippingPass(b, c);
    tr := ThreeTables(TwoUsers(), b, c);
    TwoUsersOk();
  }

  lemma ThreeTables(a: Store, b: Store, c: Store) returns (tr: seq<Store>)
    requires Passes(a, b, 0, 34) && Passes(b, c, 0, 34)
    ensures IsTrace(tr, 0, 34) && |tr| == 3 && tr[0] == a && tr[1] == b && tr[2] == c
  {
    tr := [a, b, c];
  }

  lemma DippingPass(b: Store, c: Store)
    requires RowsOk(b, 0) && PassesWell(b, c, 0, 34)
    requires FreeSpares(b) == {3, 4} == IdleSpares(b) && Managed(b, 34) && Desired(b, 34) == 1
    requires Releasable(b, 0) == {} && NeedIds(b, 0) == {0}
    ensures Demotes(b, 34) && Promotes(c, 34) && Passes(b, c, 0, 34)
  {
    WellIsPass(b, c, 0, 34);
    DippingDemotion(b);
    WellDemoteThenPromote(b, c, 0, 34);
  }
}
