/** What a reconcile pass does to each row and each machine, in the columns of the tables. */
module PassColumns {
  import opened Wrappers
  import opened Tables
  import opened Selection
  import opened Ownership
  import opened Replacement
  import opened Reconcile
  import opened Convergence

  // ---------- Rows ----------

  /** What a pass does to the rows that were there: it removes exactly the active replacements of a
      machine that is enabled while their user still has an active row on it. An active
      replacement whose primary row is gone, or has run out, stays. */
  lemma PassRowsInColumns(s: Store, t: Store, now: Time, percent: int, rel: seq<nat>, needs: seq<nat>, oks: seq<bool>, r: nat)
    requires RowsOk(s, now) && IsPass(s, t, now, percent, rel, needs, oks) && r in s.rows
    ensures var row := s.rows[r];
            r !in t.rows <==>
              && (row.until.None? || row.until.value > now)
              && row.replacementFor.Some? && row.replacementFor.value in s.machines
              && s.machines[row.replacementFor.value].enabled
              && exists p :: p in s.rows && s.rows[p].machineId == row.replacementFor.value
                             && s.rows[p].username == row.username
                             && (s.rows[p].until.None? || s.rows[p].until.value > now)
    ensures r in t.rows ==> t.rows[r] == s.rows[r]
  {
    PassEffect(s, t, now, percent, rel, needs, oks);
    ResizeFlags(s, percent);
    InsertRowsBound(s, now);
    ReleasableInColumns(s, now, r);
  }

  /** The rows a pass adds: each copies the user, expiry and hash of an active primary row on a
      disabled machine, for which there was no active replacement, and holds a spare that is up. */
  lemma PassNewRowsInColumns(s: Store, t: Store, now: Time, percent: int, rel: seq<nat>, needs: seq<nat>, oks: seq<bool>, r: nat)
      returns (p: nat)
    requires RowsOk(s, now) && IsPass(s, t, now, percent, rel, needs, oks) && r in t.rows && r !in s.rows
    ensures p in s.rows && s.rows[p].replacementFor.None? && (s.rows[p].until.None? || s.rows[p].until.value > now)
    ensures s.rows[p].machineId in s.machines && !s.machines[s.rows[p].machineId].enabled
    ensures forall q :: q in s.rows && s.rows[q].replacementFor == Some(s.rows[p].machineId)
                        && s.rows[q].username == s.rows[p].username ==>
              s.rows[q].until.Some? && s.rows[q].until.value <= now
    ensures s.rows[p].username in s.users
    ensures t.rows[r] == Row(t.rows[r].machineId, s.users[s.rows[p].username], s.rows[p].username, s.rows[p].until,
                             s.rows[p].hash, Some(s.rows[p].machineId))
    ensures t.rows[r].machineId in t.machines
    ensures var m := t.machines[t.rows[r].machineId];
            && m.enabled && m.online && m.sparePool && m.reserved
            && m.reservedBy == Some(s.rows[p].username) && m.reservedUntil == s.rows[p].until
  {
    var u := Released(s, now, percent, rel);
    PassEffect(s, t, now, percent, rel, needs, oks);
    ResizeFlags(s, percent);
    assert FromNeed(u, NeedsOf(u, needs), t.rows[r]);
    var k :| 0 <= k < |NeedsOf(u, needs)| && NeedsOf(u, needs)[k].user in u.users && t.rows[r].machineId in FreeSpares(u)
             && t.rows[r] == ReplacementRow(u, NeedsOf(u, needs)[k], t.rows[r].machineId);
    p := needs[k];
    assert p in NeedIds(u, now) && p in NeedIds(s, now) && u.rows[p] == s.rows[p];
    NeedInColumns(s, now, p);
    assert RowFormed(t, r) && RowHeld(t, r) && RowPooled(t, r);
  }

  // ---------- The spare pool ----------

  /** Free spares and the machines up, which the target is computed from. */
  lemma PoolInColumns(s: Store)
    ensures OnlineIds(s) == set i | i in s.machines && s.machines[i].enabled && s.machines[i].online
    ensures FreeSpares(s)
            == set i | i in s.machines && s.machines[i].enabled && s.machines[i].online
                       && s.machines[i].sparePool && !s.machines[i].reserved
    ensures Promotable(s)
            == set i | i in s.machines && s.machines[i].enabled && s.machines[i].online
                       && !s.machines[i].sparePool && !s.machines[i].reserved
    ensures IdleSpares(s) == set i | i in s.machines && s.machines[i].sparePool && !s.machines[i].reserved
  {
  }

  /** A disabled pool, an empty fleet, or a pool at its target: nothing changes. */
  lemma NoResizeInColumns(s: Store, percent: int)
    ensures var up := set i | i in s.machines && s.machines[i].enabled && s.machines[i].online;
            var free := set i | i in up && s.machines[i].sparePool && !s.machines[i].reserved;
            percent <= 0 || up == {} || 100 * |free| <= |up| * percent < 100 * (|free| + 1) ==> Resize(s, percent) == s
  {
    PoolInColumns(s);
    var up := set i | i in s.machines && s.machines[i].enabled && s.machines[i].online;
    var free := set i | i in up && s.machines[i].sparePool && !s.machines[i].reserved;
    assert free == FreeSpares(s);
    if percent > 0 {
      TargetRoundsDown(s, percent);
    }
  }

  /** Below its target the pool takes as many free ordinary machines as are missing, or all there are. */
  lemma PromotionInColumns(s: Store, percent: int) returns (d: nat, ids: set<nat>)
    requires percent > 0
    requires var up := set i | i in s.machines && s.machines[i].enabled && s.machines[i].online;
             var free := set i | i in up && s.machines[i].sparePool && !s.machines[i].reserved;
             up != {} && 100 * (|free| + 1) <= |up| * percent
    ensures var up := set i | i in s.machines && s.machines[i].enabled && s.machines[i].online;
            var free := set i | i in up && s.machines[i].sparePool && !s.machines[i].reserved;
            var more := set i | i in up && !s.machines[i].sparePool && !s.machines[i].reserved;
            && 100 * d <= |up| * percent < 100 * (d + 1)
            && |ids| == if |free| + |more| < d then |more| else d - |free|
    ensures LeastFailing(s, ids)
    ensures Resize(s, percent) == s.(machines := Resize(s, percent).machines)
    ensures Resize(s, percent).machines
            == map i | i in s.machines :: if i in ids then s.machines[i].(sparePool := true) else s.machines[i]
  {
    d, ids := Desired(s, percent), Take(s, Promotable(s), PromotionLimit(s, percent), false);
    CountsInColumns(s);
    PromotionChoice(s, PromotionLimit(s, percent));
    PromotedInColumns(s, ids);
    assert Resize(s, percent) == Promote(s, ids);
  }

  function PromotionLimit(s: Store, percent: int): nat
    requires percent > 0
  {
    if |FreeSpares(s)| < Desired(s, percent) then Desired(s, percent) - |FreeSpares(s)| else 0
  }

  /** Free ordinary machines that are up; any other such machine has failed more often, or as
      often and has a larger id. */
  ghost predicate LeastFailing(s: Store, ids: set<nat>) {
    && (forall a :: a in ids ==>
          && a in s.machines && s.machines[a].enabled && s.machines[a].online
          && !s.machines[a].sparePool && !s.machines[a].reserved)
    && forall a, b :: a in ids && b in s.machines && b !in ids && s.machines[b].enabled && s.machines[b].online
                      && !s.machines[b].sparePool && !s.machines[b].reserved ==>
         || s.machines[a].failCount < s.machines[b].failCount
         || (s.machines[a].failCount == s.machines[b].failCount && a < b)
  }

  lemma PromotionChoice(s: Store, limit: nat)
    ensures var ids := Take(s, Promotable(s), limit, false);
            LeastFailing(s, ids) && ids <= Promotable(s)
            && |ids| == if limit < |Promotable(s)| then limit else |Promotable(s)|
  {
    var ids := Take(s, Promotable(s), limit, false);
    TakeIsTake(s, Promotable(s), limit, false);
    forall a, b | a in ids && b in s.machines && b !in ids && s.machines[b].enabled && s.machines[b].online
                  && !s.machines[b].sparePool && !s.machines[b].reserved
      ensures s.machines[a].failCount < s.machines[b].failCount || (s.machines[a].failCount == s.machines[b].failCount && a < b)
    {
      assert b in Promotable(s) && Before(s, a, b, false);
    }
  }

  lemma PromotedInColumns(s: Store, ids: set<nat>)
    requires ids <= Promotable(s)
    ensures Promote(s, ids).machines
            == map i | i in s.machines :: if i in ids then s.machines[i].(sparePool := true) else s.machines[i]
  {
  }

  /** The sets counted by the queries. */
  lemma CountsInColumns(s: Store)
    ensures var up := set i | i in s.machines && s.machines[i].enabled && s.machines[i].online;
            && up == OnlineIds(s) && (up != {} <==> |up| > 0)
            && FreeSpares(s) == (set i | i in up && s.machines[i].sparePool && !s.machines[i].reserved)
            && Promotable(s) == (set i | i in up && !s.machines[i].sparePool && !s.machines[i].reserved)
  {
    PoolInColumns(s);
  }

  /** Above it the pool gives up exactly the excess, of the spares that are not reserved, up or not. */
  lemma DemotionInColumns(s: Store, percent: int) returns (d: nat, ids: set<nat>)
    requires percent > 0
    requires var up := set i | i in s.machines && s.machines[i].enabled && s.machines[i].online;
             var free := set i | i in up && s.machines[i].sparePool && !s.machines[i].reserved;
             up != {} && |up| * percent < 100 * |free|
    ensures var up := set i | i in s.machines && s.machines[i].enabled && s.machines[i].online;
            var free := set i | i in up && s.machines[i].sparePool && !s.machines[i].reserved;
            100 * d <= |up| * percent < 100 * (d + 1) && |ids| == |free| - d
    ensures MostFailing(s, ids)
    ensures Resize(s, percent) == s.(machines := Resize(s, percent).machines)
    ensures Resize(s, percent).machines
            == map i | i in s.machines :: if i in ids then s.machines[i].(sparePool := false) else s.machines[i]
  {
    CountsInColumns(s);
    FreeSparesAreIdle(s);
    d, ids := Desired(s, percent), Demotions(s, percent);
    DemotionChoice(s, |FreeSpares(s)| - d);
    DemotedInColumns(s, ids);
    assert Resize(s, percent) == Demote(s, ids);
  }

  /** Spares that are not reserved; any other such spare has failed less often, or as often and
      has a smaller id. */
  ghost predicate MostFailing(s: Store, ids: set<nat>) {
    && (forall a :: a in ids ==> a in s.machines && s.machines[a].sparePool && !s.machines[a].reserved)
    && forall a, b :: a in ids && b in s.machines && b !in ids && s.machines[b].sparePool && !s.machines[b].reserved ==>
         || s.machines[a].failCount > s.machines[b].failCount
         || (s.machines[a].failCount == s.machines[b].failCount && a > b)
  }

  lemma DemotionChoice(s: Store, limit: nat)
    requires limit <= |IdleSpares(s)|
    ensures var ids := Take(s, IdleSpares(s), limit, true);
            MostFailing(s, ids) && ids <= IdleSpares(s) && |ids| == limit
  {
    var ids := Take(s, IdleSpares(s), limit, true);
    TakeIsTake(s, IdleSpares(s), limit, true);
    forall a, b | a in ids && b in s.machines && b !in ids && s.machines[b].sparePool && !s.machines[b].reserved
      ensures s.machines[a].failCount > s.machines[b].failCount || (s.machines[a].failCount == s.machines[b].failCount && a > b)
    {
      assert b in IdleSpares(s) && Before(s, a, b, true);
    }
  }

  lemma DemotedInColumns(s: Store, ids: set<nat>)
    requires ids <= IdleSpares(s)
    ensures Demote(s, ids).machines
            == map i | i in s.machines :: if i in ids then s.machines[i].(sparePool := false) else s.machines[i]
  {
  }

  // ---------- The spare of an allocation ----------

  /** The spare an allocation picks: a free one that is up, which failed least often, and among
      equals has the smallest id. */
  lemma PickedInColumns(s: Store)
    requires FreeSpares(s) != {}
    ensures var a := PickedSpare(s);
            && a in s.machines && s.machines[a].enabled && s.machines[a].online
            && s.machines[a].sparePool && !s.machines[a].reserved
            && forall b :: b in s.machines && b != a && s.machines[b].enabled && s.machines[b].online
                           && s.machines[b].sparePool && !s.machines[b].reserved ==>
                 || s.machines[a].failCount < s.machines[b].failCount
                 || (s.machines[a].failCount == s.machines[b].failCount && a < b)
  {
    var a := PickedSpare(s);
    assert IsFirst(s, FreeSpares(s), a, false);
    forall b | b in s.machines && b != a && s.machines[b].enabled && s.machines[b].online
               && s.machines[b].sparePool && !s.machines[b].reserved
      ensures s.machines[a].failCount < s.machines[b].failCount || (s.machines[a].failCount == s.machines[b].failCount && a < b)
    {
      assert b in FreeSpares(s) && Before(s, a, b, false);
    }
  }
}
