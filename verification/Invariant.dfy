/** The inductive invariant of the protocol, and the theorem that a step keeps it exactly
    when it is not a stale release.
 */
module Invariant {
  import opened Wrappers
  import opened Tables
  import opened Ownership
  import opened Replacement
  import opened Protocol

  // ---------- The invariant ----------

  /** The machines of an in-flight Create carry its user and expiry, and are ordinary machines. */
  ghost predicate HoldOk(s: Sys, req: nat)
    requires req in s.creates
  {
    var h := s.creates[req];
    && h.user in s.store.users
    && forall i :: i in h.ids ==>
         && i in s.store.machines && !HasRow(s.store, i)
         && s.store.machines[i].reserved
         && s.store.machines[i].reservedBy == Some(h.user)
         && s.store.machines[i].reservedUntil == Some(h.until)
         && !s.store.machines[i].sparePool
  }

  ghost predicate HoldsOk(s: Sys) {
    && (forall req :: req in s.creates ==> HoldOk(s, req))
    && (forall p, q, i :: p in s.creates && q in s.creates && i in s.creates[p].ids && i in s.creates[q].ids ==> p == q)
  }

  ghost predicate HasHold(s: Sys, mid: nat) {
    exists req :: req in s.creates && mid in s.creates[req].ids
  }

  /** Nobody's machine is marked reserved, and an unreserved machine carries no owner's columns. */
  ghost predicate Conserved(s: Sys) {
    forall i :: i in s.store.machines ==>
      if s.store.machines[i].reserved then HasRow(s.store, i) || HasHold(s, i)
      else s.store.machines[i].reservedBy.None? && s.store.machines[i].reservedUntil.None?
  }

  /** A remembered handle still names the machine of its row, if the row is still there. */
  predicate HandleOk(s: Store, h: Handle) {
    h.row < s.nextRow && h.mid in s.machines && (h.row in s.rows ==> s.rows[h.row].machineId == h.mid)
  }

  ghost predicate HandlesOk(s: Sys) {
    && (forall req :: req in s.deletes ==> HandleOk(s.store, s.deletes[req]))
    && (forall h :: h in s.releases ==> HandleOk(s.store, h))
    && forall h :: h in s.expired ==>
         HandleOk(s.store, h) && (h.row in s.store.rows ==> Expired(s.store.rows[h.row], s.now))
  }

  /** While a need is pending its machine stays down, so the only primary row its user can
      have there is the one the need was read from. */
  ghost predicate NeedOk(s: Sys, n: Need) {
    && n.primary in s.store.machines && !s.store.machines[n.primary].enabled
    && n.until.Some? && HasHash(n.hash)
    && !HasHold(s, n.primary)
    && forall id :: id in s.store.rows && s.store.rows[id].machineId == n.primary
                    && s.store.rows[id].username == n.user && s.store.rows[id].replacementFor.None? ==>
         s.store.rows[id].until == n.until && s.store.rows[id].hash == n.hash
  }

  ghost predicate NeedsOk(s: Sys) {
    && (s.phase != Reconciling ==> s.needs == {})
    && forall n :: n in s.needs ==> NeedOk(s, n)
  }

  /** Consecutive charges of a machine are separated by the quarantine each one sets, and
      a machine is only ever held once its quarantine is over. */
  ghost predicate MachineBackoffOk(s: Sys, i: nat)
    requires i in s.store.machines && i in s.charges
  {
    var m := s.store.machines[i];
    var c := s.charges[i];
    && |c| == m.failCount
    && (c == [] ==> m.quarantineUntil.None?)
    && (c != [] ==> c[|c| - 1] <= s.now && m.quarantineUntil == Some(c[|c| - 1] + Window(|c|)))
    && (HasHold(s, i) && c != [] ==> c[|c| - 1] + Window(|c|) <= s.now)
    && forall k :: 0 <= k < |c| - 1 ==> c[k] + Window(k + 1) <= c[k + 1]
  }

  ghost predicate BackoffOk(s: Sys) {
    s.charges.Keys == s.store.machines.Keys && forall i :: i in s.store.machines ==> MachineBackoffOk(s, i)
  }

  ghost predicate Inv(s: Sys) {
    RowsOk(s.store, s.now) && HoldsOk(s) && Conserved(s) && HandlesOk(s) && NeedsOk(s) && BackoffOk(s)
  }

  /** The two unguarded releases are safe when the row is still there or nobody holds the machine. */
  predicate SafeRelease(s: Store, h: Handle) {
    h.row in s.rows || (h.mid in s.machines && !s.machines[h.mid].reserved)
  }

  predicate Safe(s: Sys, e: Step)
  {
    match e
    case ClearDelete(req) => req in s.deletes && SafeRelease(s.store, s.deletes[req])
    case ClearExpired(h) => SafeRelease(s.store, h)
    case _ => true
  }

  // ---------- Initialisation ----------

  lemma InitInv(s: Sys)
    requires Init(s)
    ensures Inv(s)
  {
  }

  // ---------- One lemma for each kind of step ----------

  lemma TickKeepsInv(s: Sys, d: nat)
    requires Inv(s)
    ensures Inv(Apply(s, Tick(d)))
  {
    var t := Apply(s, Tick(d));
    TimeKeepsRows(s.store, s.now, t.now);
    forall q | q in t.creates ensures HoldOk(t, q) {
      assert HoldOk(s, q);
    }
    forall n | n in t.needs ensures NeedOk(t, n) {
      assert NeedOk(s, n);
    }
    forall i | i in t.store.machines ensures MachineBackoffOk(t, i) {
      assert MachineBackoffOk(s, i);
      assert HasHold(t, i) ==> HasHold(s, i);
    }
  }

  // ---------- What a change may leave alone ----------

  /** In-flight Creates are untouched when their machines keep the columns they depend on. */
  ghost predicate HoldsFrame(s: Sys, t: Sys) {
    && t.store.users == s.store.users
    && t.creates.Keys <= s.creates.Keys
    && (forall q :: q in t.creates ==> t.creates[q] == s.creates[q])
    && forall i :: i in s.store.machines && HasHold(t, i) ==>
         && i in t.store.machines
         && t.store.machines[i].reserved == s.store.machines[i].reserved
         && t.store.machines[i].reservedBy == s.store.machines[i].reservedBy
         && t.store.machines[i].reservedUntil == s.store.machines[i].reservedUntil
         && t.store.machines[i].sparePool == s.store.machines[i].sparePool
         && (HasRow(t.store, i) ==> HasRow(s.store, i))
  }

  lemma HoldsFrameKeeps(s: Sys, t: Sys)
    requires HoldsOk(s) && HoldsFrame(s, t)
    ensures HoldsOk(t)
  {
    forall q | q in t.creates ensures HoldOk(t, q) {
      assert HoldOk(s, q);
      forall i | i in t.creates[q].ids
        ensures i in s.store.machines && HasHold(t, i) {
      }
    }
  }

  /** Handles survive any change that keeps the rows they name and the machines. */
  ghost predicate HandlesFrame(s: Sys, t: Sys) {
    && s.now <= t.now && s.store.nextRow <= t.store.nextRow
    && s.store.machines.Keys <= t.store.machines.Keys
    && (forall id :: id in t.store.rows && id < s.store.nextRow ==>
          id in s.store.rows && t.store.rows[id] == s.store.rows[id])
    && t.expired <= s.expired && t.releases <= s.releases
    && t.deletes.Keys <= s.deletes.Keys && forall q :: q in t.deletes ==> t.deletes[q] == s.deletes[q]
  }

  lemma HandlesFrameKeeps(s: Sys, t: Sys)
    requires HandlesOk(s) && HandlesFrame(s, t)
    ensures HandlesOk(t)
  {
  }

  ghost predicate NeedsFrame(s: Sys, t: Sys) {
    && t.needs <= s.needs && t.phase == s.phase
    && forall n :: n in t.needs ==>
         && n.primary in t.store.machines
         && (n.primary in s.store.machines && !s.store.machines[n.primary].enabled ==> !t.store.machines[n.primary].enabled)
         && (HasHold(t, n.primary) ==> HasHold(s, n.primary))
         && forall id :: id in t.store.rows && t.store.rows[id].machineId == n.primary
                         && t.store.rows[id].replacementFor.None? ==>
              id in s.store.rows && t.store.rows[id] == s.store.rows[id]
  }

  lemma NeedsFrameKeeps(s: Sys, t: Sys)
    requires NeedsOk(s) && NeedsFrame(s, t)
    ensures NeedsOk(t)
  {
    forall n | n in t.needs ensures NeedOk(t, n) {
      assert NeedOk(s, n);
    }
  }

  ghost predicate BackoffFrame(s: Sys, t: Sys) {
    && s.now <= t.now && t.charges == s.charges
    && t.store.machines.Keys == s.store.machines.Keys
    && forall i :: i in s.store.machines ==>
         && t.store.machines[i].failCount == s.store.machines[i].failCount
         && t.store.machines[i].quarantineUntil == s.store.machines[i].quarantineUntil
         && (HasHold(t, i) ==> HasHold(s, i))
  }

  lemma MachineKeepsBackoff(s: Sys, t: Sys, i: nat)
    requires i in s.store.machines && i in s.charges && MachineBackoffOk(s, i)
    requires i in t.store.machines && i in t.charges && s.now <= t.now && t.charges[i] == s.charges[i]
    requires t.store.machines[i].failCount == s.store.machines[i].failCount
    requires t.store.machines[i].quarantineUntil == s.store.machines[i].quarantineUntil
    requires HasHold(t, i) ==> HasHold(s, i) || Eligible(s.store.machines[i], s.now)
    ensures MachineBackoffOk(t, i)
  {
  }

  lemma BackoffFrameKeeps(s: Sys, t: Sys)
    requires BackoffOk(s) && BackoffFrame(s, t)
    ensures BackoffOk(t)
  {
    forall i | i in t.store.machines ensures MachineBackoffOk(t, i) {
      MachineKeepsBackoff(s, t, i);
    }
  }

  /** Two states that differ only in what components remember. */
  ghost predicate SameTables(s: Sys, t: Sys) {
    t.store == s.store && t.now == s.now && t.creates == s.creates && t.charges == s.charges
  }

  lemma SameTablesKeeps(s: Sys, t: Sys)
    requires Inv(s) && SameTables(s, t)
    ensures RowsOk(t.store, t.now) && HoldsOk(t) && Conserved(t) && BackoffOk(t)
    ensures t.needs == {} || (t.needs == s.needs && t.phase == s.phase) ==> NeedsOk(t)
  {
    assert forall i :: HasHold(t, i) <==> HasHold(s, i);
    HoldsFrameKeeps(s, t);
    BackoffFrameKeeps(s, t);
    if t.needs == s.needs && t.phase == s.phase {
      NeedsFrameKeeps(s, t);
    }
  }

  lemma FreshHandleOk(s: Sys, id: nat)
    requires Inv(s) && id in s.store.rows
    ensures HandleOk(s.store, HandleOf(s.store, id))
  {
    assert RowFormed(s.store, id);
  }

  lemma LoadDeleteKeepsInv(s: Sys, req: nat, row: nat)
    requires Inv(s) && Enabled(s, LoadDelete(req, row))
    ensures Inv(Apply(s, LoadDelete(req, row)))
  {
    SameTablesKeeps(s, Apply(s, LoadDelete(req, row)));
    FreshHandleOk(s, row);
  }

  lemma EnterKeepsInv(s: Sys, phase: Phase)
    requires Inv(s) && Enabled(s, Enter(phase))
    ensures Inv(Apply(s, Enter(phase)))
  {
    SameTablesKeeps(s, Apply(s, Enter(phase)));
  }

  lemma ExpiredHandlesOk(s: Sys, h: Handle)
    requires Inv(s) && h in ExpiredHandles(s.store, s.now)
    ensures HandleOk(s.store, h) && h.row in s.store.rows && Expired(s.store.rows[h.row], s.now)
  {
    FreshHandleOk(s, h.row);
  }

  lemma LoadExpiredKeepsInv(s: Sys, e: Step)
    requires Inv(s) && Enabled(s, e) && (e.LoadExpired? || e.LoadExpiredOn?)
    ensures Inv(Apply(s, e))
  {
    var t := Apply(s, e);
    SameTablesKeeps(s, t);
    forall h | h in t.expired && h !in s.expired
      ensures HandleOk(t.store, h) && h.row in t.store.rows && Expired(t.store.rows[h.row], t.now)
    {
      ExpiredHandlesOk(s, h);
    }
  }

  lemma LoadReleasesKeepsInv(s: Sys)
    requires Inv(s) && Enabled(s, LoadReleases)
    ensures Inv(Apply(s, LoadReleases))
  {
    var t := Apply(s, LoadReleases);
    SameTablesKeeps(s, t);
    forall h | h in t.releases ensures HandleOk(t.store, h) {
      FreshHandleOk(s, h.row);
    }
  }

  lemma RowExcludesHold(s: Sys, mid: nat)
    requires HoldsOk(s) && HasRow(s.store, mid)
    ensures !HasHold(s, mid)
  {
    forall q | q in s.creates ensures mid !in s.creates[q].ids {
      assert HoldOk(s, q);
    }
  }

  /** A need read from the tables is the only primary reservation on its machine. */
  lemma FreshNeedOk(s: Sys, t: Sys, n: Need)
    requires RowsOk(s.store, s.now) && HoldsOk(s) && n in NeedSet(s.store, s.now)
    requires t.store == s.store && t.creates == s.creates
    ensures NeedOk(t, n)
  {
    var id :| id in NeedIds(s.store, s.now) && n == NeedOf(s.store.rows[id]);
    assert RowFormed(s.store, id) && HasRow(s.store, n.primary);
    RowExcludesHold(s, n.primary);
    assert !HasHold(t, n.primary);
  }

  lemma LoadNeedsKeepsInv(s: Sys)
    requires Inv(s) && Enabled(s, LoadNeeds)
    ensures Inv(Apply(s, LoadNeeds))
  {
    var t := Apply(s, LoadNeeds);
    SameTablesKeeps(s, t);
    HandlesFrameKeeps(s, t);
    forall n | n in t.needs ensures NeedOk(t, n) {
      FreshNeedOk(s, t, n);
    }
  }

  // ---------- Environment and machine flags ----------

  /** Owners sit on registered, reserved machines. */
  lemma OwnedMachine(s: Sys, i: nat)
    requires RowsOk(s.store, s.now) && HoldsOk(s)
    requires HasRow(s.store, i) || HasHold(s, i)
    ensures i in s.store.machines && s.store.machines[i].reserved
  {
    if HasRow(s.store, i) {
      var id :| id in s.store.rows && s.store.rows[id].machineId == i;
      assert RowFormed(s.store, id) && RowHeld(s.store, id);
    } else {
      var q :| q in s.creates && i in s.creates[q].ids;
      assert HoldOk(s, q);
    }
  }

  lemma NeededMachine(s: Sys, n: Need)
    requires NeedsOk(s) && n in s.needs
    ensures n.primary in s.store.machines
  {
    assert NeedOk(s, n);
  }

  lemma RegisterKeepsBackoff(s: Sys, mid: nat, name: string)
    requires Inv(s) && Enabled(s, Register(mid, name))
    ensures BackoffOk(Apply(s, Register(mid, name)))
  {
    var t := Apply(s, Register(mid, name));
    assert forall i :: HasHold(t, i) <==> HasHold(s, i);
    if HasHold(s, mid) {
      OwnedMachine(s, mid);
    }
    forall i | i in t.store.machines ensures MachineBackoffOk(t, i) {
      if i != mid {
        assert MachineBackoffOk(s, i);
      }
    }
  }

  lemma RegisterFrames(s: Sys, mid: nat, name: string)
    requires Enabled(s, Register(mid, name))
    requires !HasRow(s.store, mid) && !HasHold(s, mid)
    requires forall n :: n in s.needs ==> n.primary in s.store.machines
    ensures var t := Apply(s, Register(mid, name));
            && HoldsFrame(s, t) && HandlesFrame(s, t) && NeedsFrame(s, t)
            && forall i :: (HasHold(t, i) <==> HasHold(s, i)) && (HasRow(t.store, i) <==> HasRow(s.store, i))
  {
    var t := Apply(s, Register(mid, name));
    assert forall i :: HasHold(t, i) <==> HasHold(s, i);
    assert forall i :: HasRow(t.store, i) <==> HasRow(s.store, i);
  }

  lemma RegisterKeepsInv(s: Sys, mid: nat, name: string)
    requires Inv(s) && Enabled(s, Register(mid, name))
    ensures Inv(Apply(s, Register(mid, name)))
  {
    var t := Apply(s, Register(mid, name));
    if HasRow(s.store, mid) || HasHold(s, mid) {
      OwnedMachine(s, mid);
    }
    forall n | n in s.needs ensures n.primary in s.store.machines {
      NeededMachine(s, n);
    }
    RegisterFrames(s, mid, name);
    RowlessChangeKeepsRows(s.store, t.store, s.now);
    HoldsFrameKeeps(s, t);
    HandlesFrameKeeps(s, t);
    NeedsFrameKeeps(s, t);
    RegisterKeepsBackoff(s, mid, name);
  }

  /** While needs are pending the enabled flags stay as they are. */
  ghost predicate FlagChange(s: Sys, t: Sys) {
    && t == s.(store := t.store)
    && FlagsOnly(s.store, t.store)
    && (s.phase == Reconciling ==> SameEnabled(s.store, t.store))
  }

  lemma FlagChangeKeepsInv(s: Sys, t: Sys)
    requires Inv(s) && FlagChange(s, t)
    ensures Inv(t)
  {
    assert forall i :: HasHold(t, i) <==> HasHold(s, i);
    assert forall i :: HasRow(t.store, i) <==> HasRow(s.store, i);
    SameHoldKeepsRows(s.store, t.store, s.now);
    forall i | HasHold(s, i) ensures i in s.store.machines && s.store.machines[i].reserved {
      OwnedMachine(s, i);
    }
    HoldsFrameKeeps(s, t);
    HandlesFrameKeeps(s, t);
    forall n | n in s.needs ensures n.primary in s.store.machines {
      NeededMachine(s, n);
    }
    NeedsFrameKeeps(s, t);
    BackoffFrameKeeps(s, t);
  }

  predicate IsFlagStep(e: Step) {
    e.SetOnline? || e.MarkDown? || e.Seen? || e.Enable? || e.PromoteSpares? || e.DemoteSpares?
  }

  lemma FlagStepIsFlagChange(s: Sys, e: Step)
    requires Enabled(s, e) && IsFlagStep(e)
    ensures FlagChange(s, Apply(s, e))
  {
    match e
    case SetOnline(mid, online) =>
    case MarkDown(mid) => SetEnabledFlags(s.store, mid, false);
    case Seen(mid) => TouchFlags(s.store, mid, s.now);
    case Enable(mid) => SetEnabledFlags(s.store, mid, true);
    case PromoteSpares(ids) => PromoteFlags(s.store, ids);
    case DemoteSpares(ids) => DemoteFlags(s.store, ids);
  }

  lemma FlagStepKeepsInv(s: Sys, e: Step)
    requires Inv(s) && Enabled(s, e) && IsFlagStep(e)
    ensures Inv(Apply(s, e))
  {
    FlagStepIsFlagChange(s, e);
    FlagChangeKeepsInv(s, Apply(s, e));
  }
}
