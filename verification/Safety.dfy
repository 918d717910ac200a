/** Preservation of the invariant by the transactions that change who owns a machine, and
    the theorem that a step keeps the invariant exactly when it is not a stale release.
 */
module Safety {
  import opened Tables
  import opened Ownership
  import opened Replacement
  import opened Protocol
  import opened Invariant

  // ---------- Create: reserve ----------

  lemma UnreservedIsUnowned(s: Sys, ids: set<nat>)
    requires RowsOk(s.store, s.now) && HoldsOk(s)
    requires forall i :: i in ids ==> i in s.store.machines && !s.store.machines[i].reserved
    ensures forall i :: i in ids ==> !HasRow(s.store, i) && !HasHold(s, i)
  {
    forall i | i in ids ensures !HasRow(s.store, i) && !HasHold(s, i) {
      if HasRow(s.store, i) || HasHold(s, i) {
        OwnedMachine(s, i);
      }
    }
  }

  lemma ReservedHolds(s: Sys, req: nat, user: string, count: nat, minutes: nat)
    requires Enabled(s, Reserve(req, user, count, minutes))
    ensures var t := Apply(s, Reserve(req, user, count, minutes));
            forall i :: HasHold(t, i) <==> HasHold(s, i) || i in ReservedIds(s, count)
  {
    var t := Apply(s, Reserve(req, user, count, minutes));
    forall i | HasHold(s, i) || i in ReservedIds(s, count) ensures HasHold(t, i) {
      if i in ReservedIds(s, count) {
        assert req in t.creates;
      } else {
        var q :| q in s.creates && i in s.creates[q].ids;
        assert q in t.creates && t.creates[q] == s.creates[q];
      }
    }
    forall i | HasHold(t, i) ensures HasHold(s, i) || i in ReservedIds(s, count) {
      var q :| q in t.creates && i in t.creates[q].ids;
      assert q == req || q in s.creates;
    }
  }

  lemma ReserveKeepsHolds(s: Sys, req: nat, user: string, count: nat, minutes: nat)
    requires Enabled(s, Reserve(req, user, count, minutes)) && RowsOk(s.store, s.now) && HoldsOk(s)
    ensures HoldsOk(Apply(s, Reserve(req, user, count, minutes)))
    ensures Conserved(s) ==> Conserved(Apply(s, Reserve(req, user, count, minutes)))
  {
    var t := Apply(s, Reserve(req, user, count, minutes));
    var ids := ReservedIds(s, count);
    UnreservedIsUnowned(s, ids);
    assert forall i :: HasRow(t.store, i) <==> HasRow(s.store, i);
    ReservedHolds(s, req, user, count, minutes);
    forall q | q in t.creates ensures HoldOk(t, q) {
      if q != req {
        assert HoldOk(s, q);
      }
    }
  }

  lemma ReserveKeepsBackoff(s: Sys, req: nat, user: string, count: nat, minutes: nat)
    requires Enabled(s, Reserve(req, user, count, minutes)) && BackoffOk(s)
    ensures BackoffOk(Apply(s, Reserve(req, user, count, minutes)))
  {
    var t := Apply(s, Reserve(req, user, count, minutes));
    ReservedHolds(s, req, user, count, minutes);
    forall i | i in t.store.machines ensures MachineBackoffOk(t, i) {
      assert HasHold(t, i) ==> HasHold(s, i) || i in EligibleIds(s.store, s.now);
      MachineKeepsBackoff(s, t, i);
    }
  }

  lemma ReserveKeepsNeeds(s: Sys, req: nat, user: string, count: nat, minutes: nat)
    requires Enabled(s, Reserve(req, user, count, minutes)) && NeedsOk(s)
    ensures NeedsOk(Apply(s, Reserve(req, user, count, minutes)))
  {
    var t := Apply(s, Reserve(req, user, count, minutes));
    ReservedHolds(s, req, user, count, minutes);
    forall n | n in t.needs ensures NeedOk(t, n) {
      assert NeedOk(s, n);
      assert n.primary !in ReservedIds(s, count);
    }
  }

  lemma ReserveKeepsInv(s: Sys, req: nat, user: string, count: nat, minutes: nat)
    requires Inv(s) && Enabled(s, Reserve(req, user, count, minutes))
    ensures Inv(Apply(s, Reserve(req, user, count, minutes)))
  {
    var t := Apply(s, Reserve(req, user, count, minutes));
    forall i | i in s.store.machines && HasRow(s.store, i) ensures t.store.machines[i] == s.store.machines[i] {
      OwnedMachine(s, i);
    }
    RowlessChangeKeepsRows(s.store, t.store, s.now);
    ReserveKeepsHolds(s, req, user, count, minutes);
    HandlesFrameKeeps(s, t);
    ReserveKeepsNeeds(s, req, user, count, minutes);
    ReserveKeepsBackoff(s, req, user, count, minutes);
  }

  // ---------- Create: the three endings ----------

  /** Ending a request leaves every other request's hold as it was. */
  lemma EndedHolds(s: Sys, t: Sys, req: nat)
    requires HoldsOk(s) && req in s.creates && t.creates == s.creates - {req}
    ensures forall i :: HasHold(t, i) <==> HasHold(s, i) && i !in s.creates[req].ids
  {
    forall i | HasHold(t, i) ensures HasHold(s, i) && i !in s.creates[req].ids {
      var q :| q in t.creates && i in t.creates[q].ids;
      assert q in s.creates && i in s.creates[q].ids;
    }
    forall i | HasHold(s, i) && i !in s.creates[req].ids ensures HasHold(t, i) {
      var q :| q in s.creates && i in s.creates[q].ids;
      assert q in t.creates;
    }
  }

  lemma InsertKeepsHolds(s: Sys, req: nat, order: seq<nat>, hash: string)
    requires Enabled(s, Insert(req, order, hash)) && RowsOk(s.store, s.now) && HoldsOk(s)
    ensures var t := Apply(s, Insert(req, order, hash));
            && HoldsOk(t) && (Conserved(s) ==> Conserved(t))
            && t.store.machines == s.store.machines && t.store.users == s.store.users
            && t.store.nextRow >= s.store.nextRow
            && (forall id :: id in s.store.rows ==> id in t.store.rows && t.store.rows[id] == s.store.rows[id])
            && (forall id :: id in t.store.rows && id !in s.store.rows ==>
                  id >= s.store.nextRow && t.store.rows[id].machineId in s.creates[req].ids)
            && forall i :: HasHold(t, i) <==> HasHold(s, i) && i !in s.creates[req].ids
  {
    var t := Apply(s, Insert(req, order, hash));
    var h := s.creates[req];
    InsertRowsBound(s.store, s.now);
    InsertRowsContent(s.store, order, h.user, h.until, hash);
    EndedHolds(s, t, req);
    forall id | id in t.store.rows && id !in s.store.rows ensures t.store.rows[id].machineId in h.ids {
      assert order[id - s.store.nextRow] in order;
    }
    forall i | i in h.ids ensures HasRow(t.store, i) {
      assert i in order;
      var k :| 0 <= k < |order| && order[k] == i;
      assert t.store.rows[s.store.nextRow + k].machineId == i;
    }
    forall i | HasRow(s.store, i) ensures HasRow(t.store, i) {
      var id :| id in s.store.rows && s.store.rows[id].machineId == i;
      assert id in t.store.rows && t.store.rows[id].machineId == i;
    }
    forall q | q in t.creates ensures HoldOk(t, q) {
      assert HoldOk(s, q);
      forall i | i in t.creates[q].ids ensures !HasRow(t.store, i) {
        assert HasHold(t, i);
      }
    }
  }

  lemma InsertKeepsInv(s: Sys, req: nat, order: seq<nat>, hash: string)
    requires Inv(s) && Enabled(s, Insert(req, order, hash))
    ensures Inv(Apply(s, Insert(req, order, hash)))
  {
    var t := Apply(s, Insert(req, order, hash));
    var h := s.creates[req];
    assert HoldOk(s, req);
    InsertRowsKeepsRows(s.store, s.now, order, h.user, h.until, hash);
    InsertKeepsHolds(s, req, order, hash);
    HandlesFrameKeeps(s, t);
    forall n | n in s.needs ensures n.primary in s.store.machines && n.primary !in h.ids {
      assert NeedOk(s, n);
    }
    NeedsFrameKeeps(s, t);
    BackoffFrameKeeps(s, t);
  }

  /** Revert and Charge both free exactly the machines of the request. */
  ghost predicate FreesHold(s: Sys, t: Sys, req: nat) {
    && req in s.creates
    && t == s.(store := t.store, creates := s.creates - {req}, charges := t.charges)
    && t.store == s.store.(machines := t.store.machines)
    && t.store.machines.Keys == s.store.machines.Keys
    && forall i :: i in s.store.machines ==>
         && (i !in s.creates[req].ids ==> t.store.machines[i] == s.store.machines[i])
         && (i in s.creates[req].ids ==>
               && t.store.machines[i] == Freed(t.store.machines[i])
               && t.store.machines[i].enabled == s.store.machines[i].enabled)
  }

  lemma FreesHoldFrames(s: Sys, t: Sys, req: nat)
    requires HoldsOk(s) && FreesHold(s, t, req)
    requires forall n :: n in s.needs ==> n.primary in s.store.machines
    ensures HoldsFrame(s, t) && HandlesFrame(s, t) && NeedsFrame(s, t)
    ensures forall i :: i in s.store.machines && HasRow(s.store, i) ==> t.store.machines[i] == s.store.machines[i]
    ensures Conserved(s) ==> Conserved(t)
  {
    assert HoldOk(s, req);
    EndedHolds(s, t, req);
    assert forall i :: HasRow(t.store, i) <==> HasRow(s.store, i);
  }

  lemma FreesHoldKeeps(s: Sys, t: Sys, req: nat)
    requires Inv(s) && FreesHold(s, t, req)
    ensures RowsOk(t.store, t.now) && HoldsOk(t) && Conserved(t) && HandlesOk(t) && NeedsOk(t)
  {
    forall n | n in s.needs ensures n.primary in s.store.machines {
      NeededMachine(s, n);
    }
    FreesHoldFrames(s, t, req);
    RowlessChangeKeepsRows(s.store, t.store, s.now);
    HoldsFrameKeeps(s, t);
    HandlesFrameKeeps(s, t);
    NeedsFrameKeeps(s, t);
  }

  lemma RevertKeepsInv(s: Sys, req: nat)
    requires Inv(s) && Enabled(s, Revert(req))
    ensures Inv(Apply(s, Revert(req)))
  {
    var t := Apply(s, Revert(req));
    FreesHoldKeeps(s, t, req);
    EndedHolds(s, t, req);
    BackoffFrameKeeps(s, t);
  }

  /** A charge comes after the machine's quarantine, because its request held it. */
  lemma ChargedMachineKeepsBackoff(s: Sys, t: Sys, i: nat)
    requires i in s.store.machines && i in s.charges && MachineBackoffOk(s, i) && HasHold(s, i)
    requires i in t.store.machines && i in t.charges && t.now == s.now && !HasHold(t, i)
    requires t.store.machines[i] == Charged(s.store.machines[i], s.now)
    requires t.charges[i] == s.charges[i] + [s.now]
    ensures MachineBackoffOk(t, i)
  {
  }

  lemma ChargeKeepsBackoff(s: Sys, req: nat)
    requires Enabled(s, Charge(req)) && HoldsOk(s) && BackoffOk(s)
    ensures BackoffOk(Apply(s, Charge(req)))
  {
    var t := Apply(s, Charge(req));
    EndedHolds(s, t, req);
    forall i | i in t.store.machines ensures MachineBackoffOk(t, i) {
      if i in s.creates[req].ids {
        assert HasHold(s, i) && !HasHold(t, i);
        ChargedMachineKeepsBackoff(s, t, i);
      } else {
        MachineKeepsBackoff(s, t, i);
      }
    }
  }

  lemma ChargeKeepsInv(s: Sys, req: nat)
    requires Inv(s) && Enabled(s, Charge(req))
    ensures Inv(Apply(s, Charge(req)))
  {
    FreesHoldKeeps(s, Apply(s, Charge(req)), req);
    ChargeKeepsBackoff(s, req);
  }

  // ---------- Releases ----------

  /** The release transaction ran with handle h, whoever remembered it. */
  ghost predicate Clears(s: Sys, t: Sys, h: Handle) {
    && t == s.(store := ClearRow(s.store, h.row, h.mid), deletes := t.deletes, expired := t.expired, releases := t.releases)
    && t.expired <= s.expired && t.releases <= s.releases
    && t.deletes.Keys <= s.deletes.Keys && forall q :: q in t.deletes ==> t.deletes[q] == s.deletes[q]
  }

  lemma ClearFrames(s: Sys, t: Sys, h: Handle)
    requires Clears(s, t, h) && !HasHold(s, h.mid)
    requires forall n :: n in s.needs ==> n.primary in s.store.machines
    ensures HoldsFrame(s, t) && HandlesFrame(s, t) && NeedsFrame(s, t) && BackoffFrame(s, t)
  {
    assert forall i :: HasHold(t, i) <==> HasHold(s, i);
    forall i | HasRow(t.store, i) ensures HasRow(s.store, i) {
      var id :| id in t.store.rows && t.store.rows[id].machineId == i;
      assert id in s.store.rows && s.store.rows[id].machineId == i;
    }
  }

  lemma ClearKeepsConserved(s: Sys, t: Sys, h: Handle)
    requires Conserved(s) && Clears(s, t, h) && HandleOk(s.store, h)
    ensures Conserved(t)
  {
    assert forall i :: HasHold(t, i) <==> HasHold(s, i);
    forall i | i in s.store.machines && i != h.mid && HasRow(s.store, i) ensures HasRow(t.store, i) {
      var id :| id in s.store.rows && s.store.rows[id].machineId == i;
      assert id in t.store.rows && t.store.rows[id].machineId == i;
    }
  }

  lemma SafeClearKeepsInv(s: Sys, t: Sys, h: Handle)
    requires Inv(s) && Clears(s, t, h) && HandleOk(s.store, h) && SafeRelease(s.store, h)
    ensures Inv(t)
  {
    if h.row in s.store.rows {
      assert HasRow(s.store, h.mid);
      RowExcludesHold(s, h.mid);
    } else {
      UnreservedIsUnowned(s, {h.mid});
    }
    forall n | n in s.needs ensures n.primary in s.store.machines {
      NeededMachine(s, n);
    }
    ClearFrames(s, t, h);
    ClearRowKeepsRows(s.store, s.now, h.row, h.mid);
    HoldsFrameKeeps(s, t);
    ClearKeepsConserved(s, t, h);
    HandlesFrameKeeps(s, t);
    NeedsFrameKeeps(s, t);
    BackoffFrameKeeps(s, t);
  }

  /** A stale release takes the machine away from its present owner. */
  lemma StaleClearBreaksInv(s: Sys, t: Sys, h: Handle)
    requires Inv(s) && Clears(s, t, h) && HandleOk(s.store, h) && !SafeRelease(s.store, h)
    ensures !Inv(t)
  {
    if HasRow(s.store, h.mid) {
      var id :| id in s.store.rows && s.store.rows[id].machineId == h.mid;
      assert id in t.store.rows && !RowHeld(t.store, id);
    } else {
      var q :| q in s.creates && h.mid in s.creates[q].ids;
      assert q in t.creates && !HoldOk(t, q);
    }
  }

  lemma ClearStep(s: Sys, e: Step, h: Handle)
    requires Inv(s) && Enabled(s, e)
    requires (e.ClearDelete? && h == s.deletes[e.req]) || (e.ClearExpired? && h == e.h)
    ensures Inv(Apply(s, e)) <==> SafeRelease(s.store, h)
  {
    var t := Apply(s, e);
    assert Clears(s, t, h);
    if SafeRelease(s.store, h) {
      SafeClearKeepsInv(s, t, h);
    } else {
      StaleClearBreaksInv(s, t, h);
    }
  }

  lemma ReleaseKeepsInv(s: Sys, h: Handle)
    requires Inv(s) && Enabled(s, Release(h))
    ensures Inv(Apply(s, Release(h)))
  {
    var t := Apply(s, Release(h));
    if ReleaseGuard(s.store, s.now, h.row) {
      assert Clears(s, t, h);
      SafeClearKeepsInv(s, t, h);
    } else {
      SameTablesKeeps(s, t);
      HandlesFrameKeeps(s, t);
    }
  }

  // ---------- Allocation of a replacement ----------

  lemma GrantedOwners(s: Sys, t: Sys, n: Need, spare: nat)
    requires t == s.(store := t.store, needs := t.needs) && Granted(s.store, t.store, n, spare)
    requires forall id :: id in s.store.rows ==> id < s.store.nextRow
    ensures forall i :: HasHold(t, i) <==> HasHold(s, i)
    ensures forall i :: HasRow(t.store, i) <==> HasRow(s.store, i) || i == spare
  {
    assert forall i :: HasHold(t, i) <==> HasHold(s, i);
    forall i | HasRow(s.store, i) || i == spare ensures HasRow(t.store, i) {
      if i == spare {
        assert t.store.rows[s.store.nextRow].machineId == i;
      } else {
        var id :| id in s.store.rows && s.store.rows[id].machineId == i;
        assert id in t.store.rows && t.store.rows[id].machineId == i;
      }
    }
    forall i | HasRow(t.store, i) ensures HasRow(s.store, i) || i == spare {
      var id :| id in t.store.rows && t.store.rows[id].machineId == i;
      assert id == s.store.nextRow || id in s.store.rows;
    }
  }

  lemma GrantedFrames(s: Sys, t: Sys, n: Need, spare: nat)
    requires t == s.(store := t.store, needs := s.needs - {n}) && Granted(s.store, t.store, n, spare)
    requires forall id :: id in s.store.rows ==> id < s.store.nextRow
    requires !HasHold(s, spare)
    requires forall m :: m in s.needs ==> m.primary in s.store.machines && m.primary != spare
    ensures HoldsFrame(s, t) && HandlesFrame(s, t) && NeedsFrame(s, t) && BackoffFrame(s, t)
    ensures Conserved(s) ==> Conserved(t)
  {
    GrantedOwners(s, t, n, spare);
  }

  lemma AllocateFrames(s: Sys, n: Need, ok: bool)
    requires Enabled(s, Allocate(n, ok)) && RowsOk(s.store, s.now) && HoldsOk(s) && NeedsOk(s)
    requires Grants(s.store, s.now, n, ok)
    ensures var t := Apply(s, Allocate(n, ok));
            && HoldsFrame(s, t) && HandlesFrame(s, t) && NeedsFrame(s, t) && BackoffFrame(s, t)
            && (Conserved(s) ==> Conserved(t))
  {
    var t := Apply(s, Allocate(n, ok));
    var spare := PickedSpare(s.store);
    AllocateEffect(s.store, s.now, n, ok);
    UnreservedIsUnowned(s, {spare});
    InsertRowsBound(s.store, s.now);
    forall m | m in s.needs ensures m.primary in s.store.machines && m.primary != spare {
      assert NeedOk(s, m);
    }
    GrantedFrames(s, t, n, spare);
  }

  lemma AllocateKeepsInv(s: Sys, n: Need, ok: bool)
    requires Inv(s) && Enabled(s, Allocate(n, ok))
    ensures Inv(Apply(s, Allocate(n, ok)))
  {
    var t := Apply(s, Allocate(n, ok));
    if Grants(s.store, s.now, n, ok) {
      assert NeedOk(s, n);
      AllocateKeepsRows(s.store, s.now, n, ok);
      AllocateFrames(s, n, ok);
      HoldsFrameKeeps(s, t);
      HandlesFrameKeeps(s, t);
      NeedsFrameKeeps(s, t);
      BackoffFrameKeeps(s, t);
    } else {
      SameTablesKeeps(s, t);
      HandlesFrameKeeps(s, t);
      forall m | m in t.needs ensures NeedOk(t, m) {
        assert NeedOk(s, m);
      }
    }
  }

  // ---------- The step theorem ----------

  /** A step keeps the invariant if and only if it is not a stale release: one of the two
      unguarded releases, of a row that is gone, on a machine somebody holds. */
  lemma StepKeepsInvIffSafe(s: Sys, e: Step)
    requires Inv(s) && Enabled(s, e)
    ensures Inv(Apply(s, e)) <==> Safe(s, e)
  {
    match e
    case Tick(d) => TickKeepsInv(s, d);
    case Register(mid, name) => RegisterKeepsInv(s, mid, name);
    case Reserve(req, user, count, minutes) => ReserveKeepsInv(s, req, user, count, minutes);
    case Insert(req, order, hash) => InsertKeepsInv(s, req, order, hash);
    case Revert(req) => RevertKeepsInv(s, req);
    case Charge(req) => ChargeKeepsInv(s, req);
    case LoadDelete(req, row) => LoadDeleteKeepsInv(s, req, row);
    case ClearDelete(req) => ClearStep(s, e, s.deletes[req]);
    case Enter(phase) => EnterKeepsInv(s, phase);
    case LoadExpired => LoadExpiredKeepsInv(s, e);
    case LoadExpiredOn(_) => LoadExpiredKeepsInv(s, e);
    case ClearExpired(h) => ClearStep(s, e, h);
    case LoadReleases => LoadReleasesKeepsInv(s);
    case Release(h) => ReleaseKeepsInv(s, h);
    case LoadNeeds => LoadNeedsKeepsInv(s);
    case Allocate(n, ok) => AllocateKeepsInv(s, n, ok);
    case _ => FlagStepKeepsInv(s, e);
  }

  /** In a run without stale releases the invariant holds in every state. */
  lemma {:induction false} RunKeepsInv(states: seq<Sys>, steps: seq<Step>, n: nat)
    requires IsRun(states, steps) && n < |states|
    requires forall i :: 0 <= i < n ==> Safe(states[i], steps[i])
    ensures Inv(states[n])
    decreases n
  {
    if n == 0 {
      InitInv(states[0]);
    } else {
      RunKeepsInv(states, steps, n - 1);
      StepKeepsInvIffSafe(states[n - 1], steps[n - 1]);
    }
  }
}
