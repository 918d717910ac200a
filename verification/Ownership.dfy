/** What the tables alone must satisfy: every reservation row owns its machine, the
    machine's columns agree with the row, the two pools are kept apart, and a primary
    reservation has at most one active replacement.
 */
module Ownership {
  import opened Wrappers
  import opened Tables

  /** Columns of a row that the handlers fill in from the request and the users table. */
  predicate RowFormed(s: Store, id: nat)
    requires id in s.rows
  {
    var r := s.rows[id];
    && id < s.nextRow
    && r.machineId in s.machines
    && r.username in s.users && s.users[r.username] == r.userId
    && r.until.Some?
    && HasHash(r.hash)
    && (r.replacementFor.Some? ==> r.replacementFor.value in s.machines)
  }

  /** The denormalised columns of the row's machine agree with the row. */
  predicate RowHeld(s: Store, id: nat)
    requires id in s.rows && s.rows[id].machineId in s.machines
  {
    var r := s.rows[id];
    var m := s.machines[r.machineId];
    m.reserved && m.reservedBy == Some(r.username) && m.reservedUntil == r.until
  }

  /** Primary reservations sit on ordinary machines, replacements on spares. */
  predicate RowPooled(s: Store, id: nat)
    requires id in s.rows && s.rows[id].machineId in s.machines
  {
    s.machines[s.rows[id].machineId].sparePool <==> s.rows[id].replacementFor.Some?
  }

  /** Two rows are active replacements of one user for one primary machine. */
  predicate SameReplacement(a: Row, b: Row, now: Time) {
    && a.replacementFor.Some? && a.replacementFor == b.replacementFor && a.username == b.username
    && Active(a, now) && Active(b, now)
  }

  ghost predicate RowsOk(s: Store, now: Time) {
    && (forall id :: id in s.rows ==> RowFormed(s, id) && RowHeld(s, id) && RowPooled(s, id))
    && (forall a, b :: a in s.rows && b in s.rows && s.rows[a].machineId == s.rows[b].machineId ==> a == b)
    && (forall a, b :: a in s.rows && b in s.rows && SameReplacement(s.rows[a], s.rows[b], now) ==> a == b)
  }

  ghost predicate HasRow(s: Store, mid: nat) {
    exists id :: id in s.rows && s.rows[id].machineId == mid
  }

  lemma ClearRowKeepsRows(s: Store, now: Time, id: nat, mid: nat)
    requires RowsOk(s, now)
    requires id in s.rows ==> s.rows[id].machineId == mid
    requires id in s.rows || !HasRow(s, mid)
    ensures RowsOk(ClearRow(s, id, mid), now)
  {
    var t := ClearRow(s, id, mid);
    forall r | r in t.rows ensures RowFormed(t, r) && RowHeld(t, r) && RowPooled(t, r) {
      assert RowFormed(s, r) && RowHeld(s, r) && RowPooled(s, r);
    }
  }

  /** Changing only columns no row depends on. */
  ghost predicate SameHold(s: Store, t: Store) {
    && t.users == s.users && t.rows == s.rows && t.nextRow == s.nextRow
    && t.machines.Keys == s.machines.Keys
    && forall i :: i in s.machines ==>
         && t.machines[i].reserved == s.machines[i].reserved
         && t.machines[i].reservedBy == s.machines[i].reservedBy
         && t.machines[i].reservedUntil == s.machines[i].reservedUntil
         && (s.machines[i].reserved ==> t.machines[i].sparePool == s.machines[i].sparePool)
  }

  lemma SameHoldKeepsRows(s: Store, t: Store, now: Time)
    requires RowsOk(s, now) && SameHold(s, t)
    ensures RowsOk(t, now)
  {
    forall r | r in t.rows ensures RowFormed(t, r) && RowHeld(t, r) && RowPooled(t, r) {
      assert RowFormed(s, r) && RowHeld(s, r) && RowPooled(s, r);
    }
  }

  /** Machines without a row may be held, freed or charged without touching any row. */
  lemma RowlessChangeKeepsRows(s: Store, t: Store, now: Time)
    requires RowsOk(s, now)
    requires t.users == s.users && t.rows == s.rows && t.nextRow == s.nextRow
    requires s.machines.Keys <= t.machines.Keys
    requires forall i :: i in s.machines && HasRow(s, i) ==> t.machines[i] == s.machines[i]
    ensures RowsOk(t, now)
  {
    forall r | r in t.rows ensures RowFormed(t, r) && RowHeld(t, r) && RowPooled(t, r) {
      assert RowFormed(s, r) && RowHeld(s, r) && RowPooled(s, r);
      assert HasRow(s, s.rows[r].machineId);
    }
  }

  /** Activity only ends as time passes, so a later clock keeps every clause. */
  lemma TimeKeepsRows(s: Store, now: Time, later: Time)
    requires RowsOk(s, now) && now <= later
    ensures RowsOk(s, later)
  {
    forall a, b | a in s.rows && b in s.rows && SameReplacement(s.rows[a], s.rows[b], later) ensures a == b {
      assert SameReplacement(s.rows[a], s.rows[b], now);
    }
  }

  lemma InsertRowsKeepsRows(s: Store, now: Time, mids: seq<nat>, user: string, until: Time, hash: string)
    requires RowsOk(s, now)
    requires user in s.users && hash != ""
    requires forall i, j :: 0 <= i < j < |mids| ==> mids[i] != mids[j]
    requires forall i :: i in mids ==>
               && i in s.machines && !HasRow(s, i)
               && s.machines[i].reserved && s.machines[i].reservedBy == Some(user)
               && s.machines[i].reservedUntil == Some(until) && !s.machines[i].sparePool
    ensures RowsOk(InsertRows(s, mids, user, until, hash), now)
  {
    var t := InsertRows(s, mids, user, until, hash);
    InsertRowsBound(s, now);
    InsertRowsContent(s, mids, user, until, hash);
    forall r | r in t.rows ensures RowFormed(t, r) && RowHeld(t, r) && RowPooled(t, r) {
      if r in s.rows {
        assert RowFormed(s, r) && RowHeld(s, r) && RowPooled(s, r);
      } else {
        assert mids[r - s.nextRow] in mids;
      }
    }
    forall a, i | a in s.rows && 0 <= i < |mids| ensures s.rows[a].machineId != mids[i] {
      assert HasRow(s, s.rows[a].machineId);
      assert mids[i] in mids;
    }
  }

  lemma InsertRowsBound(s: Store, now: Time)
    requires RowsOk(s, now)
    ensures forall id :: id in s.rows ==> id < s.nextRow
  {
    forall id | id in s.rows ensures id < s.nextRow {
      assert RowFormed(s, id);
    }
  }

  /** A change of machine columns that neither an owner nor the backoff depends on. */
  ghost predicate FlagsOnly(s: Store, t: Store) {
    && SameHold(s, t)
    && forall i :: i in s.machines ==>
         && t.machines[i].failCount == s.machines[i].failCount
         && t.machines[i].quarantineUntil == s.machines[i].quarantineUntil
  }

  ghost predicate SameEnabled(s: Store, t: Store) {
    t.machines.Keys == s.machines.Keys && forall i :: i in s.machines ==> t.machines[i].enabled == s.machines[i].enabled
  }

  lemma SetEnabledFlags(s: Store, mid: nat, enabled: bool)
    ensures FlagsOnly(s, SetEnabled(s, mid, enabled))
  {
  }

  lemma TouchFlags(s: Store, mid: nat, now: Time)
    ensures FlagsOnly(s, Touch(s, mid, now)) && SameEnabled(s, Touch(s, mid, now))
  {
  }

  lemma PromoteFlags(s: Store, ids: set<nat>)
    ensures FlagsOnly(s, Promote(s, ids)) && SameEnabled(s, Promote(s, ids))
  {
  }

  lemma DemoteFlags(s: Store, ids: set<nat>)
    ensures FlagsOnly(s, Demote(s, ids)) && SameEnabled(s, Demote(s, ids))
  {
  }
}
