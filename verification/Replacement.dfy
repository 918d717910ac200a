/** The reconciler's two transactions and the queries that feed them, as functions on
    the tables: releasing the replacement of a recovered primary, and allocating a spare
    to a primary whose machine is down.
 */
module Replacement {
  import opened Wrappers
  import opened Tables
  import opened Selection
  import opened Ownership

  /** A primary reservation waiting for a replacement, as the needs query returns it. */
  datatype Need = Need(user: string, primary: nat, until: Option<Time>, hash: Option<string>)

  predicate HasActiveRow(s: Store, now: Time, mid: nat, user: string) {
    exists id :: id in s.rows && s.rows[id].machineId == mid && s.rows[id].username == user && Active(s.rows[id], now)
  }

  predicate HasReplacement(s: Store, now: Time, mid: nat, user: string) {
    exists id :: id in s.rows && s.rows[id].replacementFor == Some(mid) && s.rows[id].username == user
                 && Active(s.rows[id], now)
  }

  /** The recheck inside the release transaction. */
  predicate ReleaseGuard(s: Store, now: Time, id: nat) {
    && id in s.rows
    && Active(s.rows[id], now)
    && s.rows[id].replacementFor.Some?
    && s.rows[id].replacementFor.value in s.machines
    && s.machines[s.rows[id].replacementFor.value].enabled
  }

  /** The release query: as the recheck, and the user still has an active row on the primary machine. */
  function Releasable(s: Store, now: Time): set<nat> {
    set id | id in s.rows && ReleaseGuard(s, now, id)
             && HasActiveRow(s, now, s.rows[id].replacementFor.value, s.rows[id].username)
  }

  /** Delete the row and free the machine named by the query, if the recheck passes. */
  function ReleaseOne(s: Store, now: Time, id: nat, mid: nat): Store {
    if ReleaseGuard(s, now, id) then ClearRow(s, id, mid) else s
  }

  /** An active primary reservation on a disabled machine, with no active replacement at all. */
  predicate NeedsSpare(s: Store, now: Time, id: nat) {
    && id in s.rows
    && Active(s.rows[id], now)
    && s.rows[id].replacementFor.None?
    && s.rows[id].machineId in s.machines
    && !s.machines[s.rows[id].machineId].enabled
    && !HasReplacement(s, now, s.rows[id].machineId, s.rows[id].username)
  }

  function NeedIds(s: Store, now: Time): set<nat> {
    set id | id in s.rows && NeedsSpare(s, now, id)
  }

  function NeedOf(r: Row): Need {
    Need(r.username, r.machineId, r.until, r.hash)
  }

  /** The recheck inside the allocation transaction, which only knows user and machine. */
  predicate StillNeeded(s: Store, now: Time, n: Need) {
    exists id :: id in s.rows && NeedsSpare(s, now, id) && s.rows[id].machineId == n.primary && s.rows[id].username == n.user
  }

  /** The transaction goes through: a spare and a user exist, a hash is stored, the playbook succeeds. */
  ghost predicate Grants(s: Store, now: Time, n: Need, ok: bool) {
    StillNeeded(s, now, n) && FreeSpares(s) != {} && n.user in s.users && HasHash(n.hash) && ok
  }

  ghost function PickedSpare(s: Store): nat
    requires FreeSpares(s) != {}
  {
    First(s, FreeSpares(s), false)
  }

  function ReplacementRow(s: Store, n: Need, spare: nat): Row
    requires n.user in s.users
  {
    Row(spare, s.users[n.user], n.user, n.until, n.hash, Some(n.primary))
  }

  /** Every other path rolls the transaction back. */
  ghost function AllocateOne(s: Store, now: Time, n: Need, ok: bool): Store {
    if Grants(s, now, n, ok) then
      var spare := PickedSpare(s);
      InsertRow(HoldMachines(s, {spare}, n.user, n.until), ReplacementRow(s, n, spare))
    else s
  }

  /** The primary a replacement stands in for: same user, expiry and hash, on a machine that is down. */
  ghost predicate StandsInFor(s: Store, now: Time, r: Row, primary: nat) {
    && primary in s.rows && s.rows[primary].replacementFor.None? && Active(s.rows[primary], now)
    && r.replacementFor == Some(s.rows[primary].machineId)
    && r.username == s.rows[primary].username && r.until == s.rows[primary].until && r.hash == s.rows[primary].hash
    && s.rows[primary].machineId in s.machines && !s.machines[s.rows[primary].machineId].enabled
  }

  /** The whole effect of a granted allocation: one spare held, one row added. */
  ghost predicate Granted(s: Store, t: Store, n: Need, spare: nat) {
    && spare in FreeSpares(s) && n.user in s.users
    && t == s.(machines := s.machines[spare := Held(s.machines[spare], n.user, n.until)],
               rows := s.rows[s.nextRow := ReplacementRow(s, n, spare)],
               nextRow := s.nextRow + 1)
  }

  lemma AllocateEffect(s: Store, now: Time, n: Need, ok: bool)
    requires Grants(s, now, n, ok)
    ensures Granted(s, AllocateOne(s, now, n, ok), n, PickedSpare(s))
  {
    var spare := PickedSpare(s);
    var t := AllocateOne(s, now, n, ok);
    assert t.machines == s.machines[spare := Held(s.machines[spare], n.user, n.until)];
  }

  lemma FreeSpareHasNoRow(s: Store, now: Time, mid: nat)
    requires RowsOk(s, now) && mid in s.machines && !s.machines[mid].reserved
    ensures !HasRow(s, mid)
  {
  }

  lemma ReleaseKeepsRows(s: Store, now: Time, id: nat, mid: nat)
    requires RowsOk(s, now)
    requires id in s.rows ==> s.rows[id].machineId == mid
    ensures RowsOk(ReleaseOne(s, now, id, mid), now)
  {
    if ReleaseGuard(s, now, id) {
      ClearRowKeepsRows(s, now, id, mid);
    }
  }

  lemma AllocateKeepsRows(s: Store, now: Time, n: Need, ok: bool)
    requires RowsOk(s, now) && n.until.Some?
    ensures RowsOk(AllocateOne(s, now, n, ok), now)
  {
    if Grants(s, now, n, ok) {
      var t := AllocateOne(s, now, n, ok);
      var spare := PickedSpare(s);
      FreeSpareHasNoRow(s, now, spare);
      InsertRowsBound(s, now);
      var id :| id in s.rows && NeedsSpare(s, now, id) && s.rows[id].machineId == n.primary && s.rows[id].username == n.user;
      forall r | r in t.rows ensures RowFormed(t, r) && RowHeld(t, r) && RowPooled(t, r) {
        if r in s.rows {
          assert RowFormed(s, r) && RowHeld(s, r) && RowPooled(s, r);
        }
      }
      forall a | a in s.rows ensures s.rows[a].machineId != spare && !SameReplacement(s.rows[a], t.rows[s.nextRow], now) {
        assert HasRow(s, s.rows[a].machineId);
      }
    }
  }

  // ---------- The two queries, column by column ----------

  lemma ReleasableInColumns(s: Store, now: Time, r: nat)
    requires r in s.rows
    ensures var row := s.rows[r];
            r in Releasable(s, now) <==>
              && (row.until.None? || row.until.value > now)
              && row.replacementFor.Some? && row.replacementFor.value in s.machines
              && s.machines[row.replacementFor.value].enabled
              && exists p :: p in s.rows && s.rows[p].machineId == row.replacementFor.value
                             && s.rows[p].username == row.username
                             && (s.rows[p].until.None? || s.rows[p].until.value > now)
  {
    var row := s.rows[r];
    if p :| row.replacementFor.Some? && p in s.rows && s.rows[p].machineId == row.replacementFor.value
            && s.rows[p].username == row.username && (s.rows[p].until.None? || s.rows[p].until.value > now) {
      assert Active(s.rows[p], now);
    }
  }

  lemma NeedInColumns(s: Store, now: Time, p: nat)
    requires p in s.rows
    ensures var row := s.rows[p];
            p in NeedIds(s, now) <==>
              && (row.until.None? || row.until.value > now) && row.replacementFor.None?
              && row.machineId in s.machines && !s.machines[row.machineId].enabled
              && forall q :: q in s.rows && s.rows[q].replacementFor == Some(row.machineId)
                             && s.rows[q].username == row.username ==>
                   s.rows[q].until.Some? && s.rows[q].until.value <= now
  {
    var row := s.rows[p];
    if q :| q in s.rows && s.rows[q].replacementFor == Some(row.machineId) && s.rows[q].username == row.username
            && (s.rows[q].until.None? || s.rows[q].until.value > now) {
      assert Active(s.rows[q], now) && HasReplacement(s, now, row.machineId, row.username);
    }
  }

  /** The recheck of an allocation. */
  lemma StillNeededInColumns(s: Store, now: Time, n: Need)
    ensures StillNeeded(s, now, n) <==>
              && n.primary in s.machines && !s.machines[n.primary].enabled
              && (exists p :: p in s.rows && s.rows[p].machineId == n.primary && s.rows[p].username == n.user
                              && s.rows[p].replacementFor.None? && (s.rows[p].until.None? || s.rows[p].until.value > now))
              && forall q :: q in s.rows && s.rows[q].replacementFor == Some(n.primary) && s.rows[q].username == n.user ==>
                   s.rows[q].until.Some? && s.rows[q].until.value <= now
  {
    if p :| p in s.rows && s.rows[p].machineId == n.primary && s.rows[p].username == n.user
            && s.rows[p].replacementFor.None? && (s.rows[p].until.None? || s.rows[p].until.value > now) {
      NeedInColumns(s, now, p);
    }
    if StillNeeded(s, now, n) {
      var p :| p in s.rows && NeedsSpare(s, now, p) && s.rows[p].machineId == n.primary && s.rows[p].username == n.user;
      NeedInColumns(s, now, p);
    }
  }

  /** The recheck of a release. */
  lemma GuardInColumns(s: Store, now: Time, id: nat)
    ensures ReleaseGuard(s, now, id) <==>
              && id in s.rows && (s.rows[id].until.None? || s.rows[id].until.value > now)
              && s.rows[id].replacementFor.Some? && s.rows[id].replacementFor.value in s.machines
              && s.machines[s.rows[id].replacementFor.value].enabled
  {
  }

  lemma NoSpareInColumns(s: Store)
    ensures FreeSpares(s) == {} <==>
              forall i :: i in s.machines ==>
                !(s.machines[i].enabled && s.machines[i].online && s.machines[i].sparePool && !s.machines[i].reserved)
  {
    if i :| i in s.machines && s.machines[i].enabled && s.machines[i].online && s.machines[i].sparePool && !s.machines[i].reserved {
      assert i in FreeSpares(s);
    }
  }
}
