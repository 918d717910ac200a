/** The two tables every component shares, as values, and each SQL statement that
    changes them as a function from tables to tables.

    The imperative `Database` class executes these statements on its fields; the
    transition system of `Protocol` interleaves them. Both use the functions below, so
    that a statement is written down once.
 */
module Tables {
  import opened Wrappers

  /** Seconds of the database clock. */
  type Time = nat

  datatype Machine = Machine(
    name: string,
    reserved: bool,
    reservedBy: Option<string>,
    reservedUntil: Option<Time>,
    enabled: bool,
    online: bool,
    sparePool: bool,
    failCount: nat,
    quarantineUntil: Option<Time>,
    lastSeen: Option<Time>)

  datatype Row = Row(
    machineId: nat,
    userId: nat,
    username: string,
    until: Option<Time>,
    hash: Option<string>,
    replacementFor: Option<nat>)

  /** `nextRow` is the AUTO_INCREMENT counter of the reservations table. */
  datatype Store = Store(
    users: map<string, nat>,
    machines: map<nat, Machine>,
    rows: map<nat, Row>,
    nextRow: nat)

  // ---------- Row and machine predicates used in WHERE clauses ----------

  predicate Expired(r: Row, now: Time) {
    r.until.Some? && r.until.value <= now
  }

  predicate Active(r: Row, now: Time) {
    r.until.None? || r.until.value > now
  }

  /** The tests `hashed_password IS NULL OR ''` make provisioning impossible. */
  predicate HasHash(hash: Option<string>) {
    hash.Some? && hash.value != ""
  }

  predicate Usable(m: Machine) {
    m.enabled && m.online && !m.reserved
  }

  /** What an API reservation may take. */
  predicate Eligible(m: Machine, now: Time) {
    Usable(m) && !m.sparePool && (m.quarantineUntil.None? || m.quarantineUntil.value <= now)
  }

  function EligibleIds(s: Store, now: Time): set<nat> {
    set i | i in s.machines && Eligible(s.machines[i], now)
  }

  /** Free spares: what the reconciler may hand out as a replacement. */
  function FreeSpares(s: Store): set<nat> {
    set i | i in s.machines && Usable(s.machines[i]) && s.machines[i].sparePool
  }

  // ---------- Column updates of one machine ----------

  function Fresh(name: string): Machine {
    Machine(name, false, None, None, true, true, false, 0, None, None)
  }

  function Freed(m: Machine): Machine {
    m.(reserved := false, reservedBy := None, reservedUntil := None)
  }

  function Held(m: Machine, user: string, until: Option<Time>): Machine {
    m.(reserved := true, reservedBy := Some(user), reservedUntil := until)
  }

  /** Seconds of quarantine after the failure that raised the fail count to `failures`. */
  function Window(failures: nat): nat {
    60 * if 5 * (failures + 1) < 60 then 5 * (failures + 1) else 60
  }

  /** SET assignments run left to right, so the quarantine sees the raised fail count. */
  function Charged(m: Machine, now: Time): Machine {
    Freed(m).(failCount := m.failCount + 1, quarantineUntil := Some(now + Window(m.failCount + 1)))
  }

  // ---------- Statements ----------

  /** UPDATE machines SET reserved=0, ... WHERE id IN ids */
  function FreeMachines(s: Store, ids: set<nat>): Store {
    s.(machines := map i | i in s.machines :: if i in ids then Freed(s.machines[i]) else s.machines[i])
  }

  /** UPDATE machines SET reserved=1, ... WHERE id IN ids AND reserved=0 */
  function HoldMachines(s: Store, ids: set<nat>, user: string, until: Option<Time>): Store {
    s.(machines := map i | i in s.machines ::
         if i in ids && !s.machines[i].reserved then Held(s.machines[i], user, until) else s.machines[i])
  }

  /** The revert after a failed playbook: free the machines and charge each one failure. */
  function ChargeMachines(s: Store, ids: set<nat>, now: Time): Store {
    s.(machines := map i | i in s.machines :: if i in ids then Charged(s.machines[i], now) else s.machines[i])
  }

  /** UPDATE machines SET enabled=? WHERE id=? */
  function SetEnabled(s: Store, mid: nat, enabled: bool): Store {
    if mid in s.machines
    then s.(machines := s.machines[mid := s.machines[mid].(enabled := enabled)])
    else s
  }

  /** UPDATE machines SET last_seen_at=UTC_TIMESTAMP() WHERE id=? */
  function Touch(s: Store, mid: nat, now: Time): Store {
    if mid in s.machines
    then s.(machines := s.machines[mid := s.machines[mid].(lastSeen := Some(now))])
    else s
  }

  /** UPDATE machines SET spare_pool=1 WHERE id IN ids AND the machine is still a usable non-spare */
  function Promote(s: Store, ids: set<nat>): Store {
    s.(machines := map i | i in s.machines ::
         if i in ids && !s.machines[i].sparePool && Usable(s.machines[i])
         then s.machines[i].(sparePool := true) else s.machines[i])
  }

  /** UPDATE machines SET spare_pool=0 WHERE id IN ids AND the machine is still an unreserved spare */
  function Demote(s: Store, ids: set<nat>): Store {
    s.(machines := map i | i in s.machines ::
         if i in ids && s.machines[i].sparePool && !s.machines[i].reserved
         then s.machines[i].(sparePool := false) else s.machines[i])
  }

  /** INSERT INTO reservations: the row gets the next id, which is never reused. */
  function InsertRow(s: Store, r: Row): Store {
    s.(rows := s.rows[s.nextRow := r], nextRow := s.nextRow + 1)
  }

  /** DELETE FROM reservations WHERE id=? */
  function DeleteRow(s: Store, id: nat): Store {
    s.(rows := s.rows - {id})
  }

  /** The release transaction shared by Delete and the scheduler: free the machine and
      delete the row, in either order, without looking at what they hold now. */
  function ClearRow(s: Store, id: nat, mid: nat): Store {
    DeleteRow(FreeMachines(s, {mid}), id)
  }

  /** A list of (row id, machine id) pairs released in one transaction. */
  function ClearPairs(s: Store, pairs: seq<(nat, nat)>): Store
    decreases |pairs|
  {
    if pairs == [] then s
    else
      var t := ClearPairs(s, pairs[..|pairs| - 1]);
      ClearRow(t, pairs[|pairs| - 1].0, pairs[|pairs| - 1].1)
  }

  /** Exactly the rows named go, and exactly the machines named are freed. */
  lemma {:induction false} PairsInColumns(s: Store, pairs: seq<(nat, nat)>)
    ensures var t := ClearPairs(s, pairs);
            && t.users == s.users && t.nextRow == s.nextRow && t.machines.Keys == s.machines.Keys
            && (forall id :: id in t.rows <==> id in s.rows && forall k :: 0 <= k < |pairs| ==> pairs[k].0 != id)
            && (forall id :: id in t.rows ==> t.rows[id] == s.rows[id])
            && forall i :: i in s.machines ==>
                 t.machines[i] == if exists k :: 0 <= k < |pairs| && pairs[k].1 == i
                                  then s.machines[i].(reserved := false, reservedBy := None, reservedUntil := None)
                                  else s.machines[i]
    decreases |pairs|
  {
    if pairs != [] {
      var n := |pairs| - 1;
      PairsInColumns(s, pairs[..n]);
      assert forall k :: 0 <= k < n ==> pairs[..n][k] == pairs[k];
    }
  }

  /** The insert loop of a successful Create: one row for each machine, in the given order. */
  function InsertRows(s: Store, mids: seq<nat>, user: string, until: Time, hash: string): Store
    requires user in s.users
    decreases |mids|
  {
    if mids == [] then s
    else
      var t := InsertRow(s, Row(mids[0], s.users[user], user, Some(until), Some(hash), None));
      InsertRows(t, mids[1..], user, until, hash)
  }

  /** The insert loop adds exactly one primary row per machine, with consecutive new ids. */
  lemma {:induction false} InsertRowsContent(s: Store, mids: seq<nat>, user: string, until: Time, hash: string)
    requires user in s.users
    requires forall id :: id in s.rows ==> id < s.nextRow
    ensures var t := InsertRows(s, mids, user, until, hash);
            && t.users == s.users && t.machines == s.machines && t.nextRow == s.nextRow + |mids|
            && (forall id :: id in t.rows <==> id in s.rows || s.nextRow <= id < t.nextRow)
            && (forall id :: id in s.rows ==> t.rows[id] == s.rows[id])
            && forall id :: s.nextRow <= id < t.nextRow ==>
                 t.rows[id] == Row(mids[id - s.nextRow], s.users[user], user, Some(until), Some(hash), None)
    decreases |mids|
  {
    if mids != [] {
      var t := InsertRow(s, Row(mids[0], s.users[user], user, Some(until), Some(hash), None));
      InsertRowsContent(t, mids[1..], user, until, hash);
    }
  }
}
