/** The API's Delete: load the row, run the delete playbook whatever its outcome, then clear. */
module DeleteHandler {
  import opened Wrappers
  import opened Tables
  import opened Ownership
  import opened Storage

  datatype Response = NotFound | Forbidden | Deleted

  /** Who may delete a row: its user, or an admin. */
  predicate Allowed(s: Store, id: nat, user: string, admin: bool)
    requires id in s.rows
  {
    admin || s.rows[id].username == user
  }

  predicate Joined(s: Store, id: nat) {
    id in s.rows && s.rows[id].machineId in s.machines
  }

  method Delete(d: Database, id: nat, user: string, admin: bool) returns (res: Response)
    modifies d
    ensures res == if !Joined(old(d.View()), id) then NotFound
                   else if !Allowed(old(d.View()), id, user, admin) then Forbidden else Deleted
    ensures d.View() == if res.Deleted?
                        then ClearRow(old(d.View()), id, old(d.View()).rows[id].machineId) else old(d.View())
    ensures res.NotFound? <==> id !in old(d.rows) || old(d.rows)[id].machineId !in old(d.machines)
    ensures res.Forbidden? <==>
              && id in old(d.rows) && old(d.rows)[id].machineId in old(d.machines)
              && !admin && old(d.rows)[id].username != user
    ensures !res.Deleted? ==> d.rows == old(d.rows) && d.machines == old(d.machines)
    ensures res.Deleted? ==>
              && d.rows == old(d.rows) - {id} && d.machines.Keys == old(d.machines).Keys
              && forall i :: i in d.machines ==>
                   var m := old(d.machines)[i];
                   d.machines[i] == if i == old(d.rows)[id].machineId
                                    then m.(reserved := false, reservedBy := None, reservedUntil := None) else m
  {
    if id !in d.rows || d.rows[id].machineId !in d.machines {
      return NotFound;
    }
    var row := d.rows[id];
    if !admin && row.username != user {
      return Forbidden;
    }
    // The playbook runs here; its outcome is ignored.
    d.Clear(id, row.machineId);
    res := Deleted;
  }

  /** An undisturbed Delete removes one row and frees its machine, and keeps every other owner. */
  lemma DeleteFreesOwnMachine(s: Store, now: Time, id: nat)
    requires RowsOk(s, now) && id in s.rows
    ensures var t, mid := ClearRow(s, id, s.rows[id].machineId), s.rows[id].machineId;
            && t.rows == s.rows - {id} && t.machines == s.machines[mid := Freed(s.machines[mid])]
            && !HasRow(t, mid) && RowsOk(t, now)
  {
    assert RowFormed(s, id);
    var t, mid := ClearRow(s, id, s.rows[id].machineId), s.rows[id].machineId;
    assert t.machines == s.machines[mid := Freed(s.machines[mid])];
    ClearRowKeepsRows(s, now, id, mid);
  }
}
