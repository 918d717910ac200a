/** The health pass as one function of the tables: what checking every machine once does,
    given which machines answer and which delete playbooks succeed.
 */
module HealthPass {
  import opened Wrappers
  import opened Tables

  /** The outside world during one pass: the clock, the machines that answer, and the rows
      whose delete goes through, the playbook and the clearing transaction alike. */
  datatype World = World(now: Time, up: set<nat>, wiped: set<nat>)

  /** An expired row on a machine that was disabled and answers again, and whose user could be deleted. */
  predicate Cleared(s: Store, w: World, id: nat) {
    && id in s.rows && Expired(s.rows[id], w.now) && id in w.wiped
    && s.rows[id].machineId in s.machines && !s.machines[s.rows[id].machineId].enabled
    && s.rows[id].machineId in w.up
  }

  ghost predicate Frees(s: Store, w: World, mid: nat) {
    exists id :: Cleared(s, w, id) && s.rows[id].machineId == mid
  }

  function Answered(m: Machine, now: Time): Machine {
    m.(lastSeen := Some(now), enabled := true)
  }

  ghost function CheckedMachine(s: Store, w: World, mid: nat): Machine
    requires mid in s.machines
  {
    var m := s.machines[mid];
    if mid !in w.up then m.(enabled := false)
    else if Frees(s, w, mid) then Freed(Answered(m, w.now))
    else Answered(m, w.now)
  }

  ghost function Checked(s: Store, w: World): Store {
    s.(machines := map i | i in s.machines :: CheckedMachine(s, w, i),
       rows := map id | id in s.rows && !Cleared(s, w, id) :: s.rows[id])
  }

  /** The pass on one machine, column by column. */
  lemma CheckedMachineInColumns(s: Store, w: World, i: nat)
    requires i in s.machines
    ensures i in Checked(s, w).machines
    ensures var m := s.machines[i];
            Checked(s, w).machines[i]
            == if i !in w.up then m.(enabled := false)
               else if !m.enabled && exists id :: id in s.rows && s.rows[id].machineId == i && s.rows[id].until.Some?
                                                  && s.rows[id].until.value <= w.now && id in w.wiped
                 then m.(enabled := true, lastSeen := Some(w.now), reserved := false, reservedBy := None, reservedUntil := None)
               else m.(enabled := true, lastSeen := Some(w.now))
  {
    if id :| id in s.rows && s.rows[id].machineId == i && s.rows[id].until.Some?
             && s.rows[id].until.value <= w.now && id in w.wiped {
      assert Cleared(s, w, id) <==> !s.machines[i].enabled && i in w.up;
    }
  }

  /** And on one row. */
  lemma CheckedRowInColumns(s: Store, w: World, id: nat)
    requires id in s.rows && s.rows[id].machineId in s.machines
    ensures var r := s.rows[id];
            && (id !in Checked(s, w).rows <==>
                  && r.until.Some? && r.until.value <= w.now && id in w.wiped
                  && r.machineId in w.up && !s.machines[r.machineId].enabled)
            && (id in Checked(s, w).rows ==> Checked(s, w).rows[id] == r)
  {
  }
}
