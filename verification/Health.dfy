/** The health pass in program order: what a worker does for one machine, one machine after
    another, and the drain of expired reservations that cleanup and health achieve together.
 */
module Health {
  import opened Tables
  import opened Sets
  import opened Ownership
  import opened Protocol
  import opened Storage
  import opened HealthPass
  import C = Cleanup

  /** The pass after the machines in `done` have been checked. */
  ghost function CheckedSome(s: Store, w: World, done: set<nat>): Store {
    s.(machines := map i | i in s.machines :: if i in done then CheckedMachine(s, w, i) else s.machines[i],
       rows := map id | id in s.rows && !(Cleared(s, w, id) && s.rows[id].machineId in done) :: s.rows[id])
  }

  lemma CheckedSomeEnds(s: Store, w: World)
    ensures CheckedSome(s, w, {}) == s
    ensures (forall id :: id in s.rows ==> s.rows[id].machineId in s.machines) ==>
              CheckedSome(s, w, s.machines.Keys) == Checked(s, w)
  {
    assert CheckedSome(s, w, {}).machines == s.machines;
    assert CheckedSome(s, w, {}).rows == s.rows;
    assert CheckedSome(s, w, s.machines.Keys).machines == Checked(s, w).machines;
    if forall id :: id in s.rows ==> s.rows[id].machineId in s.machines {
      assert CheckedSome(s, w, s.machines.Keys).rows == Checked(s, w).rows;
    }
  }

  // ---------- Opportunistic cleanup ----------

  function Wipeable(s: Store, w: World, mid: nat): set<nat> {
    set id | id in ExpiredIds(s, w.now) && s.rows[id].machineId == mid && id in w.wiped
  }

  /** Rows are removed one by one; the machine is free as soon as one of them is. */
  function Wiped(s: Store, mid: nat, ids: set<nat>): Store {
    s.(rows := s.rows - ids,
       machines := if ids != {} && mid in s.machines then s.machines[mid := Freed(s.machines[mid])] else s.machines)
  }

  lemma WipeMore(s: Store, mid: nat, ids: set<nat>, id: nat)
    ensures ClearRow(Wiped(s, mid, ids), id, mid) == Wiped(s, mid, ids + {id})
  {
    var t, u := ClearRow(Wiped(s, mid, ids), id, mid), Wiped(s, mid, ids + {id});
    assert t.rows == u.rows;
    assert t.machines == u.machines;
  }

  /** Deletes the expired users of a machine that just came back; what fails is left for later. */
  method OpportunisticCleanup(d: Database, mid: nat, w: World)
    modifies d`machines, d`rows
    ensures d.View() == Wiped(old(d.View()), mid, Wipeable(old(d.View()), w, mid))
    ensures forall id :: id in d.rows <==>
              && id in old(d.rows)
              && !(&& old(d.rows)[id].machineId == mid && mid in old(d.machines) && old(d.machines)[mid].enabled
                   && old(d.rows)[id].until.Some? && old(d.rows)[id].until.value <= w.now && id in w.wiped)
  {
    ghost var s := d.View();
    var rows := d.LoadExpiredForMachine(mid, w.now);
    ghost var gone: set<nat> := {};
    assert s.rows - gone == s.rows;
    for k := 0 to |rows|
      invariant forall id :: id in gone <==> exists j :: 0 <= j < k && rows[j].resId == id && id in w.wiped
      invariant d.View() == Wiped(s, mid, gone)
    {
      if rows[k].resId in w.wiped {
        WipeMore(s, mid, gone, rows[k].resId);
        ghost var before := d.View();
        d.ClearReservationsAndRelease([(rows[k].resId, rows[k].mid)]);
        assert [(rows[k].resId, rows[k].mid)][..0] == [];
        assert d.View() == ClearRow(before, rows[k].resId, rows[k].mid);
        gone := gone + {rows[k].resId};
      }
    }
    assert gone == Wipeable(s, w, mid);
    WipeableInColumns(s, w, mid);
  }

  lemma WipeableInColumns(s: Store, w: World, mid: nat)
    ensures forall id :: id in Wipeable(s, w, mid) <==>
              && id in s.rows && s.rows[id].machineId == mid && mid in s.machines && s.machines[mid].enabled
              && s.rows[id].until.Some? && s.rows[id].until.value <= w.now && id in w.wiped
  {
  }

  // ---------- One machine ----------

  lemma WipeableIsCleared(s: Store, w: World, done: set<nat>, mid: nat, t: Store)
    requires mid in s.machines && mid !in done && mid in w.up && !s.machines[mid].enabled
    requires t == SetEnabled(Touch(CheckedSome(s, w, done), mid, w.now), mid, true)
    ensures forall id :: id in Wipeable(t, w, mid) <==> Cleared(s, w, id) && s.rows[id].machineId == mid
  {
  }

  lemma CameBack(s: Store, w: World, done: set<nat>, mid: nat)
    requires mid in s.machines && mid !in done && mid in w.up && !s.machines[mid].enabled
    ensures var t := SetEnabled(Touch(CheckedSome(s, w, done), mid, w.now), mid, true);
            Wiped(t, mid, Wipeable(t, w, mid)) == CheckedSome(s, w, done + {mid})
  {
    var t := SetEnabled(Touch(CheckedSome(s, w, done), mid, w.now), mid, true);
    WipeableIsCleared(s, w, done, mid, t);
    WipedChecked(s, w, done, mid, t, Wipeable(t, w, mid));
  }

  lemma WipedChecked(s: Store, w: World, done: set<nat>, mid: nat, t: Store, ids: set<nat>)
    requires mid in s.machines && mid !in done && mid in w.up && !s.machines[mid].enabled
    requires t == SetEnabled(Touch(CheckedSome(s, w, done), mid, w.now), mid, true)
    requires forall id :: id in ids <==> Cleared(s, w, id) && s.rows[id].machineId == mid
    ensures Wiped(t, mid, ids) == CheckedSome(s, w, done + {mid})
  {
    var u, v := Wiped(t, mid, ids), CheckedSome(s, w, done + {mid});
    assert ids != {} <==> Frees(s, w, mid);
    assert u.machines == v.machines;
    assert u.rows == v.rows;
  }

  lemma StayedUp(s: Store, w: World, done: set<nat>, mid: nat)
    requires mid in s.machines && mid !in done && mid in w.up && s.machines[mid].enabled
    ensures SetEnabled(Touch(CheckedSome(s, w, done), mid, w.now), mid, true) == CheckedSome(s, w, done + {mid})
  {
    var t, u := SetEnabled(Touch(CheckedSome(s, w, done), mid, w.now), mid, true), CheckedSome(s, w, done + {mid});
    assert t.machines == u.machines;
    assert t.rows == u.rows;
  }

  lemma WentDown(s: Store, w: World, done: set<nat>, mid: nat)
    requires mid in s.machines && mid !in done && mid !in w.up
    ensures SetEnabled(CheckedSome(s, w, done), mid, false) == CheckedSome(s, w, done + {mid})
    ensures !s.machines[mid].enabled ==> CheckedSome(s, w, done) == CheckedSome(s, w, done + {mid})
  {
    var t, u := SetEnabled(CheckedSome(s, w, done), mid, false), CheckedSome(s, w, done + {mid});
    assert t.machines == u.machines;
    assert t.rows == u.rows;
    if !s.machines[mid].enabled {
      assert CheckedSome(s, w, done).machines == u.machines;
      assert CheckedSome(s, w, done).rows == u.rows;
    }
  }

  datatype Stats = Stats(total: nat, reachable: nat, unreachable: nat, disabled: nat, reEnabled: nat)

  function WentOff(s: Store, w: World, done: set<nat>): set<nat> {
    set i | i in done && i !in w.up && i in s.machines && s.machines[i].enabled
  }

  function WentOn(s: Store, w: World, done: set<nat>): set<nat> {
    set i | i in done && i in w.up && i in s.machines && !s.machines[i].enabled
  }

  /** What the counters stand for once the machines in `done` have been checked. */
  function Tally(s: Store, w: World, done: set<nat>): Stats {
    Stats(|done|, |done * w.up|, |done - w.up|, |WentOff(s, w, done)|, |WentOn(s, w, done)|)
  }

  lemma SplitMore(done: set<nat>, up: set<nat>, mid: nat)
    requires mid !in done
    ensures |(done + {mid}) * up| == |done * up| + if mid in up then 1 else 0
    ensures |(done + {mid}) - up| == |done - up| + if mid in up then 0 else 1
  {
    if mid in up {
      assert (done + {mid}) * up == done * up + {mid} && (done + {mid}) - up == done - up;
    } else {
      assert (done + {mid}) * up == done * up && (done + {mid}) - up == done - up + {mid};
    }
  }

  lemma WentMore(s: Store, w: World, done: set<nat>, mid: nat)
    requires mid in s.machines && mid !in done
    ensures |WentOff(s, w, done + {mid})| == |WentOff(s, w, done)| + if mid !in w.up && s.machines[mid].enabled then 1 else 0
    ensures |WentOn(s, w, done + {mid})| == |WentOn(s, w, done)| + if mid in w.up && !s.machines[mid].enabled then 1 else 0
  {
    var off, on := WentOff(s, w, done), WentOn(s, w, done);
    if mid !in w.up && s.machines[mid].enabled {
      assert WentOff(s, w, done + {mid}) == off + {mid};
    } else {
      assert WentOff(s, w, done + {mid}) == off;
    }
    if mid in w.up && !s.machines[mid].enabled {
      assert WentOn(s, w, done + {mid}) == on + {mid};
    } else {
      assert WentOn(s, w, done + {mid}) == on;
    }
  }

  lemma TallyMore(s: Store, w: World, done: set<nat>, mid: nat)
    requires mid in s.machines && mid !in done
    ensures var st, up, enabled := Tally(s, w, done), mid in w.up, s.machines[mid].enabled;
            Tally(s, w, done + {mid})
            == Stats(st.total + 1,
                     st.reachable + (if up then 1 else 0),
                     st.unreachable + (if up then 0 else 1),
                     st.disabled + (if !up && enabled then 1 else 0),
                     st.reEnabled + (if up && !enabled then 1 else 0))
  {
    SplitMore(done, w.up, mid);
    WentMore(s, w, done, mid);
  }

  /** The body of a worker's loop, for one machine of the snapshot. */
  method CheckMachine(d: Database, mid: nat, enabled: bool, w: World, st: Stats, ghost s: Store, ghost done: set<nat>)
      returns (after: Stats)
    requires mid in s.machines && mid !in done && enabled == s.machines[mid].enabled
    requires d.View() == CheckedSome(s, w, done)
    modifies d`machines, d`rows
    ensures d.View() == CheckedSome(s, w, done + {mid})
    ensures st == Tally(s, w, done) ==> after == Tally(s, w, done + {mid})
  {
    TallyMore(s, w, done, mid);
    after := st.(total := st.total + 1);
    if mid in w.up {
      d.TouchMachineLastSeen(mid, w.now);
      var changed := d.EnableIfDisabled(mid);
      if changed {
        after := after.(reEnabled := after.reEnabled + 1);
        CameBack(s, w, done, mid);
        OpportunisticCleanup(d, mid, w);
      } else {
        StayedUp(s, w, done, mid);
      }
      after := after.(reachable := after.reachable + 1);
    } else {
      WentDown(s, w, done, mid);
      if enabled {
        d.SetMachineEnabled(mid, false);
        after := after.(disabled := after.disabled + 1);
      }
      after := after.(unreachable := after.unreachable + 1);
    }
  }

  lemma NextJob(jobs: seq<nat>, all: set<nat>, k: nat)
    requires Ascending(jobs, all) && k < |jobs|
    ensures jobs[k] in all && jobs[k] !in Elements(jobs[..k])
    ensures Elements(jobs[..k + 1]) == Elements(jobs[..k]) + {jobs[k]}
  {
    assert jobs[k] in jobs;
    assert jobs[..k + 1] == jobs[..k] + [jobs[k]];
  }

  lemma AllJobs(jobs: seq<nat>, all: set<nat>)
    requires Ascending(jobs, all)
    ensures Elements(jobs[..|jobs|]) == all
  {
    assert jobs[..|jobs|] == jobs;
  }

  /** The pass with a single worker: the tables and the counters every schedule of the pool ends with. */
  method RunOnce(d: Database, w: World) returns (st: Stats)
    requires forall id :: id in d.rows ==> d.rows[id].machineId in d.machines
    modifies d`machines, d`rows
    ensures d.View() == Checked(old(d.View()), w)
    ensures st == Tally(old(d.View()), w, old(d.machines).Keys)
    ensures var all := old(d.machines).Keys;
            && st.total == |all| && st.reachable == |all * w.up| && st.unreachable == |all - w.up|
            && st.disabled == |set i | i in all && i !in w.up && old(d.machines)[i].enabled|
            && st.reEnabled == |set i | i in all && i in w.up && !old(d.machines)[i].enabled|
  {
    ghost var s := d.View();
    var snapshot := d.machines;
    var jobs := Ascend(snapshot.Keys);
    st := Stats(0, 0, 0, 0, 0);
    CheckedSomeEnds(s, w);
    assert Elements(jobs[..0]) == {};
    NothingTallied(s, w);
    assert CheckedSome(s, w, s.machines.Keys) == Checked(s, w);
    for k := 0 to |jobs|
      invariant d.View() == CheckedSome(s, w, Elements(jobs[..k]))
      invariant st == Tally(s, w, Elements(jobs[..k]))
    {
      NextJob(jobs, s.machines.Keys, k);
      st := CheckMachine(d, jobs[k], snapshot[jobs[k]].enabled, w, st, s, Elements(jobs[..k]));
    }
    AllJobs(jobs, s.machines.Keys);
    WentInColumns(s, w);
  }

  lemma WentInColumns(s: Store, w: World)
    ensures WentOff(s, w, s.machines.Keys) == set i | i in s.machines.Keys && i !in w.up && s.machines[i].enabled
    ensures WentOn(s, w, s.machines.Keys) == set i | i in s.machines.Keys && i in w.up && !s.machines[i].enabled
  {
  }

  lemma NothingTallied(s: Store, w: World)
    ensures Tally(s, w, {}) == Stats(0, 0, 0, 0, 0)
  {
    var none: set<nat> := {};
    assert none * w.up == none && none - w.up == none;
    assert WentOff(s, w, none) == none && WentOn(s, w, none) == none;
  }

  // ---------- Cleanup, then health ----------

  /** Cleanup and health together drain expiry: a reservation that had expired at the start is
      still there afterwards if and only if neither attempt succeeded: the batch delete, made
      when its machine was enabled, and the delete on re-enabling, made when the machine was down,
      or disabled for the failed batch delete, and answers. */
  lemma DrainsExpired(s: Store, w: World, o: C.Outcomes, id: nat)
    requires RowsOk(s, w.now) && id in s.rows && s.rows[id].until.Some? && s.rows[id].until.value <= w.now
    ensures s.rows[id].machineId in s.machines
    ensures var mid, clean := s.rows[id].machineId, C.Cleaned(s, o, ExpiredIds(s, w.now));
            id in Checked(clean, w).rows <==>
              && !(s.machines[mid].enabled && o.recap(s.rows[id].username, s.machines[mid].name) == C.Ok)
              && !((!s.machines[mid].enabled || !o.unmarked(id)) && mid in w.up && id in w.wiped)
  {
    var clean := C.Cleaned(s, o, ExpiredIds(s, w.now));
    var mid := s.rows[id].machineId;
    assert RowFormed(s, id);
    C.CleanedKeepsOwnership(s, w.now, o, ExpiredIds(s, w.now));
    if !s.machines[mid].enabled {
      forall other | other in ExpiredIds(s, w.now) ensures s.rows[other].machineId != mid {
      }
      assert !C.Touches(s, ExpiredIds(s, w.now), mid);
    } else {
      assert id in ExpiredIds(s, w.now);
    }
  }

  /** The health pass frees a machine only together with its row, so ownership holds after it. */
  lemma CheckedKeepsRows(s: Store, w: World)
    requires RowsOk(s, w.now)
    ensures RowsOk(Checked(s, w), w.now)
  {
    var t := Checked(s, w);
    forall r | r in t.rows ensures RowFormed(t, r) && RowHeld(t, r) && RowPooled(t, r) {
      assert RowFormed(s, r) && RowHeld(s, r) && RowPooled(s, r);
      assert !Frees(s, w, s.rows[r].machineId);
    }
  }
}
