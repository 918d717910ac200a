/** The shared database as an object: its tables are fields, and each method is a query or
    a statement of the API or the scheduler, executed in place.
 */
module Storage {
  import opened Wrappers
  import opened Tables
  import opened Sets
  import opened Selection
  import opened Protocol

  datatype ExpiredRow = ExpiredRow(resId: nat, mid: nat, user: string, name: string)

  class Database {
    const users: map<string, nat>
    var machines: map<nat, Machine>
    var rows: map<nat, Row>
    var nextRow: nat

    function View(): Store
      reads this
    {
      Store(users, machines, rows, nextRow)
    }

    constructor (s: Store)
      ensures View() == s
    {
      users, machines, rows, nextRow := s.users, s.machines, s.rows, s.nextRow;
    }

    // ---------- Queries ----------

    /** ORDER BY reserve_fail_count, id LIMIT 1 */
    method SelectOne(pool: set<nat>, desc: bool) returns (x: nat)
      requires pool <= machines.Keys && pool != {}
      ensures x == First(View(), pool, desc)
      ensures x in pool && forall y :: y in pool ==>
                if desc then machines[y].failCount < machines[x].failCount || (machines[y].failCount == machines[x].failCount && y <= x)
                else machines[x].failCount < machines[y].failCount || (machines[x].failCount == machines[y].failCount && x <= y)
    {
      x :| x in pool;
      var rest := pool - {x};
      while rest != {}
        invariant rest < pool && x in pool && x !in rest
        invariant forall y :: y in pool && y !in rest ==> Before(View(), x, y, desc)
        decreases |rest|
      {
        var y :| y in rest;
        if Before(View(), y, x, desc) {
          x := y;
        }
        rest := rest - {y};
      }
      FirstUnique(View(), pool, x, First(View(), pool, desc), desc);
    }

    /** ORDER BY reserve_fail_count, id LIMIT n */
    method Select(pool: set<nat>, limit: nat, desc: bool) returns (ids: seq<nat>)
      requires pool <= machines.Keys
      ensures Lists(ids, Take(View(), pool, limit, desc)) && Ordered(View(), ids, desc)
      ensures |ids| == (if limit < |pool| then limit else |pool|) && forall k :: 0 <= k < |ids| ==> ids[k] in pool
      ensures forall k, y :: 0 <= k < |ids| && y in pool && (y in ids ==> y in ids[k..]) ==>
                if desc then machines[y].failCount < machines[ids[k]].failCount
                             || (machines[y].failCount == machines[ids[k]].failCount && y <= ids[k])
                else machines[ids[k]].failCount < machines[y].failCount
                     || (machines[ids[k]].failCount == machines[y].failCount && ids[k] <= y)
    {
      ids := [];
      var rest, left := pool, limit;
      ghost var taken: set<nat> := {};
      while left > 0 && rest != {}
        invariant rest <= pool && taken !! rest
        invariant Lists(ids, taken) && Ordered(View(), ids, desc)
        invariant forall k, y :: 0 <= k < |ids| && y in rest ==> Before(View(), ids[k], y, desc)
        invariant Take(View(), pool, limit, desc) == taken + Take(View(), rest, left, desc)
        decreases left
      {
        var x := SelectOne(rest, desc);
        rest, left := rest - {x}, left - 1;
        ids, taken := ids + [x], taken + {x};
      }
      TakenInColumns(View(), pool, limit, desc, ids);
    }

    method LoadExpired(now: Time) returns (out: seq<ExpiredRow>)
      ensures |out| == |ExpiredIds(View(), now)|
      ensures forall i, j :: 0 <= i < j < |out| ==> out[i].resId < out[j].resId
      ensures forall id :: id in ExpiredIds(View(), now) ==> exists k :: 0 <= k < |out| && out[k].resId == id
      ensures forall k :: 0 <= k < |out| ==> IsExpiredRow(View(), now, out[k])
      ensures forall k :: 0 <= k < |out| ==>
                && out[k].resId in rows && rows[out[k].resId].until.Some? && rows[out[k].resId].until.value <= now
                && out[k].mid == rows[out[k].resId].machineId && out[k].user == rows[out[k].resId].username
                && out[k].mid in machines && machines[out[k].mid].enabled && out[k].name == machines[out[k].mid].name
      ensures forall id :: id in rows && rows[id].until.Some? && rows[id].until.value <= now
                           && rows[id].machineId in machines && machines[rows[id].machineId].enabled ==>
                exists k :: 0 <= k < |out| && out[k].resId == id
    {
      var ids := Ascend(ExpiredIds(View(), now));
      out := Shape(ids, now);
      forall id | id in ExpiredIds(View(), now) ensures exists k :: 0 <= k < |out| && out[k].resId == id {
        assert id in ids;
        var k :| 0 <= k < |ids| && ids[k] == id;
        assert out[k].resId == id;
      }
      assert forall id :: id in rows && rows[id].until.Some? && rows[id].until.value <= now
                          && rows[id].machineId in machines && machines[rows[id].machineId].enabled ==>
                            id in ExpiredIds(View(), now);
    }

    method LoadExpiredForMachine(mid: nat, now: Time) returns (out: seq<ExpiredRow>)
      ensures forall i, j :: 0 <= i < j < |out| ==> out[i].resId < out[j].resId
      ensures forall id :: id in ExpiredIds(View(), now) && rows[id].machineId == mid ==>
                exists k :: 0 <= k < |out| && out[k].resId == id
      ensures forall k :: 0 <= k < |out| ==> IsExpiredRow(View(), now, out[k]) && out[k].mid == mid
      ensures forall k :: 0 <= k < |out| ==>
                && out[k].resId in rows && rows[out[k].resId].until.Some? && rows[out[k].resId].until.value <= now
                && rows[out[k].resId].machineId == mid && out[k].user == rows[out[k].resId].username
                && mid in machines && machines[mid].enabled && out[k].name == machines[mid].name
      ensures forall id :: id in rows && rows[id].until.Some? && rows[id].until.value <= now
                           && rows[id].machineId == mid && mid in machines && machines[mid].enabled ==>
                exists k :: 0 <= k < |out| && out[k].resId == id
    {
      var pool := set id | id in ExpiredIds(View(), now) && rows[id].machineId == mid;
      var ids := Ascend(pool);
      out := Shape(ids, now);
      forall id | id in ExpiredIds(View(), now) && rows[id].machineId == mid
        ensures exists k :: 0 <= k < |out| && out[k].resId == id
      {
        assert id in pool && id in ids;
        var k :| 0 <= k < |ids| && ids[k] == id;
        assert out[k].resId == id;
      }
      assert forall id :: id in rows && rows[id].until.Some? && rows[id].until.value <= now
                          && rows[id].machineId == mid && mid in machines && machines[mid].enabled ==>
                            id in ExpiredIds(View(), now);
    }

    /** Joins the listed rows with their machines. */
    method Shape(ids: seq<nat>, now: Time) returns (out: seq<ExpiredRow>)
      requires forall k :: 0 <= k < |ids| ==> ExpiredOnline(View(), now, ids[k])
      ensures |out| == |ids|
      ensures forall k :: 0 <= k < |ids| ==> out[k].resId == ids[k] && IsExpiredRow(View(), now, out[k])
    {
      out := [];
      for k := 0 to |ids|
        invariant |out| == k
        invariant forall j :: 0 <= j < k ==> out[j].resId == ids[j] && IsExpiredRow(View(), now, out[j])
      {
        var r := rows[ids[k]];
        out := out + [ExpiredRow(ids[k], r.machineId, r.username, machines[r.machineId].name)];
      }
    }

    // ---------- Statements ----------

    /** Frees the machines and deletes the rows of the given pairs, in one transaction. */
    method ClearReservationsAndRelease(pairs: seq<(nat, nat)>)
      modifies this`machines, this`rows
      ensures View() == ClearPairs(old(View()), pairs)
    {
      for k := 0 to |pairs|
        invariant View() == ClearPairs(old(View()), pairs[..k])
      {
        assert pairs[..k + 1][..k] == pairs[..k];
        Clear(pairs[k].0, pairs[k].1);
      }
      assert pairs[..|pairs|] == pairs;
    }

    method Clear(resId: nat, mid: nat)
      modifies this`machines, this`rows
      ensures View() == ClearRow(old(View()), resId, mid)
      ensures rows == old(rows) - {resId} && machines.Keys == old(machines).Keys
      ensures forall i :: i in machines ==>
                machines[i] == if i == mid then old(machines)[i].(reserved := false, reservedBy := None, reservedUntil := None)
                               else old(machines)[i]
    {
      if mid in machines {
        machines := machines[mid := Freed(machines[mid])];
      }
      rows := rows - {resId};
      assert machines == FreeMachines(old(View()), {mid}).machines;
    }

    method TouchMachineLastSeen(id: nat, now: Time)
      modifies this`machines
      ensures View() == Touch(old(View()), id, now)
      ensures machines == if id in old(machines) then old(machines)[id := old(machines)[id].(lastSeen := Some(now))] else old(machines)
    {
      if id in machines {
        machines := machines[id := machines[id].(lastSeen := Some(now))];
      }
    }

    method SetMachineEnabled(id: nat, enabled: bool)
      modifies this`machines
      ensures View() == SetEnabled(old(View()), id, enabled)
      ensures machines == if id in old(machines) then old(machines)[id := old(machines)[id].(enabled := enabled)] else old(machines)
    {
      if id in machines {
        machines := machines[id := machines[id].(enabled := enabled)];
      }
    }

    /** Enables a disabled machine, and says whether a row changed. */
    method EnableIfDisabled(id: nat) returns (changed: bool)
      modifies this`machines
      ensures changed <==> id in old(machines) && !old(machines)[id].enabled
      ensures View() == SetEnabled(old(View()), id, true)
      ensures machines == if changed then old(machines)[id := old(machines)[id].(enabled := true)] else old(machines)
    {
      changed := id in machines && !machines[id].enabled;
      if changed {
        machines := machines[id := machines[id].(enabled := true)];
      } else if id in machines {
        assert machines[id := machines[id].(enabled := true)] == machines;
      }
    }

    method HoldAll(ids: seq<nat>, user: string, until: Option<Time>)
      requires forall k :: 0 <= k < |ids| ==> ids[k] in machines
      modifies this`machines
      ensures View() == HoldMachines(old(View()), Elements(ids), user, until)
      ensures machines.Keys == old(machines).Keys && forall i :: i in machines ==>
                machines[i] == if i in ids && !old(machines)[i].reserved
                               then old(machines)[i].(reserved := true, reservedBy := Some(user), reservedUntil := until)
                               else old(machines)[i]
    {
      for k := 0 to |ids|
        invariant machines == HoldMachines(old(View()), Elements(ids[..k]), user, until).machines
      {
        if !machines[ids[k]].reserved {
          machines := machines[ids[k] := Held(machines[ids[k]], user, until)];
        }
        assert ids[..k + 1] == ids[..k] + [ids[k]];
      }
      assert ids[..|ids|] == ids;
    }

    method FreeAll(ids: seq<nat>)
      requires forall k :: 0 <= k < |ids| ==> ids[k] in machines
      modifies this`machines
      ensures View() == FreeMachines(old(View()), Elements(ids))
      ensures machines.Keys == old(machines).Keys && forall i :: i in machines ==>
                machines[i] == if i in ids then old(machines)[i].(reserved := false, reservedBy := None, reservedUntil := None)
                               else old(machines)[i]
    {
      for k := 0 to |ids|
        invariant machines == FreeMachines(old(View()), Elements(ids[..k])).machines
      {
        machines := machines[ids[k] := Freed(machines[ids[k]])];
        assert ids[..k + 1] == ids[..k] + [ids[k]];
      }
      assert ids[..|ids|] == ids;
    }

    /** The SET list runs left to right: the quarantine is computed from the raised count. */
    method ChargeAll(ids: seq<nat>, now: Time)
      requires Distinct(ids) && forall k :: 0 <= k < |ids| ==> ids[k] in machines
      modifies this`machines
      ensures View() == ChargeMachines(old(View()), Elements(ids), now)
      ensures machines.Keys == old(machines).Keys && forall i :: i in machines ==>
                var m := old(machines)[i];
                machines[i] == if i in ids
                  then m.(reserved := false, reservedBy := None, reservedUntil := None, failCount := m.failCount + 1,
                          quarantineUntil := Some(now + 60 * if m.failCount < 10 then 5 * (m.failCount + 2) else 60))
                  else m
    {
      for k := 0 to |ids|
        invariant machines == ChargeMachines(old(View()), Elements(ids[..k]), now).machines
      {
        assert ids[k] !in ids[..k];
        var m := Freed(machines[ids[k]]);
        m := m.(failCount := m.failCount + 1);
        m := m.(quarantineUntil := Some(now + Window(m.failCount)));
        machines := machines[ids[k] := m];
        assert ids[..k + 1] == ids[..k] + [ids[k]];
      }
      assert ids[..|ids|] == ids;
    }

    method Insert(r: Row)
      modifies this`rows, this`nextRow
      ensures View() == InsertRow(old(View()), r)
      ensures rows == old(rows)[old(nextRow) := r] && nextRow == old(nextRow) + 1
    {
      rows := rows[nextRow := r];
      nextRow := nextRow + 1;
    }

    method InsertAll(mids: seq<nat>, user: string, until: Time, hash: string)
      requires user in users
      modifies this`rows, this`nextRow
      ensures View() == InsertRows(old(View()), mids, user, until, hash)
    {
      for k := 0 to |mids|
        invariant InsertRows(View(), mids[k..], user, until, hash) == InsertRows(old(View()), mids, user, until, hash)
      {
        Insert(Row(mids[k], users[user], user, Some(until), Some(hash), None));
        assert mids[k..][1..] == mids[k + 1..];
      }
    }
  }

  predicate IsExpiredRow(s: Store, now: Time, x: ExpiredRow) {
    && ExpiredOnline(s, now, x.resId)
    && x.mid == s.rows[x.resId].machineId && x.user == s.rows[x.resId].username && x.name == s.machines[x.mid].name
  }

  method Least(ids: set<nat>) returns (x: nat)
    requires ids != {}
    ensures x in ids && forall y :: y in ids ==> x <= y
  {
    x :| x in ids;
    var others := ids - {x};
    while others != {}
      invariant others < ids && x in ids && x !in others
      invariant forall y :: y in ids && y !in others ==> x <= y
      decreases |others|
    {
      var y :| y in others;
      if y < x {
        x := y;
      }
      others := others - {y};
    }
  }

  /** Where the loop of Ascend stands: `q` lists `done`, and what is left comes later. */
  ghost predicate Ascended(q: seq<nat>, done: set<nat>, rest: set<nat>) {
    Ascending(q, done) && forall x, y :: x in done && y in rest ==> x < y
  }

  lemma AscendMore(q: seq<nat>, done: set<nat>, rest: set<nat>, x: nat)
    requires Ascended(q, done, rest) && x in rest && forall y :: y in rest ==> x <= y
    ensures Ascended(q + [x], done + {x}, rest - {x})
  {
    forall i | 0 <= i < |q| ensures q[i] < x {
      assert q[i] in q;
    }
  }

  /** ORDER BY id ASC */
  method Ascend(ids: set<nat>) returns (q: seq<nat>)
    ensures Ascending(q, ids) && |q| == |ids|
    ensures forall k :: 0 <= k < |q| ==> q[k] in ids
  {
    q := [];
    var rest := ids;
    ghost var done: set<nat> := {};
    while rest != {}
      invariant done + rest == ids
      invariant Ascended(q, done, rest)
      decreases |rest|
    {
      var x := Least(rest);
      AscendMore(q, done, rest, x);
      q := q + [x];
      rest, done := rest - {x}, done + {x};
    }
    assert done == ids;
    AscendingLists(q, ids);
  }

  lemma AscendingLists(q: seq<nat>, ids: set<nat>)
    requires Ascending(q, ids)
    ensures Lists(q, ids) && |q| == |ids|
    ensures forall k :: 0 <= k < |q| ==> q[k] in ids
  {
    ListSize(q, ids);
    forall k | 0 <= k < |q| ensures q[k] in ids {
      assert q[k] in q;
    }
  }
}
