/** The API's List: which reservations a caller sees, newest first. */
module ListHandler {
  import opened Wrappers
  import opened Tables
  import opened Ownership
  import opened Storage
  import opened Visibility

  /** One entry; `seconds` is what is left, never below zero. */
  datatype Entry = Entry(id: nat, username: string, until: Option<Time>, seconds: nat)

  predicate Shown(s: Store, id: nat, user: string, admin: bool) {
    id in s.rows && s.rows[id].machineId in s.machines && (admin || Visible(s, id, user))
  }

  function SecondsLeft(r: Row, now: Time): nat {
    if r.until.Some? && r.until.value > now then r.until.value - now else 0
  }

  method List(d: Database, user: string, admin: bool, now: Time) returns (out: seq<Entry>)
    ensures forall i, j :: 0 <= i < j < |out| ==> out[i].id > out[j].id
    ensures forall k :: 0 <= k < |out| ==>
              && Shown(d.View(), out[k].id, user, admin)
              && out[k] == Entry(out[k].id, d.rows[out[k].id].username, d.rows[out[k].id].until,
                                 SecondsLeft(d.rows[out[k].id], now))
    ensures forall id :: Shown(d.View(), id, user, admin) ==> exists k :: 0 <= k < |out| && out[k].id == id
    ensures forall k :: 0 <= k < |out| ==>
              && out[k].id in d.rows && d.rows[out[k].id].machineId in d.machines
              && var row, m := d.rows[out[k].id], d.machines[d.rows[out[k].id].machineId];
                 && (admin || (row.username == user && m.enabled && (m.sparePool ==> row.replacementFor.Some?)))
                 && out[k].username == row.username && out[k].until == row.until
                 && out[k].seconds == if row.until.Some? && row.until.value > now then row.until.value - now else 0
    ensures admin ==> forall id :: id in d.rows && d.rows[id].machineId in d.machines ==>
                        exists k :: 0 <= k < |out| && out[k].id == id
    ensures forall id :: id in d.rows && d.rows[id].username == user
                         && d.rows[id].machineId in d.machines && d.machines[d.rows[id].machineId].enabled
                         && (d.machines[d.rows[id].machineId].sparePool ==> d.rows[id].replacementFor.Some?) ==>
              exists k :: 0 <= k < |out| && out[k].id == id
  {
    var pool := set id | id in d.rows && Shown(d.View(), id, user, admin);
    var ids := Ascend(pool);
    out := [];
    var k := |ids|;
    while k > 0
      invariant 0 <= k <= |ids| && |out| == |ids| - k
      invariant forall j :: 0 <= j < |out| ==>
                  && out[j].id == ids[|ids| - 1 - j]
                  && out[j] == Entry(out[j].id, d.rows[out[j].id].username, d.rows[out[j].id].until,
                                     SecondsLeft(d.rows[out[j].id], now))
    {
      k := k - 1;
      var row := d.rows[ids[k]];
      var seconds := 0;
      if row.until.Some? && row.until.value > now {
        seconds := row.until.value - now;
      }
      out := out + [Entry(ids[k], row.username, row.until, seconds)];
    }
    forall id | Shown(d.View(), id, user, admin) ensures exists k :: 0 <= k < |out| && out[k].id == id {
      assert id in pool && id in ids;
      var j :| 0 <= j < |ids| && ids[j] == id;
      assert out[|ids| - 1 - j].id == id;
    }
    ShownInColumns(d.View(), user, admin);
  }

  /** An admin sees every row with a machine; anybody else his own rows on enabled machines that
      are no spares, or replacements. */
  lemma ShownInColumns(s: Store, user: string, admin: bool)
    ensures forall id :: Shown(s, id, user, admin) <==>
              && id in s.rows && s.rows[id].machineId in s.machines
              && (admin || (&& s.rows[id].username == user && s.machines[s.rows[id].machineId].enabled
                            && (s.machines[s.rows[id].machineId].sparePool ==> s.rows[id].replacementFor.Some?)))
  {
  }

  function LiveIds(out: seq<Entry>): set<nat> {
    set k | 0 <= k < |out| && out[k].seconds > 0 :: out[k].id
  }

  /** In the rows of the protocol, a non-admin's entries with time left are the rows he is counted to see. */
  lemma LiveEntriesAreSeen(s: Store, now: Time, user: string, out: seq<Entry>)
    requires RowsOk(s, now)
    requires forall k :: 0 <= k < |out| ==>
               && Shown(s, out[k].id, user, false) && out[k].seconds == SecondsLeft(s.rows[out[k].id], now)
    requires forall id :: Shown(s, id, user, false) ==> exists k :: 0 <= k < |out| && out[k].id == id
    ensures LiveIds(out) == Seen(s, now, user)
  {
    forall id | id in Seen(s, now, user) ensures id in LiveIds(out) {
      assert Shown(s, id, user, false) && RowFormed(s, id);
      var k :| 0 <= k < |out| && out[k].id == id;
      assert out[k].seconds > 0;
    }
  }
}
