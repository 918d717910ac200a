/** The API's Create: reserve first, run the playbook outside any transaction, then insert
    the rows or undo the reservation.
 */
module CreateHandler {
  import opened Wrappers
  import opened Tables
  import opened Sets
  import opened Selection
  import opened Storage

  /** How the part between the two transactions ends. */
  datatype Provision =
    | LoadFailed
    | InventoryFailed
    | Hashed(hash: string, playbook: bool, commit: bool)

  /** Which transactions fail and roll back: the reserve transaction at its select, or at its
      update or commit; and the one that undoes the reservation, whose errors are ignored. */
  datatype Faults = Faults(select: bool, update: bool, revert: bool)

  datatype Response =
    | BadRequest
    | ServerError
    | NotEnough(available: nat)
    | PlaybookFailed
    | Created(mids: seq<nat>, until: Time)

  datatype Request = Request(user: string, count: int, minutes: int, blankPassword: bool, namesUser: bool)

  predicate Acceptable(r: Request) {
    r.count > 0 && r.minutes > 0 && !r.blankPassword && !r.namesUser
  }

  /** The machines a request gets: the least failing eligible ones. */
  ghost function Chosen(s: Store, now: Time, count: nat): set<nat> {
    Take(s, EligibleIds(s, now), count, false)
  }

  function Until(r: Request, now: Time): Time
    requires Acceptable(r)
  {
    now + 60 * r.minutes
  }

  /** A request that reaches the playbook stage, unless its reserve transaction fails. */
  predicate Reserves(s: Store, now: Time, r: Request) {
    Acceptable(r) && r.user in s.users && |EligibleIds(s, now)| >= r.count
  }

  predicate Holds(s: Store, now: Time, r: Request, f: Faults) {
    Reserves(s, now, r) && !f.select && !f.update
  }

  predicate Succeeds(o: Provision) {
    o.Hashed? && o.hash != "" && o.playbook && o.commit
  }

  /** The playbook was run and failed: the only ending that charges the machines. */
  predicate Charges(o: Provision) {
    o.Hashed? && o.hash != "" && !o.playbook
  }

  /** The tables after an undisturbed request that got its machines. */
  ghost function AfterCreate(s: Store, now: Time, later: Time, r: Request, o: Provision, f: Faults, order: seq<nat>): Store
    requires Reserves(s, now, r)
  {
    var ids := Chosen(s, now, r.count);
    var held := HoldMachines(s, ids, r.user, Some(Until(r, now)));
    if Succeeds(o) then InsertRows(held, order, r.user, Until(r, now), o.hash)
    else if f.revert then held
    else if Charges(o) then ChargeMachines(held, ids, later)
    else FreeMachines(held, ids)
  }

  datatype Reservation = Taken(ids: seq<nat>) | TooFew(available: nat) | NotReserved

  /** The reserve transaction: lock and mark `count` machines, or roll back. */
  method ReserveMachines(d: Database, user: string, count: nat, until: Time, now: Time, f: Faults) returns (res: Reservation)
    modifies d`machines
    ensures res.TooFew? <==> !f.select && |EligibleIds(old(d.View()), now)| < count
    ensures res.TooFew? ==> res.available == |EligibleIds(old(d.View()), now)|
    ensures res.Taken? <==> !f.select && !f.update && |EligibleIds(old(d.View()), now)| >= count
    ensures !res.Taken? ==> d.View() == old(d.View())
    ensures res.Taken? ==>
              && Lists(res.ids, Chosen(old(d.View()), now, count))
              && d.View() == HoldMachines(old(d.View()), Chosen(old(d.View()), now, count), user, Some(until))
  {
    if f.select {
      return NotReserved;
    }
    var pool := EligibleIds(d.View(), now);
    var ids := d.Select(pool, count, false);
    TakeIsTake(d.View(), pool, count, false);
    ListSize(ids, Chosen(d.View(), now, count));
    if |ids| < count {
      return TooFew(|ids|);
    }
    if f.update {
      return NotReserved;
    }
    forall k | 0 <= k < |ids| ensures ids[k] in d.machines {
      assert ids[k] in ids;
    }
    assert Elements(ids) == Chosen(d.View(), now, count);
    d.HoldAll(ids, user, Some(until));
    res := Taken(ids);
  }

  /** Undoes the reservation; if that fails the machines stay held. */
  method Revert(d: Database, ids: seq<nat>, fails: bool)
    requires forall k :: 0 <= k < |ids| ==> ids[k] in d.machines
    modifies d`machines
    ensures d.View() == if fails then old(d.View()) else FreeMachines(old(d.View()), Elements(ids))
  {
    if !fails {
      d.FreeAll(ids);
    }
  }

  /** Everything after the reserve transaction has committed. `later` is the clock when the
      playbook has failed. */
  method Conclude(d: Database, ids: seq<nat>, user: string, until: Time, o: Provision, f: Faults, later: Time)
      returns (res: Response, ghost order: seq<nat>)
    requires user in d.users && Distinct(ids) && forall k :: 0 <= k < |ids| ==> ids[k] in d.machines
    modifies d
    ensures Ascending(order, Elements(ids))
    ensures d.View() == if Succeeds(o) then InsertRows(old(d.View()), order, user, until, o.hash)
                        else if f.revert then old(d.View())
                        else if Charges(o) then ChargeMachines(old(d.View()), Elements(ids), later)
                        else FreeMachines(old(d.View()), Elements(ids))
    ensures res == if Succeeds(o) then Created(order, until) else if Charges(o) then PlaybookFailed else ServerError
  {
    var reserved := Ascend(Elements(ids));
    order := reserved;
    if o.LoadFailed? || o.InventoryFailed? {
      Revert(d, ids, f.revert);
      res := ServerError;
    } else if o.hash == "" {
      Revert(d, ids, f.revert);
      res := ServerError;
    } else if !o.playbook {
      if !f.revert {
        d.ChargeAll(ids, later);
      }
      res := PlaybookFailed;
    } else if !o.commit {
      Revert(d, ids, f.revert);
      res := ServerError;
    } else {
      d.InsertAll(reserved, user, until, o.hash);
      res := Created(reserved, until);
    }
  }

  /** Free ordinary machines that are up and not in quarantine. */
  lemma FreeInColumns(s: Store, now: Time)
    ensures EligibleIds(s, now)
            == set i | i in s.machines && s.machines[i].enabled && s.machines[i].online
                       && !s.machines[i].reserved && !s.machines[i].sparePool
                       && (s.machines[i].quarantineUntil.Some? ==> s.machines[i].quarantineUntil.value <= now)
  {
  }

  method Create(d: Database, r: Request, now: Time, later: Time, o: Provision, f: Faults)
      returns (res: Response, ghost order: seq<nat>)
    modifies d
    ensures !Acceptable(r) ==> res == BadRequest
    ensures Acceptable(r) && (r.user !in d.users || f.select) ==> res == ServerError
    ensures Acceptable(r) && r.user in d.users && !f.select && |EligibleIds(old(d.View()), now)| < r.count ==>
              res == NotEnough(|EligibleIds(old(d.View()), now)|)
    ensures Reserves(old(d.View()), now, r) && !f.select && f.update ==> res == ServerError
    ensures !Holds(old(d.View()), now, r, f) ==> d.View() == old(d.View())
    ensures Holds(old(d.View()), now, r, f) ==>
              && Ascending(order, Chosen(old(d.View()), now, r.count))
              && d.View() == AfterCreate(old(d.View()), now, later, r, o, f, order)
              && res == (if Succeeds(o) then Created(order, Until(r, now))
                         else if Charges(o) then PlaybookFailed else ServerError)
    ensures res.BadRequest? <==> r.count <= 0 || r.minutes <= 0 || r.blankPassword || r.namesUser
    ensures var free := set i | i in old(d.machines)
                                && old(d.machines)[i].enabled && old(d.machines)[i].online
                                && !old(d.machines)[i].reserved && !old(d.machines)[i].sparePool
                                && (old(d.machines)[i].quarantineUntil.Some? ==> old(d.machines)[i].quarantineUntil.value <= now);
            !res.BadRequest? ==>
              res == if r.user !in d.users || f.select then ServerError
                     else if |free| < r.count then NotEnough(|free|)
                     else if f.update || !o.Hashed? || o.hash == "" then ServerError
                     else if !o.playbook then PlaybookFailed
                     else if !o.commit then ServerError
                     else Created(order, now + 60 * r.minutes)
  {
    FreeInColumns(d.View(), now);
    order := [];
    if r.count <= 0 || r.minutes <= 0 || r.blankPassword || r.namesUser {
      return BadRequest, order;
    }
    if r.user !in d.users {
      return ServerError, order;
    }
    var until := now + 60 * r.minutes;
    ghost var chosen := Chosen(d.View(), now, r.count);
    var taken := ReserveMachines(d, r.user, r.count, until, now, f);
    if taken.NotReserved? {
      return ServerError, order;
    }
    if taken.TooFew? {
      return NotEnough(taken.available), order;
    }
    assert Elements(taken.ids) == chosen;
    forall k | 0 <= k < |taken.ids| ensures taken.ids[k] in d.machines {
      assert taken.ids[k] in taken.ids;
    }
    res, order := Conclude(d, taken.ids, r.user, until, o, f, later);
  }

  /** Unreserved machines carry no owner's columns. */
  predicate CleanWhenFree(s: Store) {
    forall i :: i in s.machines && !s.machines[i].reserved ==>
      s.machines[i].reservedBy.None? && s.machines[i].reservedUntil.None?
  }

  /** Machine i after a request that failed. */
  ghost function AfterFailure(s: Store, now: Time, later: Time, r: Request, o: Provision, f: Faults, i: nat): Machine
    requires Reserves(s, now, r) && i in s.machines
  {
    var m := s.machines[i];
    if i !in Chosen(s, now, r.count) then m
    else if f.revert then Held(m, r.user, Some(Until(r, now)))
    else if Charges(o) then m.(failCount := m.failCount + 1, quarantineUntil := Some(later + Window(m.failCount + 1)))
    else m
  }

  lemma FailedMachine(s: Store, now: Time, later: Time, r: Request, o: Provision, f: Faults, order: seq<nat>, i: nat)
    requires Reserves(s, now, r) && CleanWhenFree(s) && !Succeeds(o) && i in s.machines
    ensures var t := AfterCreate(s, now, later, r, o, f, order);
            t.machines.Keys == s.machines.Keys && t.machines[i] == AfterFailure(s, now, later, r, o, f, i)
  {
    assert i in Chosen(s, now, r.count) ==> i in EligibleIds(s, now);
  }

  /** A failure leaves the tables as they were, except that a failed playbook raises the fail
      count of exactly the chosen machines by one and quarantines them; but if undoing the
      reservation fails as well, the chosen machines stay held, with no row. */
  lemma FailureRestores(s: Store, now: Time, later: Time, r: Request, o: Provision, f: Faults, order: seq<nat>)
    requires Reserves(s, now, r) && CleanWhenFree(s) && !Succeeds(o)
    ensures var t := AfterCreate(s, now, later, r, o, f, order);
            && t.rows == s.rows && t.nextRow == s.nextRow && t.users == s.users && t.machines.Keys == s.machines.Keys
            && (t == s <==> !f.revert && !Charges(o))
            && forall i :: i in s.machines ==> t.machines[i] == AfterFailure(s, now, later, r, o, f, i)
  {
    var t := AfterCreate(s, now, later, r, o, f, order);
    forall i | i in s.machines ensures t.machines[i] == AfterFailure(s, now, later, r, o, f, i) {
      FailedMachine(s, now, later, r, o, f, order, i);
    }
    RestoredIff(s, t, now, later, r, o, f);
  }

  lemma RestoredIff(s: Store, t: Store, now: Time, later: Time, r: Request, o: Provision, f: Faults)
    requires Reserves(s, now, r) && t.machines.Keys == s.machines.Keys && t == s.(machines := t.machines)
    requires forall i :: i in s.machines ==> t.machines[i] == AfterFailure(s, now, later, r, o, f, i)
    ensures t == s <==> !f.revert && !Charges(o)
  {
    if !f.revert && !Charges(o) {
      assert t.machines == s.machines;
    } else {
      TakeIsTake(s, EligibleIds(s, now), r.count, false);
      var i :| i in Chosen(s, now, r.count);
      assert i in EligibleIds(s, now) && t.machines[i] != s.machines[i];
    }
  }

  /** The rows and machines of a request that got its machines. */
  ghost predicate Booked(s: Store, t: Store, now: Time, r: Request, hash: string, order: seq<nat>)
    requires Reserves(s, now, r)
  {
    var ids := Chosen(s, now, r.count);
    && t.nextRow == s.nextRow + r.count && |order| == r.count
    && (forall id :: id in s.rows ==> id in t.rows && t.rows[id] == s.rows[id])
    && (forall id :: id in t.rows && id !in s.rows <==> s.nextRow <= id < t.nextRow)
    && (forall k :: 0 <= k < r.count ==>
          t.rows[s.nextRow + k] == Row(order[k], s.users[r.user], r.user, Some(Until(r, now)), Some(hash), None))
    && t.machines.Keys == s.machines.Keys
    && forall i :: i in s.machines ==>
         t.machines[i] == if i in ids then Held(s.machines[i], r.user, Some(Until(r, now))) else s.machines[i]
  }

  /** The rows of a successful request, and the machines as the reserve transaction left them. */
  lemma BookedRows(s: Store, held: Store, t: Store, now: Time, r: Request, hash: string, order: seq<nat>)
    requires Reserves(s, now, r) && |order| == r.count
    requires forall id :: id in s.rows ==> id < s.nextRow
    requires held == HoldMachines(s, Chosen(s, now, r.count), r.user, Some(Until(r, now)))
    requires t == InsertRows(held, order, r.user, Until(r, now), hash)
    ensures Booked(s, t, now, r, hash, order)
  {
    InsertRowsContent(held, order, r.user, Until(r, now), hash);
    assert forall i :: i in EligibleIds(s, now) ==> !s.machines[i].reserved;
  }

  /** Success adds exactly `count` rows, one per chosen machine, with one common expiry; the
      chosen machines are the `count` eligible ones that come first by (fail count, id), and
      no other machine changes. */
  lemma SuccessReserves(s: Store, now: Time, later: Time, r: Request, o: Provision, f: Faults, order: seq<nat>)
    requires Reserves(s, now, r) && Succeeds(o) && Ascending(order, Chosen(s, now, r.count))
    requires forall id :: id in s.rows ==> id < s.nextRow
    ensures |Chosen(s, now, r.count)| == r.count
    ensures IsTake(s, EligibleIds(s, now), r.count, false, Chosen(s, now, r.count))
    ensures Booked(s, AfterCreate(s, now, later, r, o, f, order), now, r, o.hash, order)
  {
    var ids := Chosen(s, now, r.count);
    var held := HoldMachines(s, ids, r.user, Some(Until(r, now)));
    TakeIsTake(s, EligibleIds(s, now), r.count, false);
    AscendingLists(order, ids);
    BookedRows(s, held, AfterCreate(s, now, later, r, o, f, order), now, r, o.hash, order);
  }

  // ---------- In columns ----------

  /** Which machines a request takes: free, up, ordinary ones out of quarantine, and every such
      machine left out has failed more often, or as often and has a larger id. */
  lemma ChoiceInColumns(s: Store, now: Time, count: nat)
    requires |EligibleIds(s, now)| >= count
    ensures |Chosen(s, now, count)| == count
    ensures forall a :: a in Chosen(s, now, count) ==>
              && a in s.machines && s.machines[a].enabled && s.machines[a].online
              && !s.machines[a].reserved && !s.machines[a].sparePool
              && (s.machines[a].quarantineUntil.Some? ==> s.machines[a].quarantineUntil.value <= now)
    ensures forall a, b :: a in Chosen(s, now, count) && b !in Chosen(s, now, count)
                           && b in s.machines && s.machines[b].enabled && s.machines[b].online
                           && !s.machines[b].reserved && !s.machines[b].sparePool
                           && (s.machines[b].quarantineUntil.Some? ==> s.machines[b].quarantineUntil.value <= now) ==>
              || s.machines[a].failCount < s.machines[b].failCount
              || (s.machines[a].failCount == s.machines[b].failCount && a < b)
  {
    FreeInColumns(s, now);
    TakeIsTake(s, EligibleIds(s, now), count, false);
    forall a | a in Chosen(s, now, count) ensures a in EligibleIds(s, now) {
    }
  }

  /** The reservation rows after a request that went through. */
  lemma RowsInColumns(s: Store, now: Time, later: Time, r: Request, o: Provision, f: Faults, order: seq<nat>)
    requires Holds(s, now, r, f) && Ascending(order, Chosen(s, now, r.count))
    requires forall id :: id in s.rows ==> id < s.nextRow
    requires o.Hashed? && o.hash != "" && o.playbook && o.commit
    ensures var t := AfterCreate(s, now, later, r, o, f, order);
            && |order| == r.count && t.nextRow == s.nextRow + r.count
            && (forall id :: id in s.rows ==> id in t.rows && t.rows[id] == s.rows[id])
            && (forall id :: id in t.rows && id !in s.rows <==> s.nextRow <= id < t.nextRow)
            && forall k :: 0 <= k < r.count ==>
                 t.rows[s.nextRow + k]
                 == Row(order[k], s.users[r.user], r.user, Some(now + 60 * r.minutes), Some(o.hash), None)
  {
    SuccessReserves(s, now, later, r, o, f, order);
    BookedInColumns(s, AfterCreate(s, now, later, r, o, f, order), now, r, o.hash, order);
  }

  lemma BookedInColumns(s: Store, t: Store, now: Time, r: Request, hash: string, order: seq<nat>)
    requires Reserves(s, now, r) && Booked(s, t, now, r, hash, order)
    ensures |order| == r.count && t.nextRow == s.nextRow + r.count
    ensures forall id :: id in s.rows ==> id in t.rows && t.rows[id] == s.rows[id]
    ensures forall id :: id in t.rows && id !in s.rows <==> s.nextRow <= id < t.nextRow
    ensures forall k :: 0 <= k < r.count ==>
              t.rows[s.nextRow + k] == Row(order[k], s.users[r.user], r.user, Some(now + 60 * r.minutes), Some(hash), None)
  {
  }

  /** And after one that did not. */
  lemma NoRowsInColumns(s: Store, now: Time, later: Time, r: Request, o: Provision, f: Faults, order: seq<nat>)
    requires Holds(s, now, r, f) && !(o.Hashed? && o.hash != "" && o.playbook && o.commit)
    ensures AfterCreate(s, now, later, r, o, f, order).rows == s.rows
    ensures AfterCreate(s, now, later, r, o, f, order).nextRow == s.nextRow
  {
  }

  /** The machines after such a request. */
  lemma MachinesInColumns(s: Store, now: Time, later: Time, r: Request, o: Provision, f: Faults, order: seq<nat>, i: nat)
    requires Holds(s, now, r, f) && Ascending(order, Chosen(s, now, r.count)) && i in s.machines
    requires forall id :: id in s.rows ==> id < s.nextRow
    ensures i in AfterCreate(s, now, later, r, o, f, order).machines
    ensures var m := s.machines[i];
            AfterCreate(s, now, later, r, o, f, order).machines[i]
            == if i !in order then m
               else if (o.Hashed? && o.hash != "" && o.playbook && o.commit) || f.revert
                 then m.(reserved := true, reservedBy := Some(r.user), reservedUntil := Some(now + 60 * r.minutes))
               else if o.Hashed? && o.hash != "" && !o.playbook
                 then m.(reserved := false, reservedBy := None, reservedUntil := None, failCount := m.failCount + 1,
                         quarantineUntil := Some(later + 60 * if m.failCount < 10 then 5 * (m.failCount + 2) else 60))
               else m.(reserved := false, reservedBy := None, reservedUntil := None)
  {
    var held := HoldMachines(s, Chosen(s, now, r.count), r.user, Some(Until(r, now)));
    assert i in order <==> i in Chosen(s, now, r.count);
    assert i in order ==> i in EligibleIds(s, now);
    if Succeeds(o) {
      InsertRowsContent(held, order, r.user, Until(r, now), o.hash);
    }
  }
}
