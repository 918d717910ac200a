/** One Create over a whole run: whatever else happens between its two transactions, the second
    one books or gives back exactly what the first one took.
 */
module Requests {
  import opened Wrappers
  import opened Tables
  import opened Sets
  import opened Selection
  import opened Ownership
  import opened Replacement
  import opened Protocol
  import opened Invariant
  import opened Safety
  import opened Guarantees
  import CreateHandler

  /** The step ends request req. */
  predicate Ends(e: Step, req: nat) {
    (e.Insert? || e.Revert? || e.Charge?) && e.req == req
  }

  /** Steps i to j are one request: reserve, then an ending, and no other ending in between. */
  ghost predicate IsRequest(states: seq<Sys>, steps: seq<Step>, i: nat, j: nat) {
    && i < j < |steps| == |states| - 1
    && steps[i].Reserve? && Ends(steps[j], steps[i].req)
    && forall k :: i < k < j ==> !Ends(steps[k], steps[i].req)
  }

  /** What the reserve transaction at step i fixed. */
  ghost function Taken(states: seq<Sys>, steps: seq<Step>, i: nat): Hold
    requires i < |steps| && i < |states| && steps[i].Reserve?
  {
    Hold(steps[i].user, states[i].now + 60 * steps[i].minutes, ReservedIds(states[i], steps[i].count))
  }

  // ---------- In between ----------

  /** The columns nobody but the request itself may change while it holds the machine. */
  predicate SameBackoff(m: Machine, n: Machine) {
    n.failCount == m.failCount && n.quarantineUntil == m.quarantineUntil
  }

  /** The request still holds its machines, and their backoff is what it was. */
  ghost predicate StillHolds(s: Sys, t: Sys, req: nat, h: Hold) {
    && req in t.creates && t.creates[req] == h
    && forall i :: i in h.ids ==>
         i in s.store.machines && i in t.store.machines && SameBackoff(s.store.machines[i], t.store.machines[i])
  }

  lemma ReserveTakes(s: Sys, req: nat, user: string, count: nat, minutes: nat)
    requires Enabled(s, Reserve(req, user, count, minutes))
    ensures StillHolds(s, Apply(s, Reserve(req, user, count, minutes)), req,
                       Hold(user, s.now + 60 * minutes, ReservedIds(s, count)))
  {
  }

  lemma FlagStepKeepsHold(s: Sys, e: Step, req: nat)
    requires Inv(s) && Enabled(s, e) && IsFlagStep(e) && req in s.creates
    ensures StillHolds(s, Apply(s, e), req, s.creates[req])
  {
    FlagStepIsFlagChange(s, e);
    assert HoldOk(s, req);
  }

  /** Another request charges its own machines, not these. */
  lemma ChargeKeepsHold(s: Sys, e: Step, req: nat)
    requires Inv(s) && Enabled(s, e) && e.Charge? && e.req != req && req in s.creates
    ensures StillHolds(s, Apply(s, e), req, s.creates[req])
  {
    assert HoldOk(s, req);
    assert forall i :: i in s.creates[req].ids ==> i !in s.creates[e.req].ids;
  }

  lemma InsertKeepsHold(s: Sys, e: Step, req: nat)
    requires Inv(s) && Enabled(s, e) && e.Insert? && e.req != req && req in s.creates
    ensures StillHolds(s, Apply(s, e), req, s.creates[req])
  {
    assert HoldOk(s, req);
    InsertKeepsHolds(s, e.req, e.order, e.hash);
  }

  lemma AllocateKeepsHold(s: Sys, e: Step, req: nat)
    requires Inv(s) && Enabled(s, e) && e.Allocate? && req in s.creates
    ensures StillHolds(s, Apply(s, e), req, s.creates[req])
  {
    assert HoldOk(s, req);
    if Grants(s.store, s.now, e.n, e.ok) {
      AllocateEffect(s.store, s.now, e.n, e.ok);
    }
  }

  ghost predicate SameBackoffs(s: Store, t: Store) {
    t.machines.Keys == s.machines.Keys && forall i :: i in s.machines ==> SameBackoff(s.machines[i], t.machines[i])
  }

  lemma FreeBackoff(s: Store, ids: set<nat>)
    ensures SameBackoffs(s, FreeMachines(s, ids))
  {
  }

  lemma ClearBackoff(s: Store, id: nat, mid: nat)
    ensures SameBackoffs(s, ClearRow(s, id, mid))
  {
    FreeBackoff(s, {mid});
  }

  lemma SameBackoffsKeepHold(s: Sys, t: Sys, req: nat)
    requires HoldsOk(s) && req in s.creates && req in t.creates && t.creates[req] == s.creates[req]
    requires SameBackoffs(s.store, t.store)
    ensures StillHolds(s, t, req, s.creates[req])
  {
    assert HoldOk(s, req);
  }

  /** Releases and reverts free machines, and do not look at their backoff. */
  lemma FreeingKeepsHold(s: Sys, e: Step, req: nat)
    requires Inv(s) && Enabled(s, e) && req in s.creates && !Ends(e, req)
    requires e.Revert? || e.ClearDelete? || e.ClearExpired? || e.Release?
    ensures StillHolds(s, Apply(s, e), req, s.creates[req])
  {
    if e.Revert? {
      FreeBackoff(s.store, s.creates[e.req].ids);
    } else {
      var h := if e.ClearDelete? then s.deletes[e.req] else e.h;
      ClearBackoff(s.store, h.row, h.mid);
    }
    SameBackoffsKeepHold(s, Apply(s, e), req);
  }

  lemma OtherStepKeepsHold(s: Sys, e: Step, req: nat)
    requires Inv(s) && Enabled(s, e) && req in s.creates && !Ends(e, req)
    requires e.Tick? || e.Register? || e.Reserve? || e.LoadDelete? || e.Enter? || e.LoadExpired? || e.LoadExpiredOn?
             || e.LoadReleases? || e.LoadNeeds?
    ensures StillHolds(s, Apply(s, e), req, s.creates[req])
  {
    assert HoldOk(s, req);
  }

  lemma StepKeepsHold(s: Sys, e: Step, req: nat)
    requires Inv(s) && Enabled(s, e) && req in s.creates && !Ends(e, req)
    ensures StillHolds(s, Apply(s, e), req, s.creates[req])
  {
    if IsFlagStep(e) {
      FlagStepKeepsHold(s, e, req);
    } else if e.Charge? {
      ChargeKeepsHold(s, e, req);
    } else if e.Insert? {
      InsertKeepsHold(s, e, req);
    } else if e.Allocate? {
      AllocateKeepsHold(s, e, req);
    } else if e.Revert? || e.ClearDelete? || e.ClearExpired? || e.Release? {
      FreeingKeepsHold(s, e, req);
    } else {
      OtherStepKeepsHold(s, e, req);
    }
  }

  lemma HoldsOn(first: Sys, s: Sys, e: Step, t: Sys, req: nat, h: Hold)
    requires Inv(s) && Enabled(s, e) && t == Apply(s, e) && !Ends(e, req) && StillHolds(first, s, req, h)
    ensures StillHolds(first, t, req, h)
  {
    StepKeepsHold(s, e, req);
    HoldChain(first, s, t, req, h);
  }

  lemma HoldChain(s: Sys, t: Sys, u: Sys, req: nat, h: Hold)
    requires StillHolds(s, t, req, h) && StillHolds(t, u, req, h)
    ensures StillHolds(s, u, req, h)
  {
  }

  lemma RunStep(states: seq<Sys>, steps: seq<Step>, k: nat)
    requires SafeRun(states, steps) && k < |steps|
    ensures Inv(states[k]) && Enabled(states[k], steps[k]) && states[k + 1] == Apply(states[k], steps[k])
  {
    RunKeepsInv(states, steps, k);
  }

  lemma {:induction false} HeldFrom(states: seq<Sys>, steps: seq<Step>, i: nat, k: nat, first: Sys, req: nat, h: Hold)
    requires SafeRun(states, steps) && i <= k <= |steps| && StillHolds(first, states[i], req, h)
    requires forall m :: i <= m < k ==> !Ends(steps[m], req)
    ensures StillHolds(first, states[k], req, h)
    decreases k
  {
    if i < k {
      HeldFrom(states, steps, i, k - 1, first, req, h);
      RunStep(states, steps, k - 1);
      HoldsOn(first, states[k - 1], steps[k - 1], states[k], req, h);
    }
  }

  /** Until its ending the request holds what it took, whatever the other steps are. */
  lemma HeldUntilEnd(states: seq<Sys>, steps: seq<Step>, i: nat, k: nat)
    requires SafeRun(states, steps) && i < k <= |steps| && steps[i].Reserve?
    requires forall m :: i < m < k ==> !Ends(steps[m], steps[i].req)
    ensures StillHolds(states[i], states[k], steps[i].req, Taken(states, steps, i))
  {
    var e := steps[i];
    RunStep(states, steps, i);
    ReserveTakes(states[i], e.req, e.user, e.count, e.minutes);
    HeldFrom(states, steps, i + 1, k, states[i], e.req, Taken(states, steps, i));
  }

  /** The machines taken: the `count` eligible ones that came first by (fail count, id) at step i. */
  lemma TakenFirst(states: seq<Sys>, steps: seq<Step>, i: nat)
    requires IsRun(states, steps) && i < |steps| && steps[i].Reserve?
    ensures var s := states[i];
            && |Taken(states, steps, i).ids| == steps[i].count
            && IsTake(s.store, EligibleIds(s.store, s.now), steps[i].count, false, Taken(states, steps, i).ids)
            && Taken(states, steps, i).ids <= EligibleIds(s.store, s.now)
  {
    var s := states[i];
    assert Enabled(s, steps[i]);
    TakeIsTake(s.store, EligibleIds(s.store, s.now), steps[i].count, false);
  }

  /** In columns: machines up, free, ordinary and out of quarantine at step i; any other such
      machine had failed more often, or as often and has a larger id. */
  lemma TakenInColumns(states: seq<Sys>, steps: seq<Step>, i: nat)
    requires IsRun(states, steps) && i < |steps| && steps[i].Reserve?
    ensures var ids, ms, now := Taken(states, steps, i).ids, states[i].store.machines, states[i].now;
            && (forall a :: a in ids ==>
                  && a in ms && ms[a].enabled && ms[a].online && !ms[a].reserved && !ms[a].sparePool
                  && (ms[a].quarantineUntil.Some? ==> ms[a].quarantineUntil.value <= now))
            && forall a, b :: a in ids && b !in ids
                              && b in ms && ms[b].enabled && ms[b].online && !ms[b].reserved && !ms[b].sparePool
                              && (ms[b].quarantineUntil.Some? ==> ms[b].quarantineUntil.value <= now) ==>
                 ms[a].failCount < ms[b].failCount || (ms[a].failCount == ms[b].failCount && a < b)
  {
    assert Enabled(states[i], steps[i]);
    CreateHandler.ChoiceInColumns(states[i].store, states[i].now, steps[i].count);
  }

  // ---------- The endings ----------

  /** From s to t exactly one primary row was added for each machine of the hold, and nothing else changed. */
  ghost predicate Books(s: Store, t: Store, h: Hold, count: nat, hash: string) {
    && t.machines == s.machines && t.users == s.users && t.nextRow == s.nextRow + count
    && (forall id :: id in s.rows ==> id in t.rows && t.rows[id] == s.rows[id])
    && (forall id :: id in t.rows && id !in s.rows <==> s.nextRow <= id < t.nextRow)
    && (forall id :: s.nextRow <= id < t.nextRow ==>
          && t.rows[id].machineId in h.ids && t.rows[id].username == h.user && t.rows[id].until == Some(h.until)
          && t.rows[id].hash == Some(hash) && t.rows[id].replacementFor.None?)
    && forall i :: i in h.ids ==> exists id :: s.nextRow <= id < t.nextRow && t.rows[id].machineId == i
  }

  lemma RowsBook(s: Store, order: seq<nat>, h: Hold, hash: string)
    requires h.user in s.users && Ascending(order, h.ids) && forall id :: id in s.rows ==> id < s.nextRow
    ensures Books(s, InsertRows(s, order, h.user, h.until, hash), h, |h.ids|, hash)
  {
    var t := InsertRows(s, order, h.user, h.until, hash);
    InsertRowsContent(s, order, h.user, h.until, hash);
    OrderSize(order, h.ids);
    forall id | s.nextRow <= id < t.nextRow ensures t.rows[id].machineId in h.ids {
      assert order[id - s.nextRow] in order;
    }
    forall i | i in h.ids ensures exists id :: s.nextRow <= id < t.nextRow && t.rows[id].machineId == i {
      assert i in order;
      var k :| 0 <= k < |order| && order[k] == i;
      assert t.rows[s.nextRow + k].machineId == i;
    }
  }

  lemma InsertBooks(s: Sys, req: nat, order: seq<nat>, hash: string)
    requires Inv(s) && Enabled(s, Insert(req, order, hash))
    ensures Books(s.store, Apply(s, Insert(req, order, hash)).store, s.creates[req], |s.creates[req].ids|, hash)
  {
    InsertRowsBound(s.store, s.now);
    RowsBook(s.store, order, s.creates[req], hash);
  }

  lemma OrderSize(order: seq<nat>, ids: set<nat>)
    requires Ascending(order, ids)
    ensures |order| == |ids|
  {
    ListSize(order, ids);
  }

  /** From s to t the machines of the hold were freed, and nothing else changed. */
  ghost predicate GivesBack(s: Store, t: Store, h: Hold) {
    && t == s.(machines := t.machines) && t.machines.Keys == s.machines.Keys
    && forall i :: i in s.machines ==>
         if i in h.ids then !t.machines[i].reserved && t.machines[i].reservedBy.None? && t.machines[i].reservedUntil.None?
         else t.machines[i] == s.machines[i]
  }

  /** How an ending e takes s to t, for a request that took hold h in state `first`. */
  ghost predicate Concluded(first: Sys, s: Sys, e: Step, t: Sys, h: Hold, count: nat) {
    && |h.ids| == count
    && (forall m :: m in h.ids ==> m in first.store.machines && m in s.store.machines && m in t.store.machines)
    && (e.Insert? ==> Books(s.store, t.store, h, count, e.hash))
    && (!e.Insert? ==> GivesBack(s.store, t.store, h))
    && (e.Revert? ==> forall m :: m in h.ids ==> SameBackoff(first.store.machines[m], t.store.machines[m]))
    && (e.Charge? ==> forall m :: m in h.ids ==>
          && t.store.machines[m].failCount == first.store.machines[m].failCount + 1
          && t.store.machines[m].quarantineUntil
             == Some(s.now + 60 * if first.store.machines[m].failCount < 10 then 5 * (first.store.machines[m].failCount + 2) else 60))
  }

  lemma EndConcludes(first: Sys, s: Sys, e: Step, t: Sys, req: nat, h: Hold, count: nat)
    requires Inv(s) && Enabled(s, e) && t == Apply(s, e) && Ends(e, req)
    requires StillHolds(first, s, req, h) && |h.ids| == count
    ensures Concluded(first, s, e, t, h, count)
  {
    if e.Insert? {
      InsertBooks(s, req, e.order, e.hash);
    } else {
      EndGivesBack(first, s, e, req, h);
    }
  }

  /** All or nothing, over whole runs. In any run without stale releases, whatever happens
      between the two transactions of a request: an insert adds exactly `count` rows, on the
      machines chosen by the first transaction and with the expiry it fixed, and changes no
      machine; a revert frees exactly those machines and leaves their fail counts and quarantines
      as they were when chosen; a charge frees exactly them, raises each fail count by one and
      sets the quarantine; neither touches a row or another machine. */
  lemma AllOrNothing(states: seq<Sys>, steps: seq<Step>, i: nat, j: nat)
    requires SafeRun(states, steps) && IsRequest(states, steps, i, j)
    ensures Concluded(states[i], states[j], steps[j], states[j + 1], Taken(states, steps, i), steps[i].count)
  {
    HeldUntilEnd(states, steps, i, j);
    TakenFirst(states, steps, i);
    RunStep(states, steps, j);
    EndConcludes(states[i], states[j], steps[j], states[j + 1], steps[i].req, Taken(states, steps, i), steps[i].count);
  }

  lemma EndGivesBack(first: Sys, s: Sys, e: Step, req: nat, h: Hold)
    requires Enabled(s, e) && Ends(e, req) && !e.Insert? && StillHolds(first, s, req, h)
    ensures var t := Apply(s, e).store;
            && GivesBack(s.store, t, h)
            && (e.Revert? ==> forall m :: m in h.ids ==> SameBackoff(first.store.machines[m], t.machines[m]))
            && (e.Charge? ==> forall m :: m in h.ids ==>
                  && t.machines[m].failCount == first.store.machines[m].failCount + 1
                  && t.machines[m].quarantineUntil
                     == Some(s.now + 60 * if first.store.machines[m].failCount < 10
                                          then 5 * (first.store.machines[m].failCount + 2) else 60))
  {
  }
}
