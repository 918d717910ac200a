/** What the protocol promises over whole runs. */
module Guarantees {
  import opened Wrappers
  import opened Tables
  import opened Sets
  import opened Ownership
  import opened Replacement
  import opened Protocol
  import opened Invariant
  import opened Safety

  /** A run in which no release is stale. */
  ghost predicate SafeRun(states: seq<Sys>, steps: seq<Step>) {
    IsRun(states, steps) && forall i :: 0 <= i < |steps| ==> Safe(states[i], steps[i])
  }

  // ---------- Exclusive ownership and conservation ----------

  /** Who may hold a machine: a reservation row, or a Create that has not inserted its rows. */
  datatype Owner = RowOwner(id: nat) | CreateOwner(req: nat)

  predicate Owns(s: Sys, o: Owner, mid: nat) {
    match o
    case RowOwner(id) => id in s.store.rows && s.store.rows[id].machineId == mid
    case CreateOwner(req) => req in s.creates && mid in s.creates[req].ids
  }

  function OwnerUser(s: Sys, o: Owner, mid: nat): string
    requires Owns(s, o, mid)
  {
    match o
    case RowOwner(id) => s.store.rows[id].username
    case CreateOwner(req) => s.creates[req].user
  }

  function OwnerUntil(s: Sys, o: Owner, mid: nat): Option<Time>
    requires Owns(s, o, mid)
  {
    match o
    case RowOwner(id) => s.store.rows[id].until
    case CreateOwner(req) => Some(s.creates[req].until)
  }

  /** At most one owner per machine, and the machine's columns are its owner's. */
  ghost predicate Exclusive(s: Sys) {
    && (forall mid, a, b :: Owns(s, a, mid) && Owns(s, b, mid) ==> a == b)
    && forall mid, o :: Owns(s, o, mid) ==>
         && mid in s.store.machines
         && s.store.machines[mid].reserved
         && s.store.machines[mid].reservedBy == Some(OwnerUser(s, o, mid))
         && s.store.machines[mid].reservedUntil == OwnerUntil(s, o, mid)
  }

  lemma InvIsExclusive(s: Sys)
    requires Inv(s)
    ensures Exclusive(s)
  {
    forall mid, o | Owns(s, o, mid)
      ensures mid in s.store.machines && s.store.machines[mid].reserved
              && s.store.machines[mid].reservedBy == Some(OwnerUser(s, o, mid))
              && s.store.machines[mid].reservedUntil == OwnerUntil(s, o, mid)
    {
      match o
      case RowOwner(id) => assert RowFormed(s.store, id) && RowHeld(s.store, id);
      case CreateOwner(req) => assert HoldOk(s, req);
    }
    forall mid, a, b | Owns(s, a, mid) && Owns(s, b, mid) ensures a == b {
      if a.RowOwner? || b.RowOwner? {
        assert HasRow(s.store, mid);
        RowExcludesHold(s, mid);
        assert !HasHold(s, mid);
      }
    }
  }

  /** In every state of every interleaving without stale releases, a machine has at most one
      owner, counting rows and in-flight Creates together, and carries that owner's columns. */
  lemma ExclusiveOwnership(states: seq<Sys>, steps: seq<Step>, n: nat)
    requires SafeRun(states, steps) && n < |states|
    ensures Exclusive(states[n])
  {
    RunKeepsInv(states, steps, n);
    InvIsExclusive(states[n]);
  }

  /** A stale release leaves an owner on a machine that is marked free. */
  lemma StaleBreaksExclusive(s: Sys, e: Step)
    requires Inv(s) && Enabled(s, e) && !Safe(s, e)
    ensures !Exclusive(Apply(s, e))
  {
    var t := Apply(s, e);
    var h := if e.ClearDelete? then s.deletes[e.req] else e.h;
    assert HandleOk(s.store, h) && !SafeRelease(s.store, h);
    assert !t.store.machines[h.mid].reserved;
    if HasRow(s.store, h.mid) {
      var id :| id in s.store.rows && s.store.rows[id].machineId == h.mid;
      assert Owns(t, RowOwner(id), h.mid);
    } else {
      var q :| q in s.creates && h.mid in s.creates[q].ids;
      assert Owns(t, CreateOwner(q), h.mid);
    }
  }

  lemma ExclusiveStep(s: Sys, e: Step, t: Sys)
    requires Inv(s) && Enabled(s, e) && t == Apply(s, e) && Exclusive(t)
    ensures Safe(s, e)
  {
    if !Safe(s, e) {
      StaleBreaksExclusive(s, e);
    }
  }

  lemma {:induction false} ExclusiveMeansSafe(states: seq<Sys>, steps: seq<Step>, n: nat)
    requires IsRun(states, steps) && n <= |steps|
    requires forall k :: 0 <= k <= n ==> Exclusive(states[k])
    ensures forall i :: 0 <= i < n ==> Safe(states[i], steps[i])
    decreases n
  {
    if n > 0 {
      ExclusiveMeansSafe(states, steps, n - 1);
      RunKeepsInv(states, steps, n - 1);
      ExclusiveStep(states[n - 1], steps[n - 1], states[n - 1 + 1]);
    }
  }

  /** The exact condition: ownership is exclusive throughout a run if and only if no release in it is stale. */
  lemma ExclusiveIffSafe(states: seq<Sys>, steps: seq<Step>)
    requires IsRun(states, steps)
    ensures (forall n :: 0 <= n < |states| ==> Exclusive(states[n])) <==> SafeRun(states, steps)
  {
    if SafeRun(states, steps) {
      forall n | 0 <= n < |states| ensures Exclusive(states[n]) {
        ExclusiveOwnership(states, steps, n);
      }
    }
    if forall n :: 0 <= n < |states| ==> Exclusive(states[n]) {
      ExclusiveMeansSafe(states, steps, |steps|);
    }
  }

  function ReservedMachines(s: Store): set<nat> {
    set i | i in s.machines && s.machines[i].reserved
  }

  lemma RowsFitReserved(s: Sys)
    requires Inv(s)
    ensures |s.store.rows| <= |ReservedMachines(s.store)|
  {
    var f := map id | id in s.store.rows :: s.store.rows[id].machineId;
    forall id | id in s.store.rows ensures f[id] in ReservedMachines(s.store) {
      assert RowFormed(s.store, id) && RowHeld(s.store, id);
    }
    InjectionSize(s.store.rows.Keys, ReservedMachines(s.store), f);
  }

  ghost function RowOf(s: Store, mid: nat): (id: nat)
    requires HasRow(s, mid)
    ensures id in s.rows && s.rows[id].machineId == mid
  {
    var id :| id in s.rows && s.rows[id].machineId == mid;
    id
  }

  lemma ReservedFitRows(s: Sys)
    requires Inv(s) && s.creates == map[]
    ensures |ReservedMachines(s.store)| <= |s.store.rows|
  {
    forall i | i in ReservedMachines(s.store) ensures HasRow(s.store, i) {
      assert !HasHold(s, i);
    }
    var g := map i | i in ReservedMachines(s.store) :: RowOf(s.store, i);
    InjectionSize(ReservedMachines(s.store), s.store.rows.Keys, g);
  }

  /** The reserved machines are exactly those with a row or an in-flight Create; with no
      Create in flight there are as many rows as reserved machines. */
  lemma Conservation(states: seq<Sys>, steps: seq<Step>, n: nat)
    requires SafeRun(states, steps) && n < |states|
    ensures forall i :: i in ReservedMachines(states[n].store) <==> HasRow(states[n].store, i) || HasHold(states[n], i)
    ensures states[n].creates == map[] ==> |states[n].store.rows| == |ReservedMachines(states[n].store)|
  {
    var s := states[n];
    RunKeepsInv(states, steps, n);
    forall i | HasRow(s.store, i) || HasHold(s, i) ensures i in ReservedMachines(s.store) {
      OwnedMachine(s, i);
    }
    if s.creates == map[] {
      RowsFitReserved(s);
      ReservedFitRows(s);
    }
  }

  // ---------- Pools and replacements ----------

  /** Primary reservations and in-flight Creates sit on ordinary machines, replacements on
      spares, and one user has at most one active replacement per primary machine. */
  lemma PoolsAndReplacements(states: seq<Sys>, steps: seq<Step>, n: nat)
    requires SafeRun(states, steps) && n < |states|
    ensures forall id :: id in states[n].store.rows ==>
              && states[n].store.rows[id].machineId in states[n].store.machines
              && (states[n].store.machines[states[n].store.rows[id].machineId].sparePool
                  <==> states[n].store.rows[id].replacementFor.Some?)
    ensures forall req, i :: req in states[n].creates && i in states[n].creates[req].ids ==>
              i in states[n].store.machines && !states[n].store.machines[i].sparePool
    ensures var rows := states[n].store.rows;
            forall a, b :: a in rows && b in rows && SameReplacement(rows[a], rows[b], states[n].now) ==> a == b
  {
    var s := states[n];
    RunKeepsInv(states, steps, n);
    forall id | id in s.store.rows
      ensures s.store.rows[id].machineId in s.store.machines
              && (s.store.machines[s.store.rows[id].machineId].sparePool <==> s.store.rows[id].replacementFor.Some?)
    {
      assert RowFormed(s.store, id) && RowPooled(s.store, id);
    }
    forall req, i | req in s.creates && i in s.creates[req].ids
      ensures i in s.store.machines && !s.store.machines[i].sparePool
    {
      assert HoldOk(s, req);
    }
  }

  lemma NeedMatches(s: Sys, n: Need, id: nat)
    requires NeedOk(s, n) && id in s.store.rows && s.store.rows[id].machineId == n.primary
    requires s.store.rows[id].username == n.user && s.store.rows[id].replacementFor.None?
    ensures s.store.rows[id].until == n.until && s.store.rows[id].hash == n.hash
  {
  }

  /** Whatever the API did since the needs were read, an allocation that goes through adds
      one row, which copies the expiry and the hash of a live primary reservation. */
  lemma AllocationCopiesPrimary(states: seq<Sys>, steps: seq<Step>, n: nat)
    requires SafeRun(states, steps) && n < |steps| && steps[n].Allocate?
    ensures var s, t := states[n].store, states[n + 1].store;
            t == s || exists primary ::
              && t.rows == s.rows[s.nextRow := t.rows[s.nextRow]]
              && StandsInFor(s, states[n].now, t.rows[s.nextRow], primary)
  {
    RunKeepsInv(states, steps, n);
    var sys, need := states[n], steps[n].n;
    var s, now := sys.store, sys.now;
    if Grants(s, now, need, steps[n].ok) {
      assert NeedOk(sys, need);
      AllocateEffect(s, now, need, steps[n].ok);
      var id :| id in s.rows && NeedsSpare(s, now, id) && s.rows[id].machineId == need.primary && s.rows[id].username == need.user;
      NeedMatches(sys, need, id);
      assert StandsInFor(s, now, states[n + 1].store.rows[s.nextRow], id);
    }
  }

  /** The reconciler's release is safe for any handle, however old: it does nothing, or it
      removes one replacement of a recovered primary and frees the machine that row held. */
  lemma GuardedRelease(s: Sys, h: Handle)
    requires Inv(s) && HandleOk(s.store, h)
    ensures var t := ReleaseOne(s.store, s.now, h.row, h.mid);
            || t == s.store
            || (&& h.row in s.store.rows
                && s.store.rows[h.row].replacementFor.Some?
                && s.store.machines[s.store.rows[h.row].replacementFor.value].enabled
                && t.rows == s.store.rows - {h.row}
                && t.machines == s.store.machines[h.mid := Freed(s.store.machines[h.mid])]
                && (forall o :: Owns(s, o, h.mid) ==> o == RowOwner(h.row))
                && Inv(s.(store := t)))
  {
    var t := ReleaseOne(s.store, s.now, h.row, h.mid);
    if ReleaseGuard(s.store, s.now, h.row) {
      assert t.machines == s.store.machines[h.mid := Freed(s.store.machines[h.mid])];
      InvIsExclusive(s);
      assert Owns(s, RowOwner(h.row), h.mid);
      assert Clears(s, s.(store := t), h);
      SafeClearKeepsInv(s, s.(store := t), h);
    }
  }

  // ---------- Backoff ----------

  /** The step is a failed playbook of a Create that holds machine i. */
  ghost predicate ChargesMachine(s: Sys, e: Step, i: nat) {
    e.Charge? && e.req in s.creates && i in s.creates[e.req].ids
  }

  /** The times at which the steps before n charged machine i. */
  ghost function ChargeTimes(states: seq<Sys>, steps: seq<Step>, i: nat, n: nat): seq<Time>
    requires n <= |steps| <= |states|
  {
    if n == 0 then []
    else
      var before := ChargeTimes(states, steps, i, n - 1);
      if ChargesMachine(states[n - 1], steps[n - 1], i) then before + [states[n - 1].now] else before
  }

  lemma StepCharges(s: Sys, e: Step, i: nat)
    requires HoldsOk(s) && BackoffOk(s) && Enabled(s, e)
    ensures var t := Apply(s, e);
            && (i in s.charges ==> i in t.charges)
            && (i in s.charges ==>
                  t.charges[i] == if ChargesMachine(s, e, i) then s.charges[i] + [s.now] else s.charges[i])
            && (i !in s.charges ==> !ChargesMachine(s, e, i) && (i in t.charges ==> t.charges[i] == []))
  {
    if e.Charge? {
      assert HoldOk(s, e.req);
    }
  }

  /** The history column records exactly the failed playbooks of the run. */
  lemma {:induction false} ChargesAreSteps(states: seq<Sys>, steps: seq<Step>, i: nat, n: nat)
    requires SafeRun(states, steps) && n <= |steps|
    ensures i in states[n].charges ==> states[n].charges[i] == ChargeTimes(states, steps, i, n)
    ensures i !in states[n].charges ==> ChargeTimes(states, steps, i, n) == []
    decreases n
  {
    if n > 0 {
      ChargesAreSteps(states, steps, i, n - 1);
      RunKeepsInv(states, steps, n - 1);
      StepCharges(states[n - 1], steps[n - 1], i);
    }
  }

  /** Seconds that k quarantines in a row add up to, starting with the first. */
  function WindowSum(k: nat): nat {
    if k == 0 then 0 else WindowSum(k - 1) + Window(k)
  }

  /** The windows grow by five minutes up to an hour: 5, ..., 55 after the first, then 60. */
  lemma {:induction false} WindowSumClosed(k: nat)
    ensures k <= 11 ==> WindowSum(k) == 150 * (k * (k + 3))
    ensures k >= 11 ==> WindowSum(k) == 23100 + 3600 * (k - 11)
  {
    if k > 0 {
      WindowSumClosed(k - 1);
      assert k * (k + 3) == (k - 1) * (k + 2) + 2 * k + 2;
      assert k <= 11 ==> Window(k) == 300 * (k + 1);
      assert k >= 11 ==> Window(k) == 3600;
      if k == 11 {
        assert k * (k + 3) == 154;
      }
    }
  }

  lemma {:induction false} SpacedCharges(c: seq<Time>, k: nat)
    requires forall j :: 0 <= j < |c| - 1 ==> c[j] + Window(j + 1) <= c[j + 1]
    requires k < |c|
    ensures c[0] + WindowSum(k) <= c[k]
  {
    if k > 0 {
      SpacedCharges(c, k - 1);
    }
  }

  /** Over a whole run the i-th failure charged to a machine is followed by the next one no
      earlier than min(60, 5(i+1)) minutes later, so k+1 failures take at least the sum of
      the first k windows. */
  lemma BackoffOverRuns(states: seq<Sys>, steps: seq<Step>, i: nat, n: nat)
    requires SafeRun(states, steps) && n <= |steps|
    ensures var c := ChargeTimes(states, steps, i, n);
            && (forall j :: 0 <= j < |c| - 1 ==> c[j] + Window(j + 1) <= c[j + 1])
            && (forall k :: 0 <= k < |c| ==> c[0] + WindowSum(k) <= c[k])
            && forall k: nat :: Window(k) <= 3600
  {
    ChargesAreSteps(states, steps, i, n);
    RunKeepsInv(states, steps, n);
    var c := ChargeTimes(states, steps, i, n);
    if i in states[n].charges {
      assert MachineBackoffOk(states[n], i);
    }
    forall k | 0 <= k < |c| ensures c[0] + WindowSum(k) <= c[k] {
      SpacedCharges(c, k);
    }
  }
}
