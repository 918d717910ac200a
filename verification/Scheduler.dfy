/** One run of the scheduler: the three passes in order, each under its advisory lock. */
module Scheduler {
  import opened Wrappers
  import opened Tables
  import opened Ownership
  import opened Replacement
  import opened Protocol
  import opened Storage
  import opened HealthPass
  import opened Locks
  import opened Reconcile
  import opened Convergence
  import opened PassColumns
  import Cleanup
  import Health
  import Reconciler

  datatype Config = Config(names: Names, batchSize: int, percent: int)

  /** What the outside world answers during the run. */
  datatype Answers = Answers(
    now: Time,
    lockErrors: (bool, bool, bool),
    deletes: Cleanup.Outcomes,
    interrupted: nat -> bool,
    world: World,
    playbook: nat -> bool)

  /** How far the run got. */
  datatype Report = Report(ran: bool, cleaned: nat, failed: bool, checked: bool, reconciled: bool)

  /** Rows refer to machines, as the foreign key demands. */
  predicate Referential(s: Store) {
    forall id :: id in s.rows ==> s.rows[id].machineId in s.machines
  }

  /** The two passes after a cleanup, each skipped if its lock is not granted. */
  ghost predicate AfterCleanup(s: Store, t: Store, percent: int, a: Answers, checked: bool, reconciled: bool) {
    var u := if checked then Checked(s, a.world) else s;
    if reconciled then Passes(u, t, a.now, percent) else t == u
  }

  /** What a run leaves: nothing without the outer lock; a cleanup; and, unless that failed, the other two passes. */
  ghost predicate RunResult(s: Store, t: Store, cfg: Config, a: Answers, rep: Report, handled: set<nat>) {
    if !rep.ran then t == s
    else
      && handled <= ExpiredIds(s, a.now)
      && rep.cleaned == |Cleanup.OkIds(s, a.deletes, handled)|
      && (!rep.failed ==> handled == ExpiredIds(s, a.now))
      && var clean := Cleanup.Cleaned(s, a.deletes, handled);
         if rep.failed then t == clean else AfterCleanup(clean, t, cfg.percent, a, rep.checked, rep.reconciled)
  }

  lemma CleanedReferential(s: Store, o: Cleanup.Outcomes, handled: set<nat>)
    requires Referential(s)
    ensures Referential(Cleanup.Cleaned(s, o, handled))
  {
  }

  method HealthUnderLock(d: Database, server: LockServer, name: string, error: bool, w: World) returns (ran: bool)
    requires Referential(d.View())
    modifies d, server
    ensures server.holders == old(server.holders)
    ensures ran <==> !error && name !in old(server.holders)
    ensures d.View() == if ran then Checked(old(d.View()), w) else old(d.View())
  {
    ghost var before := server.holders;
    var lock := Acquire(server, name, error);
    ran := lock != null;
    if lock != null {
      var stats := Health.RunOnce(d, w);
      lock.Release(server);
      assert server.holders == before;
    }
  }

  method ReconcileUnderLock(d: Database, server: LockServer, name: string, error: bool, percent: int, a: Answers)
      returns (ran: bool)
    modifies d, server
    ensures server.holders == old(server.holders)
    ensures ran <==> !error && name !in old(server.holders)
    ensures if ran then Passes(old(d.View()), d.View(), a.now, percent) else d.View() == old(d.View())
  {
    ghost var before := server.holders;
    var lock := Acquire(server, name, error);
    ran := lock != null;
    if lock != null {
      ghost var rel, needs, oks := Reconciler.RunOnce(d, percent, a.now, a.playbook);
      lock.Release(server);
      assert server.holders == before;
    }
  }

  /** The run closure. The clock stands still, and nobody else writes. Every lock that was
      granted is released on every path. */
  method Run(d: Database, server: LockServer, cfg: Config, a: Answers) returns (rep: Report, ghost handled: set<nat>)
    requires cfg.batchSize >= 1 && Referential(d.View())
    modifies d, server
    ensures server.holders == old(server.holders)
    ensures rep.ran <==> !a.lockErrors.0 && cfg.names.cleanup !in old(server.holders)
    ensures RunResult(old(d.View()), d.View(), cfg, a, rep, handled)
    ensures rep.failed ==> (exists k :: a.interrupted(k)) || exists id :: a.deletes.stuck(id)
    ensures !rep.ran ==> d.rows == old(d.rows) && d.machines == old(d.machines)
    ensures !rep.ran || rep.failed ==> !rep.checked && !rep.reconciled
    ensures rep.ran && !rep.failed ==>
              && (rep.checked <==> !a.lockErrors.1 && cfg.names.health !in old(server.holders) + map[cfg.names.cleanup := 0])
              && (rep.reconciled <==> !a.lockErrors.2
                                      && cfg.names.reconcile !in old(server.holders) + map[cfg.names.cleanup := 0])
  {
    rep, handled := Report(false, 0, false, false, false), {};
    ghost var before := server.holders;
    var outer := Acquire(server, cfg.names.cleanup, a.lockErrors.0);
    if outer == null {
      return;
    }
    var total, failed;
    ghost var chunks;
    ghost var s := d.View();
    total, failed, handled, chunks := Cleanup.RunOnce(d, cfg.batchSize, a.now, a.deletes, a.interrupted);
    rep := Report(true, total, failed, false, false);
    if !failed {
      CleanedReferential(s, a.deletes, handled);
      var checked := HealthUnderLock(d, server, cfg.names.health, a.lockErrors.1, a.world);
      var reconciled := ReconcileUnderLock(d, server, cfg.names.reconcile, a.lockErrors.2, cfg.percent, a);
      rep := rep.(checked := checked, reconciled := reconciled);
    }
    outer.Release(server);
    assert server.holders == before;
  }

  // ---------- What a run is for ----------

  lemma AfterCleanupKeepsRows(s: Store, t: Store, percent: int, a: Answers, checked: bool, reconciled: bool)
    requires RowsOk(s, a.now) && a.world.now == a.now && AfterCleanup(s, t, percent, a, checked, reconciled)
    ensures RowsOk(t, a.now)
  {
    Health.CheckedKeepsRows(s, a.world);
    var u := if checked then Checked(s, a.world) else s;
    if reconciled {
      var rel, needs, oks :| IsPass(u, t, a.now, percent, rel, needs, oks);
      PassEffect(u, t, a.now, percent, rel, needs, oks);
    }
  }

  /** An undisturbed run keeps the ownership invariant, however far it gets. */
  lemma RunKeepsOwnership(s: Store, t: Store, cfg: Config, a: Answers, rep: Report, handled: set<nat>)
    requires RowsOk(s, a.now) && a.world.now == a.now && RunResult(s, t, cfg, a, rep, handled)
    ensures RowsOk(t, a.now)
  {
    if rep.ran {
      Cleanup.CleanedKeepsOwnership(s, a.now, a.deletes, handled);
      if !rep.failed {
        AfterCleanupKeepsRows(Cleanup.Cleaned(s, a.deletes, handled), t, cfg.percent, a, rep.checked, rep.reconciled);
      }
    }
  }

  /** Reconciling never removes or adds an expired row. */
  lemma PassKeepsExpired(s: Store, t: Store, now: Time, percent: int, id: nat)
    requires RowsOk(s, now) && Passes(s, t, now, percent) && id < s.nextRow
    requires id in s.rows ==> Expired(s.rows[id], now)
    ensures id in t.rows <==> id in s.rows
  {
    var rel, needs, oks :| IsPass(s, t, now, percent, rel, needs, oks);
    PassEffect(s, t, now, percent, rel, needs, oks);
    var u := Released(s, now, percent, rel);
    ResizeFlags(s, percent);
    if id in s.rows {
      assert id !in Releasable(s, now);
    }
    NewIdsAreFresh(u, t, now, percent, needs, oks, id);
  }

  lemma NewIdsAreFresh(u: Store, t: Store, now: Time, percent: int, needs: seq<nat>, oks: seq<bool>, id: nat)
    requires forall k :: k in needs ==> k in u.rows
    requires |oks| == |needs| && t == AllocateAll(u, now, NeedsOf(u, needs), oks) && id < u.nextRow
    ensures id in t.rows <==> id in u.rows
  {
    AllocationIds(u, now, NeedsOf(u, needs), oks, id);
  }

  lemma {:induction false} AllocationIds(u: Store, now: Time, needs: seq<Need>, oks: seq<bool>, id: nat)
    requires |oks| == |needs| && id < u.nextRow
    ensures id in AllocateAll(u, now, needs, oks).rows <==> id in u.rows
    decreases |needs|
  {
    if needs != [] {
      AllocationIds(AllocateOne(u, now, needs[0], oks[0]), now, needs[1..], oks[1..], id);
    }
  }

  /** A whole run drains expiry: a reservation that had expired at the start is still there at
      the end if and only if neither its batch delete nor its delete on re-enabling succeeded. */
  lemma RunDrainsExpiry(s: Store, t: Store, cfg: Config, a: Answers, rep: Report, handled: set<nat>, id: nat)
    requires RowsOk(s, a.now) && a.world.now == a.now && RunResult(s, t, cfg, a, rep, handled)
    requires rep.ran && !rep.failed && rep.checked
    requires id in s.rows && s.rows[id].until.Some? && s.rows[id].until.value <= a.now
    ensures s.rows[id].machineId in s.machines
    ensures var mid := s.rows[id].machineId;
            id in t.rows <==>
              && !(s.machines[mid].enabled && a.deletes.recap(s.rows[id].username, s.machines[mid].name) == Cleanup.Ok)
              && !((!s.machines[mid].enabled || !a.deletes.unmarked(id)) && mid in a.world.up && id in a.world.wiped)
  {
    var clean := Cleanup.Cleaned(s, a.deletes, handled);
    var u := Checked(clean, a.world);
    Health.DrainsExpired(s, a.world, a.deletes, id);
    Cleanup.CleanedKeepsOwnership(s, a.now, a.deletes, handled);
    Health.CheckedKeepsRows(clean, a.world);
    assert RowFormed(s, id);
    if rep.reconciled {
      PassKeepsExpired(u, t, a.now, cfg.percent, id);
    }
  }

  /** What the passes before the reconcile pass leave of a row that has not run out. */
  lemma LiveRowReaches(s: Store, w: World, o: Cleanup.Outcomes, r: nat)
    requires RowsOk(s, w.now) && r in s.rows && (s.rows[r].until.None? || s.rows[r].until.value > w.now)
    ensures var u := Checked(Cleanup.Cleaned(s, o, ExpiredIds(s, w.now)), w);
            r in u.rows && u.rows[r] == s.rows[r]
  {
    var clean := Cleanup.Cleaned(s, o, ExpiredIds(s, w.now));
    assert RowFormed(s, r);
    Cleanup.CleanedInColumns(s, w.now, o, r);
    CheckedRowInColumns(clean, w, r);
  }

  lemma RowsReachReconcile(s: Store, w: World, o: Cleanup.Outcomes)
    requires RowsOk(s, w.now)
    ensures RowsOk(Checked(Cleanup.Cleaned(s, o, ExpiredIds(s, w.now)), w), w.now)
  {
    Cleanup.CleanedKeepsOwnership(s, w.now, o, ExpiredIds(s, w.now));
    Health.CheckedKeepsRows(Cleanup.Cleaned(s, o, ExpiredIds(s, w.now)), w);
  }

  /** The passes run in this order: a replacement goes in the same run in which its primary
      machine comes back, because health has enabled it before the reconcile pass looks. */
  lemma RunReleasesRecovered(s: Store, t: Store, cfg: Config, a: Answers, rep: Report, handled: set<nat>, r: nat, p: nat)
    requires RowsOk(s, a.now) && a.world.now == a.now && RunResult(s, t, cfg, a, rep, handled)
    requires rep.ran && !rep.failed && rep.checked && rep.reconciled
    requires r in s.rows && p in s.rows && s.rows[r].replacementFor == Some(s.rows[p].machineId)
    requires s.rows[r].username == s.rows[p].username && s.rows[p].machineId in a.world.up
    requires s.rows[r].until.None? || s.rows[r].until.value > a.now
    requires s.rows[p].until.None? || s.rows[p].until.value > a.now
    ensures r !in t.rows
  {
    var clean := Cleanup.Cleaned(s, a.deletes, handled);
    var u := Checked(clean, a.world);
    LiveRowReaches(s, a.world, a.deletes, r);
    LiveRowReaches(s, a.world, a.deletes, p);
    RowsReachReconcile(s, a.world, a.deletes);
    assert RowFormed(u, p);
    CheckedMachineInColumns(clean, a.world, s.rows[p].machineId);
    var rel, needs, oks :| IsPass(u, t, a.now, cfg.percent, rel, needs, oks);
    PassRowsInColumns(u, t, a.now, cfg.percent, rel, needs, oks, r);
  }

  /** After a run a machine is enabled if and only if it answered. */
  lemma RunEndsChecked(s: Store, t: Store, cfg: Config, a: Answers, rep: Report, handled: set<nat>, i: nat)
    requires RowsOk(s, a.now) && a.world.now == a.now && RunResult(s, t, cfg, a, rep, handled)
    requires rep.ran && !rep.failed && rep.checked && i in s.machines
    ensures i in t.machines && (t.machines[i].enabled <==> i in a.world.up)
  {
    var clean := Cleanup.Cleaned(s, a.deletes, handled);
    var u := Checked(clean, a.world);
    CheckedMachineInColumns(clean, a.world, i);
    if rep.reconciled {
      RowsReachReconcile(s, a.world, a.deletes);
      var rel, needs, oks :| IsPass(u, t, a.now, cfg.percent, rel, needs, oks);
      PassKeepsFleet(u, t, a.now, cfg.percent, rel, needs, oks);
    }
  }
}
