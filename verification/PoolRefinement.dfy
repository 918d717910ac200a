/** Without cancellation, every schedule of the health pool computes the sequential pass.

    Each machine and the rows on it are only ever touched by the worker that holds the
    machine, so the tables are described machine by machine, by how far its worker has got.
 */
module PoolRefinement {
  import opened Wrappers
  import opened Tables
  import opened Sets
  import opened HealthPass
  import opened HealthPool
  import opened PoolAccounting

  // ---------- One machine ----------

  function ClearedOn(c: Call, i: nat): set<nat> {
    set id | id in c.orig.rows && c.orig.rows[id].machineId == i && Cleared(c.orig, c.world, id)
  }

  /** Machine i is m, and of its rows exactly those in `gone` are gone. */
  ghost predicate Local(c: Call, db: Store, i: nat, m: Machine, gone: set<nat>) {
    && i in db.machines && db.machines[i] == m
    && forall id :: id in c.orig.rows && c.orig.rows[id].machineId == i ==> (id in db.rows <==> id !in gone)
  }

  /** A machine that answered, after the rows in `gone` were cleared. */
  function Back(c: Call, i: nat, gone: set<nat>): Machine
    requires i in c.orig.machines
  {
    var m := Answered(c.orig.machines[i], c.world.now);
    if gone == {} then m else Freed(m)
  }

  ghost predicate PendingOk(c: Call, i: nat, q: seq<nat>) {
    && Distinct(q)
    && forall id :: id in q ==> id in c.orig.rows && c.orig.rows[id].machineId == i && Expired(c.orig.rows[id], c.world.now)
  }

  function GoneAt(c: Call, i: nat, q: seq<nat>): set<nat> {
    set id | id in ClearedOn(c, i) && id !in q
  }

  /** The machine was disabled, answers again, and the rows in q are still to be tried. */
  ghost predicate ClearingOk(c: Call, db: Store, i: nat, q: seq<nat>)
    requires i in c.orig.machines
  {
    && i in c.world.up && !c.orig.machines[i].enabled && PendingOk(c, i, q)
    && Local(c, db, i, Back(c, i, GoneAt(c, i, q)), GoneAt(c, i, q))
  }

  /** A machine whose check is complete. */
  ghost predicate DoneOk(c: Call, db: Store, i: nat) {
    i in c.orig.machines && Local(c, db, i, CheckedMachine(c.orig, c.world, i), ClearedOn(c, i))
  }

  ghost predicate StageOk(c: Call, db: Store, x: Worker) {
    Busy(x) ==>
      && x.i in c.orig.machines
      && var m := c.orig.machines[x.i];
         match x
         case Received(i) => Local(c, db, i, m, {})
         case Counted(i) => Local(c, db, i, m, {})
         case Answering(i) => i in c.world.up && Local(c, db, i, m, {})
         case Touched(i) => i in c.world.up && Local(c, db, i, m.(lastSeen := Some(c.world.now)), {})
         case Reopened(i) => i in c.world.up && !m.enabled && Local(c, db, i, Back(c, i, {}), {})
         case Tallied(i) => i in c.world.up && !m.enabled && Local(c, db, i, Back(c, i, {}), {})
         case Clearing(i, q) => ClearingOk(c, db, i, q)
         case Wiping(i, q) => q != [] && ClearingOk(c, db, i, q)
         case Passed(i) => i in c.world.up && DoneOk(c, db, i)
         case Silent(i) => i !in c.world.up && Local(c, db, i, m, {})
         case Shut(i) => i !in c.world.up && m.enabled && DoneOk(c, db, i)
         case Lost(i) => i !in c.world.up && DoneOk(c, db, i)
  }

  /** Past its probe; past the tally of a change of its enabled flag. */
  predicate PastProbe(x: Worker) {
    Busy(x) && !x.Received? && !x.Counted?
  }

  predicate TallyOk(c: Call, x: Worker, tallied: set<nat>) {
    Busy(x) && x.i in c.orig.machines ==>
      (x.i in tallied <==>
         || x.Tallied? || x.Clearing? || x.Wiping?
         || (x.Passed? && !c.orig.machines[x.i].enabled)
         || (x.Lost? && c.orig.machines[x.i].enabled))
  }

  /** The tables still are those of the call, with some rows gone. */
  ghost predicate Shaped(c: Call, db: Store) {
    && db.users == c.orig.users && db.nextRow == c.orig.nextRow && db.machines.Keys == c.orig.machines.Keys
    && forall id :: id in db.rows ==> id in c.orig.rows && db.rows[id] == c.orig.rows[id]
  }

  /** Only machine i and its rows may differ. */
  ghost predicate Elsewhere(c: Call, db: Store, after: Store, i: nat) {
    && after.machines.Keys == db.machines.Keys
    && (forall j :: j in db.machines && j != i ==> after.machines[j] == db.machines[j])
    && forall id :: id in c.orig.rows && c.orig.rows[id].machineId != i ==> (id in after.rows <==> id in db.rows)
  }

  lemma UnreachableClearsNothing(c: Call, i: nat)
    requires i !in c.world.up || (i in c.orig.machines && c.orig.machines[i].enabled)
    ensures ClearedOn(c, i) == {}
  {
  }

  lemma FreesIffCleared(c: Call, i: nat)
    ensures Frees(c.orig, c.world, i) <==> ClearedOn(c, i) != {}
  {
    if Frees(c.orig, c.world, i) {
      var id :| Cleared(c.orig, c.world, id) && c.orig.rows[id].machineId == i;
      assert id in ClearedOn(c, i);
    }
    if ClearedOn(c, i) != {} {
      var id :| id in ClearedOn(c, i);
      assert Cleared(c.orig, c.world, id);
    }
  }

  /** A list of all expired rows leaves nothing tried yet. */
  lemma LoadStage(c: Call, db: Store, i: nat, order: seq<nat>)
    requires Shaped(c, db) && StageOk(c, db, Tallied(i)) && Lists(order, ExpiredOn(db, i, c.world.now))
    ensures ClearingOk(c, db, i, order)
  {
    forall id | id in ClearedOn(c, i) ensures id in order {
      assert id in ExpiredOn(db, i, c.world.now);
    }
    assert GoneAt(c, i, order) == {};
  }

  lemma WipeStage(c: Call, db: Store, i: nat, q: seq<nat>)
    requires i in c.orig.machines && q != [] && Shaped(c, db) && ClearingOk(c, db, i, q)
    ensures var after := if q[0] in c.world.wiped then ClearRow(db, q[0], i) else db;
            Shaped(c, after) && ClearingOk(c, after, i, q[1..]) && Elsewhere(c, db, after, i)
  {
    var gone, next := GoneAt(c, i, q), GoneAt(c, i, q[1..]);
    assert q[0] in q && q[0] !in q[1..];
    forall id ensures id in q <==> id == q[0] || id in q[1..] {
      assert q == [q[0]] + q[1..];
    }
    if q[0] in c.world.wiped {
      assert q[0] in ClearedOn(c, i);
      assert next == gone + {q[0]};
    } else {
      assert next == gone;
    }
  }

  lemma ClearedAll(c: Call, db: Store, i: nat)
    requires i in c.orig.machines && ClearingOk(c, db, i, [])
    ensures DoneOk(c, db, i)
  {
    FreesIffCleared(c, i);
    assert GoneAt(c, i, []) == ClearedOn(c, i);
  }

  lemma EffectShaped(c: Call, db: Store, x: Worker, ok: bool, order: seq<nat>)
    requires c.reliable && Busy(x) && Possible(c, db, false, x, ok, order) && Shaped(c, db) && StageOk(c, db, x)
    ensures var e := Do(c, db, false, x, ok, order); Shaped(c, e.db) && Elsewhere(c, db, e.db, x.i)
  {
    match x
    case Wiping(i, q) => WipeStage(c, db, i, q);
    case _ =>
  }

  lemma TouchedStage(c: Call, db: Store, i: nat)
    requires StageOk(c, db, Touched(i)) && Shaped(c, db)
    ensures var e := Do(c, db, false, Touched(i), true, []); StageOk(c, e.db, e.worker)
  {
    FreesIffCleared(c, i);
    if c.orig.machines[i].enabled {
      UnreachableClearsNothing(c, i);
    }
  }

  lemma SilentStage(c: Call, db: Store, i: nat)
    requires StageOk(c, db, Silent(i)) && Shaped(c, db)
    ensures var e := Do(c, db, false, Silent(i), true, []); StageOk(c, e.db, e.worker)
  {
    FreesIffCleared(c, i);
    UnreachableClearsNothing(c, i);
  }

  lemma EffectStage(c: Call, db: Store, x: Worker, ok: bool, order: seq<nat>)
    requires c.reliable && Busy(x) && Possible(c, db, false, x, ok, order) && Shaped(c, db) && StageOk(c, db, x)
    ensures StageOk(c, Do(c, db, false, x, ok, order).db, Do(c, db, false, x, ok, order).worker)
  {
    match x
    case Touched(i) => TouchedStage(c, db, i);
    case Tallied(i) => LoadStage(c, db, i, order);
    case Clearing(i, q) => if q == [] { ClearedAll(c, db, i); }
    case Wiping(i, q) => WipeStage(c, db, i, q);
    case Silent(i) => SilentStage(c, db, i);
    case _ =>
  }

  /** One action of a worker keeps the description of its machine, and no other machine changes. */
  lemma EffectRefines(c: Call, db: Store, x: Worker, ok: bool, order: seq<nat>)
    requires c.reliable && Busy(x) && Possible(c, db, false, x, ok, order) && Shaped(c, db) && StageOk(c, db, x)
    ensures var e := Do(c, db, false, x, ok, order);
            && Shaped(c, e.db) && StageOk(c, e.db, e.worker) && Elsewhere(c, db, e.db, x.i)
            && (Busy(e.worker) ==> e.worker.i == x.i && e.done == {})
            && (!Busy(e.worker) ==> e.worker == Waiting && e.done == {x.i} && DoneOk(c, e.db, x.i))
  {
    EffectShaped(c, db, x, ok, order);
    EffectStage(c, db, x, ok, order);
  }

  /** What a worker adds to the counters is what it adds to the histories. */
  lemma EffectCounts(c: Call, db: Store, x: Worker, ok: bool, order: seq<nat>)
    requires c.reliable && Busy(x) && Possible(c, db, false, x, ok, order) && StageOk(c, db, x)
    ensures var e := Do(c, db, false, x, ok, order);
            && e.reEnabled == |e.tallied * c.world.up| && e.disabled == |e.tallied - c.world.up|
            && e.reachable == |e.done * c.world.up| && e.unreachable == |e.done - c.world.up|
  {
    var none: set<nat> := {};
    assert {x.i} * c.world.up == if x.i in c.world.up then {x.i} else {};
    assert {x.i} - c.world.up == if x.i in c.world.up then {} else {x.i};
    assert none * c.world.up == {} && none - c.world.up == {};
  }

  lemma EffectTally(c: Call, db: Store, x: Worker, ok: bool, order: seq<nat>, tallied: set<nat>)
    requires c.reliable && Busy(x) && Possible(c, db, false, x, ok, order) && StageOk(c, db, x) && TallyOk(c, x, tallied)
    ensures var e := Do(c, db, false, x, ok, order);
            && TallyOk(c, e.worker, tallied + e.tallied)
            && e.tallied <= {x.i} && (x.i in tallied ==> e.tallied == {})
            && (!Busy(e.worker) ==> (x.i in tallied <==> (c.orig.machines[x.i].enabled != (x.i in c.world.up))))
            && (!Busy(e.worker) ==> e.tallied == {})
  {
  }

  lemma EffectProbes(c: Call, db: Store, x: Worker, ok: bool, order: seq<nat>)
    requires c.reliable && Busy(x) && Possible(c, db, false, x, ok, order) && StageOk(c, db, x)
    ensures var e := Do(c, db, false, x, ok, order);
            && e.probes == (if x.Counted? then multiset{x.i} else multiset{})
            && (Busy(e.worker) ==> (PastProbe(e.worker) <==> PastProbe(x) || x.Counted?))
            && (!Busy(e.worker) ==> PastProbe(x))
  {
  }

  // ---------- All machines ----------

  predicate Fed(c: Call, p: Pool, i: nat) {
    p.next <= |c.jobs| && i in c.jobs[..p.next]
  }

  ghost predicate InHand(p: Pool, i: nat) {
    exists w :: 0 <= w < |p.workers| && Busy(p.workers[w]) && p.workers[w].i == i
  }

  /** Every machine is waiting to be sent, in the hands of one worker, or done. */
  ghost predicate Partition(c: Call, p: Pool) {
    && p.next <= |c.jobs|
    && (p.feeder.Closed? ==> p.next == |c.jobs|)
    && (p.feeder.Sending? ==> p.next < |c.jobs|)
    && (forall i :: i in p.done ==> Fed(c, p, i))
    && (forall w :: 0 <= w < |p.workers| && Busy(p.workers[w]) ==> Fed(c, p, p.workers[w].i) && p.workers[w].i !in p.done)
    && (forall v, w :: 0 <= v < w < |p.workers| && Busy(p.workers[v]) && Busy(p.workers[w]) ==>
          p.workers[v].i != p.workers[w].i)
    && forall i :: Fed(c, p, i) ==> i in p.done || InHand(p, i)
  }

  ghost predicate TablesOk(c: Call, p: Pool) {
    && Shaped(c, p.db)
    && (forall w :: 0 <= w < |p.workers| ==> StageOk(c, p.db, p.workers[w]))
    && (forall i :: i in p.done ==> DoneOk(c, p.db, i))
    && forall i :: i in c.orig.machines && !Fed(c, p, i) ==> Local(c, p.db, i, c.orig.machines[i], {})
  }

  ghost predicate TalliesOk(c: Call, p: Pool) {
    && (forall i :: i in p.tallied ==> Fed(c, p, i))
    && (forall w :: 0 <= w < |p.workers| ==> TallyOk(c, p.workers[w], p.tallied))
    && (forall i :: i in p.done && i in c.orig.machines ==>
          (i in p.tallied <==> (c.orig.machines[i].enabled != (i in c.world.up))))
    && p.reEnabled == |p.tallied * c.world.up| && p.disabled == |p.tallied - c.world.up|
    && p.reachable == |p.done * c.world.up| && p.unreachable == |p.done - c.world.up|
  }

  ghost predicate ProbesOk(c: Call, p: Pool) {
    && (forall i :: i in p.done ==> p.probes[i] == 1)
    && (forall w :: 0 <= w < |p.workers| && Busy(p.workers[w]) ==>
          p.probes[p.workers[w].i] == if PastProbe(p.workers[w]) then 1 else 0)
    && forall i :: !Fed(c, p, i) ==> p.probes[i] == 0
  }

  ghost predicate Refines(c: Call, p: Pool) {
    !p.cancelled && Partition(c, p) && TablesOk(c, p) && TalliesOk(c, p) && ProbesOk(c, p)
  }

  lemma BegunRefines(c: Call, p: Pool)
    requires Loaded(c) && Begun(c, p)
    ensures Refines(c, p)
  {
  }

  lemma StageElsewhere(c: Call, db: Store, after: Store, i: nat, x: Worker)
    requires Elsewhere(c, db, after, i) && StageOk(c, db, x) && (Busy(x) ==> x.i != i)
    ensures StageOk(c, after, x)
  {
  }

  // ---------- The feeder and the channel ----------

  lemma SendPartition(c: Call, p: Pool, w: nat)
    requires Loaded(c) && Able(c, p, Send(w)) && Partition(c, p)
    ensures Partition(c, Act(c, p, Send(w)))
    ensures forall i :: Fed(c, Act(c, p, Send(w)), i) <==> Fed(c, p, i) || i == c.jobs[p.next]
    ensures !Fed(c, p, c.jobs[p.next]) && c.jobs[p.next] in c.orig.machines
  {
    var q := Act(c, p, Send(w));
    var j := c.jobs[p.next];
    assert j in c.jobs;
    assert c.jobs[..p.next + 1] == c.jobs[..p.next] + [j];
    assert !Fed(c, p, j);
    assert InHand(q, j) by { assert q.workers[w].i == j; }
    forall i | InHand(p, i) ensures InHand(q, i) {
      var v :| 0 <= v < |p.workers| && Busy(p.workers[v]) && p.workers[v].i == i;
      assert q.workers[v] == p.workers[v];
    }
  }

  /** Only waiting and new workers change, so nothing that was in hand or done does. */
  ghost predicate OnlyIdleChange(c: Call, p: Pool, q: Pool) {
    && q.db == p.db && q.done == p.done && q.tallied == p.tallied && q.probes == p.probes
    && q.reachable == p.reachable && q.unreachable == p.unreachable
    && q.disabled == p.disabled && q.reEnabled == p.reEnabled
    && |q.workers| == |p.workers|
    && (forall i :: Fed(c, p, i) ==> Fed(c, q, i))
    && forall v :: 0 <= v < |q.workers| ==>
         || q.workers[v] == p.workers[v]
         || !Busy(q.workers[v])
         || (q.workers[v].Received? && !Fed(c, p, q.workers[v].i) && q.workers[v].i in c.orig.machines)
  }

  lemma IdleChangeTables(c: Call, p: Pool, q: Pool)
    requires OnlyIdleChange(c, p, q) && TablesOk(c, p)
    ensures TablesOk(c, q)
  {
  }

  lemma IdleChangeTallies(c: Call, p: Pool, q: Pool)
    requires OnlyIdleChange(c, p, q) && TalliesOk(c, p)
    ensures TalliesOk(c, q)
  {
    forall v | 0 <= v < |q.workers| ensures TallyOk(c, q.workers[v], q.tallied) {
      assert TallyOk(c, p.workers[v], p.tallied);
    }
  }

  lemma IdleChangeProbes(c: Call, p: Pool, q: Pool)
    requires OnlyIdleChange(c, p, q) && ProbesOk(c, p)
    ensures ProbesOk(c, q)
  {
  }

  lemma SendIsIdle(c: Call, p: Pool, w: nat)
    requires Able(c, p, Send(w))
    requires forall i :: Fed(c, p, i) ==> Fed(c, Act(c, p, Send(w)), i)
    requires !Fed(c, p, c.jobs[p.next]) && c.jobs[p.next] in c.orig.machines
    ensures OnlyIdleChange(c, p, Act(c, p, Send(w)))
  {
  }

  lemma SendRefines(c: Call, p: Pool, w: nat)
    requires Loaded(c) && Able(c, p, Send(w)) && Refines(c, p)
    ensures Refines(c, Act(c, p, Send(w)))
  {
    var q := Act(c, p, Send(w));
    SendPartition(c, p, w);
    SendIsIdle(c, p, w);
    IdleChangeTables(c, p, q);
    IdleChangeTallies(c, p, q);
    IdleChangeProbes(c, p, q);
  }

  lemma IdlePartition(c: Call, p: Pool, a: Action)
    requires Able(c, p, a) && Partition(c, p) && !p.cancelled && (a.Feed? || a.Leave?)
    ensures Partition(c, Act(c, p, a)) && OnlyIdleChange(c, p, Act(c, p, a))
  {
    var q := Act(c, p, a);
    assert forall i :: Fed(c, q, i) <==> Fed(c, p, i);
    forall i | InHand(p, i) ensures InHand(q, i) {
      var v :| 0 <= v < |p.workers| && Busy(p.workers[v]) && p.workers[v].i == i;
      assert q.workers[v] == p.workers[v];
    }
  }

  lemma IdleRefines(c: Call, p: Pool, a: Action)
    requires Able(c, p, a) && Refines(c, p) && (a.Feed? || a.Leave?)
    ensures Refines(c, Act(c, p, a))
  {
    var q := Act(c, p, a);
    IdlePartition(c, p, a);
    IdleChangeTables(c, p, q);
    IdleChangeTallies(c, p, q);
    IdleChangeProbes(c, p, q);
  }

  // ---------- A worker's action ----------

  lemma WorkPartition(c: Call, p: Pool, w: nat, e: Effect)
    requires Partition(c, p) && w < |p.workers| && Busy(p.workers[w])
    requires Busy(e.worker) ==> e.worker.i == p.workers[w].i && e.done == {}
    requires !Busy(e.worker) ==> e.done == {p.workers[w].i}
    ensures Partition(c, Perform(p, w, e))
    ensures forall i :: Fed(c, Perform(p, w, e), i) <==> Fed(c, p, i)
  {
    var q := Perform(p, w, e);
    forall i | InHand(p, i) ensures InHand(q, i) || i in q.done {
      var v :| 0 <= v < |p.workers| && Busy(p.workers[v]) && p.workers[v].i == i;
      assert v != w ==> q.workers[v] == p.workers[v];
      assert q.workers[w] == e.worker;
    }
  }

  lemma WorkTables(c: Call, p: Pool, w: nat, e: Effect)
    requires Partition(c, p) && TablesOk(c, p) && w < |p.workers| && Busy(p.workers[w])
    requires Shaped(c, e.db) && StageOk(c, e.db, e.worker) && Elsewhere(c, p.db, e.db, p.workers[w].i)
    requires Busy(e.worker) ==> e.worker.i == p.workers[w].i && e.done == {}
    requires !Busy(e.worker) ==> e.done == {p.workers[w].i} && DoneOk(c, e.db, p.workers[w].i)
    ensures TablesOk(c, Perform(p, w, e))
  {
    var q := Perform(p, w, e);
    forall v | 0 <= v < |q.workers| ensures StageOk(c, q.db, q.workers[v]) {
      if v != w {
        StageElsewhere(c, p.db, e.db, p.workers[w].i, p.workers[v]);
      }
    }
    forall i | i in q.done ensures DoneOk(c, q.db, i) {
      if i in p.done {
        assert DoneOk(c, p.db, i) && i != p.workers[w].i;
      }
    }
    forall i | i in c.orig.machines && !Fed(c, q, i) ensures Local(c, q.db, i, c.orig.machines[i], {}) {
      assert !Fed(c, p, i) && i != p.workers[w].i;
    }
  }

  lemma UnionCounts(a: set<nat>, b: set<nat>, up: set<nat>)
    requires a * b == {}
    ensures |(a + b) * up| == |a * up| + |b * up|
    ensures |(a + b) - up| == |a - up| + |b - up|
  {
    assert (a + b) * up == a * up + b * up && (a * up) * (b * up) == {};
    assert (a + b) - up == (a - up) + (b - up) && (a - up) * (b - up) == {};
  }

  lemma WorkCounts(c: Call, p: Pool, w: nat, e: Effect)
    requires TalliesOk(c, p) && w < |p.workers|
    requires p.tallied * e.tallied == {} && p.done * e.done == {}
    requires e.reEnabled == |e.tallied * c.world.up| && e.disabled == |e.tallied - c.world.up|
    requires e.reachable == |e.done * c.world.up| && e.unreachable == |e.done - c.world.up|
    ensures var q := Perform(p, w, e);
            && q.reEnabled == |q.tallied * c.world.up| && q.disabled == |q.tallied - c.world.up|
            && q.reachable == |q.done * c.world.up| && q.unreachable == |q.done - c.world.up|
  {
    UnionCounts(p.tallied, e.tallied, c.world.up);
    UnionCounts(p.done, e.done, c.world.up);
  }

  /** One worker's tally changes the tally of its own machine only. */
  lemma WorkTallySets(c: Call, p: Pool, w: nat, e: Effect)
    requires Partition(c, p) && TalliesOk(c, p) && w < |p.workers| && Busy(p.workers[w])
    requires TallyOk(c, e.worker, p.tallied + e.tallied) && e.tallied <= {p.workers[w].i}
    requires Busy(e.worker) ==> e.worker.i == p.workers[w].i && e.done == {}
    requires !Busy(e.worker) ==> e.done == {p.workers[w].i} && e.tallied == {}
    requires !Busy(e.worker) && p.workers[w].i in c.orig.machines ==>
      (p.workers[w].i in p.tallied <==> (c.orig.machines[p.workers[w].i].enabled != (p.workers[w].i in c.world.up)))
    ensures var q := Perform(p, w, e);
            && (forall v :: 0 <= v < |q.workers| ==> TallyOk(c, q.workers[v], q.tallied))
            && (forall i :: i in q.done && i in c.orig.machines ==>
                  (i in q.tallied <==> (c.orig.machines[i].enabled != (i in c.world.up))))
            && forall i :: i in q.tallied ==> Fed(c, q, i)
  {
    var q := Perform(p, w, e);
    forall v | 0 <= v < |q.workers| ensures TallyOk(c, q.workers[v], q.tallied) {
      assert TallyOk(c, p.workers[v], p.tallied);
      assert v != w ==> q.workers[v] == p.workers[v];
    }
    assert forall i :: Fed(c, q, i) <==> Fed(c, p, i);
  }

  lemma WorkTallies(c: Call, p: Pool, w: nat, ok: bool, order: seq<nat>)
    requires c.reliable && Able(c, p, Work(w, ok, order)) && !p.cancelled
    requires Partition(c, p) && TablesOk(c, p) && TalliesOk(c, p)
    ensures TalliesOk(c, Act(c, p, Work(w, ok, order)))
  {
    var x := p.workers[w];
    var e := Do(c, p.db, false, x, ok, order);
    assert StageOk(c, p.db, x) && TallyOk(c, x, p.tallied);
    EffectRefines(c, p.db, x, ok, order);
    EffectCounts(c, p.db, x, ok, order);
    EffectTally(c, p.db, x, ok, order, p.tallied);
    assert p.done * e.done == {} && p.tallied * e.tallied == {};
    WorkTallySets(c, p, w, e);
    WorkCounts(c, p, w, e);
  }

  lemma WorkProbes(c: Call, p: Pool, w: nat, e: Effect)
    requires Partition(c, p) && ProbesOk(c, p) && w < |p.workers| && Busy(p.workers[w])
    requires Busy(e.worker) ==> e.worker.i == p.workers[w].i && e.done == {}
    requires !Busy(e.worker) ==> e.done == {p.workers[w].i} && PastProbe(p.workers[w])
    requires Busy(e.worker) ==> (PastProbe(e.worker) <==> PastProbe(p.workers[w]) || p.workers[w].Counted?)
    requires e.probes == if p.workers[w].Counted? then multiset{p.workers[w].i} else multiset{}
    ensures ProbesOk(c, Perform(p, w, e))
  {
    var q := Perform(p, w, e);
    var i := p.workers[w].i;
    assert forall j :: j != i ==> q.probes[j] == p.probes[j];
    assert q.probes[i] == p.probes[i] + if p.workers[w].Counted? then 1 else 0;
    forall j ensures Fed(c, q, j) <==> Fed(c, p, j) {
    }
  }

  lemma WorkRefines(c: Call, p: Pool, w: nat, ok: bool, order: seq<nat>)
    requires c.reliable && Able(c, p, Work(w, ok, order)) && Refines(c, p)
    ensures Refines(c, Act(c, p, Work(w, ok, order)))
  {
    var x := p.workers[w];
    var e := Do(c, p.db, false, x, ok, order);
    assert StageOk(c, p.db, x);
    EffectRefines(c, p.db, x, ok, order);
    WorkPartition(c, p, w, e);
    WorkTables(c, p, w, e);
    WorkTallies(c, p, w, ok, order);
    EffectProbes(c, p.db, x, ok, order);
    WorkProbes(c, p, w, e);
  }

  // ---------- Whole schedules ----------

  lemma ActRefines(c: Call, p: Pool, a: Action)
    requires Loaded(c) && c.reliable && Able(c, p, a) && !a.Cancel? && Refines(c, p)
    ensures Refines(c, Act(c, p, a))
  {
    match a
    case Send(w) => SendRefines(c, p, w);
    case Work(w, ok, order) => WorkRefines(c, p, w, ok, order);
    case _ => IdleRefines(c, p, a);
  }

  lemma NextRefines(c: Call, p: Pool, a: Action, q: Pool)
    requires Loaded(c) && c.reliable && Able(c, p, a) && q == Act(c, p, a) && !q.cancelled
    requires p.cancelled || Refines(c, p)
    ensures Refines(c, q)
  {
    ActRefines(c, p, a);
  }

  lemma ScheduleStep(c: Call, ps: seq<Pool>, acts: seq<Action>, n: nat)
    requires IsSchedule(c, ps, acts) && n < |acts|
    ensures Able(c, ps[n], acts[n]) && ps[n + 1] == Act(c, ps[n], acts[n])
  {
  }

  lemma {:induction false} ScheduleRefines(c: Call, ps: seq<Pool>, acts: seq<Action>, n: nat)
    requires Loaded(c) && c.reliable && IsSchedule(c, ps, acts) && n < |ps|
    ensures ps[n].cancelled || Refines(c, ps[n])
    decreases n
  {
    if n == 0 {
      BegunRefines(c, ps[0]);
    } else {
      ScheduleRefines(c, ps, acts, n - 1);
      ScheduleStep(c, ps, acts, n - 1);
      if !ps[n].cancelled {
        NextRefines(c, ps[n - 1], acts[n - 1], ps[n]);
      }
    }
  }

  /** Machines that were disabled and answered; machines that were enabled and did not. */
  function ReEnabled(c: Call): set<nat> {
    set i | i in c.orig.machines && i in c.world.up && !c.orig.machines[i].enabled
  }

  function Disabled(c: Call): set<nat> {
    set i | i in c.orig.machines && i !in c.world.up && c.orig.machines[i].enabled
  }

  lemma FinishedAllDone(c: Call, p: Pool)
    requires Loaded(c) && Partition(c, p) && Finished(p)
    ensures p.done == c.orig.machines.Keys
    ensures forall i :: Fed(c, p, i) <==> i in c.orig.machines
  {
    assert c.jobs[..p.next] == c.jobs;
    forall i | i in c.orig.machines ensures i in p.done {
      assert Fed(c, p, i) && !InHand(p, i);
    }
  }

  lemma AllDoneIsChecked(c: Call, db: Store)
    requires Shaped(c, db) && forall i :: i in c.orig.machines ==> DoneOk(c, db, i)
    requires forall id :: id in c.orig.rows ==> c.orig.rows[id].machineId in c.orig.machines
    ensures db == Checked(c.orig, c.world)
  {
    forall i | i in c.orig.machines ensures db.machines[i] == CheckedMachine(c.orig, c.world, i) {
      assert DoneOk(c, db, i);
    }
    assert db.machines == Checked(c.orig, c.world).machines;
    forall id | id in c.orig.rows ensures id in db.rows <==> !Cleared(c.orig, c.world, id) {
      assert DoneOk(c, db, c.orig.rows[id].machineId);
    }
    assert db.rows == Checked(c.orig, c.world).rows;
  }

  lemma FinishedTallies(c: Call, p: Pool)
    requires TalliesOk(c, p) && p.done == c.orig.machines.Keys
    requires forall i :: Fed(c, p, i) <==> i in c.orig.machines
    ensures p.tallied * c.world.up == ReEnabled(c) && p.tallied - c.world.up == Disabled(c)
  {
    forall i ensures i in p.tallied <==> i in c.orig.machines && c.orig.machines[i].enabled != (i in c.world.up) {
    }
  }

  lemma FinishedCounts(c: Call, p: Pool)
    requires TalliesOk(c, p) && p.done == c.orig.machines.Keys
    requires forall i :: Fed(c, p, i) <==> i in c.orig.machines
    ensures var all, up := c.orig.machines.Keys, c.world.up;
            && p.reachable == |all * up| && p.unreachable == |all - up| && |all| == |all * up| + |all - up|
            && p.reEnabled == |ReEnabled(c)| && p.disabled == |Disabled(c)|
  {
    var all, up := c.orig.machines.Keys, c.world.up;
    assert all == all * up + (all - up);
    FinishedTallies(c, p);
  }

  lemma FinishedProbes(c: Call, p: Pool)
    requires ProbesOk(c, p) && p.done == c.orig.machines.Keys
    requires forall i :: Fed(c, p, i) <==> i in c.orig.machines
    ensures p.probes == multiset(c.orig.machines.Keys)
  {
    forall i: nat ensures p.probes[i] == if i in c.orig.machines then 1 else 0 {
    }
  }

  lemma FinishedIsChecked(c: Call, p: Pool)
    requires Loaded(c) && Partition(c, p) && TablesOk(c, p) && Finished(p)
    ensures p.db == Checked(c.orig, c.world) && p.db.machines.Keys == c.orig.machines.Keys
    ensures forall i :: i in c.orig.machines ==> (p.db.machines[i].enabled <==> i in c.world.up)
  {
    FinishedAllDone(c, p);
    AllDoneIsChecked(c, p.db);
  }

  /** The pool refines the sequential pass: without cancellation, a schedule that can go no
      further, whatever the number of workers and the interleaving, has probed every machine
      exactly once, left the tables of the sequential pass, and counted exactly. */
  lemma PoolRefinesSequentialPass(c: Call, ps: seq<Pool>, acts: seq<Action>, n: nat)
    requires Loaded(c) && c.reliable && IsSchedule(c, ps, acts) && n < |ps| && !ps[n].cancelled && Stuck(c, ps[n])
    ensures Finished(ps[n])
    ensures ps[n].db == Checked(c.orig, c.world)
    ensures ps[n].db.machines.Keys == c.orig.machines.Keys
    ensures forall i :: i in c.orig.machines ==> (ps[n].db.machines[i].enabled <==> i in c.world.up)
    ensures ps[n].probes == multiset(c.orig.machines.Keys)
    ensures var all, up := c.orig.machines.Keys, c.world.up;
            && ps[n].total == |all| && ps[n].reachable == |all * up| && ps[n].unreachable == |all - up|
            && ps[n].reEnabled == |ReEnabled(c)| && ps[n].disabled == |Disabled(c)|
  {
    var p := ps[n];
    ProgressOrJam(c, ps, acts, n);
    ScheduleRefines(c, ps, acts, n);
    FinishedIsChecked(c, p);
    FinishedAllDone(c, p);
    FinishedCounts(c, p);
    FinishedProbes(c, p);
    StatsAddUp(c, ps, acts, n);
  }
}
