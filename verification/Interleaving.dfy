/** The concurrent health pool beside the API: any interleaving of worker actions, API steps and
    clock ticks is a run of the protocol, so what holds of every run holds there too.
 */
module Interleaving {
  import opened Wrappers
  import opened Tables
  import opened Sets
  import opened Protocol
  import opened Invariant
  import opened Guarantees
  import opened HealthPool
  import opened Refinement
  import Losses

  /** The pool works on the tables of the system, at the system's clock. */
  datatype Joint = Joint(sys: Sys, pool: Pool)

  datatype Move = ByApi(e: Step) | ByPool(a: Action)

  /** Steps of the API and the environment. */
  predicate IsApi(e: Step) {
    || e.Tick? || e.Register? || e.SetOnline? || e.Reserve? || e.Insert? || e.Revert? || e.Charge?
    || e.LoadDelete? || e.ClearDelete?
  }

  function AtTime(c: Call, now: Time): Call {
    c.(world := c.world.(now := now))
  }

  ghost predicate CanMove(c: Call, j: Joint, m: Move) {
    match m
    case ByApi(e) => IsApi(e) && Enabled(j.sys, e)
    case ByPool(a) => Able(AtTime(c, j.sys.now), j.pool, a)
  }

  ghost function Moved(c: Call, j: Joint, m: Move): Joint
    requires CanMove(c, j, m)
  {
    match m
    case ByApi(e) => var s := Apply(j.sys, e); Joint(s, j.pool.(db := s.store))
    case ByPool(a) => var q := Act(AtTime(c, j.sys.now), j.pool, a); Joint(j.sys.(store := q.db), q)
  }

  /** The pool starts on the present tables, with machines that were loaded at some earlier moment. */
  ghost predicate Starts(c: Call, j: Joint) {
    && Loaded(c) && Begun(c, j.pool.(db := c.orig))
    && j.pool.db == j.sys.store && j.sys.phase == Phase.Checking
  }

  ghost predicate IsJointRun(c: Call, js: seq<Joint>, ms: seq<Move>) {
    && |js| == |ms| + 1 && Starts(c, js[0])
    && forall k :: 0 <= k < |ms| ==> CanMove(c, js[k], ms[k]) && js[k + 1] == Moved(c, js[k], ms[k])
  }

  // ---------- Simulation ----------

  /** Workers hold distinct machines, all of them handed out already. */
  ghost predicate HandsOk(c: Call, p: Pool) {
    && p.next <= |c.jobs|
    && (forall w :: 0 <= w < |p.workers| && Busy(p.workers[w]) ==> p.workers[w].i in c.jobs[..p.next])
    && forall v, w :: 0 <= v < w < |p.workers| && Busy(p.workers[v]) && Busy(p.workers[w]) ==>
         p.workers[v].i != p.workers[w].i
  }

  /** The rows a worker still has to try are among those the scheduler has loaded. */
  ghost predicate Remembers(expired: set<Handle>, x: Worker) {
    x.Clearing? || x.Wiping? ==>
      Distinct(x.pending) && forall k :: 0 <= k < |x.pending| ==> Handle(x.pending[k], x.i) in expired
  }

  /** x is the joint state seen as a protocol state. */
  ghost predicate Simulates(c: Call, j: Joint, x: Sys) {
    && x == j.sys.(expired := x.expired)
    && j.pool.db == j.sys.store && j.sys.phase == Phase.Checking
    && HandsOk(c, j.pool)
    && forall w :: 0 <= w < |j.pool.workers| ==> Remembers(x.expired, j.pool.workers[w])
  }

  /** What the API does has nothing to do with what the scheduler remembers. */
  lemma ApiStep(s: Sys, x: Sys, e: Step)
    requires IsApi(e) && Enabled(s, e) && x == s.(expired := x.expired)
    ensures Enabled(x, e) && Apply(x, e) == Apply(s, e).(expired := x.expired)
    ensures Apply(s, e).phase == s.phase
  {
  }

  lemma WorkerKeepsMachine(c: Call, db: Store, cancelled: bool, x: Worker, ok: bool, order: seq<nat>)
    requires Busy(x) && Possible(c, db, cancelled, x, ok, order)
    ensures var y := Do(c, db, cancelled, x, ok, order).worker;
            && (Busy(y) ==> y.i == x.i)
            && (y.Clearing? || y.Wiping? ==> x.Tallied? || x.Clearing? || x.Wiping?)
  {
  }

  lemma PoolKeepsHands(c: Call, p: Pool, a: Action)
    requires Loaded(c) && Able(c, p, a) && HandsOk(c, p)
    ensures HandsOk(c, Act(c, p, a))
  {
    match a
    case Send(w) =>
      var j := c.jobs[p.next];
      assert c.jobs[..p.next + 1] == c.jobs[..p.next] + [j];
      assert j !in c.jobs[..p.next];
    case Work(w, ok, order) => WorkerKeepsMachine(c, p.db, p.cancelled, p.workers[w], ok, order);
    case _ =>
  }

  /** After its action a worker still remembers its own rows. */
  lemma WorkerRemembers(c: Call, s: Sys, cancelled: bool, x: Worker, ok: bool, order: seq<nat>, expired: set<Handle>)
    requires Busy(x) && Possible(c, s.store, cancelled, x, ok, order) && Remembers(s.expired, x)
    requires (if x.Wiping? then s.expired - {Handle(x.pending[0], x.i)} else s.expired) <= expired
    requires x.Tallied? && ok ==> forall k :: 0 <= k < |order| ==> Handle(order[k], x.i) in expired
    ensures Remembers(expired, Do(c, s.store, cancelled, x, ok, order).worker)
  {
  }

  /** And nobody else's rows are forgotten, because nobody else holds that machine. */
  lemma OthersRemember(expired: set<Handle>, later: set<Handle>, h: Handle, x: Worker)
    requires Remembers(expired, x) && expired - {h} <= later && (Busy(x) ==> x.i != h.mid)
    ensures Remembers(later, x)
  {
  }

  lemma AllRemember(c: Call, p: Pool, workers: seq<Worker>, w: nat, expired: set<Handle>, later: set<Handle>)
    requires HandsOk(c, p) && w < |p.workers| == |workers| && Busy(p.workers[w])
    requires forall u :: 0 <= u < |workers| ==> Remembers(expired, p.workers[u]) && (u != w ==> workers[u] == p.workers[u])
    requires var x := p.workers[w];
             (x.Wiping? ==> x.pending != [])
             && (if x.Wiping? then expired - {Handle(x.pending[0], x.i)} else expired) <= later
    requires Remembers(later, workers[w])
    ensures forall u :: 0 <= u < |workers| ==> Remembers(later, workers[u])
  {
    var x := p.workers[w];
    var h := Handle(if x.Wiping? then x.pending[0] else 0, x.i);
    forall u | 0 <= u < |workers| && u != w ensures Remembers(later, workers[u]) {
      OthersRemember(expired, later, h, p.workers[u]);
    }
  }

  lemma WorkSimulates(c: Call, j: Joint, w: nat, ok: bool, order: seq<nat>, x: Sys) returns (y: Sys, e: Option<Step>)
    requires Loaded(c) && CanMove(c, j, ByPool(Work(w, ok, order))) && Simulates(c, j, x)
    ensures Simulates(c, Moved(c, j, ByPool(Work(w, ok, order))), y)
    ensures e.None? ==> y == x
    ensures e.Some? ==> Enabled(x, e.value) && y == Apply(x, e.value)
    ensures e == StepOf(c, j.pool.workers[w], ok)
  {
    var at, a := AtTime(c, j.sys.now), Work(w, ok, order);
    var v := j.pool.workers[w];
    var k := Moved(c, j, ByPool(a));
    e := StepOf(c, v, ok);
    assert Remembers(x.expired, v);
    WorkerActsByProtocol(at, x, j.pool.cancelled, v, ok, order);
    y := if e.None? then x else Apply(x, e.value);
    PoolKeepsHands(at, j.pool, a);
    WorkerRemembers(at, x, j.pool.cancelled, v, ok, order, y.expired);
    AllRemember(c, j.pool, k.pool.workers, w, x.expired, y.expired);
  }

  /** Every move is one protocol step, or leaves the protocol state alone. */
  lemma MoveSimulates(c: Call, j: Joint, m: Move, x: Sys) returns (y: Sys, e: Option<Step>)
    requires Loaded(c) && CanMove(c, j, m) && Simulates(c, j, x)
    ensures Simulates(c, Moved(c, j, m), y)
    ensures e.None? ==> y == x
    ensures e.Some? ==> Enabled(x, e.value) && y == Apply(x, e.value)
    ensures e.Some? && SafeMove(c, j, m) ==> Safe(x, e.value)
  {
    match m
    case ByApi(step) =>
      ApiStep(j.sys, x, step);
      y, e := Apply(x, step), Some(step);
    case ByPool(Work(w, ok, order)) =>
      y, e := WorkSimulates(c, j, w, ok, order, x);
    case ByPool(a) =>
      PoolKeepsHands(AtTime(c, j.sys.now), j.pool, a);
      y, e := x, None;
  }

  /** The move is not a stale release, by a Delete or by a worker. */
  predicate SafeMove(c: Call, j: Joint, m: Move) {
    match m
    case ByApi(e) => Safe(j.sys, e)
    case ByPool(Work(w, ok, _)) =>
      w < |j.pool.workers| && StepOf(c, j.pool.workers[w], ok).Some? && StepOf(c, j.pool.workers[w], ok).value.ClearExpired? ==>
        SafeRelease(j.sys.store, StepOf(c, j.pool.workers[w], ok).value.h)
    case ByPool(_) => true
  }

  // ---------- Whole runs ----------

  /** Any interleaving of the pool with the API, started in a state that a run of the protocol
      reaches, continues that run; and if no release is stale in either part, none is in the whole. */
  lemma {:induction false} JointRunIsRun(c: Call, js: seq<Joint>, ms: seq<Move>, n: nat, states: seq<Sys>, steps: seq<Step>)
      returns (longer: seq<Sys>, more: seq<Step>)
    requires IsJointRun(c, js, ms) && n < |js|
    requires IsRun(states, steps) && states[|steps|] == js[0].sys
    ensures IsRun(longer, more) && states <= longer && steps <= more
    ensures Simulates(c, js[n], longer[|more|])
    ensures SafeRun(states, steps) && (forall k :: 0 <= k < n ==> SafeMove(c, js[k], ms[k])) ==> SafeRun(longer, more)
    decreases n
  {
    if n == 0 {
      longer, more := states, steps;
    } else {
      longer, more := JointRunIsRun(c, js, ms, n - 1, states, steps);
      assert CanMove(c, js[n - 1], ms[n - 1]) && js[n] == Moved(c, js[n - 1], ms[n - 1]);
      var y, e := MoveSimulates(c, js[n - 1], ms[n - 1], longer[|more|]);
      if e.Some? {
        longer, more := Losses.Extend(longer, more, e.value);
      }
    }
  }

  /** So ownership is exclusive while the pool runs beside the API, as long as no release is stale. */
  lemma PoolBesideApiIsExclusive(c: Call, js: seq<Joint>, ms: seq<Move>, n: nat, states: seq<Sys>, steps: seq<Step>)
    requires IsJointRun(c, js, ms) && n < |js|
    requires SafeRun(states, steps) && states[|steps|] == js[0].sys
    requires forall k :: 0 <= k < n ==> SafeMove(c, js[k], ms[k])
    ensures Exclusive(js[n].sys)
  {
    var longer, more := JointRunIsRun(c, js, ms, n, states, steps);
    ExclusiveOwnership(longer, more, |more|);
    SameOwners(longer[|more|], js[n].sys);
  }

  lemma SameOwners(x: Sys, s: Sys)
    requires Exclusive(x) && x == s.(expired := x.expired)
    ensures Exclusive(s)
  {
    forall o, mid ensures Owns(s, o, mid) <==> Owns(x, o, mid) {
    }
  }
}
