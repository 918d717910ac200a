/** The concurrent health check: a feeder, an unbuffered channel and a pool of workers with
    shared counters and cancellation, as a transition system over their atomic actions.

    Without cancellation every schedule ends, and ends with the tables of the sequential
    pass; with cancellation the counters still agree, and there is exactly one way to hang.
 */
module HealthPool {
  import opened Tables
  import opened Sets
  import opened HealthPass

  /** A worker, by the next thing it does about machine `i`. */
  datatype Worker =
    | Waiting                              // receiving from the channel
    | Received(i: nat)                     // checking for cancellation, counting the machine
    | Counted(i: nat)                      // probing
    | Answering(i: nat)                    // updating last_seen_at
    | Touched(i: nat)                      // enabling if disabled
    | Reopened(i: nat)                     // counting the re-enabled machine
    | Tallied(i: nat)                      // loading expired rows
    | Clearing(i: nat, pending: seq<nat>)  // next row, if not cancelled
    | Wiping(i: nat, pending: seq<nat>)    // deleting the user of the first pending row
    | Passed(i: nat)                       // counting the machine as reachable
    | Silent(i: nat)                       // disabling if the snapshot says enabled
    | Shut(i: nat)                         // counting the disabled machine
    | Lost(i: nat)                         // counting the machine as unreachable
    | Exited

  datatype Feeder = Checking | Sending | Closed

  /** `done`, `tallied` and `probes` are histories: machines finished, machines counted as
      disabled or re-enabled, and probes made. */
  datatype Pool = Pool(
    db: Store,
    next: nat,
    feeder: Feeder,
    cancelled: bool,
    workers: seq<Worker>,
    total: nat, reachable: nat, unreachable: nat, disabled: nat, reEnabled: nat,
    done: set<nat>, tallied: set<nat>,
    probes: multiset<nat>)

  /** One call of RunOnce: the tables when the machines were loaded, the load order, the world,
      and whether every statement on a single machine or row goes through. */
  datatype Call = Call(orig: Store, jobs: seq<nat>, world: World, reliable: bool)

  ghost predicate Loaded(c: Call) {
    && Lists(c.jobs, c.orig.machines.Keys)
    && forall id :: id in c.orig.rows ==> c.orig.rows[id].machineId in c.orig.machines
  }

  /** A cancellation, the feeder alone, a rendezvous on the channel, a worker that finds the
      channel closed, or a worker's next action with whatever outcome or row order it meets. */
  datatype Action =
    | Cancel
    | Feed
    | Send(w: nat)
    | Leave(w: nat)
    | Work(w: nat, ok: bool, order: seq<nat>)

  function ExpiredOn(db: Store, mid: nat, now: Time): set<nat> {
    set id | id in db.rows && db.rows[id].machineId == mid && Expired(db.rows[id], now)
             && mid in db.machines && db.machines[mid].enabled
  }

  predicate Busy(x: Worker) {
    !x.Waiting? && !x.Exited?
  }

  /** Outcomes the world allows. Once cancelled, a running command may also be killed; unless the
      call is reliable, any statement may fail, which is logged and otherwise ignored. */
  ghost predicate Possible(c: Call, db: Store, cancelled: bool, x: Worker, ok: bool, order: seq<nat>) {
    match x
    case Counted(i) => !cancelled ==> (ok <==> i in c.world.up)
    case Answering(_) => c.reliable ==> ok
    case Touched(_) => c.reliable ==> ok
    case Tallied(i) => (c.reliable ==> ok) && Lists(order, ExpiredOn(db, i, c.world.now))
    case Wiping(_, q) =>
      q != [] && (!cancelled ==> (ok ==> q[0] in c.world.wiped) && (c.reliable && q[0] in c.world.wiped ==> ok))
    case Silent(i) => i in c.orig.machines && (c.reliable ==> ok)
    case _ => Busy(x)
  }

  /** What one action of a worker leaves: its next state, the tables, and what it adds to the counters and histories. */
  datatype Effect = Effect(
    worker: Worker, db: Store,
    total: nat, reachable: nat, unreachable: nat, disabled: nat, reEnabled: nat,
    done: set<nat>, tallied: set<nat>, probes: multiset<nat>)

  function Goes(x: Worker, db: Store): Effect {
    Effect(x, db, 0, 0, 0, 0, 0, {}, {}, multiset{})
  }

  /** One action of a busy worker. */
  ghost function Do(c: Call, db: Store, cancelled: bool, x: Worker, ok: bool, order: seq<nat>): Effect
    requires Possible(c, db, cancelled, x, ok, order)
  {
    match x
    case Received(i) => if cancelled then Goes(Exited, db) else Goes(Counted(i), db).(total := 1)
    case Counted(i) => Goes(if ok then Answering(i) else Silent(i), db).(probes := multiset{i})
    case Answering(i) => Goes(Touched(i), if ok then Touch(db, i, c.world.now) else db)
    case Touched(i) =>
      if ok && i in db.machines && !db.machines[i].enabled then Goes(Reopened(i), SetEnabled(db, i, true))
      else Goes(Passed(i), db)
    case Reopened(i) => Goes(Tallied(i), db).(reEnabled := 1, tallied := {i})
    case Tallied(i) => Goes(if cancelled || !ok then Passed(i) else Clearing(i, order), db)
    case Clearing(i, q) => Goes(if cancelled || q == [] then Passed(i) else Wiping(i, q), db)
    case Wiping(i, q) => Goes(Clearing(i, q[1..]), if ok then ClearRow(db, q[0], i) else db)
    case Passed(i) => Goes(Waiting, db).(reachable := 1, done := {i})
    case Silent(i) =>
      if c.orig.machines[i].enabled && ok then Goes(Shut(i), SetEnabled(db, i, false)) else Goes(Lost(i), db)
    case Shut(i) => Goes(Lost(i), db).(disabled := 1, tallied := {i})
    case Lost(i) => Goes(Waiting, db).(unreachable := 1, done := {i})
  }

  ghost predicate Able(c: Call, p: Pool, a: Action) {
    match a
    case Cancel => !p.cancelled
    case Feed => p.feeder.Checking?
    case Send(w) => p.feeder.Sending? && p.next < |c.jobs| && w < |p.workers| && p.workers[w].Waiting?
    case Leave(w) => p.feeder.Closed? && w < |p.workers| && p.workers[w].Waiting?
    case Work(w, ok, order) =>
      w < |p.workers| && Busy(p.workers[w]) && Possible(c, p.db, p.cancelled, p.workers[w], ok, order)
  }

  function Perform(p: Pool, w: nat, e: Effect): Pool
    requires w < |p.workers|
  {
    p.(workers := p.workers[w := e.worker], db := e.db,
       total := p.total + e.total, reachable := p.reachable + e.reachable, unreachable := p.unreachable + e.unreachable,
       disabled := p.disabled + e.disabled, reEnabled := p.reEnabled + e.reEnabled,
       done := p.done + e.done, tallied := p.tallied + e.tallied, probes := p.probes + e.probes)
  }

  ghost function Act(c: Call, p: Pool, a: Action): Pool
    requires Able(c, p, a)
  {
    match a
    case Cancel => p.(cancelled := true)
    case Feed => p.(feeder := if p.next >= |c.jobs| || p.cancelled then Closed else Sending)
    case Send(w) => p.(workers := p.workers[w := Received(c.jobs[p.next])], next := p.next + 1, feeder := Checking)
    case Leave(w) => p.(workers := p.workers[w := Exited])
    case Work(w, ok, order) => Perform(p, w, Do(c, p.db, p.cancelled, p.workers[w], ok, order))
  }

  /** The pool when its goroutines start: at least one worker, because the default is ten. */
  ghost predicate Begun(c: Call, p: Pool) {
    && p.db == c.orig && p.next == 0 && p.feeder == Checking && !p.cancelled
    && |p.workers| >= 1 && (forall w :: 0 <= w < |p.workers| ==> p.workers[w] == Waiting)
    && p.total == 0 && p.reachable == 0 && p.unreachable == 0 && p.disabled == 0 && p.reEnabled == 0
    && p.done == {} && p.tallied == {} && p.probes == multiset{}
  }

  ghost predicate IsSchedule(c: Call, ps: seq<Pool>, acts: seq<Action>) {
    && |ps| == |acts| + 1 && Begun(c, ps[0])
    && forall k :: 0 <= k < |acts| ==> Able(c, ps[k], acts[k]) && ps[k + 1] == Act(c, ps[k], acts[k])
  }

  /** All goroutines returned: RunOnce gets past wg.Wait. */
  predicate Finished(p: Pool) {
    p.feeder.Closed? && forall w :: 0 <= w < |p.workers| ==> p.workers[w].Exited?
  }
}
