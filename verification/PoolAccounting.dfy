/** The pool's counters, its termination, and the one way it can hang, for every schedule
    with or without cancellation.
 */
module PoolAccounting {
  import opened Tables
  import opened Sets
  import opened HealthPass
  import opened HealthPool

  // ---------- Sums over the workers ----------

  function Sum(f: Worker -> nat, ws: seq<Worker>): nat {
    if ws == [] then 0 else f(ws[0]) + Sum(f, ws[1..])
  }

  lemma {:induction false} SumUpdate(f: Worker -> nat, ws: seq<Worker>, w: nat, x: Worker)
    requires w < |ws|
    ensures Sum(f, ws[w := x]) + f(ws[w]) == Sum(f, ws) + f(x)
    decreases |ws|
  {
    if w > 0 {
      assert ws[w := x][1..] == ws[1..][w - 1 := x];
      SumUpdate(f, ws[1..], w - 1, x);
    } else {
      assert ws[w := x][1..] == ws[1..];
    }
  }

  lemma {:induction false} SumZero(f: Worker -> nat, ws: seq<Worker>)
    requires forall w :: 0 <= w < |ws| ==> f(ws[w]) == 0
    ensures Sum(f, ws) == 0
    decreases |ws|
  {
    if ws != [] {
      forall w | 0 <= w < |ws[1..]| ensures f(ws[1..][w]) == 0 {
        assert ws[1..][w] == ws[w + 1];
      }
      SumZero(f, ws[1..]);
    }
  }

  // ---------- Counters ----------

  /** Counted in the total, not yet as reachable or unreachable. */
  function Open(x: Worker): nat {
    if x.Waiting? || x.Received? || x.Exited? then 0 else 1
  }

  /** About to be counted as unreachable. */
  function Losing(x: Worker): nat {
    if x.Lost? then 1 else 0
  }

  /** Possibly counted as re-enabled, not yet as reachable. */
  function Returning(x: Worker): nat {
    if x.Tallied? || x.Clearing? || x.Wiping? || x.Passed? then 1 else 0
  }

  ghost predicate Balanced(p: Pool) {
    && p.total == p.reachable + p.unreachable + Sum(Open, p.workers)
    && p.disabled <= p.unreachable + Sum(Losing, p.workers)
    && p.reEnabled <= p.reachable + Sum(Returning, p.workers)
  }

  lemma EffectBalanced(c: Call, db: Store, cancelled: bool, x: Worker, ok: bool, order: seq<nat>)
    requires Busy(x) && Possible(c, db, cancelled, x, ok, order)
    ensures var e := Do(c, db, cancelled, x, ok, order);
            && e.total + Open(x) == e.reachable + e.unreachable + Open(e.worker)
            && e.disabled + Losing(x) <= e.unreachable + Losing(e.worker)
            && e.reEnabled + Returning(x) <= e.reachable + Returning(e.worker)
  {
  }

  lemma SumsUpdate(ws: seq<Worker>, w: nat, x: Worker)
    requires w < |ws|
    ensures Sum(Open, ws[w := x]) + Open(ws[w]) == Sum(Open, ws) + Open(x)
    ensures Sum(Losing, ws[w := x]) + Losing(ws[w]) == Sum(Losing, ws) + Losing(x)
    ensures Sum(Returning, ws[w := x]) + Returning(ws[w]) == Sum(Returning, ws) + Returning(x)
  {
    SumUpdate(Open, ws, w, x);
    SumUpdate(Losing, ws, w, x);
    SumUpdate(Returning, ws, w, x);
  }

  lemma ActKeepsBalanced(c: Call, p: Pool, a: Action)
    requires Able(c, p, a) && Balanced(p)
    ensures Balanced(Act(c, p, a))
  {
    match a
    case Cancel =>
    case Feed =>
    case Send(w) => SumsUpdate(p.workers, w, Received(c.jobs[p.next]));
    case Leave(w) => SumsUpdate(p.workers, w, Exited);
    case Work(w, ok, order) =>
      EffectBalanced(c, p.db, p.cancelled, p.workers[w], ok, order);
      SumsUpdate(p.workers, w, Do(c, p.db, p.cancelled, p.workers[w], ok, order).worker);
  }

  lemma {:induction false} ScheduleBalanced(c: Call, ps: seq<Pool>, acts: seq<Action>, n: nat)
    requires IsSchedule(c, ps, acts) && n < |ps|
    ensures Balanced(ps[n])
    decreases n
  {
    if n == 0 {
      SumZero(Open, ps[0].workers);
      SumZero(Losing, ps[0].workers);
      SumZero(Returning, ps[0].workers);
    } else {
      ScheduleBalanced(c, ps, acts, n - 1);
      ActKeepsBalanced(c, ps[n - 1], acts[n - 1]);
    }
  }

  /** Whenever the pool has finished, cancelled or not, its statistics add up. */
  lemma StatsAddUp(c: Call, ps: seq<Pool>, acts: seq<Action>, n: nat)
    requires IsSchedule(c, ps, acts) && n < |ps| && Finished(ps[n])
    ensures ps[n].total == ps[n].reachable + ps[n].unreachable
    ensures ps[n].disabled <= ps[n].unreachable && ps[n].reEnabled <= ps[n].reachable
  {
    ScheduleBalanced(c, ps, acts, n);
    SumZero(Open, ps[n].workers);
    SumZero(Losing, ps[n].workers);
    SumZero(Returning, ps[n].workers);
  }

  // ---------- Termination ----------

  /** An upper bound on what a worker still does before it waits again, when at most b rows can be pending. */
  function Rank(b: nat, x: Worker): nat {
    match x
    case Exited => 0
    case Waiting => 1
    case Lost(_) => 2
    case Shut(_) => 3
    case Silent(_) => 4
    case Passed(_) => 2
    case Clearing(_, q) => 3 + 2 * |q|
    case Wiping(_, q) => 2 + 2 * |q|
    case Tallied(_) => 4 + 2 * b
    case Reopened(_) => 5 + 2 * b
    case Touched(_) => 6 + 2 * b
    case Answering(_) => 7 + 2 * b
    case Counted(_) => 8 + 2 * b
    case Received(_) => 9 + 2 * b
  }

  function Ranks(b: nat, ws: seq<Worker>): nat {
    if ws == [] then 0 else Rank(b, ws[0]) + Ranks(b, ws[1..])
  }

  lemma {:induction false} RanksUpdate(b: nat, ws: seq<Worker>, w: nat, x: Worker)
    requires w < |ws|
    ensures Ranks(b, ws[w := x]) + Rank(b, ws[w]) == Ranks(b, ws) + Rank(b, x)
    decreases |ws|
  {
    if w > 0 {
      assert ws[w := x][1..] == ws[1..][w - 1 := x];
      RanksUpdate(b, ws[1..], w - 1, x);
    } else {
      assert ws[w := x][1..] == ws[1..];
    }
  }

  function FeederRank(f: Feeder): nat {
    match f
    case Checking => 2
    case Sending => 1
    case Closed => 0
  }

  function Unsent(jobs: nat, b: nat): nat {
    if jobs == 0 then 0 else 10 + 2 * b + Unsent(jobs - 1, b)
  }

  function Remaining(c: Call, p: Pool): nat
    requires p.next <= |c.jobs|
  {
    Unsent(|c.jobs| - p.next, |c.orig.rows|) + FeederRank(p.feeder) + Ranks(|c.orig.rows|, p.workers)
    + (if p.cancelled then 0 else 1)
  }

  predicate WorkerOrderly(c: Call, x: Worker) {
    && (Busy(x) ==> x.i in c.orig.machines)
    && (x.Wiping? ==> x.pending != [])
  }

  ghost predicate DbOrderly(c: Call, db: Store) {
    db.rows.Keys <= c.orig.rows.Keys && db.machines.Keys == c.orig.machines.Keys
  }

  /** The feeder stays within its list, rows only go away, machines in a worker's hands were
      loaded, and only a closed channel or a cancellation makes a worker return. */
  ghost predicate Orderly(c: Call, p: Pool) {
    && p.next <= |c.jobs|
    && (p.feeder.Sending? ==> p.next < |c.jobs|)
    && DbOrderly(c, p.db)
    && |p.workers| >= 1
    && forall w :: 0 <= w < |p.workers| ==>
         WorkerOrderly(c, p.workers[w]) && (p.workers[w].Exited? ==> p.cancelled || p.feeder.Closed?)
  }

  lemma EffectOrderly(c: Call, db: Store, cancelled: bool, x: Worker, ok: bool, order: seq<nat>)
    requires Busy(x) && Possible(c, db, cancelled, x, ok, order) && DbOrderly(c, db) && WorkerOrderly(c, x)
    ensures var e := Do(c, db, cancelled, x, ok, order);
            DbOrderly(c, e.db) && WorkerOrderly(c, e.worker) && (e.worker.Exited? ==> cancelled)
  {
  }

  lemma ActKeepsOrderly(c: Call, p: Pool, a: Action)
    requires Loaded(c) && Able(c, p, a) && Orderly(c, p)
    ensures Orderly(c, Act(c, p, a))
  {
    match a
    case Cancel =>
    case Feed =>
    case Send(w) => assert c.jobs[p.next] in c.jobs;
    case Leave(w) =>
    case Work(w, ok, order) => EffectOrderly(c, p.db, p.cancelled, p.workers[w], ok, order);
  }

  lemma PendingBound(c: Call, db: Store, mid: nat, order: seq<nat>)
    requires DbOrderly(c, db) && Lists(order, ExpiredOn(db, mid, c.world.now))
    ensures |order| <= |c.orig.rows|
  {
    ListSize(order, ExpiredOn(db, mid, c.world.now));
    SubsetSize(ExpiredOn(db, mid, c.world.now), c.orig.rows.Keys);
  }

  lemma EffectLowersRank(c: Call, db: Store, cancelled: bool, x: Worker, ok: bool, order: seq<nat>)
    requires Busy(x) && Possible(c, db, cancelled, x, ok, order) && DbOrderly(c, db)
    ensures Rank(|c.orig.rows|, Do(c, db, cancelled, x, ok, order).worker) < Rank(|c.orig.rows|, x)
  {
    if x.Tallied? {
      PendingBound(c, db, x.i, order);
    }
  }

  lemma SendLowersRemaining(c: Call, p: Pool, w: nat)
    requires Able(c, p, Send(w)) && p.next < |c.jobs|
    ensures Remaining(c, Act(c, p, Send(w))) < Remaining(c, p)
  {
    RanksUpdate(|c.orig.rows|, p.workers, w, Received(c.jobs[p.next]));
  }

  lemma WorkLowersRemaining(c: Call, p: Pool, w: nat, ok: bool, order: seq<nat>)
    requires Able(c, p, Work(w, ok, order)) && Orderly(c, p)
    ensures Act(c, p, Work(w, ok, order)).next <= |c.jobs|
    ensures Remaining(c, Act(c, p, Work(w, ok, order))) < Remaining(c, p)
  {
    EffectLowersRank(c, p.db, p.cancelled, p.workers[w], ok, order);
    RanksUpdate(|c.orig.rows|, p.workers, w, Do(c, p.db, p.cancelled, p.workers[w], ok, order).worker);
  }

  /** Every action, the cancellation included, brings the pool closer to its end. */
  lemma ActLowersRemaining(c: Call, p: Pool, a: Action)
    requires Loaded(c) && Able(c, p, a) && Orderly(c, p)
    ensures Act(c, p, a).next <= |c.jobs|
    ensures Remaining(c, Act(c, p, a)) < Remaining(c, p)
  {
    match a
    case Cancel =>
    case Feed =>
    case Send(w) => SendLowersRemaining(c, p, w);
    case Leave(w) => RanksUpdate(|c.orig.rows|, p.workers, w, Exited);
    case Work(w, ok, order) => WorkLowersRemaining(c, p, w, ok, order);
  }

  lemma {:induction false} ScheduleOrderly(c: Call, ps: seq<Pool>, acts: seq<Action>, n: nat)
    requires Loaded(c) && IsSchedule(c, ps, acts) && n < |ps|
    ensures Orderly(c, ps[n])
    decreases n
  {
    if n > 0 {
      ScheduleOrderly(c, ps, acts, n - 1);
      ActKeepsOrderly(c, ps[n - 1], acts[n - 1]);
    }
  }

  /** No schedule goes on for ever: it has at most Remaining actions. */
  lemma {:induction false} SchedulesEnd(c: Call, ps: seq<Pool>, acts: seq<Action>, n: nat)
    requires Loaded(c) && IsSchedule(c, ps, acts) && n < |ps|
    ensures ps[n].next <= |c.jobs| && ps[0].next <= |c.jobs|
    ensures n + Remaining(c, ps[n]) <= Remaining(c, ps[0])
    decreases n
  {
    if n > 0 {
      SchedulesEnd(c, ps, acts, n - 1);
      ScheduleOrderly(c, ps, acts, n - 1);
      ActLowersRemaining(c, ps[n - 1], acts[n - 1]);
    }
  }

  // ---------- Progress ----------

  /** Nothing can happen any more, apart from a cancellation. */
  ghost predicate Stuck(c: Call, p: Pool) {
    forall a :: Able(c, p, a) ==> a.Cancel?
  }

  /** The feeder waits for a receiver, and every worker has returned. */
  predicate Jammed(p: Pool) {
    p.feeder.Sending? && forall w :: 0 <= w < |p.workers| ==> p.workers[w].Exited?
  }

  /** A worker that is neither waiting nor gone can act. */
  lemma BusyWorkerActs(c: Call, p: Pool, w: nat) returns (a: Action)
    requires Orderly(c, p) && w < |p.workers| && Busy(p.workers[w])
    ensures Able(c, p, a) && !a.Cancel?
  {
    var x := p.workers[w];
    var ok := if x.Counted? then x.i in c.world.up else if x.Wiping? then x.pending[0] in c.world.wiped else true;
    var order := SomeOrder(if x.Tallied? then ExpiredOn(p.db, x.i, c.world.now) else {});
    a := Work(w, ok, order);
  }

  /** A pool that can do nothing has finished or is jammed, and conversely. */
  lemma StuckIffFinishedOrJammed(c: Call, p: Pool)
    requires Orderly(c, p)
    ensures Stuck(c, p) <==> Finished(p) || Jammed(p)
  {
    if Stuck(c, p) {
      assert Able(c, p, Feed) <==> p.feeder.Checking?;
      forall w | 0 <= w < |p.workers| ensures !p.workers[w].Waiting? && !Busy(p.workers[w]) {
        assert Able(c, p, Send(w)) <==> p.feeder.Sending? && p.workers[w].Waiting?;
        assert Able(c, p, Leave(w)) <==> p.feeder.Closed? && p.workers[w].Waiting?;
        if Busy(p.workers[w]) {
          var a := BusyWorkerActs(c, p, w);
        }
      }
    }
  }

  /** The feeder is about to send, and no worker will ever receive once it notices a cancellation. */
  predicate Committed(p: Pool) {
    p.feeder.Sending? && forall w :: 0 <= w < |p.workers| ==> p.workers[w].Received? || p.workers[w].Exited?
  }

  lemma CommittedStays(c: Call, p: Pool, a: Action)
    requires Able(c, p, a) && p.cancelled && Committed(p)
    ensures Committed(Act(c, p, a))
  {
  }

  lemma UncommittedStays(c: Call, p: Pool, a: Action)
    requires Able(c, p, a) && p.cancelled && !Committed(p)
    ensures !Committed(Act(c, p, a))
  {
    var q := Act(c, p, a);
    if p.feeder.Sending? {
      var w :| 0 <= w < |p.workers| && !p.workers[w].Received? && !p.workers[w].Exited?;
      assert q.feeder.Sending? ==> !q.workers[w].Received? && !q.workers[w].Exited?;
    }
  }

  lemma {:induction false} CommittedAfter(c: Call, ps: seq<Pool>, acts: seq<Action>, k: nat, n: nat)
    requires IsSchedule(c, ps, acts) && k < n < |ps| && acts[k].Cancel?
    ensures ps[n].cancelled && (Committed(ps[n]) <==> Committed(ps[k]))
    decreases n
  {
    if k + 1 < n {
      CommittedAfter(c, ps, acts, k, n - 1);
      var p, a := ps[n - 1], acts[n - 1];
      assert Able(c, p, a) && ps[n] == Act(c, p, a);
      if Committed(p) {
        CommittedStays(c, p, a);
      } else {
        UncommittedStays(c, p, a);
      }
    } else {
      assert ps[n] == Act(c, ps[k], acts[k]);
    }
  }

  /** Which cancellations hang the pool: exactly those that come while the feeder is committed
      to a send and every worker holds a machine it has not looked at yet. */
  lemma CancellationJamsIff(c: Call, ps: seq<Pool>, acts: seq<Action>, k: nat, n: nat)
    requires Loaded(c) && IsSchedule(c, ps, acts) && k < n < |ps| && acts[k].Cancel? && Stuck(c, ps[n])
    ensures !Finished(ps[n]) <==> Committed(ps[k])
  {
    CommittedAfter(c, ps, acts, k, n);
    ScheduleOrderly(c, ps, acts, n);
    StuckIffFinishedOrJammed(c, ps[n]);
  }

  lemma {:induction false} CancelledAt(c: Call, ps: seq<Pool>, acts: seq<Action>, n: nat) returns (k: nat)
    requires IsSchedule(c, ps, acts) && n < |ps| && ps[n].cancelled
    ensures k < n && acts[k].Cancel?
    decreases n
  {
    assert n > 0;
    k := n - 1;
    assert Able(c, ps[k], acts[k]) && ps[k + 1] == Act(c, ps[k], acts[k]);
    if !acts[k].Cancel? {
      k := CancelledAt(c, ps, acts, k);
    }
  }

  /** Without cancellation a schedule that can go no further has finished; with it the only
      other end is a feeder that waits for workers who all left, and that end is reached exactly
      by the cancellations described above. */
  lemma ProgressOrJam(c: Call, ps: seq<Pool>, acts: seq<Action>, n: nat)
    requires Loaded(c) && IsSchedule(c, ps, acts) && n < |ps| && Stuck(c, ps[n])
    ensures Finished(ps[n]) || (ps[n].cancelled && Jammed(ps[n]))
    ensures !Finished(ps[n]) <==> exists k :: 0 <= k < n && acts[k].Cancel? && Committed(ps[k])
  {
    ScheduleOrderly(c, ps, acts, n);
    StuckIffFinishedOrJammed(c, ps[n]);
    if Jammed(ps[n]) {
      assert ps[n].workers[0].Exited?;
      var k := CancelledAt(c, ps, acts, n);
      CancellationJamsIff(c, ps, acts, k, n);
    }
    if k :| 0 <= k < n && acts[k].Cancel? && Committed(ps[k]) {
      CancellationJamsIff(c, ps, acts, k, n);
    }
  }

  lemma Follow(c: Call, ps: seq<Pool>, acts: seq<Action>, a: Action) returns (qs: seq<Pool>, more: seq<Action>)
    requires IsSchedule(c, ps, acts) && Able(c, ps[|acts|], a)
    ensures IsSchedule(c, qs, more) && qs == ps + [Act(c, ps[|acts|], a)] && more == acts + [a]
  {
    qs, more := ps + [Act(c, ps[|acts|], a)], acts + [a];
  }

  /** The jam does happen: one worker, two machines, and a cancellation after the first machine
      was handed over and the feeder has committed to sending the second. */
  lemma CancellationCanJam() returns (c: Call, ps: seq<Pool>, acts: seq<Action>)
    ensures Loaded(c) && IsSchedule(c, ps, acts)
    ensures Jammed(ps[|acts|]) && Stuck(c, ps[|acts|]) && !Finished(ps[|acts|])
  {
    var orig := Store(map[], map[1 := Fresh("a"), 2 := Fresh("b")], map[], 0);
    c := Call(orig, [1, 2], World(0, {}, {}), true);
    ps, acts := [Pool(orig, 0, Checking, false, [Waiting], 0, 0, 0, 0, 0, {}, {}, multiset{})], [];
    ps, acts := Follow(c, ps, acts, Feed);
    ps, acts := Follow(c, ps, acts, Send(0));
    ps, acts := Follow(c, ps, acts, Feed);
    ps, acts := Follow(c, ps, acts, Cancel);
    ps, acts := Follow(c, ps, acts, Work(0, true, []));
    ScheduleOrderly(c, ps, acts, |acts|);
    StuckIffFinishedOrJammed(c, ps[|acts|]);
  }

  // ---------- After a cancellation ----------

  /** From p, which was cancelled, to q: no machine was counted any more, nothing was begun or
      loaded, and every row removed and every probe made was under way in p. */
  ghost predicate WindsDown(p: Pool, q: Pool) {
    && q.cancelled && |q.workers| == |p.workers| && q.total == p.total
    && (forall w :: 0 <= w < |p.workers| && (q.workers[w].Wiping? || q.workers[w].Counted?) ==> q.workers[w] == p.workers[w])
    && (forall w :: 0 <= w < |p.workers| && q.workers[w].Clearing? ==> HadPending(p.workers[w], q.workers[w].pending))
    && (forall id :: id in p.db.rows && id !in q.db.rows ==> RemovesNow(p, id))
    && (forall i: nat :: q.probes[i] > p.probes[i] ==> ProbesNow(p, i))
    && (if q.feeder.Sending? then p.feeder.Sending? && q.next == p.next
        else q.next <= p.next + if p.feeder.Sending? then 1 else 0)
  }

  /** These rows were pending already, at most behind the one being deleted. */
  predicate HadPending(x: Worker, pending: seq<nat>) {
    || (x.Clearing? && x.pending == pending)
    || (x.Wiping? && x.pending != [] && x.pending[1..] == pending)
  }

  /** Some worker is deleting the user of this row. */
  ghost predicate RemovesNow(p: Pool, id: nat) {
    exists w :: 0 <= w < |p.workers| && p.workers[w].Wiping? && p.workers[w].pending != [] && p.workers[w].pending[0] == id
  }

  /** Some worker is probing this machine. */
  ghost predicate ProbesNow(p: Pool, i: nat) {
    exists w :: 0 <= w < |p.workers| && p.workers[w] == Counted(i)
  }

  lemma CancelledEffect(c: Call, db: Store, x: Worker, ok: bool, order: seq<nat>)
    requires Possible(c, db, true, x, ok, order)
    ensures var e := Do(c, db, true, x, ok, order);
            && e.total == 0 && !e.worker.Wiping? && !e.worker.Counted?
            && (e.worker.Clearing? ==> HadPending(x, e.worker.pending) && x.Wiping?)
            && (forall id :: id in db.rows && id !in e.db.rows ==> x.Wiping? && x.pending != [] && x.pending[0] == id)
            && e.probes == if x.Counted? then multiset{x.i} else multiset{}
  {
  }

  lemma WorkWindsDown(c: Call, p: Pool, q: Pool, w: nat, ok: bool, order: seq<nat>)
    requires WindsDown(p, q) && Able(c, q, Work(w, ok, order))
    ensures WindsDown(p, Act(c, q, Work(w, ok, order)))
  {
    var x := q.workers[w];
    var r := Act(c, q, Work(w, ok, order));
    CancelledEffect(c, q.db, x, ok, order);
    forall id | id in p.db.rows && id !in r.db.rows ensures RemovesNow(p, id) {
      if id in q.db.rows {
        assert p.workers[w] == x;
      }
    }
    forall i: nat | r.probes[i] > p.probes[i] ensures ProbesNow(p, i) {
      if q.probes[i] <= p.probes[i] {
        assert x == Counted(i) && p.workers[w] == x;
      }
    }
  }

  lemma ActWindsDown(c: Call, p: Pool, q: Pool, a: Action)
    requires WindsDown(p, q) && Able(c, q, a)
    ensures WindsDown(p, Act(c, q, a))
  {
    match a
    case Work(w, ok, order) => WorkWindsDown(c, p, q, w, ok, order);
    case _ =>
  }

  /** Once cancelled the pool only finishes what is under way: no machine is counted any more,
      the feeder sends at most the machine it is committed to, and a row or a probe follows only
      where a worker was already deleting that row's user or probing that machine; the other
      pending rows are left alone. */
  lemma {:induction false} CancellationWindsDown(c: Call, ps: seq<Pool>, acts: seq<Action>, k: nat, n: nat)
    requires IsSchedule(c, ps, acts) && k <= n < |ps| && ps[k].cancelled
    ensures WindsDown(ps[k], ps[n])
    decreases n
  {
    if k < n {
      CancellationWindsDown(c, ps, acts, k, n - 1);
      assert Able(c, ps[n - 1], acts[n - 1]) && ps[n] == Act(c, ps[n - 1], acts[n - 1]);
      ActWindsDown(c, ps[k], ps[n - 1], acts[n - 1]);
    }
  }
}
