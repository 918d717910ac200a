/** Named advisory locks, and why the scheduler is serialised: any number of scheduler
    processes run the same closure, each pass under its own lock inside the outermost one.
 */
module Locks {
  import opened Protocol

  // ---------- The lock object ----------

  /** The database's lock table: which connection holds which name. */
  class LockServer {
    var holders: map<string, nat>
    var nextConn: nat

    constructor ()
      ensures holders == map[]
    {
      holders, nextConn := map[], 0;
    }
  }

  class Advisory {
    const conn: nat
    const name: string
    var acquired: bool

    constructor (conn: nat, name: string)
      ensures this.conn == conn && this.name == name && !acquired
    {
      this.conn, this.name, acquired := conn, name, false;
    }

    /** Releases the lock if it was acquired. The connection goes back to its pool, which by
        itself releases nothing. */
    method Release(server: LockServer)
      modifies server`holders
      ensures server.holders
              == if acquired && name in old(server.holders) && old(server.holders)[name] == conn
                 then old(server.holders) - {name} else old(server.holders)
    {
      if acquired && name in server.holders && server.holders[name] == conn {
        server.holders := server.holders - {name};
      }
    }
  }

  /** A connection of its own asks for the name. No lock is granted on an error, or while
      another connection holds it. */
  method Acquire(server: LockServer, name: string, error: bool) returns (a: Advisory?)
    modifies server
    ensures a != null <==> !error && name !in old(server.holders)
    ensures a == null ==> server.holders == old(server.holders)
    ensures a != null ==> fresh(a) && a.acquired && a.name == name && server.holders == old(server.holders)[name := a.conn]
  {
    var conn := server.nextConn;
    server.nextConn := conn + 1;
    if error || name in server.holders {
      return null;
    }
    var lock := new Advisory(conn, name);
    server.holders := server.holders[name := conn];
    lock.acquired := true;
    a := lock;
  }

  // ---------- Many schedulers ----------

  /** Where a process is in the run closure; `Between` is the gap after a pass, before the reconcile lock. */
  datatype Place = Out | InCleanup | InHealth | Between(last: Phase) | InReconcile

  /** The names of the three locks; the configuration may even make them equal. */
  datatype Names = Names(cleanup: string, health: string, reconcile: string)

  datatype Fleet = Fleet(place: map<nat, Place>, holders: map<string, nat>)

  datatype Move =
    | Begin(p: nat)
    | Abort(p: nat)
    | ToHealth(p: nat)
    | SkipHealth(p: nat)
    | EndHealth(p: nat)
    | ToReconcile(p: nat)
    | SkipReconcile(p: nat)
    | EndReconcile(p: nat)
    | Crash(p: nat)

  predicate CanMove(names: Names, f: Fleet, m: Move) {
    m.p in f.place &&
    match m
    case Begin(p) => f.place[p] == Out && names.cleanup !in f.holders
    case Abort(p) => f.place[p] == InCleanup
    case ToHealth(p) => f.place[p] == InCleanup && names.health !in f.holders
    case SkipHealth(p) => f.place[p] == InCleanup
    case EndHealth(p) => f.place[p] == InHealth
    case ToReconcile(p) => f.place[p].Between? && names.reconcile !in f.holders
    case SkipReconcile(p) => f.place[p].Between?
    case EndReconcile(p) => f.place[p] == InReconcile
    case Crash(p) => true
  }

  function Dropped(holders: map<string, nat>, p: nat): map<string, nat> {
    map n | n in holders && holders[n] != p :: holders[n]
  }

  function Moved(names: Names, f: Fleet, m: Move): Fleet
    requires CanMove(names, f, m)
  {
    match m
    case Begin(p) => Fleet(f.place[p := InCleanup], f.holders[names.cleanup := p])
    case Abort(p) => Fleet(f.place[p := Out], f.holders - {names.cleanup})
    case ToHealth(p) => Fleet(f.place[p := InHealth], f.holders[names.health := p])
    case SkipHealth(p) => f.(place := f.place[p := Between(Cleaning)])
    case EndHealth(p) => Fleet(f.place[p := Between(Checking)], f.holders - {names.health})
    case ToReconcile(p) => Fleet(f.place[p := InReconcile], f.holders[names.reconcile := p])
    case SkipReconcile(p) => Fleet(f.place[p := Out], f.holders - {names.cleanup})
    case EndReconcile(p) => Fleet(f.place[p := Out], f.holders - {names.reconcile} - {names.cleanup})
    case Crash(p) => Fleet(f.place[p := Out], Dropped(f.holders, p))
  }

  ghost predicate IsFleetRun(names: Names, fs: seq<Fleet>, ms: seq<Move>) {
    && |fs| == |ms| + 1
    && fs[0].holders == map[] && (forall p :: p in fs[0].place ==> fs[0].place[p] == Out)
    && forall k :: 0 <= k < |ms| ==> CanMove(names, fs[k], ms[k]) && fs[k + 1] == Moved(names, fs[k], ms[k])
  }

  /** Inside the closure a process holds the outer lock, and the lock of its pass; no lock is
      held by anyone else or left over. */
  ghost predicate Locked(names: Names, f: Fleet) {
    && (forall p :: p in f.place && f.place[p] != Out ==>
          names.cleanup in f.holders && f.holders[names.cleanup] == p)
    && (forall p :: p in f.place && f.place[p] == InHealth ==>
          names.health in f.holders && f.holders[names.health] == p && names.health != names.cleanup)
    && (forall p :: p in f.place && f.place[p] == InReconcile ==>
          names.reconcile in f.holders && f.holders[names.reconcile] == p && names.reconcile != names.cleanup)
    && (forall p :: p in f.place && f.place[p].Between? ==> f.place[p].last == Cleaning || f.place[p].last == Checking)
    && forall n :: n in f.holders ==>
         && f.holders[n] in f.place && f.place[f.holders[n]] != Out
         && (n == names.cleanup
             || (n == names.health && f.place[f.holders[n]] == InHealth)
             || (n == names.reconcile && f.place[f.holders[n]] == InReconcile))
  }

  lemma MoveKeepsLocked(names: Names, f: Fleet, m: Move)
    requires Locked(names, f) && CanMove(names, f, m)
    ensures Locked(names, Moved(names, f, m))
  {
  }

  lemma {:induction false} RunLocked(names: Names, fs: seq<Fleet>, ms: seq<Move>, n: nat)
    requires IsFleetRun(names, fs, ms) && n < |fs|
    ensures Locked(names, fs[n])
    decreases n
  {
    if n > 0 {
      RunLocked(names, fs, ms, n - 1);
      MoveKeepsLocked(names, fs[n - 1], ms[n - 1]);
    }
  }

  /** At most one process is inside the run closure at any time, whatever the lock names are;
      and when none is, no lock is held. */
  lemma SchedulersAreSerialised(names: Names, fs: seq<Fleet>, ms: seq<Move>, n: nat)
    requires IsFleetRun(names, fs, ms) && n < |fs|
    ensures forall p, q :: p in fs[n].place && q in fs[n].place && fs[n].place[p] != Out && fs[n].place[q] != Out ==> p == q
    ensures (forall p :: p in fs[n].place ==> fs[n].place[p] == Out) ==> fs[n].holders == map[]
  {
    RunLocked(names, fs, ms, n);
  }

  // ---------- One serialised scheduler ----------

  function PhaseOf(x: Place): Phase {
    match x
    case Out => Idle
    case InCleanup => Cleaning
    case InHealth => Checking
    case Between(last) => last
    case InReconcile => Reconciling
  }

  /** The phase of the process inside the closure, if there is one. */
  ghost predicate FleetPhase(f: Fleet, phase: Phase) {
    || (phase == Idle && forall p :: p in f.place ==> f.place[p] == Out)
    || exists p :: p in f.place && f.place[p] != Out && phase == PhaseOf(f.place[p])
  }

  /** Whoever is inside is alone there, so the phase is that process's. */
  lemma PhaseAt(names: Names, f: Fleet, p: nat, phase: Phase)
    requires Locked(names, f) && FleetPhase(f, phase) && p in f.place && f.place[p] != Out
    ensures phase == PhaseOf(f.place[p])
  {
  }

  lemma NobodyInside(f: Fleet, phase: Phase)
    requires FleetPhase(f, phase) && forall p :: p in f.place ==> f.place[p] == Out
    ensures phase == Idle
  {
  }

  lemma OnePhase(names: Names, f: Fleet, a: Phase, b: Phase)
    requires Locked(names, f) && FleetPhase(f, a) && FleetPhase(f, b)
    ensures a == b
  {
    if p :| p in f.place && f.place[p] != Out {
      PhaseAt(names, f, p, a);
      PhaseAt(names, f, p, b);
    }
  }

  /** All processes together are the one scheduler of the protocol: a move leaves the phase
      as it is, or takes it to a phase that may follow. */
  lemma FleetFollowsPhases(names: Names, f: Fleet, m: Move, before: Phase, after: Phase)
    requires Locked(names, f) && CanMove(names, f, m)
    requires FleetPhase(f, before) && FleetPhase(Moved(names, f, m), after)
    ensures after == before || Follows(before, after)
  {
    var g := Moved(names, f, m);
    MoveKeepsLocked(names, f, m);
    if m.Begin? {
      NobodyInside(f, before);
      PhaseAt(names, g, m.p, after);
    } else if f.place[m.p] == Out {
      assert g.place == f.place;
      OnePhase(names, g, before, after);
    } else {
      PhaseAt(names, f, m.p, before);
      Leaves(names, f, m, after);
    }
  }

  /** A move of the process inside takes the phase where that process goes. */
  lemma Leaves(names: Names, f: Fleet, m: Move, after: Phase)
    requires Locked(names, f) && CanMove(names, f, m) && f.place[m.p] != Out
    requires FleetPhase(Moved(names, f, m), after)
    ensures after == PhaseOf(Moved(names, f, m).place[m.p])
  {
    var g := Moved(names, f, m);
    forall q | q in g.place && q != m.p ensures g.place[q] == Out {
      assert f.place[q] == g.place[q];
    }
  }
}
