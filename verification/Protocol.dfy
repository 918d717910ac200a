/** The reservation protocol as a transition system: concurrent API requests and one
    serialised scheduler, interleaved transaction by transaction.

    A step is one committed transaction, one query, or one event of the environment.
    Whatever a component remembers between two transactions is part of the state:
    machines marked by a Create that has not inserted its rows yet, rows loaded by a
    Delete, and the scheduler's query results.
 */
module Protocol {
  import opened Wrappers
  import opened Tables
  import opened Sets
  import opened Selection
  import opened Replacement

  /** The passes of the scheduler, which its outermost advisory lock keeps apart. */
  datatype Phase = Idle | Cleaning | Checking | Reconciling

  /** A Create between its two transactions. */
  datatype Hold = Hold(user: string, until: Time, ids: set<nat>)

  /** A row id and its machine, as some query returned them earlier. */
  datatype Handle = Handle(row: nat, mid: nat)

  /** `charges` is a history: the times at which a failed playbook was charged to a machine. */
  datatype Sys = Sys(
    store: Store,
    now: Time,
    phase: Phase,
    creates: map<nat, Hold>,
    deletes: map<nat, Handle>,
    expired: set<Handle>,
    releases: set<Handle>,
    needs: set<Need>,
    charges: map<nat, seq<Time>>)

  datatype Step =
      // Environment
    | Tick(seconds: nat)
    | Register(mid: nat, name: string)
    | SetOnline(mid: nat, online: bool)
      // API Create: the reserve transaction, then one of three endings
    | Reserve(req: nat, user: string, count: nat, minutes: nat)
    | Insert(req: nat, order: seq<nat>, hash: string)
    | Revert(req: nat)
    | Charge(req: nat)
      // API Delete: load, then clear
    | LoadDelete(req: nat, row: nat)
    | ClearDelete(req: nat)
      // Scheduler
    | Enter(phase: Phase)
    | LoadExpired
    | LoadExpiredOn(mid: nat)
    | ClearExpired(h: Handle)
    | MarkDown(mid: nat)
    | Seen(mid: nat)
    | Enable(mid: nat)
    | PromoteSpares(ids: set<nat>)
    | DemoteSpares(ids: set<nat>)
    | LoadReleases
    | Release(h: Handle)
    | LoadNeeds
    | Allocate(n: Need, ok: bool)

  // ---------- Queries ----------

  function HandleOf(s: Store, id: nat): Handle
    requires id in s.rows
  {
    Handle(id, s.rows[id].machineId)
  }

  /** Expired rows are only loaded while their machine is enabled. */
  predicate ExpiredOnline(s: Store, now: Time, id: nat) {
    && id in s.rows && Expired(s.rows[id], now)
    && s.rows[id].machineId in s.machines && s.machines[s.rows[id].machineId].enabled
  }

  function ExpiredIds(s: Store, now: Time): set<nat> {
    set id | id in s.rows && ExpiredOnline(s, now, id)
  }

  ghost function ExpiredHandles(s: Store, now: Time): set<Handle> {
    set id | id in ExpiredIds(s, now) :: HandleOf(s, id)
  }

  ghost function ReleaseHandles(s: Store, now: Time): set<Handle> {
    set id | id in Releasable(s, now) :: HandleOf(s, id)
  }

  ghost function NeedSet(s: Store, now: Time): set<Need> {
    set id | id in NeedIds(s, now) :: NeedOf(s.rows[id])
  }

  // ---------- Transitions ----------

  predicate Follows(p: Phase, q: Phase) {
    match p
    case Idle => q == Cleaning
    case Cleaning => q != Cleaning
    case Checking => q == Reconciling || q == Idle
    case Reconciling => q == Idle
  }

  ghost predicate Enabled(s: Sys, e: Step) {
    match e
    case Tick(_) => true
    case Register(mid, _) => mid !in s.store.machines
    case SetOnline(mid, _) => mid in s.store.machines
    case Reserve(req, user, count, minutes) =>
      && req !in s.creates && user in s.store.users && count > 0 && minutes > 0
      && |EligibleIds(s.store, s.now)| >= count
    case Insert(req, order, hash) => req in s.creates && Ascending(order, s.creates[req].ids) && hash != ""
                                     && s.creates[req].user in s.store.users
    case Revert(req) => req in s.creates
    case Charge(req) => req in s.creates
    case LoadDelete(req, row) => req !in s.deletes && row in s.store.rows
    case ClearDelete(req) => req in s.deletes
    case Enter(phase) => Follows(s.phase, phase)
    case LoadExpired => s.phase == Cleaning
    case LoadExpiredOn(_) => s.phase == Checking
    case ClearExpired(h) => (s.phase == Cleaning || s.phase == Checking) && h in s.expired
    case MarkDown(mid) => s.phase == Cleaning || s.phase == Checking
    case Seen(mid) => s.phase == Checking
    case Enable(mid) => s.phase == Checking
    case PromoteSpares(_) => s.phase == Reconciling
    case DemoteSpares(_) => s.phase == Reconciling
    case LoadReleases => s.phase == Reconciling
    case Release(h) => s.phase == Reconciling && h in s.releases
    case LoadNeeds => s.phase == Reconciling
    case Allocate(n, _) => s.phase == Reconciling && n in s.needs
  }

  function AppendCharge(charges: map<nat, seq<Time>>, ids: set<nat>, now: Time): map<nat, seq<Time>> {
    map i | i in charges :: if i in ids then charges[i] + [now] else charges[i]
  }

  ghost function ReservedIds(s: Sys, count: nat): set<nat> {
    Take(s.store, EligibleIds(s.store, s.now), count, false)
  }

  ghost function Apply(s: Sys, e: Step): Sys
    requires Enabled(s, e)
  {
    match e
    case Tick(d) => s.(now := s.now + d)
    case Register(mid, name) =>
      s.(store := s.store.(machines := s.store.machines[mid := Fresh(name)]), charges := s.charges[mid := []])
    case SetOnline(mid, online) =>
      s.(store := s.store.(machines := s.store.machines[mid := s.store.machines[mid].(online := online)]))
    case Reserve(req, user, count, minutes) =>
      var ids := ReservedIds(s, count);
      var until := s.now + 60 * minutes;
      s.(store := HoldMachines(s.store, ids, user, Some(until)), creates := s.creates[req := Hold(user, until, ids)])
    case Insert(req, order, hash) =>
      var h := s.creates[req];
      s.(store := InsertRows(s.store, order, h.user, h.until, hash), creates := s.creates - {req})
    case Revert(req) =>
      s.(store := FreeMachines(s.store, s.creates[req].ids), creates := s.creates - {req})
    case Charge(req) =>
      s.(store := ChargeMachines(s.store, s.creates[req].ids, s.now),
         charges := AppendCharge(s.charges, s.creates[req].ids, s.now),
         creates := s.creates - {req})
    case LoadDelete(req, row) => s.(deletes := s.deletes[req := HandleOf(s.store, row)])
    case ClearDelete(req) =>
      s.(store := ClearRow(s.store, s.deletes[req].row, s.deletes[req].mid), deletes := s.deletes - {req})
    case Enter(phase) => s.(phase := phase, expired := {}, releases := {}, needs := {})
    case LoadExpired => s.(expired := ExpiredHandles(s.store, s.now))
    case LoadExpiredOn(mid) =>
      s.(expired := s.expired + set h | h in ExpiredHandles(s.store, s.now) && h.mid == mid)
    case ClearExpired(h) => s.(store := ClearRow(s.store, h.row, h.mid), expired := s.expired - {h})
    case MarkDown(mid) => s.(store := SetEnabled(s.store, mid, false))
    case Seen(mid) => s.(store := Touch(s.store, mid, s.now))
    case Enable(mid) => s.(store := SetEnabled(s.store, mid, true))
    case PromoteSpares(ids) => s.(store := Promote(s.store, ids))
    case DemoteSpares(ids) => s.(store := Demote(s.store, ids))
    case LoadReleases => s.(releases := ReleaseHandles(s.store, s.now))
    case Release(h) => s.(store := ReleaseOne(s.store, s.now, h.row, h.mid), releases := s.releases - {h})
    case LoadNeeds => s.(needs := NeedSet(s.store, s.now))
    case Allocate(n, ok) => s.(store := AllocateOne(s.store, s.now, n, ok), needs := s.needs - {n})
  }

  /** An installation before its first machine is registered. */
  predicate Init(s: Sys) {
    && s.store.machines == map[] && s.store.rows == map[]
    && s.phase == Idle && s.creates == map[] && s.deletes == map[]
    && s.expired == {} && s.releases == {} && s.needs == {} && s.charges == map[]
  }

  /** `states` is a run that takes `steps` from an initial state. */
  ghost predicate IsRun(states: seq<Sys>, steps: seq<Step>) {
    && |states| == |steps| + 1
    && Init(states[0])
    && forall i :: 0 <= i < |steps| ==> Enabled(states[i], steps[i]) && states[i + 1] == Apply(states[i], steps[i])
  }
}
