/** The handlers and the scheduler's passes are runs of the protocol: what each of them does
    when nobody disturbs it is what a sequence of safe protocol steps does.
 */
module Refinement {
  import opened Wrappers
  import opened Tables
  import opened Sets
  import opened Ownership
  import opened Replacement
  import opened Protocol
  import opened Invariant
  import opened Reconcile
  import opened Convergence
  import opened CreateHandler
  import opened HealthPass
  import opened HealthPool
  import C = Cleanup
  import H = Health
  import Safety
  import Scheduler

  /** The steps lead from s to t, and none of them is a stale release. */
  ghost predicate Leads(s: Sys, steps: seq<Step>, t: Sys)
    decreases |steps|
  {
    if steps == [] then t == s
    else Enabled(s, steps[0]) && Safe(s, steps[0]) && Leads(Apply(s, steps[0]), steps[1..], t)
  }

  lemma LeadsOne(s: Sys, e: Step)
    requires Enabled(s, e) && Safe(s, e)
    ensures Leads(s, [e], Apply(s, e))
  {
    assert Leads(Apply(s, e), [e][1..], Apply(s, e));
  }

  lemma {:induction false} LeadsOn(s: Sys, a: seq<Step>, m: Sys, b: seq<Step>, t: Sys)
    requires Leads(s, a, m) && Leads(m, b, t)
    ensures Leads(s, a + b, t)
    decreases |a|
  {
    if a == [] {
      assert a + b == b;
    } else {
      LeadsOn(Apply(s, a[0]), a[1..], m, b, t);
      assert (a + b)[1..] == a[1..] + b && (a + b)[0] == a[0];
    }
  }

  lemma LeadsTo(s: Sys, a: seq<Step>, m: Sys, e: Step) returns (b: seq<Step>)
    requires Leads(s, a, m) && Enabled(m, e) && Safe(m, e)
    ensures Leads(s, b, Apply(m, e))
  {
    LeadsOne(m, e);
    LeadsOn(s, a, m, [e], Apply(m, e));
    b := a + [e];
  }

  /** Safe steps keep the invariant, however many there are. */
  lemma {:induction false} LeadsKeepsInv(s: Sys, steps: seq<Step>, t: Sys)
    requires Leads(s, steps, t) && Inv(s)
    ensures Inv(t)
    decreases |steps|
  {
    if steps != [] {
      Safety.StepKeepsInvIffSafe(s, steps[0]);
      LeadsKeepsInv(Apply(s, steps[0]), steps[1..], t);
    }
  }

  // ---------- The API ----------

  function Ending(req: nat, o: Provision, order: seq<nat>): Step {
    if Succeeds(o) then Insert(req, order, o.hash) else if Charges(o) then Charge(req) else Revert(req)
  }

  /** The last step of a request, from any later state in which it still holds its machines. */
  lemma EndingStep(b: Sys, req: nat, o: Provision, order: seq<nat>)
    requires req in b.creates && Ascending(order, b.creates[req].ids) && b.creates[req].user in b.store.users
    ensures var e, h := Ending(req, o, order), b.creates[req];
            && Enabled(b, e) && Safe(b, e)
            && var t := Apply(b, e);
               && t == b.(store := t.store, creates := b.creates - {req}, charges := t.charges)
               && t.store == if Succeeds(o) then InsertRows(b.store, order, h.user, h.until, o.hash)
                             else if Charges(o) then ChargeMachines(b.store, h.ids, b.now)
                             else FreeMachines(b.store, h.ids)
  {
  }

  /** A Create is its two transactions, with `wait` seconds in between. One that cannot undo its
      reservation is a Create that never ends, so the run theorems still count it as an owner. */
  lemma CreateIsProtocol(s: Sys, req: nat, r: Request, o: Provision, f: Faults, order: seq<nat>, wait: nat)
      returns (t: Sys, steps: seq<Step>)
    requires req !in s.creates && Holds(s.store, s.now, r, f)
    requires Ascending(order, Chosen(s.store, s.now, r.count))
    ensures Leads(s, steps, t)
    ensures t.store == AfterCreate(s.store, s.now, s.now + wait, r, o, f, order)
    ensures t == s.(store := t.store, now := s.now + wait, creates := t.creates, charges := t.charges)
    ensures t.creates == if !Succeeds(o) && f.revert
                         then s.creates[req := Hold(r.user, Until(r, s.now), Chosen(s.store, s.now, r.count))]
                         else s.creates
  {
    if !Succeeds(o) && f.revert {
      t, steps := AbandonedCreate(s, req, r, wait);
    } else {
      t := EndedCreate(s, req, r, o, f, order, wait);
      steps := [Reserve(req, r.user, r.count, r.minutes), Tick(wait), Ending(req, o, order)];
    }
  }

  lemma AbandonedCreate(s: Sys, req: nat, r: Request, wait: nat) returns (t: Sys, steps: seq<Step>)
    requires req !in s.creates && Reserves(s.store, s.now, r)
    ensures Leads(s, steps, t)
    ensures var ids, until := Chosen(s.store, s.now, r.count), Until(r, s.now);
            t == s.(store := HoldMachines(s.store, ids, r.user, Some(until)), now := s.now + wait,
                    creates := s.creates[req := Hold(r.user, until, ids)])
  {
    var reserve := Reserve(req, r.user, r.count, r.minutes);
    ReserveStep(s, req, r);
    LeadsOne(s, reserve);
    steps := LeadsTo(s, [reserve], Apply(s, reserve), Tick(wait));
    t := Apply(Apply(s, reserve), Tick(wait));
  }

  lemma EndedCreate(s: Sys, req: nat, r: Request, o: Provision, f: Faults, order: seq<nat>, wait: nat) returns (t: Sys)
    requires req !in s.creates && Reserves(s.store, s.now, r) && (Succeeds(o) || !f.revert)
    requires Ascending(order, Chosen(s.store, s.now, r.count))
    ensures Leads(s, [Reserve(req, r.user, r.count, r.minutes), Tick(wait), Ending(req, o, order)], t)
    ensures t.store == AfterCreate(s.store, s.now, s.now + wait, r, o, f, order)
    ensures t == s.(store := t.store, now := s.now + wait, charges := t.charges)
  {
    var reserve, tick, end := Reserve(req, r.user, r.count, r.minutes), Tick(wait), Ending(req, o, order);
    ReserveStep(s, req, r);
    var a := Apply(s, reserve);
    var b := a.(now := s.now + wait);
    assert Apply(a, tick) == b;
    EndingStep(b, req, o, order);
    t := Apply(b, end);
    assert b.creates - {req} == s.creates;
    ThreeSteps(s, reserve, tick, end);
  }

  lemma ReserveStep(s: Sys, req: nat, r: Request)
    requires req !in s.creates && Reserves(s.store, s.now, r)
    ensures var e, ids, until := Reserve(req, r.user, r.count, r.minutes), Chosen(s.store, s.now, r.count), Until(r, s.now);
            && Enabled(s, e) && Safe(s, e)
            && Apply(s, e) == s.(store := HoldMachines(s.store, ids, r.user, Some(until)),
                                 creates := s.creates[req := Hold(r.user, until, ids)])
  {
  }

  lemma ThreeSteps(s: Sys, x: Step, y: Step, z: Step)
    requires Enabled(s, x) && Safe(s, x)
    requires Enabled(Apply(s, x), y) && Safe(Apply(s, x), y)
    requires Enabled(Apply(Apply(s, x), y), z) && Safe(Apply(Apply(s, x), y), z)
    ensures Leads(s, [x, y, z], Apply(Apply(Apply(s, x), y), z))
  {
    LeadsOne(Apply(Apply(s, x), y), z);
    assert [x, y, z][1..] == [y, z] && [y, z][1..] == [z];
  }

  /** A Delete is its load and its clear. */
  lemma DeleteIsProtocol(s: Sys, req: nat, row: nat) returns (t: Sys)
    requires req !in s.deletes && row in s.store.rows
    ensures Leads(s, [LoadDelete(req, row), ClearDelete(req)], t)
    ensures t == s.(store := ClearRow(s.store, row, s.store.rows[row].machineId))
  {
    var load, clear := LoadDelete(req, row), ClearDelete(req);
    var a := Apply(s, load);
    t := Apply(a, clear);
    assert a.deletes - {req} == s.deletes;
    LeadsOne(s, load);
    LeadsOne(a, clear);
    LeadsOn(s, [load], a, [clear], t);
    assert [load] + [clear] == [load, clear];
  }

  // ---------- Cleanup ----------

  /** The rows in ids, remembered by a scheduler in the middle of a pass, are the loaded ones. */
  ghost predicate Remembered(orig: Store, now: Time, t: Sys, ids: seq<nat>) {
    && Distinct(ids)
    && forall k :: 0 <= k < |ids| ==> ExpiredOnline(orig, now, ids[k]) && HandleOf(orig, ids[k]) in t.expired
  }

  lemma RestRemembered(orig: Store, now: Time, t: Sys, next: Sys, ids: seq<nat>)
    requires Remembered(orig, now, t, ids) && ids != [] && t.expired - {HandleOf(orig, ids[0])} <= next.expired
    ensures Remembered(orig, now, next, ids[1..])
  {
  }

  lemma {:induction false} CleanupIsProtocol(s: Sys, t: Sys, o: C.Outcomes, done: set<nat>, ids: seq<nat>)
      returns (u: Sys, steps: seq<Step>)
    requires s.phase == Cleaning && t == s.(store := C.Cleaned(s.store, o, done), expired := t.expired)
    requires Remembered(s.store, s.now, t, ids) && forall k :: 0 <= k < |ids| ==> ids[k] !in done
    ensures Leads(t, steps, u)
    ensures u == s.(store := C.Cleaned(s.store, o, done + Elements(ids)), expired := u.expired)
    decreases |ids|
  {
    if ids == [] {
      assert done + Elements(ids) == done;
      u, steps := t, [];
    } else {
      var id := ids[0];
      var next, first := CleanedNext(s, t, o, done, id);
      RestRemembered(s.store, s.now, t, next, ids);
      u, steps := CleanupIsProtocol(s, next, o, done + {id}, ids[1..]);
      assert done + {id} + Elements(ids[1..]) == done + Elements(ids);
      LeadsOn(t, first, next, steps, u);
      steps := first + steps;
    }
  }

  /** One row: a safe clear, a disable, or, if the disabling update fails, nothing. */
  lemma CleanedNext(s: Sys, t: Sys, o: C.Outcomes, done: set<nat>, id: nat) returns (next: Sys, first: seq<Step>)
    requires s.phase == Cleaning && t == s.(store := C.Cleaned(s.store, o, done), expired := t.expired)
    requires ExpiredOnline(s.store, s.now, id) && HandleOf(s.store, id) in t.expired && id !in done
    ensures Leads(t, first, next)
    ensures next == s.(store := C.Cleaned(s.store, o, done + {id}), expired := next.expired)
    ensures t.expired - {HandleOf(s.store, id)} <= next.expired
  {
    var h, ok, down := HandleOf(s.store, id), C.OkIds(s.store, o, done), C.DownIds(s.store, o, done);
    C.OneMore(s.store, o, done, id);
    if C.RowOk(s.store, o, id) {
      C.ApplyClear(s.store, ok, down, id);
      LeadsOne(t, ClearExpired(h));
      next, first := Apply(t, ClearExpired(h)), [ClearExpired(h)];
    } else if !o.unmarked(id) {
      C.ApplyDown(s.store, ok, down, id);
      LeadsOne(t, MarkDown(h.mid));
      next, first := Apply(t, MarkDown(h.mid)), [MarkDown(h.mid)];
    } else {
      next, first := t, [];
    }
  }

  // ---------- Health ----------

  lemma {:induction false} WipesLead(s: Sys, t: Sys, mid: nat, gone: set<nat>, ids: seq<nat>) returns (u: Sys, steps: seq<Step>)
    requires s.phase == Phase.Checking && t == s.(store := H.Wiped(s.store, mid, gone), expired := t.expired)
    requires Remembered(s.store, s.now, t, ids)
    requires forall k :: 0 <= k < |ids| ==> ids[k] !in gone && s.store.rows[ids[k]].machineId == mid
    ensures Leads(t, steps, u)
    ensures u == s.(store := H.Wiped(s.store, mid, gone + Elements(ids)), expired := u.expired)
    decreases |ids|
  {
    if ids == [] {
      assert gone + Elements(ids) == gone;
      u, steps := t, [];
    } else {
      var e := ClearExpired(HandleOf(s.store, ids[0]));
      H.WipeMore(s.store, mid, gone, ids[0]);
      u, steps := WipesLead(s, Apply(t, e), mid, gone + {ids[0]}, ids[1..]);
      assert gone + {ids[0]} + Elements(ids[1..]) == gone + Elements(ids);
      steps := [e] + steps;
    }
  }

  /** The pass after the machines in `done`, apart from what the scheduler remembers. */
  ghost predicate Checks(s: Sys, t: Sys, w: World, done: set<nat>) {
    t == s.(store := H.CheckedSome(s.store, w, done), expired := t.expired)
  }

  lemma BackLeads(s: Sys, t: Sys, w: World, done: set<nat>, mid: nat) returns (u: Sys, steps: seq<Step>)
    requires s.phase == Phase.Checking && w.now == s.now && Checks(s, t, w, done)
    requires mid in s.store.machines && mid !in done && mid in w.up && !s.store.machines[mid].enabled
    ensures Leads(t, steps, u) && Checks(s, u, w, done + {mid})
  {
    var seen := Apply(t, Seen(mid));
    var back := Apply(seen, Enable(mid));
    var loaded := Apply(back, LoadExpiredOn(mid));
    ThreeSteps(t, Seen(mid), Enable(mid), LoadExpiredOn(mid));
    var ids := SomeOrder(H.Wipeable(back.store, w, mid));
    RememberWipeable(back, w, mid, ids);
    assert loaded == back.(store := H.Wiped(back.store, mid, {}), expired := loaded.expired) by {
      assert back.store.rows - {} == back.store.rows;
    }
    u, steps := WipesLead(back, loaded, mid, {}, ids);
    assert {} + Elements(ids) == H.Wipeable(back.store, w, mid);
    H.CameBack(s.store, w, done, mid);
    LeadsOn(t, [Seen(mid), Enable(mid), LoadExpiredOn(mid)], loaded, steps, u);
    steps := [Seen(mid), Enable(mid), LoadExpiredOn(mid)] + steps;
  }

  lemma RememberWipeable(back: Sys, w: World, mid: nat, ids: seq<nat>)
    requires back.phase == Phase.Checking && w.now == back.now && Lists(ids, H.Wipeable(back.store, w, mid))
    ensures Remembered(back.store, back.now, Apply(back, LoadExpiredOn(mid)), ids)
    ensures forall k :: 0 <= k < |ids| ==> back.store.rows[ids[k]].machineId == mid
  {
    forall k | 0 <= k < |ids|
      ensures ids[k] in H.Wipeable(back.store, w, mid)
              && HandleOf(back.store, ids[k]) in Apply(back, LoadExpiredOn(mid)).expired
    {
      assert ids[k] in ids;
      assert HandleOf(back.store, ids[k]) in ExpiredHandles(back.store, back.now);
    }
  }

  lemma MachineLeads(s: Sys, t: Sys, w: World, done: set<nat>, mid: nat) returns (u: Sys, steps: seq<Step>)
    requires s.phase == Phase.Checking && w.now == s.now && Checks(s, t, w, done)
    requires mid in s.store.machines && mid !in done
    ensures Leads(t, steps, u) && Checks(s, u, w, done + {mid})
  {
    if mid !in w.up {
      H.WentDown(s.store, w, done, mid);
      LeadsOne(t, MarkDown(mid));
      u, steps := Apply(t, MarkDown(mid)), [MarkDown(mid)];
    } else if s.store.machines[mid].enabled {
      H.StayedUp(s.store, w, done, mid);
      LeadsOne(t, Seen(mid));
      u := Apply(Apply(t, Seen(mid)), Enable(mid));
      steps := LeadsTo(t, [Seen(mid)], Apply(t, Seen(mid)), Enable(mid));
    } else {
      u, steps := BackLeads(s, t, w, done, mid);
    }
  }

  lemma {:induction false} HealthIsProtocol(s: Sys, t: Sys, w: World, done: set<nat>, jobs: seq<nat>)
      returns (u: Sys, steps: seq<Step>)
    requires s.phase == Phase.Checking && w.now == s.now && Checks(s, t, w, done) && Distinct(jobs)
    requires forall k :: 0 <= k < |jobs| ==> jobs[k] in s.store.machines && jobs[k] !in done
    ensures Leads(t, steps, u) && Checks(s, u, w, done + Elements(jobs))
    decreases |jobs|
  {
    if jobs == [] {
      assert done + Elements(jobs) == done;
      u, steps := t, [];
    } else {
      var v, first := MachineLeads(s, t, w, done, jobs[0]);
      u, steps := HealthIsProtocol(s, v, w, done + {jobs[0]}, jobs[1..]);
      assert done + {jobs[0]} + Elements(jobs[1..]) == done + Elements(jobs);
      LeadsOn(t, first, v, steps, u);
      steps := first + steps;
    }
  }

  /** The protocol step that a pool worker's next action is, if it touches the tables. */
  function StepOf(c: Call, x: Worker, ok: bool): Option<Step> {
    if !ok then None
    else
      match x
      case Answering(i) => Some(Seen(i))
      case Touched(i) => Some(Enable(i))
      case Tallied(i) => Some(LoadExpiredOn(i))
      case Wiping(i, q) => if q != [] then Some(ClearExpired(Handle(q[0], i))) else None
      case Silent(i) => if i in c.orig.machines && c.orig.machines[i].enabled then Some(MarkDown(i)) else None
      case _ => None
  }

  /** Each action of a pool worker leaves the tables alone or is one protocol step, which forgets
      no loaded row but the one it clears; a list it loads is remembered. */
  lemma WorkerActsByProtocol(c: Call, s: Sys, cancelled: bool, x: Worker, ok: bool, order: seq<nat>)
    requires s.phase == Phase.Checking && s.now == c.world.now && Possible(c, s.store, cancelled, x, ok, order)
    requires x.Wiping? ==> Handle(x.pending[0], x.i) in s.expired
    ensures match StepOf(c, x, ok)
            case None => Do(c, s.store, cancelled, x, ok, order).db == s.store
            case Some(e) =>
              && Enabled(s, e)
              && Apply(s, e) == s.(store := Do(c, s.store, cancelled, x, ok, order).db, expired := Apply(s, e).expired)
              && (if x.Wiping? then s.expired - {Handle(x.pending[0], x.i)} else s.expired) <= Apply(s, e).expired
              && (x.Tallied? ==> forall k :: 0 <= k < |order| ==> Handle(order[k], x.i) in Apply(s, e).expired)
  {
    match x
    case Touched(i) => EnableTwice(s.store, i);
    case Tallied(i) => LoadRemembers(s, i, order);
    case _ =>
  }

  lemma EnableTwice(s: Store, i: nat)
    ensures i in s.machines && s.machines[i].enabled ==> SetEnabled(s, i, true) == s
  {
    if i in s.machines && s.machines[i].enabled {
      assert s.machines[i := s.machines[i].(enabled := true)] == s.machines;
    }
  }

  lemma LoadRemembers(s: Sys, i: nat, order: seq<nat>)
    requires s.phase == Phase.Checking && Lists(order, ExpiredOn(s.store, i, s.now))
    ensures forall k :: 0 <= k < |order| ==> Handle(order[k], i) in Apply(s, LoadExpiredOn(i)).expired
  {
    forall k | 0 <= k < |order| ensures Handle(order[k], i) in Apply(s, LoadExpiredOn(i)).expired {
      assert order[k] in order;
      assert order[k] in ExpiredIds(s.store, s.now);
      assert HandleOf(s.store, order[k]) == Handle(order[k], i);
    }
  }

  // ---------- Reconcile ----------

  function ReleaseSteps(q: seq<Handle>): seq<Step> {
    if q == [] then [] else [Release(q[0])] + ReleaseSteps(q[1..])
  }

  function AllocateSteps(q: seq<Need>, oks: seq<bool>): seq<Step>
    requires |oks| == |q|
  {
    if q == [] then [] else [Allocate(q[0], oks[0])] + AllocateSteps(q[1..], oks[1..])
  }

  lemma {:induction false} ReleasesLead(s: Sys, q: seq<Handle>) returns (t: Sys)
    requires s.phase == Reconciling && Distinct(q) && forall k :: 0 <= k < |q| ==> q[k] in s.releases
    ensures Leads(s, ReleaseSteps(q), t)
    ensures t == s.(store := ReleaseAll(s.store, s.now, q), releases := t.releases)
    decreases |q|
  {
    if q == [] {
      t := s;
    } else {
      t := ReleasesLead(Apply(s, Release(q[0])), q[1..]);
      assert ReleaseSteps(q)[1..] == ReleaseSteps(q[1..]);
    }
  }

  lemma {:induction false} AllocatesLead(s: Sys, q: seq<Need>, oks: seq<bool>) returns (t: Sys)
    requires s.phase == Reconciling && |oks| == |q| && Distinct(q) && forall k :: 0 <= k < |q| ==> q[k] in s.needs
    ensures Leads(s, AllocateSteps(q, oks), t)
    ensures t == s.(store := AllocateAll(s.store, s.now, q, oks), needs := t.needs)
    decreases |q|
  {
    if q == [] {
      t := s;
    } else {
      t := AllocatesLead(Apply(s, Allocate(q[0], oks[0])), q[1..], oks[1..]);
      assert AllocateSteps(q, oks)[1..] == AllocateSteps(q[1..], oks[1..]);
    }
  }

  lemma ResizeLeads(s: Sys, percent: int) returns (steps: seq<Step>)
    requires s.phase == Reconciling
    ensures Leads(s, steps, s.(store := Resize(s.store, percent)))
  {
    steps := [];
    if Managed(s.store, percent) {
      if |FreeSpares(s.store)| < Desired(s.store, percent) {
        LeadsOne(s, PromoteSpares(Promotions(s.store, percent)));
        steps := [PromoteSpares(Promotions(s.store, percent))];
      } else if |FreeSpares(s.store)| > Desired(s.store, percent) {
        LeadsOne(s, DemoteSpares(Demotions(s.store, percent)));
        steps := [DemoteSpares(Demotions(s.store, percent))];
      }
    }
  }

  lemma LoadedReleases(s: Store, now: Time, rel: seq<nat>)
    requires Lists(rel, Releasable(s, now))
    ensures Distinct(HandlesOf(s, rel))
    ensures forall k :: 0 <= k < |rel| ==> HandlesOf(s, rel)[k] in ReleaseHandles(s, now)
  {
    forall k | 0 <= k < |rel| ensures HandlesOf(s, rel)[k] in ReleaseHandles(s, now) {
      assert rel[k] in rel;
    }
  }

  lemma LoadedNeeds(s: Store, now: Time, ids: seq<nat>)
    requires RowsOk(s, now) && Lists(ids, NeedIds(s, now))
    ensures Distinct(NeedsOf(s, ids))
    ensures forall k :: 0 <= k < |ids| ==> NeedsOf(s, ids)[k] in NeedSet(s, now)
  {
    forall k | 0 <= k < |ids| ensures ids[k] in NeedIds(s, now) && NeedsOf(s, ids)[k] in NeedSet(s, now) {
      assert ids[k] in ids;
    }
    forall i, j | 0 <= i < j < |ids| ensures NeedsOf(s, ids)[i] != NeedsOf(s, ids)[j] {
      assert ids[i] != ids[j];
      assert s.rows[ids[i]].machineId != s.rows[ids[j]].machineId;
    }
  }

  /** A reconcile pass is a sequence of reconcile steps, in whatever order it took its rows. */
  lemma PassIsProtocol(s: Sys, t: Store, percent: int, rel: seq<nat>, needs: seq<nat>, oks: seq<bool>)
      returns (u: Sys, steps: seq<Step>)
    requires s.phase == Reconciling && RowsOk(s.store, s.now)
    requires IsPass(s.store, t, s.now, percent, rel, needs, oks)
    ensures Leads(s, steps, u)
    ensures u == s.(store := t, releases := u.releases, needs := u.needs)
  {
    var r, m := Resize(s.store, percent), Released(s.store, s.now, percent, rel);
    var resized := s.(store := r);
    PassEffect(s.store, t, s.now, percent, rel, needs, oks);
    steps := ResizeLeads(s, percent);
    var released, more := ReleaseStageLeads(resized, rel);
    LeadsOn(s, steps, resized, more, released);
    steps := steps + more;
    u, more := AllocateStageLeads(released, needs, oks);
    LeadsOn(s, steps, released, more, u);
    steps := steps + more;
  }

  lemma ReleaseStageLeads(s: Sys, rel: seq<nat>) returns (t: Sys, steps: seq<Step>)
    requires s.phase == Reconciling && Lists(rel, Releasable(s.store, s.now))
    ensures Leads(s, steps, t)
    ensures t == s.(store := ReleaseAll(s.store, s.now, HandlesOf(s.store, rel)), releases := t.releases)
  {
    var loaded := Apply(s, LoadReleases);
    var q := HandlesOf(s.store, rel);
    LeadsOne(s, LoadReleases);
    LoadedReleases(s.store, s.now, rel);
    t := ReleasesLead(loaded, q);
    LeadsOn(s, [LoadReleases], loaded, ReleaseSteps(q), t);
    steps := [LoadReleases] + ReleaseSteps(q);
  }

  lemma AllocateStageLeads(s: Sys, needs: seq<nat>, oks: seq<bool>) returns (t: Sys, steps: seq<Step>)
    requires s.phase == Reconciling && RowsOk(s.store, s.now) && Lists(needs, NeedIds(s.store, s.now)) && |oks| == |needs|
    ensures Leads(s, steps, t)
    ensures t == s.(store := AllocateAll(s.store, s.now, NeedsOf(s.store, needs), oks), needs := t.needs)
  {
    var loaded := Apply(s, LoadNeeds);
    var q := NeedsOf(s.store, needs);
    LeadsOne(s, LoadNeeds);
    LoadedNeeds(s.store, s.now, needs);
    t := AllocatesLead(loaded, q, oks);
    LeadsOn(s, [LoadNeeds], loaded, AllocateSteps(q, oks), t);
    steps := [LoadNeeds] + AllocateSteps(q, oks);
  }

  // ---------- The scheduler's run ----------

  /** The three passes of a run, each from the phase before it. */
  lemma CleaningLeads(s: Sys, o: C.Outcomes, handled: set<nat>) returns (u: Sys, steps: seq<Step>)
    requires s.phase == Idle && handled <= ExpiredIds(s.store, s.now)
    ensures Leads(s, steps, u)
    ensures u == s.(store := C.Cleaned(s.store, o, handled), phase := Cleaning, expired := u.expired, releases := {}, needs := {})
  {
    var entered := Apply(s, Enter(Cleaning));
    var loaded := Apply(entered, LoadExpired);
    LeadsOne(s, Enter(Cleaning));
    steps := LeadsTo(s, [Enter(Cleaning)], entered, LoadExpired);
    var ids := SomeOrder(handled);
    forall k | 0 <= k < |ids|
      ensures ExpiredOnline(s.store, s.now, ids[k]) && HandleOf(s.store, ids[k]) in loaded.expired
    {
      assert ids[k] in ids && ids[k] in handled;
      assert ids[k] in ExpiredIds(s.store, s.now);
    }
    C.NothingHandled(s.store, o, 1);
    var more;
    u, more := CleanupIsProtocol(entered, loaded, o, {}, ids);
    assert {} + Elements(ids) == handled;
    LeadsOn(s, steps, loaded, more, u);
    steps := steps + more;
  }

  lemma CheckingLeads(s: Sys, w: World) returns (u: Sys, steps: seq<Step>)
    requires s.phase == Cleaning && w.now == s.now && Scheduler.Referential(s.store)
    ensures Leads(s, steps, u)
    ensures u == s.(store := Checked(s.store, w), phase := Phase.Checking, expired := u.expired, releases := {}, needs := {})
  {
    var entered := Apply(s, Enter(Phase.Checking));
    LeadsOne(s, Enter(Phase.Checking));
    var jobs := SomeOrder(s.store.machines.Keys);
    forall k | 0 <= k < |jobs| ensures jobs[k] in s.store.machines {
      assert jobs[k] in jobs;
    }
    H.CheckedSomeEnds(s.store, w);
    var more;
    u, more := HealthIsProtocol(entered, entered, w, {}, jobs);
    assert {} + Elements(jobs) == s.store.machines.Keys;
    LeadsOn(s, [Enter(Phase.Checking)], entered, more, u);
    steps := [Enter(Phase.Checking)] + more;
  }

  lemma ReconcilingLeads(s: Sys, t: Store, percent: int) returns (u: Sys, steps: seq<Step>)
    requires (s.phase == Cleaning || s.phase == Phase.Checking) && RowsOk(s.store, s.now) && Passes(s.store, t, s.now, percent)
    ensures Leads(s, steps, u)
    ensures u == s.(store := t, phase := Reconciling, expired := {}, releases := u.releases, needs := u.needs)
  {
    var entered := Apply(s, Enter(Reconciling));
    LeadsOne(s, Enter(Reconciling));
    var rel, needs, oks :| IsPass(s.store, t, s.now, percent, rel, needs, oks);
    var more;
    u, more := PassIsProtocol(entered, t, percent, rel, needs, oks);
    LeadsOn(s, [Enter(Reconciling)], entered, more, u);
    steps := [Enter(Reconciling)] + more;
  }

  /** An undisturbed run of the scheduler, however far it gets, is a sequence of safe protocol
      steps from one idle state to another: what is proved of every run of the protocol covers it. */
  lemma SchedulerIsProtocol(s: Sys, t: Store, cfg: Scheduler.Config, a: Scheduler.Answers, rep: Scheduler.Report, handled: set<nat>)
      returns (u: Sys, steps: seq<Step>)
    requires s.phase == Idle && s.expired == {} && s.releases == {} && s.needs == {}
    requires RowsOk(s.store, s.now) && a.now == s.now == a.world.now
    requires Scheduler.RunResult(s.store, t, cfg, a, rep, handled)
    ensures Leads(s, steps, u) && u == s.(store := t)
    ensures Inv(s) ==> Inv(u)
  {
    u, steps := s, [];
    if rep.ran {
      u, steps := CleaningLeads(s, a.deletes, handled);
      C.CleanedKeepsOwnership(s.store, s.now, a.deletes, handled);
      if !rep.failed {
        u, steps := AfterCleaning(s, u, steps, t, cfg.percent, a, rep.checked, rep.reconciled);
      }
      steps := LeadsTo(s, steps, u, Enter(Idle));
      u := Apply(u, Enter(Idle));
    }
    if Inv(s) {
      LeadsKeepsInv(s, steps, u);
    }
  }

  lemma AfterCleaning(s: Sys, m: Sys, before: seq<Step>, t: Store, percent: int, a: Scheduler.Answers, checked: bool, reconciled: bool)
      returns (u: Sys, steps: seq<Step>)
    requires Leads(s, before, m) && m.phase == Cleaning && RowsOk(m.store, m.now) && a.now == m.now == a.world.now
    requires Scheduler.AfterCleanup(m.store, t, percent, a, checked, reconciled)
    ensures Leads(s, steps, u) && u.phase != Idle
    ensures u == m.(store := t, phase := u.phase, expired := u.expired, releases := u.releases, needs := u.needs)
  {
    u, steps := m, before;
    var more;
    if checked {
      forall id | id in m.store.rows ensures m.store.rows[id].machineId in m.store.machines {
        assert RowFormed(m.store, id);
      }
      H.CheckedKeepsRows(m.store, a.world);
      u, more := CheckingLeads(m, a.world);
      LeadsOn(s, steps, m, more, u);
      steps := steps + more;
    }
    if reconciled {
      var v := u;
      u, more := ReconcilingLeads(v, t, percent);
      LeadsOn(s, steps, v, more, u);
      steps := steps + more;
    }
  }
}
