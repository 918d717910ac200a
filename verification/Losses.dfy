/** How a reservation can be lost: in any run, stale releases included, why a row
    disappears; and a run in which one stale release leads to a double booking.
 */
module Losses {
  import opened Wrappers
  import opened Tables
  import opened Selection
  import opened Replacement
  import opened Protocol
  import opened Invariant
  import opened Guarantees

  // ---------- No early loss ----------

  /** The part of the invariant that even a stale release keeps. */
  ghost predicate Traceable(s: Sys) {
    && (forall id :: id in s.store.rows ==> id < s.store.nextRow && s.store.rows[id].machineId in s.store.machines)
    && (forall req, i :: req in s.creates && i in s.creates[req].ids ==> i in s.store.machines)
    && HandlesOk(s)
  }

  /** Rows are never edited, and a new row gets an id that was never used before. */
  predicate RowsGrow(s: Store, t: Store) {
    && s.nextRow <= t.nextRow
    && s.machines.Keys <= t.machines.Keys
    && forall id :: id in t.rows ==>
         && (id < s.nextRow ==> id in s.rows && t.rows[id] == s.rows[id])
         && (id !in s.rows ==> s.nextRow <= id < t.nextRow && t.rows[id].machineId in t.machines)
  }

  lemma InsertGrows(s: Sys, req: nat, order: seq<nat>, hash: string)
    requires Traceable(s) && Enabled(s, Insert(req, order, hash))
    ensures RowsGrow(s.store, Apply(s, Insert(req, order, hash)).store)
  {
    var t := Apply(s, Insert(req, order, hash)).store;
    var h := s.creates[req];
    InsertRowsContent(s.store, order, h.user, h.until, hash);
    forall id | id in t.rows && id !in s.store.rows ensures t.rows[id].machineId in t.machines {
      assert order[id - s.store.nextRow] in order;
    }
  }

  lemma StepGrows(s: Sys, e: Step)
    requires Traceable(s) && Enabled(s, e)
    ensures RowsGrow(s.store, Apply(s, e).store)
  {
    match e
    case Insert(req, order, hash) => InsertGrows(s, req, order, hash);
    case Allocate(n, ok) =>
      if Grants(s.store, s.now, n, ok) {
        AllocateEffect(s.store, s.now, n, ok);
      }
    case _ =>
  }

  lemma LoadsKeepHandles(s: Sys, e: Step)
    requires Traceable(s) && Enabled(s, e)
    requires e.LoadDelete? || e.LoadExpired? || e.LoadExpiredOn? || e.LoadReleases?
    ensures HandlesOk(Apply(s, e))
  {
    forall id | id in s.store.rows ensures HandleOk(s.store, HandleOf(s.store, id)) {
    }
    forall h | h in ExpiredHandles(s.store, s.now)
      ensures HandleOk(s.store, h) && h.row in s.store.rows && Expired(s.store.rows[h.row], s.now)
    {
    }
  }

  lemma ReserveKeepsTraceable(s: Sys, e: Step)
    requires Traceable(s) && Enabled(s, e) && e.Reserve?
    ensures Traceable(Apply(s, e))
  {
    StepGrows(s, e);
    HandlesFrameKeeps(s, Apply(s, e));
  }

  lemma StepKeepsTraceable(s: Sys, e: Step)
    requires Traceable(s) && Enabled(s, e)
    ensures Traceable(Apply(s, e))
  {
    StepGrows(s, e);
    if e.LoadDelete? || e.LoadExpired? || e.LoadExpiredOn? || e.LoadReleases? {
      LoadsKeepHandles(s, e);
    } else if e.Reserve? {
      ReserveKeepsTraceable(s, e);
    } else {
      HandlesFrameKeeps(s, Apply(s, e));
    }
  }

  lemma {:induction false} RunKeepsTraceable(states: seq<Sys>, steps: seq<Step>, n: nat)
    requires IsRun(states, steps) && n < |states|
    ensures Traceable(states[n])
    decreases n
  {
    if n > 0 {
      RunKeepsTraceable(states, steps, n - 1);
      StepKeepsTraceable(states[n - 1], steps[n - 1]);
    }
  }

  /** The only three ways a row goes away. */
  ghost predicate LossExplained(s: Sys, e: Step, id: nat)
    requires id in s.store.rows
  {
    || (e.ClearDelete? && e.req in s.deletes && s.deletes[e.req].row == id)
    || (e.ClearExpired? && e.h.row == id && s.store.rows[id].until.Some? && s.store.rows[id].until.value <= s.now)
    || (e.Release? && e.h.row == id
        && s.store.rows[id].replacementFor.Some? && s.store.rows[id].replacementFor.value in s.store.machines
        && s.store.machines[s.store.rows[id].replacementFor.value].enabled
        && (s.store.rows[id].until.None? || s.store.rows[id].until.value > s.now))
  }

  lemma AdditionsLoseNothing(s: Sys, e: Step, id: nat)
    requires Traceable(s) && Enabled(s, e) && (e.Insert? || e.Allocate?) && id in s.store.rows
    ensures id in Apply(s, e).store.rows
  {
    if e.Insert? {
      InsertRowsContent(s.store, e.order, s.creates[e.req].user, s.creates[e.req].until, e.hash);
    } else if Grants(s.store, s.now, e.n, e.ok) {
      AllocateEffect(s.store, s.now, e.n, e.ok);
    }
  }

  lemma StepLoss(s: Sys, e: Step, id: nat)
    requires Traceable(s) && Enabled(s, e)
    requires id in s.store.rows && id !in Apply(s, e).store.rows
    ensures LossExplained(s, e, id)
  {
    if e.Insert? || e.Allocate? {
      AdditionsLoseNothing(s, e, id);
    }
  }

  /** In every run, whatever the interleaving: a row that is there at i and gone at j went
      away unchanged, by an API Delete of that row, after it expired, or as a replacement
      whose primary machine was enabled at that moment. */
  lemma {:induction false} NoEarlyLoss(states: seq<Sys>, steps: seq<Step>, i: nat, j: nat, id: nat)
    requires IsRun(states, steps) && i <= j < |states|
    requires id in states[i].store.rows && id !in states[j].store.rows
    ensures exists k :: i <= k < j && id in states[k].store.rows && id !in states[k + 1].store.rows
              && states[k].store.rows[id] == states[i].store.rows[id] && LossExplained(states[k], steps[k], id)
    decreases j
  {
    if id in states[j - 1].store.rows {
      LastLoss(states, steps, i, j - 1, id);
      assert id !in states[j - 1 + 1].store.rows;
    } else {
      NoEarlyLoss(states, steps, i, j - 1, id);
    }
  }

  function Stores(states: seq<Sys>): (ss: seq<Store>)
    ensures |ss| == |states| && forall i :: 0 <= i < |ss| ==> ss[i] == states[i].store
  {
    seq(|states|, i requires 0 <= i < |states| => states[i].store)
  }

  predicate Growing(ss: seq<Store>) {
    forall i, j :: 0 <= i < |ss| && j == i + 1 && j < |ss| ==> RowsGrow(ss[i], ss[j])
  }

  lemma RunGrows(states: seq<Sys>, steps: seq<Step>)
    requires IsRun(states, steps)
    ensures Growing(Stores(states))
  {
    forall i | 0 <= i < |steps| ensures RowsGrow(states[i].store, states[i + 1].store) {
      RunKeepsTraceable(states, steps, i);
      StepGrows(states[i], steps[i]);
    }
  }

  /** A row never changes, and an id that is gone never comes back. */
  lemma {:induction false} RowsStay(ss: seq<Store>, i: nat, j: nat, id: nat)
    requires Growing(ss) && i <= j < |ss|
    requires id < ss[i].nextRow && id in ss[j].rows
    ensures id in ss[i].rows && ss[j].rows[id] == ss[i].rows[id]
    decreases j
  {
    if i < j {
      NextRowGrows(ss, i, j - 1);
      assert RowsGrow(ss[j - 1], ss[j]);
      RowsStay(ss, i, j - 1, id);
    }
  }

  lemma {:induction false} NextRowGrows(ss: seq<Store>, i: nat, j: nat)
    requires Growing(ss) && i <= j < |ss|
    ensures ss[i].nextRow <= ss[j].nextRow
    decreases j
  {
    if i < j {
      NextRowGrows(ss, i, j - 1);
      assert RowsGrow(ss[j - 1], ss[j]);
    }
  }

  lemma LastLoss(states: seq<Sys>, steps: seq<Step>, i: nat, k: nat, id: nat)
    requires IsRun(states, steps) && i <= k < |steps|
    requires id in states[i].store.rows && id in states[k].store.rows && id !in states[k + 1].store.rows
    ensures states[k].store.rows[id] == states[i].store.rows[id] && LossExplained(states[k], steps[k], id)
  {
    RunKeepsTraceable(states, steps, k);
    StepLoss(states[k], steps[k], id);
    RunKeepsTraceable(states, steps, i);
    RunGrows(states, steps);
    RowsStay(Stores(states), i, k, id);
  }

  /** In every run: a row that is there at j was there, the same, ever since its id was given out. */
  lemma RowsNeverChange(states: seq<Sys>, steps: seq<Step>, i: nat, j: nat, id: nat)
    requires IsRun(states, steps) && i <= j < |states|
    requires id < states[i].store.nextRow && id in states[j].store.rows
    ensures id in states[i].store.rows && states[j].store.rows[id] == states[i].store.rows[id]
  {
    RunGrows(states, steps);
    RowsStay(Stores(states), i, j, id);
  }

  // ---------- A stale release ----------

  lemma OneMachinePool(s: Store, now: Time, mid: nat)
    requires s.machines.Keys == {mid} && Eligible(s.machines[mid], now)
    ensures EligibleIds(s, now) == {mid} && |EligibleIds(s, now)| == 1
    ensures Take(s, EligibleIds(s, now), 1, false) == {mid}
  {
    assert EligibleIds(s, now) == {mid};
    TakeIsTake(s, EligibleIds(s, now), 1, false);
  }

  const USERS := map["alice" := 0, "bob" := 1]

  /** One machine, the given rows, and the columns of whoever holds the machine. */
  function OneMachine(m: Machine, rows: map<nat, Row>, nextRow: nat): Store {
    Store(USERS, map[1 := m], rows, nextRow)
  }

  function TraceState(store: Store, creates: map<nat, Hold>, deletes: map<nat, Handle>): Sys {
    Sys(store, 0, Idle, creates, deletes, {}, {}, {}, map[1 := []])
  }

  function TenMinutes(user: string): Row
    requires user in USERS
  {
    Row(1, USERS[user], user, Some(600), Some("h"), None)
  }

  /** One Create of ten minutes on the only machine, from any state in which it is free. */
  lemma ReserveOne(rows: map<nat, Row>, nextRow: nat, req: nat, user: string, deletes: map<nat, Handle>)
    requires user in USERS
    ensures var s := TraceState(OneMachine(Fresh("m"), rows, nextRow), map[], deletes);
            && Enabled(s, Reserve(req, user, 1, 10))
            && Apply(s, Reserve(req, user, 1, 10))
               == TraceState(OneMachine(Held(Fresh("m"), user, Some(600)), rows, nextRow),
                             map[req := Hold(user, 600, {1})], deletes)
  {
    var s := TraceState(OneMachine(Fresh("m"), rows, nextRow), map[], deletes);
    OneMachinePool(s.store, 0, 1);
    assert HoldMachines(s.store, {1}, user, Some(600)).machines == map[1 := Held(Fresh("m"), user, Some(600))];
  }

  lemma InsertOne(rows: map<nat, Row>, nextRow: nat, req: nat, user: string, deletes: map<nat, Handle>)
    requires user in USERS
    ensures var m := Held(Fresh("m"), user, Some(600));
            var s := TraceState(OneMachine(m, rows, nextRow), map[req := Hold(user, 600, {1})], deletes);
            && Enabled(s, Insert(req, [1], "h"))
            && Apply(s, Insert(req, [1], "h"))
               == TraceState(OneMachine(m, rows[nextRow := TenMinutes(user)], nextRow + 1), map[], deletes)
  {
    var m := Held(Fresh("m"), user, Some(600));
    var s := TraceState(OneMachine(m, rows, nextRow), map[req := Hold(user, 600, {1})], deletes);
    var t := InsertRow(s.store, Row(1, USERS[user], user, Some(600), Some("h"), None));
    assert InsertRows(s.store, [1], user, 600, "h") == InsertRows(t, [], user, 600, "h");
  }

  lemma ClearOne(m: Machine, rows: map<nat, Row>, nextRow: nat, req: nat, deletes: map<nat, Handle>)
    requires req in deletes && deletes[req].mid == 1
    ensures var s := TraceState(OneMachine(m, rows, nextRow), map[], deletes);
            && Enabled(s, ClearDelete(req))
            && Apply(s, ClearDelete(req))
               == TraceState(OneMachine(Freed(m), rows - {deletes[req].row}, nextRow), map[], deletes - {req})
  {
    var s := TraceState(OneMachine(m, rows, nextRow), map[], deletes);
    assert FreeMachines(s.store, {1}).machines == map[1 := Freed(m)];
  }

  lemma Extend(states: seq<Sys>, steps: seq<Step>, e: Step) returns (longer: seq<Sys>, more: seq<Step>)
    requires IsRun(states, steps) && Enabled(states[|steps|], e)
    ensures longer == states + [Apply(states[|steps|], e)] && more == steps + [e]
    ensures IsRun(longer, more)
    ensures SafeRun(states, steps) && Safe(states[|steps|], e) ==> SafeRun(longer, more)
  {
    longer, more := states + [Apply(states[|steps|], e)], steps + [e];
  }

  const FREE := Fresh("m")
  const ALICE := Held(FREE, "alice", Some(600))
  const BOB := Held(FREE, "bob", Some(600))
  const FIRST := Handle(0, 1)

  /** One whole Create extends a run that left the machine free. */
  lemma Book(states: seq<Sys>, steps: seq<Step>, rows: map<nat, Row>, nextRow: nat, req: nat, user: string,
             deletes: map<nat, Handle>) returns (longer: seq<Sys>, more: seq<Step>)
    requires IsRun(states, steps) && user in USERS
    requires states[|steps|] == TraceState(OneMachine(FREE, rows, nextRow), map[], deletes)
    ensures IsRun(longer, more) && states <= longer && steps <= more && |more| == |steps| + 2
    ensures longer[|more|]
            == TraceState(OneMachine(Held(FREE, user, Some(600)), rows[nextRow := TenMinutes(user)], nextRow + 1), map[], deletes)
    ensures SafeRun(states, steps) ==> SafeRun(longer, more)
  {
    ReserveOne(rows, nextRow, req, user, deletes);
    longer, more := Extend(states, steps, Reserve(req, user, 1, 10));
    InsertOne(rows, nextRow, req, user, deletes);
    longer, more := Extend(longer, more, Insert(req, [1], "h"));
  }

  lemma AliceBooked() returns (states: seq<Sys>, steps: seq<Step>)
    ensures SafeRun(states, steps)
    ensures states[|steps|] == TraceState(OneMachine(ALICE, map[0 := TenMinutes("alice")], 1), map[], map[])
  {
    var s0 := Sys(Store(USERS, map[], map[], 0), 0, Idle, map[], map[], {}, {}, {}, map[]);
    states, steps := [s0], [];
    states, steps := Extend(states, steps, Register(1, "m"));
    assert states[|steps|] == TraceState(OneMachine(FREE, map[], 0), map[], map[]);
    states, steps := Book(states, steps, map[], 0, 0, "alice", map[]);
  }

  /** Alice books the machine, and two Deletes of her reservation load the same row. */
  lemma TwoDeletesLoaded() returns (states: seq<Sys>, steps: seq<Step>)
    ensures SafeRun(states, steps)
    ensures states[|steps|]
            == TraceState(OneMachine(ALICE, map[0 := TenMinutes("alice")], 1), map[], map[0 := FIRST, 1 := FIRST])
  {
    states, steps := AliceBooked();
    states, steps := Extend(states, steps, LoadDelete(0, 0));
    states, steps := Extend(states, steps, LoadDelete(1, 0));
  }

  /** The first Delete clears the row, and Bob books the machine: the second Delete is stale now. */
  lemma BobBooked() returns (states: seq<Sys>, steps: seq<Step>)
    ensures SafeRun(states, steps)
    ensures states[|steps|] == TraceState(OneMachine(BOB, map[1 := TenMinutes("bob")], 2), map[], map[1 := FIRST])
  {
    states, steps := TwoDeletesLoaded();
    var rows, both := map[0 := TenMinutes("alice")], map[0 := FIRST, 1 := FIRST];
    ClearOne(ALICE, rows, 1, 0, both);
    assert both - {0} == map[1 := FIRST] && rows - {0} == map[] && Freed(ALICE) == FREE;
    states, steps := Extend(states, steps, ClearDelete(0));
    states, steps := Book(states, steps, map[], 1, 1, "bob", map[1 := FIRST]);
  }

  /** The stale Delete runs, and Alice is given the machine that Bob's row still names. */
  lemma AliceBooksAgain(before: seq<Sys>, taken: seq<Step>) returns (states: seq<Sys>, steps: seq<Step>)
    requires IsRun(before, taken)
    requires before[|taken|] == TraceState(OneMachine(BOB, map[1 := TenMinutes("bob")], 2), map[], map[1 := FIRST])
    ensures IsRun(states, steps) && |steps| == |taken| + 3
    ensures before <= states && taken <= steps && steps[|taken|] == ClearDelete(1)
    ensures states[|steps|].store == OneMachine(ALICE, map[1 := TenMinutes("bob"), 2 := TenMinutes("alice")], 3)
  {
    var rows := map[1 := TenMinutes("bob")];
    ClearOne(BOB, rows, 2, 1, map[1 := FIRST]);
    assert map[1 := FIRST] - {1} == map[] && rows - {0} == rows && Freed(BOB) == FREE;
    states, steps := Extend(before, taken, ClearDelete(1));
    states, steps := Book(states, steps, rows, 2, 2, "alice", map[]);
  }

  /** Without the hypothesis exclusivity is false: two overlapping Deletes of one reservation
      and a Create in between leave Bob's row on a machine marked free, which Alice books.
      The run is safe up to the one stale release. */
  lemma StaleReleaseDoubleBooks() returns (states: seq<Sys>, steps: seq<Step>, stale: nat)
    ensures IsRun(states, steps) && stale < |steps|
    ensures SafeRun(states[..stale + 1], steps[..stale]) && !Safe(states[stale], steps[stale])
    ensures !Exclusive(states[|steps|])
    ensures states[|steps|].store.rows == map[1 := TenMinutes("bob"), 2 := TenMinutes("alice")]
  {
    var before, taken := BobBooked();
    stale := |taken|;
    states, steps := AliceBooksAgain(before, taken);
    assert states[..stale + 1] == before && steps[..stale] == taken && states[stale] == before[stale];
    assert Owns(states[|steps|], RowOwner(1), 1) && Owns(states[|steps|], RowOwner(2), 1);
  }
}
