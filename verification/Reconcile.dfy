/** One reconcile pass as a function of the tables: resize the spare pool, release the
    replacements of recovered primaries, allocate spares to the primaries that are down.

    The order in which the two queries list their rows is not specified by the source, so
    a pass takes any order; it also takes one outcome per playbook run.
 */
module Reconcile {
  import opened Wrappers
  import opened Tables
  import opened Sets
  import opened Selection
  import opened Ownership
  import opened Replacement
  import opened Protocol

  // ---------- The pass ----------

  function OnlineIds(s: Store): set<nat> {
    set i | i in s.machines && s.machines[i].enabled && s.machines[i].online
  }

  /** What the promotion query returns without its limit. */
  function Promotable(s: Store): set<nat> {
    set i | i in s.machines && Usable(s.machines[i]) && !s.machines[i].sparePool
  }

  /** What the demotion query returns without its limit: it does not ask for enabled or online. */
  function IdleSpares(s: Store): set<nat> {
    set i | i in s.machines && s.machines[i].sparePool && !s.machines[i].reserved
  }

  /** The pool is managed at all: a positive percentage of a non-empty fleet. */
  predicate Managed(s: Store, percent: int) {
    percent > 0 && |OnlineIds(s)| > 0
  }

  /** Free spares wanted, rounded down. */
  function Desired(s: Store, percent: int): nat
    requires percent > 0
  {
    |OnlineIds(s)| * percent / 100
  }

  /** The target is the percentage of the machines up, rounded down. */
  lemma TargetRoundsDown(s: Store, percent: int)
    requires percent > 0
    ensures var up := |set i | i in s.machines && s.machines[i].enabled && s.machines[i].online|;
            100 * Desired(s, percent) <= up * percent < 100 * (Desired(s, percent) + 1)
  {
    assert OnlineIds(s) == set i | i in s.machines && s.machines[i].enabled && s.machines[i].online;
  }

  ghost function Promotions(s: Store, percent: int): set<nat>
    requires Managed(s, percent) && |FreeSpares(s)| < Desired(s, percent)
  {
    Take(s, Promotable(s), Desired(s, percent) - |FreeSpares(s)|, false)
  }

  ghost function Demotions(s: Store, percent: int): set<nat>
    requires Managed(s, percent) && |FreeSpares(s)| > Desired(s, percent)
  {
    Take(s, IdleSpares(s), |FreeSpares(s)| - Desired(s, percent), true)
  }

  ghost function Resize(s: Store, percent: int): Store {
    if !Managed(s, percent) then s
    else if |FreeSpares(s)| < Desired(s, percent) then Promote(s, Promotions(s, percent))
    else if |FreeSpares(s)| > Desired(s, percent) then Demote(s, Demotions(s, percent))
    else s
  }

  /** The rows a query listed, as the loop that follows it sees them. */
  function HandlesOf(s: Store, ids: seq<nat>): (q: seq<Handle>)
    requires forall id :: id in ids ==> id in s.rows
    ensures |q| == |ids|
  {
    seq(|ids|, i requires 0 <= i < |ids| => HandleOf(s, ids[i]))
  }

  function NeedsOf(s: Store, ids: seq<nat>): (q: seq<Need>)
    requires forall id :: id in ids ==> id in s.rows
    ensures |q| == |ids|
  {
    seq(|ids|, i requires 0 <= i < |ids| => NeedOf(s.rows[ids[i]]))
  }

  function ReleaseAll(s: Store, now: Time, q: seq<Handle>): Store
    decreases |q|
  {
    if q == [] then s else ReleaseAll(ReleaseOne(s, now, q[0].row, q[0].mid), now, q[1..])
  }

  ghost function AllocateAll(s: Store, now: Time, q: seq<Need>, oks: seq<bool>): Store
    requires |oks| == |q|
    decreases |q|
  {
    if q == [] then s else AllocateAll(AllocateOne(s, now, q[0], oks[0]), now, q[1..], oks[1..])
  }

  ghost function Released(s: Store, now: Time, percent: int, rel: seq<nat>): Store
    requires Lists(rel, Releasable(Resize(s, percent), now))
  {
    ReleaseAll(Resize(s, percent), now, HandlesOf(Resize(s, percent), rel))
  }

  /** A pass from s to t that visited the rows in these orders, with these playbook outcomes. */
  ghost predicate IsPass(s: Store, t: Store, now: Time, percent: int, rel: seq<nat>, needs: seq<nat>, oks: seq<bool>) {
    && Lists(rel, Releasable(Resize(s, percent), now))
    && Lists(needs, NeedIds(Released(s, now, percent, rel), now))
    && |oks| == |needs|
    && t == AllocateAll(Released(s, now, percent, rel), now, NeedsOf(Released(s, now, percent, rel), needs), oks)
  }

  // ---------- Resizing the pool ----------

  /** Machines whose spare flag the pass raised or dropped. */
  function Raised(s: Store, t: Store): set<nat> {
    set i | i in s.machines && i in t.machines && !s.machines[i].sparePool && t.machines[i].sparePool
  }

  function Dropped(s: Store, t: Store): set<nat> {
    set i | i in s.machines && i in t.machines && s.machines[i].sparePool && !t.machines[i].sparePool
  }

  lemma PromotionEffect(s: Store, ids: set<nat>)
    requires ids <= Promotable(s)
    ensures FreeSpares(Promote(s, ids)) == FreeSpares(s) + ids
    ensures Promotable(Promote(s, ids)) == Promotable(s) - ids
    ensures OnlineIds(Promote(s, ids)) == OnlineIds(s)
  {
  }

  lemma PromotionRaises(s: Store, ids: set<nat>)
    requires ids <= Promotable(s)
    ensures Raised(s, Promote(s, ids)) == ids && Dropped(s, Promote(s, ids)) == {}
  {
  }

  lemma DemotionDrops(s: Store, ids: set<nat>)
    requires ids <= IdleSpares(s)
    ensures Dropped(s, Demote(s, ids)) == ids && Raised(s, Demote(s, ids)) == {}
  {
  }

  lemma DemotionEffect(s: Store, ids: set<nat>)
    requires ids <= IdleSpares(s)
    ensures FreeSpares(Demote(s, ids)) == FreeSpares(s) - ids
    ensures IdleSpares(Demote(s, ids)) == IdleSpares(s) - ids
    ensures OnlineIds(Demote(s, ids)) == OnlineIds(s)
  {
  }

  lemma FreeSparesAreIdle(s: Store)
    ensures FreeSpares(s) <= IdleSpares(s) <= s.machines.Keys
    ensures |FreeSpares(s)| <= |IdleSpares(s)| <= |s.machines|
    ensures |Promotable(s)| <= |s.machines|
  {
    SubsetSize(FreeSpares(s), IdleSpares(s));
    SubsetSize(IdleSpares(s), s.machines.Keys);
    SubsetSize(Promotable(s), s.machines.Keys);
  }

  lemma DifferenceSize(a: set<nat>, b: set<nat>)
    ensures |a - b| == |a| - |a * b| && |a * b| <= |b|
    ensures |a * b| == |b| <==> b <= a
  {
    assert a == (a - b) + (a * b);
    SubsetSize(a * b, b);
    if b <= a {
      assert a * b == b;
    }
  }

  lemma PromoteTake(s: Store, k: nat)
    ensures var ids := Take(s, Promotable(s), k, false);
            var t := Promote(s, ids);
            && |FreeSpares(t)| == |FreeSpares(s)| + (if k < |Promotable(s)| then k else |Promotable(s)|)
            && IsTake(s, Promotable(s), k, false, Raised(s, t)) && Dropped(s, t) == {}
  {
    var ids := Take(s, Promotable(s), k, false);
    TakeIsTake(s, Promotable(s), k, false);
    PromotionEffect(s, ids);
    PromotionRaises(s, ids);
    assert FreeSpares(s) * ids == {};
  }

  /** Too few free spares: the pass promotes the least failing machines up to the target, or all there are. */
  lemma PromotionBound(s: Store, percent: int)
    requires Managed(s, percent) && |FreeSpares(s)| < Desired(s, percent)
    ensures var t, d, f := Resize(s, percent), Desired(s, percent), |FreeSpares(s)|;
            && |FreeSpares(t)| == (if d < f + |Promotable(s)| then d else f + |Promotable(s)|)
            && IsTake(s, Promotable(s), d - f, false, Raised(s, t))
            && Dropped(s, t) == {}
  {
    PromoteTake(s, Desired(s, percent) - |FreeSpares(s)|);
  }

  lemma DemoteTake(s: Store, k: nat)
    requires k <= |FreeSpares(s)|
    ensures var ids := Take(s, IdleSpares(s), k, true);
            var t := Demote(s, ids);
            && |ids| == k && IsTake(s, IdleSpares(s), k, true, ids)
            && Dropped(s, t) == ids && Raised(s, t) == {}
            && |FreeSpares(s)| - k <= |FreeSpares(t)| <= |FreeSpares(s)|
            && (|FreeSpares(t)| == |FreeSpares(s)| - k <==> ids <= FreeSpares(s))
            && |IdleSpares(t)| == |IdleSpares(s)| - k
            && OnlineIds(t) == OnlineIds(s)
  {
    var ids := Take(s, IdleSpares(s), k, true);
    TakeIsTake(s, IdleSpares(s), k, true);
    DemotionEffect(s, ids);
    DemotionDrops(s, ids);
    FreeSparesAreIdle(s);
    DifferenceSize(FreeSpares(s), ids);
    DifferenceSize(IdleSpares(s), ids);
    assert IdleSpares(s) * ids == ids;
  }

  /** Too many: exactly the excess is demoted, most failing first. Because the query does not
      ask for enabled and online machines the target is met exactly when it only takes free ones. */
  lemma DemotionBound(s: Store, percent: int)
    requires Managed(s, percent) && |FreeSpares(s)| > Desired(s, percent)
    ensures var t, d, f := Resize(s, percent), Desired(s, percent), |FreeSpares(s)|;
            && |Dropped(s, t)| == f - d
            && IsTake(s, IdleSpares(s), f - d, true, Dropped(s, t))
            && Raised(s, t) == {}
            && d <= |FreeSpares(t)| <= f
            && Dropped(s, t) == Demotions(s, percent)
            && (|FreeSpares(t)| == d <==> Demotions(s, percent) <= FreeSpares(s))
  {
    var ids := Demotions(s, percent);
    DemoteTake(s, |FreeSpares(s)| - Desired(s, percent));
    assert Resize(s, percent) == Demote(s, ids);
  }

  const SPARE := Fresh("s").(sparePool := true)

  function ThreeSpares(): Store {
    Store(map[], map[1 := SPARE, 2 := SPARE, 3 := SPARE.(enabled := false, failCount := 1)], map[], 0)
  }

  lemma ThreeSparesSets()
    ensures OnlineIds(ThreeSpares()) == {1, 2} && FreeSpares(ThreeSpares()) == {1, 2}
    ensures IdleSpares(ThreeSpares()) == {1, 2, 3} == ThreeSpares().machines.Keys
  {
  }

  lemma ThreeSparesTake()
    ensures Take(ThreeSpares(), {1, 2, 3}, 1, true) == {3}
  {
    ThreeSparesSets();
    assert |{1, 2, 3}| == 3;
    TakeUnique(ThreeSpares(), {1, 2, 3}, 1, true, {3});
  }

  /** The target is really missed: two free spares, one wanted, and a disabled spare with the
      most failures, which the demotion takes instead of one of the free ones. */
  lemma DemotionCanMissTarget()
    ensures Managed(ThreeSpares(), 50) && Desired(ThreeSpares(), 50) == 1
    ensures |FreeSpares(ThreeSpares())| == 2 && |FreeSpares(Resize(ThreeSpares(), 50))| == 2
  {
    var s := ThreeSpares();
    ThreeSparesSets();
    ThreeSparesTake();
    assert |{1, 2}| == 2;
    DemotionEffect(s, {3});
    assert FreeSpares(s) - {3} == {1, 2};
  }

  /** Promotion and demotion never touch a reserved machine, a row, or the size of the fleet. */
  lemma ResizeFlags(s: Store, percent: int)
    ensures var t := Resize(s, percent); FlagsOnly(s, t) && SameEnabled(s, t) && OnlineIds(t) == OnlineIds(s)
  {
    if Managed(s, percent) {
      if |FreeSpares(s)| < Desired(s, percent) {
        PromoteFlags(s, Promotions(s, percent));
        PromotionEffect(s, Promotions(s, percent));
      } else if |FreeSpares(s)| > Desired(s, percent) {
        DemoteFlags(s, Demotions(s, percent));
        DemotionEffect(s, Demotions(s, percent));
      }
    }
  }

  /** The queries of the other two stages do not look at the spare flag. */
  lemma FlagsKeepQueries(s: Store, t: Store, now: Time)
    requires SameHold(s, t) && SameEnabled(s, t)
    ensures Releasable(t, now) == Releasable(s, now) && NeedIds(t, now) == NeedIds(s, now)
    ensures Guarded(t, now) == Guarded(s, now)
  {
    assert forall m, u :: HasActiveRow(t, now, m, u) <==> HasActiveRow(s, now, m, u);
    assert forall m, u :: HasReplacement(t, now, m, u) <==> HasReplacement(s, now, m, u);
  }

  /** Active replacements of a primary machine that is enabled, whether or not a primary row is left. */
  ghost function Guarded(s: Store, now: Time): set<nat> {
    set id | id in s.rows && ReleaseGuard(s, now, id)
  }

  // ---------- The release stage ----------

  /** The machines of the rows with the given ids. */
  function MachinesOf(s: Store, ids: set<nat>): set<nat> {
    set id | id in ids && id in s.rows :: s.rows[id].machineId
  }

  /** After a stage: exactly the rows of the given ids are gone, and exactly their machines are free. */
  ghost predicate OnlyReleased(s: Store, t: Store, ids: set<nat>) {
    && t.users == s.users && t.nextRow == s.nextRow && t.rows == s.rows - ids
    && t.machines.Keys == s.machines.Keys
    && forall i :: i in s.machines ==>
         t.machines[i] == if i in MachinesOf(s, ids) then Freed(s.machines[i]) else s.machines[i]
  }

  lemma ReleaseOneEffect(s: Store, now: Time, id: nat)
    requires id in Guarded(s, now)
    ensures OnlyReleased(s, ReleaseOne(s, now, id, s.rows[id].machineId), {id})
    ensures Guarded(ReleaseOne(s, now, id, s.rows[id].machineId), now) == Guarded(s, now) - {id}
  {
  }

  lemma ReleaseChain(s: Store, t: Store, u: Store, id: nat, rest: set<nat>)
    requires OnlyReleased(s, t, {id}) && OnlyReleased(t, u, rest)
    ensures OnlyReleased(s, u, {id} + rest)
  {
    assert s.rows - ({id} + rest) == (s.rows - {id}) - rest;
    MachinesMore(s, t, id, rest);
  }

  lemma MachinesMore(s: Store, t: Store, id: nat, rest: set<nat>)
    requires t.rows == s.rows - {id}
    ensures MachinesOf(s, {id} + rest) == MachinesOf(s, {id}) + MachinesOf(t, rest)
  {
    forall i | i in MachinesOf(s, {id}) + MachinesOf(t, rest) ensures i in MachinesOf(s, {id} + rest) {
      if i in MachinesOf(t, rest) {
        var k :| k in rest && k in t.rows && t.rows[k].machineId == i;
        assert k in {id} + rest && k in s.rows;
      } else {
        assert id in {id} + rest && id in s.rows;
      }
    }
    forall i | i in MachinesOf(s, {id} + rest) ensures i in MachinesOf(s, {id}) + MachinesOf(t, rest) {
      var k :| k in {id} + rest && k in s.rows && s.rows[k].machineId == i;
      assert k == id || (k in rest && k in t.rows);
    }
  }

  function UsableOf(s: Store, ids: set<nat>): set<nat> {
    set i | i in ids && i in s.machines && s.machines[i].enabled && s.machines[i].online
  }

  /** Releasable replacements return these machines to the free spares, if they are enabled and online. */
  function Returning(s: Store, now: Time): set<nat> {
    UsableOf(s, MachinesOf(s, Releasable(s, now)))
  }

  /** Replacements sit on reserved spares. */
  lemma ReleasedMachine(s: Store, now: Time, i: nat)
    requires RowsOk(s, now) && i in MachinesOf(s, Releasable(s, now))
    ensures i in s.machines && s.machines[i].reserved && s.machines[i].sparePool
  {
    var id :| id in Releasable(s, now) && id in s.rows && s.rows[id].machineId == i;
    assert RowFormed(s, id) && RowHeld(s, id) && RowPooled(s, id);
  }

  lemma ReleasedSpares(s: Store, t: Store, now: Time)
    requires RowsOk(s, now) && OnlyReleased(s, t, Releasable(s, now))
    ensures |FreeSpares(t)| == |FreeSpares(s)| + |Returning(s, now)|
    ensures Promotable(t) == Promotable(s)
  {
    var ids := MachinesOf(s, Releasable(s, now));
    forall i | i in ids ensures i in s.machines && s.machines[i].reserved && s.machines[i].sparePool {
      ReleasedMachine(s, now, i);
    }
    FreedSpares(s, t, ids);
  }

  lemma FreedSpares(s: Store, t: Store, ids: set<nat>)
    requires t.machines.Keys == s.machines.Keys
    requires forall i :: i in s.machines ==> t.machines[i] == if i in ids then Freed(s.machines[i]) else s.machines[i]
    requires forall i :: i in ids ==> i in s.machines && s.machines[i].reserved && s.machines[i].sparePool
    ensures |FreeSpares(t)| == |FreeSpares(s)| + |UsableOf(s, ids)|
    ensures Promotable(t) == Promotable(s)
  {
    assert FreeSpares(t) == FreeSpares(s) + UsableOf(s, ids);
    assert FreeSpares(s) * UsableOf(s, ids) == {};
  }

  /** The listed handles are those of the given guarded rows. */
  ghost predicate Listed(s: Store, now: Time, q: seq<Handle>, ids: seq<nat>) {
    && |q| == |ids| && Distinct(ids)
    && forall k :: 0 <= k < |ids| ==> ids[k] in Guarded(s, now) && q[k] == HandleOf(s, ids[k])
  }

  lemma ReleaseFirst(s: Store, now: Time, q: seq<Handle>, ids: seq<nat>)
    requires Listed(s, now, q, ids) && q != []
    ensures var t := ReleaseOne(s, now, q[0].row, q[0].mid);
            OnlyReleased(s, t, {ids[0]}) && Listed(t, now, q[1..], ids[1..])
  {
    ReleaseOneEffect(s, now, ids[0]);
  }

  /** Releasing a list of guarded replacements removes exactly those rows, whatever the order. */
  lemma {:induction false} ReleaseAllEffect(s: Store, now: Time, q: seq<Handle>, ids: seq<nat>)
    requires Listed(s, now, q, ids)
    ensures OnlyReleased(s, ReleaseAll(s, now, q), Elements(ids))
    decreases |q|
  {
    if q != [] {
      var t := ReleaseOne(s, now, q[0].row, q[0].mid);
      ReleaseFirst(s, now, q, ids);
      ReleaseAllEffect(t, now, q[1..], ids[1..]);
      ReleaseChain(s, t, ReleaseAll(t, now, q[1..]), ids[0], Elements(ids[1..]));
      assert Elements(ids) == {ids[0]} + Elements(ids[1..]);
    } else {
      assert Elements(ids) == {};
    }
  }

  lemma {:induction false} ReleaseAllKeepsRows(s: Store, now: Time, q: seq<Handle>, ids: seq<nat>)
    requires RowsOk(s, now) && Listed(s, now, q, ids)
    ensures RowsOk(ReleaseAll(s, now, q), now)
    decreases |q|
  {
    if q != [] {
      ReleaseKeepsRows(s, now, ids[0], q[0].mid);
      ReleaseFirst(s, now, q, ids);
      ReleaseAllKeepsRows(ReleaseOne(s, now, q[0].row, q[0].mid), now, q[1..], ids[1..]);
    }
  }

  /** The release stage empties the release query and leaves every need as it was. */
  lemma ReleaseStage(s: Store, now: Time, rel: seq<nat>)
    requires RowsOk(s, now) && Lists(rel, Releasable(s, now))
    ensures var t := ReleaseAll(s, now, HandlesOf(s, rel));
            && RowsOk(t, now)
            && OnlyReleased(s, t, Releasable(s, now))
            && Releasable(t, now) == {}
            && Guarded(t, now) == Guarded(s, now) - Releasable(s, now)
            && NeedIds(t, now) == NeedIds(s, now)
            && (Releasable(s, now) == {} ==> t == s)
  {
    var q := HandlesOf(s, rel);
    var t := ReleaseAll(s, now, q);
    forall k | 0 <= k < |rel| ensures rel[k] in Guarded(s, now) {
      assert rel[k] in rel;
    }
    ReleaseAllEffect(s, now, q, rel);
    ReleaseAllKeepsRows(s, now, q, rel);
    assert Elements(rel) == Releasable(s, now);
    ReleasedQueries(s, t, now, Releasable(s, now));
    if Releasable(s, now) == {} {
      ListSize(rel, {});
    }
  }

  lemma ReleasedQueries(s: Store, t: Store, now: Time, ids: set<nat>)
    requires OnlyReleased(s, t, ids) && ids == Releasable(s, now)
    ensures Releasable(t, now) == {}
    ensures Guarded(t, now) == Guarded(s, now) - ids
    ensures NeedIds(t, now) == NeedIds(s, now)
  {
    forall m: nat, u | HasActiveRow(t, now, m, u) ensures HasActiveRow(s, now, m, u) {
      var id :| id in t.rows && t.rows[id].machineId == m && t.rows[id].username == u && Active(t.rows[id], now);
      assert id in s.rows && s.rows[id].machineId == m;
    }
    forall m: nat, u | m in s.machines && !s.machines[m].enabled && HasReplacement(s, now, m, u)
      ensures HasReplacement(t, now, m, u)
    {
      var id :| id in s.rows && s.rows[id].replacementFor == Some(m) && s.rows[id].username == u && Active(s.rows[id], now);
      assert id in t.rows && t.rows[id].replacementFor == Some(m);
    }
    forall m: nat, u | HasReplacement(t, now, m, u) ensures HasReplacement(s, now, m, u) {
      var id :| id in t.rows && t.rows[id].replacementFor == Some(m) && t.rows[id].username == u && Active(t.rows[id], now);
      assert id in s.rows && s.rows[id].replacementFor == Some(m);
    }
  }

  // ---------- The allocation stage ----------

  lemma GrantedReplacements(s: Store, t: Store, now: Time, n: Need, spare: nat)
    requires Granted(s, t, n, spare) && s.nextRow !in s.rows && (n.until.None? || n.until.value > now)
    ensures forall m: nat, u :: HasReplacement(t, now, m, u) <==> HasReplacement(s, now, m, u) || (m == n.primary && u == n.user)
  {
    var r := s.nextRow;
    assert t.rows[r].replacementFor == Some(n.primary) && t.rows[r].username == n.user && Active(t.rows[r], now);
    forall m: nat, u | HasReplacement(s, now, m, u) ensures HasReplacement(t, now, m, u) {
      var k :| k in s.rows && s.rows[k].replacementFor == Some(m) && s.rows[k].username == u && Active(s.rows[k], now);
      assert k in t.rows && t.rows[k].replacementFor == Some(m);
    }
    forall m: nat, u | HasReplacement(t, now, m, u) && !(m == n.primary && u == n.user) ensures HasReplacement(s, now, m, u) {
      var k :| k in t.rows && t.rows[k].replacementFor == Some(m) && t.rows[k].username == u && Active(t.rows[k], now);
      assert k in s.rows && s.rows[k].replacementFor == Some(m);
    }
  }

  /** One granted allocation meets exactly its need with exactly one spare. */
  lemma GrantMeetsNeed(s: Store, t: Store, now: Time, id: nat, spare: nat)
    requires RowsOk(s, now) && id in NeedIds(s, now) && Granted(s, t, NeedOf(s.rows[id]), spare)
    ensures NeedIds(t, now) == NeedIds(s, now) - {id}
    ensures FreeSpares(t) == FreeSpares(s) - {spare}
    ensures Guarded(t, now) == Guarded(s, now)
  {
    InsertRowsBound(s, now);
    var n := NeedOf(s.rows[id]);
    GrantedReplacements(s, t, now, n, spare);
    forall k | k in NeedIds(s, now) - {id} ensures k in NeedIds(t, now) {
      assert s.rows[k].machineId != n.primary;
    }
  }

  function Min(a: nat, b: nat): nat {
    if a < b then a else b
  }

  /** A replacement row copied from one of the needs, on a machine that was a free spare. */
  ghost predicate FromNeed(s: Store, needs: seq<Need>, r: Row) {
    exists k :: 0 <= k < |needs| && needs[k].user in s.users && r.machineId in FreeSpares(s)
                && r == ReplacementRow(s, needs[k], r.machineId)
  }

  /** Old rows stay, new rows come from the needs, and only spares that were taken change. */
  ghost predicate OnlyAllocated(s: Store, t: Store, needs: seq<Need>) {
    && t.users == s.users && s.nextRow <= t.nextRow && t.machines.Keys == s.machines.Keys
    && (forall id :: id in s.rows ==> id in t.rows && t.rows[id] == s.rows[id])
    && (forall id :: id in t.rows && id !in s.rows ==> s.nextRow <= id < t.nextRow && FromNeed(s, needs, t.rows[id]))
    && FreeSpares(t) <= FreeSpares(s)
    && (forall i :: i in s.machines ==>
          && t.machines[i].enabled == s.machines[i].enabled && t.machines[i].online == s.machines[i].online
          && t.machines[i].sparePool == s.machines[i].sparePool)
    && forall i :: i in s.machines && (i in FreeSpares(s) ==> i in FreeSpares(t)) ==> t.machines[i] == s.machines[i]
  }

  lemma FromNeedLater(s: Store, t: Store, needs: seq<Need>, r: Row)
    requires needs != [] && FromNeed(t, needs[1..], r) && t.users == s.users && FreeSpares(t) <= FreeSpares(s)
    ensures FromNeed(s, needs, r)
  {
    var k :| 0 <= k < |needs[1..]| && needs[1..][k].user in t.users && r == ReplacementRow(t, needs[1..][k], r.machineId);
    assert needs[k + 1] == needs[1..][k];
    assert r == ReplacementRow(s, needs[k + 1], r.machineId);
  }

  lemma GrantedFree(s: Store, t: Store, n: Need, spare: nat)
    requires Granted(s, t, n, spare)
    ensures FreeSpares(t) == FreeSpares(s) - {spare}
  {
  }

  lemma ChainRows(s: Store, t: Store, u: Store, needs: seq<Need>, spare: nat)
    requires needs != [] && Granted(s, t, needs[0], spare) && OnlyAllocated(t, u, needs[1..])
    requires s.nextRow !in s.rows
    ensures forall id :: id in s.rows ==> id in u.rows && u.rows[id] == s.rows[id]
    ensures forall id :: id in u.rows && id !in s.rows ==> s.nextRow <= id < u.nextRow && FromNeed(s, needs, u.rows[id])
  {
    GrantedFree(s, t, needs[0], spare);
    forall id | id in u.rows && id !in s.rows ensures s.nextRow <= id < u.nextRow && FromNeed(s, needs, u.rows[id]) {
      if id in t.rows {
        assert u.rows[id] == ReplacementRow(s, needs[0], spare);
      } else {
        FromNeedLater(s, t, needs, u.rows[id]);
      }
    }
  }

  lemma AllocateChain(s: Store, t: Store, u: Store, needs: seq<Need>, spare: nat)
    requires needs != [] && Granted(s, t, needs[0], spare) && OnlyAllocated(t, u, needs[1..])
    requires s.nextRow !in s.rows
    ensures OnlyAllocated(s, u, needs)
  {
    GrantedFree(s, t, needs[0], spare);
    ChainRows(s, t, u, needs, spare);
  }

  lemma SkippedNeed(s: Store, t: Store, needs: seq<Need>)
    requires needs != [] && OnlyAllocated(s, t, needs[1..])
    ensures OnlyAllocated(s, t, needs)
  {
    forall id | id in t.rows && id !in s.rows ensures FromNeed(s, needs, t.rows[id]) {
      FromNeedLater(s, s, needs, t.rows[id]);
    }
  }

  /** The listed needs are still those of the given rows. */
  ghost predicate Pending(s: Store, now: Time, ids: seq<nat>, needs: seq<Need>) {
    && |ids| == |needs| && Distinct(ids)
    && forall k :: 0 <= k < |ids| ==> ids[k] in NeedIds(s, now) && needs[k] == NeedOf(s.rows[ids[k]])
  }

  /** The first iteration of the allocation loop: granted, or nothing happens. */
  lemma AllocateFirst(s: Store, now: Time, ids: seq<nat>, needs: seq<Need>, ok: bool)
    requires RowsOk(s, now) && Pending(s, now, ids, needs) && ids != []
    ensures var t := AllocateOne(s, now, needs[0], ok);
            && RowsOk(t, now) && Pending(t, now, ids[1..], needs[1..])
            && (t == s || exists spare :: Granted(s, t, needs[0], spare))
            && NeedIds(t, now) == (if t == s then NeedIds(s, now) else NeedIds(s, now) - {ids[0]})
            && Guarded(t, now) == Guarded(s, now)
            && (ok && FreeSpares(s) != {} ==> t != s)
            && (FreeSpares(s) == {} ==> t == s)
            && s.nextRow !in s.rows
  {
    var id := ids[0];
    var t := AllocateOne(s, now, needs[0], ok);
    assert NeedsSpare(s, now, id) && RowFormed(s, id);
    assert StillNeeded(s, now, needs[0]);
    AllocateKeepsRows(s, now, needs[0], ok);
    InsertRowsBound(s, now);
    if Grants(s, now, needs[0], ok) {
      AllocateEffect(s, now, needs[0], ok);
      GrantMeetsNeed(s, t, now, id, PickedSpare(s));
    }
  }

  /** What some iterations of the loop have done to the tables. */
  ghost predicate Allocated(s: Store, t: Store, now: Time, needs: seq<Need>) {
    && RowsOk(t, now) && OnlyAllocated(s, t, needs)
    && Guarded(t, now) == Guarded(s, now)
    && NeedIds(t, now) <= NeedIds(s, now)
    && (t != s ==> |NeedIds(t, now)| < |NeedIds(s, now)|)
    && |FreeSpares(s)| + |NeedIds(t, now)| == |FreeSpares(t)| + |NeedIds(s, now)|
  }

  lemma AllocatedPromotable(s: Store, t: Store, needs: seq<Need>)
    requires OnlyAllocated(s, t, needs)
    ensures Promotable(t) == Promotable(s)
  {
    forall i | i in s.machines && !s.machines[i].sparePool ensures t.machines[i] == s.machines[i] {
      assert i !in FreeSpares(s);
    }
  }

  lemma AllocatedAfter(s: Store, t: Store, u: Store, now: Time, needs: seq<Need>, id: nat)
    requires needs != [] && Allocated(t, u, now, needs[1..]) && id in NeedIds(s, now) && s.nextRow !in s.rows
    requires t == s || exists spare :: Granted(s, t, needs[0], spare)
    requires NeedIds(t, now) == if t == s then NeedIds(s, now) else NeedIds(s, now) - {id}
    requires Guarded(t, now) == Guarded(s, now)
    ensures Allocated(s, u, now, needs)
  {
    OneEach(s, t, now, id, needs[0]);
    if t == s {
      SkippedNeed(s, u, needs);
    } else {
      var spare :| Granted(s, t, needs[0], spare);
      AllocateChain(s, t, u, needs, spare);
      SubsetSize(NeedIds(u, now), NeedIds(t, now));
    }
  }

  /** Whatever fails, the loop never adds a need, and only changes anything by meeting one;
      each need it meets takes one spare. */
  lemma {:induction false} AllocateAllEffect(s: Store, now: Time, ids: seq<nat>, needs: seq<Need>, oks: seq<bool>)
    requires RowsOk(s, now) && Pending(s, now, ids, needs) && |oks| == |needs|
    ensures Allocated(s, AllocateAll(s, now, needs, oks), now, needs)
    decreases |ids|
  {
    if ids != [] {
      var t := AllocateOne(s, now, needs[0], oks[0]);
      var u := AllocateAll(t, now, needs[1..], oks[1..]);
      AllocateFirst(s, now, ids, needs, oks[0]);
      AllocateAllEffect(t, now, ids[1..], needs[1..], oks[1..]);
      AllocatedAfter(s, t, u, now, needs, ids[0]);
    }
  }

  /** The greedy loop is complete: when every playbook succeeds, k listed needs and f free
      spares leave k - f needs unmet or f - k spares free, whatever the order of the list. */
  lemma {:induction false} GreedyAllocation(s: Store, now: Time, ids: seq<nat>, needs: seq<Need>, oks: seq<bool>)
    requires RowsOk(s, now) && Pending(s, now, ids, needs) && |oks| == |needs|
    requires forall k :: 0 <= k < |oks| ==> oks[k]
    ensures var t, met := AllocateAll(s, now, needs, oks), Min(|ids|, |FreeSpares(s)|);
            && |NeedIds(t, now)| == |NeedIds(s, now)| - met
            && |FreeSpares(t)| == |FreeSpares(s)| - met
    decreases |ids|
  {
    if ids != [] {
      var t := AllocateOne(s, now, needs[0], oks[0]);
      AllocateFirst(s, now, ids, needs, oks[0]);
      GreedyAllocation(t, now, ids[1..], needs[1..], oks[1..]);
      OneEach(s, t, now, ids[0], needs[0]);
    }
  }

  /** A granted allocation uses up one need and one spare. */
  lemma OneEach(s: Store, t: Store, now: Time, id: nat, n: Need)
    requires id in NeedIds(s, now) && (t == s || exists spare :: Granted(s, t, n, spare))
    requires NeedIds(t, now) == if t == s then NeedIds(s, now) else NeedIds(s, now) - {id}
    ensures t != s ==> |NeedIds(t, now)| == |NeedIds(s, now)| - 1 && |FreeSpares(t)| == |FreeSpares(s)| - 1
  {
    if t != s {
      var spare :| Granted(s, t, n, spare);
      GrantedFree(s, t, n, spare);
    }
  }
}
