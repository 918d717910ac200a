/** The reconciler in program order: its three stages as loops over the shared database,
    proved to be one pass of `Reconcile`.
 */
module Reconciler {
  import opened Wrappers
  import opened Tables
  import opened Sets
  import opened Ownership
  import opened Replacement
  import opened Protocol
  import opened Reconcile
  import opened Storage

  /** A query without ORDER BY may list its rows in any order. */
  method AnyOrder(ids: set<nat>) returns (q: seq<nat>)
    ensures Lists(q, ids)
  {
    q := [];
    var rest := ids;
    while rest != {}
      invariant rest <= ids && Lists(q, ids - rest)
      decreases |rest|
    {
      var x :| x in rest;
      assert ids - (rest - {x}) == (ids - rest) + {x};
      q, rest := q + [x], rest - {x};
    }
    assert ids - rest == ids;
  }

  // ---------- Spare pool ----------

  method PromoteAll(d: Database, ids: seq<nat>)
    modifies d`machines
    ensures d.View() == Promote(old(d.View()), Elements(ids))
    ensures d.machines.Keys == old(d.machines).Keys && forall i :: i in d.machines ==>
              var m := old(d.machines)[i];
              d.machines[i] == if i in ids && m.enabled && m.online && !m.reserved then m.(sparePool := true) else m
  {
    assert Promote(d.View(), Elements(ids[..0])).machines == d.machines;
    for k := 0 to |ids|
      invariant d.machines == Promote(old(d.View()), Elements(ids[..k])).machines
    {
      var i := ids[k];
      if i in d.machines && !d.machines[i].sparePool && Usable(d.machines[i]) {
        d.machines := d.machines[i := d.machines[i].(sparePool := true)];
      }
      assert ids[..k + 1] == ids[..k] + [i];
    }
    assert ids[..|ids|] == ids;
  }

  method DemoteAll(d: Database, ids: seq<nat>)
    modifies d`machines
    ensures d.View() == Demote(old(d.View()), Elements(ids))
    ensures d.machines.Keys == old(d.machines).Keys && forall i :: i in d.machines ==>
              var m := old(d.machines)[i];
              d.machines[i] == if i in ids && !m.reserved then m.(sparePool := false) else m
  {
    assert Demote(d.View(), Elements(ids[..0])).machines == d.machines;
    for k := 0 to |ids|
      invariant d.machines == Demote(old(d.View()), Elements(ids[..k])).machines
    {
      var i := ids[k];
      if i in d.machines && d.machines[i].sparePool && !d.machines[i].reserved {
        d.machines := d.machines[i := d.machines[i].(sparePool := false)];
      }
      assert ids[..k + 1] == ids[..k] + [i];
    }
    assert ids[..|ids|] == ids;
  }

  method EnforceSparePool(d: Database, percent: int)
    modifies d`machines
    ensures d.View() == Resize(old(d.View()), percent)
  {
    if percent <= 0 {
      return;
    }
    var total := |OnlineIds(d.View())|;
    if total <= 0 {
      return;
    }
    var desired := total * percent / 100;
    var current := |FreeSpares(d.View())|;
    if current < desired {
      var ids := d.Select(Promotable(d.View()), desired - current, false);
      assert Elements(ids) == Promotions(d.View(), percent);
      PromoteAll(d, ids);
    } else if current > desired {
      var ids := d.Select(IdleSpares(d.View()), current - desired, true);
      assert Elements(ids) == Demotions(d.View(), percent);
      DemoteAll(d, ids);
    }
  }

  // ---------- Release ----------

  /** One release transaction: recheck, then delete the row and free its machine, or roll back. */
  method ReleaseOneTx(d: Database, h: Handle, now: Time) returns (released: bool)
    modifies d
    ensures released <==> ReleaseGuard(old(d.View()), now, h.row)
    ensures d.View() == ReleaseOne(old(d.View()), now, h.row, h.mid)
    ensures released <==>
              && h.row in old(d.rows) && (old(d.rows)[h.row].until.None? || old(d.rows)[h.row].until.value > now)
              && old(d.rows)[h.row].replacementFor.Some? && old(d.rows)[h.row].replacementFor.value in old(d.machines)
              && old(d.machines)[old(d.rows)[h.row].replacementFor.value].enabled
    ensures d.rows == if released then old(d.rows) - {h.row} else old(d.rows)
    ensures d.machines.Keys == old(d.machines).Keys && forall i :: i in d.machines ==>
              var m := old(d.machines)[i];
              d.machines[i] == if released && i == h.mid
                               then m.(reserved := false, reservedBy := None, reservedUntil := None) else m
  {
    GuardInColumns(d.View(), now, h.row);
    released := ReleaseGuard(d.View(), now, h.row);
    if released {
      d.Clear(h.row, h.mid);
    }
  }

  method ReleaseReplacements(d: Database, now: Time) returns (released: nat, ghost rel: seq<nat>)
    modifies d
    ensures Lists(rel, Releasable(old(d.View()), now))
    ensures d.View() == ReleaseAll(old(d.View()), now, HandlesOf(old(d.View()), rel))
    ensures released == |rel|
    ensures forall id :: id in rel <==>
              && id in old(d.rows) && (old(d.rows)[id].until.None? || old(d.rows)[id].until.value > now)
              && old(d.rows)[id].replacementFor.Some? && old(d.rows)[id].replacementFor.value in old(d.machines)
              && old(d.machines)[old(d.rows)[id].replacementFor.value].enabled
              && exists p :: p in old(d.rows) && old(d.rows)[p].machineId == old(d.rows)[id].replacementFor.value
                             && old(d.rows)[p].username == old(d.rows)[id].username
                             && (old(d.rows)[p].until.None? || old(d.rows)[p].until.value > now)
  {
    ghost var s := d.View();
    forall id | id in s.rows ensures id in Releasable(s, now) <==>
              && (s.rows[id].until.None? || s.rows[id].until.value > now)
              && s.rows[id].replacementFor.Some? && s.rows[id].replacementFor.value in s.machines
              && s.machines[s.rows[id].replacementFor.value].enabled
              && exists p :: p in s.rows && s.rows[p].machineId == s.rows[id].replacementFor.value
                             && s.rows[p].username == s.rows[id].username
                             && (s.rows[p].until.None? || s.rows[p].until.value > now)
    {
      ReleasableInColumns(s, now, id);
    }
    var ids := AnyOrder(Releasable(d.View(), now));
    rel := ids;
    assert forall id :: id in ids ==> id in d.rows;
    var q := HandlesOf(d.View(), ids);
    AllListed(d.View(), now, ids);
    released := 0;
    for k := 0 to |q|
      invariant ReleaseAll(d.View(), now, q[k..]) == ReleaseAll(old(d.View()), now, q)
      invariant Listed(d.View(), now, q[k..], ids[k..])
      invariant released == k
    {
      assert q[k..][1..] == q[k + 1..] && ids[k..][1..] == ids[k + 1..];
      ReleaseFirst(d.View(), now, q[k..], ids[k..]);
      var ok := ReleaseOneTx(d, q[k], now);
      if ok {
        released := released + 1;
      }
    }
  }

  lemma AllListed(s: Store, now: Time, ids: seq<nat>)
    requires Lists(ids, Releasable(s, now))
    ensures Listed(s, now, HandlesOf(s, ids), ids)
  {
    forall k | 0 <= k < |ids| ensures ids[k] in Guarded(s, now) {
      assert ids[k] in ids;
    }
  }

  // ---------- Allocation ----------

  datatype Allocation = Allocated(spare: nat) | NotNeeded | NoSpare | NoUser | NoHash | PlaybookError

  /** One allocation transaction. The spare is reserved and the row inserted before the user is
      provisioned; anything that fails after that rolls both back. */
  method AllocateTx(d: Database, n: Need, now: Time, ok: bool) returns (res: Allocation)
    modifies d
    ensures d.View() == AllocateOne(old(d.View()), now, n, ok)
    ensures res.Allocated? <==> Grants(old(d.View()), now, n, ok)
    ensures res.NotNeeded? <==> !StillNeeded(old(d.View()), now, n)
    ensures res.NoSpare? <==> StillNeeded(old(d.View()), now, n) && FreeSpares(old(d.View())) == {}
    ensures res.NoUser? <==>
              StillNeeded(old(d.View()), now, n) && FreeSpares(old(d.View())) != {} && n.user !in d.users
    ensures res.NoHash? <==>
              StillNeeded(old(d.View()), now, n) && FreeSpares(old(d.View())) != {} && n.user in d.users && !HasHash(n.hash)
    ensures res.PlaybookError? <==>
              && StillNeeded(old(d.View()), now, n) && FreeSpares(old(d.View())) != {} && n.user in d.users
              && HasHash(n.hash) && !ok
    ensures res.Allocated? ==> res.spare == PickedSpare(old(d.View()))
    ensures res.NotNeeded? <==>
              !(&& n.primary in old(d.machines) && !old(d.machines)[n.primary].enabled
                && (exists p :: p in old(d.rows) && old(d.rows)[p].machineId == n.primary && old(d.rows)[p].username == n.user
                                && old(d.rows)[p].replacementFor.None?
                                && (old(d.rows)[p].until.None? || old(d.rows)[p].until.value > now))
                && forall q :: q in old(d.rows) && old(d.rows)[q].replacementFor == Some(n.primary)
                               && old(d.rows)[q].username == n.user ==>
                     old(d.rows)[q].until.Some? && old(d.rows)[q].until.value <= now)
    ensures !res.NotNeeded? ==>
              (res.NoSpare? <==>
                 forall i :: i in old(d.machines) ==>
                   !(&& old(d.machines)[i].enabled && old(d.machines)[i].online
                     && old(d.machines)[i].sparePool && !old(d.machines)[i].reserved))
    ensures res.NoUser? ==> n.user !in d.users
    ensures res.NoHash? ==> n.user in d.users && (n.hash.None? || n.hash.value == "")
    ensures res.PlaybookError? ==> n.user in d.users && n.hash.Some? && n.hash.value != "" && !ok
    ensures res.Allocated? ==>
              && n.user in d.users && n.hash.Some? && n.hash.value != "" && ok
              && res.spare in old(d.machines)
              && d.rows == old(d.rows)[old(d.nextRow) := Row(res.spare, d.users[n.user], n.user, n.until, n.hash, Some(n.primary))]
              && d.nextRow == old(d.nextRow) + 1
              && d.machines == old(d.machines)[res.spare := old(d.machines)[res.spare].(
                                 reserved := true, reservedBy := Some(n.user), reservedUntil := n.until)]
    ensures !res.Allocated? ==> d.rows == old(d.rows) && d.machines == old(d.machines) && d.nextRow == old(d.nextRow)
  {
    StillNeededInColumns(d.View(), now, n);
    NoSpareInColumns(d.View());
    if !StillNeeded(d.View(), now, n) {
      return NotNeeded;
    }
    var free := FreeSpares(d.View());
    if free == {} {
      return NoSpare;
    }
    var spare := d.SelectOne(free, false);
    if n.user !in d.users {
      return NoUser;
    }
    var machines, rows, nextRow := d.machines, d.rows, d.nextRow;
    d.machines := d.machines[spare := Held(d.machines[spare], n.user, n.until)];
    d.Insert(Row(spare, d.users[n.user], n.user, n.until, n.hash, Some(n.primary)));
    if !HasHash(n.hash) {
      d.machines, d.rows, d.nextRow := machines, rows, nextRow;
      return NoHash;
    }
    if !ok {
      d.machines, d.rows, d.nextRow := machines, rows, nextRow;
      return PlaybookError;
    }
    AllocateEffect(old(d.View()), now, n, ok);
    res := Allocated(spare);
  }

  lemma NeedsInColumns(s: Store, now: Time)
    ensures forall p :: p in NeedIds(s, now) <==>
              && p in s.rows && (s.rows[p].until.None? || s.rows[p].until.value > now) && s.rows[p].replacementFor.None?
              && s.rows[p].machineId in s.machines && !s.machines[s.rows[p].machineId].enabled
              && forall q :: q in s.rows && s.rows[q].replacementFor == Some(s.rows[p].machineId)
                             && s.rows[q].username == s.rows[p].username ==>
                   s.rows[q].until.Some? && s.rows[q].until.value <= now
  {
    forall p | p in s.rows ensures p in NeedIds(s, now) <==>
              && (s.rows[p].until.None? || s.rows[p].until.value > now) && s.rows[p].replacementFor.None?
              && s.rows[p].machineId in s.machines && !s.machines[s.rows[p].machineId].enabled
              && forall q :: q in s.rows && s.rows[q].replacementFor == Some(s.rows[p].machineId)
                             && s.rows[q].username == s.rows[p].username ==>
                   s.rows[q].until.Some? && s.rows[q].until.value <= now
    {
      NeedInColumns(s, now, p);
    }
  }

  lemma AllPending(s: Store, now: Time, ids: seq<nat>)
    requires Lists(ids, NeedIds(s, now))
    ensures Pending(s, now, ids, NeedsOf(s, ids))
  {
    forall k | 0 <= k < |ids| ensures ids[k] in NeedIds(s, now) {
      assert ids[k] in ids;
    }
  }

  /** A need that is still pending is met by a transaction that goes through, and by no other. */
  lemma MetByGrant(s: Store, now: Time, ids: seq<nat>, needs: seq<Need>, ok: bool)
    requires RowsOk(s, now) && Pending(s, now, ids, needs) && ids != []
    ensures var t := AllocateOne(s, now, needs[0], ok);
            && RowsOk(t, now) && Pending(t, now, ids[1..], needs[1..])
            && StillNeeded(s, now, needs[0])
            && |NeedIds(s, now)| == |NeedIds(t, now)| + if Grants(s, now, needs[0], ok) then 1 else 0
  {
    var t := AllocateOne(s, now, needs[0], ok);
    AllocateFirst(s, now, ids, needs, ok);
    assert NeedsSpare(s, now, ids[0]);
    assert StillNeeded(s, now, needs[0]);
    OneEach(s, t, now, ids[0], needs[0]);
    if Grants(s, now, needs[0], ok) {
      assert t.nextRow == s.nextRow + 1;
    }
  }

  /** Where the loop stands at tables t: what is left leads to `end`, and, if the tables were
      in order, `granted` needs were met and the rest are still pending. */
  ghost predicate Looping(s: Store, t: Store, end: Store, now: Time, ids: seq<nat>, needs: seq<Need>, oks: seq<bool>, granted: nat) {
    && |ids| == |needs| == |oks|
    && AllocateAll(t, now, needs, oks) == end
    && (RowsOk(s, now) ==>
          RowsOk(t, now) && Pending(t, now, ids, needs) && |NeedIds(s, now)| == |NeedIds(t, now)| + granted)
  }

  lemma LoopNext(s: Store, t: Store, end: Store, now: Time, ids: seq<nat>, needs: seq<Need>, oks: seq<bool>, granted: nat)
    requires Looping(s, t, end, now, ids, needs, oks, granted) && ids != []
    ensures Looping(s, AllocateOne(t, now, needs[0], oks[0]), end, now, ids[1..], needs[1..], oks[1..],
                    granted + if Grants(t, now, needs[0], oks[0]) then 1 else 0)
    ensures RowsOk(s, now) ==> StillNeeded(t, now, needs[0])
  {
    if RowsOk(s, now) {
      MetByGrant(t, now, ids, needs, oks[0]);
    }
  }

  lemma LoopAt(s: Store, t: Store, end: Store, now: Time, ids: seq<nat>, needs: seq<Need>, oks: seq<bool>, k: nat,
               granted: nat, more: nat)
    requires k < |ids| == |needs| == |oks| && Looping(s, t, end, now, ids[k..], needs[k..], oks[k..], granted)
    requires StillNeeded(t, now, needs[k]) ==> more == granted + if Grants(t, now, needs[k], oks[k]) then 1 else 0
    ensures Looping(s, AllocateOne(t, now, needs[k], oks[k]), end, now, ids[k + 1..], needs[k + 1..], oks[k + 1..], more)
  {
    assert needs[k..][1..] == needs[k + 1..] && oks[k..][1..] == oks[k + 1..] && ids[k..][1..] == ids[k + 1..];
    LoopNext(s, t, end, now, ids[k..], needs[k..], oks[k..], granted);
  }

  lemma LoopStarts(s: Store, now: Time, ids: seq<nat>, oks: seq<bool>)
    requires Lists(ids, NeedIds(s, now)) && |oks| == |ids|
    ensures Looping(s, s, AllocateAll(s, now, NeedsOf(s, ids), oks), now, ids[0..], NeedsOf(s, ids)[0..], oks[0..], 0)
  {
    AllPending(s, now, ids);
    assert ids[0..] == ids && NeedsOf(s, ids)[0..] == NeedsOf(s, ids) && oks[0..] == oks;
  }

  lemma LoopEnds(s: Store, t: Store, end: Store, now: Time, ids: seq<nat>, needs: seq<Need>, oks: seq<bool>, granted: nat)
    requires |ids| == |needs| == |oks|
    requires Looping(s, t, end, now, ids[|ids|..], needs[|ids|..], oks[|ids|..], granted)
    ensures t == end && (RowsOk(s, now) ==> |NeedIds(s, now)| == |NeedIds(t, now)| + granted)
  {
  }

  /** One iteration: a transaction whose outcome is counted. */
  method AllocateNext(d: Database, now: Time, n: Need, ok: bool, granted: nat, failed: nat) returns (g: nat, f: nat)
    modifies d
    ensures d.View() == AllocateOne(old(d.View()), now, n, ok)
    ensures g + f == granted + failed + 1
    ensures StillNeeded(old(d.View()), now, n) ==> g == granted + if Grants(old(d.View()), now, n, ok) then 1 else 0
  {
    var res := AllocateTx(d, n, now, ok);
    if res.Allocated? || res.NotNeeded? {
      g, f := granted + 1, failed;
    } else {
      g, f := granted, failed + 1;
    }
  }

  /** The loop over the needs; a failed allocation is counted and the loop goes on. Undisturbed,
      the count of successes is the number of needs met. */
  method AllocateNeeded(d: Database, now: Time, playbook: nat -> bool)
      returns (granted: nat, failed: nat, ghost needs: seq<nat>, ghost oks: seq<bool>)
    modifies d
    ensures Lists(needs, NeedIds(old(d.View()), now)) && |oks| == |needs|
    ensures forall k :: 0 <= k < |oks| ==> oks[k] == playbook(k)
    ensures d.View() == AllocateAll(old(d.View()), now, NeedsOf(old(d.View()), needs), oks)
    ensures granted + failed == |needs|
    ensures RowsOk(old(d.View()), now) ==> |NeedIds(old(d.View()), now)| == |NeedIds(d.View(), now)| + granted
    ensures forall p :: p in needs <==>
              && p in old(d.rows) && (old(d.rows)[p].until.None? || old(d.rows)[p].until.value > now)
              && old(d.rows)[p].replacementFor.None?
              && old(d.rows)[p].machineId in old(d.machines) && !old(d.machines)[old(d.rows)[p].machineId].enabled
              && forall q :: q in old(d.rows) && old(d.rows)[q].replacementFor == Some(old(d.rows)[p].machineId)
                             && old(d.rows)[q].username == old(d.rows)[p].username ==>
                   old(d.rows)[q].until.Some? && old(d.rows)[q].until.value <= now
  {
    NeedsInColumns(d.View(), now);
    ghost var s := d.View();
    var ids := AnyOrder(NeedIds(d.View(), now));
    needs := ids;
    assert forall id :: id in ids ==> id in d.rows;
    var q := NeedsOf(d.View(), ids);
    oks := seq(|ids|, k requires 0 <= k < |ids| => playbook(k));
    granted, failed := 0, 0;
    ghost var end := AllocateAll(s, now, q, oks);
    LoopStarts(s, now, ids, oks);
    for k := 0 to |q|
      invariant granted + failed == k
      invariant Looping(s, d.View(), end, now, ids[k..], q[k..], oks[k..], granted)
    {
      ghost var t, before := d.View(), granted;
      granted, failed := AllocateNext(d, now, q[k], playbook(k), granted, failed);
      LoopAt(s, t, end, now, ids, q, oks, k, before, granted);
    }
    LoopEnds(s, d.View(), end, now, ids, q, oks, granted);
  }

  // ---------- RunOnce ----------

  /** One call of RunOnce is one pass, for the orders the two queries happened to use. */
  method RunOnce(d: Database, percent: int, now: Time, playbook: nat -> bool)
      returns (ghost rel: seq<nat>, ghost needs: seq<nat>, ghost oks: seq<bool>)
    modifies d
    ensures IsPass(old(d.View()), d.View(), now, percent, rel, needs, oks)
    ensures forall k :: 0 <= k < |oks| ==> oks[k] == playbook(k)
  {
    EnforceSparePool(d, percent);
    var released, granted, failed;
    released, rel := ReleaseReplacements(d, now);
    granted, failed, needs, oks := AllocateNeeded(d, now, playbook);
  }
}
