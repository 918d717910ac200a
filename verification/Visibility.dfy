/** What a non-admin sees of his reservations, and when it is his full requested count. */
module Visibility {
  import opened Wrappers
  import opened Tables
  import opened Sets
  import opened Ownership
  import opened Replacement
  import opened Reconcile
  import opened Convergence

  /** The WHERE clause of a non-admin's listing. */
  predicate Visible(s: Store, id: nat, user: string) {
    && id in s.rows && s.rows[id].username == user && s.rows[id].machineId in s.machines
    && s.machines[s.rows[id].machineId].enabled
    && (!s.machines[s.rows[id].machineId].sparePool || s.rows[id].replacementFor.Some?)
  }

  /** Unexpired rows that the user sees. */
  function Seen(s: Store, now: Time, user: string): set<nat> {
    set id | id in s.rows && Visible(s, id, user) && Active(s.rows[id], now)
  }

  /** What the user asked for and still holds. */
  function ActivePrimaries(s: Store, now: Time, user: string): set<nat> {
    set id | id in s.rows && s.rows[id].username == user && s.rows[id].replacementFor.None? && Active(s.rows[id], now)
  }

  /** `r` is an active replacement for primary row `id`. */
  predicate Replaces(s: Store, now: Time, r: nat, id: nat) {
    && r in s.rows && id in s.rows
    && s.rows[r].replacementFor == Some(s.rows[id].machineId)
    && s.rows[r].username == s.rows[id].username && Active(s.rows[r], now)
  }

  predicate OnEnabled(s: Store, id: nat) {
    id in s.rows && s.rows[id].machineId in s.machines && s.machines[s.rows[id].machineId].enabled
  }

  /** A live primary row for an active replacement. */
  predicate LivePrimary(s: Store, now: Time, r: nat, id: nat) {
    Replaces(s, now, r, id) && s.rows[id].replacementFor.None? && Active(s.rows[id], now)
  }

  /** Every active replacement still has its primary reservation. */
  ghost predicate NoOrphans(s: Store, now: Time) {
    forall r :: r in s.rows && s.rows[r].replacementFor.Some? && Active(s.rows[r], now) ==>
      exists id :: LivePrimary(s, now, r, id)
  }

  ghost predicate Served(s: Store, now: Time, id: nat) {
    exists r :: Replaces(s, now, r, id) && OnEnabled(s, r)
  }

  /** Active primaries of the user on a machine that is down, without a replacement that is up. */
  ghost function Unserved(s: Store, now: Time, user: string): set<nat> {
    set id | id in ActivePrimaries(s, now, user) && !OnEnabled(s, id) && !Served(s, now, id)
  }

  // ---------- Accounting ----------

  ghost function ServedIds(s: Store, now: Time, user: string): set<nat> {
    set id | id in ActivePrimaries(s, now, user) && !OnEnabled(s, id) && Served(s, now, id)
  }

  function SeenReplacements(s: Store, now: Time, user: string): set<nat> {
    set id | id in Seen(s, now, user) && s.rows[id].replacementFor.Some?
  }

  ghost function PrimaryOf(s: Store, now: Time, r: nat): (id: nat)
    requires exists id :: LivePrimary(s, now, r, id)
    ensures LivePrimary(s, now, r, id)
  {
    var id :| LivePrimary(s, now, r, id);
    id
  }

  ghost function StandIn(s: Store, now: Time, id: nat): (r: nat)
    requires Served(s, now, id)
    ensures Replaces(s, now, r, id) && OnEnabled(s, r)
  {
    var r :| Replaces(s, now, r, id) && OnEnabled(s, r);
    r
  }

  /** Nothing to release and no orphans: every active replacement stands in for a machine that is down. */
  lemma PrimaryIsDown(s: Store, now: Time, r: nat, id: nat)
    requires RowsOk(s, now) && Releasable(s, now) == {} && LivePrimary(s, now, r, id)
    ensures !OnEnabled(s, id)
  {
    assert RowFormed(s, id);
    assert HasActiveRow(s, now, s.rows[id].machineId, s.rows[r].username);
    assert r !in Releasable(s, now);
  }

  lemma SeenIsServed(s: Store, now: Time, user: string, r: nat)
    requires RowsOk(s, now) && NoOrphans(s, now) && Releasable(s, now) == {} && r in SeenReplacements(s, now, user)
    ensures exists id :: LivePrimary(s, now, r, id)
    ensures PrimaryOf(s, now, r) in ServedIds(s, now, user)
  {
    var id := PrimaryOf(s, now, r);
    PrimaryIsDown(s, now, r, id);
    assert Replaces(s, now, r, id) && OnEnabled(s, r);
  }

  lemma SamePrimary(s: Store, now: Time, x: nat, y: nat, id: nat)
    requires RowsOk(s, now) && LivePrimary(s, now, x, id) && LivePrimary(s, now, y, id)
    ensures x == y
  {
    assert SameReplacement(s.rows[x], s.rows[y], now);
  }

  lemma ReplacementsFitServed(s: Store, now: Time, user: string)
    requires RowsOk(s, now) && NoOrphans(s, now) && Releasable(s, now) == {}
    ensures |SeenReplacements(s, now, user)| <= |ServedIds(s, now, user)|
  {
    var a, b := SeenReplacements(s, now, user), ServedIds(s, now, user);
    forall r | r in a ensures (exists id :: LivePrimary(s, now, r, id)) && PrimaryOf(s, now, r) in b {
      SeenIsServed(s, now, user, r);
    }
    var f := map r | r in a :: PrimaryOf(s, now, r);
    forall x, y | x in a && y in a && f[x] == f[y] ensures x == y {
      SamePrimary(s, now, x, y, f[x]);
    }
    InjectionSize(a, b, f);
  }

  lemma ServedFitReplacements(s: Store, now: Time, user: string)
    requires RowsOk(s, now)
    ensures |ServedIds(s, now, user)| <= |SeenReplacements(s, now, user)|
  {
    var a, b := ServedIds(s, now, user), SeenReplacements(s, now, user);
    var g := map id | id in a :: StandIn(s, now, id);
    forall id | id in a ensures g[id] in b {
      assert Replaces(s, now, g[id], id);
    }
    forall x, y | x in a && y in a && g[x] == g[y] ensures x == y {
      assert s.rows[x].machineId == s.rows[y].machineId;
    }
    InjectionSize(a, b, g);
  }

  function UpPrimaries(s: Store, now: Time, user: string): set<nat> {
    set id | id in ActivePrimaries(s, now, user) && OnEnabled(s, id)
  }

  /** A primary on an enabled machine is seen, because no primary sits on a spare. */
  lemma UpIsSeen(s: Store, now: Time, user: string, id: nat)
    requires RowsOk(s, now) && id in UpPrimaries(s, now, user)
    ensures id in Seen(s, now, user)
  {
    assert RowFormed(s, id) && RowPooled(s, id);
  }

  lemma SeenSplits(s: Store, now: Time, user: string)
    requires forall id :: id in UpPrimaries(s, now, user) ==> id in Seen(s, now, user)
    ensures Seen(s, now, user) == UpPrimaries(s, now, user) + SeenReplacements(s, now, user)
    ensures |Seen(s, now, user)| == |UpPrimaries(s, now, user)| + |SeenReplacements(s, now, user)|
  {
    var up, seen := UpPrimaries(s, now, user), SeenReplacements(s, now, user);
    assert Seen(s, now, user) == up + seen;
    assert up * seen == {};
  }

  lemma PrimariesSplit(s: Store, now: Time, user: string)
    ensures |ActivePrimaries(s, now, user)|
            == |UpPrimaries(s, now, user)| + |ServedIds(s, now, user)| + |Unserved(s, now, user)|
  {
    var up, served, unserved := UpPrimaries(s, now, user), ServedIds(s, now, user), Unserved(s, now, user);
    assert ActivePrimaries(s, now, user) == up + (served + unserved);
    assert up * (served + unserved) == {} && served * unserved == {};
  }

  /** What a user sees, plus what is down without a working replacement, is what he asked for. */
  lemma SeenPlusUnserved(s: Store, now: Time, user: string)
    requires RowsOk(s, now) && NoOrphans(s, now) && Releasable(s, now) == {}
    ensures |Seen(s, now, user)| + |Unserved(s, now, user)| == |ActivePrimaries(s, now, user)|
  {
    forall id | id in UpPrimaries(s, now, user) ensures id in Seen(s, now, user) {
      UpIsSeen(s, now, user, id);
    }
    SeenSplits(s, now, user);
    PrimariesSplit(s, now, user);
    ReplacementsFitServed(s, now, user);
    ServedFitReplacements(s, now, user);
  }

  // ---------- After a pass ----------

  /** Primaries are never touched by a pass. */
  lemma PassKeepsPrimaries(s: Store, u: Store, t: Store, now: Time, needs: seq<Need>, user: string)
    requires OnlyReleased(s, u, Releasable(s, now)) && OnlyAllocated(u, t, needs)
    ensures ActivePrimaries(t, now, user) == ActivePrimaries(s, now, user)
    ensures forall id :: id in s.rows && s.rows[id].replacementFor.None? ==> id in t.rows && t.rows[id] == s.rows[id]
  {
    forall id | id in t.rows && id !in u.rows ensures t.rows[id].replacementFor.Some? {
      assert FromNeed(u, needs, t.rows[id]);
    }
  }

  lemma PassKeepsNoOrphans(s: Store, u: Store, t: Store, now: Time, ids: seq<nat>)
    requires NoOrphans(s, now) && OnlyReleased(s, u, Releasable(s, now))
    requires forall id :: id in ids ==> id in u.rows
    requires Pending(u, now, ids, NeedsOf(u, ids)) && OnlyAllocated(u, t, NeedsOf(u, ids))
    ensures NoOrphans(t, now)
  {
    var needs := NeedsOf(u, ids);
    forall r | r in t.rows && t.rows[r].replacementFor.Some? && Active(t.rows[r], now)
      ensures exists id :: LivePrimary(t, now, r, id)
    {
      if r in u.rows {
        var id :| LivePrimary(s, now, r, id);
        assert id in u.rows && LivePrimary(t, now, r, id);
      } else {
        assert FromNeed(u, needs, t.rows[r]);
        var k :| 0 <= k < |needs| && needs[k].user in u.users && t.rows[r] == ReplacementRow(u, needs[k], t.rows[r].machineId);
        assert NeedsSpare(u, now, ids[k]);
        assert LivePrimary(t, now, r, ids[k]);
      }
    }
  }

  /** `r` is an active replacement of a primary machine that is down. */
  predicate StandsIn(s: Store, now: Time, r: nat) {
    && r in s.rows && s.rows[r].replacementFor.Some? && Active(s.rows[r], now)
    && s.rows[r].replacementFor.value in s.machines && !s.machines[s.rows[r].replacementFor.value].enabled
  }

  /** Every such replacement runs on a machine that is up itself. */
  ghost predicate StandInsUp(s: Store, now: Time) {
    forall r :: StandsIn(s, now, r) ==> OnEnabled(s, r)
  }

  lemma StandInsBefore(s: Store, u: Store, t: Store, now: Time, needs: seq<Need>, r: nat)
    requires OnlyReleased(s, u, Releasable(s, now)) && OnlyAllocated(u, t, needs) && r in s.rows && r < s.nextRow
    ensures StandsIn(s, now, r) <==> StandsIn(t, now, r)
    ensures StandsIn(s, now, r) ==> (OnEnabled(s, r) <==> OnEnabled(t, r))
  {
    forall i | i in s.machines ensures i in t.machines && t.machines[i].enabled == s.machines[i].enabled {
      assert u.machines[i].enabled == s.machines[i].enabled;
    }
    assert StandsIn(s, now, r) ==> r !in Releasable(s, now);
    assert r in t.rows ==> t.rows[r] == s.rows[r];
  }

  lemma NewStandInsUp(u: Store, t: Store, needs: seq<Need>, r: nat)
    requires OnlyAllocated(u, t, needs) && r in t.rows && r !in u.rows
    ensures OnEnabled(t, r)
  {
    assert FromNeed(u, needs, t.rows[r]);
  }

  /** A pass neither mends nor breaks a stand-in; the ones it adds run on machines that are up. */
  lemma PassKeepsStandIns(s: Store, u: Store, t: Store, now: Time, needs: seq<Need>)
    requires OnlyReleased(s, u, Releasable(s, now)) && OnlyAllocated(u, t, needs)
    requires forall id :: id in s.rows ==> id < s.nextRow
    ensures StandInsUp(t, now) <==> StandInsUp(s, now)
  {
    forall r | r in s.rows
      ensures StandsIn(s, now, r) <==> StandsIn(t, now, r)
      ensures StandsIn(s, now, r) ==> (OnEnabled(s, r) <==> OnEnabled(t, r))
    {
      StandInsBefore(s, u, t, now, needs, r);
    }
    forall r | r in t.rows && r !in s.rows ensures OnEnabled(t, r) {
      NewStandInsUp(u, t, needs, r);
    }
  }

  lemma NoNeedMeansServed(t: Store, now: Time, user: string)
    requires RowsOk(t, now) && NeedIds(t, now) == {} && StandInsUp(t, now)
    ensures Unserved(t, now, user) == {}
  {
    forall id | id in ActivePrimaries(t, now, user) && !OnEnabled(t, id) ensures Served(t, now, id) {
      assert RowFormed(t, id);
      assert id !in NeedIds(t, now);
      assert HasReplacement(t, now, t.rows[id].machineId, user);
      var r :| r in t.rows && t.rows[r].replacementFor == Some(t.rows[id].machineId) && t.rows[r].username == user
               && Active(t.rows[r], now);
      assert StandsIn(t, now, r);
      assert Replaces(t, now, r, id) && OnEnabled(t, r);
    }
  }

  lemma ReplacedIsNoNeed(t: Store, now: Time, r: nat, id: nat)
    requires Replaces(t, now, r, id)
    ensures id !in NeedIds(t, now)
  {
    assert HasReplacement(t, now, t.rows[id].machineId, t.rows[id].username);
  }

  lemma NeedIsUnserved(t: Store, now: Time, id: nat)
    requires id in NeedIds(t, now)
    ensures id in Unserved(t, now, t.rows[id].username)
  {
    forall r ensures Replaces(t, now, r, id) ==> id !in NeedIds(t, now) {
      if Replaces(t, now, r, id) {
        ReplacedIsNoNeed(t, now, r, id);
      }
    }
  }

  lemma ServedMeansUp(t: Store, now: Time, r: nat)
    requires RowsOk(t, now) && NoOrphans(t, now) && StandsIn(t, now, r)
    requires forall user :: Unserved(t, now, user) == {}
    ensures OnEnabled(t, r)
  {
    var id :| LivePrimary(t, now, r, id);
    var user := t.rows[id].username;
    assert id in ActivePrimaries(t, now, user) && !OnEnabled(t, id);
    assert id !in Unserved(t, now, user);
    var other :| Replaces(t, now, other, id) && OnEnabled(t, other);
    assert SameReplacement(t.rows[r], t.rows[other], now);
  }

  /** Nobody is unserved exactly when no need is left and every stand-in is up. */
  lemma AllServed(t: Store, now: Time)
    requires RowsOk(t, now) && NoOrphans(t, now)
    ensures (forall user :: Unserved(t, now, user) == {}) <==> NeedIds(t, now) == {} && StandInsUp(t, now)
  {
    if NeedIds(t, now) == {} && StandInsUp(t, now) {
      forall user ensures Unserved(t, now, user) == {} {
        NoNeedMeansServed(t, now, user);
      }
    }
    if forall user :: Unserved(t, now, user) == {} {
      forall id ensures id !in NeedIds(t, now) {
        if id in NeedIds(t, now) {
          NeedIsUnserved(t, now, id);
        }
      }
      forall r | StandsIn(t, now, r) ensures OnEnabled(t, r) {
        ServedMeansUp(t, now, r);
      }
    }
  }

  lemma ResizedNoOrphans(s: Store, r: Store, now: Time)
    requires NoOrphans(s, now) && r.rows == s.rows
    ensures NoOrphans(r, now)
  {
    forall x | x in r.rows && r.rows[x].replacementFor.Some? && Active(r.rows[x], now)
      ensures exists id :: LivePrimary(r, now, x, id)
    {
      var id :| LivePrimary(s, now, x, id);
      assert LivePrimary(r, now, x, id);
    }
  }

  lemma ResizedStandIns(s: Store, r: Store, now: Time)
    requires r.rows == s.rows && SameEnabled(s, r)
    ensures StandInsUp(r, now) <==> StandInsUp(s, now)
  {
    forall x ensures StandsIn(r, now, x) <==> StandsIn(s, now, x) {
    }
    forall x ensures OnEnabled(r, x) <==> OnEnabled(s, x) {
    }
  }

  lemma NothingToRelease(s: Store, t: Store, now: Time)
    requires NoOrphans(s, now) && Guarded(t, now) == Guarded(s, now) - Releasable(s, now)
    ensures Releasable(t, now) == {}
  {
    forall id | id in Guarded(s, now) ensures id in Releasable(s, now) {
      var p :| LivePrimary(s, now, id, p);
      assert HasActiveRow(s, now, s.rows[id].replacementFor.value, s.rows[id].username);
    }
    assert Releasable(t, now) <= Guarded(t, now);
  }

  /** A pass keeps the ownership invariant and every stand-in as it was. */
  lemma PassStandIns(s: Store, t: Store, now: Time, percent: int, rel: seq<nat>, needs: seq<nat>, oks: seq<bool>)
    requires RowsOk(s, now) && IsPass(s, t, now, percent, rel, needs, oks)
    ensures RowsOk(t, now)
    ensures StandInsUp(t, now) <==> StandInsUp(s, now)
  {
    var r, u := Resize(s, percent), Released(s, now, percent, rel);
    PassEffect(s, t, now, percent, rel, needs, oks);
    ResizeFlags(s, percent);
    ResizedStandIns(s, r, now);
    InsertRowsBound(r, now);
    PassKeepsStandIns(r, u, t, now, NeedsOf(u, needs));
  }

  /** The free spares of a pass, its own promotions, demotions and releases included, suffice for the needs. */
  ghost predicate EnoughSpares(s: Store, now: Time, percent: int) {
    |NeedIds(s, now)| <= Supply(s, now, percent)
  }

  /** A quiet pass with enough spares, in which every playbook succeeds, leaves nobody unserved. */
  lemma PassServesAll(
      s: Store, t: Store, now: Time, percent: int, rel: seq<nat>, needs: seq<nat>, oks: seq<bool>, user: string)
    requires RowsOk(s, now) && IsPass(s, t, now, percent, rel, needs, oks)
    requires forall k :: 0 <= k < |oks| ==> oks[k]
    requires StandInsUp(s, now) && EnoughSpares(s, now, percent)
    ensures RowsOk(t, now) && Unserved(t, now, user) == {}
  {
    PassStandIns(s, t, now, percent, rel, needs, oks);
    PassMeets(s, t, now, percent, rel, needs, oks);
    NoNeedMeansServed(t, now, user);
  }

  /** No pass orphans a replacement, and without orphans it leaves nothing to release. */
  lemma PassSettlesReplacements(
      s: Store, t: Store, now: Time, percent: int, rel: seq<nat>, needs: seq<nat>, oks: seq<bool>, user: string)
    requires RowsOk(s, now) && IsPass(s, t, now, percent, rel, needs, oks)
    requires NoOrphans(s, now)
    ensures NoOrphans(t, now) && Releasable(t, now) == {}
    ensures ActivePrimaries(t, now, user) == ActivePrimaries(s, now, user)
  {
    var r, u := Resize(s, percent), Released(s, now, percent, rel);
    PassEffect(s, t, now, percent, rel, needs, oks);
    ResizeFlags(s, percent);
    ResizedNoOrphans(s, r, now);
    PassKeepsPrimaries(r, u, t, now, NeedsOf(u, needs), user);
    PassKeepsNoOrphans(r, u, t, now, needs);
    NothingToRelease(s, t, now);
  }

  /** After any pass from tables without orphans: a user's count is full exactly when none of
      his primaries is down without a replacement that is up. */
  lemma CountOfUser(
      s: Store, t: Store, now: Time, percent: int, rel: seq<nat>, needs: seq<nat>, oks: seq<bool>, user: string)
    requires RowsOk(s, now) && IsPass(s, t, now, percent, rel, needs, oks) && NoOrphans(s, now)
    ensures |Seen(t, now, user)| == |ActivePrimaries(s, now, user)| <==> Unserved(t, now, user) == {}
  {
    PassEffect(s, t, now, percent, rel, needs, oks);
    PassSettlesReplacements(s, t, now, percent, rel, needs, oks, user);
    SeenPlusUnserved(t, now, user);
  }

  /** Every user sees as many unexpired rows after the pass as he had active primary reservations before it. */
  ghost predicate FullCounts(s: Store, t: Store, now: Time) {
    forall user :: |Seen(t, now, user)| == |ActivePrimaries(s, now, user)|
  }

  /** Whatever playbooks fail: the counts are full exactly when every stand-in was up before
      the pass and the pass met every need. */
  lemma FullCountAnyOutcome(
      s: Store, t: Store, now: Time, percent: int, rel: seq<nat>, needs: seq<nat>, oks: seq<bool>)
    requires RowsOk(s, now) && IsPass(s, t, now, percent, rel, needs, oks) && NoOrphans(s, now)
    ensures FullCounts(s, t, now) <==> StandInsUp(s, now) && NeedIds(t, now) == {}
  {
    forall user ensures |Seen(t, now, user)| == |ActivePrimaries(s, now, user)| <==> Unserved(t, now, user) == {} {
      CountOfUser(s, t, now, percent, rel, needs, oks, user);
    }
    PassSettlesReplacements(s, t, now, percent, rel, needs, oks, "");
    PassStandIns(s, t, now, percent, rel, needs, oks);
    AllServed(t, now);
    assert FullCounts(s, t, now) <==> forall user :: Unserved(t, now, user) == {};
  }

  /** The full requested count, on the tables before the pass: when every playbook succeeds, all
      users see their full count if and only if every replacement of a machine that is down runs
      on a machine that is up, and there are enough spares. */
  lemma FullCountExactly(
      s: Store, t: Store, now: Time, percent: int, rel: seq<nat>, needs: seq<nat>, oks: seq<bool>)
    requires RowsOk(s, now) && IsPass(s, t, now, percent, rel, needs, oks) && NoOrphans(s, now)
    requires forall k :: 0 <= k < |oks| ==> oks[k]
    ensures FullCounts(s, t, now) <==> StandInsUp(s, now) && EnoughSpares(s, now, percent)
  {
    FullCountAnyOutcome(s, t, now, percent, rel, needs, oks);
    PassMeets(s, t, now, percent, rel, needs, oks);
  }

  /** In particular: enough spares and working replacements give every user his full count. */
  lemma FullRequestedCount(
      s: Store, t: Store, now: Time, percent: int, rel: seq<nat>, needs: seq<nat>, oks: seq<bool>, user: string)
    requires RowsOk(s, now) && IsPass(s, t, now, percent, rel, needs, oks)
    requires forall k :: 0 <= k < |oks| ==> oks[k]
    requires NoOrphans(s, now) && StandInsUp(s, now) && EnoughSpares(s, now, percent)
    ensures |set id | id in t.rows && t.rows[id].username == user && t.rows[id].machineId in t.machines
                      && t.machines[t.rows[id].machineId].enabled
                      && (t.machines[t.rows[id].machineId].sparePool ==> t.rows[id].replacementFor.Some?)
                      && (t.rows[id].until.Some? ==> t.rows[id].until.value > now)|
            == |set id | id in s.rows && s.rows[id].username == user && s.rows[id].replacementFor.None?
                         && (s.rows[id].until.Some? ==> s.rows[id].until.value > now)|
  {
    FullCountExactly(s, t, now, percent, rel, needs, oks);
    assert |Seen(t, now, user)| == |ActivePrimaries(s, now, user)|;
    SeenInColumns(t, now, user);
    PrimariesInColumns(s, now, user);
  }

  lemma SeenInColumns(s: Store, now: Time, user: string)
    ensures Seen(s, now, user)
            == set id | id in s.rows && s.rows[id].username == user && s.rows[id].machineId in s.machines
                        && s.machines[s.rows[id].machineId].enabled
                        && (s.machines[s.rows[id].machineId].sparePool ==> s.rows[id].replacementFor.Some?)
                        && (s.rows[id].until.Some? ==> s.rows[id].until.value > now)
  {
  }

  lemma PrimariesInColumns(s: Store, now: Time, user: string)
    ensures ActivePrimaries(s, now, user)
            == set id | id in s.rows && s.rows[id].username == user && s.rows[id].replacementFor.None?
                        && (s.rows[id].until.Some? ==> s.rows[id].until.value > now)
  {
  }

  // ---------- A stand-in that is down itself ----------

  const DOWN := Held(Fresh("m").(enabled := false), "alice", Some(600))

  /** Alice's primary on machine 1 and its replacement on spare 2 are both down; spare 3 is free. */
  function BothDown(): Store {
    Store(map["alice" := 0],
          map[1 := DOWN, 2 := DOWN.(sparePool := true), 3 := Fresh("m").(sparePool := true)],
          map[0 := Row(1, 0, "alice", Some(600), Some("h"), None), 1 := Row(2, 0, "alice", Some(600), Some("h"), Some(1))],
          2)
  }

  lemma BothDownOk()
    ensures RowsOk(BothDown(), 0) && NoOrphans(BothDown(), 0)
    ensures NeedIds(BothDown(), 0) == {} && Releasable(BothDown(), 0) == {}
  {
    var s := BothDown();
    assert LivePrimary(s, 0, 1, 0);
    assert s.rows[1].replacementFor == Some(1) && HasReplacement(s, 0, 1, "alice");
  }

  /** The promise fails here although a free spare is left and no playbook fails: the needs query
      skips a primary that has a replacement, even one whose machine is down. */
  lemma StandInDownIsNotReplaced() returns (t: Store)
    ensures PassesWell(BothDown(), t, 0, 0) && !FullCounts(BothDown(), t, 0)
    ensures t == BothDown() && FreeSpares(t) == {3}
    ensures |ActivePrimaries(t, 0, "alice")| == 1 && Seen(t, 0, "alice") == {}
  {
    t := SomePass(BothDown(), 0, 0);
    BothDownOk();
    FixedIffQuiescent(BothDown(), t, 0, 0);
    BothDownSeen();
  }

  lemma BothDownSeen()
    ensures FreeSpares(BothDown()) == {3}
    ensures ActivePrimaries(BothDown(), 0, "alice") == {0} && Seen(BothDown(), 0, "alice") == {}
  {
  }
}
