/** `ORDER BY reserve_fail_count, id LIMIT n` in both directions: which machines a
    query takes. */
module Selection {
  import opened Tables
  import opened Sets

  /** Machine a comes no later than b in `ORDER BY reserve_fail_count ASC, id ASC`. */
  predicate Precedes(s: Store, a: nat, b: nat)
    requires a in s.machines && b in s.machines
  {
    || s.machines[a].failCount < s.machines[b].failCount
    || (s.machines[a].failCount == s.machines[b].failCount && a <= b)
  }

  /** The same order, reversed when the query says DESC. */
  predicate Before(s: Store, a: nat, b: nat, desc: bool)
    requires a in s.machines && b in s.machines
  {
    if desc then Precedes(s, b, a) else Precedes(s, a, b)
  }

  /** `x` is the first machine of the pool. */
  ghost predicate IsFirst(s: Store, pool: set<nat>, x: nat, desc: bool)
    requires pool <= s.machines.Keys
  {
    x in pool && forall y :: y in pool ==> Before(s, x, y, desc)
  }

  lemma {:induction false} FirstExists(s: Store, pool: set<nat>, desc: bool)
    requires pool <= s.machines.Keys && pool != {}
    ensures exists x :: IsFirst(s, pool, x, desc)
    decreases |pool|
  {
    var x :| x in pool;
    if pool - {x} == {} {
      assert pool == {x};
      assert IsFirst(s, pool, x, desc);
    } else {
      FirstExists(s, pool - {x}, desc);
      var y :| IsFirst(s, pool - {x}, y, desc);
      var z := if Before(s, y, x, desc) then y else x;
      forall w | w in pool ensures Before(s, z, w, desc) {
        assert w == x || w in pool - {x};
      }
      assert IsFirst(s, pool, z, desc);
    }
  }

  lemma FirstUnique(s: Store, pool: set<nat>, x: nat, y: nat, desc: bool)
    requires pool <= s.machines.Keys
    requires IsFirst(s, pool, x, desc) && IsFirst(s, pool, y, desc)
    ensures x == y
  {
  }

  ghost function First(s: Store, pool: set<nat>, desc: bool): (x: nat)
    requires pool <= s.machines.Keys && pool != {}
    ensures IsFirst(s, pool, x, desc)
  {
    FirstExists(s, pool, desc);
    var x :| IsFirst(s, pool, x, desc);
    x
  }

  /** The first `limit` machines of the pool, or all of them when there are fewer. */
  ghost function Take(s: Store, pool: set<nat>, limit: nat, desc: bool): (ids: set<nat>)
    requires pool <= s.machines.Keys
    ensures ids <= pool
  {
    if limit == 0 || pool == {} then {}
    else
      var x := First(s, pool, desc);
      {x} + Take(s, pool - {x}, limit - 1, desc)
  }

  /** The list is in the order of the query. */
  ghost predicate Ordered(s: Store, q: seq<nat>, desc: bool) {
    && (forall k :: 0 <= k < |q| ==> q[k] in s.machines)
    && forall i, j :: 0 <= i < j < |q| ==> Before(s, q[i], q[j], desc)
  }

  /** A set is what the query takes: as many as the limit allows, none of them behind a machine left out. */
  ghost predicate IsTake(s: Store, pool: set<nat>, limit: nat, desc: bool, ids: set<nat>)
    requires pool <= s.machines.Keys
  {
    && ids <= pool
    && |ids| == (if limit < |pool| then limit else |pool|)
    && forall a, b :: a in ids && b in pool && b !in ids ==> Before(s, a, b, desc)
  }

  lemma TakeStep(s: Store, pool: set<nat>, limit: nat, desc: bool, x: nat, rest: set<nat>)
    requires pool <= s.machines.Keys && limit > 0 && IsFirst(s, pool, x, desc)
    requires IsTake(s, pool - {x}, limit - 1, desc, rest)
    ensures IsTake(s, pool, limit, desc, {x} + rest)
  {
    assert x !in rest && |pool - {x}| == |pool| - 1;
    var ids := {x} + rest;
    assert |ids| == 1 + |rest|;
    forall a, b | a in ids && b in pool && b !in ids ensures Before(s, a, b, desc) {
      assert b in pool - {x} && b !in rest;
    }
  }

  lemma {:induction false} TakeIsTake(s: Store, pool: set<nat>, limit: nat, desc: bool)
    requires pool <= s.machines.Keys
    ensures IsTake(s, pool, limit, desc, Take(s, pool, limit, desc))
    decreases limit
  {
    if limit != 0 && pool != {} {
      var x := First(s, pool, desc);
      TakeIsTake(s, pool - {x}, limit - 1, desc);
      TakeStep(s, pool, limit, desc, x, Take(s, pool - {x}, limit - 1, desc));
    }
  }

  lemma TakesAgree(s: Store, pool: set<nat>, limit: nat, desc: bool, ids: set<nat>, t: set<nat>)
    requires pool <= s.machines.Keys
    requires IsTake(s, pool, limit, desc, ids) && IsTake(s, pool, limit, desc, t)
    ensures ids == t
  {
    if ids != t {
      EqualSizeDiffers(ids, t);
      var a :| a in ids && a !in t;
      var b :| b in t && b !in ids;
      assert false;
    }
  }

  /** The query has one answer: any set with the property above is the one taken. */
  lemma TakeUnique(s: Store, pool: set<nat>, limit: nat, desc: bool, ids: set<nat>)
    requires pool <= s.machines.Keys
    requires IsTake(s, pool, limit, desc, ids)
    ensures ids == Take(s, pool, limit, desc)
  {
    TakeIsTake(s, pool, limit, desc);
    TakesAgree(s, pool, limit, desc, ids, Take(s, pool, limit, desc));
  }

  /** The list a query returns, in the columns of its ORDER BY: each machine listed comes no later
      than those listed after it and those left out. */
  lemma TakenInColumns(s: Store, pool: set<nat>, limit: nat, desc: bool, ids: seq<nat>)
    requires pool <= s.machines.Keys && Lists(ids, Take(s, pool, limit, desc)) && Ordered(s, ids, desc)
    ensures |ids| == (if limit < |pool| then limit else |pool|) && forall k :: 0 <= k < |ids| ==> ids[k] in pool
    ensures forall k, y :: 0 <= k < |ids| && y in pool && (y in ids ==> y in ids[k..]) ==>
              if desc then s.machines[y].failCount < s.machines[ids[k]].failCount
                           || (s.machines[y].failCount == s.machines[ids[k]].failCount && y <= ids[k])
              else s.machines[ids[k]].failCount < s.machines[y].failCount
                   || (s.machines[ids[k]].failCount == s.machines[y].failCount && ids[k] <= y)
  {
    var t := Take(s, pool, limit, desc);
    TakeIsTake(s, pool, limit, desc);
    ListSize(ids, t);
    forall k | 0 <= k < |ids| ensures ids[k] in t {
      assert ids[k] in ids;
    }
    forall k, y | 0 <= k < |ids| && y in pool && (y in ids ==> y in ids[k..]) ensures Before(s, ids[k], y, desc) {
      if y in ids {
        var j :| 0 <= j < |ids| - k && ids[k..][j] == y;
        assert ids[k + j] == y;
      }
    }
  }
}
