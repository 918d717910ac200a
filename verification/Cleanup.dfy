/** Batch cleanup of expired reservations: group the rows by user, take the users in any
    order, delete in chunks, and apply each host's outcome to the tables.
 */
module Cleanup {
  import opened Wrappers
  import opened Tables
  import opened Ownership
  import opened Protocol
  import opened Storage

  /** What the play recap says about a host; a host it does not mention is Missing. */
  datatype Status = Ok | Unreachable | Failed | Missing

  /** What the outside world answers: the recap of a chunk's playbook run, by user and host; the
      rows whose clearing transaction fails; and the rows after whose failed delete the update
      that should disable the machine fails. */
  datatype Outcomes = Outcomes(recap: (string, string) -> Status, stuck: nat -> bool, unmarked: nat -> bool)

  // ---------- What a cleanup does, whatever the order ----------

  ghost predicate Touches(s: Store, ids: set<nat>, mid: nat) {
    exists id :: id in ids && id in s.rows && s.rows[id].machineId == mid
  }

  /** The rows in `cleared` were deleted and released, the machines of the rows in `downed` disabled. */
  ghost function Applied(s: Store, cleared: set<nat>, downed: set<nat>): Store {
    s.(rows := s.rows - cleared,
       machines := map i | i in s.machines ::
         var m := if Touches(s, cleared, i) then Freed(s.machines[i]) else s.machines[i];
         if Touches(s, downed, i) then m.(enabled := false) else m)
  }

  lemma TouchesMore(s: Store, ids: set<nat>, id: nat)
    requires id in s.rows
    ensures forall i :: Touches(s, ids + {id}, i) <==> Touches(s, ids, i) || i == s.rows[id].machineId
  {
    forall i | Touches(s, ids, i) || i == s.rows[id].machineId ensures Touches(s, ids + {id}, i) {
      if Touches(s, ids, i) {
        var k :| k in ids && k in s.rows && s.rows[k].machineId == i;
        assert k in ids + {id};
      } else {
        assert id in ids + {id};
      }
    }
  }

  lemma ApplyClear(s: Store, cleared: set<nat>, downed: set<nat>, id: nat)
    requires id in s.rows
    ensures ClearRow(Applied(s, cleared, downed), id, s.rows[id].machineId) == Applied(s, cleared + {id}, downed)
  {
    TouchesMore(s, cleared, id);
    var t, u := ClearRow(Applied(s, cleared, downed), id, s.rows[id].machineId), Applied(s, cleared + {id}, downed);
    assert t.rows == u.rows;
    assert t.machines == u.machines;
  }

  lemma ApplyDown(s: Store, cleared: set<nat>, downed: set<nat>, id: nat)
    requires id in s.rows && s.rows[id].machineId in s.machines
    ensures SetEnabled(Applied(s, cleared, downed), s.rows[id].machineId, false) == Applied(s, cleared, downed + {id})
  {
    TouchesMore(s, downed, id);
    var t, u := SetEnabled(Applied(s, cleared, downed), s.rows[id].machineId, false), Applied(s, cleared, downed + {id});
    assert t.machines == u.machines;
  }

  /** The recap of the chunk's playbook run, by user and host. */
  predicate RowOk(s: Store, o: Outcomes, id: nat) {
    && id in s.rows && s.rows[id].machineId in s.machines
    && o.recap(s.rows[id].username, s.machines[s.rows[id].machineId].name).Ok?
  }

  function OkIds(s: Store, o: Outcomes, ids: set<nat>): set<nat> {
    set id | id in ids && RowOk(s, o, id)
  }

  /** Rows that could not be deleted, and whose machine was disabled for it. */
  function DownIds(s: Store, o: Outcomes, ids: set<nat>): set<nat> {
    set id | id in ids && !RowOk(s, o, id) && !o.unmarked(id)
  }

  /** The tables after the rows in `handled` were processed. */
  ghost function Cleaned(s: Store, o: Outcomes, handled: set<nat>): Store {
    Applied(s, OkIds(s, o, handled), DownIds(s, o, handled))
  }

  // ---------- The loops ----------

  function Ids(q: seq<ExpiredRow>): set<nat> {
    set r | r in q :: r.resId
  }

  /** Rows that were loaded from s and not yet processed, no two the same. */
  ghost predicate Unprocessed(s: Store, now: Time, q: seq<ExpiredRow>, handled: set<nat>) {
    && (forall k :: 0 <= k < |q| ==> IsExpiredRow(s, now, q[k]) && q[k].resId !in handled)
    && forall i, j :: 0 <= i < j < |q| ==> q[i].resId < q[j].resId
  }

  lemma OneMore(s: Store, o: Outcomes, seen: set<nat>, id: nat)
    requires id !in seen
    ensures OkIds(s, o, seen + {id}) == if RowOk(s, o, id) then OkIds(s, o, seen) + {id} else OkIds(s, o, seen)
    ensures DownIds(s, o, seen + {id})
            == if RowOk(s, o, id) || o.unmarked(id) then DownIds(s, o, seen) else DownIds(s, o, seen) + {id}
    ensures |OkIds(s, o, seen + {id})| == |OkIds(s, o, seen)| + if RowOk(s, o, id) then 1 else 0
  {
  }

  /** One host of a chunk: release on success, otherwise disable the machine until it answers
      again. A clearing transaction that fails rolls back and ends the run; a disabling update
      that fails is ignored. */
  method ApplyHost(d: Database, r: ExpiredRow, o: Outcomes,
                   ghost s: Store, ghost now: Time, ghost seen: set<nat>) returns (cleared: bool, failed: bool)
    requires d.View() == Cleaned(s, o, seen) && IsExpiredRow(s, now, r) && r.resId !in seen
    modifies d
    ensures d.View() == Cleaned(s, o, if failed then seen else seen + {r.resId})
    ensures cleared <==> RowOk(s, o, r.resId) && !o.stuck(r.resId)
    ensures failed <==> RowOk(s, o, r.resId) && o.stuck(r.resId)
    ensures !failed ==> |OkIds(s, o, seen + {r.resId})| == |OkIds(s, o, seen)| + if cleared then 1 else 0
  {
    OneMore(s, o, seen, r.resId);
    cleared, failed := o.recap(r.user, r.name) == Ok, false;
    if cleared {
      if o.stuck(r.resId) {
        return false, true;
      }
      ApplyClear(s, OkIds(s, o, seen), DownIds(s, o, seen), r.resId);
      ghost var before := d.View();
      d.ClearReservationsAndRelease([(r.resId, r.mid)]);
      assert [(r.resId, r.mid)][..0] == [];
      assert d.View() == ClearRow(before, r.resId, r.mid);
    } else if !o.unmarked(r.resId) {
      ApplyDown(s, OkIds(s, o, seen), DownIds(s, o, seen), r.resId);
      d.SetMachineEnabled(r.mid, false);
    }
  }

  /** Applies one chunk's outcomes host by host up to the first failing transaction, and counts
      the rows it cleared. */
  method ApplyChunk(d: Database, chunk: seq<ExpiredRow>, o: Outcomes,
                    ghost s: Store, ghost now: Time, ghost handled: set<nat>) returns (count: nat, k: nat)
    requires d.View() == Cleaned(s, o, handled) && Unprocessed(s, now, chunk, handled)
    modifies d
    ensures k <= |chunk| && d.View() == Cleaned(s, o, handled + Ids(chunk[..k]))
    ensures |OkIds(s, o, handled + Ids(chunk[..k]))| == |OkIds(s, o, handled)| + count
    ensures k < |chunk| ==> RowOk(s, o, chunk[k].resId) && o.stuck(chunk[k].resId)
  {
    count, k := 0, 0;
    ghost var seen := handled;
    assert handled + Ids(chunk[..0]) == handled;
    while k < |chunk|
      invariant 0 <= k <= |chunk| && seen == handled + Ids(chunk[..k])
      invariant d.View() == Cleaned(s, o, seen)
      invariant |OkIds(s, o, seen)| == |OkIds(s, o, handled)| + count
    {
      ChunkStep(s, now, chunk, handled, k);
      var cleared, failed := ApplyHost(d, chunk[k], o, s, now, seen);
      if failed {
        return;
      }
      if cleared {
        count := count + 1;
      }
      seen := seen + {chunk[k].resId};
      k := k + 1;
    }
  }

  lemma ChunkStep(s: Store, now: Time, chunk: seq<ExpiredRow>, handled: set<nat>, k: nat)
    requires Unprocessed(s, now, chunk, handled) && k < |chunk|
    ensures chunk[k].resId !in handled + Ids(chunk[..k])
    ensures Ids(chunk[..k + 1]) == Ids(chunk[..k]) + {chunk[k].resId}
  {
    forall r | r in chunk[..k] ensures r.resId != chunk[k].resId {
      var i :| 0 <= i < k && chunk[i] == r;
    }
    assert chunk[..k + 1] == chunk[..k] + [chunk[k]];
    forall x ensures x in Ids(chunk[..k + 1]) <==> x in Ids(chunk[..k]) + {chunk[k].resId} {
      if x in Ids(chunk[..k + 1]) {
        var r :| r in chunk[..k + 1] && r.resId == x;
        assert r in chunk[..k] || r == chunk[k];
      }
      if x in Ids(chunk[..k]) {
        var r :| r in chunk[..k] && r.resId == x;
        assert r in chunk[..k + 1];
      }
      assert chunk[k] in chunk[..k + 1];
    }
  }

  // ---------- Grouping ----------

  /** The rows of one user, in the order they were loaded. */
  function Of(q: seq<ExpiredRow>, user: string): seq<ExpiredRow> {
    if q == [] then []
    else
      var before := Of(q[..|q| - 1], user);
      if q[|q| - 1].user == user then before + [q[|q| - 1]] else before
  }

  function Users(q: seq<ExpiredRow>): set<string> {
    set r | r in q :: r.user
  }

  function IdsOf(q: seq<ExpiredRow>, users: set<string>): set<nat> {
    set r | r in q && r.user in users :: r.resId
  }

  method GroupByUser(q: seq<ExpiredRow>) returns (byUser: map<string, seq<ExpiredRow>>)
    ensures byUser.Keys == Users(q)
    ensures forall u :: u in byUser ==> byUser[u] == Of(q, u)
  {
    byUser := map[];
    for k := 0 to |q|
      invariant byUser.Keys == Users(q[..k])
      invariant forall u :: u in byUser ==> byUser[u] == Of(q[..k], u)
    {
      var r := q[k];
      assert q[..k + 1] == q[..k] + [r];
      assert q[..k + 1][..k] == q[..k];
      NobodyYet(q[..k], r.user);
      byUser := byUser[r.user := (if r.user in byUser then byUser[r.user] else []) + [r]];
    }
    assert q[..|q|] == q;
  }

  lemma {:induction false} NobodyYet(q: seq<ExpiredRow>, user: string)
    ensures user !in Users(q) ==> Of(q, user) == []
    decreases |q|
  {
    if q != [] {
      NobodyYet(q[..|q| - 1], user);
      assert q[|q| - 1] in q;
      forall r | r in q[..|q| - 1] ensures r in q {
      }
    }
  }

  lemma {:induction false} OfMembers(q: seq<ExpiredRow>, user: string)
    ensures forall r :: r in Of(q, user) <==> r in q && r.user == user
    decreases |q|
  {
    if q != [] {
      OfMembers(q[..|q| - 1], user);
      assert q == q[..|q| - 1] + [q[|q| - 1]];
    }
  }

  ghost predicate Increasing(q: seq<ExpiredRow>) {
    forall i, j :: 0 <= i < j < |q| ==> q[i].resId < q[j].resId
  }

  lemma {:induction false} OfIncreasing(q: seq<ExpiredRow>, user: string)
    requires Increasing(q)
    ensures Increasing(Of(q, user))
    decreases |q|
  {
    if q != [] {
      var before := q[..|q| - 1];
      OfIncreasing(before, user);
      OfMembers(before, user);
      forall i | 0 <= i < |Of(before, user)| ensures Of(before, user)[i].resId < q[|q| - 1].resId {
        assert Of(before, user)[i] in before;
      }
    }
  }

  // ---------- RunOnce ----------

  /** These rows of a user were processed in these chunks. */
  ghost predicate UserProgress(s: Store, t: Store, o: Outcomes, batchSize: int, handled: set<nat>,
                               rows: seq<ExpiredRow>, chunks: seq<seq<ExpiredRow>>, count: nat) {
    && ChunksOf(chunks, batchSize) && Joined(chunks) == rows
    && t == Cleaned(s, o, handled + Ids(rows))
    && |OkIds(s, o, handled + Ids(rows))| == |OkIds(s, o, handled)| + count
  }

  lemma NextChunk(s: Store, t: Store, u: Store, o: Outcomes, batchSize: int, handled: set<nat>,
                  rows: seq<ExpiredRow>, part: seq<ExpiredRow>, chunks: seq<seq<ExpiredRow>>, count: nat, n: nat)
    requires OneUser(part) && |part| <= batchSize
    requires UserProgress(s, t, o, batchSize, handled, rows, chunks, count)
    requires u == Cleaned(s, o, handled + Ids(rows) + Ids(part))
    requires |OkIds(s, o, handled + Ids(rows) + Ids(part))| == |OkIds(s, o, handled + Ids(rows))| + n
    ensures UserProgress(s, u, o, batchSize, handled, rows + part, WithChunk(chunks, part), count + n)
  {
    IdsJoin(rows, part);
    assert handled + Ids(rows) + Ids(part) == handled + Ids(rows + part);
    if part == [] {
      assert rows + part == rows;
    } else {
      JoinedMore(chunks, part);
      ChunksAppend(chunks, [part], batchSize);
    }
  }

  lemma OneUserPart(items: seq<ExpiredRow>, i: nat, end: nat)
    requires OneUser(items) && i <= end <= |items|
    ensures OneUser(items[i..end])
  {
    assert forall r :: r in items[i..end] ==> r in items;
  }

  lemma NoChunk(s: Store, o: Outcomes, batchSize: int, handled: set<nat>)
    ensures UserProgress(s, Cleaned(s, o, handled), o, batchSize, handled, [], [], 0)
  {
    assert handled + Ids([]) == handled;
  }

  /** One chunk of a user's rows: how far it got. */
  method CleanChunk(d: Database, items: seq<ExpiredRow>, batchSize: int, o: Outcomes, i: nat, end: nat, count: nat,
                    ghost s: Store, ghost now: Time, ghost handled: set<nat>, ghost past: seq<seq<ExpiredRow>>)
      returns (total: nat, next: nat, ghost chunks: seq<seq<ExpiredRow>>)
    requires Unprocessed(s, now, items, handled) && OneUser(items) && i <= end <= |items| && end - i <= batchSize
    requires UserProgress(s, d.View(), o, batchSize, handled, items[..i], past, count)
    modifies d
    ensures i <= next <= end && UserProgress(s, d.View(), o, batchSize, handled, items[..next], chunks, total)
    ensures next < end ==> exists id :: o.stuck(id)
  {
    SplitAt(s, now, items, handled, i, end);
    ghost var before, rows := d.View(), items[..i];
    var n, k := ApplyChunk(d, items[i..end], o, s, now, handled + Ids(rows));
    ghost var part := PartOfChunk(items, i, end, k);
    NextChunk(s, before, d.View(), o, batchSize, handled, rows, part, past, count, n);
    total, next, chunks := count + n, i + k, WithChunk(past, part);
  }

  lemma PartOfChunk(items: seq<ExpiredRow>, i: nat, end: nat, k: nat) returns (part: seq<ExpiredRow>)
    requires OneUser(items) && i <= end <= |items| && k <= end - i
    ensures part == items[i..end][..k] && |part| == k && OneUser(part)
    ensures items[..i + k] == items[..i] + part
  {
    part := items[i..i + k];
    OneUserPart(items, i, i + k);
  }

  /** A chunk of which nothing was processed leaves no record. */
  function WithChunk(chunks: seq<seq<ExpiredRow>>, part: seq<ExpiredRow>): seq<seq<ExpiredRow>> {
    if part == [] then chunks else chunks + [part]
  }

  /** One user's rows, in chunks. Before each chunk the run may be interrupted: by the context,
      or because the inventory cannot be written; and it ends at a clearing transaction that
      fails. `chunks` records the rows processed, chunk by chunk. */
  method CleanUser(d: Database, items: seq<ExpiredRow>, batchSize: int, o: Outcomes, interrupted: nat -> bool, start: nat,
                   ghost s: Store, ghost now: Time, ghost handled: set<nat>)
      returns (count: nat, failed: bool, next: nat, ghost chunks: seq<seq<ExpiredRow>>)
    requires batchSize >= 1
    requires d.View() == Cleaned(s, o, handled) && Unprocessed(s, now, items, handled) && OneUser(items)
    modifies d
    ensures UserProgress(s, d.View(), o, batchSize, handled, Joined(chunks), chunks, count)
    ensures Joined(chunks) <= items && (!failed ==> Joined(chunks) == items)
    ensures failed ==> (exists k :: start <= k && interrupted(k)) || exists id :: o.stuck(id)
    ensures next >= start
  {
    count, failed, next, chunks := 0, false, start, [];
    var i := 0;
    NoChunk(s, o, batchSize, handled);
    while i < |items|
      invariant 0 <= i <= |items| && next >= start && !failed
      invariant UserProgress(s, d.View(), o, batchSize, handled, items[..i], chunks, count)
      decreases |items| - i
    {
      if interrupted(next) {
        failed := true;
        return;
      }
      next := next + 1;
      var end := i + batchSize;
      if end > |items| {
        end := |items|;
      }
      count, i, chunks := CleanChunk(d, items, batchSize, o, i, end, count, s, now, handled, chunks);
      if i < end {
        failed := true;
        return;
      }
    }
  }

  ghost predicate ChunksOf(chunks: seq<seq<ExpiredRow>>, batchSize: int) {
    forall k :: 0 <= k < |chunks| ==> 1 <= |chunks[k]| <= batchSize && OneUser(chunks[k])
  }

  /** One playbook run deletes one user. */
  ghost predicate OneUser(chunk: seq<ExpiredRow>) {
    forall a, b :: a in chunk && b in chunk ==> a.user == b.user
  }

  function Joined(chunks: seq<seq<ExpiredRow>>): seq<ExpiredRow> {
    if chunks == [] then [] else Joined(chunks[..|chunks| - 1]) + chunks[|chunks| - 1]
  }

  lemma JoinedMore(chunks: seq<seq<ExpiredRow>>, chunk: seq<ExpiredRow>)
    ensures Joined(chunks + [chunk]) == Joined(chunks) + chunk
  {
    assert (chunks + [chunk])[..|chunks|] == chunks;
  }

  lemma IdsJoin(a: seq<ExpiredRow>, b: seq<ExpiredRow>)
    ensures Ids(a + b) == Ids(a) + Ids(b)
  {
    forall x | x in Ids(a) + Ids(b) ensures x in Ids(a + b) {
      if x in Ids(a) {
        var r :| r in a && r.resId == x;
        assert r in a + b;
      } else {
        var r :| r in b && r.resId == x;
        assert r in a + b;
      }
    }
  }

  lemma UnprocessedAfter(s: Store, now: Time, a: seq<ExpiredRow>, b: seq<ExpiredRow>, handled: set<nat>)
    requires Unprocessed(s, now, a + b, handled)
    ensures Unprocessed(s, now, b, handled + Ids(a))
  {
    forall k | 0 <= k < |b| ensures IsExpiredRow(s, now, b[k]) && b[k].resId !in handled + Ids(a) {
      assert (a + b)[|a| + k] == b[k];
      forall r | r in a ensures r.resId != b[k].resId {
        var j :| 0 <= j < |a| && a[j] == r;
        assert (a + b)[j] == r;
      }
    }
    forall i, j | 0 <= i < j < |b| ensures b[i].resId < b[j].resId {
      assert (a + b)[|a| + i] == b[i] && (a + b)[|a| + j] == b[j];
    }
  }

  lemma SplitAt(s: Store, now: Time, items: seq<ExpiredRow>, handled: set<nat>, i: nat, end: nat)
    requires Unprocessed(s, now, items, handled) && i <= end <= |items|
    ensures Unprocessed(s, now, items[i..end], handled + Ids(items[..i]))
    ensures handled + Ids(items[..i]) + Ids(items[i..end]) == handled + Ids(items[..end])
    ensures items[..end] == items[..i] + items[i..end]
  {
    var a, b := items[..i], items[i..end];
    assert items[..end] == a + b;
    UnprocessedPrefix(s, now, items, items[..end], handled);
    UnprocessedAfter(s, now, a, b, handled);
    IdsJoin(a, b);
  }

  lemma SizeMore(handled: set<nat>, a: set<nat>, b: set<nat>, x: nat)
    requires x !in handled + a && b == a + {x}
    ensures |handled + b| == |handled + a| + 1
  {
    assert handled + b == (handled + a) + {x};
  }

  lemma {:induction false} UnprocessedSize(s: Store, now: Time, q: seq<ExpiredRow>, handled: set<nat>)
    requires Unprocessed(s, now, q, handled)
    ensures |handled + Ids(q)| == |handled| + |q|
    decreases |q|
  {
    if q == [] {
      assert handled + Ids(q) == handled;
    } else {
      var n := |q| - 1;
      var rest := q[..n];
      UnprocessedPrefix(s, now, q, rest, handled);
      UnprocessedSize(s, now, rest, handled);
      ChunkStep(s, now, q, handled, n);
      assert q[..n + 1] == q;
      SizeMore(handled, Ids(rest), Ids(q), q[n].resId);
    }
  }

  /** Rows of another user are fresh, whatever users came before. */
  lemma NextUser(s: Store, now: Time, q: seq<ExpiredRow>, before: set<string>, user: string)
    requires Unprocessed(s, now, q, {}) && user !in before
    ensures Unprocessed(s, now, Of(q, user), IdsOf(q, before))
    ensures IdsOf(q, before + {user}) == IdsOf(q, before) + Ids(Of(q, user))
    ensures OneUser(Of(q, user))
  {
    OfMembers(q, user);
    OfIncreasing(q, user);
    var mine := Of(q, user);
    forall k | 0 <= k < |mine| ensures IsExpiredRow(s, now, mine[k]) && mine[k].resId !in IdsOf(q, before) {
      assert mine[k] in mine;
      var i :| 0 <= i < |q| && q[i] == mine[k];
      forall r | r in q && r.user in before ensures r.resId != mine[k].resId {
        var j :| 0 <= j < |q| && q[j] == r;
        assert IsExpiredRow(s, now, q[i]) && IsExpiredRow(s, now, q[j]);
      }
    }
    forall x | x in IdsOf(q, before) + Ids(mine) ensures x in IdsOf(q, before + {user}) {
      if x in Ids(mine) {
        var r :| r in mine && r.resId == x;
        assert r in q && r.user in before + {user};
      } else {
        var r :| r in q && r.user in before && r.resId == x;
        assert r.user in before + {user};
      }
    }
    forall x | x in IdsOf(q, before + {user}) ensures x in IdsOf(q, before) + Ids(mine) {
      var r :| r in q && r.user in before + {user} && r.resId == x;
      assert r.user == user ==> r in mine;
    }
  }

  /** The chunks of a run partition the rows it handled. */
  ghost predicate Partitions(chunks: seq<seq<ExpiredRow>>, handled: set<nat>) {
    Ids(Joined(chunks)) == handled && |Joined(chunks)| == |handled|
  }

  lemma {:induction false} JoinedAppend(a: seq<seq<ExpiredRow>>, b: seq<seq<ExpiredRow>>)
    ensures Joined(a + b) == Joined(a) + Joined(b)
    decreases |b|
  {
    if b == [] {
      assert a + b == a;
    } else {
      var rest, last := b[..|b| - 1], b[|b| - 1];
      JoinedAppend(a, rest);
      JoinedMore(rest, last);
      JoinedMore(a + rest, last);
      assert b == rest + [last] && a + b == (a + rest) + [last];
    }
  }

  lemma PartitionMore(s: Store, now: Time, a: seq<seq<ExpiredRow>>, b: seq<seq<ExpiredRow>>, handled: set<nat>)
    requires Partitions(a, handled) && Unprocessed(s, now, Joined(b), handled)
    ensures Partitions(a + b, handled + Ids(Joined(b)))
  {
    JoinedAppend(a, b);
    IdsJoin(Joined(a), Joined(b));
    UnprocessedSize(s, now, Joined(b), handled);
  }

  lemma UnprocessedPrefix(s: Store, now: Time, q: seq<ExpiredRow>, p: seq<ExpiredRow>, handled: set<nat>)
    requires Unprocessed(s, now, q, handled) && p <= q
    ensures Unprocessed(s, now, p, handled)
  {
    forall k | 0 <= k < |p| ensures p[k] == q[k] {
    }
  }

  lemma LoadedIds(s: Store, now: Time, q: seq<ExpiredRow>)
    requires forall id :: id in ExpiredIds(s, now) ==> exists k :: 0 <= k < |q| && q[k].resId == id
    requires forall k :: 0 <= k < |q| ==> IsExpiredRow(s, now, q[k])
    ensures IdsOf(q, Users(q)) == ExpiredIds(s, now)
  {
    forall id | id in ExpiredIds(s, now) ensures id in IdsOf(q, Users(q)) {
      var k :| 0 <= k < |q| && q[k].resId == id;
      assert q[k] in q && q[k].user in Users(q);
    }
  }

  /** The bookkeeping of a run that has handled these rows in these chunks. */
  ghost predicate Progress(s: Store, t: Store, o: Outcomes, batchSize: int,
                           total: nat, handled: set<nat>, chunks: seq<seq<ExpiredRow>>) {
    && t == Cleaned(s, o, handled)
    && total == |OkIds(s, o, handled)|
    && ChunksOf(chunks, batchSize) && Partitions(chunks, handled)
  }

  lemma UserDone(s: Store, now: Time, t: Store, o: Outcomes, batchSize: int, before: nat, count: nat,
                 rows: seq<ExpiredRow>, seen: set<string>, user: string, past: seq<seq<ExpiredRow>>, part: seq<seq<ExpiredRow>>)
    requires Unprocessed(s, now, rows, {}) && user !in seen && Joined(part) <= Of(rows, user)
    requires ChunksOf(past, batchSize) && Partitions(past, IdsOf(rows, seen)) && before == |OkIds(s, o, IdsOf(rows, seen))|
    requires ChunksOf(part, batchSize) && t == Cleaned(s, o, IdsOf(rows, seen) + Ids(Joined(part)))
    requires |OkIds(s, o, IdsOf(rows, seen) + Ids(Joined(part)))| == before + count
    ensures Progress(s, t, o, batchSize, before + count, IdsOf(rows, seen) + Ids(Joined(part)), past + part)
    ensures IdsOf(rows, seen) + Ids(Joined(part)) <= IdsOf(rows, seen + {user})
    ensures Joined(part) == Of(rows, user) ==> IdsOf(rows, seen) + Ids(Joined(part)) == IdsOf(rows, seen + {user})
  {
    NextUser(s, now, rows, seen, user);
    UnprocessedPrefix(s, now, Of(rows, user), Joined(part), IdsOf(rows, seen));
    PartitionMore(s, now, past, part, IdsOf(rows, seen));
    PrefixIds(Of(rows, user), Joined(part));
    ChunksAppend(past, part, batchSize);
  }

  lemma ChunksAppend(a: seq<seq<ExpiredRow>>, b: seq<seq<ExpiredRow>>, batchSize: int)
    requires ChunksOf(a, batchSize) && ChunksOf(b, batchSize)
    ensures ChunksOf(a + b, batchSize)
  {
    forall k | 0 <= k < |a + b| ensures 1 <= |(a + b)[k]| <= batchSize && OneUser((a + b)[k]) {
      assert (a + b)[k] == if k < |a| then a[k] else b[k - |a|];
    }
  }

  /** One iteration of the loop over users. */
  method CleanNext(d: Database, user: string, items: seq<ExpiredRow>, batchSize: int, o: Outcomes, interrupted: nat -> bool, start: nat, before: nat,
                   ghost s: Store, ghost now: Time, ghost rows: seq<ExpiredRow>, ghost seen: set<string>,
                   ghost all: set<string>, ghost done: set<nat>, ghost past: seq<seq<ExpiredRow>>)
      returns (total: nat, failed: bool, next: nat, ghost handled: set<nat>, ghost chunks: seq<seq<ExpiredRow>>)
    requires batchSize >= 1 && Unprocessed(s, now, rows, {}) && user !in seen && items == Of(rows, user)
    requires user in all && seen <= all
    requires done == IdsOf(rows, seen) && Progress(s, d.View(), o, batchSize, before, done, past)
    modifies d
    ensures Progress(s, d.View(), o, batchSize, total, handled, chunks)
    ensures handled <= IdsOf(rows, all)
    ensures !failed ==> handled == IdsOf(rows, seen + {user})
    ensures failed ==> (exists k :: interrupted(k)) || exists id :: o.stuck(id)
  {
    IdsOfMonotone(rows, seen + {user}, all);
    NextUser(s, now, rows, seen, user);
    var count;
    ghost var part;
    count, failed, next, part := CleanUser(d, items, batchSize, o, interrupted, start, s, now, done);
    UserDone(s, now, d.View(), o, batchSize, before, count, rows, seen, user, past, part);
    total, handled, chunks := before + count, done + Ids(Joined(part)), past + part;
  }

  /** The loop over users, in whatever order the map yields them. */
  method CleanGroups(d: Database, byUser: map<string, seq<ExpiredRow>>, batchSize: int,
                     o: Outcomes, interrupted: nat -> bool,
                     ghost s: Store, ghost now: Time, ghost rows: seq<ExpiredRow>)
      returns (total: nat, failed: bool, ghost handled: set<nat>, ghost chunks: seq<seq<ExpiredRow>>)
    requires batchSize >= 1 && d.View() == s && Unprocessed(s, now, rows, {})
    requires forall u :: u in byUser ==> byUser[u] == Of(rows, u)
    modifies d
    ensures Progress(s, d.View(), o, batchSize, total, handled, chunks)
    ensures handled <= IdsOf(rows, byUser.Keys)
    ensures !failed ==> handled == IdsOf(rows, byUser.Keys)
    ensures failed ==> (exists k :: interrupted(k)) || exists id :: o.stuck(id)
  {
    total, failed, handled, chunks := 0, false, {}, [];
    NothingHandled(s, o, batchSize);
    NoUsersYet(rows);
    var users, next := byUser.Keys, 1;
    ghost var seen: set<string> := {};
    while users != {}
      invariant seen <= byUser.Keys && users == byUser.Keys - seen
      invariant handled == IdsOf(rows, seen) && !failed
      invariant Progress(s, d.View(), o, batchSize, total, handled, chunks)
      decreases |users|
    {
      var user :| user in users;
      total, failed, next, handled, chunks :=
        CleanNext(d, user, byUser[user], batchSize, o, interrupted, next, total, s, now, rows, seen, byUser.Keys, handled, chunks);
      if failed {
        return;
      }
      assert byUser.Keys - (seen + {user}) == users - {user};
      users, seen := users - {user}, seen + {user};
    }
    assert seen == byUser.Keys;
  }

  lemma IdsOfMonotone(q: seq<ExpiredRow>, a: set<string>, b: set<string>)
    requires a <= b
    ensures IdsOf(q, a) <= IdsOf(q, b)
  {
  }

  lemma NoUsersYet(q: seq<ExpiredRow>)
    ensures IdsOf(q, {}) == {}
  {
  }

  lemma NothingHandled(s: Store, o: Outcomes, batchSize: int)
    ensures Cleaned(s, o, {}) == s && OkIds(s, o, {}) == {}
    ensures Progress(s, s, o, batchSize, 0, {}, [])
  {
    var none: set<nat> := {};
    assert OkIds(s, o, none) == none && DownIds(s, o, none) == none;
    NothingApplied(s);
    assert Ids([]) == {};
  }

  /** The rows a cleanup is after: those whose time is up, on enabled machines. */
  lemma DueInColumns(s: Store, now: Time)
    ensures ExpiredIds(s, now)
            == set id | id in s.rows && s.rows[id].until.Some? && s.rows[id].until.value <= now
                        && s.rows[id].machineId in s.machines && s.machines[s.rows[id].machineId].enabled
  {
  }

  /** A whole cleanup. Users are taken in an arbitrary order and the batch size is any positive
      number, yet the tables it leaves only depend on which rows it handled; uninterrupted, it
      handles every expired row on an enabled machine. The count is the number of rows removed. */
  method RunOnce(d: Database, batchSize: int, now: Time, o: Outcomes,
                 interrupted: nat -> bool)
      returns (total: nat, failed: bool, ghost handled: set<nat>, ghost chunks: seq<seq<ExpiredRow>>)
    requires batchSize >= 1
    modifies d
    ensures handled <= ExpiredIds(old(d.View()), now)
    ensures Progress(old(d.View()), d.View(), o, batchSize, total, handled, chunks)
    ensures !failed ==> handled == ExpiredIds(old(d.View()), now)
    ensures var due := set id | id in old(d.rows) && old(d.rows)[id].until.Some? && old(d.rows)[id].until.value <= now
                                && old(d.rows)[id].machineId in old(d.machines)
                                && old(d.machines)[old(d.rows)[id].machineId].enabled;
            handled <= due && (!failed ==> handled == due)
    ensures failed ==> (exists k :: interrupted(k)) || exists id :: o.stuck(id)
  {
    ghost var s := d.View();
    DueInColumns(s, now);
    total, failed, handled, chunks := 0, false, {}, [];
    NothingHandled(s, o, batchSize);
    if interrupted(0) {
      failed := true;
      return;
    }
    var rows := d.LoadExpired(now);
    LoadedIds(s, now, rows);
    var byUser := GroupByUser(rows);
    total, failed, handled, chunks := CleanGroups(d, byUser, batchSize, o, interrupted, s, now, rows);
  }

  /** The count a cleanup returns is the number of rows that are gone. */
  lemma RowsLeft(s: Store, now: Time, t: Store, o: Outcomes, batchSize: int,
                 total: nat, handled: set<nat>, chunks: seq<seq<ExpiredRow>>)
    requires Progress(s, t, o, batchSize, total, handled, chunks) && handled <= ExpiredIds(s, now)
    ensures |t.rows| == |s.rows| - total
  {
    var ok := OkIds(s, o, handled);
    assert t.rows.Keys == s.rows.Keys - ok && ok <= s.rows.Keys;
    assert |t.rows.Keys| == |s.rows.Keys| - |ok|;
  }

  lemma NothingApplied(s: Store)
    ensures Applied(s, {}, {}) == s
  {
    assert Applied(s, {}, {}).machines == s.machines;
    assert Applied(s, {}, {}).rows == s.rows;
  }

  lemma PrefixIds(q: seq<ExpiredRow>, p: seq<ExpiredRow>)
    requires p <= q
    ensures Ids(p) <= Ids(q)
  {
    forall x | x in Ids(p) ensures x in Ids(q) {
      var r :| r in p && r.resId == x;
      assert r in q;
    }
  }

  /** What a cleanup means for the protocol: it removes exactly the rows it could delete and
      frees exactly their machines; a machine whose user could not be deleted keeps its
      reservation and is disabled, unless that update fails; nothing else changes, and the
      ownership invariant holds. */
  lemma CleanedKeepsOwnership(s: Store, now: Time, o: Outcomes, handled: set<nat>)
    requires RowsOk(s, now) && handled <= ExpiredIds(s, now)
    ensures var t, ok := Cleaned(s, o, handled), OkIds(s, o, handled);
            && RowsOk(t, now)
            && |t.rows| == |s.rows| - |ok|
            && (forall id :: id in s.rows ==> (id in t.rows <==> id !in ok))
            && (forall id :: id in handled ==>
                  t.machines[s.rows[id].machineId]
                  == if id in ok then Freed(s.machines[s.rows[id].machineId])
                     else if o.unmarked(id) then s.machines[s.rows[id].machineId]
                     else s.machines[s.rows[id].machineId].(enabled := false))
            && forall i :: i in s.machines && !Touches(s, handled, i) ==> t.machines[i] == s.machines[i]
  {
    var t, ok, down := Cleaned(s, o, handled), OkIds(s, o, handled), DownIds(s, o, handled);
    forall id | id in handled
      ensures t.machines[s.rows[id].machineId]
              == if id in ok then Freed(s.machines[s.rows[id].machineId])
                 else if o.unmarked(id) then s.machines[s.rows[id].machineId]
                 else s.machines[s.rows[id].machineId].(enabled := false)
    {
      AppliedMachine(s, now, ok, down, id);
    }
    forall i | i in s.machines && !Touches(s, handled, i) ensures t.machines[i] == s.machines[i] {
      assert Touches(s, ok, i) ==> Touches(s, handled, i);
      assert Touches(s, down, i) ==> Touches(s, handled, i);
    }
    AppliedRows(s, now, ok, down);
    assert t.rows.Keys == s.rows.Keys - ok;
    assert |t.rows.Keys| == |s.rows.Keys| - |ok|;
  }

  /** What a cleanup that handled these rows does to a row and its machine, column by column. */
  lemma HandledInColumns(s: Store, now: Time, o: Outcomes, handled: set<nat>, id: nat)
    requires RowsOk(s, now) && id in s.rows && handled <= ExpiredIds(s, now)
    ensures var t, r := Cleaned(s, o, handled), s.rows[id];
            && r.machineId in s.machines && r.machineId in t.machines
            && var m := s.machines[r.machineId];
               var deleted := id in handled && o.recap(r.username, m.name) == Ok;
               && (id in t.rows <==> !deleted) && (id in t.rows ==> t.rows[id] == r)
               && t.machines[r.machineId]
                  == if deleted then m.(reserved := false, reservedBy := None, reservedUntil := None)
                     else if id in handled && !o.unmarked(id) then m.(enabled := false) else m
  {
    assert RowFormed(s, id);
    AppliedMachine(s, now, OkIds(s, o, handled), DownIds(s, o, handled), id);
  }

  /** And an uninterrupted one. */
  lemma CleanedInColumns(s: Store, now: Time, o: Outcomes, id: nat)
    requires RowsOk(s, now) && id in s.rows
    ensures var t, r := Cleaned(s, o, ExpiredIds(s, now)), s.rows[id];
            && r.machineId in s.machines && r.machineId in t.machines
            && var m := s.machines[r.machineId];
               var due := r.until.Some? && r.until.value <= now && m.enabled;
               var deleted := due && o.recap(r.username, m.name) == Ok;
               && (id in t.rows <==> !deleted) && (id in t.rows ==> t.rows[id] == r)
               && t.machines[r.machineId]
                  == if deleted then m.(reserved := false, reservedBy := None, reservedUntil := None)
                     else if due && !o.unmarked(id) then m.(enabled := false) else m
  {
    HandledInColumns(s, now, o, ExpiredIds(s, now), id);
  }

  lemma AppliedMachine(s: Store, now: Time, ok: set<nat>, down: set<nat>, id: nat)
    requires RowsOk(s, now) && id in s.rows && s.rows[id].machineId in s.machines && ok !! down
    ensures var m := s.machines[s.rows[id].machineId];
            Applied(s, ok, down).machines[s.rows[id].machineId]
            == if id in ok then Freed(m) else if id in down then m.(enabled := false) else m
  {
    var i := s.rows[id].machineId;
    assert forall other :: other in s.rows && s.rows[other].machineId == i ==> other == id;
    assert Touches(s, ok, i) <==> id in ok;
    assert Touches(s, down, i) <==> id in down;
  }

  lemma AppliedRows(s: Store, now: Time, ok: set<nat>, down: set<nat>)
    requires RowsOk(s, now)
    ensures RowsOk(Applied(s, ok, down), now)
  {
    var t := Applied(s, ok, down);
    forall r | r in t.rows ensures RowFormed(t, r) && RowHeld(t, r) && RowPooled(t, r) {
      assert RowFormed(s, r) && RowHeld(s, r) && RowPooled(s, r);
      assert !Touches(s, ok, s.rows[r].machineId);
    }
  }
}
