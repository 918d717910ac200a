/** Counting facts about finite sets, and sequences that enumerate them. */
module Sets {

  /** `q` lists exactly the elements of `s`, each once: a query result or a map iteration. */
  ghost predicate Lists<T(!new)>(q: seq<T>, s: set<T>) {
    (forall i, j :: 0 <= i < j < |q| ==> q[i] != q[j]) && forall x :: x in q <==> x in s
  }

  ghost predicate Distinct<T(!new)>(q: seq<T>) {
    forall i, j :: 0 <= i < j < |q| ==> q[i] != q[j]
  }

  function Elements<T>(q: seq<T>): set<T> {
    set x | x in q
  }

  /** An ORDER BY id ASC query result. */
  ghost predicate Ascending(q: seq<nat>, ids: set<nat>) {
    (forall i, j :: 0 <= i < j < |q| ==> q[i] < q[j]) && forall x :: x in q <==> x in ids
  }

  lemma SubsetSize<T>(a: set<T>, b: set<T>)
    requires a <= b
    ensures |a| <= |b|
    ensures |a| == |b| ==> a == b
  {
    assert b == a + (b - a);
    if |a| == |b| {
      assert |b - a| == 0;
    }
  }

  lemma EqualSizeDiffers<T>(a: set<T>, b: set<T>)
    requires |a| == |b| && a != b
    ensures !(a <= b) && !(b <= a)
  {
    if a <= b {
      SubsetSize(a, b);
    }
    if b <= a {
      SubsetSize(b, a);
    }
  }

  lemma {:induction false} ListSize<T(!new)>(q: seq<T>, s: set<T>)
    requires Lists(q, s)
    ensures |q| == |s|
    decreases |q|
  {
    if q != [] {
      var rest := q[..|q| - 1];
      var last := q[|q| - 1];
      assert q == rest + [last];
      forall x ensures x in rest <==> x in s - {last} {
        if x in rest {
          var i :| 0 <= i < |rest| && rest[i] == x;
          assert q[i] == x;
        }
      }
      ListSize(rest, s - {last});
    } else {
      assert s == {};
    }
  }

  /** A set can be no larger than another one it is mapped into injectively. */
  lemma {:induction false} InjectionSize<A(!new), B(!new)>(a: set<A>, b: set<B>, f: map<A, B>)
    requires forall x :: x in a ==> x in f && f[x] in b
    requires forall x, y :: x in a && y in a && f[x] == f[y] ==> x == y
    ensures |a| <= |b|
    decreases |a|
  {
    if a != {} {
      var x :| x in a;
      InjectionSize(a - {x}, b - {f[x]}, f);
    }
  }

  /** Every set can be listed. */
  lemma {:induction false} SomeOrder(s: set<nat>) returns (q: seq<nat>)
    ensures Lists(q, s)
    decreases |s|
  {
    if s == {} {
      q := [];
    } else {
      var x :| x in s;
      q := SomeOrder(s - {x});
      q := q + [x];
    }
  }
}
