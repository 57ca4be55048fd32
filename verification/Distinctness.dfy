/**
Sequences without repetition. The pairwise condition goes through a predicate of its own, so that
proofs instantiate it only where they name a pair.
*/
module Distinctness {

  predicate Differ(s: seq<nat>, i: nat, j: nat)
    requires i < |s| && j < |s|
  {
    s[i] != s[j]
  }

  predicate Distinct(s: seq<nat>) {
    forall i: nat, j: nat | i < j < |s| :: Differ(s, i, j)
  }

  lemma DistinctTail(s: seq<nat>)
    requires Distinct(s) && s != []
    ensures Distinct(s[1..]) && forall i | 0 < i < |s| :: s[i] != s[0]
  {
    forall i: nat, j: nat | i < j < |s[1..]| ensures Differ(s[1..], i, j) {
      assert Differ(s, i + 1, j + 1);
    }
    forall i | 0 < i < |s| ensures s[i] != s[0] {
      assert Differ(s, 0, i);
    }
  }

  lemma DistinctCons(d: nat, s: seq<nat>)
    requires Distinct(s) && forall i | 0 <= i < |s| :: s[i] != d
    ensures Distinct([d] + s)
  {
    var r := [d] + s;
    forall i: nat, j: nat | i < j < |r| ensures Differ(r, i, j) {
      if i > 0 { assert Differ(s, i - 1, j - 1); }
    }
  }

  lemma DistinctSnoc(s: seq<nat>, d: nat)
    requires Distinct(s) && forall i | 0 <= i < |s| :: s[i] != d
    ensures Distinct(s + [d])
  {
    var r := s + [d];
    forall i: nat, j: nat | i < j < |r| ensures Differ(r, i, j) {
      if j < |s| { assert Differ(s, i, j); }
    }
  }

  lemma LastDiffers(s: seq<nat>)
    requires Distinct(s) && s != []
    ensures forall i | 0 <= i < |s| - 1 :: s[i] != s[|s| - 1]
  {
    forall i | 0 <= i < |s| - 1 ensures s[i] != s[|s| - 1] {
      assert Differ(s, i, |s| - 1);
    }
  }

  function Without<T>(s: seq<T>, i: nat): (r: seq<T>)
    requires i < |s|
    ensures |r| == |s| - 1
  {
    s[..i] + s[i + 1..]
  }

  lemma DropOne(s: seq<nat>, i: nat)
    requires Distinct(s) && i < |s|
    ensures Distinct(Without(s, i)) && forall k | 0 <= k < |s| - 1 :: Without(s, i)[k] != s[i]
  {
    var r := Without(s, i);
    forall j: nat, k: nat | j < k < |r| ensures Differ(r, j, k) {
      assert Differ(s, if j < i then j else j + 1, if k < i then k else k + 1);
    }
    forall k | 0 <= k < |r| ensures r[k] != s[i] {
      if k < i { assert Differ(s, k, i); } else { assert Differ(s, i, k + 1); }
    }
  }

  lemma DistinctConcat(a: seq<nat>, b: seq<nat>)
    requires Distinct(a) && Distinct(b) && forall i | 0 <= i < |b| :: b[i] !in a
    ensures Distinct(a + b)
  {
    var r := a + b;
    forall i: nat, j: nat | i < j < |r| ensures Differ(r, i, j) {
      if j < |a| {
        assert Differ(a, i, j);
      } else if i >= |a| {
        assert Differ(b, i - |a|, j - |a|);
      } else {
        assert b[j - |a|] !in a && a[i] in a;
      }
    }
  }

  lemma CountedTwice(q: seq<nat>, i: nat, j: nat)
    requires i < j < |q| && q[i] == q[j]
    ensures multiset(q)[q[i]] >= 2
  {
    assert q == q[..i] + [q[i]] + q[i + 1..j] + [q[j]] + q[j + 1..];
  }

  /** A list of a set's elements, each as often as in the set, has no repetition. */
  lemma OncePerElement(q: seq<nat>, s: set<nat>)
    requires multiset(q) == multiset(s)
    ensures Distinct(q) && |q| == |s| && forall x :: x in q <==> x in s
  {
    forall i: nat, j: nat | i < j < |q| ensures Differ(q, i, j) {
      if q[i] == q[j] { CountedTwice(q, i, j); }
    }
    assert forall x :: x in q <==> x in multiset(q);
    assert |q| == |multiset(q)| && |multiset(s)| == |s|;
  }

  /** Different numbers below n are at most n many. */
  lemma {:induction false} DistinctFit(s: seq<nat>, n: nat)
    requires Distinct(s) && forall i | 0 <= i < |s| :: s[i] < n
    ensures |s| <= n
    decreases n
  {
    if s != [] {
      assert s[0] < n;
      if i :| 0 <= i < |s| && s[i] == n - 1 {
        DropOne(s, i);
        DistinctFit(Without(s, i), n - 1);
      } else {
        DistinctFit(s, n - 1);
      }
    }
  }

  /** A list that has every number below n has at least n elements. */
  lemma {:induction false} Covers(q: seq<nat>, n: nat)
    requires forall d | 0 <= d < n :: d in q
    ensures |q| >= n
    decreases n
  {
    if n > 0 {
      assert n - 1 in q;
      var i :| 0 <= i < |q| && q[i] == n - 1;
      forall d | 0 <= d < n - 1 ensures d in Without(q, i) {
        assert d in q;
        var j :| 0 <= j < |q| && q[j] == d;
        assert Without(q, i)[if j < i then j else j - 1] == d;
      }
      Covers(Without(q, i), n - 1);
    }
  }

  /** Different elements of a set are at most as many as the set has. */
  lemma {:induction false} DistinctWithin(q: seq<nat>, s: set<nat>)
    requires Distinct(q) && forall i | 0 <= i < |q| :: q[i] in s
    ensures |q| <= |s|
    decreases |q|
  {
    if q != [] {
      DistinctTail(q);
      DistinctWithin(q[1..], s - {q[0]});
    }
  }

  lemma {:induction false} SubsetSize(a: set<nat>, b: set<nat>)
    requires a <= b
    ensures |a| <= |b|
    decreases |a|
  {
    if x :| x in a { SubsetSize(a - {x}, b - {x}); }
  }

  function SetOf(q: seq<nat>): set<nat> { set t | t in q }

  lemma {:induction false} SetOfSize(q: seq<nat>)
    ensures |SetOf(q)| <= |q|
    decreases |q|
  {
    if q != [] {
      var n := |q| - 1;
      SetOfSize(q[..n]);
      assert SetOf(q) == SetOf(q[..n]) + {q[n]};
    }
  }
}
