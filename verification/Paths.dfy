/** Path strings: how vfs.cpp cuts them into components and how callers split off the last one. */
module Paths {

  /** A component buffer holds 256 bytes with the terminator. */
  const NAME_MAX: nat := 255

  function SkipSlashes(p: string): (r: string)
    ensures |r| <= |p| && (r != "" ==> r[0] != '/')
  {
    if p != "" && p[0] == '/' then SkipSlashes(p[1..]) else p
  }

  /** The characters up to the next slash, at most max of them. */
  function TakeName(p: string, max: nat): (r: string)
    ensures |r| <= |p| && |r| <= max && (p != "" && p[0] != '/' && max > 0 ==> |r| > 0)
    decreases |p|
  {
    if p == "" || p[0] == '/' || max == 0 then "" else [p[0]] + TakeName(p[1..], max - 1)
  }

  /** The components the lookup loop visits: runs longer than NAME_MAX are cut into pieces. */
  function Components(p: string): seq<string>
    decreases |p|
  {
    var q := SkipSlashes(p);
    if q == "" then [] else var c := TakeName(q, NAME_MAX); [c] + Components(q[|c|..])
  }

  /** What a reader expects: the runs between slashes. */
  function Split(p: string): seq<string>
    decreases |p|
  {
    var q := SkipSlashes(p);
    if q == "" then [] else var c := TakeName(q, |q|); [c] + Split(q[|c|..])
  }

  lemma SkippedComponents(p: string)
    ensures Components(SkipSlashes(p)) == Components(p)
  {
  }

  lemma FirstComponent(q: string, name: string)
    requires q != "" && SkipSlashes(q) == q && name == TakeName(q, NAME_MAX)
    ensures |name| > 0 && Components(q) == [name] + Components(q[|name|..])
  {
  }

  /** What the loop does with the next component. */
  lemma NextComponent(p: string, i: nat, name: string)
    requires i < |p| && SkipSlashes(p[i..]) == p[i..] && name == TakeName(p[i..], NAME_MAX)
    ensures 0 < |name| && i + |name| <= |p|
    ensures Components(p[i..]) == [name] + Components(SkipSlashes(p[i + |name|..]))
  {
    FirstComponent(p[i..], name);
    assert p[i..][|name|..] == p[i + |name|..];
    SkippedComponents(p[i + |name|..]);
  }

  predicate ShortNames(cs: seq<string>) { forall k | 0 <= k < |cs| :: |cs[k]| <= NAME_MAX }

  lemma {:induction false} TakeNameGrows(p: string, m: nat, n: nat)
    requires m <= n
    ensures |TakeName(p, m)| <= |TakeName(p, n)|
    ensures |TakeName(p, n)| <= m ==> TakeName(p, m) == TakeName(p, n)
    ensures |TakeName(p, n)| > m ==> |TakeName(p, m)| == m
    decreases m
  {
    if p != "" && p[0] != '/' && m > 0 {
      TakeNameGrows(p[1..], m - 1, n - 1);
    }
  }

  /** The loop sees the expected components exactly when none is longer than NAME_MAX. */
  lemma {:induction false} ComponentsAreSplit(p: string)
    ensures Components(p) == Split(p) <==> ShortNames(Split(p))
    decreases |p|
  {
    var q := SkipSlashes(p);
    if q != "" {
      var c, d := TakeName(q, NAME_MAX), TakeName(q, |q|);
      if |q| <= NAME_MAX { TakeNameGrows(q, |q|, NAME_MAX); } else { TakeNameGrows(q, NAME_MAX, |q|); }
      ComponentsAreSplit(q[|d|..]);
      var rest := Split(q[|d|..]);
      assert Split(p) == [d] + rest && Split(p)[1..] == rest && Components(p)[0] == c;
      assert ShortNames(Split(p)) <==> |d| <= NAME_MAX && ShortNames(rest) by { ShortCons(d, rest); }
      if |d| <= NAME_MAX {
        assert c == d && Components(p)[1..] == Components(q[|d|..]);
      }
    }
  }

  lemma {:induction false} ComponentsAreShort(p: string)
    ensures ShortNames(Components(p))
    decreases |p|
  {
    var q := SkipSlashes(p);
    if q != "" {
      var c := TakeName(q, NAME_MAX);
      ComponentsAreShort(q[|c|..]);
      ShortCons(c, Components(q[|c|..]));
    }
  }

  lemma ShortCons(d: string, rest: seq<string>)
    ensures ShortNames([d] + rest) <==> |d| <= NAME_MAX && ShortNames(rest)
  {
    var s := [d] + rest;
    assert s[0] == d && s[1..] == rest;
    assert forall k | 0 <= k < |rest| :: s[k + 1] == rest[k];
  }

  // ---------------------------------------------------------------------------------------------
  // Cutting a path
  // ---------------------------------------------------------------------------------------------

  lemma {:induction false} CutSkip(p: string, m: nat)
    requires m <= |p|
    ensures var s := |p| - |SkipSlashes(p)|;
      && SkipSlashes(p) == p[s..]
      && SkipSlashes(p[..m]) == if m <= s then "" else SkipSlashes(p)[..m - s]
    decreases |p|
  {
    if p != "" && p[0] == '/' {
      CutSkip(p[1..], if m == 0 then 0 else m - 1);
      if m > 0 { assert p[..m][1..] == p[1..][..m - 1]; }
    }
  }

  lemma {:induction false} CutTake(q: string, m: nat, max: nat)
    requires m <= |q|
    ensures TakeName(q, max) <= q
    ensures TakeName(q[..m], max) == if |TakeName(q, max)| <= m then TakeName(q, max) else q[..m]
    decreases |q|
  {
    if q != "" && q[0] != '/' && max > 0 {
      CutTake(q[1..], if m == 0 then 0 else m - 1, max - 1);
      if m > 0 { assert q[..m][1..] == q[1..][..m - 1]; }
    }
  }

  /** a are the first k names of b, perhaps followed by the beginning of the next one. */
  predicate CutOf(a: seq<string>, b: seq<string>, k: nat) {
    && k <= |b|
    && (a == b[..k] || (k < |b| && |a| == k + 1 && a[..k] == b[..k] && a[k] != "" && a[k] <= b[k]))
  }

  /** Of a path that is cut short the lookup loop sees the first names, and perhaps the beginning of one more. */
  lemma {:induction false} CutComponents(p: string, m: nat) returns (k: nat)
    requires m <= |p|
    ensures CutOf(Components(p[..m]), Components(p), k)
    decreases |p|
  {
    var q := SkipSlashes(p);
    var s := |p| - |q|;
    CutSkip(p, m);
    if m <= s {
      return 0;
    }
    var c := TakeName(q, NAME_MAX);
    CutTake(q, m - s, NAME_MAX);
    if |c| <= m - s {
      var j := CutComponents(q[|c|..], m - s - |c|);
      assert q[..m - s][|c|..] == q[|c|..][..m - s - |c|];
      CutCons(c, Components(q[|c|..][..m - s - |c|]), Components(q[|c|..]), j);
      return j + 1;
    } else {
      assert q[..m - s][m - s..] == "";
      assert Components(p[..m]) == [q[..m - s]] && q[..m - s] <= c;
      return 0;
    }
  }

  lemma CutCons(c: string, a: seq<string>, b: seq<string>, k: nat)
    requires CutOf(a, b, k)
    ensures CutOf([c] + a, [c] + b, k + 1)
  {
    assert ([c] + b)[..k + 1] == [c] + b[..k];
    if |a| == k + 1 { assert ([c] + a)[..k + 1] == [c] + a[..k]; }
  }

  // ---------------------------------------------------------------------------------------------
  // Parent directory and last name
  // ---------------------------------------------------------------------------------------------

  /** strrchr: the position of the last slash, or |p|. */
  function LastSlash(p: string): (k: nat)
    ensures k <= |p| && (k < |p| ==> p[k] == '/') && (k == |p| ==> forall i | 0 <= i < |p| :: p[i] != '/')
  {
    if p == "" then 0
    else var n := |p| - 1;
      if p[n] == '/' then n
      else var k := LastSlash(p[..n]); if k == n then |p| else k
  }

  lemma {:induction false} LastSlashOfOne(p: string)
    requires p != "" && p[0] == '/' && '/' !in p[1..]
    ensures LastSlash(p) == 0
    decreases |p|
  {
    var n := |p| - 1;
    if n > 0 {
      assert p[n] == p[1..][n - 1];
      assert p[..n][1..] == p[1..][..n - 1];
      LastSlashOfOne(p[..n]);
    }
  }

  lemma {:induction false} TakeAll(p: string, max: nat)
    requires '/' !in p && |p| <= max
    ensures TakeName(p, max) == p
    decreases |p|
  {
    if p != "" {
      TakeAll(p[1..], max - 1);
    }
  }

  function ParentOf(p: string): string {
    var k := LastSlash(p);
    if k == |p| || k == 0 then "/" else p[..k]
  }

  function NameOf(p: string): string {
    var k := LastSlash(p);
    if k == |p| then p else p[k + 1..]
  }

  // ---------------------------------------------------------------------------------------------
  // The scanning loops
  // ---------------------------------------------------------------------------------------------

  method SkipLeadingSlashes(p: string, from: nat) returns (to: nat)
    requires from <= |p|
    ensures from <= to <= |p| && p[to..] == SkipSlashes(p[from..])
  {
    to := from;
    while to < |p| && p[to] == '/'
      invariant from <= to <= |p| && SkipSlashes(p[to..]) == SkipSlashes(p[from..])
    {
      assert p[to..][1..] == p[to + 1..];
      to := to + 1;
    }
  }

  method CopyPathComponent(p: string, from: nat, size: nat) returns (dst: string)
    requires from <= |p| && size > 0
    ensures dst == TakeName(p[from..], size - 1)
  {
    dst := "";
    var i := from;
    while i < |p| && p[i] != '/' && |dst| < size - 1
      invariant from <= i <= |p| && |dst| == i - from <= size - 1
      invariant dst + TakeName(p[i..], size - 1 - |dst|) == TakeName(p[from..], size - 1)
    {
      assert p[i..][1..] == p[i + 1..];
      dst := dst + [p[i]];
      i := i + 1;
    }
  }

  /** The start of each turn of the lookup loop: takes one component and skips the slashes behind it. */
  method NextName(p: string, from: nat) returns (name: string, to: nat)
    requires from < |p| && SkipSlashes(p[from..]) == p[from..]
    ensures from < to <= |p| && SkipSlashes(p[to..]) == p[to..]
    ensures Components(p[from..]) == [name] + Components(p[to..])
  {
    name := CopyPathComponent(p, from, NAME_MAX + 1);
    NextComponent(p, from, name);
    to := SkipLeadingSlashes(p, from + |name|);
    SkipTwice(p[from + |name|..]);
  }

  lemma SkipTwice(p: string)
    ensures SkipSlashes(SkipSlashes(p)) == SkipSlashes(p)
  {
  }
}
