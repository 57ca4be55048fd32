/** The dentry cache as a value: dentries form a tree that names part of the file tree. */
module DentryCache {
  import opened PlainFs
  import opened Distinctness

  /** Dentry 0 is the root; children are listed newest first. */
  datatype Dentry = Dentry(name: string, ino: nat, parent: nat, children: seq<nat>)

  type Dentries = map<nat, Dentry>

  /** dentOf gives the one dentry of an inode; next is the number of the next dentry. */
  ghost predicate CacheOk(t: Tree, ds: Dentries, dentOf: map<nat, nat>, next: nat) {
    && 0 in ds && ds[0].ino == 0 && |t.nodes| > 0
    && (forall d {:trigger DentryOk(t, ds, dentOf, next, d)} | d in ds :: DentryOk(t, ds, dentOf, next, d))
  }

  ghost predicate DentryOk(t: Tree, ds: Dentries, dentOf: map<nat, nat>, next: nat, d: nat)
    requires d in ds
  {
    && d < next && ds[d].ino < |t.nodes| && ds[d].ino in dentOf && dentOf[ds[d].ino] == d
    && (d != 0 ==> ds[d].parent in ds && ds[d].parent < d && d in ds[ds[d].parent].children
                   && Named(t, ds[ds[d].parent].ino, ds[d].name, ds[d].ino))
    && (forall k | 0 <= k < |ds[d].children| :: IsChild(ds, ds[d].children[k], d))
    && Distinct(ds[d].children)
  }

  predicate IsChild(ds: Dentries, c: nat, d: nat) { c != 0 && c in ds && ds[c].parent == d }

  predicate Named(t: Tree, dir: nat, name: string, ino: nat) {
    dir < |t.nodes| && name in t.nodes[dir].names && t.nodes[dir].names[name] == ino
  }

  /** Every entry of a directory that has a dentry has a dentry as well. */
  ghost predicate Complete(t: Tree, ds: Dentries, dentOf: map<nat, nat>) {
    forall d, n | d in ds && ds[d].ino < |t.nodes| && n in t.nodes[ds[d].ino].names ::
      Cached(ds, dentOf, t.nodes[ds[d].ino].names[n])
  }

  ghost predicate Cached(ds: Dentries, dentOf: map<nat, nat>, ino: nat) {
    ino in dentOf && dentOf[ino] in ds && ds[dentOf[ino]].ino == ino
  }

  /** The inodes from the root to a dentry. */
  ghost function TrailOf(ds: Dentries, d: nat): (r: seq<nat>)
    ensures d in ds ==> |r| > 0 && r[|r| - 1] == ds[d].ino
    decreases d
  {
    if d !in ds then []
    else if d == 0 || ds[d].parent >= d then [ds[d].ino]
    else TrailOf(ds, ds[d].parent) + [ds[d].ino]
  }

  // ---------------------------------------------------------------------------------------------
  // Finding a child
  // ---------------------------------------------------------------------------------------------

  /** A child with a name is the dentry of the inode that the directory has under that name. */
  lemma ChildIsEntry(t: Tree, ds: Dentries, dentOf: map<nat, nat>, next: nat, d: nat, c: nat)
    requires CacheOk(t, ds, dentOf, next) && d in ds && c in ds[d].children
    ensures IsChild(ds, c, d) && Named(t, ds[d].ino, ds[c].name, ds[c].ino)
    ensures TrailOf(ds, c) == TrailOf(ds, d) + [ds[c].ino]
  {
    assert DentryOk(t, ds, dentOf, next, d);
    var k :| 0 <= k < |ds[d].children| && ds[d].children[k] == c;
    assert IsChild(ds, ds[d].children[k], d);
    assert DentryOk(t, ds, dentOf, next, c);
  }

  /** The dentry of an entered inode is a child of its directory's dentry, under that name. */
  lemma EntryIsChild(t: Tree, home: map<nat, Place>, ds: Dentries, dentOf: map<nat, nat>, next: nat, d: nat,
                     name: string, c: nat)
    requires TreeOk(t, home) && CacheOk(t, ds, dentOf, next) && d in ds
    requires c in ds && ds[d].ino < |t.nodes| && Named(t, ds[d].ino, name, ds[c].ino)
    ensures c != 0 && ds[c].parent == d && ds[c].name == name && c in ds[d].children
  {
    assert DentryOk(t, ds, dentOf, next, d) && DentryOk(t, ds, dentOf, next, c);
    assert Entered(t, home, ds[d].ino, name);
    assert c != 0;
    var p := ds[c].parent;
    assert DentryOk(t, ds, dentOf, next, p);
    assert Entered(t, home, ds[p].ino, ds[c].name);
  }

  /** No child has this name: then the entry, if there is one, has no dentry. */
  ghost predicate NoChild(ds: Dentries, d: nat, name: string)
    requires d in ds
  {
    forall c | c in ds[d].children :: c in ds && ds[c].name != name
  }

  lemma NoChildNoDentry(t: Tree, home: map<nat, Place>, ds: Dentries, dentOf: map<nat, nat>, next: nat, d: nat,
                        name: string, ino: nat)
    requires TreeOk(t, home) && CacheOk(t, ds, dentOf, next) && d in ds && ds[d].ino < |t.nodes|
    requires NoChild(ds, d, name) && Named(t, ds[d].ino, name, ino)
    ensures ino < |t.nodes| && !Complete(t, ds, dentOf) && forall e | e in ds :: ds[e].ino != ino
  {
    assert Entered(t, home, ds[d].ino, name);
    forall e | e in ds ensures ds[e].ino != ino {
      if ds[e].ino == ino { EntryIsChild(t, home, ds, dentOf, next, d, name, e); }
    }
    assert Complete(t, ds, dentOf) ==> Cached(ds, dentOf, ino);
  }

  lemma ParentTrail(t: Tree, ds: Dentries, dentOf: map<nat, nat>, next: nat, d: nat)
    requires CacheOk(t, ds, dentOf, next) && d in ds
    ensures d == 0 ==> TrailOf(ds, d) == [0]
    ensures d != 0 ==> ds[d].parent in ds && TrailOf(ds, d) == TrailOf(ds, ds[d].parent) + [ds[d].ino]
    ensures ds[d].ino < |t.nodes|
  {
    assert DentryOk(t, ds, dentOf, next, d);
  }

  // ---------------------------------------------------------------------------------------------
  // AddChild
  // ---------------------------------------------------------------------------------------------

  function WithChild(ds: Dentries, d: nat, c: nat, name: string, ino: nat): Dentries
    requires d in ds
  {
    ds[c := Dentry(name, ino, d, [])][d := ds[d].(children := [c] + ds[d].children)]
  }

  /** A dentry for an entry without one; nothing that was cached changes. */
  lemma AddChildKeeps(t: Tree, ds: Dentries, dentOf: map<nat, nat>, next: nat, d: nat, name: string, ino: nat)
    requires CacheOk(t, ds, dentOf, next) && d in ds && ino < |t.nodes| && Named(t, ds[d].ino, name, ino)
    requires forall e | e in ds :: ds[e].ino != ino
    ensures next !in ds && CacheOk(t, WithChild(ds, d, next, name, ino), dentOf[ino := next], next + 1)
  {
    var ds', dentOf' := WithChild(ds, d, next, name, ino), dentOf[ino := next];
    assert DentryOk(t, ds, dentOf, next, d);
    assert next !in ds by { assert next in ds ==> DentryOk(t, ds, dentOf, next, next); }
    assert forall k | 0 <= k < |ds[d].children| :: IsChild(ds, ds[d].children[k], d);
    DistinctCons(next, ds[d].children);
    forall e | e in ds' ensures DentryOk(t, ds', dentOf', next + 1, e) {
      if e != next {
        OtherDentryKept(t, ds, dentOf, next, d, name, ino, e);
      }
    }
  }

  lemma OtherDentryKept(t: Tree, ds: Dentries, dentOf: map<nat, nat>, next: nat, d: nat, name: string, ino: nat, e: nat)
    requires CacheOk(t, ds, dentOf, next) && d in ds && next !in ds && e in ds && ds[e].ino != ino
    requires Distinct([next] + ds[d].children)
    ensures DentryOk(t, WithChild(ds, d, next, name, ino), dentOf[ino := next], next + 1, e)
  {
    var ds' := WithChild(ds, d, next, name, ino);
    assert DentryOk(t, ds, dentOf, next, e);
    forall k | 0 <= k < |ds'[e].children| ensures IsChild(ds', ds'[e].children[k], e) {
      if e == d && k > 0 {
        assert IsChild(ds, ds[e].children[k - 1], e);
      } else if e != d {
        assert IsChild(ds, ds[e].children[k], e);
      }
    }
    if e != 0 && ds[e].parent == d {
      var k :| 0 <= k < |ds[d].children| && ds[d].children[k] == e;
      assert ds'[d].children[k + 1] == e;
    }
  }

  /** Trails depend only on parents and inodes. */
  lemma {:induction false} TrailKept(ds: Dentries, ds': Dentries, d: nat)
    requires forall e | e in ds :: e in ds' && ds'[e].ino == ds[e].ino && ds'[e].parent == ds[e].parent
    requires forall e | e in ds && e != 0 :: ds[e].parent in ds
    requires d in ds
    ensures TrailOf(ds', d) == TrailOf(ds, d)
    decreases d
  {
    if d != 0 && ds[d].parent < d {
      TrailKept(ds, ds', ds[d].parent);
    }
  }

  lemma AddChildTrail(t: Tree, ds: Dentries, dentOf: map<nat, nat>, next: nat, d: nat, name: string, ino: nat)
    requires CacheOk(t, ds, dentOf, next) && d in ds && next !in ds
    ensures TrailOf(WithChild(ds, d, next, name, ino), next) == TrailOf(ds, d) + [ino]
  {
    var ds' := WithChild(ds, d, next, name, ino);
    assert DentryOk(t, ds, dentOf, next, d);
    forall e | e in ds && e != 0 ensures ds[e].parent in ds {
      assert DentryOk(t, ds, dentOf, next, e);
    }
    TrailKept(ds, ds', d);
    assert TrailOf(ds', next) == TrailOf(ds', d) + [ino];
  }

  // ---------------------------------------------------------------------------------------------
  // Changes of the tree
  // ---------------------------------------------------------------------------------------------

  /** New inodes and new names disturb no dentry. */
  lemma GrownTreeKeeps(t: Tree, t': Tree, ds: Dentries, dentOf: map<nat, nat>, next: nat)
    requires CacheOk(t, ds, dentOf, next) && |t'.nodes| >= |t.nodes|
    requires forall i, n | 0 <= i < |t.nodes| && n in t.nodes[i].names ::
      n in t'.nodes[i].names && t'.nodes[i].names[n] == t.nodes[i].names[n]
    ensures CacheOk(t', ds, dentOf, next)
  {
    forall d | d in ds ensures DentryOk(t', ds, dentOf, next, d) {
      assert DentryOk(t, ds, dentOf, next, d);
    }
  }

  /** Creating an inode under a name and caching it keeps the cache right, and complete if it was. */
  lemma CreateKeeps(t: Tree, home: map<nat, Place>, ds: Dentries, dentOf: map<nat, nat>, next: nat, d: nat,
                    name: string, isDir: bool)
    requires TreeOk(t, home) && CacheOk(t, ds, dentOf, next) && d in ds && ds[d].ino < |t.nodes|
    requires AddNode(t, ds[d].ino, name, isDir).1.Ok?
    ensures var t', ino := AddNode(t, ds[d].ino, name, isDir).0, |t.nodes|;
      && next !in ds && CacheOk(t', WithChild(ds, d, next, name, ino), dentOf[ino := next], next + 1)
      && (Complete(t, ds, dentOf) ==> Complete(t', WithChild(ds, d, next, name, ino), dentOf[ino := next]))
  {
    var t', ino := AddNode(t, ds[d].ino, name, isDir).0, |t.nodes|;
    GrownTreeKeeps(t, t', ds, dentOf, next);
    forall e | e in ds ensures ds[e].ino != ino {
      assert DentryOk(t, ds, dentOf, next, e);
    }
    AddChildKeeps(t', ds, dentOf, next, d, name, ino);
    if Complete(t, ds, dentOf) {
      CreateKeepsComplete(t, home, ds, dentOf, next, d, name, isDir);
    }
  }

  lemma AddedNames(t: Tree, dir: nat, name: string, isDir: bool, i: nat, n: string)
    requires dir < |t.nodes| && AddNode(t, dir, name, isDir).1.Ok?
    requires var t' := AddNode(t, dir, name, isDir).0; i < |t'.nodes| && n in t'.nodes[i].names
    ensures var t' := AddNode(t, dir, name, isDir).0;
      && i < |t.nodes|
      && if i == dir && n == name then t'.nodes[i].names[n] == |t.nodes|
         else n in t.nodes[i].names && t'.nodes[i].names[n] == t.nodes[i].names[n]
  {
  }

  lemma CachedStays(ds: Dentries, dentOf: map<nat, nat>, d: nat, next: nat, name: string, ino: nat, x: nat)
    requires d in ds && next !in ds && (x == ino || Cached(ds, dentOf, x))
    ensures Cached(WithChild(ds, d, next, name, ino), dentOf[ino := next], x)
  {
  }

  lemma CreateKeepsComplete(t: Tree, home: map<nat, Place>, ds: Dentries, dentOf: map<nat, nat>, next: nat, d: nat,
                            name: string, isDir: bool)
    requires TreeOk(t, home) && CacheOk(t, ds, dentOf, next) && d in ds && ds[d].ino < |t.nodes| && next !in ds
    requires AddNode(t, ds[d].ino, name, isDir).1.Ok? && Complete(t, ds, dentOf)
    ensures Complete(AddNode(t, ds[d].ino, name, isDir).0, WithChild(ds, d, next, name, |t.nodes|),
                     dentOf[|t.nodes| := next])
  {
    var t', ino, dir := AddNode(t, ds[d].ino, name, isDir).0, |t.nodes|, ds[d].ino;
    var ds' := WithChild(ds, d, next, name, ino);
    forall e, n | e in ds' && ds'[e].ino < |t'.nodes| && n in t'.nodes[ds'[e].ino].names
      ensures Cached(ds', dentOf[ino := next], t'.nodes[ds'[e].ino].names[n])
    {
      var i := ds'[e].ino;
      AddedNames(t, dir, name, isDir, i, n);
      assert !(i == dir && n == name) ==> e in ds && ds[e].ino == i && Cached(ds, dentOf, t.nodes[i].names[n]);
      CachedStays(ds, dentOf, d, next, name, ino, t'.nodes[i].names[n]);
    }
  }

  // ---------------------------------------------------------------------------------------------
  // RemoveChild
  // ---------------------------------------------------------------------------------------------

  function WithoutChild(ds: Dentries, d: nat, k: nat): Dentries
    requires d in ds && k < |ds[d].children|
  {
    ds[d := ds[d].(children := Without(ds[d].children, k))] - {ds[d].children[k]}
  }

  /** A dentry keeps its place when another name is removed from the tree and its dentry from the cache. */
  lemma OtherDentryStays(t: Tree, ds: Dentries, dentOf: map<nat, nat>, next: nat, d: nat, k: nat, e: nat)
    requires CacheOk(t, ds, dentOf, next) && d in ds && ds[d].ino < |t.nodes| && k < |ds[d].children|
    requires var c := ds[d].children[k]; c in ds && ds[c].parent == d && ds[c].children == [] && c != d && e != c
    requires e in ds
    ensures e in WithoutChild(ds, d, k)
    ensures DentryOk(DropName(t, ds[d].ino, ds[ds[d].children[k]].name), WithoutChild(ds, d, k), dentOf, next, e)
  {
    var c := ds[d].children[k];
    var ds', t' := WithoutChild(ds, d, k), DropName(t, ds[d].ino, ds[c].name);
    assert DentryOk(t, ds, dentOf, next, e) && DentryOk(t, ds, dentOf, next, d) && DentryOk(t, ds, dentOf, next, c);
    DropOne(ds[d].children, k);
    if e != 0 {
      var p := ds[e].parent;
      assert DentryOk(t, ds, dentOf, next, p);
      assert p != c;
      StillChild(ds, d, k, e, p);
      NameStays(t, ds[p].ino, ds[e].name, ds[e].ino, ds[d].ino, ds[c].name, ds[c].ino);
    }
    forall j | 0 <= j < |ds'[e].children| ensures IsChild(ds', ds'[e].children[j], e) {
      KeptChild(ds, d, k, e, j);
    }
  }

  lemma NameStays(t: Tree, dir: nat, name: string, ino: nat, dir': nat, name': string, ino': nat)
    requires Named(t, dir, name, ino) && Named(t, dir', name', ino') && ino != ino'
    ensures Named(DropName(t, dir', name'), dir, name, ino)
  {
  }

  lemma StillChild(ds: Dentries, d: nat, k: nat, e: nat, p: nat)
    requires d in ds && k < |ds[d].children| && p in ds && e in ds[p].children && e != ds[d].children[k]
    requires p != ds[d].children[k]
    ensures p in WithoutChild(ds, d, k) && e in WithoutChild(ds, d, k)[p].children
  {
    var i :| 0 <= i < |ds[p].children| && ds[p].children[i] == e;
    if p == d {
      assert Without(ds[d].children, k)[if i < k then i else i - 1] == e;
    }
  }

  lemma KeptChild(ds: Dentries, d: nat, k: nat, e: nat, j: nat)
    requires d in ds && k < |ds[d].children| && Distinct(ds[d].children) && e in WithoutChild(ds, d, k)
    requires j < |WithoutChild(ds, d, k)[e].children|
    requires ds[d].children[k] in ds && ds[ds[d].children[k]].parent == d
    requires forall i | 0 <= i < |ds[e].children| :: IsChild(ds, ds[e].children[i], e)
    ensures IsChild(WithoutChild(ds, d, k), WithoutChild(ds, d, k)[e].children[j], e)
  {
    DropOne(ds[d].children, k);
    var i := if e == d && j >= k then j + 1 else j;
    assert IsChild(ds, ds[e].children[i], e);
    assert WithoutChild(ds, d, k)[e].children[j] == ds[e].children[i];
  }

  /** Removing a name and its childless dentry keeps the cache right, and complete if it was. */
  lemma RemoveKeeps(t: Tree, home: map<nat, Place>, ds: Dentries, dentOf: map<nat, nat>, next: nat, d: nat, k: nat)
    requires TreeOk(t, home) && CacheOk(t, ds, dentOf, next) && d in ds && ds[d].ino < |t.nodes| && k < |ds[d].children|
    requires ds[d].children[k] in ds && ds[ds[d].children[k]].children == []
    ensures var t' := DropName(t, ds[d].ino, ds[ds[d].children[k]].name);
      && CacheOk(t', WithoutChild(ds, d, k), dentOf, next)
      && (Complete(t, ds, dentOf) ==> Complete(t', WithoutChild(ds, d, k), dentOf))
  {
    var c := ds[d].children[k];
    var ds', t' := WithoutChild(ds, d, k), DropName(t, ds[d].ino, ds[c].name);
    ChildIsEntry(t, ds, dentOf, next, d, c);
    assert DentryOk(t, ds, dentOf, next, c);
    forall e | e in ds' ensures DentryOk(t', ds', dentOf, next, e) {
      OtherDentryStays(t, ds, dentOf, next, d, k, e);
    }
    if Complete(t, ds, dentOf) {
      RemoveKeepsComplete(t, home, ds, dentOf, d, k, c);
    }
  }

  lemma RemoveKeepsComplete(t: Tree, home: map<nat, Place>, ds: Dentries, dentOf: map<nat, nat>, d: nat, k: nat, c: nat)
    requires TreeOk(t, home) && Complete(t, ds, dentOf) && d in ds && ds[d].ino < |t.nodes| && k < |ds[d].children|
    requires c == ds[d].children[k] && c in ds && c != d && Named(t, ds[d].ino, ds[c].name, ds[c].ino)
    ensures Complete(DropName(t, ds[d].ino, ds[c].name), WithoutChild(ds, d, k), dentOf)
  {
    var ds', t' := WithoutChild(ds, d, k), DropName(t, ds[d].ino, ds[c].name);
    forall e, n | e in ds' && ds'[e].ino < |t'.nodes| && n in t'.nodes[ds'[e].ino].names
      ensures Cached(ds', dentOf, t'.nodes[ds'[e].ino].names[n])
    {
      var i := ds'[e].ino;
      assert e in ds && ds[e].ino == i && n in t.nodes[i].names;
      assert Cached(ds, dentOf, t.nodes[i].names[n]);
      OtherInode(t, home, i, n, ds[d].ino, ds[c].name);
    }
  }

  /** Different places hold different inodes. */
  lemma OtherInode(t: Tree, home: map<nat, Place>, i: nat, n: string, j: nat, m: string)
    requires TreeOk(t, home) && i < |t.nodes| && j < |t.nodes| && n in t.nodes[i].names && m in t.nodes[j].names
    requires i != j || n != m
    ensures t.nodes[i].names[n] != t.nodes[j].names[m]
  {
    assert Entered(t, home, i, n) && Entered(t, home, j, m);
  }
}
