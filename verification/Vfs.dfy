/**
The VFS on one RamFs mount: path lookup through the dentry cache, and the operations that change
the directories on disk and the cache together.
*/
module Vfs {
  import opened KernelConfig
  import opened Distinctness
  import opened Paths
  import opened DirEntries
  import opened PlainFs
  import opened DentryCache

  datatype Inode = Inode(isDir: bool, entries: seq<Entry>, capacity: nat)

  function NodeOf(i: Inode): Node { Node(i.isDir, NamesOf(i.entries), i.capacity) }

  /** The inodes, seen as directories that map names to inodes, are the tree. */
  ghost predicate Mirrors(inodes: seq<Inode>, t: Tree) {
    |inodes| == |t.nodes| && forall i | 0 <= i < |inodes| ::
      DistinctNames(inodes[i].entries) && t.nodes[i] == NodeOf(inodes[i])
  }

  lemma MirrorsGrow(inodes: seq<Inode>, t: Tree, dir: nat, name: string, isDir: bool, capacity: nat)
    requires Mirrors(inodes, t) && dir < |inodes| && AddNode(t, dir, name, isDir).1.Ok?
    requires var d := inodes[dir];
      capacity == if |d.entries| >= d.capacity then GrownCapacity(d.capacity) else d.capacity
    ensures var d := inodes[dir].(capacity := capacity, entries := inodes[dir].entries + [Entry(name, |inodes|)]);
      Mirrors(inodes[dir := d] + [Inode(isDir, [], 0)], AddNode(t, dir, name, isDir).0)
  {
    NamesCount(inodes[dir].entries);
    AppendEntry(inodes[dir].entries, Entry(name, |inodes|));
  }

  lemma MirrorsShrink(inodes: seq<Inode>, t: Tree, dir: nat, k: nat)
    requires Mirrors(inodes, t) && dir < |inodes| && k < |inodes[dir].entries|
    ensures var d := inodes[dir].(entries := DropAt(inodes[dir].entries, k));
      Mirrors(inodes[dir := d], DropName(t, dir, inodes[dir].entries[k].name))
  {
    DropRemovesName(inodes[dir].entries, k);
  }

  class Vfs {
    var inodes: seq<Inode>
    var poolUsed: nat
    var dents: Dentries
    var nextDentry: nat
    ghost var tree: Tree
    ghost var home: map<nat, Place>
    ghost var dentOf: map<nat, nat>

    ghost predicate DiskOk()
      reads this
    {
      Mirrors(inodes, tree) && poolUsed == tree.poolUsed && TreeOk(tree, home)
    }

    ghost predicate Valid()
      reads this
    {
      DiskOk() && CacheOk(tree, dents, dentOf, nextDentry)
    }

    ghost predicate AllCached()
      reads this
    {
      Complete(tree, dents, dentOf)
    }

    /** A fresh mount: an empty root directory and its dentry. */
    constructor ()
      ensures Valid() && AllCached() && tree == FreshTree
    {
      inodes, poolUsed := [Inode(true, [], 0)], 0;
      dents, nextDentry := map[0 := Dentry("/", 0, 0, [])], 1;
      tree, home, dentOf := FreshTree, map[], map[0 := 0];
    }

    /** The child with a name, if there is one. */
    method FindChild(d: nat, name: string) returns (found: bool, c: nat, ghost k: nat)
      requires Valid() && d in dents
      ensures found ==> k < |dents[d].children| && c == dents[d].children[k] && c in dents && dents[c].name == name
      ensures !found ==> NoChild(dents, d, name)
    {
      assert DentryOk(tree, dents, dentOf, nextDentry, d);
      found, c, k := false, 0, 0;
      for i := 0 to |dents[d].children|
        invariant forall j | 0 <= j < i :: dents[d].children[j] in dents && dents[dents[d].children[j]].name != name
      {
        assert IsChild(dents, dents[d].children[i], d);
        if dents[dents[d].children[i]].name == name {
          return true, dents[d].children[i], i;
        }
      }
    }

    /** The entry with a name, or the number of entries. */
    method FindInDirectory(dir: nat, name: string) returns (k: nat)
      requires DiskOk() && dir < |inodes|
      ensures k <= |inodes[dir].entries|
      ensures k < |inodes[dir].entries| ==>
        inodes[dir].entries[k].name == name && Named(tree, dir, name, inodes[dir].entries[k].ino)
      ensures k == |inodes[dir].entries| ==> name !in tree.nodes[dir].names
    {
      var es := inodes[dir].entries;
      k := 0;
      while k < |es| && es[k].name != name
        invariant k <= |es| && forall j | 0 <= j < k :: es[j].name != name
      {
        k := k + 1;
      }
      if k < |es| {
        EntryInNames(es, k);
      } else if name in NamesOf(es) {
        var _ := NameHasEntry(es, name);
      }
    }

    method AddChild(d: nat, name: string, ino: nat) returns (c: nat)
      requires d in dents
      modifies this`dents, this`nextDentry, this`dentOf
      ensures c == old(nextDentry) && nextDentry == c + 1
      ensures dents == WithChild(old(dents), d, c, name, ino) && dentOf == old(dentOf)[ino := c]
    {
      c := nextDentry;
      dents := dents[c := Dentry(name, ino, d, [])][d := dents[d].(children := [c] + dents[d].children)];
      dentOf := dentOf[ino := c];
      nextDentry := nextDentry + 1;
    }

    /** Unlinks the k-th child; the source finds it by walking the list of siblings. */
    method RemoveChild(d: nat, c: nat, ghost at: nat)
      requires d in dents && at < |dents[d].children| && dents[d].children[at] == c && Distinct(dents[d].children)
      modifies this`dents
      ensures dents == WithoutChild(old(dents), d, at)
    {
      var cs := dents[d].children;
      var k := 0;
      forall j | 0 <= j < at ensures cs[j] != c {
        assert Differ(cs, j, at);
      }
      while k < |cs| && cs[k] != c
        invariant k <= at
      {
        k := k + 1;
      }
      dents := dents[d := dents[d].(children := cs[..k] + cs[k + 1..])] - {c};
    }

    /** One component of a lookup: through the cache, or from the directory into the cache. */
    method LookupStep(d: nat, name: string) returns (r: Result<nat>)
      requires Valid() && d in dents
      modifies this`dents, this`nextDentry, this`dentOf
      ensures Valid() && (old(AllCached()) ==> AllCached() && dents == old(dents))
      ensures old(dents[d].ino) < |tree.nodes| && Follows(Step(tree, old(TrailOf(dents, d)), name), r)
    {
      ParentTrail(tree, dents, dentOf, nextDentry, d);
      if !inodes[dents[d].ino].isDir {
        return Err(NotADirectory);
      }
      if name == "." {
        return Ok(d);
      }
      if name == ".." {
        return Ok(if d != 0 then dents[d].parent else d);
      }
      var found, c, k := FindChild(d, name);
      if found {
        ChildIsEntry(tree, dents, dentOf, nextDentry, d, c);
        return Ok(c);
      }
      r := LookupOnDisk(d, name);
    }

    /** A result is the dentry at the end of the expected trail, or the expected error. */
    ghost predicate Follows(expected: Result<seq<nat>>, r: Result<nat>)
      reads this
    {
      match expected
      case Ok(trail) => r.Ok? && r.value in dents && TrailOf(dents, r.value) == trail
      case Err(e) => r == Err(e)
    }

    method LookupOnDisk(d: nat, name: string) returns (r: Result<nat>)
      requires Valid() && d in dents && dents[d].ino < |tree.nodes| && tree.nodes[dents[d].ino].isDir
      requires NoChild(dents, d, name) && name != "." && name != ".."
      modifies this`dents, this`nextDentry, this`dentOf
      ensures Valid() && (old(AllCached()) ==> AllCached() && dents == old(dents))
      ensures old(dents[d].ino) < |tree.nodes| && Follows(Step(tree, old(TrailOf(dents, d)), name), r)
    {
      var dir := dents[d].ino;
      var k := FindInDirectory(dir, name);
      if k == |inodes[dir].entries| {
        return Err(FileNotFound);
      }
      var c := CacheEntry(d, name, inodes[dir].entries[k].ino);
      return Ok(c);
    }

    /** Makes a dentry for an entry that has none. */
    method CacheEntry(d: nat, name: string, ino: nat) returns (c: nat)
      requires Valid() && d in dents && Named(tree, dents[d].ino, name, ino) && NoChild(dents, d, name)
      modifies this`dents, this`nextDentry, this`dentOf
      ensures Valid() && !old(AllCached()) && c in dents
      ensures TrailOf(dents, c) == old(TrailOf(dents, d)) + [ino]
    {
      NoChildNoDentry(tree, home, dents, dentOf, nextDentry, d, name, ino);
      AddChildKeeps(tree, dents, dentOf, nextDentry, d, name, ino);
      AddChildTrail(tree, dents, dentOf, nextDentry, d, name, ino);
      c := AddChild(d, name, ino);
    }

    /** Looking a path up through the cache finds what walking the directories finds. */
    method Lookup(path: string) returns (r: Result<nat>)
      requires Valid()
      modifies this`dents, this`nextDentry, this`dentOf
      ensures Valid() && (old(AllCached()) ==> AllCached() && dents == old(dents))
      ensures Follows(Resolve(tree, path), r)
    {
      if path == "" || path[0] != '/' {
        return Err(InvalidArgument);
      }
      ParentTrail(tree, dents, dentOf, nextDentry, 0);
      if |path| == 1 || path[1] == '/' {
        return Ok(0);
      }
      r := WalkPath(path);
    }

    /** What is left to do on a path: walk on from dentry d at position p. */
    ghost function Remaining(d: nat, path: string, p: nat): Result<seq<nat>>
      requires p <= |path|
      reads this
    {
      Walk(tree, TrailOf(dents, d), Components(path[p..]))
    }

    /** The loop of Lookup. */
    method WalkPath(path: string) returns (r: Result<nat>)
      requires Valid()
      modifies this`dents, this`nextDentry, this`dentOf
      ensures Valid() && (old(AllCached()) ==> AllCached() && dents == old(dents))
      ensures Follows(Walk(tree, [0], Components(path)), r)
    {
      ParentTrail(tree, dents, dentOf, nextDentry, 0);
      var current := 0;
      var p := SkipLeadingSlashes(path, 0);
      SkippedComponents(path);
      assert path[0..] == path;
      while p < |path|
        invariant Valid() && (old(AllCached()) ==> AllCached() && dents == old(dents))
        invariant p <= |path| && current in dents && SkipSlashes(path[p..]) == path[p..]
        invariant Remaining(current, path, p) == Walk(tree, [0], Components(path))
        decreases |path| - p
      {
        var next;
        next, p := NextDentry(current, path, p);
        if next.Err? {
          return Err(next.error);
        }
        current := next.value;
      }
      return Ok(current);
    }

    /** One turn of the loop. */
    method NextDentry(d: nat, path: string, p: nat) returns (r: Result<nat>, p': nat)
      requires Valid() && d in dents && p < |path| && SkipSlashes(path[p..]) == path[p..]
      modifies this`dents, this`nextDentry, this`dentOf
      ensures Valid() && (old(AllCached()) ==> AllCached() && dents == old(dents))
      ensures p < p' <= |path| && SkipSlashes(path[p'..]) == path[p'..]
      ensures r.Ok? ==> r.value in dents && Remaining(r.value, path, p') == old(Remaining(d, path, p))
      ensures r.Err? ==> old(Remaining(d, path, p)) == Err(r.error)
    {
      var name;
      name, p' := NextName(path, p);
      r := StepOn(d, name, Components(path[p'..]));
    }

    method StepOn(d: nat, name: string, ghost rest: seq<string>) returns (r: Result<nat>)
      requires Valid() && d in dents
      modifies this`dents, this`nextDentry, this`dentOf
      ensures Valid() && (old(AllCached()) ==> AllCached() && dents == old(dents))
      ensures r.Ok? ==> r.value in dents && Walk(tree, TrailOf(dents, r.value),
                                                 rest) == old(Walk(tree, TrailOf(dents, d), [name] + rest))
      ensures r.Err? ==> old(Walk(tree, TrailOf(dents, d), [name] + rest)) == Err(r.error)
    {
      ParentTrail(tree, dents, dentOf, nextDentry, d);
      WalkOne(tree, TrailOf(dents, d), name, rest);
      r := LookupStep(d, name);
    }

    // -------------------------------------------------------------------------------------------
    // The RamFs side of a change
    // -------------------------------------------------------------------------------------------

    /** A new inode under a name of a directory; the array of entries doubles when it is full. */
    method CreateInode(dir: nat, name: string, isDir: bool) returns (r: Result<nat>)
      requires DiskOk() && dir < |inodes|
      modifies this`inodes, this`poolUsed, this`tree, this`home
      ensures DiskOk() && (tree, r) == AddNode(old(tree), dir, name, isDir)
    {
      if |inodes| >= MAX_INODES {
        return Err(OutOfMemory);
      }
      var d := inodes[dir];
      assert tree.nodes[dir] == NodeOf(d);
      if !d.isDir {
        return Err(NotADirectory);
      }
      var k := FindInDirectory(dir, name);
      if k < |d.entries| {
        return Err(FileExists);
      }
      NamesCount(d.entries);
      if |d.entries| >= d.capacity {
        var bytes := GrownCapacity(d.capacity) * ENTRY_BYTES;
        if poolUsed + bytes > DIR_POOL_BYTES {
          return Err(OutOfMemory);
        }
        poolUsed := poolUsed + bytes;
        d := d.(capacity := GrownCapacity(d.capacity));
      }
      var ino := |inodes|;
      AddNodeKeeps(tree, home, dir, name, isDir);
      MirrorsGrow(inodes, tree, dir, name, isDir, d.capacity);
      inodes := inodes[dir := d.(entries := d.entries + [Entry(name, ino)])] + [Inode(isDir, [], 0)];
      home := home[ino := Place(dir, name)];
      tree := AddNode(tree, dir, name, isDir).0;
      return Ok(ino);
    }

    /** The last entry moves into the place of the removed one; a missing name is an error. */
    method RemoveFromDirectory(dir: nat, name: string) returns (r: Result<()>)
      requires DiskOk() && dir < |inodes|
      modifies this`inodes, this`tree
      ensures DiskOk() && dir < |old(tree).nodes| && (r.Ok? <==> name in old(tree).nodes[dir].names)
      ensures r.Ok? ==> tree == DropName(old(tree), dir, name)
      ensures r.Err? ==> r.error == FileNotFound && unchanged(this)
    {
      var k := FindInDirectory(dir, name);
      var es := inodes[dir].entries;
      if k == |es| {
        return Err(FileNotFound);
      }
      var last := |es| - 1;
      DropNameKeeps(tree, home, dir, name);
      MirrorsShrink(inodes, tree, dir, k);
      if k != last {
        es := es[k := es[last]];
      }
      inodes := inodes[dir := inodes[dir].(entries := es[..last])];
      tree := DropName(tree, dir, name);
      return Ok(());
    }

    // -------------------------------------------------------------------------------------------
    // Open, MkDir, Unlink and RmDir
    // -------------------------------------------------------------------------------------------

    /** Lookup as the other operations use it: the dentry of the inode at the end of the path. */
    method FindDentry(path: string) returns (r: Result<nat>)
      requires Valid() && AllCached()
      modifies this`dents, this`nextDentry, this`dentOf
      ensures Valid() && AllCached() && dents == old(dents)
      ensures r.Ok? ==>
        r.value in dents && dents[r.value].ino < |inodes| && NodeAt(tree, path) == Ok(dents[r.value].ino)
      ensures r.Err? ==> NodeAt(tree, path) == r
    {
      r := Lookup(path);
      if r.Ok? {
        assert DentryOk(tree, dents, dentOf, nextDentry, r.value);
      }
    }

    /** Creates an inode and its dentry. */
    method CreateChild(d: nat, name: string, isDir: bool) returns (r: Result<nat>)
      requires Valid() && AllCached() && d in dents && dents[d].ino < |inodes|
      modifies this
      ensures Valid() && AllCached() && (tree, r) == AddNode(old(tree), old(dents[d].ino), name, isDir)
    {
      r := CreateInode(dents[d].ino, name, isDir);
      if r.Ok? {
        CreateKeeps(old(tree), old(home), dents, dentOf, nextDentry, d, name, isDir);
        var _ := AddChild(d, name, r.value);
      }
    }

    /** Opens a path, creating a regular file if asked to, exactly as the tree without a cache would. */
    method Open(path: string, create: bool, directory: bool) returns (r: Result<nat>)
      requires Valid() && AllCached()
      modifies this
      ensures Valid() && AllCached() && (tree, r) == OpenPath(old(tree), path, create, directory)
    {
      if |path| >= MAX_PATH {
        return Err(InvalidPath);
      }
      r := OpenOrCreate(path, create);
      if r.Ok? && directory && !inodes[r.value].isDir {
        return Err(NotADirectory);
      }
    }

    method OpenOrCreate(path: string, create: bool) returns (r: Result<nat>)
      requires Valid() && AllCached()
      modifies this
      ensures Valid() && AllCached() && (tree, r) == FindOrCreate(old(tree), path, create)
    {
      var found := FindDentry(path);
      if found.Ok? {
        return Ok(dents[found.value].ino);
      }
      if !create {
        return Err(found.error);
      }
      if LongParts(path) {
        return Err(InvalidPath);
      }
      var parent := FindDentry(ParentOf(path));
      if parent.Err? {
        return Err(parent.error);
      }
      if !inodes[dents[parent.value].ino].isDir {
        return Err(NotADirectory);
      }
      r := CreateChild(parent.value, NameOf(path), false);
    }

    method MkDir(path: string) returns (r: Result<nat>)
      requires Valid() && AllCached()
      modifies this
      ensures Valid() && AllCached() && (tree, r) == MakeDir(old(tree), path)
    {
      if LongParts(path) {
        return Err(InvalidPath);
      }
      var parent := FindDentry(ParentOf(path));
      if parent.Err? {
        return Err(parent.error);
      }
      var d := parent.value;
      if !inodes[dents[d].ino].isDir {
        return Err(NotADirectory);
      }
      var found, c, k := FindChild(d, NameOf(path));
      NameIsChild(d, NameOf(path), found, k);
      if found {
        return Err(FileExists);
      }
      r := CreateChild(d, NameOf(path), true);
    }

    /** In a complete cache a directory has a name exactly when its dentry has a child with it. */
    lemma NameIsChild(d: nat, name: string, found: bool, k: nat)
      requires Valid() && AllCached() && d in dents && dents[d].ino < |tree.nodes|
      requires found ==>
        k < |dents[d].children| && dents[d].children[k] in dents && dents[dents[d].children[k]].name == name
      requires !found ==> NoChild(dents, d, name)
      ensures found <==> name in tree.nodes[dents[d].ino].names
      ensures found ==> Named(tree, dents[d].ino, name, dents[dents[d].children[k]].ino)
    {
      if found {
        ChildIsEntry(tree, dents, dentOf, nextDentry, d, dents[d].children[k]);
      } else if name in tree.nodes[dents[d].ino].names {
        NoChildNoDentry(tree, home, dents, dentOf, nextDentry, d, name, tree.nodes[dents[d].ino].names[name]);
      }
    }

    /** Unlink (isDir false) and RmDir (isDir true). */
    method Remove(path: string, isDir: bool) returns (r: Result<nat>)
      requires Valid() && AllCached()
      modifies this
      ensures Valid() && AllCached() && (tree, r) == RemovePath(old(tree), path, isDir)
    {
      var parent := FindDentry(Truncate(ParentOf(path), PARENT_MAX));
      if parent.Err? {
        return Err(parent.error);
      }
      r := RemoveNamed(parent.value, Truncate(NameOf(path), NAME_MAX), isDir);
    }

    method RemoveNamed(d: nat, name: string, isDir: bool) returns (r: Result<nat>)
      requires Valid() && AllCached() && d in dents && dents[d].ino < |inodes|
      modifies this
      ensures Valid() && AllCached() && (tree, r) == RemoveName(old(tree), old(dents[d].ino), name, isDir)
    {
      var found, c, k := FindChild(d, name);
      NameIsChild(d, name, found, k);
      if !found {
        return Err(FileNotFound);
      }
      assert DentryOk(tree, dents, dentOf, nextDentry, c);
      var ino := dents[c].ino;
      if !isDir && inodes[ino].isDir {
        return Err(IsADirectory);
      }
      if isDir && !inodes[ino].isDir {
        return Err(NotADirectory);
      }
      ChildlessIsEmpty(c);
      if isDir && dents[c].children != [] {
        return Err(NotEmpty);
      }
      if isDir && inodes[ino].entries != [] {
        return Err(NotEmpty);
      }
      DropChild(d, c, k, name);
      return Ok(ino);
    }

    /** In a complete cache a dentry has children exactly when its directory has entries; files have neither. */
    lemma ChildlessIsEmpty(c: nat)
      requires Valid() && AllCached() && c in dents && dents[c].ino < |tree.nodes|
      ensures dents[c].children == [] <==> tree.nodes[dents[c].ino].names == map[]
      ensures inodes[dents[c].ino].entries == [] <==> tree.nodes[dents[c].ino].names == map[]
      ensures !tree.nodes[dents[c].ino].isDir ==> tree.nodes[dents[c].ino].names == map[]
    {
      var i := dents[c].ino;
      var names := tree.nodes[i].names;
      assert names == NamesOf(inodes[i].entries);
      NamesCount(inodes[i].entries);
      if dents[c].children != [] {
        ChildIsEntry(tree, dents, dentOf, nextDentry, c, dents[c].children[0]);
      }
      if n :| n in names {
        assert Entered(tree, home, i, n) && Cached(dents, dentOf, names[n]);
        EntryIsChild(tree, home, dents, dentOf, nextDentry, c, n, dentOf[names[n]]);
      }
    }

    method DropChild(d: nat, c: nat, ghost k: nat, name: string)
      requires Valid() && AllCached() && d in dents && dents[d].ino < |inodes|
      requires k < |dents[d].children| && c == dents[d].children[k] && c in dents && dents[c].name == name
      requires dents[c].children == []
      modifies this
      ensures Valid() && AllCached() && tree == DropName(old(tree), old(dents[d].ino), name)
    {
      RemoveKeeps(tree, home, dents, dentOf, nextDentry, d, k);
      ChildIsEntry(tree, dents, dentOf, nextDentry, d, c);
      assert DentryOk(tree, dents, dentOf, nextDentry, d);
      var _ := RemoveFromDirectory(dents[d].ino, name);
      RemoveChild(d, c, k);
    }

    method Unlink(path: string) returns (r: Result<nat>)
      requires Valid() && AllCached()
      modifies this
      ensures Valid() && AllCached() && (tree, r) == RemovePath(old(tree), path, false)
    {
      r := Remove(path, false);
    }

    method RmDir(path: string) returns (r: Result<nat>)
      requires Valid() && AllCached()
      modifies this
      ensures Valid() && AllCached() && (tree, r) == RemovePath(old(tree), path, true)
    {
      r := Remove(path, true);
    }

    method RunOne(op: Op) returns (r: Result<nat>)
      requires Valid() && AllCached()
      modifies this
      ensures Valid() && AllCached() && (tree, r) == PlainOp(old(tree), op)
    {
      match op
      case LookUp(path) =>
        var d := FindDentry(path);
        r := if d.Ok? then Ok(dents[d.value].ino) else d;
      case OpenFile(path, create, directory) => r := Open(path, create, directory);
      case MakeDirectory(path) => r := MkDir(path);
      case UnlinkFile(path) => r := Unlink(path);
      case RemoveDirectory(path) => r := RmDir(path);
    }

    /** In every run all calls answer as they would without a cache, and the directories end up the same. */
    method Run(ops: seq<Op>) returns (rs: seq<Result<nat>>)
      requires Valid() && AllCached()
      modifies this
      ensures Valid() && AllCached() && (tree, rs) == PlainRun(old(tree), ops)
    {
      rs := [];
      for i := 0 to |ops|
        invariant Valid() && AllCached() && (tree, rs) == PlainRun(old(tree), ops[..i])
      {
        var r := RunOne(ops[i]);
        rs := rs + [r];
        assert ops[..i + 1][..i] == ops[..i];
      }
      assert ops[..|ops|] == ops;
    }
  }

  /** The same from a fresh mount. */
  method RunFresh(ops: seq<Op>) returns (rs: seq<Result<nat>>)
    ensures rs == PlainRun(FreshTree, ops).1
  {
    var vfs := new Vfs();
    rs := vfs.Run(ops);
  }
}
