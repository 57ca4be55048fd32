/**
What creating and removing do to paths: which paths lead where before and after, on every well-formed
tree. Nothing here speaks of directories' entry tables but of where a lookup leads.
*/
module TreeEffects {
  import opened KernelConfig
  import opened Paths
  import opened PlainFs
  import opened PathLimits

  // ---------------------------------------------------------------------------------------------
  // Paths and their last name
  // ---------------------------------------------------------------------------------------------

  /** A path that a lookup takes apart, whose last name is a name and not a dot. */
  predicate Proper(path: string) { Walked(path) && NameOf(path) != "" && !IsDots(NameOf(path)) }

  lemma {:induction false} ComponentsAppend(p: string, n: string)
    requires n != "" && '/' !in n && |n| <= NAME_MAX
    ensures Components(p + "/" + n) == Components(p) + [n]
    decreases |p|
  {
    var q := SkipSlashes(p);
    SkipAppend(p, n);
    if q == "" {
      OneComponent(n);
      SkippedComponents(p + "/" + n);
    } else {
      var c := TakeName(q, NAME_MAX);
      TakeAppend(q, n, NAME_MAX);
      assert (q + "/" + n)[|c|..] == q[|c|..] + "/" + n;
      ComponentsAppend(q[|c|..], n);
      assert SkipSlashes(p + "/" + n) == q + "/" + n;
    }
  }

  lemma OneComponent(n: string)
    requires n != "" && '/' !in n && |n| <= NAME_MAX
    ensures SkipSlashes(n) == n && Components(n) == [n]
  {
    assert n[0] in n;
    TakeAll(n, NAME_MAX);
    assert n[|n|..] == "";
  }

  lemma {:induction false} SkipAppend(p: string, n: string)
    requires n != "" && '/' !in n
    ensures SkipSlashes(p + "/" + n) == if SkipSlashes(p) == "" then n else SkipSlashes(p) + "/" + n
    decreases |p|
  {
    if p == "" {
      assert n[0] in n;
      assert (p + "/" + n)[1..] == n;
    } else if p[0] == '/' {
      assert (p + "/" + n)[1..] == p[1..] + "/" + n;
      SkipAppend(p[1..], n);
    }
  }

  lemma {:induction false} TakeAppend(q: string, n: string, max: nat)
    ensures TakeName(q + "/" + n, max) == TakeName(q, max)
    decreases |q|
  {
    if q != "" && q[0] != '/' && max > 0 {
      assert (q + "/" + n)[1..] == q[1..] + "/" + n;
      TakeAppend(q[1..], n, max - 1);
    }
  }

  lemma {:induction false} NoSlashAfterLast(p: string)
    ensures forall i | LastSlash(p) < i < |p| :: p[i] != '/'
    decreases |p|
  {
    if p != "" { NoSlashAfterLast(p[..|p| - 1]); }
  }

  function LastNames(path: string): seq<string> { if NameOf(path) == "" then [] else [NameOf(path)] }

  /** The components of a path are those of its parent and its last name, if it has one. */
  lemma ParentAndName(path: string)
    requires Walked(path) && |NameOf(path)| <= NAME_MAX
    ensures Components(path) == Components(ParentOf(path)) + LastNames(path)
    ensures ParentOf(path) == "/" || Walked(ParentOf(path))
  {
    var k, n := LastSlash(path), NameOf(path);
    NoSlashAfterLast(path);
    assert forall i | 0 <= i < |n| :: n[i] == path[k + 1 + i];
    assert path == path[..k] + "/" + n;
    if n == "" {
      TrailingSlash(path[..k]);
      assert path == path[..k] + "/";
    } else {
      ComponentsAppend(path[..k], n);
    }
    if k == 0 {
      assert path[..0] == "" && Components("") == [];
      RootHasNoComponents("/");
    }
  }

  lemma {:induction false} TrailingSlash(p: string)
    ensures Components(p + "/") == Components(p)
    decreases |p|
  {
    var q := SkipSlashes(p);
    SkipTrailing(p);
    if q != "" {
      var c := TakeName(q, NAME_MAX);
      TakeAppend(q, "", NAME_MAX);
      assert q + "/" + "" == q + "/";
      assert (q + "/")[|c|..] == q[|c|..] + "/";
      TrailingSlash(q[|c|..]);
    }
  }

  lemma {:induction false} SkipTrailing(p: string)
    ensures SkipSlashes(p + "/") == if SkipSlashes(p) == "" then "" else SkipSlashes(p) + "/"
    decreases |p|
  {
    if p == "" {
      assert (p + "/")[1..] == "";
    } else if p[0] == '/' {
      assert (p + "/")[1..] == p[1..] + "/";
      SkipTrailing(p[1..]);
    }
  }

  lemma RootHasNoComponents(p: string)
    requires p == "/"
    ensures Components(p) == []
  {
    assert SkipSlashes(p) == SkipSlashes(p[1..]) == "";
  }

  /** The walk of a path is the walk of its parent and one step more. */
  lemma WalkToName(t: Tree, path: string)
    requires RootIsDir(t) && Walked(path) && |NameOf(path)| <= NAME_MAX
    ensures Resolve(t, path) ==
      if Resolve(t, ParentOf(path)).Ok? then Walk(t, Resolve(t, ParentOf(path)).value, LastNames(path))
      else Resolve(t, ParentOf(path))
  {
    ParentAndName(path);
    WalkConcat(t, [0], Components(ParentOf(path)), LastNames(path));
    if ParentOf(path) == "/" { RootHasNoComponents("/"); }
  }

  // ---------------------------------------------------------------------------------------------
  // One entry more or less
  // ---------------------------------------------------------------------------------------------

  /** The inodes that a walk comes to, step by step. */
  function Visited(t: Tree, trail: seq<nat>, names: seq<string>): set<nat>
    decreases |names|
  {
    if names == [] || trail == [] || trail[|trail| - 1] >= |t.nodes| then {}
    else match Step(t, trail, names[0])
      case Ok(next) => (if next == [] then {} else {next[|next| - 1]}) + Visited(t, next, names[1..])
      case Err(_) => {}
  }

  /** The lookup of a path comes through an inode on its way. */
  predicate GoesThrough(t: Tree, path: string, ino: nat) { Walked(path) && ino in Visited(t, [0], Components(path)) }

  /** b is a with one entry more, the only one of its inode; a may lack the inode. */
  ghost predicate OneMore(a: Tree, b: Tree, dir: nat, n: string, ino: nat) {
    && 0 < |a.nodes| <= |b.nodes| && ino < |b.nodes| && dir < |a.nodes| && ino > 0 && a.nodes[0].isDir
    && (forall i | 0 <= i < |a.nodes| :: a.nodes[i].isDir == b.nodes[i].isDir)
    && (forall i | 0 <= i < |a.nodes| && i != dir :: a.nodes[i].names == b.nodes[i].names)
    && n !in a.nodes[dir].names && b.nodes[dir].names == a.nodes[dir].names[n := ino]
    && (forall i, m | 0 <= i < |a.nodes| && m in a.nodes[i].names :: Elsewhere(a, i, m, ino))
  }

  predicate Elsewhere(a: Tree, i: nat, m: string, ino: nat)
    requires i < |a.nodes| && m in a.nodes[i].names
  {
    a.nodes[i].names[m] < |a.nodes| && a.nodes[i].names[m] != ino
  }

  predicate Clear(a: Tree, trail: seq<nat>, ino: nat) {
    trail != [] && forall i | 0 <= i < |trail| :: trail[i] < |a.nodes| && trail[i] != ino
  }

  /** One step: the new entry is taken, or the step is the same in both trees. */
  lemma StepDiffers(a: Tree, b: Tree, dir: nat, n: string, ino: nat, trail: seq<nat>, name: string)
    requires OneMore(a, b, dir, n, ino) && Clear(a, trail, ino)
    ensures Step(a, trail, name) == Step(b, trail, name) ||
      (Step(a, trail, name) == Err(FileNotFound) && Step(b, trail, name) == Ok(trail + [ino]))
    ensures Step(a, trail, name).Ok? ==> Clear(a, Step(a, trail, name).value, ino)
  {
    var i := trail[|trail| - 1];
    if name in a.nodes[i].names { assert Elsewhere(a, i, name, ino); }
  }

  /** A walk through the entry fails without it; any other walk is the same with and without it. */
  lemma {:induction false} WalkDiffers(a: Tree, b: Tree, dir: nat, n: string, ino: nat, trail: seq<nat>,
                                       names: seq<string>)
    requires OneMore(a, b, dir, n, ino) && Clear(a, trail, ino)
    ensures Walk(a, trail, names) ==
      if ino in Visited(b, trail, names) then Err(FileNotFound) else Walk(b, trail, names)
    decreases |names|
  {
    if names != [] {
      StepDiffers(a, b, dir, n, ino, trail, names[0]);
      if Step(a, trail, names[0]).Ok? {
        var next := Step(a, trail, names[0]).value;
        WalkDiffers(a, b, dir, n, ino, next, names[1..]);
      }
    }
  }

  /** So it is for paths. */
  lemma PathDiffers(a: Tree, b: Tree, dir: nat, n: string, ino: nat, path: string)
    requires OneMore(a, b, dir, n, ino)
    ensures Resolve(a, path) == if GoesThrough(b, path, ino) then Err(FileNotFound) else Resolve(b, path)
    ensures Resolve(a, path).Ok? ==> Clear(a, Resolve(a, path).value, ino)
  {
    if Walked(path) {
      WalkDiffers(a, b, dir, n, ino, [0], Components(path));
      ClearWalk(a, b, dir, n, ino, [0], Components(path));
    }
  }

  lemma {:induction false} ClearWalk(a: Tree, b: Tree, dir: nat, n: string, ino: nat, trail: seq<nat>,
                                     names: seq<string>)
    requires OneMore(a, b, dir, n, ino) && Clear(a, trail, ino)
    ensures Walk(a, trail, names).Ok? ==> Clear(a, Walk(a, trail, names).value, ino)
    decreases |names|
  {
    if names != [] {
      StepDiffers(a, b, dir, n, ino, trail, names[0]);
      if Step(a, trail, names[0]).Ok? {
        ClearWalk(a, b, dir, n, ino, Step(a, trail, names[0]).value, names[1..]);
      }
    }
  }

  lemma NodeDiffers(a: Tree, b: Tree, dir: nat, n: string, ino: nat, path: string)
    requires OneMore(a, b, dir, n, ino)
    ensures NodeAt(a, path) == if GoesThrough(b, path, ino) then Err(FileNotFound) else NodeAt(b, path)
  {
    PathDiffers(a, b, dir, n, ino, path);
  }

  // ---------------------------------------------------------------------------------------------
  // Creating
  // ---------------------------------------------------------------------------------------------

  lemma AddedOneMore(t: Tree, home: map<nat, Place>, dir: nat, n: string, isDir: bool)
    requires TreeOk(t, home) && dir < |t.nodes| && AddNode(t, dir, n, isDir).1.Ok?
    ensures OneMore(t, AddNode(t, dir, n, isDir).0, dir, n, |t.nodes|)
  {
    forall i, m | 0 <= i < |t.nodes| && m in t.nodes[i].names ensures Elsewhere(t, i, m, |t.nodes|) {
      assert Entered(t, home, i, m);
    }
  }

  /**
  t' is t with a new, empty inode of that kind at the end of the path: the path leads to it exactly if it is a
  proper one, every lookup that does not come through it is as before, and any that does failed before.
  */
  ghost predicate Enters(t: Tree, path: string, isDir: bool, t': Tree, ino: nat) {
    && ino == |t.nodes| && |t'.nodes| == ino + 1 && t'.nodes[ino].isDir == isDir && t'.nodes[ino].names == map[]
    && (forall i | 0 <= i < |t.nodes| :: t'.nodes[i].isDir == t.nodes[i].isDir)
    && (NodeAt(t', path) == Ok(ino) <==> Proper(path))
    && (forall q :: NodeAt(t, q) == if GoesThrough(t', q, ino) then Err(FileNotFound) else NodeAt(t', q))
    && (forall q | NodeAt(t, q).Ok? :: NodeAt(t', q) == NodeAt(t, q))
  }

  /** Where a path leads once its last name is an entry of the directory its parent leads to. */
  lemma PathToNew(t: Tree, t': Tree, path: string, dir: nat, ino: nat)
    requires OneMore(t, t', dir, NameOf(path), ino) && |NameOf(path)| <= NAME_MAX
    requires NodeAt(t, ParentOf(path)) == Ok(dir)
    requires t.nodes[dir].isDir
    ensures NodeAt(t', path) == Ok(ino) <==> Proper(path)
  {
    if Walked(path) {
      WalkToName(t', path);
      PathDiffers(t, t', dir, NameOf(path), ino, ParentOf(path));
      var trail := Resolve(t, ParentOf(path)).value;
      assert Resolve(t', ParentOf(path)) == Ok(trail) && Clear(t, trail, ino);
      if LastNames(path) != [] { WalkOne(t', trail, NameOf(path), []); }
    }
  }

  lemma AddedEnters(t: Tree, home: map<nat, Place>, path: string, dir: nat, isDir: bool)
    requires TreeOk(t, home) && NodeAt(t, ParentOf(path)) == Ok(dir) && t.nodes[dir].isDir && |NameOf(path)| <= NAME_MAX
    requires AddNode(t, dir, NameOf(path), isDir).1.Ok?
    ensures AddNode(t, dir, NameOf(path), isDir).1 == Ok(|t.nodes|)
    ensures Enters(t, path, isDir, AddNode(t, dir, NameOf(path), isDir).0, |t.nodes|)
  {
    var t', ino := AddNode(t, dir, NameOf(path), isDir).0, |t.nodes|;
    AddedOneMore(t, home, dir, NameOf(path), isDir);
    PathToNew(t, t', path, dir, ino);
    forall q ensures NodeAt(t, q) == if GoesThrough(t', q, ino) then Err(FileNotFound) else NodeAt(t', q) {
      NodeDiffers(t, t', dir, NameOf(path), ino, q);
    }
  }

  /** MkDir that succeeds makes an empty directory at the end of the path. */
  lemma MkDirMakesDirectory(t: Tree, home: map<nat, Place>, path: string)
    requires TreeOk(t, home) && MakeDir(t, path).1.Ok?
    ensures Enters(t, path, true, MakeDir(t, path).0, MakeDir(t, path).1.value)
  {
    AddedEnters(t, home, path, NodeAt(t, ParentOf(path)).value, true);
  }

  /** Open opens what the path leads to; with kOCreate, and if it leads nowhere, it makes an empty file there. */
  lemma OpenMakesFile(t: Tree, home: map<nat, Place>, path: string, create: bool, directory: bool)
    requires TreeOk(t, home) && OpenPath(t, path, create, directory).1.Ok?
    ensures var (t', r) := OpenPath(t, path, create, directory);
      && (directory ==> r.value < |t'.nodes| && t'.nodes[r.value].isDir)
      && if NodeAt(t, path).Ok? then t' == t && r == NodeAt(t, path)
         else create && Enters(t, path, false, t', r.value)
  {
    if NodeAt(t, path).Err? {
      AddedEnters(t, home, path, NodeAt(t, ParentOf(path)).value, false);
    }
  }

  /** Without kOCreate, Open works exactly on what the path leads to, a directory if kODirectory asks for one. */
  lemma OpenSucceedsIff(t: Tree, path: string, directory: bool)
    requires |path| < MAX_PATH
    ensures var (t', r) := OpenPath(t, path, false, directory);
      && t' == t
      && (r.Ok? <==> NodeAt(t, path).Ok? && (directory ==> t.nodes[NodeAt(t, path).value].isDir))
      && (r.Ok? ==> r == NodeAt(t, path))
      && (NodeAt(t, path).Err? ==> r == NodeAt(t, path))
  {
  }

  /** Nothing can be reached through a file. */
  lemma FileHasNoPaths(t: Tree, path: string, n: string)
    requires Walked(path) && '/' !in n && 0 < |n| <= NAME_MAX
    requires NodeAt(t, path).Ok? && !t.nodes[NodeAt(t, path).value].isDir
    ensures NodeAt(t, path + "/" + n) == Err(NotADirectory)
  {
    ComponentsAppend(path, n);
    WalkConcat(t, [0], Components(path), [n]);
    WalkOne(t, Resolve(t, path).value, n, []);
  }

  /** There is an inode and, if its array of entries is full, space for a larger one. */
  predicate RoomIn(t: Tree, dir: nat)
    requires dir < |t.nodes|
  {
    var node := t.nodes[dir];
    && |t.nodes| < MAX_INODES
    && (|node.names| < node.capacity || t.poolUsed + GrownCapacity(node.capacity) * ENTRY_BYTES <= DIR_POOL_BYTES)
  }

  /** Where a proper path leads if its parent leads to a directory. */
  lemma LeadsIffEntered(t: Tree, home: map<nat, Place>, path: string)
    requires TreeOk(t, home) && Proper(path) && |NameOf(path)| <= NAME_MAX
    ensures NodeAt(t, path).Ok? <==>
      && NodeAt(t, ParentOf(path)).Ok? && t.nodes[NodeAt(t, ParentOf(path)).value].isDir
      && NameOf(path) in t.nodes[NodeAt(t, ParentOf(path)).value].names
    ensures NodeAt(t, path).Ok? ==>
      NodeAt(t, path).value == t.nodes[NodeAt(t, ParentOf(path)).value].names[NameOf(path)]
  {
    WalkToName(t, path);
    if Resolve(t, ParentOf(path)).Ok? {
      var trail := Resolve(t, ParentOf(path)).value;
      StaysInTree(t, home, ParentOf(path));
      WalkOne(t, trail, NameOf(path), []);
      var dir := trail[|trail| - 1];
      if NameOf(path) in t.nodes[dir].names { assert Entered(t, home, dir, NameOf(path)); }
    }
  }

  lemma StaysInTree(t: Tree, home: map<nat, Place>, path: string)
    requires TreeOk(t, home)
    ensures Resolve(t, path).Ok? ==> Resolve(t, path).value != [] && NodeAt(t, path).Ok?
  {
    if Walked(path) && Resolve(t, path).Ok? {
      WalkStays(t, home, [0], Components(path));
    }
  }

  /** The parent path and the name fit, and the parent leads to a directory. */
  predicate HasDirectory(t: Tree, path: string) {
    !LongParts(path) && NodeAt(t, ParentOf(path)).Ok? && t.nodes[NodeAt(t, ParentOf(path)).value].isDir
  }

  /** MkDir of a proper path: it exists already exactly if it leads somewhere, and works exactly if there is room. */
  lemma MkDirSucceedsIff(t: Tree, home: map<nat, Place>, path: string)
    requires TreeOk(t, home) && Proper(path)
    ensures MakeDir(t, path).1 == Err(FileExists) <==> HasDirectory(t, path) && NodeAt(t, path).Ok?
    ensures MakeDir(t, path).1.Ok? <==>
      HasDirectory(t, path) && NodeAt(t, path).Err? && RoomIn(t, NodeAt(t, ParentOf(path)).value)
    ensures MakeDir(t, path).1 == Err(OutOfMemory) <==>
      HasDirectory(t, path) && NodeAt(t, path).Err? && !RoomIn(t, NodeAt(t, ParentOf(path)).value)
    ensures MakeDir(t, path).1 == Err(InvalidPath) <==> LongParts(path)
    ensures !LongParts(path) && NodeAt(t, ParentOf(path)).Err? ==>
      MakeDir(t, path).1 == Err(NodeAt(t, ParentOf(path)).error)
    ensures MakeDir(t, path).1.Err? ==> MakeDir(t, path).0 == t
  {
    if !LongParts(path) {
      LeadsIffEntered(t, home, path);
      if NodeAt(t, ParentOf(path)).Err? { LookupErrors(t, ParentOf(path)); }
    }
  }

  /** A lookup fails for one of three reasons. */
  lemma LookupErrors(t: Tree, path: string)
    requires NodeAt(t, path).Err?
    ensures NodeAt(t, path).error in {InvalidArgument, FileNotFound, NotADirectory}
  {
    if Walked(path) { WalkErrors(t, [0], Components(path)); }
  }

  lemma {:induction false} WalkErrors(t: Tree, trail: seq<nat>, names: seq<string>)
    ensures Walk(t, trail, names).Err? ==> Walk(t, trail, names).error in {FileNotFound, NotADirectory}
    decreases |names|
  {
    if names != [] && trail != [] && trail[|trail| - 1] < |t.nodes| && Step(t, trail, names[0]).Ok? {
      WalkErrors(t, Step(t, trail, names[0]).value, names[1..]);
    }
  }

  // ---------------------------------------------------------------------------------------------
  // Removing
  // ---------------------------------------------------------------------------------------------

  lemma DroppedOneMore(t: Tree, home: map<nat, Place>, dir: nat, n: string)
    requires TreeOk(t, home) && dir < |t.nodes| && n in t.nodes[dir].names
    ensures OneMore(DropName(t, dir, n), t, dir, n, t.nodes[dir].names[n])
  {
    var t', ino := DropName(t, dir, n), t.nodes[dir].names[n];
    assert Entered(t, home, dir, n);
    forall i, m | 0 <= i < |t'.nodes| && m in t'.nodes[i].names ensures Elsewhere(t', i, m, ino) {
      assert m in t.nodes[i].names && Entered(t, home, i, m);
    }
  }

  /** A path whose parent and name Unlink and RmDir act on as they are. */
  predicate ActedOn(path: string) { Proper(path) && |NameOf(path)| <= NAME_MAX && CutIsIdle(path) }

  /**
  What Unlink and RmDir remove was of the right kind and empty; after it every lookup that came through it finds
  nothing, every other one is as before, and the inodes are what they were.
  */
  lemma RemovesLeaf(t: Tree, home: map<nat, Place>, path: string, isDir: bool)
    requires TreeOk(t, home) && RemovePath(t, path, isDir).1.Ok?
    ensures var (t', r) := RemovePath(t, path, isDir);
      && r.value < |t.nodes| == |t'.nodes| && t.nodes[r.value].isDir == isDir && t.nodes[r.value].names == map[]
      && (forall i | 0 <= i < |t.nodes| :: t'.nodes[i].isDir == t.nodes[i].isDir)
      && (forall q :: NodeAt(t', q) == if GoesThrough(t, q, r.value) then Err(FileNotFound) else NodeAt(t, q))
      && (ActedOn(path) ==> NodeAt(t, path) == r && NodeAt(t', path) == Err(FileNotFound))
  {
    var (t', r) := RemovePath(t, path, isDir);
    var dir, n, ino := NodeAt(t, CutParent(path)).value, Truncate(NameOf(path), NAME_MAX), r.value;
    DroppedOneMore(t, home, dir, n);
    assert t.nodes[ino].names == map[] by { FilesAreEmpty(t, home, ino); }
    forall q ensures NodeAt(t', q) == if GoesThrough(t, q, ino) then Err(FileNotFound) else NodeAt(t, q) {
      NodeDiffers(t', t, dir, n, ino, q);
    }
    if ActedOn(path) {
      IdleCut(t, path);
      assert Entered(t, home, dir, n);
      LeadsIffEntered(t, home, path);
      PathDiffers(t', t, dir, n, ino, path);
    }
  }

  lemma FilesAreEmpty(t: Tree, home: map<nat, Place>, i: nat)
    requires TreeOk(t, home) && i < |t.nodes|
    ensures !t.nodes[i].isDir ==> t.nodes[i].names == map[]
  {
    forall n | n in t.nodes[i].names ensures t.nodes[i].isDir {
      assert Entered(t, home, i, n);
    }
    assert t.nodes[i].names == map[] || exists n :: n in t.nodes[i].names;
  }

  /**
  Unlink and RmDir of such a path: they work exactly on what the path leads to, if it is of the right
  kind and empty.
  */
  lemma RemoveSucceedsIff(t: Tree, home: map<nat, Place>, path: string, isDir: bool)
    requires TreeOk(t, home) && ActedOn(path)
    ensures RemovePath(t, path, isDir).1.Ok? <==>
      && NodeAt(t, path).Ok? && t.nodes[NodeAt(t, path).value].isDir == isDir
      && t.nodes[NodeAt(t, path).value].names == map[]
    ensures RemovePath(t, path, isDir).1 == Err(NotEmpty) <==>
      && isDir && NodeAt(t, path).Ok? && t.nodes[NodeAt(t, path).value].isDir
      && t.nodes[NodeAt(t, path).value].names != map[]
    ensures RemovePath(t, path, isDir).1 == Err(IsADirectory) <==>
      !isDir && NodeAt(t, path).Ok? && t.nodes[NodeAt(t, path).value].isDir
    ensures isDir && NodeAt(t, path).Ok? && !t.nodes[NodeAt(t, path).value].isDir ==>
      RemovePath(t, path, isDir).1 == Err(NotADirectory)
    ensures RemovePath(t, path, isDir).1.Err? ==> RemovePath(t, path, isDir).0 == t
  {
    IdleCut(t, path);
    LeadsIffEntered(t, home, path);
    if NodeAt(t, ParentOf(path)).Err? {
      LookupErrors(t, ParentOf(path));
    } else {
      var dir := NodeAt(t, ParentOf(path)).value;
      FilesAreEmpty(t, home, dir);
      if NameOf(path) in t.nodes[dir].names {
        assert Entered(t, home, dir, NameOf(path));
        FilesAreEmpty(t, home, t.nodes[dir].names[NameOf(path)]);
      }
    }
  }

  /** RmDir undoes MkDir: after both, every path leads where it led before. */
  lemma RmDirUndoesMkDir(t: Tree, home: map<nat, Place>, path: string)
    requires TreeOk(t, home) && MakeDir(t, path).1.Ok?
    ensures var (t1, made) := MakeDir(t, path);
      var (t2, gone) := RemovePath(t1, path, true);
      gone == made && forall q :: NodeAt(t2, q) == NodeAt(t, q)
  {
    var (t1, made) := MakeDir(t, path);
    var dir, ino := NodeAt(t, ParentOf(path)).value, made.value;
    MkDirMakesDirectory(t, home, path);
    AddNodeKeeps(t, home, dir, NameOf(path), true);
    assert NodeAt(t1, ParentOf(path)) == Ok(dir);
    RemovesLeaf(t1, home[ino := Place(dir, NameOf(path))], path, true);
  }

  /** Unlink undoes the creation of a file. */
  lemma UnlinkUndoesCreate(t: Tree, home: map<nat, Place>, path: string)
    requires TreeOk(t, home) && NodeAt(t, path).Err? && OpenPath(t, path, true, false).1.Ok?
    ensures var (t1, made) := OpenPath(t, path, true, false);
      var (t2, gone) := RemovePath(t1, path, false);
      gone == made && forall q :: NodeAt(t2, q) == NodeAt(t, q)
  {
    var (t1, made) := OpenPath(t, path, true, false);
    var dir, ino := NodeAt(t, ParentOf(path)).value, made.value;
    OpenMakesFile(t, home, path, true, false);
    AddNodeKeeps(t, home, dir, NameOf(path), false);
    assert NodeAt(t1, ParentOf(path)) == Ok(dir);
    RemovesLeaf(t1, home[ino := Place(dir, NameOf(path))], path, false);
  }

  // ---------------------------------------------------------------------------------------------
  // Dot-dot, and runs
  // ---------------------------------------------------------------------------------------------

  /** A path, a name that leads on to a directory, and "..": back where the path led. */
  lemma DotDotGoesBack(t: Tree, home: map<nat, Place>, path: string, n: string)
    requires TreeOk(t, home) && Walked(path) && '/' !in n && 0 < |n| <= NAME_MAX && !IsDots(n)
    requires NodeAt(t, path + "/" + n).Ok? && t.nodes[NodeAt(t, path + "/" + n).value].isDir
    ensures NodeAt(t, path + "/" + n + "/..") == NodeAt(t, path) && NodeAt(t, path).Ok?
  {
    ComponentsAppend(path, n);
    ComponentsAppend(path + "/" + n, "..");
    assert path + "/" + n + "/.." == path + "/" + n + "/" + "..";
    WalkConcat(t, [0], Components(path), [n]);
    WalkConcat(t, [0], Components(path) + [n], [".."]);
    StaysInTree(t, home, path);
    var trail := Resolve(t, path).value;
    WalkOne(t, trail, n, []);
    WalkOne(t, Step(t, trail, n).value, "..", []);
  }

  lemma {:induction false} RunIsWellFormed(ops: seq<Op>)
    ensures WellFormed(PlainRun(FreshTree, ops).0)
  {
    if ops == [] {
      FreshIsWellFormed();
    } else {
      RunIsWellFormed(ops[..|ops| - 1]);
      OpKeepsWellFormed(PlainRun(FreshTree, ops[..|ops| - 1]).0, ops[|ops| - 1]);
    }
  }

  /** What every operation keeps, so that the above holds at every point of every run. */
  lemma OpKeepsWellFormed(t: Tree, op: Op)
    requires WellFormed(t)
    ensures WellFormed(PlainOp(t, op).0)
  {
    if op.UnlinkFile? || op.RemoveDirectory? {
      RemovalKeeps(t, op.path, op.RemoveDirectory?);
    } else if op.MakeDirectory? {
      if MakeDir(t, op.path).0 != t { CreationKeeps(t, op.path, true); }
    } else if op.OpenFile? {
      if OpenPath(t, op.path, op.create, op.directory).0 != t { CreationKeeps(t, op.path, false); }
    }
  }

  lemma RemovalKeeps(t: Tree, path: string, isDir: bool)
    requires WellFormed(t)
    ensures WellFormed(RemovePath(t, path, isDir).0)
  {
    if RemovePath(t, path, isDir).1.Ok? {
      var home :| TreeOk(t, home);
      DropNameKeeps(t, home, NodeAt(t, CutParent(path)).value, Truncate(NameOf(path), NAME_MAX));
    }
  }

  lemma CreationKeeps(t: Tree, path: string, isDir: bool)
    requires WellFormed(t) && !LongParts(path) && NodeAt(t, ParentOf(path)).Ok?
    requires AddNode(t, NodeAt(t, ParentOf(path)).value, NameOf(path), isDir).1.Ok?
    ensures WellFormed(AddNode(t, NodeAt(t, ParentOf(path)).value, NameOf(path), isDir).0)
  {
    var home :| TreeOk(t, home);
    AddNodeKeeps(t, home, NodeAt(t, ParentOf(path)).value, NameOf(path), isDir);
  }
}
