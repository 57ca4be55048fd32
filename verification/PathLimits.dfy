/**
Where path handling departs from the plain reading of a path: doubled slashes at the start, names that
do not fit a component buffer, and the cut that Unlink and RmDir make to parents and names.
*/
module PathLimits {
  import opened Paths
  import opened PlainFs

  /** A tree that can exist: every inode entered once, and no name longer than an entry can hold. */
  ghost predicate WellFormed(t: Tree) { (exists home :: TreeOk(t, home)) && ShortEntries(t) }

  ghost predicate ShortEntries(t: Tree) {
    forall i, n | 0 <= i < |t.nodes| && n in t.nodes[i].names :: |n| <= NAME_MAX
  }

  predicate AllDirs(t: Tree) { forall i | 0 <= i < |t.nodes| :: t.nodes[i].isDir }

  predicate RootIsDir(t: Tree) { |t.nodes| > 0 && t.nodes[0].isDir }

  // ---------------------------------------------------------------------------------------------
  // Walks
  // ---------------------------------------------------------------------------------------------

  lemma {:induction false} WalkConcat(t: Tree, trail: seq<nat>, a: seq<string>, b: seq<string>)
    ensures Walk(t, trail, a + b) ==
      if Walk(t, trail, a).Ok? then Walk(t, Walk(t, trail, a).value, b) else Walk(t, trail, a)
    decreases |a|
  {
    if a == [] {
      assert a + b == b;
    } else {
      assert (a + b)[1..] == a[1..] + b;
      if trail != [] && trail[|trail| - 1] < |t.nodes| && Step(t, trail, a[0]).Ok? {
        WalkConcat(t, Step(t, trail, a[0]).value, a[1..], b);
      }
    }
  }

  predicate IsDots(name: string) { name == "." || name == ".." }

  /** Names that never leave the root. */
  predicate OnlyDots(names: seq<string>) { forall k | 0 <= k < |names| :: IsDots(names[k]) }

  predicate NoDots(names: seq<string>) { forall k | 0 <= k < |names| :: !IsDots(names[k]) }

  lemma {:induction false} DotsStay(t: Tree, names: seq<string>)
    requires RootIsDir(t) && OnlyDots(names)
    ensures Walk(t, [0], names) == Ok([0])
    decreases |names|
  {
    if names != [] {
      DotsStay(t, names[1..]);
      assert IsDots(names[0]) && Step(t, [0], names[0]) == Ok([0]);
    }
  }

  /** In an empty tree any other name is not found. */
  lemma {:induction false} NamesFail(names: seq<string>)
    requires !OnlyDots(names)
    ensures Walk(FreshTree, [0], names) == Err(FileNotFound)
    decreases |names|
  {
    if IsDots(names[0]) {
      var k :| 0 <= k < |names| && !IsDots(names[k]);
      assert names[1..][k - 1] == names[k];
      NamesFail(names[1..]);
      assert Step(FreshTree, [0], names[0]) == Ok([0]);
    }
  }

  /** No walk gets past a name that is longer than any entry. */
  lemma {:induction false} LongNamesFail(t: Tree, trail: seq<nat>, names: seq<string>)
    requires ShortEntries(t) && !ShortNames(names)
    ensures Walk(t, trail, names).Err?
    decreases |names|
  {
    if trail != [] && trail[|trail| - 1] < |t.nodes| && Step(t, trail, names[0]).Ok? {
      assert |names[0]| <= NAME_MAX;
      ShortCons(names[0], names[1..]);
      assert names == [names[0]] + names[1..];
      LongNamesFail(t, Step(t, trail, names[0]).value, names[1..]);
    }
  }

  /** Where everything is a directory, a walk can fail for a missing name only. */
  lemma {:induction false} DirsFailByName(t: Tree, trail: seq<nat>, names: seq<string>)
    requires AllDirs(t) && Walk(t, trail, names).Err?
    ensures Walk(t, trail, names) == Err(FileNotFound)
    decreases |names|
  {
    if trail != [] && trail[|trail| - 1] < |t.nodes| && Step(t, trail, names[0]).Ok? {
      DirsFailByName(t, Step(t, trail, names[0]).value, names[1..]);
    }
  }

  // ---------------------------------------------------------------------------------------------
  // Trees in which given names lead somewhere
  // ---------------------------------------------------------------------------------------------

  /** A new directory under a new name. */
  function Grown(t: Tree, dir: nat, name: string): Tree
    requires dir < |t.nodes|
  {
    var node := t.nodes[dir].(names := t.nodes[dir].names[name := |t.nodes|]);
    t.(nodes := t.nodes[dir := node] + [Node(true, map[], 0)])
  }

  ghost predicate Plot(t: Tree, home: map<nat, Place>) { TreeOk(t, home) && ShortEntries(t) && AllDirs(t) }

  lemma GrownKeeps(t: Tree, home: map<nat, Place>, dir: nat, name: string)
    requires Plot(t, home) && dir < |t.nodes| && name !in t.nodes[dir].names && |name| <= NAME_MAX
    ensures Plot(Grown(t, dir, name), home[|t.nodes| := Place(dir, name)])
  {
    var t', home' := Grown(t, dir, name), home[|t.nodes| := Place(dir, name)];
    forall i, n | 0 <= i < |t'.nodes| && n in t'.nodes[i].names ensures Entered(t', home', i, n) && |n| <= NAME_MAX {
      if i != dir || n != name {
        assert n in t.nodes[i].names && Entered(t, home, i, n);
      }
    }
  }

  lemma {:induction false} GrownWalk(t: Tree, dir: nat, name: string, trail: seq<nat>, names: seq<string>)
    requires dir < |t.nodes| && name !in t.nodes[dir].names && Walk(t, trail, names).Ok?
    ensures Walk(Grown(t, dir, name), trail, names) == Walk(t, trail, names)
    decreases |names|
  {
    if names != [] {
      GrownWalk(t, dir, name, Step(t, trail, names[0]).value, names[1..]);
    }
  }

  lemma {:induction false} WalkStays(t: Tree, home: map<nat, Place>, trail: seq<nat>, names: seq<string>)
    requires TreeOk(t, home) && trail != [] && (forall i | 0 <= i < |trail| :: trail[i] < |t.nodes|)
    requires Walk(t, trail, names).Ok?
    ensures var r := Walk(t, trail, names).value; r != [] && forall i | 0 <= i < |r| :: r[i] < |t.nodes|
    decreases |names|
  {
    if names != [] {
      var node := t.nodes[trail[|trail| - 1]];
      if names[0] in node.names { assert Entered(t, home, trail[|trail| - 1], names[0]); }
      WalkStays(t, home, Step(t, trail, names[0]).value, names[1..]);
    }
  }

  /** For any names there is a tree in which they lead somewhere. */
  lemma {:induction false} Plant(names: seq<string>) returns (t: Tree, home: map<nat, Place>)
    requires ShortNames(names)
    ensures Plot(t, home) && Walk(t, [0], names).Ok?
  {
    if names == [] {
      t, home := FreshTree, map[];
      return;
    }
    var before, name := names[..|names| - 1], names[|names| - 1];
    t, home := Plant(before);
    WalkStays(t, home, [0], before);
    var trail := Walk(t, [0], before).value;
    var dir := trail[|trail| - 1];
    if Step(t, trail, name).Err? {
      GrownKeeps(t, home, dir, name);
      GrownWalk(t, dir, name, [0], before);
      t, home := Grown(t, dir, name), home[|t.nodes| := Place(dir, name)];
    }
    assert names == before + [name];
    WalkConcat(t, [0], before, [name]);
    WalkOne(t, trail, name, []);
  }

  // ---------------------------------------------------------------------------------------------
  // Resolution and the plain walk
  // ---------------------------------------------------------------------------------------------

  /** A path is resolved as the plain walk over its names. */
  ghost predicate ResolvesPlainly(path: string) {
    forall t | WellFormed(t) :: Resolve(t, path) == Walk(t, [0], Split(path))
  }

  lemma FreshIsWellFormed()
    ensures WellFormed(FreshTree)
  {
    assert TreeOk(FreshTree, map[]);
  }

  /**
  A rooted path is resolved as the plain walk, on every tree, if and only if no name is longer than a
  component buffer or, should it start with two slashes, it names nothing but the root.
  */
  lemma ResolveIsPlainWalkIff(path: string)
    requires path != "" && path[0] == '/'
    ensures ResolvesPlainly(path) <==>
      if |path| > 1 && path[1] == '/' then OnlyDots(Split(path)) else ShortNames(Split(path))
  {
    if |path| == 1 {
      RootHasNoNames(path);
    }
    if |path| > 1 && path[1] == '/' {
      if OnlyDots(Split(path)) {
        forall t | WellFormed(t) ensures Resolve(t, path) == Walk(t, [0], Split(path)) {
          DotsStay(t, Split(path));
        }
      } else {
        NamesFail(Split(path));
        FreshIsWellFormed();
        assert Resolve(FreshTree, path) == Ok([0]);
      }
    } else if ShortNames(Split(path)) {
      forall t | WellFormed(t) ensures Resolve(t, path) == Walk(t, [0], Split(path)) {
        ResolveIsPlainWalk(t, path);
      }
    } else {
      LongNamesResolve(path);
    }
  }

  /** A path with an overlong name leads somewhere in some tree that cannot hold the name. */
  lemma LongNamesResolve(path: string)
    requires |path| > 1 && path[0] == '/' && path[1] != '/' && !ShortNames(Split(path))
    ensures !ResolvesPlainly(path)
  {
    ComponentsAreShort(path);
    var t, home := Plant(Components(path));
    LongNamesFail(t, [0], Split(path));
    assert WellFormed(t) && Resolve(t, path) != Walk(t, [0], Split(path));
  }

  lemma ResolveIsPlainWalk(t: Tree, path: string)
    requires path != "" && path[0] == '/' && (|path| > 1 ==> path[1] != '/') && ShortNames(Split(path))
    ensures Resolve(t, path) == Walk(t, [0], Split(path))
  {
    ComponentsAreSplit(path);
    if |path| == 1 {
      RootHasNoNames(path);
    }
  }

  lemma RootHasNoNames(path: string)
    requires path == "/"
    ensures Split(path) == []
  {
    assert SkipSlashes(path) == SkipSlashes(path[1..]) == "";
  }

  /** On an empty tree "//a" resolves to the root, although there is no such file. */
  lemma DoubledSlash()
    ensures Resolve(FreshTree, "//a") == Ok([0]) && Walk(FreshTree, [0], Split("//a")) == Err(FileNotFound)
  {
    var p := "//a";
    assert p[1..] == "/a" && "/a"[1..] == "a" && SkipSlashes(p) == "a";
    assert TakeName("a", 1) == "a" by { assert "a"[1..] == ""; }
    assert Split(p)[0] == "a";
    NamesFail(Split(p));
  }

  // ---------------------------------------------------------------------------------------------
  // What Unlink and RmDir remove
  // ---------------------------------------------------------------------------------------------

  /** What the caller asked for: the given name leaves the directory that the given parent leads to. */
  function RemoveGiven(t: Tree, path: string, isDir: bool): (Tree, Result<nat>) {
    match NodeAt(t, ParentOf(path))
    case Err(e) => (t, Err(e))
    case Ok(dir) => RemoveName(t, dir, NameOf(path), isDir)
  }

  ghost predicate RemovesGiven(path: string) {
    forall t, isDir | WellFormed(t) :: RemovePath(t, path, isDir) == RemoveGiven(t, path, isDir)
  }

  /** A file whose name fills its buffer is removed under any longer name, which no directory holds. */
  lemma LongNameRemovesFile(name: string, tail: string)
    requires |name| == NAME_MAX && tail != "" && '/' !in name + tail
    ensures var (t, r) := PlainOp(FreshTree, OpenFile("/" + name, true, false));
      && WellFormed(t) && r == Ok(1) && name + tail !in t.nodes[0].names
      && PlainOp(t, UnlinkFile("/" + name + tail)).1 == Ok(1)
      && name !in PlainOp(t, UnlinkFile("/" + name + tail)).0.nodes[0].names
      && RemoveGiven(t, "/" + name + tail, false) == (t, Err(FileNotFound))
  {
    NotYetThere(name);
    InRoot(name);
    var t := OneFile(name);
    assert AddNode(FreshTree, 0, name, false).0.nodes == t.nodes;
    assert NodeAt(FreshTree, "/") == Ok(0);
    assert PlainOp(FreshTree, OpenFile("/" + name, true, false)) == (t, Ok(1));
    assert TreeOk(t, map[1 := Place(0, name)]);
    RemovedFromRoot(name, tail);
  }

  /** What creating a file on an empty tree leaves. */
  function OneFile(name: string): Tree {
    Tree([Node(true, map[name := 1], 16), Node(false, map[], 0)], 16 * ENTRY_BYTES)
  }

  lemma RemovedFromRoot(name: string, tail: string)
    requires |name| == NAME_MAX && tail != "" && '/' !in name + tail
    ensures RemovePath(OneFile(name), "/" + name + tail, false) == (DropName(OneFile(name), 0, name), Ok(1))
    ensures RemoveGiven(OneFile(name), "/" + name + tail, false) == (OneFile(name), Err(FileNotFound))
  {
    assert "/" + name + tail == "/" + (name + tail);
    InRoot(name + tail);
    assert (name + tail)[..NAME_MAX] == name;
    assert NodeAt(OneFile(name), "/") == Ok(0);
  }

  lemma InRoot(name: string)
    requires '/' !in name
    ensures ParentOf("/" + name) == "/" && NameOf("/" + name) == name
  {
    assert ("/" + name)[1..] == name;
    LastSlashOfOne("/" + name);
  }

  lemma NotYetThere(name: string)
    requires |name| == NAME_MAX && '/' !in name
    ensures NodeAt(FreshTree, "/" + name).Err?
  {
    var p := "/" + name;
    assert p[1..] == name && p[1] == name[0] && name[0] in name;
    assert SkipSlashes(p) == name;
    TakeAll(name, NAME_MAX);
    assert Components(p)[0] == name && !IsDots(name);
    NamesFail(Components(p));
  }

  /** A parent as the lookup sees it when it is cut to its buffer. */
  function CutParent(path: string): string { Truncate(ParentOf(path), PARENT_MAX) }

  /** The parent is one that Resolve takes apart into names. */
  predicate Walked(parent: string) { |parent| > 1 && parent[0] == '/' && parent[1] != '/' }

  /** Cutting the parent takes nothing off that the lookup would follow. */
  predicate CutIsIdle(path: string) {
    || !Walked(ParentOf(path))
    || Components(CutParent(path)) == Components(ParentOf(path))
    || OnlyDots(Components(ParentOf(path)))
  }

  /** What the lookup of a cut parent and of the whole one have in common. */
  lemma CutParentLooks(path: string)
    ensures CutParent(path) != "" && CutParent(path)[0] == ParentOf(path)[0]
    ensures Walked(CutParent(path)) <==> Walked(ParentOf(path))
    ensures exists k :: CutOf(Components(CutParent(path)), Components(ParentOf(path)), k)
  {
    var p := ParentOf(path);
    var m := if |p| > PARENT_MAX then PARENT_MAX else |p|;
    assert p[..m] == CutParent(path);
    var k := CutComponents(p, m);
    assert CutOf(Components(CutParent(path)), Components(p), k);
  }

  lemma CutDots(a: seq<string>, b: seq<string>, k: nat)
    requires CutOf(a, b, k) && OnlyDots(b)
    ensures OnlyDots(a)
  {
    forall i | 0 <= i < |a| ensures IsDots(a[i]) {
      if i == k {
        assert IsDots(b[k]) && a[k] == b[k][..|a[k]|];
      } else {
        assert a[i] == a[..k][i] == b[..k][i];
        assert IsDots(b[i]);
      }
    }
  }

  /** An idle cut leads to the same directory, or to the same error, on every tree. */
  lemma IdleCut(t: Tree, path: string)
    requires RootIsDir(t) && CutIsIdle(path)
    ensures NodeAt(t, CutParent(path)) == NodeAt(t, ParentOf(path))
  {
    CutParentLooks(path);
    if Walked(ParentOf(path)) && OnlyDots(Components(ParentOf(path))) {
      var k :| CutOf(Components(CutParent(path)), Components(ParentOf(path)), k);
      CutDots(Components(CutParent(path)), Components(ParentOf(path)), k);
      DotsStay(t, Components(CutParent(path)));
      DotsStay(t, Components(ParentOf(path)));
    }
  }

  /** For any names and one more there is a tree in which the last one is an entry where the others lead. */
  lemma PlantUnder(names: seq<string>, name: string) returns (t: Tree, home: map<nat, Place>)
    requires ShortNames(names) && |name| <= NAME_MAX && !IsDots(name)
    ensures Plot(t, home) && Walk(t, [0], names).Ok?
    ensures var trail := Walk(t, [0], names).value;
      trail != [] && trail[|trail| - 1] < |t.nodes| && name in t.nodes[trail[|trail| - 1]].names
  {
    t, home := Plant(names + [name]);
    WalkConcat(t, [0], names, [name]);
    WalkStays(t, home, [0], names);
    WalkOne(t, Walk(t, [0], names).value, name, []);
  }

  /** There is a tree in which the cut name is an entry where the cut parent leads. */
  lemma PlantCut(path: string) returns (t: Tree, home: map<nat, Place>, dir: nat)
    requires ParentOf(path)[0] == '/' && |NameOf(path)| > NAME_MAX
    ensures Plot(t, home) && NodeAt(t, CutParent(path)) == Ok(dir)
    ensures Truncate(NameOf(path), NAME_MAX) in t.nodes[dir].names
  {
    CutParentLooks(path);
    t, home, dir := PlantAt(CutParent(path), Truncate(NameOf(path), NAME_MAX));
  }

  /** For any rooted path and name there is a tree in which the name is an entry where the path leads. */
  lemma PlantAt(path: string, name: string) returns (t: Tree, home: map<nat, Place>, dir: nat)
    requires path != "" && path[0] == '/' && |name| <= NAME_MAX && !IsDots(name)
    ensures Plot(t, home) && NodeAt(t, path) == Ok(dir) && name in t.nodes[dir].names
  {
    ComponentsAreShort(path);
    var names := if Walked(path) then Components(path) else [];
    t, home := PlantUnder(names, name);
    var trail := Walk(t, [0], names).value;
    dir := trail[|trail| - 1];
  }

  /** An overlong name under a rooted parent: in some tree something else goes than what was given. */
  lemma LongNameMisses(path: string)
    requires ParentOf(path)[0] == '/' && |NameOf(path)| > NAME_MAX
    ensures !RemovesGiven(path)
  {
    var t, home, dir := PlantCut(path);
    FoundUnder(t, home, path, dir);
    GivenIsMissing(t, path);
    assert WellFormed(t) && RemovePath(t, path, false) != RemoveGiven(t, path, false);
  }

  lemma FoundUnder(t: Tree, home: map<nat, Place>, path: string, dir: nat)
    requires TreeOk(t, home) && NodeAt(t, CutParent(path)) == Ok(dir)
    requires Truncate(NameOf(path), NAME_MAX) in t.nodes[dir].names
    ensures RemovePath(t, path, false).1 != Err(FileNotFound)
  {
    assert Entered(t, home, dir, Truncate(NameOf(path), NAME_MAX));
  }

  /** Where everything is a directory with short names, an overlong name is not found, whatever its parent. */
  lemma GivenIsMissing(t: Tree, path: string)
    requires AllDirs(t) && ShortEntries(t) && ParentOf(path)[0] == '/' && |NameOf(path)| > NAME_MAX
    ensures RemoveGiven(t, path, false).1 == Err(FileNotFound)
  {
    var p := ParentOf(path);
    if Walked(p) && Walk(t, [0], Components(p)).Err? {
      DirsFailByName(t, [0], Components(p));
    }
  }

  // Chains of directories -------------------------------------------------------------------------

  /** One directory inside the other, along the given names; the last one is empty. */
  function Chain(names: seq<string>): Tree {
    Tree(seq(|names| + 1, i requires 0 <= i => Node(true, if i < |names| then map[names[i] := i + 1] else map[], 0)), 0)
  }

  lemma {:induction false} ChainIsPlot(names: seq<string>) returns (home: map<nat, Place>)
    requires ShortNames(names)
    ensures Plot(Chain(names), home)
  {
    if names == [] {
      return map[];
    }
    var n := |names| - 1;
    home := ChainIsPlot(names[..n]);
    GrownKeeps(Chain(names[..n]), home, n, names[n]);
    home := home[n + 1 := Place(n, names[n])];
    assert Chain(names) == Grown(Chain(names[..n]), n, names[n]);
  }

  function UpTo(n: nat): seq<nat> { seq(n + 1, i requires 0 <= i => i) }

  /** The names lead down the chain, up to the last ones. */
  lemma {:induction false} DownTheChain(names: seq<string>, k: nat)
    requires k <= |names| && NoDots(names[..k])
    ensures Walk(Chain(names), [0], names[..k]) == Ok(UpTo(k))
  {
    if k == 0 {
      assert UpTo(0) == [0];
    } else {
      assert names[..k][..k - 1] == names[..k - 1] && names[..k] == names[..k - 1] + [names[k - 1]];
      DownTheChain(names, k - 1);
      WalkConcat(Chain(names), [0], names[..k - 1], [names[k - 1]]);
      WalkOne(Chain(names), UpTo(k - 1), names[k - 1], []);
      assert names[..k][k - 1] == names[k - 1];
      assert UpTo(k - 1) + [k] == UpTo(k);
    }
  }

  /** A cut that takes names off does not lead as far down. */
  lemma CutStopsEarly(names: seq<string>, a: seq<string>, b: seq<string>, k: nat)
    requires CutOf(a, b, k) && a != b && NoDots(b) && |b| < |names| && b == names[..|b|]
    ensures var r := Walk(Chain(names), [0], a);
      r == Err(FileNotFound) || (r.Ok? && r.value != [] && r.value[|r.value| - 1] < |b|)
  {
    var t := Chain(names);
    assert b[..k] == names[..k];
    DownTheChain(names, k);
    if a != b[..k] {
      assert a == a[..k] + [a[k]];
      WalkConcat(t, [0], a[..k], [a[k]]);
      WalkOne(t, UpTo(k), a[k], []);
      if a[k] == b[k] {
        assert a == b[..k + 1];
        DownTheChain(names, k + 1);
      }
    }
  }

  /** The last name of the chain is found where the ones before it lead, and is an empty directory. */
  lemma GivenIsRemoved(t: Tree, path: string)
    requires Walked(ParentOf(path)) && NoDots(Components(ParentOf(path)))
    requires t == Chain(Components(ParentOf(path)) + [NameOf(path)])
    ensures RemoveGiven(t, path, true).1.Ok?
  {
    var b := Components(ParentOf(path));
    var names := b + [NameOf(path)];
    assert b == names[..|b|];
    DownTheChain(names, |b|);
  }

  /** Further up the chain there is no such name or it is not empty. */
  lemma CutFindsNothing(t: Tree, path: string, k: nat)
    requires Walked(CutParent(path)) && NoDots(Components(ParentOf(path))) && |NameOf(path)| <= NAME_MAX
    requires Components(CutParent(path)) != Components(ParentOf(path))
    requires CutOf(Components(CutParent(path)), Components(ParentOf(path)), k)
    requires t == Chain(Components(ParentOf(path)) + [NameOf(path)])
    ensures RemovePath(t, path, true).1.Err?
  {
    var a, b := Components(CutParent(path)), Components(ParentOf(path));
    var names := b + [NameOf(path)];
    assert b == names[..|b|];
    CutStopsEarly(names, a, b, k);
    if NodeAt(t, CutParent(path)).Ok? {
      var dir := NodeAt(t, CutParent(path)).value;
      assert t.nodes[dir].names == map[names[dir] := dir + 1] && names[dir + 1] in t.nodes[dir + 1].names;
    }
  }

  lemma CutMisses(path: string)
    requires Walked(ParentOf(path)) && NoDots(Components(ParentOf(path))) && |NameOf(path)| <= NAME_MAX
    requires Components(CutParent(path)) != Components(ParentOf(path))
    ensures !RemovesGiven(path)
  {
    var t := Chain(Components(ParentOf(path)) + [NameOf(path)]);
    CutParentLooks(path);
    ComponentsAreShort(ParentOf(path));
    var home := ChainIsPlot(Components(ParentOf(path)) + [NameOf(path)]);
    GivenIsRemoved(t, path);
    var k :| CutOf(Components(CutParent(path)), Components(ParentOf(path)), k);
    CutFindsNothing(t, path, k);
    assert WellFormed(t) && RemovePath(t, path, true) != RemoveGiven(t, path, true);
  }

  /** Behind one dot another changes nothing on any tree, so taking it off is idle although a component is gone. */
  lemma DotAgain(t: Tree, trail: seq<nat>, names: seq<string>)
    ensures Walk(t, trail, names + ["."] + ["."]) == Walk(t, trail, names + ["."])
  {
    WalkConcat(t, trail, names + ["."], ["."]);
    WalkConcat(t, trail, names, ["."]);
    if Walk(t, trail, names).Ok? {
      assert Walk(t, trail, names + ["."]).Ok? ==>
        Walk(t, trail, names + ["."]).value == Walk(t, trail, names).value;
    }
  }

  /**
  Unlink and RmDir remove what was given, on every tree, if the name fits its buffer and the cut takes
  nothing off the parent that a lookup would follow; an overlong name under a rooted parent always
  goes wrong on some tree, and so does every other cut of a parent without dots.
  */
  lemma RemovesGivenIff(path: string)
    ensures RemovesGiven(path) <== ParentOf(path)[0] != '/' || (|NameOf(path)| <= NAME_MAX && CutIsIdle(path))
    ensures NoDots(Components(ParentOf(path))) || OnlyDots(Components(ParentOf(path))) || |NameOf(path)| > NAME_MAX ==>
      (RemovesGiven(path) <==> ParentOf(path)[0] != '/' || (|NameOf(path)| <= NAME_MAX && CutIsIdle(path)))
  {
    CutParentLooks(path);
    if ParentOf(path)[0] != '/' {
    } else if |NameOf(path)| > NAME_MAX {
      LongNameMisses(path);
    } else if CutIsIdle(path) {
      forall t, isDir | WellFormed(t) ensures RemovePath(t, path, isDir) == RemoveGiven(t, path, isDir) {
        IdleCut(t, path);
      }
    } else if NoDots(Components(ParentOf(path))) {
      CutMisses(path);
    }
  }
}
