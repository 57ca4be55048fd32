/**
The file tree without any cache: directories are maps from names to inodes, and every path is
walked from the root. This is what the dentry cache and the entry arrays have to agree with.
*/
module PlainFs {
  import opened KernelConfig
  import opened Paths

  const DIR_POOL_BYTES: nat := 256 * 1024
  /** sizeof(RamDirEntry): 256 bytes of name and a pointer. */
  const ENTRY_BYTES: nat := 264
  const MAX_PATH: nat := 4096
  const PARENT_MAX: nat := 511

  datatype Error =
    | FileNotFound | NotADirectory | IsADirectory | FileExists | NotEmpty | OutOfMemory | InvalidPath | InvalidArgument

  datatype Result<T> = Ok(value: T) | Err(error: Error)

  /** capacity: for how many entries the directory has room. */
  datatype Node = Node(isDir: bool, names: map<string, nat>, capacity: nat)

  /** Inode 0 is the root; poolUsed counts the bytes given out for directory arrays. */
  datatype Tree = Tree(nodes: seq<Node>, poolUsed: nat)

  const FreshTree: Tree := Tree([Node(true, map[], 0)], 0)

  /** The one place where an inode is entered. */
  datatype Place = Place(dir: nat, name: string)

  /** Every inode is entered at most once, the root nowhere, and only directories have entries. */
  ghost predicate TreeOk(t: Tree, home: map<nat, Place>) {
    && |t.nodes| > 0 && t.nodes[0].isDir
    && (forall i, n | 0 <= i < |t.nodes| && n in t.nodes[i].names :: Entered(t, home, i, n))
  }

  ghost predicate Entered(t: Tree, home: map<nat, Place>, i: nat, n: string)
    requires i < |t.nodes| && n in t.nodes[i].names
  {
    var c := t.nodes[i].names[n];
    0 < c < |t.nodes| && c in home && home[c] == Place(i, n) && t.nodes[i].isDir
  }

  // ---------------------------------------------------------------------------------------------
  // Walking
  // ---------------------------------------------------------------------------------------------

  /** One component from the end of a trail of inodes; the parent of the root is the root. */
  function Step(t: Tree, trail: seq<nat>, name: string): (r: Result<seq<nat>>)
    requires |trail| > 0 && trail[|trail| - 1] < |t.nodes|
  {
    var node := t.nodes[trail[|trail| - 1]];
    if !node.isDir then Err(NotADirectory)
    else if name == "." then Ok(trail)
    else if name == ".." then Ok(if |trail| > 1 then trail[..|trail| - 1] else trail)
    else if name in node.names then Ok(trail + [node.names[name]])
    else Err(FileNotFound)
  }

  function Walk(t: Tree, trail: seq<nat>, names: seq<string>): Result<seq<nat>>
    decreases |names|
  {
    if names == [] then Ok(trail)
    else if trail == [] || trail[|trail| - 1] >= |t.nodes| then Err(FileNotFound)
    else match Step(t, trail, names[0])
      case Ok(next) => Walk(t, next, names[1..])
      case Err(e) => Err(e)
  }

  lemma WalkOne(t: Tree, trail: seq<nat>, name: string, rest: seq<string>)
    requires |trail| > 0 && trail[|trail| - 1] < |t.nodes|
    ensures Step(t, trail, name).Ok? ==> Walk(t, trail, [name] + rest) == Walk(t, Step(t, trail, name).value, rest)
    ensures Step(t, trail, name).Err? ==> Walk(t, trail, [name] + rest) == Err(Step(t, trail, name).error)
  {
    assert ([name] + rest)[1..] == rest;
  }

  /** The trail of inodes that a path leads along. */
  function Resolve(t: Tree, path: string): Result<seq<nat>> {
    if path == "" || path[0] != '/' then Err(InvalidArgument)
    else if |path| == 1 || path[1] == '/' then Ok([0])
    else Walk(t, [0], Components(path))
  }

  // ---------------------------------------------------------------------------------------------
  // Changing
  // ---------------------------------------------------------------------------------------------

  function GrownCapacity(capacity: nat): nat { if capacity == 0 then 16 else capacity * 2 }

  /** RamFs Create: a new inode under a name of a directory. */
  function AddNode(t: Tree, dir: nat, name: string, isDir: bool): (r: (Tree, Result<nat>))
    requires dir < |t.nodes|
    ensures r.1.Err? ==> r.0 == t
  {
    var node := t.nodes[dir];
    var grow := |node.names| >= node.capacity;
    var bytes := if grow then GrownCapacity(node.capacity) * ENTRY_BYTES else 0;
    if |t.nodes| >= MAX_INODES then (t, Err(OutOfMemory))
    else if !node.isDir then (t, Err(NotADirectory))
    else if name in node.names then (t, Err(FileExists))
    else if grow && t.poolUsed + bytes > DIR_POOL_BYTES then (t, Err(OutOfMemory))
    else
      var ino := |t.nodes|;
      var node' := Node(true, node.names[name := ino], if grow then GrownCapacity(node.capacity) else node.capacity);
      (Tree(t.nodes[dir := node'] + [Node(isDir, map[], 0)], t.poolUsed + bytes), Ok(ino))
  }

  function DropName(t: Tree, dir: nat, name: string): Tree
    requires dir < |t.nodes|
  {
    t.(nodes := t.nodes[dir := t.nodes[dir].(names := t.nodes[dir].names - {name})])
  }

  /** The inode at the end of a path. */
  function NodeAt(t: Tree, path: string): (r: Result<nat>)
    ensures r.Ok? ==> r.value < |t.nodes|
  {
    match Resolve(t, path)
    case Ok(trail) =>
      if trail != [] && trail[|trail| - 1] < |t.nodes| then Ok(trail[|trail| - 1]) else Err(FileNotFound)
    case Err(e) => Err(e)
  }

  /** The parent path or the name does not fit its buffer. */
  predicate LongParts(path: string) { |ParentOf(path)| > PARENT_MAX || |NameOf(path)| > NAME_MAX }

  function Truncate(s: string, max: nat): string { if |s| > max then s[..max] else s }

  /** The inode at the end of a path, created as a regular file if need be. */
  function FindOrCreate(t: Tree, path: string, create: bool): (r: (Tree, Result<nat>))
    ensures r.1.Ok? ==> r.1.value < |r.0.nodes|
  {
    if NodeAt(t, path).Ok? || !create then (t, NodeAt(t, path))
    else if LongParts(path) then (t, Err(InvalidPath))
    else match NodeAt(t, ParentOf(path))
      case Err(e) => (t, Err(e))
      case Ok(dir) => if !t.nodes[dir].isDir then (t, Err(NotADirectory)) else AddNode(t, dir, NameOf(path), false)
  }

  /** Open with or without kOCreate and kODirectory: the inode it opens. */
  function OpenPath(t: Tree, path: string, create: bool, directory: bool): (Tree, Result<nat>) {
    if |path| >= MAX_PATH then (t, Err(InvalidPath))
    else
      var (t', r) := FindOrCreate(t, path, create);
      if r.Ok? && directory && !t'.nodes[r.value].isDir then (t', Err(NotADirectory)) else (t', r)
  }

  function MakeDir(t: Tree, path: string): (Tree, Result<nat>) {
    if LongParts(path) then (t, Err(InvalidPath))
    else match NodeAt(t, ParentOf(path))
      case Err(e) => (t, Err(e))
      case Ok(dir) =>
        if !t.nodes[dir].isDir then (t, Err(NotADirectory))
        else if NameOf(path) in t.nodes[dir].names then (t, Err(FileExists))
        else AddNode(t, dir, NameOf(path), true)
  }

  /** Unlink and RmDir cut overlong parts instead of refusing them. */
  function RemovePath(t: Tree, path: string, isDir: bool): (Tree, Result<nat>) {
    var name := Truncate(NameOf(path), NAME_MAX);
    match NodeAt(t, Truncate(ParentOf(path), PARENT_MAX))
    case Err(e) => (t, Err(e))
    case Ok(dir) => RemoveName(t, dir, name, isDir)
  }

  function RemoveName(t: Tree, dir: nat, name: string, isDir: bool): (Tree, Result<nat>)
    requires dir < |t.nodes|
  {
    if name !in t.nodes[dir].names || t.nodes[dir].names[name] >= |t.nodes| then (t, Err(FileNotFound))
    else
      var ino := t.nodes[dir].names[name];
      if !isDir && t.nodes[ino].isDir then (t, Err(IsADirectory))
      else if isDir && !t.nodes[ino].isDir then (t, Err(NotADirectory))
      else if isDir && t.nodes[ino].names != map[] then (t, Err(NotEmpty))
      else (DropName(t, dir, name), Ok(ino))
  }

  // ---------------------------------------------------------------------------------------------
  // Runs
  // ---------------------------------------------------------------------------------------------

  datatype Op =
    | LookUp(path: string) | OpenFile(path: string, create: bool, directory: bool)
    | MakeDirectory(path: string) | UnlinkFile(path: string) | RemoveDirectory(path: string)

  function PlainOp(t: Tree, op: Op): (Tree, Result<nat>) {
    match op
    case LookUp(path) => (t, NodeAt(t, path))
    case OpenFile(path, create, directory) => OpenPath(t, path, create, directory)
    case MakeDirectory(path) => MakeDir(t, path)
    case UnlinkFile(path) => RemovePath(t, path, false)
    case RemoveDirectory(path) => RemovePath(t, path, true)
  }

  /** The tree after a run, and the result of every call. */
  function PlainRun(t: Tree, ops: seq<Op>): (Tree, seq<Result<nat>>) {
    if ops == [] then (t, [])
    else
      var (t1, rs) := PlainRun(t, ops[..|ops| - 1]);
      var (t2, r) := PlainOp(t1, ops[|ops| - 1]);
      (t2, rs + [r])
  }

  // ---------------------------------------------------------------------------------------------
  // What the changes keep
  // ---------------------------------------------------------------------------------------------

  lemma AddNodeKeeps(t: Tree, home: map<nat, Place>, dir: nat, name: string, isDir: bool)
    requires TreeOk(t, home) && dir < |t.nodes| && AddNode(t, dir, name, isDir).1.Ok?
    ensures TreeOk(AddNode(t, dir, name, isDir).0, home[|t.nodes| := Place(dir, name)])
  {
    var t', home' := AddNode(t, dir, name, isDir).0, home[|t.nodes| := Place(dir, name)];
    forall i, n | 0 <= i < |t'.nodes| && n in t'.nodes[i].names ensures Entered(t', home', i, n) {
      if i == dir && n == name {
      } else {
        assert n in t.nodes[i].names && Entered(t, home, i, n);
      }
    }
  }

  lemma DropNameKeeps(t: Tree, home: map<nat, Place>, dir: nat, name: string)
    requires TreeOk(t, home) && dir < |t.nodes|
    ensures TreeOk(DropName(t, dir, name), home)
  {
    var t' := DropName(t, dir, name);
    forall i, n | 0 <= i < |t'.nodes| && n in t'.nodes[i].names ensures Entered(t', home, i, n) {
      assert n in t.nodes[i].names && Entered(t, home, i, n);
    }
  }
}
