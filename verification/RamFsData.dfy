/**
File data of RamFs: every file is a window of one byte pool that a bump allocator hands out. The
windows behave like a map from files to byte sequences.
*/
module RamFsData {
  import opened Arith
  import opened KernelConfig

  const FILE_POOL_BYTES: nat := 1024 * 1024
  const FILE_BLOCK: nat := 256
  const POOL_ALIGN: nat := 16

  newtype Byte = x: int | 0 <= x < 256

  /** data: where the window starts in the pool; no window is as good as an empty one. */
  datatype FileNode = FileNode(data: nat, capacity: nat, size: nat)

  function RoundUp(n: nat, step: nat): (r: nat)
    requires step > 0
    ensures n <= r < n + step && r % step == 0
  {
    var q := (n + step - 1) / step;
    Multiple(q, step);
    assert n + step - 1 == q * step + (n + step - 1) % step;
    q * step
  }

  lemma Multiple(q: nat, step: nat)
    requires step > 0
    ensures (q * step) % step == 0
  {
    DivModUnique(q * step, step, q, 0);
  }

  // ---------------------------------------------------------------------------------------------
  // What reading and writing mean
  // ---------------------------------------------------------------------------------------------

  function Zeros(n: nat): seq<Byte> { seq(n, i => 0) }

  /** A write past the end leaves a hole of zeros, and so does an empty write. */
  function Padded(c: seq<Byte>, n: nat): seq<Byte> { if n <= |c| then c else c + Zeros(n - |c|) }

  function Written(c: seq<Byte>, offset: nat, buf: seq<Byte>): seq<Byte> {
    var p := Padded(c, offset + |buf|);
    p[..offset] + buf + p[offset + |buf|..]
  }

  function ReadAt(c: seq<Byte>, offset: nat, count: nat): seq<Byte> {
    if offset >= |c| then [] else if count < |c| - offset then c[offset..offset + count] else c[offset..]
  }

  /** A read gives the bytes from the offset, as many as were asked for and are there. */
  lemma ReadIsSlice(c: seq<Byte>, offset: nat, count: nat)
    ensures var r := ReadAt(c, offset, count);
      && (offset + count <= |c| ==> |r| == count)
      && (offset <= |c| < offset + count ==> |r| == |c| - offset)
      && (offset > |c| ==> r == [])
      && forall k | 0 <= k < |r| :: offset + k < |c| && r[k] == c[offset + k]
  {
  }

  /** What was written is read back; other bytes are as before; what was never written reads as zero. */
  lemma WriteThenRead(c: seq<Byte>, offset: nat, buf: seq<Byte>)
    ensures ReadAt(Written(c, offset, buf), offset, |buf|) == buf
    ensures var w := Written(c, offset, buf);
      && |w| == (if offset + |buf| > |c| then offset + |buf| else |c|)
      && (forall k | 0 <= k < |c| && !(offset <= k < offset + |buf|) :: w[k] == c[k])
      && (forall k | |c| <= k < offset :: w[k] == 0)
  {
  }

  /** The files without a pool: their bytes, what they may grow to in place, and the bytes handed out. */
  datatype Store = Store(files: seq<seq<Byte>>, capacity: seq<nat>, used: nat)

  datatype Result<T> = Ok(value: T) | OutOfMemory

  function Capacity(size: nat): nat { RoundUp(size, FILE_BLOCK) }

  /** A new empty file; the inode table also holds the root directory. */
  function PlainCreate(s: Store): (Store, Result<nat>) {
    if |s.files| + 1 >= MAX_INODES then (s, OutOfMemory)
    else (Store(s.files + [[]], s.capacity + [0], s.used), Ok(|s.files|))
  }

  /** The same files, one of which may grow to this size in place. */
  function Expanded(s: Store, i: nat, size: nat): Store
    requires i < |s.capacity|
  {
    Store(s.files, s.capacity[i := Capacity(size)], s.used + RoundUp(Capacity(size), POOL_ALIGN))
  }

  function PlainWrite(s: Store, i: nat, offset: nat, buf: seq<Byte>): (Store, Result<nat>)
    requires i < |s.files| == |s.capacity|
  {
    var end := offset + |buf|;
    var grow := end > s.capacity[i];
    var bytes := RoundUp(Capacity(end), POOL_ALIGN);
    if grow && s.used + bytes > FILE_POOL_BYTES then (s, OutOfMemory)
    else (Store(s.files[i := Written(s.files[i], offset, buf)],
                if grow then s.capacity[i := Capacity(end)] else s.capacity,
                if grow then s.used + bytes else s.used), Ok(|buf|))
  }

  // ---------------------------------------------------------------------------------------------
  // Windows of a pool
  // ---------------------------------------------------------------------------------------------

  predicate Inside(f: FileNode, used: nat) { f.size <= f.capacity && f.data + f.capacity <= used }

  predicate Apart(f: FileNode, g: FileNode) {
    f.capacity == 0 || g.capacity == 0 || f.data + f.capacity <= g.data || g.data + g.capacity <= f.data
  }

  function Content(p: seq<Byte>, f: FileNode): seq<Byte>
    requires Inside(f, |p|)
  {
    p[f.data..f.data + f.size]
  }

  /** Behind the end of the file its window holds zeros. */
  predicate ZeroTail(p: seq<Byte>, f: FileNode)
    requires Inside(f, |p|)
  {
    forall k | f.data + f.size <= k < f.data + f.capacity :: p[k] == 0
  }

  predicate ZeroFrom(p: seq<Byte>, used: nat) { forall k | used <= k < |p| :: p[k] == 0 }

  function Patch(p: seq<Byte>, a: nat, b: seq<Byte>): (r: seq<Byte>)
    requires a + |b| <= |p|
    ensures |r| == |p|
    ensures forall k | 0 <= k < |p| :: r[k] == if a <= k < a + |b| then b[k - a] else p[k]
  {
    p[..a] + b + p[a + |b|..]
  }

  function Grown(f: FileNode, end: nat): FileNode { if end > f.size then f.(size := end) else f }

  /** Writing into the window writes into the file. */
  lemma PatchWrites(p: seq<Byte>, f: FileNode, offset: nat, b: seq<Byte>)
    requires Inside(f, |p|) && ZeroTail(p, f) && offset + |b| <= f.capacity
    ensures var p', f' := Patch(p, f.data + offset, b), Grown(f, offset + |b|);
      Inside(f', |p'|) && ZeroTail(p', f') && Content(p', f') == Written(Content(p, f), offset, b)
  {
    var p', f' := Patch(p, f.data + offset, b), Grown(f, offset + |b|);
    var c, w := Content(p', f'), Written(Content(p, f), offset, b);
    assert |c| == |w|;
    forall k | 0 <= k < |c| ensures c[k] == w[k] {
      assert c[k] == p'[f.data + k];
    }
  }

  /** A window that the written bytes are outside of does not change. */
  lemma PatchElsewhere(p: seq<Byte>, g: FileNode, a: nat, b: seq<Byte>)
    requires Inside(g, |p|) && a + |b| <= |p|
    requires (b == [] || g.capacity == 0 || a + |b| <= g.data || g.data + g.capacity <= a)
    ensures Content(Patch(p, a, b), g) == Content(p, g)
    ensures ZeroTail(p, g) ==> ZeroTail(Patch(p, a, b), g)
  {
  }

  /** Copying a file into a fresh window keeps its bytes. */
  lemma MoveKeeps(p: seq<Byte>, f: FileNode, data: nat, capacity: nat)
    requires Inside(f, |p|) && f.data + f.capacity <= data && ZeroFrom(p, data) && f.size <= capacity
    requires data + capacity <= |p|
    ensures var p', f' := Patch(p, data, Content(p, f)), FileNode(data, capacity, f.size);
      Inside(f', |p'|) && ZeroTail(p', f') && Content(p', f') == Content(p, f)
  {
  }

  // ---------------------------------------------------------------------------------------------
  // All files of a pool
  // ---------------------------------------------------------------------------------------------

  ghost predicate WindowOk(p: seq<Byte>, f: FileNode, used: nat) { Inside(f, used) && used <= |p| && ZeroTail(p, f) }

  /** Windows lie in the used part and apart from each other; the unused part is zero. */
  ghost predicate PoolOk(p: seq<Byte>, files: seq<FileNode>, used: nat) {
    && used <= |p| && ZeroFrom(p, used)
    && (forall i | 0 <= i < |files| :: WindowOk(p, files[i], used))
    && (forall i, j | 0 <= i < |files| && 0 <= j < |files| && i != j :: Apart(files[i], files[j]))
  }

  /** The pool holds the files of the store. */
  ghost predicate Shows(p: seq<Byte>, files: seq<FileNode>, used: nat, s: Store) {
    && |s.files| == |s.capacity| == |files| && s.used == used
    && (forall i | 0 <= i < |files| :: ShowsFile(p, files[i], s.files[i], s.capacity[i]))
  }

  ghost predicate ShowsFile(p: seq<Byte>, f: FileNode, c: seq<Byte>, capacity: nat) {
    Inside(f, |p|) && Content(p, f) == c && f.capacity == capacity
  }

  /** Both, bound so that only proofs that name the parts look inside. */
  ghost predicate PoolShows(p: seq<Byte>, files: seq<FileNode>, used: nat, s: Store) {
    forall q | q == p :: PoolOk(q, files, used) && Shows(q, files, used, s)
  }

  lemma ShownSizes(p: seq<Byte>, files: seq<FileNode>, used: nat, s: Store)
    requires PoolShows(p, files, used, s)
    ensures |s.files| == |s.capacity| == |files| && s.used == used
  {
    assert Shows(p, files, used, s);
  }

  lemma ShownFile(p: seq<Byte>, files: seq<FileNode>, used: nat, s: Store, i: nat)
    requires PoolShows(p, files, used, s) && i < |files|
    ensures i < |s.files| == |s.capacity| == |files| && s.used == used
    ensures WindowOk(p, files[i], used) && ShowsFile(p, files[i], s.files[i], s.capacity[i])
  {
    assert PoolOk(p, files, used) && Shows(p, files, used, s);
  }

  /** A write within the capacity of a file changes that file only. */
  lemma WriteInPlace(p: seq<Byte>, files: seq<FileNode>, used: nat, s: Store, i: nat, offset: nat, b: seq<Byte>)
    requires PoolShows(p, files, used, s) && i < |files| && offset + |b| <= files[i].capacity
    ensures i < |s.files| && files[i].data + offset + |b| <= |p|
    ensures var p', files' := Patch(p, files[i].data + offset, b), files[i := Grown(files[i], offset + |b|)];
      PoolShows(p', files', used, s.(files := s.files[i := Written(s.files[i], offset, b)]))
  {
    ShownFile(p, files, used, s, i);
    FileWritten(p, files[i], used, s.files[i], s.capacity[i], offset, b);
    OtherFilesKept(p, files, used, s, i, files[i].data + offset, b);
    OneFileChanged(p, Patch(p, files[i].data + offset, b), files, used, s, i, Grown(files[i], offset + |b|),
                   Written(s.files[i], offset, b));
  }

  lemma FileWritten(p: seq<Byte>, f: FileNode, used: nat, c: seq<Byte>, capacity: nat, offset: nat, b: seq<Byte>)
    requires WindowOk(p, f, used) && ShowsFile(p, f, c, capacity) && offset + |b| <= f.capacity
    ensures WindowOk(Patch(p, f.data + offset, b), Grown(f, offset + |b|), used)
    ensures ShowsFile(Patch(p, f.data + offset, b), Grown(f, offset + |b|), Written(c, offset, b), capacity)
  {
    PatchWrites(p, f, offset, b);
  }

  /** Every file but i is where and what it was. */
  ghost predicate OthersShown(p: seq<Byte>, files: seq<FileNode>, used: nat, s: Store, i: nat) {
    && |s.files| == |s.capacity| == |files| && ZeroFrom(p, used)
    && (forall j | 0 <= j < |files| && j != i ::
        WindowOk(p, files[j], used) && ShowsFile(p, files[j], s.files[j], s.capacity[j]))
  }

  lemma OneFileChanged(p: seq<Byte>, p': seq<Byte>, files: seq<FileNode>, used: nat, s: Store, i: nat, f: FileNode,
                       c: seq<Byte>)
    requires PoolShows(p, files, used, s) && |p'| == |p| && i < |files| && OthersShown(p', files, used, s, i)
    requires f.data == files[i].data && f.capacity == files[i].capacity && WindowOk(p', f, used)
    requires ShowsFile(p', f, c, s.capacity[i])
    ensures PoolShows(p', files[i := f], used, s.(files := s.files[i := c]))
  {
    assert PoolOk(p, files, used) && Shows(p, files, used, s);
    var files' := files[i := f];
    forall j, k | 0 <= j < |files'| && 0 <= k < |files'| && j != k ensures Apart(files'[j], files'[k]) {
      assert Apart(files[j], files[k]);
    }
  }

  lemma OtherFilesKept(p: seq<Byte>, files: seq<FileNode>, used: nat, s: Store, i: nat, a: nat, b: seq<Byte>)
    requires PoolShows(p, files, used, s) && i < |files| && used <= |p|
    requires files[i].data <= a && a + |b| <= files[i].data + files[i].capacity <= used
    ensures OthersShown(Patch(p, a, b), files, used, s, i)
  {
    assert PoolOk(p, files, used) && Shows(p, files, used, s);
    forall j | 0 <= j < |files| && j != i
      ensures WindowOk(Patch(p, a, b), files[j], used) && ShowsFile(Patch(p, a, b), files[j], s.files[j], s.capacity[j])
    {
      assert WindowOk(p, files[j], used) && Apart(files[i], files[j]);
      assert ShowsFile(p, files[j], s.files[j], s.capacity[j]);
      PatchElsewhere(p, files[j], a, b);
    }
  }

  /** Moving a file to a fresh window changes no file. */
  lemma MoveToFresh(p: seq<Byte>, files: seq<FileNode>, used: nat, s: Store, i: nat, capacity: nat, bytes: nat)
    requires PoolShows(p, files, used, s) && i < |files|
    requires files[i].size <= capacity <= bytes && used + bytes <= |p|
    ensures i < |s.capacity| && WindowOk(p, files[i], used)
    ensures var p', files' := Patch(p, used, Content(p, files[i])), files[i := FileNode(used, capacity, files[i].size)];
      PoolShows(p', files', used + bytes, Store(s.files, s.capacity[i := capacity], used + bytes))
  {
    assert PoolOk(p, files, used) && Shows(p, files, used, s);
    var f, f' := files[i], FileNode(used, capacity, files[i].size);
    assert WindowOk(p, f, used) && ShowsFile(p, f, s.files[i], s.capacity[i]);
    var p', files' := Patch(p, used, Content(p, f)), files[i := f'];
    MoveKeeps(p, f, used, capacity);
    forall j | 0 <= j < |files'|
      ensures WindowOk(p', files'[j], used + bytes)
      ensures j != i ==> ShowsFile(p', files'[j], s.files[j], s.capacity[j]) && Apart(files'[j], f')
    {
      if j != i {
        assert WindowOk(p, files[j], used) && ShowsFile(p, files[j], s.files[j], s.capacity[j]);
        PatchElsewhere(p, files[j], used, Content(p, f));
      }
    }
  }

  lemma AddEmpty(p: seq<Byte>, files: seq<FileNode>, used: nat, s: Store)
    requires PoolShows(p, files, used, s)
    ensures PoolShows(p, files + [FileNode(0, 0, 0)], used, Store(s.files + [[]], s.capacity + [0], s.used))
  {
    assert PoolOk(p, files, used) && Shows(p, files, used, s);
    var files' := files + [FileNode(0, 0, 0)];
    forall j | 0 <= j < |files'| ensures WindowOk(p, files'[j], used) {
      if j < |files| { assert WindowOk(p, files[j], used); }
    }
    forall i, j | 0 <= i < |files'| && 0 <= j < |files'| && i != j ensures Apart(files'[i], files'[j]) {
      if i < |files| && j < |files| { assert Apart(files[i], files[j]); }
    }
  }
}
