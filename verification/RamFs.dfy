/** Reading and writing regular files of one RamFs mount; the pool starts zeroed. */
module RamFs {
  import opened KernelConfig
  import opened RamFsData

  datatype Op = Create | Read(file: nat, offset: nat, count: nat) | Write(file: nat, offset: nat, data: seq<Byte>)

  datatype Answer = Created(file: nat) | Bytes(data: seq<Byte>) | Count(n: nat) | Failed

  function PlainOp(s: Store, op: Op): (r: (Store, Answer))
    requires |s.files| == |s.capacity|
    ensures |r.0.files| == |r.0.capacity|
  {
    match op
    case Create => var (s', r) := PlainCreate(s); (s', if r.Ok? then Created(r.value) else Failed)
    case Read(i, offset, count) => (s, if i < |s.files| then Bytes(ReadAt(s.files[i], offset, count)) else Failed)
    case Write(i, offset, data) =>
      if i >= |s.files| then (s, Failed)
      else var (s', r) := PlainWrite(s, i, offset, data); (s', if r.Ok? then Count(r.value) else Failed)
  }

  /** The files after a run, and the answer to every call. */
  function PlainRun(s: Store, ops: seq<Op>): (r: (Store, seq<Answer>))
    requires |s.files| == |s.capacity|
    ensures |r.0.files| == |r.0.capacity|
  {
    if ops == [] then (s, [])
    else
      var (s1, answers) := PlainRun(s, ops[..|ops| - 1]);
      var (s2, a) := PlainOp(s1, ops[|ops| - 1]);
      (s2, answers + [a])
  }

  // ---------------------------------------------------------------------------------------------
  // What a run reads
  // ---------------------------------------------------------------------------------------------

  const Nothing: Store := Store([], [], 0)

  /** The files before operation k of a run from an empty mount, and what that operation answers. */
  function Before(ops: seq<Op>, k: nat): (s: Store)
    requires k <= |ops|
    ensures |s.files| == |s.capacity|
  {
    PlainRun(Nothing, ops[..k]).0
  }

  function AnswerTo(ops: seq<Op>, k: nat): Answer
    requires k < |ops|
  {
    PlainOp(Before(ops, k), ops[k]).1
  }

  lemma BeforeNext(ops: seq<Op>, k: nat)
    requires k < |ops|
    ensures Before(ops, k + 1) == PlainOp(Before(ops, k), ops[k]).0
  {
    assert ops[..k + 1][..k] == ops[..k];
  }

  lemma {:induction false} AsManyAnswers(s: Store, ops: seq<Op>)
    requires |s.files| == |s.capacity|
    ensures |PlainRun(s, ops).1| == |ops|
  {
    if ops != [] { AsManyAnswers(s, ops[..|ops| - 1]); }
  }

  lemma {:induction false} RunAnswers(ops: seq<Op>, k: nat)
    requires k < |ops|
    ensures |PlainRun(Nothing, ops).1| == |ops| && PlainRun(Nothing, ops).1[k] == AnswerTo(ops, k)
    decreases |ops|
  {
    var n := |ops| - 1;
    AsManyAnswers(Nothing, ops);
    AsManyAnswers(Nothing, ops[..n]);
    if k < n {
      RunAnswers(ops[..n], k);
      SameBefore(ops, n, k);
    }
  }

  lemma SameBefore(ops: seq<Op>, n: nat, k: nat)
    requires k < n <= |ops|
    ensures AnswerTo(ops[..n], k) == AnswerTo(ops, k)
  {
    assert ops[..n][..k] == ops[..k];
  }

  /** The file has these bytes at this offset. */
  predicate HasBytes(s: Store, file: nat, offset: nat, data: seq<Byte>) {
    file < |s.files| && offset + |data| <= |s.files[file]| && s.files[file][offset..offset + |data|] == data
  }

  /** The operation writes no byte of that range. */
  predicate Spares(op: Op, file: nat, offset: nat, count: nat) {
    op.Write? && op.file == file ==> op.offset + |op.data| <= offset || offset + count <= op.offset
  }

  lemma OpSpares(s: Store, op: Op, file: nat, offset: nat, data: seq<Byte>)
    requires |s.files| == |s.capacity| && HasBytes(s, file, offset, data) && Spares(op, file, offset, |data|)
    ensures HasBytes(PlainOp(s, op).0, file, offset, data)
  {
    var c, c' := s.files[file], PlainOp(s, op).0.files[file];
    if op.Write? && op.file == file {
      WriteThenRead(c, op.offset, op.data);
      var kept := c'[offset..offset + |data|];
      forall k | 0 <= k < |data| ensures kept[k] == data[k] {
        assert c[offset..offset + |data|][k] == c[offset + k] == c'[offset + k];
      }
    }
  }

  lemma {:induction false} BytesStay(ops: seq<Op>, i: nat, j: nat, file: nat, offset: nat, data: seq<Byte>)
    requires i <= j <= |ops| && HasBytes(Before(ops, i), file, offset, data)
    requires forall k | i <= k < j :: Spares(ops[k], file, offset, |data|)
    ensures HasBytes(Before(ops, j), file, offset, data)
    decreases j
  {
    if i < j {
      BytesStay(ops, i, j - 1, file, offset, data);
      OneMoreSpares(ops, j - 1, file, offset, data);
    }
  }

  lemma OneMoreSpares(ops: seq<Op>, k: nat, file: nat, offset: nat, data: seq<Byte>)
    requires k < |ops| && HasBytes(Before(ops, k), file, offset, data) && Spares(ops[k], file, offset, |data|)
    ensures HasBytes(Before(ops, k + 1), file, offset, data)
  {
    BeforeNext(ops, k);
    OpSpares(Before(ops, k), ops[k], file, offset, data);
  }

  /** In every run a read answers the bytes last written there, whatever happened to other files and ranges. */
  lemma LastWriteIsRead(ops: seq<Op>, i: nat, j: nat)
    requires i < j < |ops| && ops[i].Write? && AnswerTo(ops, i) != Failed
    requires forall k | i < k < j :: Spares(ops[k], ops[i].file, ops[i].offset, |ops[i].data|)
    requires ops[j] == Read(ops[i].file, ops[i].offset, |ops[i].data|)
    ensures AnswerTo(ops, i) == Count(|ops[i].data|) && AnswerTo(ops, j) == Bytes(ops[i].data)
    ensures j < |PlainRun(Nothing, ops).1| && PlainRun(Nothing, ops).1[j] == Bytes(ops[i].data)
  {
    BeforeNext(ops, i);
    WriteLeaves(Before(ops, i), ops[i]);
    BytesStay(ops, i + 1, j, ops[i].file, ops[i].offset, ops[i].data);
    HeldBytesAreRead(Before(ops, j), ops[i].file, ops[i].offset, ops[i].data);
    RunAnswers(ops, j);
  }

  lemma WriteLeaves(s: Store, op: Op)
    requires |s.files| == |s.capacity| && op.Write? && PlainOp(s, op).1 != Failed
    ensures PlainOp(s, op).1 == Count(|op.data|) && HasBytes(PlainOp(s, op).0, op.file, op.offset, op.data)
  {
    var w := Written(s.files[op.file], op.offset, op.data);
    WriteThenRead(s.files[op.file], op.offset, op.data);
    assert w[op.offset..op.offset + |op.data|] == op.data;
  }

  lemma HeldBytesAreRead(s: Store, file: nat, offset: nat, data: seq<Byte>)
    requires |s.files| == |s.capacity| && HasBytes(s, file, offset, data)
    ensures PlainOp(s, Read(file, offset, |data|)).1 == Bytes(data)
  {
    ReadIsSlice(s.files[file], offset, |data|);
  }

  class RamFs {
    const pool: array<Byte>
    var used: nat
    var files: seq<FileNode>
    ghost var store: Store

    ghost predicate Valid()
      reads this, pool
    {
      pool.Length == FILE_POOL_BYTES && PoolShows(pool[..], files, used, store)
    }

    constructor ()
      ensures Valid() && store == Nothing && fresh(pool)
    {
      pool := new Byte[FILE_POOL_BYTES](i => 0);
      used, files, store := 0, [], Nothing;
    }

    /** A new regular file is empty; the inode table bounds how many there are. */
    method CreateFile() returns (r: Result<nat>)
      requires Valid()
      modifies this`files, this`store
      ensures Valid() && (store, r) == PlainCreate(old(store))
    {
      ShownSizes(pool[..], files, used, store);
      if |files| + 1 >= MAX_INODES {
        return OutOfMemory;
      }
      AddEmpty(pool[..], files, used, store);
      r := Ok(|files|);
      files := files + [FileNode(0, 0, 0)];
      store := Store(store.files + [[]], store.capacity + [0], store.used);
    }

    /** Returns what a byte sequence would, and nothing at or behind the end. */
    method Read(i: nat, offset: nat, count: nat) returns (buf: seq<Byte>)
      requires Valid() && i < |files|
      ensures i < |store.files| && buf == ReadAt(store.files[i], offset, count)
    {
      var f := files[i];
      ShownFile(pool[..], files, used, store, i);
      if offset >= f.size {
        return [];
      }
      var available := f.size - offset;
      var toRead := if count < available then count else available;
      buf := pool[f.data + offset..f.data + offset + toRead];
      assert buf == pool[..][f.data + offset..f.data + offset + toRead];
      assert buf == Content(pool[..], f)[offset..offset + toRead];
    }

    /** memcpy into the pool. */
    method CopyIn(a: nat, b: seq<Byte>)
      requires a + |b| <= pool.Length
      modifies pool
      ensures pool[..] == Patch(old(pool[..]), a, b)
    {
      for k := 0 to |b|
        invariant forall j | 0 <= j < pool.Length :: pool[j] == if a <= j < a + k then b[j - a] else old(pool[j])
      {
        pool[a + k] := b[k];
      }
    }

    /** Moves a file to a larger window at the end of the pool; the old window is never used again. */
    method ExpandFile(i: nat, size: nat) returns (ok: bool)
      requires Valid() && i < |files|
      modifies this`files, this`used, this`store, pool
      ensures Valid() && i < |old(store).capacity|
      ensures ok <==>
        size <= old(files[i]).capacity || old(used) + RoundUp(Capacity(size), POOL_ALIGN) <= FILE_POOL_BYTES
      ensures !ok || size <= old(files[i]).capacity ==> unchanged(this) && unchanged(pool)
      ensures ok ==> i < |files| && size <= files[i].capacity
      ensures ok && size > old(files[i]).capacity ==> store == Expanded(old(store), i, size)
    {
      ShownFile(pool[..], files, used, store, i);
      if size <= files[i].capacity {
        return true;
      }
      var capacity := RoundUp(size, FILE_BLOCK);
      var bytes := RoundUp(capacity, POOL_ALIGN);
      if used + bytes > FILE_POOL_BYTES {
        return false;
      }
      MoveToFresh(pool[..], files, used, store, i, capacity, bytes);
      var f := files[i];
      CopyIn(used, pool[f.data..f.data + f.size]);
      files := files[i := FileNode(used, capacity, f.size)];
      used := used + bytes;
      store := Store(store.files, store.capacity[i := capacity], used);
      return true;
    }

    /** Writes the bytes of that file only, growing it as needed, or fails and changes nothing. */
    method Write(i: nat, offset: nat, buf: seq<Byte>) returns (r: Result<nat>)
      requires Valid() && i < |files|
      modifies this`files, this`used, this`store, pool
      ensures Valid() && i < |old(store).files| == |old(store).capacity|
      ensures (store, r) == PlainWrite(old(store), i, offset, buf)
      ensures r.OutOfMemory? ==> unchanged(this) && unchanged(pool)
    {
      ShownFile(pool[..], files, used, store, i);
      var end := offset + |buf|;
      if end > files[i].capacity {
        var ok := ExpandFile(i, end);
        if !ok {
          return OutOfMemory;
        }
      }
      StoreBytes(i, offset, buf);
      return Ok(|buf|);
    }

    method StoreBytes(i: nat, offset: nat, buf: seq<Byte>)
      requires Valid() && i < |files| && offset + |buf| <= files[i].capacity
      modifies this`files, this`store, pool
      ensures Valid() && i < |old(store).files|
      ensures store == old(store).(files := old(store).files[i := Written(old(store).files[i], offset, buf)])
    {
      WriteInPlace(pool[..], files, used, store, i, offset, buf);
      var f := files[i];
      CopyIn(f.data + offset, buf);
      if offset + |buf| > f.size {
        files := files[i := f.(size := offset + |buf|)];
      }
      assert files == old(files)[i := Grown(f, offset + |buf|)];
      store := store.(files := store.files[i := Written(store.files[i], offset, buf)]);
    }

    method RunOne(op: Op) returns (a: Answer)
      requires Valid()
      modifies this`files, this`used, this`store, pool
      ensures Valid() && |old(store).files| == |old(store).capacity| && (store, a) == PlainOp(old(store), op)
    {
      ShownSizes(pool[..], files, used, store);
      match op
      case Create =>
        var r := CreateFile();
        a := if r.Ok? then Created(r.value) else Failed;
      case Read(i, offset, count) =>
        if i >= |files| {
          return Failed;
        }
        var buf := Read(i, offset, count);
        a := Bytes(buf);
      case Write(i, offset, data) =>
        if i >= |files| {
          return Failed;
        }
        var r := Write(i, offset, data);
        a := if r.Ok? then Count(r.value) else Failed;
    }
  }

  /** Every run answers as a map from files to byte sequences would. */
  method RunFresh(ops: seq<Op>) returns (answers: seq<Answer>)
    ensures answers == PlainRun(Nothing, ops).1
  {
    var fs := new RamFs();
    answers := [];
    for i := 0 to |ops|
      invariant fs.Valid() && fresh(fs) && fresh(fs.pool) && (fs.store, answers) == PlainRun(Nothing, ops[..i])
    {
      var a := fs.RunOne(ops[i]);
      answers := answers + [a];
      assert ops[..i + 1][..i] == ops[..i];
    }
    assert ops[..|ops|] == ops;
  }
}
