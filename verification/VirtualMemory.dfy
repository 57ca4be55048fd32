/**
The page-table code of virtual_memory.cpp. `aligned_alloc` and `aligned_free` take frames from and
return them to a pool; an empty pool is a failed allocation.
*/
module VirtualMemory {
  import opened Options
  import opened Distinctness
  import opened PageTree

  /** The frames of a pool. */
  ghost function Frames(pool: seq<nat>): set<nat> { set x | x in pool }

  /** Frames outside s are as they were. */
  ghost predicate KeptOutside(before: Memory, after: Memory, s: set<nat>) {
    forall x | x in before && x !in s :: x in after && after[x] == before[x]
  }

  /** Outside a directory nothing has changed, and it has grown by free frames only. */
  ghost predicate OnlyGrew(a: Arch, m0: Memory, p0: seq<nat>, m: Memory, p: seq<nat>, root: nat)
    requires a.levels > 0
  {
    && KeptOutside(m0, m, Foot(a, m0, root, a.levels - 1)) && Frames(p) <= Frames(p0) && |p| <= |p0|
    && Foot(a, m, root, a.levels - 1) <= Foot(a, m0, root, a.levels - 1) + Frames(p0)
  }

  lemma GrewTwice(a: Arch, m0: Memory, p0: seq<nat>, m1: Memory, p1: seq<nat>, m2: Memory, p2: seq<nat>, root: nat)
    requires a.levels > 0 && OnlyGrew(a, m0, p0, m1, p1, root) && OnlyGrew(a, m1, p1, m2, p2, root)
    requires forall x | x in p0 :: x !in m0
    ensures OnlyGrew(a, m0, p0, m2, p2, root)
  {
  }

  /** The entry MapPage leaves behind: an equal mapping is not rewritten. */
  function MappedEntry(a: Arch, was: Option<nat>, pa: nat, flags: nat): nat {
    if was.Some? && a.phys(was.value) == pa && a.attrs(was.value) == flags then was.value else a.encode(pa, flags)
  }

  /** The page leads to that address with those flags, or nowhere if the flags lack the valid bit. */
  predicate MapsTo(a: Arch, e: Option<nat>, pa: nat, flags: nat) {
    if a.present(flags) then e.Some? && a.valid(e.value) && a.phys(e.value) == pa && a.attrs(e.value) == flags
    else e.None?
  }

  lemma EncodedMaps(a: Arch, pa: nat, flags: nat)
    requires Lawful(a) && a.aligned(pa) && a.proper(flags)
    ensures MapsTo(a, AsMapping(a, a.encode(pa, flags)), pa, flags)
  {
    var e := a.encode(pa, flags);
    assert ValidByFlags(a);
    assert a.phys(e) == pa && a.attrs(e) == flags;
  }

  lemma NewEntryMaps(a: Arch, was: Option<nat>, pa: nat, flags: nat)
    requires Lawful(a) && a.aligned(pa) && a.proper(flags) && (was.Some? ==> a.valid(was.value))
    ensures MapsTo(a, AsMapping(a, MappedEntry(a, was, pa, flags)), pa, flags)
  {
    EncodedMaps(a, pa, flags);
    assert ValidByFlags(a);
  }

  class PageTables {
    const arch: Arch
    var mem: Memory
    var pool: seq<nat>

    ghost predicate Valid()
      reads this
    {
      && Lawful(arch)
      && (forall i, j | 0 <= i < j < |pool| :: pool[i] != pool[j])
      && (forall x | x in pool :: arch.aligned(x) && x !in mem)
      && (forall x | x in mem :: arch.aligned(x))
    }

    /** The tree below a page directory. */
    ghost predicate Directory(root: nat)
      requires Lawful(arch)
      reads this
    {
      Tree(arch, mem, root, arch.levels - 1)
    }

    ghost function Tables(root: nat): set<nat>
      requires Lawful(arch)
      reads this
    {
      Foot(arch, mem, root, arch.levels - 1)
    }

    /** The last-level entry that a page directory gives a virtual address. */
    ghost function Translation(root: nat, va: nat): Option<nat>
      requires Lawful(arch)
      reads this
    {
      Lookup(arch, mem, root, arch.levels - 1, va)
    }

    constructor (arch: Arch, pool: seq<nat>)
      requires Lawful(arch)
      requires (forall i, j | 0 <= i < j < |pool| :: pool[i] != pool[j]) && forall x | x in pool :: arch.aligned(x)
      ensures Valid() && this.arch == arch && this.pool == pool && mem == map[]
    {
      this.arch := arch;
      this.pool := pool;
      this.mem := map[];
    }

    /** aligned_alloc followed by memset to zero. */
    method AllocTable() returns (r: Option<nat>)
      requires Valid()
      modifies this
      ensures Valid()
      ensures r.None? ==> old(pool) == [] && mem == old(mem) && pool == []
      ensures r.Some? ==>
        && old(pool) != [] && r.value == old(pool)[0] && pool == old(pool)[1..]
        && r.value !in old(mem) && arch.aligned(r.value) && mem == old(mem)[r.value := ZeroTable(arch)]
    {
      if pool == [] { return None; }
      var f := pool[0];
      pool := pool[1..];
      mem := mem[f := ZeroTable(arch)];
      return Some(f);
    }

    /** aligned_free. */
    method FreeTable(t: nat)
      requires Valid() && t in mem
      modifies this
      ensures Valid() && mem == old(mem) - {t} && pool == old(pool) + [t]
    {
      mem := mem - {t};
      pool := pool + [t];
    }

    /** Allocate a table and hang it below the unused entry of va in the table of the given level. */
    method LinkNewTable(root: nat, va: nat, level: nat, current: nat) returns (r: Option<nat>)
      requires Valid() && Directory(root) && 0 < level <= arch.levels - 1
      requires TableAt(arch, mem, root, arch.levels - 1, va, level) == Some(current)
      requires current in mem && |mem[current]| == arch.entries && !Live(arch, mem, current, arch.index(va, level))
      modifies this
      ensures Valid() && Directory(root)
      ensures forall vb :: Translation(root, vb) == old(Translation(root, vb))
      ensures KeptOutside(old(mem), mem, old(Tables(root)))
      ensures r.None? ==> mem == old(mem) && pool == old(pool) == []
      ensures r.Some? ==>
        && old(pool) != [] && pool == old(pool)[1..] && Tables(root) == old(Tables(root)) + {old(pool)[0]}
        && TableAt(arch, mem, root, arch.levels - 1, va, level - 1) == r
        && Missing(arch, mem, r.value, level - 1, va) == level - 1
    {
      var top := arch.levels - 1;
      ghost var before := mem;
      TableAtInFoot(arch, mem, root, top, va, level);
      r := AllocTable();
      if r.Some? {
        NewFrameOutside(arch, before, root, top, r.value);
        mem := SetEntry(mem, current, arch.index(va, level), arch.encode(r.value, arch.tableFlags));
        LinkWrite(arch, before, mem, root, top, va, level, current, r.value);
        TableAtSteps(arch, mem, root, top, va, level);
      }
    }

    /**
    The entry that translates va, as a table and an index. Missing tables are allocated on request;
    no translation changes either way.
    */
    method FindPageTableEntry(root: nat, va: nat, allocate: bool) returns (found: Option<nat>)
      requires Valid() && Directory(root)
      modifies this
      ensures Valid() && Directory(root)
      ensures forall vb :: Translation(root, vb) == old(Translation(root, vb))
      ensures found == TableAt(arch, mem, root, arch.levels - 1, va, 0)
      ensures found.None? ==> Translation(root, va) == None && (allocate ==> pool == [])
      ensures !allocate ==> mem == old(mem) && pool == old(pool)
      ensures KeptOutside(old(mem), mem, old(Tables(root)))
      ensures Tables(root) <= old(Tables(root)) + Frames(old(pool)) && Frames(pool) <= Frames(old(pool))
      ensures allocate ==> (found.Some? <==> old(Missing(arch, mem, root, arch.levels - 1, va)) <= |old(pool)|)
      ensures found.Some? ==> |pool| == |old(pool)| - old(Missing(arch, mem, root, arch.levels - 1, va))
    {
      var top := arch.levels - 1;
      var current := root;
      var level: nat := top;
      while level > 0
        invariant level <= top && Valid() && Directory(root)
        invariant TableAt(arch, mem, root, top, va, level) == Some(current)
        invariant forall vb :: Translation(root, vb) == old(Translation(root, vb))
        invariant !allocate ==> mem == old(mem) && pool == old(pool)
        invariant OnlyGrew(arch, old(mem), old(pool), mem, pool, root)
        invariant
          old(Missing(arch, mem, root, top, va)) == Missing(arch, mem, current, level, va) + |old(pool)| - |pool|
      {
        ghost var m1, p1 := mem, pool;
        var next := NextTable(root, va, level, current, allocate);
        GrewTwice(arch, old(mem), old(pool), m1, p1, mem, pool, root);
        if next.None? {
          return None;
        }
        current := next.value;
        level := level - 1;
      }
      return Some(current);
    }

    /** One turn of the walk: the table below, which is allocated if it is missing and asked for. */
    method NextTable(root: nat, va: nat, level: nat, current: nat, allocate: bool) returns (next: Option<nat>)
      requires Valid() && Directory(root) && 0 < level < arch.levels
      requires TableAt(arch, mem, root, arch.levels - 1, va, level) == Some(current)
      modifies this
      ensures Valid() && Directory(root) && next == TableAt(arch, mem, root, arch.levels - 1, va, level - 1)
      ensures forall vb :: Translation(root, vb) == old(Translation(root, vb))
      ensures next.None? ==> TableAt(arch, mem, root, arch.levels - 1, va, 0) == None
      ensures next.None? ==> Translation(root, va) == None && (allocate ==> pool == [])
      ensures !allocate ==> mem == old(mem) && pool == old(pool)
      ensures OnlyGrew(arch, old(mem), old(pool), mem, pool, root)
      ensures next.Some? ==>
        old(Missing(arch, mem, current, level, va)) == Missing(arch, mem, next.value, level - 1,
                                                               va) + |old(pool)| - |pool|
      ensures next.None? && allocate ==> old(Missing(arch, mem, current, level, va)) > |old(pool)|
    {
      var top := arch.levels - 1;
      var vpn := arch.index(va, level);
      TableAtInFoot(arch, mem, root, top, va, level);
      TableAtSteps(arch, mem, root, top, va, level);
      if arch.valid(mem[current][vpn]) {
        next := Some(arch.phys(mem[current][vpn]));
      } else if allocate {
        next := LinkNewTable(root, va, level, current);
        if next.None? {
          NoTableNoLookup(arch, mem, root, top, va, level - 1);
        }
      } else {
        NoTableNoLookup(arch, mem, root, top, va, level - 1);
        next := None;
      }
    }

    /**
    On success the page of va translates to the new entry and every other page is as before; on
    failure, which needs an exhausted allocator, no translation changes.
    */
    method MapPage(root: nat, va: nat, pa: nat, flags: nat) returns (ok: bool)
      requires Valid() && Directory(root)
      modifies this
      ensures Valid() && Directory(root)
      ensures ok ==> forall vb ::
        Translation(root, vb) == if SamePage(arch, va, vb)
                                 then AsMapping(arch, MappedEntry(arch, old(Translation(root, va)), pa, flags))
                                 else old(Translation(root, vb))
      ensures ok && arch.aligned(pa) && arch.proper(flags) ==> MapsTo(arch, Translation(root, va), pa, flags)
      ensures !ok ==> pool == [] && forall vb :: Translation(root, vb) == old(Translation(root, vb))
      ensures KeptOutside(old(mem), mem, old(Tables(root)))
      ensures Tables(root) <= old(Tables(root)) + Frames(old(pool)) && Frames(pool) <= Frames(old(pool))
      ensures ok <==> old(Missing(arch, mem, root, arch.levels - 1, va)) <= |old(pool)|
      ensures ok ==> |pool| == |old(pool)| - old(Missing(arch, mem, root, arch.levels - 1, va))
    {
      var pte := FindPageTableEntry(root, va, true);
      if pte.None? { return false; }
      PutMapping(root, va, pte.value, pa, flags);
      return true;
    }

    /** PutEntry, and what the entry then means. */
    method PutMapping(root: nat, va: nat, t: nat, pa: nat, flags: nat)
      requires Valid() && Directory(root) && TableAt(arch, mem, root, arch.levels - 1, va, 0) == Some(t)
      modifies this`mem
      ensures Valid() && Directory(root) && Tables(root) == old(Tables(root))
      ensures forall vb ::
        Translation(root, vb) == if SamePage(arch, va, vb)
                                 then AsMapping(arch, MappedEntry(arch, old(Translation(root, va)), pa, flags))
                                 else old(Translation(root, vb))
      ensures arch.aligned(pa) && arch.proper(flags) ==> MapsTo(arch, Translation(root, va), pa, flags)
      ensures KeptOutside(old(mem), mem, old(Tables(root)))
    {
      ghost var was := Translation(root, va);
      LookupIsValid(arch, mem, root, arch.levels - 1, va);
      PutEntry(root, va, t, pa, flags);
      if arch.aligned(pa) && arch.proper(flags) {
        NewEntryMaps(arch, was, pa, flags);
        OwnWay(arch, va, arch.levels - 1, 0);
        assert Translation(root, va) == AsMapping(arch, MappedEntry(arch, was, pa, flags));
      }
    }

    /** Sets the entry of va, found in table t, unless it says the same already. */
    method PutEntry(root: nat, va: nat, t: nat, pa: nat, flags: nat)
      requires Valid() && Directory(root) && TableAt(arch, mem, root, arch.levels - 1, va, 0) == Some(t)
      modifies this`mem
      ensures Valid() && Directory(root) && Tables(root) == old(Tables(root))
      ensures forall vb ::
        Translation(root, vb) == if SamePage(arch, va, vb)
                                 then AsMapping(arch, MappedEntry(arch, old(Translation(root, va)), pa, flags))
                                 else old(Translation(root, vb))
      ensures KeptOutside(old(mem), mem, old(Tables(root)))
    {
      var i, top := arch.index(va, 0), arch.levels - 1;
      TableAtInFoot(arch, mem, root, top, va, 0);
      LookupIsWalk(arch, mem, root, top, va);
      var was := mem[t][i];
      if arch.valid(was) && arch.phys(was) == pa && arch.attrs(was) == flags {
        SamePageSameTranslation(arch, mem, root, top, va);
        return;
      }
      StoreEntry(root, va, t, arch.encode(pa, flags));
    }

    /** Write the last-level entry of va, found in table t. */
    method StoreEntry(root: nat, va: nat, t: nat, e: nat)
      requires Valid() && Directory(root) && TableAt(arch, mem, root, arch.levels - 1, va, 0) == Some(t)
      modifies this`mem
      ensures Valid() && Directory(root) && Tables(root) == old(Tables(root))
      ensures forall vb ::
        Translation(root, vb) == if SamePage(arch, va, vb) then AsMapping(arch, e) else old(Translation(root, vb))
      ensures KeptOutside(old(mem), mem, old(Tables(root)))
    {
      ghost var before := mem;
      TableAtInFoot(arch, mem, root, arch.levels - 1, va, 0);
      mem := SetEntry(mem, t, arch.index(va, 0), e);
      LeafWrite(arch, before, mem, root, arch.levels - 1, va, t, e);
    }

    /** Succeeds exactly when the page was mapped, and then unmaps that page only. */
    method UnmapPage(root: nat, va: nat) returns (ok: bool)
      requires Valid() && Directory(root)
      modifies this
      ensures Valid() && Directory(root) && pool == old(pool)
      ensures ok <==> old(Translation(root, va)).Some?
      ensures forall vb ::
        Translation(root, vb) == if SamePage(arch, va, vb) then None else old(Translation(root, vb))
      ensures Tables(root) == old(Tables(root)) && KeptOutside(old(mem), mem, old(Tables(root)))
    {
      var top := arch.levels - 1;
      SamePageSameTranslation(arch, mem, root, top, va);
      var pte := FindPageTableEntry(root, va, false);
      if pte.None? { return false; }
      var t, i := pte.value, arch.index(va, 0);
      TableAtInFoot(arch, mem, root, top, va, 0);
      LookupIsWalk(arch, mem, root, top, va);
      if !arch.valid(mem[t][i]) { return false; }
      StoreEntry(root, va, t, 0);
      return true;
    }

    /** Reads the translation and changes nothing. */
    method GetMapping(root: nat, va: nat) returns (pa: Option<nat>)
      requires Valid() && Directory(root)
      modifies this
      ensures mem == old(mem) && pool == old(pool)
      ensures pa == match Translation(root, va) case None => None case Some(e) => Some(arch.phys(e))
    {
      var pte := FindPageTableEntry(root, va, false);
      if pte.None? { return None; }
      var t, i := pte.value, arch.index(va, 0);
      TableAtInFoot(arch, mem, root, arch.levels - 1, va, 0);
      LookupIsWalk(arch, mem, root, arch.levels - 1, va);
      if !arch.valid(mem[t][i]) { return None; }
      return Some(arch.phys(mem[t][i]));
    }

    /**
    Copy the tree at src into the zeroed table dst. Only dst and frames of the pool are written, and
    on success dst translates what src translates, or nothing if the mappings are not copied.
    */
    method RecursiveClonePageTable(src: nat, dst: nat, level: nat, copy: bool) returns (ok: bool)
      requires Valid() && Tree(arch, mem, src, level) && dst !in Foot(arch, mem, src, level)
      requires dst in mem && mem[dst] == ZeroTable(arch)
      modifies this
      ensures Valid() && Cloned(arch, old(mem), old(pool), mem, pool, dst, level)
      ensures ok ==> CopyOf(arch, old(mem), src, mem, dst, level, copy, arch.entries)
      ensures ok <==> |old(pool)| >= Need(arch, old(mem), src, level, arch.entries)
      ensures ok ==> |pool| == |old(pool)| - Need(arch, old(mem), src, level, arch.entries)
      decreases level, 1
    {
      EmptyTable(arch, mem, dst, level);
      ghost var before := mem;
      ghost var pool0 := pool;
      for i := 0 to arch.entries
        invariant Valid() && Cloned(arch, before, pool0, mem, pool, dst, level)
        invariant |pool| + Need(arch, before, src, level, i) == |pool0|
        invariant forall k: nat | i <= k < arch.entries :: mem[dst][k] == 0
        invariant CopyOf(arch, before, src, mem, dst, level, copy, i)
      {
        NeedStep(arch, before, src, level, i);
        var cloned := CloneEntry(src, dst, level, copy, i, before, pool0);
        if !cloned { return false; }
      }
      return true;
    }

    /** The body of the loop above. */
    method CloneEntry(src: nat, dst: nat, level: nat, copy: bool, i: nat, ghost before: Memory, ghost pool0: seq<nat>)
      returns (ok: bool)
      requires Valid() && Cloned(arch, before, pool0, mem, pool, dst, level)
      requires Tree(arch, before, src, level) && dst !in Foot(arch, before, src, level)
      requires i < arch.entries && forall k: nat | i <= k < arch.entries :: mem[dst][k] == 0
      requires CopyOf(arch, before, src, mem, dst, level, copy, i)
      modifies this
      ensures Valid() && Cloned(arch, before, pool0, mem, pool, dst, level)
      ensures ok ==> forall k: nat | i < k < arch.entries :: mem[dst][k] == 0
      ensures ok ==> CopyOf(arch, before, src, mem, dst, level, copy, i + 1)
      ensures var child := Child(arch, before, src, i);
        var need := if level > 0 && Live(arch, before, src, i) then |Foot(arch, before, child, level - 1)| else 0;
        (ok <==> |old(pool)| >= need) && (ok ==> |pool| == |old(pool)| - need)
      decreases level, 0, 2
    {
      SourceKept(arch, before, mem, src, level, dst);
      if !arch.valid(mem[src][i]) {
        DeadEntry(arch, before, mem, src, dst, level, i);
        return true;
      }
      if level > 0 {
        ok := CloneChild(src, dst, level, copy, i, before, pool0);
        return;
      }
      if copy {
        mem := SetEntry(mem, dst, i, mem[src][i]);
      }
      return true;
    }

    /** The body of the loop above for a live entry i of a table that is not of the last level. */
    method CloneChild(src: nat, dst: nat, level: nat, copy: bool, i: nat, ghost before: Memory, ghost pool0: seq<nat>)
      returns (ok: bool)
      requires Valid() && Cloned(arch, before, pool0, mem, pool, dst, level)
      requires level > 0 && Tree(arch, before, src, level) && dst !in Foot(arch, before, src, level)
      requires i < arch.entries && Live(arch, before, src, i)
      requires forall k: nat | i <= k < arch.entries :: mem[dst][k] == 0
      requires CopyOf(arch, before, src, mem, dst, level, copy, i)
      modifies this
      ensures Valid() && Cloned(arch, before, pool0, mem, pool, dst, level)
      ensures ok ==> forall k: nat | i < k < arch.entries :: mem[dst][k] == 0
      ensures ok ==> CopyOf(arch, before, src, mem, dst, level, copy, i + 1)
      ensures var need := |Foot(arch, before, Child(arch, before, src, i), level - 1)|;
        (ok <==> |old(pool)| >= need) && (ok ==> |pool| == |old(pool)| - need)
      decreases level, 0, 1
    {
      SourceKept(arch, before, mem, src, level, dst);
      var next := arch.phys(mem[src][i]);
      assert next == Child(arch, before, src, i);
      ChildKept(arch, before, mem, src, dst, level - 1, level, i);
      ghost var m0, p0 := mem, pool;
      var n := CloneSubtree(next, dst, level, copy);
      ghost var m2 := mem;
      if n.None? {
        ClonedChains(arch, before, pool0, m0, p0, mem, pool, dst, level);
        return false;
      }
      assert dst in Foot(arch, m0, dst, level);
      mem := SetEntry(mem, dst, i, arch.encode(n.value, arch.tableFlags));
      LinkTree(arch, m2, mem, dst, level - 1, level, i, n.value);
      ClonedChains(arch, before, pool0, m0, p0, mem, pool, dst, level);
      CopyExtends(arch, before, m0, m2, mem, src, dst, level - 1, level, copy, i, n.value);
      return true;
    }

    /** Clone the tree below one entry into a new table, apart from everything that is in use. */
    method CloneSubtree(next: nat, ghost dst: nat, level: nat, copy: bool) returns (r: Option<nat>)
      requires Valid() && level > 0 && Tree(arch, mem, next, level - 1) && Tree(arch, mem, dst, level)
      modifies this
      ensures Valid() && Frames(pool) <= Frames(old(pool))
      ensures KeptOutside(old(mem), mem, {}) && old(mem).Keys <= mem.Keys <= old(mem).Keys + Frames(old(pool))
      ensures SameTree(arch, old(mem), mem, dst, level) && dst in old(mem) && dst in mem
      ensures r.Some? ==>
        && arch.aligned(r.value) && Tree(arch, mem, r.value, level - 1)
        && Foot(arch, mem, r.value, level - 1) <= Frames(old(pool))
        && Foot(arch, mem, r.value, level - 1) !! Foot(arch, mem, dst, level)
        && CopyOf(arch, old(mem), next, mem, r.value, level - 1, copy, arch.entries)
      ensures var need := |Foot(arch, old(mem), next, level - 1)|;
        (r.Some? <==> |old(pool)| >= need) && (r.Some? ==> |pool| == |old(pool)| - need)
      decreases level, 0, 0
    {
      ghost var m0, p0 := mem, pool;
      KeptTree(arch, m0, m0, dst, level);
      NeedAll(arch, m0, next, level - 1);
      r := AllocTable();
      if r.None? { return None; }
      var n := r.value;
      ghost var m1, p1 := mem, pool;
      NewFrameOutside(arch, m0, next, level - 1, n);
      KeptTree(arch, m0, m1, next, level - 1);
      NeedAll(arch, m1, next, level - 1);
      var ok := RecursiveClonePageTable(next, n, level - 1, copy);
      ClonedApart(arch, m0, p0, m1, p1, mem, pool, dst, level - 1, level, n);
      if !ok {
        FreeTable(n);
        KeptTree(arch, m0, mem, dst, level);
        return None;
      }
    }

    /**
    A copy of the directory with the same translations (or none), built from frames of the pool
    only; the source and everything else in memory is untouched.
    */
    method ClonePageDirectory(src: nat, copy: bool) returns (r: Option<nat>)
      requires Valid() && Directory(src)
      modifies this
      ensures Valid() && Directory(src)
      ensures Tables(src) == old(Tables(src)) && forall va :: Translation(src, va) == old(Translation(src, va))
      ensures KeptOutside(old(mem), mem, {})
      ensures r.Some? ==>
        && Directory(r.value) && Tables(r.value) !! Tables(src) && Tables(r.value) <= Frames(old(pool))
        && forall va :: Translation(r.value, va) == if copy then Translation(src, va) else None
      ensures r.Some? <==> |old(pool)| >= |old(Tables(src))|
      ensures r.Some? ==> |pool| == |old(pool)| - |old(Tables(src))|
    {
      var top := arch.levels - 1;
      ghost var m0 := mem;
      KeptTree(arch, m0, m0, src, top);
      NeedAll(arch, m0, src, top);
      r := AllocTable();
      if r.None? { return None; }
      NewFrameOutside(arch, m0, src, top, r.value);
      KeptTree(arch, m0, mem, src, top);
      var ok := CloneInto(src, r.value, copy, m0);
      if !ok { return None; }
    }

    /** The clone after its root table was allocated and zeroed; a failure gives back what was built. */
    method CloneInto(src: nat, dst: nat, copy: bool, ghost m0: Memory) returns (ok: bool)
      requires Valid() && Directory(src) && dst !in Tables(src) && dst in mem && mem[dst] == ZeroTable(arch)
      requires dst !in m0 && mem == m0[dst := ZeroTable(arch)] && Tree(arch, m0, src, arch.levels - 1)
      modifies this
      ensures Valid() && SameTree(arch, m0, mem, src, arch.levels - 1) && KeptOutside(m0, mem, {})
      ensures ok <==> |old(pool)| + 1 >= |Foot(arch, m0, src, arch.levels - 1)|
      ensures ok ==> |pool| == |old(pool)| + 1 - |Foot(arch, m0, src, arch.levels - 1)|
      ensures ok ==>
        && Directory(dst) && Tables(dst) !! Tables(src) && Tables(dst) <= {dst} + Frames(old(pool))
        && forall va :: Translation(dst, va) == if copy then Translation(src, va) else None
    {
      var top := arch.levels - 1;
      ghost var m1, p1 := mem, pool;
      NeedAll(arch, m1, src, top);
      KeptTree(arch, m0, m1, src, top);
      ok := RecursiveClonePageTable(src, dst, top, copy);
      SourceKept(arch, m1, mem, src, top, dst);
      SameTreeTrans(arch, m0, m1, mem, src, top);
      CloneIsOutside(arch, m0, m1, p1, mem, pool, src, dst, top);
      if !ok {
        DropClone(src, dst, m0);
      }
    }

    /** What a failed clone does with the part that was built. */
    method DropClone(ghost src: nat, dst: nat, ghost m0: Memory)
      requires Valid() && Directory(dst) && Tree(arch, m0, src, arch.levels - 1)
      requires KeptOutside(m0, mem, {}) && (forall x | x in Tables(dst) :: x !in m0)
      modifies this
      ensures Valid() && KeptOutside(m0, mem, {}) && SameTree(arch, m0, mem, src, arch.levels - 1)
    {
      DestroyPageDirectory(dst);
      KeptTree(arch, m0, mem, src, arch.levels - 1);
    }

    /** Frees every table of the directory exactly once and nothing else. */
    method DestroyPageDirectory(root: nat)
      requires Valid() && Directory(root)
      modifies this
      ensures Valid() && mem == old(mem) - old(Tables(root))
      ensures multiset(pool) == old(multiset(pool)) + multiset(old(Tables(root)))
    {
      ghost var m0, foot := mem, Tables(root);
      RecursiveFreePageTable(root, arch.levels - 1);
      FreeTable(root);
      assert multiset(foot) == multiset(foot - {root}) + multiset{root};
      assert mem == m0 - foot;
    }

    /** Frees the tables below `table`, and `table` itself unless it is the root. */
    method RecursiveFreePageTable(table: nat, level: nat)
      requires Valid() && level < arch.levels && Tree(arch, mem, table, level)
      modifies this
      ensures Valid() && FreedTree(arch, old(mem), old(pool), mem, pool, table, level)
      decreases level, 2
    {
      ghost var m0, p0 := mem, pool;
      FreeEntries(table, level);
      ghost var m1, p1 := mem, pool;
      if level < arch.levels - 1 {
        FreeTable(table);
      }
      FreeingEnds(arch, m0, p0, m1, p1, mem, pool, table, level);
    }

    /** The loop over the entries. */
    method FreeEntries(table: nat, level: nat)
      requires Valid() && level < arch.levels && Tree(arch, mem, table, level)
      modifies this
      ensures Valid() && Freeing(arch, old(mem), old(pool), mem, pool, table, level, arch.entries)
      decreases level, 1
    {
      ghost var m0, p0 := mem, pool;
      FreeingStarts(arch, m0, p0, table, level);
      for i := 0 to arch.entries
        invariant Valid() && Freeing(arch, m0, p0, mem, pool, table, level, i)
      {
        FreeEntry(table, level, i, m0, p0);
      }
    }

    method FreeEntry(table: nat, level: nat, i: nat, ghost m0: Memory, ghost p0: seq<nat>)
      requires Valid() && level < arch.levels && Tree(arch, m0, table, level) && i < arch.entries
      requires Freeing(arch, m0, p0, mem, pool, table, level, i)
      modifies this
      ensures Valid() && Freeing(arch, m0, p0, mem, pool, table, level, i + 1)
      decreases level, 0, 1
    {
      if !arch.valid(mem[table][i]) {
        NothingToFree(arch, m0, p0, mem, pool, table, level, i);
        return;
      }
      if level > 0 {
        FreeChild(table, level, i, m0, p0);
      } else {
        NothingToFree(arch, m0, p0, mem, pool, table, level, i);
      }
      ClearEntry(table, level, i, m0, p0);
    }

    /** table[i] = 0 */
    method ClearEntry(table: nat, ghost level: nat, i: nat, ghost m0: Memory, ghost p0: seq<nat>)
      requires Valid() && i < arch.entries && Freeing(arch, m0, p0, mem, pool, table, level, i + 1)
      modifies this
      ensures Valid() && Freeing(arch, m0, p0, mem, pool, table, level, i + 1)
    {
      EntryCleared(arch, m0, p0, mem, pool, table, level, i);
      mem := SetEntry(mem, table, i, 0);
    }

    /** The recursive call for the live entry i. */
    method FreeChild(table: nat, level: nat, i: nat, ghost m0: Memory, ghost p0: seq<nat>)
      requires Valid() && 0 < level < arch.levels && Tree(arch, m0, table, level) && i < arch.entries
      requires Freeing(arch, m0, p0, mem, pool, table, level, i) && Live(arch, mem, table, i)
      modifies this
      ensures Valid() && Freeing(arch, m0, p0, mem, pool, table, level, i + 1)
      decreases level, 0, 0
    {
      var next := arch.phys(mem[table][i]);
      var d := level - 1;
      ghost var m1, p1 := mem, pool;
      UnfreedChild(arch, m0, mem, table, d, level, i, FreedBelow(arch, m0, table, level, i));
      RecursiveFreePageTable(next, d);
      ChildFreed(arch, m0, p0, m1, p1, mem, pool, table, d, level, i);
    }

    /**
    Any run of MapPage, UnmapPage and GetMapping on one directory behaves as updates and lookups on
    a map from virtual pages to entries, and never shows in a directory with tables of its own.
    */
    method Run(root: nat, ghost other: nat, ops: seq<Op>) returns (outs: seq<Outcome>, ghost trace: seq<Snapshot>)
      requires Valid() && Directory(root) && Directory(other) && Tables(root) !! Tables(other)
      modifies this
      ensures Valid() && Directory(root) && Directory(other) && Tables(root) !! Tables(other)
      ensures |outs| == |ops| && |trace| == |ops| + 1
      ensures trace[0] == Snapshot(old(mem), old(pool)) && trace[|ops|] == Snapshot(mem, pool)
      ensures Traced(arch, root, View(arch, old(mem), root), ops, outs, trace)
      ensures forall va :: Translation(root, va) == AfterAll(arch, View(arch, old(mem), root), ops, outs)(va)
      ensures forall k, j | 0 <= k < j < |ops| && LooksUp(arch, ops, outs, k, j) :: outs[j] == Got(Some(ops[k].pa))
      ensures forall va :: Translation(other, va) == old(Translation(other, va))
    {
      ghost var m0 := mem;
      outs, trace := RunAll(root, other, ops);
      LookupsFollowMaps(arch, m0, root, ops, outs, trace);
    }

    method RunAll(root: nat, ghost other: nat, ops: seq<Op>) returns (outs: seq<Outcome>, ghost trace: seq<Snapshot>)
      requires Valid() && Directory(root) && Directory(other) && Tables(root) !! Tables(other)
      modifies this
      ensures Valid() && Directory(root) && Directory(other) && Tables(root) !! Tables(other)
      ensures |outs| == |ops| && |trace| == |ops| + 1
      ensures trace[0] == Snapshot(old(mem), old(pool)) && trace[|ops|] == Snapshot(mem, pool)
      ensures Traced(arch, root, View(arch, old(mem), root), ops, outs, trace)
      ensures forall va :: Translation(root, va) == AfterAll(arch, View(arch, old(mem), root), ops, outs)(va)
      ensures forall va :: Translation(other, va) == old(Translation(other, va))
    {
      outs, trace := [], [Snapshot(mem, pool)];
      ghost var m0 := mem;
      ghost var f0 := View(arch, m0, root);
      for i := 0 to |ops|
        invariant Valid() && Directory(root) && Directory(other) && Tables(root) !! Tables(other)
        invariant |outs| == i && |trace| == i + 1 && trace[0] == Snapshot(m0, old(pool))
        invariant trace[i] == Snapshot(mem, pool)
        invariant Traced(arch, root, f0, ops[..i], outs, trace)
        invariant forall va :: Translation(other, va) == Lookup(arch, m0, other, arch.levels - 1, va)
      {
        var out := RunOne(root, other, ops[i]);
        RunExtends(arch, root, f0, ops, outs, trace, i, out, Snapshot(mem, pool));
        outs, trace := outs + [out], trace + [Snapshot(mem, pool)];
      }
      assert ops[..|ops|] == ops;
    }

    method RunOne(root: nat, ghost other: nat, op: Op) returns (out: Outcome)
      requires Valid() && Directory(root) && Directory(other) && Tables(root) !! Tables(other)
      modifies this
      ensures Valid() && Directory(root) && Directory(other) && Tables(root) !! Tables(other)
      ensures StepOk(arch, root, Snapshot(old(mem), old(pool)), op, out, Snapshot(mem, pool))
      ensures forall va :: Translation(other, va) == old(Translation(other, va))
    {
      match op
      case Map(va, pa, flags) =>
        var ok := MapBeside(root, other, va, pa, flags);
        out := Done(ok);
      case Unmap(va) =>
        var ok := UnmapBeside(root, other, va);
        out := Done(ok);
      case Get(va) =>
        var pa := GetMapping(root, va);
        out := Got(pa);
    }

    /** MapPage in the presence of a directory with tables of its own. */
    method MapBeside(root: nat, ghost other: nat, va: nat, pa: nat, flags: nat) returns (ok: bool)
      requires Valid() && Directory(root) && Directory(other) && Tables(root) !! Tables(other)
      modifies this
      ensures Valid() && Directory(root) && Directory(other) && Tables(root) !! Tables(other)
      ensures forall vb ::
        Translation(root, vb) == After(arch, View(arch, old(mem), root), Map(va, pa, flags), Done(ok))(vb)
      ensures ok <==> old(Missing(arch, mem, root, arch.levels - 1, va)) <= |old(pool)|
      ensures |pool| == if ok then |old(pool)| - old(Missing(arch, mem, root, arch.levels - 1, va)) else 0
      ensures forall vb :: Translation(other, vb) == old(Translation(other, vb))
    {
      ghost var m0, p0 := mem, pool;
      ok := MapPage(root, va, pa, flags);
      OtherDirectoryKept(arch, m0, p0, mem, root, other, arch.levels - 1);
    }

    method UnmapBeside(root: nat, ghost other: nat, va: nat) returns (ok: bool)
      requires Valid() && Directory(root) && Directory(other) && Tables(root) !! Tables(other)
      modifies this
      ensures Valid() && Directory(root) && Directory(other) && Tables(root) !! Tables(other)
      ensures ok <==> old(Translation(root, va)).Some?
      ensures forall vb :: Translation(root, vb) == if SamePage(arch, va, vb) then None else old(Translation(root, vb))
      ensures forall vb :: Translation(other, vb) == old(Translation(other, vb))
      ensures pool == old(pool)
    {
      ghost var m0, p0 := mem, pool;
      ok := UnmapPage(root, va);
      OtherDirectoryKept(arch, m0, p0, mem, root, other, arch.levels - 1);
    }
  }

  /**
  What cloning into dst may have done so far: dst is a tree of its own frame and frames of the pool,
  and every other frame is as it was.
  */
  ghost predicate Cloned(a: Arch, mem: Memory, pool: seq<nat>, mem': Memory, pool': seq<nat>, dst: nat, lv: nat) {
    && Frames(pool') <= Frames(pool) && dst in mem
    && KeptOutside(mem, mem', {dst}) && mem.Keys <= mem'.Keys <= mem.Keys + Frames(pool)
    && Tree(a, mem', dst, lv) && Foot(a, mem', dst, lv) <= {dst} + Frames(pool)
  }

  datatype Op = Map(va: nat, pa: nat, flags: nat) | Unmap(va: nat) | Get(va: nat)

  datatype Outcome = Done(ok: bool) | Got(pa: Option<nat>)

  /** What a directory means: the entry of every virtual address. */
  ghost function View(a: Arch, mem: Memory, root: nat): nat -> Option<nat>
    requires a.levels > 0
  {
    (va: nat) => Lookup(a, mem, root, a.levels - 1, va)
  }

  /** The map from pages to entries after one operation. */
  ghost function After(a: Arch, f: nat -> Option<nat>, op: Op, out: Outcome): nat -> Option<nat>
    requires a.levels > 0
  {
    match op
    case Map(va, pa, flags) =>
      if out == Done(true)
      then (vb: nat) => if SamePage(a, va, vb) then AsMapping(a, MappedEntry(a, f(va), pa, flags)) else f(vb)
      else f
    case Unmap(va) => (vb: nat) => if SamePage(a, va, vb) then None else f(vb)
    case Get(_) => f
  }

  ghost function AfterAll(a: Arch, f: nat -> Option<nat>, ops: seq<Op>, outs: seq<Outcome>): nat -> Option<nat>
    requires a.levels > 0 && |ops| == |outs|
  {
    if ops == [] then f
    else After(a, AfterAll(a, f, ops[..|ops| - 1], outs[..|outs| - 1]), ops[|ops| - 1], outs[|outs| - 1])
  }

  /** Page tables and free frames at some moment. */
  datatype Snapshot = Snapshot(mem: Memory, pool: seq<nat>)

  /** There are frames for the tables that the walk lacks. */
  ghost predicate Room(a: Arch, s: Snapshot, root: nat, va: nat)
    requires a.levels > 0
  {
    Missing(a, s.mem, root, a.levels - 1, va) <= |s.pool|
  }

  /** How many frames an operation takes. */
  ghost function Taken(a: Arch, s: Snapshot, root: nat, op: Op): nat
    requires a.levels > 0
  {
    if !op.Map? then 0 else if Room(a, s, root, op.va) then Missing(a, s.mem, root, a.levels - 1, op.va) else |s.pool|
  }

  /** What the operation must answer when the map is f: MapPage fails exactly for lack of frames. */
  ghost predicate Answers(a: Arch, f: nat -> Option<nat>, op: Op, out: Outcome, room: bool) {
    match op
    case Map(_, _, _) => out == Done(room)
    case Unmap(va) => out == Done(f(va).Some?)
    case Get(va) => out == Got(match f(va) case None => None case Some(e) => Some(a.phys(e)))
  }

  ghost predicate StepOk(a: Arch, root: nat, s: Snapshot, op: Op, out: Outcome, s': Snapshot)
    requires a.levels > 0
  {
    && Answers(a, View(a, s.mem, root), op, out, op.Map? && Room(a, s, root, op.va))
    && |s'.pool| == |s.pool| - Taken(a, s, root, op)
    && forall va :: View(a, s'.mem, root)(va) == After(a, View(a, s.mem, root), op, out)(va)
  }

  /** Every operation answered as the map reached so far and the frames left at that moment demand. */
  ghost predicate Traced(a: Arch, root: nat, f: nat -> Option<nat>, ops: seq<Op>, outs: seq<Outcome>,
                         trace: seq<Snapshot>)
    requires a.levels > 0 && |ops| == |outs| && |trace| == |ops| + 1
  {
    var n := |ops|;
    && (forall va :: View(a, trace[n].mem, root)(va) == AfterAll(a, f, ops, outs)(va))
    && (n > 0 ==>
          && Traced(a, root, f, ops[..n - 1], outs[..n - 1], trace[..n])
          && Answers(a, AfterAll(a, f, ops[..n - 1], outs[..n - 1]), ops[n - 1], outs[n - 1],
                     ops[n - 1].Map? && Room(a, trace[n - 1], root, ops[n - 1].va))
          && |trace[n].pool| == |trace[n - 1].pool| - Taken(a, trace[n - 1], root, ops[n - 1]))
  }

  /** One more operation. */
  lemma RunExtends(a: Arch, root: nat, f: nat -> Option<nat>, ops: seq<Op>, outs: seq<Outcome>, trace: seq<Snapshot>,
                   i: nat, out: Outcome, s: Snapshot)
    requires a.levels > 0 && i == |outs| < |ops| && |trace| == i + 1 && Traced(a, root, f, ops[..i], outs, trace)
    requires StepOk(a, root, trace[i], ops[i], out, s)
    ensures Traced(a, root, f, ops[..i + 1], outs + [out], trace + [s])
  {
    assert ops[..i + 1][..i] == ops[..i] && (outs + [out])[..i] == outs && (trace + [s])[..i + 1] == trace;
    AnswersAgree(a, View(a, trace[i].mem, root), AfterAll(a, f, ops[..i], outs), ops[i], out);
  }

  lemma AnswersAgree(a: Arch, g: nat -> Option<nat>, f: nat -> Option<nat>, op: Op, out: Outcome)
    requires a.levels > 0 && forall va :: g(va) == f(va)
    ensures forall room :: Answers(a, g, op, out, room) == Answers(a, f, op, out, room)
    ensures forall va :: After(a, g, op, out)(va) == After(a, f, op, out)(va)
  {
  }

  // ---------------------------------------------------------------------------------------------
  // What a lookup answers
  // ---------------------------------------------------------------------------------------------

  /** The operation gave the page of va its present meaning. */
  predicate Sets(a: Arch, op: Op, out: Outcome, va: nat)
    requires a.levels > 0
  {
    (op.Unmap? || (op.Map? && out == Done(true))) && SamePage(a, op.va, va)
  }

  /** From operation k on, up to j, nothing has touched the page of va. */
  ghost predicate Untouched(a: Arch, ops: seq<Op>, outs: seq<Outcome>, k: nat, j: nat, va: nat)
    requires a.levels > 0 && |ops| == |outs|
  {
    forall i | k <= i < j && i < |ops| :: !Sets(a, ops[i], outs[i], va)
  }

  ghost predicate AllValid(a: Arch, f: nat -> Option<nat>) { forall va :: f(va).Some? ==> a.valid(f(va).value) }

  lemma {:induction false} AfterAllValid(a: Arch, f: nat -> Option<nat>, ops: seq<Op>, outs: seq<Outcome>)
    requires a.levels > 0 && |ops| == |outs| && AllValid(a, f)
    ensures AllValid(a, AfterAll(a, f, ops, outs))
    decreases |ops|
  {
    if ops != [] {
      AfterAllValid(a, f, ops[..|ops| - 1], outs[..|outs| - 1]);
    }
  }

  lemma {:induction false} UntouchedStays(a: Arch, f: nat -> Option<nat>, ops: seq<Op>, outs: seq<Outcome>, k: nat,
                                          j: nat, va: nat)
    requires a.levels > 0 && |ops| == |outs| && k <= j <= |ops| && Untouched(a, ops, outs, k, j, va)
    ensures AfterAll(a, f, ops[..j], outs[..j])(va) == AfterAll(a, f, ops[..k], outs[..k])(va)
    decreases j
  {
    if k < j {
      UntouchedStays(a, f, ops, outs, k, j - 1, va);
      assert ops[..j][..j - 1] == ops[..j - 1] && outs[..j][..j - 1] == outs[..j - 1];
      assert !Sets(a, ops[j - 1], outs[j - 1], va);
    }
  }

  /** Right after a page was set, it means what the operation said. */
  lemma SetMeans(a: Arch, f: nat -> Option<nat>, ops: seq<Op>, outs: seq<Outcome>, k: nat, va: nat)
    requires Lawful(a) && |ops| == |outs| && k < |ops| && AllValid(a, f) && Sets(a, ops[k], outs[k], va)
    ensures var e := AfterAll(a, f, ops[..k + 1], outs[..k + 1])(va);
      && (ops[k].Unmap? ==> e == None)
      && (ops[k].Map? && a.aligned(ops[k].pa) && a.proper(ops[k].flags) ==> MapsTo(a, e, ops[k].pa, ops[k].flags))
  {
    assert ops[..k + 1][..k] == ops[..k] && outs[..k + 1][..k] == outs[..k];
    AfterAllValid(a, f, ops[..k], outs[..k]);
    if ops[k].Map? && a.aligned(ops[k].pa) && a.proper(ops[k].flags) {
      NewEntryMaps(a, AfterAll(a, f, ops[..k], outs[..k])(ops[k].va), ops[k].pa, ops[k].flags);
    }
  }

  /** At each point of a run the tables mean what the operations so far have made of them. */
  lemma {:induction false} TracedAt(a: Arch, root: nat, f: nat -> Option<nat>, ops: seq<Op>, outs: seq<Outcome>,
                                    trace: seq<Snapshot>, j: nat)
    requires a.levels > 0 && |ops| == |outs| && |trace| == |ops| + 1 && j <= |ops|
    requires Traced(a, root, f, ops, outs, trace)
    ensures forall va :: View(a, trace[j].mem, root)(va) == AfterAll(a, f, ops[..j], outs[..j])(va)
    decreases |ops|
  {
    var n := |ops|;
    if j < n {
      TracedAt(a, root, f, ops[..n - 1], outs[..n - 1], trace[..n], j);
      assert ops[..n - 1][..j] == ops[..j] && outs[..n - 1][..j] == outs[..j];
    } else {
      assert ops[..n] == ops && outs[..n] == outs;
    }
  }

  lemma {:induction false} AnswersAt(a: Arch, root: nat, f: nat -> Option<nat>, ops: seq<Op>, outs: seq<Outcome>,
                                     trace: seq<Snapshot>, j: nat)
    requires a.levels > 0 && |ops| == |outs| && |trace| == |ops| + 1 && j < |ops|
    requires Traced(a, root, f, ops, outs, trace)
    ensures Answers(a, AfterAll(a, f, ops[..j], outs[..j]), ops[j], outs[j],
                    ops[j].Map? && Room(a, trace[j], root, ops[j].va))
    decreases |ops|
  {
    var n := |ops|;
    if j < n - 1 {
      AnswersAt(a, root, f, ops[..n - 1], outs[..n - 1], trace[..n], j);
      assert ops[..n - 1][..j] == ops[..j] && outs[..n - 1][..j] == outs[..j];
    }
  }

  /** From the operation that set a page on, up to the next that does, the page means what that operation said. */
  lemma LastSetMeans(a: Arch, f: nat -> Option<nat>, ops: seq<Op>, outs: seq<Outcome>, k: nat, j: nat, va: nat)
    requires Lawful(a) && |ops| == |outs| && AllValid(a, f)
    requires k < j <= |ops| && Sets(a, ops[k], outs[k], va) && Untouched(a, ops, outs, k + 1, j, va)
    ensures var e := AfterAll(a, f, ops[..j], outs[..j])(va);
      && (ops[k].Unmap? ==> e == None)
      && (ops[k].Map? && a.aligned(ops[k].pa) && a.proper(ops[k].flags) ==> MapsTo(a, e, ops[k].pa, ops[k].flags))
  {
    UntouchedStays(a, f, ops, outs, k + 1, j, va);
    SetMeans(a, f, ops, outs, k, va);
  }

  /**
  In every run: a page last set by a successful MapPage leads to the address it was given, with the flags
  it was given; one last unmapped leads nowhere; lookups answer accordingly.
  */
  lemma GetAnswersLastMap(a: Arch, root: nat, f: nat -> Option<nat>, ops: seq<Op>, outs: seq<Outcome>,
                          trace: seq<Snapshot>, k: nat, j: nat, va: nat)
    requires Lawful(a) && |ops| == |outs| && |trace| == |ops| + 1 && AllValid(a, f)
    requires Traced(a, root, f, ops, outs, trace)
    requires k < j <= |ops| && Sets(a, ops[k], outs[k], va) && Untouched(a, ops, outs, k + 1, j, va)
    ensures ops[k].Map? && a.aligned(ops[k].pa) && a.proper(ops[k].flags) ==>
      && MapsTo(a, View(a, trace[j].mem, root)(va), ops[k].pa, ops[k].flags)
      && (j < |ops| && ops[j] == Get(va) ==> outs[j] == Got(if a.present(ops[k].flags) then Some(ops[k].pa) else None))
    ensures ops[k].Unmap? && j < |ops| && ops[j] == Get(va) ==> outs[j] == Got(None)
  {
    LastSetMeans(a, f, ops, outs, k, j, va);
    TracedAt(a, root, f, ops, outs, trace, j);
    if j < |ops| && ops[j] == Get(va) { GetAt(a, root, f, ops, outs, trace, j); }
  }

  lemma GetAt(a: Arch, root: nat, f: nat -> Option<nat>, ops: seq<Op>, outs: seq<Outcome>, trace: seq<Snapshot>, j: nat)
    requires a.levels > 0 && |ops| == |outs| && |trace| == |ops| + 1 && j < |ops| && ops[j].Get?
    requires Traced(a, root, f, ops, outs, trace)
    ensures var e := AfterAll(a, f, ops[..j], outs[..j])(ops[j].va);
      outs[j] == Got(if e.Some? then Some(a.phys(e.value)) else None)
  {
    AnswersAt(a, root, f, ops, outs, trace, j);
  }

  /** Operation j looks up a page that operation k mapped and nothing has touched since. */
  ghost predicate LooksUp(a: Arch, ops: seq<Op>, outs: seq<Outcome>, k: nat, j: nat)
    requires a.levels > 0 && |ops| == |outs| && k < j < |ops|
  {
    && ops[k].Map? && a.aligned(ops[k].pa) && a.proper(ops[k].flags) && a.present(ops[k].flags)
    && ops[j].Get? && Sets(a, ops[k], outs[k], ops[j].va) && Untouched(a, ops, outs, k + 1, j, ops[j].va)
  }

  lemma LookupsFollowMaps(a: Arch, m0: Memory, root: nat, ops: seq<Op>, outs: seq<Outcome>, trace: seq<Snapshot>)
    requires Lawful(a) && |ops| == |outs| && |trace| == |ops| + 1
    requires Traced(a, root, View(a, m0, root), ops, outs, trace)
    ensures forall k, j | 0 <= k < j < |ops| && LooksUp(a, ops, outs, k, j) :: outs[j] == Got(Some(ops[k].pa))
  {
    var f := View(a, m0, root);
    forall va ensures f(va).Some? ==> a.valid(f(va).value) { LookupIsValid(a, m0, root, a.levels - 1, va); }
    forall k, j | 0 <= k < j < |ops| && LooksUp(a, ops, outs, k, j) ensures outs[j] == Got(Some(ops[k].pa)) {
      GetAnswersLastMap(a, root, f, ops, outs, trace, k, j, ops[j].va);
    }
  }

  /** Changes inside one directory, and to frames that were free, leave every other directory alone. */
  lemma OtherDirectoryKept(a: Arch, m0: Memory, p0: seq<nat>, m: Memory, root: nat, other: nat, lv: nat)
    requires Tree(a, m0, other, lv) && Foot(a, m0, root, lv) !! Foot(a, m0, other, lv)
    requires KeptOutside(m0, m, Foot(a, m0, root, lv)) && (forall x | x in p0 :: x !in m0)
    requires Foot(a, m, root, lv) <= Foot(a, m0, root, lv) + Frames(p0)
    ensures SameTree(a, m0, m, other, lv) && Foot(a, m, root, lv) !! Foot(a, m, other, lv)
  {
    forall x | x in Foot(a, m0, other, lv) ensures x in m0 { FootIsTables(a, m0, other, lv, x); }
    TreeFrame(a, m0, m, other, lv);
  }

  /** All tables of the tree have gone back to the pool once, except the root of a whole directory. */
  ghost predicate FreedTree(a: Arch, mem: Memory, pool: seq<nat>, mem': Memory, pool': seq<nat>, t: nat, lv: nat) {
    var gone := if lv + 1 < a.levels then Foot(a, mem, t, lv) else Foot(a, mem, t, lv) - {t};
    && mem'.Keys == mem.Keys - gone && KeptOutside(mem, mem', Foot(a, mem, t, lv))
    && multiset(pool') == multiset(pool) + multiset(gone)
  }

  /** The frames freed once the first i entries of t have been handled. */
  ghost function FreedBelow(a: Arch, mem: Memory, t: nat, lv: nat, i: nat): set<nat> {
    if lv == 0 then {} else Below(a, mem, t, lv - 1, i)
  }

  /** The state of RecursiveFreePageTable before entry i. */
  ghost predicate Freeing(a: Arch, m0: Memory, p0: seq<nat>, m: Memory, p: seq<nat>, t: nat, lv: nat, i: nat) {
    var gone := FreedBelow(a, m0, t, lv, i);
    && t in m0 && t in m && |m0[t]| == |m[t]| == a.entries && t !in gone
    && m.Keys == m0.Keys - gone && KeptOutside(m0, m, gone + {t})
    && (forall k | i <= k < a.entries :: m[t][k] == m0[t][k])
    && multiset(p) == multiset(p0) + multiset(gone)
  }

  lemma FreeingStarts(a: Arch, m0: Memory, p0: seq<nat>, t: nat, lv: nat)
    requires Tree(a, m0, t, lv)
    ensures Freeing(a, m0, p0, m0, p0, t, lv, 0)
  {
    assert FreedBelow(a, m0, t, lv, 0) == {};
  }

  lemma FreeingEnds(a: Arch, m0: Memory, p0: seq<nat>, m1: Memory, p1: seq<nat>, m: Memory, p: seq<nat>, t: nat,
                    lv: nat)
    requires lv < a.levels && Freeing(a, m0, p0, m1, p1, t, lv, a.entries)
    requires if lv + 1 < a.levels then m == m1 - {t} && p == p1 + [t] else m == m1 && p == p1
    ensures FreedTree(a, m0, p0, m, p, t, lv)
  {
    var gone := FreedBelow(a, m0, t, lv, a.entries);
    assert Foot(a, m0, t, lv) == gone + {t};
    assert Foot(a, m0, t, lv) - {t} == gone;
    assert multiset(gone + {t}) == multiset(gone) + multiset{t};
  }

  lemma NothingToFree(a: Arch, m0: Memory, p0: seq<nat>, m: Memory, p: seq<nat>, t: nat, lv: nat, i: nat)
    requires Tree(a, m0, t, lv) && i < a.entries && Freeing(a, m0, p0, m, p, t, lv, i) && (lv == 0 || !Live(a, m, t, i))
    ensures Freeing(a, m0, p0, m, p, t, lv, i + 1)
  {
    if lv > 0 { BelowStep(a, m0, t, lv - 1, i); }
    assert FreedBelow(a, m0, t, lv, i + 1) == FreedBelow(a, m0, t, lv, i);
  }

  lemma EntryCleared(a: Arch, m0: Memory, p0: seq<nat>, m: Memory, p: seq<nat>, t: nat, lv: nat, i: nat)
    requires i < a.entries && Freeing(a, m0, p0, m, p, t, lv, i + 1)
    ensures Freeing(a, m0, p0, SetEntry(m, t, i, 0), p, t, lv, i + 1)
  {
  }

  lemma ChildFreed(a: Arch, m0: Memory, p0: seq<nat>, m1: Memory, p1: seq<nat>, m: Memory, p: seq<nat>, t: nat, d: nat,
                   lv: nat, i: nat)
    requires lv == d + 1 < a.levels && i < a.entries && Tree(a, m0, t, lv) && Live(a, m0, t, i)
    requires Freeing(a, m0, p0, m1, p1, t, lv, i)
    requires Foot(a, m1, Child(a, m0, t, i), d) == Foot(a, m0, Child(a, m0, t, i), d)
    requires FreedTree(a, m1, p1, m, p, Child(a, m0, t, i), d)
    ensures Freeing(a, m0, p0, m, p, t, lv, i + 1)
  {
    BelowStep(a, m0, t, d, i);
    var gone, more := Below(a, m0, t, d, i), Foot(a, m0, Child(a, m0, t, i), d);
    assert multiset(gone + more) == multiset(gone) + multiset(more);
  }

  lemma BelowStep(a: Arch, mem: Memory, t: nat, d: nat, i: nat)
    requires Subtrees(a, mem, t, d)
    ensures Below(a, mem, t, d, i + 1) ==
      Below(a, mem, t, d, i) + if Live(a, mem, t, i) then Foot(a, mem, Child(a, mem, t, i), d) else {}
    ensures Live(a, mem, t, i) ==> Foot(a, mem, Child(a, mem, t, i), d) !! Below(a, mem, t, d, i)
    ensures t !in Below(a, mem, t, d, i + 1)
  {
  }

  /** How many tables the first i entries of a table take to copy. */
  ghost function Need(a: Arch, mem: Memory, t: nat, lv: nat, i: nat): nat { |FreedBelow(a, mem, t, lv, i)| }

  lemma NeedStep(a: Arch, mem: Memory, t: nat, lv: nat, i: nat)
    requires Tree(a, mem, t, lv) && i < a.entries
    ensures Need(a, mem, t, lv, 0) == 0
    ensures Need(a, mem, t, lv, i + 1) ==
      Need(a, mem, t, lv, i) + if lv > 0 && Live(a, mem, t, i) then |Foot(a, mem, Child(a, mem, t, i), lv - 1)| else 0
    ensures Need(a, mem, t, lv, i + 1) <= Need(a, mem, t, lv, a.entries)
  {
    assert FreedBelow(a, mem, t, lv, 0) == {};
    if lv > 0 {
      BelowStep(a, mem, t, lv - 1, i);
      SubsetSize(FreedBelow(a, mem, t, lv, i + 1), FreedBelow(a, mem, t, lv, a.entries));
    }
  }

  lemma NeedAll(a: Arch, mem: Memory, t: nat, lv: nat)
    requires Tree(a, mem, t, lv) && a.entries > 0
    ensures |Foot(a, mem, t, lv)| == 1 + Need(a, mem, t, lv, a.entries)
  {
    if lv > 0 { BelowStep(a, mem, t, lv - 1, a.entries - 1); }
  }

  /** A child whose turn has not come is still the tree it was. */
  lemma UnfreedChild(a: Arch, m0: Memory, m: Memory, t: nat, d: nat, lv: nat, i: nat, gone: set<nat>)
    requires lv == d + 1 && Tree(a, m0, t, lv) && Live(a, m0, t, i) && gone == Below(a, m0, t, d, i)
    requires KeptOutside(m0, m, gone + {t}) && m.Keys <= m0.Keys
    ensures SameTree(a, m0, m, Child(a, m0, t, i), d)
  {
    BelowStep(a, m0, t, d, i);
    ChildFoot(a, m0, t, d, lv, i);
    TreeFrame(a, m0, m, Child(a, m0, t, i), d);
  }

  /** A clone under way lies outside the memory there was before it. */
  lemma CloneIsOutside(a: Arch, m0: Memory, m1: Memory, p1: seq<nat>, m: Memory, p: seq<nat>, src: nat, dst: nat,
                       lv: nat)
    requires Cloned(a, m1, p1, m, p, dst, lv) && m1 == m0[dst := ZeroTable(a)] && dst !in m0
    requires Tree(a, m0, src, lv) && Tree(a, m1, src, lv) && (forall x | x in p1 :: x !in m1)
    requires dst !in Foot(a, m1, src, lv)
    ensures KeptOutside(m0, m, {}) && (forall x | x in Foot(a, m, dst, lv) :: x !in m0)
    ensures Foot(a, m, dst, lv) !! Foot(a, m1, src, lv)
  {
    FootWithin(a, m1, src, lv);
  }

  lemma SameTreeTrans(a: Arch, m0: Memory, m1: Memory, m2: Memory, t: nat, lv: nat)
    requires SameTree(a, m0, m1, t, lv) && SameTree(a, m1, m2, t, lv)
    ensures SameTree(a, m0, m2, t, lv)
  {
  }

  lemma FootWithin(a: Arch, mem: Memory, t: nat, lv: nat)
    requires Tree(a, mem, t, lv)
    ensures forall x | x in Foot(a, mem, t, lv) :: x in mem
  {
    forall x | x in Foot(a, mem, t, lv) ensures x in mem { FootIsTables(a, mem, t, lv, x); }
  }

  /** The tables of a child are tables of the memory, and not the parent. */
  lemma ChildFoot(a: Arch, mem: Memory, t: nat, d: nat, lv: nat, i: nat)
    requires lv == d + 1 && Tree(a, mem, t, lv) && Live(a, mem, t, i)
    ensures Tree(a, mem, Child(a, mem, t, i), d) && t !in Foot(a, mem, Child(a, mem, t, i), d)
    ensures forall x | x in Foot(a, mem, Child(a, mem, t, i), d) :: x in mem
  {
    BelowStep(a, mem, t, d, i);
    FootWithin(a, mem, Child(a, mem, t, i), d);
  }

  /** Below the first n entries, dst translates what src did (or nothing, if mappings are not copied). */
  ghost predicate CopyOf(a: Arch, mem: Memory, src: nat, mem': Memory, dst: nat, lv: nat, copy: bool, n: nat) {
    forall va | a.index(va, lv) < n ::
      Lookup(a, mem', dst, lv, va) == if copy then Lookup(a, mem, src, lv, va) else None
  }

  lemma DeadEntry(a: Arch, mem: Memory, mem': Memory, src: nat, dst: nat, lv: nat, i: nat)
    requires !Live(a, mem, src, i) && !Live(a, mem', dst, i)
    ensures forall va | a.index(va, lv) == i :: Lookup(a, mem', dst, lv, va) == Lookup(a, mem, src, lv, va) == None
  {
  }

  /** The child to copy is still the tree it was. */
  lemma ChildKept(a: Arch, before: Memory, m0: Memory, src: nat, dst: nat, d: nat, lv: nat, i: nat)
    requires lv == d + 1 && Tree(a, before, src, lv) && dst !in Foot(a, before, src, lv) && Live(a, before, src, i)
    requires KeptOutside(before, m0, {dst})
    ensures SameTree(a, before, m0, Child(a, before, src, i), d)
  {
    var c := Child(a, before, src, i);
    assert Foot(a, before, c, d) <= Foot(a, before, src, lv);
    SourceKept(a, before, m0, c, d, dst);
  }

  /** A tree stays as it is while only frames outside the old memory change. */
  lemma KeptTree(a: Arch, m0: Memory, m: Memory, t: nat, lv: nat)
    requires Tree(a, m0, t, lv) && KeptOutside(m0, m, {})
    ensures SameTree(a, m0, m, t, lv) && t in m0 && t in m && m[t] == m0[t]
  {
    forall x | x in Foot(a, m0, t, lv) ensures x in m0 { FootIsTables(a, m0, t, lv, x); }
    TreeFrame(a, m0, m, t, lv);
  }

  /** The copy of the child shares no frame with what hangs below dst already. */
  lemma ClonedApart(a: Arch, m0: Memory, p0: seq<nat>, m1: Memory, p1: seq<nat>, m2: Memory, p2: seq<nat>, dst: nat,
                    d: nat, lv: nat, n: nat)
    requires Tree(a, m0, dst, lv) && n !in m0 && m1 == m0[n := ZeroTable(a)]
    requires (forall x | x in p0 :: x !in m0) && Frames(p1) <= Frames(p0) && n in p0
    requires Cloned(a, m1, p1, m2, p2, n, d)
    ensures SameTree(a, m0, m2, dst, lv) && Foot(a, m2, n, d) !! Foot(a, m2, dst, lv)
    ensures KeptOutside(m0, m2, {}) && Foot(a, m2, n, d) <= Frames(p0)
    ensures m0.Keys <= m2.Keys <= m0.Keys + Frames(p0)
  {
    KeptTree(a, m0, m2, dst, lv);
    forall x | x in Foot(a, m0, dst, lv) ensures x in m0 { FootIsTables(a, m0, dst, lv, x); }
    assert forall x | x in Foot(a, m2, n, d) :: x == n || x in Frames(p1);
  }

  lemma ClonedChains(a: Arch, before: Memory, pool: seq<nat>, m0: Memory, p0: seq<nat>, m: Memory, p: seq<nat>,
                     dst: nat, lv: nat)
    requires Cloned(a, before, pool, m0, p0, dst, lv) && Frames(p) <= Frames(p0)
    requires KeptOutside(m0, m, {dst}) && m0.Keys <= m.Keys <= m0.Keys + Frames(p0)
    requires Tree(a, m, dst, lv) && Foot(a, m, dst, lv) <= Foot(a, m0, dst, lv) + Frames(p0)
    ensures Cloned(a, before, pool, m, p, dst, lv)
  {
  }

  lemma CopyExtends(a: Arch, before: Memory, m1: Memory, m2: Memory, m3: Memory, src: nat, dst: nat, d: nat, lv: nat,
                    copy: bool, i: nat, n: nat)
    requires lv == d + 1 && Live(a, before, src, i) && SameTree(a, before, m1, Child(a, before, src, i), d)
    requires CopyOf(a, before, src, m2, dst, lv, copy, i)
    requires CopyOf(a, m1, Child(a, before, src, i), m2, n, d, copy, a.entries) && Lawful(a)
    requires forall vb ::
      Lookup(a, m3, dst, lv, vb) == if a.index(vb, lv) == i then Lookup(a, m2, n, d, vb) else Lookup(a, m2, dst, lv, vb)
    ensures CopyOf(a, before, src, m3, dst, lv, copy, i + 1)
  {
  }

  lemma SourceKept(a: Arch, before: Memory, after: Memory, src: nat, lv: nat, dst: nat)
    requires Tree(a, before, src, lv) && dst !in Foot(a, before, src, lv) && KeptOutside(before, after, {dst})
    ensures SameTree(a, before, after, src, lv) && src != dst && src in after && after[src] == before[src]
  {
    forall x | x in Foot(a, before, src, lv) ensures x in before { FootIsTables(a, before, src, lv, x); }
    TreeFrame(a, before, after, src, lv);
    assert src in Foot(a, before, src, lv);
  }

  lemma NewFrameOutside(a: Arch, mem: Memory, t: nat, lv: nat, n: nat)
    requires Tree(a, mem, t, lv) && n !in mem
    ensures n !in Foot(a, mem, t, lv)
  {
    if n in Foot(a, mem, t, lv) { FootIsTables(a, mem, t, lv, n); }
  }

  /** Addresses of one page share their translation. */
  lemma {:induction false} SamePageSameTranslation(a: Arch, mem: Memory, t: nat, lv: nat, va: nat)
    ensures forall vb | SameWay(a, va, vb, lv, 0) :: Lookup(a, mem, t, lv, vb) == Lookup(a, mem, t, lv, va)
    decreases lv
  {
    if lv > 0 {
      SamePageSameTranslation(a, mem, Child(a, mem, t, a.index(va, lv)), lv - 1, va);
    }
  }
}
