/**
Multi-level page tables as values: what it means for tables scattered over page frames to form a
tree, which virtual pages the tree translates, and how writing one entry changes both.

A memory maps the address of each page frame used as a table to its entries. The architecture
(entry encoding, index extraction, number of levels and entries) is a parameter.
*/
module PageTree {
  import opened Options

  /** The helpers of cpu_io::virtual_memory that the page-table code is written against. */
  datatype Arch = Arch(
    entries: nat,                       // kEntriesPerTable
    levels: nat,                        // kPageTableLevels
    tableFlags: nat,                    // GetTableEntryPermissions
    aligned: nat -> bool,
    proper: nat -> bool,                // flags that fit the attribute bits
    present: nat -> bool,               // flags with the bit that makes an entry valid
    valid: nat -> bool,                 // IsPageTableEntryValid
    phys: nat -> nat,                   // PageTableEntryToPhysical
    attrs: nat -> nat,                  // the low kPteAttributeBits of an entry
    encode: (nat, nat) -> nat,          // PhysicalToPageTableEntry
    index: (nat, nat) -> nat)           // GetVirtualPageNumber

  ghost predicate Lawful(a: Arch) {
    && a.levels > 0 && a.entries > 0
    && !a.valid(0) && a.proper(a.tableFlags) && a.present(a.tableFlags)
    && (forall b | b == a :: ValidByFlags(b))
    && (forall pa, flags | a.aligned(pa) && a.proper(flags) ::
        a.phys(a.encode(pa, flags)) == pa && (a.present(flags) ==> a.valid(a.encode(pa, flags))))
    && (forall va, l :: a.index(va, l) < a.entries)
  }

  /** The flags of an entry are its own, and say whether it is valid; only proofs that name this look inside. */
  ghost predicate ValidByFlags(a: Arch) {
    && (forall e :: a.valid(e) <==> a.present(a.attrs(e)))
    && (forall pa, flags | a.aligned(pa) && a.proper(flags) :: a.attrs(a.encode(pa, flags)) == flags)
  }

  type Memory = map<nat, seq<nat>>

  function SetEntry(mem: Memory, t: nat, i: nat, e: nat): Memory
    requires t in mem && i < |mem[t]|
  {
    var entries: seq<nat> := mem[t][i := e];
    mem[t := entries]
  }

  /** A table right after `memset(table, 0, kPageSize)`. */
  function ZeroTable(a: Arch): seq<nat> { seq(a.entries, _ => 0) }

  /** Entry i of table t is in use. */
  predicate Live(a: Arch, mem: Memory, t: nat, i: nat) {
    t in mem && i < |mem[t]| && a.valid(mem[t][i])
  }

  /** The table that entry i of table t points to. */
  function Child(a: Arch, mem: Memory, t: nat, i: nat): nat {
    if t in mem && i < |mem[t]| then a.phys(mem[t][i]) else 0
  }

  /** The frames of the trees below the first n entries of table t, whose children stand at level d. */
  ghost function Below(a: Arch, mem: Memory, t: nat, d: nat, n: nat): set<nat>
    decreases d, 1
  {
    set i: nat, x | i < n && Live(a, mem, t, i) && x in Foot(a, mem, Child(a, mem, t, i), d) :: x
  }

  /** The frames of the tree rooted at table t of level lv. */
  ghost function Foot(a: Arch, mem: Memory, t: nat, lv: nat): set<nat>
    decreases lv, 0
  {
    if lv == 0 then {t} else {t} + Below(a, mem, t, lv - 1, a.entries)
  }

  /** The children of table t, at level d, are trees that share no frame with t or each other. */
  ghost predicate Subtrees(a: Arch, mem: Memory, t: nat, d: nat)
    decreases d, 1
  {
    && (forall i: nat | Live(a, mem, t, i) ::
          Tree(a, mem, Child(a, mem, t, i), d) && t !in Foot(a, mem, Child(a, mem, t, i), d))
    && (forall i: nat, j: nat | i < j && Live(a, mem, t, i) && Live(a, mem, t, j) ::
          Foot(a, mem, Child(a, mem, t, i), d) !! Foot(a, mem, Child(a, mem, t, j), d))
  }

  /** The tables reachable from table t of level lv form a tree: no frame is reached twice. */
  ghost predicate Tree(a: Arch, mem: Memory, t: nat, lv: nat)
    decreases lv, 0
  {
    t in mem && |mem[t]| == a.entries && (lv > 0 ==> Subtrees(a, mem, t, lv - 1))
  }

  /** The last-level entry that translates va, if there is one. */
  function Lookup(a: Arch, mem: Memory, t: nat, lv: nat, va: nat): Option<nat>
    decreases lv
  {
    var i := a.index(va, lv);
    if !Live(a, mem, t, i) then None
    else if lv == 0 then Some(mem[t][i])
    else Lookup(a, mem, Child(a, mem, t, i), lv - 1, va)
  }

  /** The table of level l on the way from t to va. */
  function TableAt(a: Arch, mem: Memory, t: nat, lv: nat, va: nat, l: nat): Option<nat>
    requires l <= lv
    decreases lv
  {
    if l == lv then Some(t)
    else if !Live(a, mem, t, a.index(va, lv)) then None
    else TableAt(a, mem, Child(a, mem, t, a.index(va, lv)), lv - 1, va, l)
  }

  /** How many tables the walk to va lacks. */
  function Missing(a: Arch, mem: Memory, t: nat, lv: nat, va: nat): nat
    decreases lv
  {
    if lv == 0 then 0
    else if Live(a, mem, t, a.index(va, lv)) then Missing(a, mem, Child(a, mem, t, a.index(va, lv)), lv - 1, va)
    else lv
  }

  /** The two addresses take the same way down to level l. */
  predicate SameWay(a: Arch, va: nat, vb: nat, lv: nat, l: nat)
    decreases lv
  {
    if lv < l then true
    else a.index(va, lv) == a.index(vb, lv) && (lv > l ==> SameWay(a, va, vb, lv - 1, l))
  }

  /** The two addresses lie in the same virtual page. */
  predicate SamePage(a: Arch, va: nat, vb: nat)
    requires a.levels > 0
  {
    SameWay(a, va, vb, a.levels - 1, 0)
  }

  lemma {:induction false} OwnWay(a: Arch, va: nat, lv: nat, l: nat)
    ensures SameWay(a, va, va, lv, l)
    decreases lv
  {
    if lv > l { OwnWay(a, va, lv - 1, l); }
  }

  ghost predicate AgreeOn(mem: Memory, mem': Memory, s: set<nat>) {
    forall x | x in s :: (x in mem <==> x in mem') && (x in mem ==> mem[x] == mem'[x])
  }

  // ---------------------------------------------------------------------------------------------
  // Framing
  // ---------------------------------------------------------------------------------------------

  /** The two memories hold the same tree at t. */
  ghost predicate SameTree(a: Arch, mem: Memory, mem': Memory, t: nat, lv: nat) {
    && Tree(a, mem', t, lv) && Foot(a, mem', t, lv) == Foot(a, mem, t, lv)
    && (forall va :: Lookup(a, mem', t, lv, va) == Lookup(a, mem, t, lv, va))
  }

  /** A tree only depends on its own frames. */
  lemma {:induction false} TreeFrame(a: Arch, mem: Memory, mem': Memory, t: nat, lv: nat)
    requires Tree(a, mem, t, lv) && AgreeOn(mem, mem', Foot(a, mem, t, lv))
    ensures SameTree(a, mem, mem', t, lv)
    decreases lv
  {
    assert t in Foot(a, mem, t, lv);
    if lv > 0 {
      var d := lv - 1;
      forall i: nat | Live(a, mem, t, i)
        ensures SameTree(a, mem, mem', Child(a, mem, t, i), d)
      {
        assert Foot(a, mem, Child(a, mem, t, i), d) <= Foot(a, mem, t, lv);
        TreeFrame(a, mem, mem', Child(a, mem, t, i), d);
      }
      SubtreesFrame(a, mem, mem', t, d, lv);
    }
  }

  lemma SubtreesFrame(a: Arch, mem: Memory, mem': Memory, t: nat, d: nat, lv: nat)
    requires lv == d + 1 && t in mem && t in mem' && mem[t] == mem'[t] && |mem[t]| == a.entries
    requires Subtrees(a, mem, t, d)
    requires forall i: nat | Live(a, mem, t, i) :: SameTree(a, mem, mem', Child(a, mem, t, i), d)
    ensures SameTree(a, mem, mem', t, lv)
  {
    assert forall i: nat :: Live(a, mem, t, i) == Live(a, mem', t, i) && Child(a, mem, t, i) == Child(a, mem', t, i);
    assert Subtrees(a, mem', t, d);
    assert Below(a, mem', t, d, a.entries) == Below(a, mem, t, d, a.entries);
    forall va ensures Lookup(a, mem', t, lv, va) == Lookup(a, mem, t, lv, va) {
      var i := a.index(va, lv);
      if Live(a, mem, t, i) { assert SameTree(a, mem, mem', Child(a, mem, t, i), d); }
    }
  }

  /** Every frame of a tree holds a table of the right size. */
  lemma {:induction false} FootIsTables(a: Arch, mem: Memory, t: nat, lv: nat, x: nat)
    requires Tree(a, mem, t, lv) && x in Foot(a, mem, t, lv)
    ensures x in mem && |mem[x]| == a.entries
    decreases lv
  {
    if x != t {
      var i: nat :| i < a.entries && Live(a, mem, t, i) && x in Foot(a, mem, Child(a, mem, t, i), lv - 1);
      FootIsTables(a, mem, Child(a, mem, t, i), lv - 1, x);
    }
  }

  /** The tables on the way to an address belong to the tree. */
  lemma {:induction false} TableAtInFoot(a: Arch, mem: Memory, t: nat, lv: nat, va: nat, l: nat)
    requires Tree(a, mem, t, lv) && l <= lv && TableAt(a, mem, t, lv, va, l).Some?
    ensures var u := TableAt(a, mem, t, lv, va, l).value; u in Foot(a, mem, t, lv) && u in mem && |mem[u]| == a.entries
    decreases lv
  {
    if l < lv { TableAtInFoot(a, mem, Child(a, mem, t, a.index(va, lv)), lv - 1, va, l); }
  }

  lemma {:induction false} TableAtSteps(a: Arch, mem: Memory, t: nat, lv: nat, va: nat, l: nat)
    requires 0 < l <= lv && TableAt(a, mem, t, lv, va, l).Some?
    ensures var u := TableAt(a, mem, t, lv, va, l).value;
      TableAt(a, mem, t, lv, va, l - 1) ==
        if Live(a, mem, u, a.index(va, l)) then Some(Child(a, mem, u, a.index(va, l))) else None
    decreases lv
  {
    if l < lv { TableAtSteps(a, mem, Child(a, mem, t, a.index(va, lv)), lv - 1, va, l); }
  }

  /** A walk that stops early means that the address is not translated. */
  lemma {:induction false} LookupIsWalk(a: Arch, mem: Memory, t: nat, lv: nat, va: nat)
    ensures Lookup(a, mem, t, lv, va) ==
      match TableAt(a, mem, t, lv, va, 0)
      case None => None
      case Some(u) => if Live(a, mem, u, a.index(va, 0)) then Some(mem[u][a.index(va, 0)]) else None
    decreases lv
  {
    if lv > 0 && Live(a, mem, t, a.index(va, lv)) { LookupIsWalk(a, mem, Child(a, mem, t, a.index(va, lv)), lv - 1,
                                                                 va); }
  }

  /** Only valid entries translate. */
  lemma {:induction false} LookupIsValid(a: Arch, mem: Memory, t: nat, lv: nat, va: nat)
    ensures Lookup(a, mem, t, lv, va).Some? ==> a.valid(Lookup(a, mem, t, lv, va).value)
    decreases lv
  {
    if lv > 0 && Live(a, mem, t, a.index(va, lv)) {
      LookupIsValid(a, mem, Child(a, mem, t, a.index(va, lv)), lv - 1, va);
    }
  }

  lemma {:induction false} NoTableNoLookup(a: Arch, mem: Memory, t: nat, lv: nat, va: nat, l: nat)
    requires l <= lv && TableAt(a, mem, t, lv, va, l).None?
    ensures Lookup(a, mem, t, lv, va) == None && TableAt(a, mem, t, lv, va, 0) == None
    decreases lv
  {
    if Live(a, mem, t, a.index(va, lv)) { NoTableNoLookup(a, mem, Child(a, mem, t, a.index(va, lv)), lv - 1, va, l); }
  }

  // ---------------------------------------------------------------------------------------------
  // Writing one entry
  // ---------------------------------------------------------------------------------------------

  /** Changing the tree below one entry, with extra frames taken from outside, keeps a tree. */
  lemma OneChildChanged(a: Arch, mem: Memory, mem': Memory, t: nat, d: nat, lv: nat, k: nat, extra: set<nat>)
    requires lv == d + 1 && Tree(a, mem, t, lv) && t in mem' && mem'[t] == mem[t] && Live(a, mem, t, k)
    requires var c := Child(a, mem, t, k); Tree(a, mem', c, d) && Foot(a, mem', c, d) == Foot(a, mem, c, d) + extra
    requires extra !! Foot(a, mem, t, lv)
    requires forall i: nat | Live(a, mem, t, i) && i != k :: SameTree(a, mem, mem', Child(a, mem, t, i), d)
    ensures Tree(a, mem', t, lv) && Foot(a, mem', t, lv) == Foot(a, mem, t, lv) + extra
  {
    assert forall i: nat :: Live(a, mem, t, i) == Live(a, mem', t, i) && Child(a, mem, t, i) == Child(a, mem', t, i);
    assert forall i: nat | Live(a, mem, t, i) :: Foot(a, mem, Child(a, mem, t, i), d) <= Foot(a, mem, t, lv);
    OneChildSubtrees(a, mem, mem', t, d, lv, k, extra);
    OneChildFoot(a, mem, mem', t, d, k, extra);
  }

  lemma OneChildSubtrees(a: Arch, mem: Memory, mem': Memory, t: nat, d: nat, lv: nat, k: nat, extra: set<nat>)
    requires Subtrees(a, mem, t, d) && Live(a, mem, t, k)
    requires forall i: nat :: Live(a, mem, t, i) == Live(a, mem', t, i) && Child(a, mem, t, i) == Child(a, mem', t, i)
    requires forall i: nat | Live(a, mem, t, i) :: Foot(a, mem, Child(a, mem, t, i), d) <= Foot(a, mem, t, lv)
    requires Tree(a, mem', Child(a, mem, t, k), d)
    requires Foot(a, mem', Child(a, mem, t, k), d) == Foot(a, mem, Child(a, mem, t, k), d) + extra
    requires t in Foot(a, mem, t, lv) && extra !! Foot(a, mem, t, lv)
    requires forall i: nat | Live(a, mem, t, i) && i != k :: SameTree(a, mem, mem', Child(a, mem, t, i), d)
    ensures Subtrees(a, mem', t, d)
  {
  }

  lemma OneChildFoot(a: Arch, mem: Memory, mem': Memory, t: nat, d: nat, k: nat, extra: set<nat>)
    requires forall i: nat :: Live(a, mem, t, i) == Live(a, mem', t, i) && Child(a, mem, t, i) == Child(a, mem', t, i)
    requires Live(a, mem, t, k) && k < a.entries
    requires var c := Child(a, mem, t, k); Foot(a, mem', c, d) == Foot(a, mem, c, d) + extra
    requires forall i: nat | Live(a, mem, t, i) && i != k :: SameTree(a, mem, mem', Child(a, mem, t, i), d)
    ensures Below(a, mem', t, d, a.entries) == Below(a, mem, t, d, a.entries) + extra
  {
    forall x ensures x in Below(a, mem', t, d, a.entries) <==> x in Below(a, mem, t, d, a.entries) + extra {
      if x in extra { assert Live(a, mem', t, k) && x in Foot(a, mem', Child(a, mem', t, k), d); }
      if x in Below(a, mem, t, d, a.entries) {
        var i: nat :| i < a.entries && Live(a, mem, t, i) && x in Foot(a, mem, Child(a, mem, t, i), d);
        assert Live(a, mem', t, i) && x in Foot(a, mem', Child(a, mem', t, i), d);
      }
      if x in Below(a, mem', t, d, a.entries) && x !in extra {
        var i: nat :| i < a.entries && Live(a, mem', t, i) && x in Foot(a, mem', Child(a, mem', t, i), d);
        assert Live(a, mem, t, i) && x in Foot(a, mem, Child(a, mem, t, i), d);
      }
    }
  }

  /** The children off the way keep their trees when only table u below child k and new frames change. */
  lemma OtherChildrenKept(a: Arch, mem: Memory, mem': Memory, t: nat, d: nat, lv: nat, k: nat, u: nat)
    requires lv == d + 1 && Tree(a, mem, t, lv) && Live(a, mem, t, k) && u in Foot(a, mem, Child(a, mem, t, k), d)
    requires AgreeOn(mem, mem', Foot(a, mem, t, lv) - {u})
    ensures t != u && t in mem' && mem'[t] == mem[t]
    ensures forall i: nat | Live(a, mem, t, i) && i != k :: SameTree(a, mem, mem', Child(a, mem, t, i), d)
  {
    assert Subtrees(a, mem, t, d);
    assert t in Foot(a, mem, t, lv);
    forall i: nat | Live(a, mem, t, i) && i != k
      ensures SameTree(a, mem, mem', Child(a, mem, t, i), d)
    {
      assert Foot(a, mem, Child(a, mem, t, i), d) <= Foot(a, mem, t, lv);
      TreeFrame(a, mem, mem', Child(a, mem, t, i), d);
    }
  }

  function AsMapping(a: Arch, e: nat): Option<nat> { if a.valid(e) then Some(e) else None }

  /** Writing a last-level entry changes the translation of its own page and nothing else. */
  lemma {:induction false} LeafWrite(a: Arch, mem: Memory, mem': Memory, t: nat, lv: nat, va: nat, u: nat, e: nat)
    requires Lawful(a) && Tree(a, mem, t, lv) && TableAt(a, mem, t, lv, va, 0) == Some(u)
    requires u in mem && a.index(va, 0) < |mem[u]| && mem' == SetEntry(mem, u, a.index(va, 0), e)
    ensures Tree(a, mem', t, lv) && Foot(a, mem', t, lv) == Foot(a, mem, t, lv)
    ensures forall vb ::
      Lookup(a, mem', t, lv, vb) == if SameWay(a, va, vb, lv, 0) then AsMapping(a, e) else Lookup(a, mem, t, lv, vb)
    decreases lv
  {
    if lv > 0 {
      var d, k := lv - 1, a.index(va, lv);
      var c := Child(a, mem, t, k);
      LeafWrite(a, mem, mem', c, d, va, u, e);
      TableAtInFoot(a, mem, c, d, va, 0);
      OtherChildrenKept(a, mem, mem', t, d, lv, k, u);
      OneChildChanged(a, mem, mem', t, d, lv, k, {});
      forall vb
        ensures Lookup(a, mem', t, lv, vb) ==
          if SameWay(a, va, vb, lv, 0) then AsMapping(a, e) else Lookup(a, mem, t, lv, vb)
      {
        var j := a.index(vb, lv);
        if j != k && Live(a, mem, t, j) { assert SameTree(a, mem, mem', Child(a, mem, t, j), d); }
      }
    }
  }

  /** A zeroed table translates nothing. */
  lemma EmptyTable(a: Arch, mem: Memory, n: nat, lv: nat)
    requires Lawful(a) && n in mem && |mem[n]| == a.entries && forall i | 0 <= i < a.entries :: mem[n][i] == 0
    ensures Tree(a, mem, n, lv) && Foot(a, mem, n, lv) == {n}
    ensures forall va :: Lookup(a, mem, n, lv, va) == None
  {
    assert forall i: nat :: !Live(a, mem, n, i);
    if lv > 0 { assert Below(a, mem, n, lv - 1, a.entries) == {}; }
  }

  /** Hanging the separate tree n below the unused entry k of t adds its translations there. */
  lemma LinkTree(a: Arch, mem: Memory, mem': Memory, t: nat, d: nat, lv: nat, k: nat, n: nat)
    requires Lawful(a) && lv == d + 1 && Tree(a, mem, t, lv) && k < a.entries && !Live(a, mem, t, k)
    requires Tree(a, mem, n, d) && a.aligned(n) && Foot(a, mem, n, d) !! Foot(a, mem, t, lv)
    requires mem' == SetEntry(mem, t, k, a.encode(n, a.tableFlags))
    ensures Tree(a, mem', t, lv) && Foot(a, mem', t, lv) == Foot(a, mem, t, lv) + Foot(a, mem, n, d)
    ensures SameTree(a, mem, mem', n, d)
    ensures forall vb ::
      Lookup(a, mem', t, lv, vb) == if a.index(vb, lv) == k then Lookup(a, mem, n, d, vb) else Lookup(a, mem, t, lv, vb)
  {
    assert t in Foot(a, mem, t, lv);
    TreeFrame(a, mem, mem', n, d);
    forall i: nat | Live(a, mem, t, i)
      ensures SameTree(a, mem, mem', Child(a, mem, t, i), d)
      ensures Foot(a, mem, Child(a, mem, t, i), d) <= Foot(a, mem, t, lv)
    {
      TreeFrame(a, mem, mem', Child(a, mem, t, i), d);
    }
    LinkedChildren(a, mem, mem', t, k, n);
    LinkedSubtrees(a, mem, mem', t, d, lv, k, n);
    LinkedFoot(a, mem, mem', t, d, k, n);
    forall vb
      ensures Lookup(a, mem', t, lv, vb) ==
        if a.index(vb, lv) == k then Lookup(a, mem, n, d, vb) else Lookup(a, mem, t, lv, vb)
    {
      var j := a.index(vb, lv);
      if Live(a, mem, t, j) { assert SameTree(a, mem, mem', Child(a, mem, t, j), d); }
    }
  }

  lemma LinkedChildren(a: Arch, mem: Memory, mem': Memory, t: nat, k: nat, n: nat)
    requires Lawful(a) && t in mem && k < |mem[t]| && a.aligned(n)
    requires mem' == SetEntry(mem, t, k, a.encode(n, a.tableFlags))
    ensures Live(a, mem', t, k) && Child(a, mem', t, k) == n
    ensures forall i: nat | i != k ::
      Live(a, mem', t, i) == Live(a, mem, t, i) && Child(a, mem', t, i) == Child(a, mem, t, i)
  {
  }

  lemma LinkedSubtrees(a: Arch, mem: Memory, mem': Memory, t: nat, d: nat, lv: nat, k: nat, n: nat)
    requires Subtrees(a, mem, t, d) && !Live(a, mem, t, k) && Live(a, mem', t, k) && Child(a, mem', t, k) == n
    requires forall i: nat | i != k ::
      Live(a, mem', t, i) == Live(a, mem, t, i) && Child(a, mem', t, i) == Child(a, mem, t, i)
    requires forall i: nat | Live(a, mem, t, i) :: SameTree(a, mem, mem', Child(a, mem, t, i), d)
    requires forall i: nat | Live(a, mem, t, i) :: Foot(a, mem, Child(a, mem, t, i), d) <= Foot(a, mem, t, lv)
    requires SameTree(a, mem, mem', n, d) && t in Foot(a, mem, t, lv) && Foot(a, mem, n, d) !! Foot(a, mem, t, lv)
    ensures Subtrees(a, mem', t, d)
  {
  }

  lemma LinkedFoot(a: Arch, mem: Memory, mem': Memory, t: nat, d: nat, k: nat, n: nat)
    requires !Live(a, mem, t, k) && Live(a, mem', t, k) && Child(a, mem', t, k) == n && k < a.entries
    requires forall i: nat | i != k ::
      Live(a, mem', t, i) == Live(a, mem, t, i) && Child(a, mem', t, i) == Child(a, mem, t, i)
    requires forall i: nat | Live(a, mem, t, i) :: SameTree(a, mem, mem', Child(a, mem, t, i), d)
    requires Foot(a, mem', n, d) == Foot(a, mem, n, d)
    ensures Below(a, mem', t, d, a.entries) == Below(a, mem, t, d, a.entries) + Foot(a, mem, n, d)
  {
    forall x
      ensures x in Below(a, mem', t, d, a.entries) <==> x in Below(a, mem, t, d, a.entries) + Foot(a, mem, n, d)
    {
      if x in Foot(a, mem, n, d) { assert Live(a, mem', t, k) && x in Foot(a, mem', Child(a, mem', t, k), d); }
      if x in Below(a, mem, t, d, a.entries) {
        var i: nat :| i < a.entries && Live(a, mem, t, i) && x in Foot(a, mem, Child(a, mem, t, i), d);
        assert Live(a, mem', t, i) && x in Foot(a, mem', Child(a, mem', t, i), d);
      }
      if x in Below(a, mem', t, d, a.entries) && x !in Foot(a, mem, n, d) {
        var i: nat :| i < a.entries && Live(a, mem', t, i) && x in Foot(a, mem', Child(a, mem', t, i), d);
        assert Live(a, mem, t, i) && x in Foot(a, mem, Child(a, mem, t, i), d);
      }
    }
  }

  /** Linking a fresh zeroed table n into an unused entry changes no translation. */
  lemma {:induction false} LinkWrite(a: Arch, mem: Memory, mem': Memory, t: nat, lv: nat, va: nat, l: nat, u: nat,
                                     n: nat)
    requires Lawful(a) && Tree(a, mem, t, lv) && 0 < l <= lv && TableAt(a, mem, t, lv, va, l) == Some(u)
    requires u in mem && |mem[u]| == a.entries && !Live(a, mem, u, a.index(va, l))
    requires n !in mem && a.aligned(n) && n !in Foot(a, mem, t, lv)
    requires mem' == SetEntry(mem[n := ZeroTable(a)], u, a.index(va, l), a.encode(n, a.tableFlags))
    ensures Tree(a, mem', t, lv) && Foot(a, mem', t, lv) == Foot(a, mem, t, lv) + {n}
    ensures forall vb :: Lookup(a, mem', t, lv, vb) == Lookup(a, mem, t, lv, vb)
    ensures TableAt(a, mem', t, lv, va, l) == Some(u)
    decreases lv
  {
    var d, k := lv - 1, a.index(va, lv);
    if l == lv {
      var m: Memory := mem[n := ZeroTable(a)];
      TreeFrame(a, mem, m, t, lv);
      EmptyTable(a, m, n, d);
      LinkTree(a, m, mem', t, d, lv, k, n);
    } else {
      var c := Child(a, mem, t, k);
      assert Foot(a, mem, c, d) <= Foot(a, mem, t, lv);
      LinkWrite(a, mem, mem', c, d, va, l, u, n);
      TableAtInFoot(a, mem, c, d, va, l);
      OtherChildrenKept(a, mem, mem', t, d, lv, k, u);
      OneChildChanged(a, mem, mem', t, d, lv, k, {n});
      forall vb ensures Lookup(a, mem', t, lv, vb) == Lookup(a, mem, t, lv, vb) {
        var j := a.index(vb, lv);
        if j != k && Live(a, mem, t, j) { assert SameTree(a, mem, mem', Child(a, mem, t, j), d); }
      }
    }
  }
}
