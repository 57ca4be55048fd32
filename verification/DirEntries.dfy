/** A directory as RamFs stores it: an array of entries, kept dense by moving the last one into a gap. */
module DirEntries {

  datatype Entry = Entry(name: string, ino: nat)

  predicate NamesDiffer(es: seq<Entry>, i: nat, j: nat)
    requires i < |es| && j < |es|
  {
    es[i].name != es[j].name
  }

  predicate DistinctNames(es: seq<Entry>) {
    forall i: nat, j: nat | i < j < |es| :: NamesDiffer(es, i, j)
  }

  /** What the entries say: the inode of each name. */
  function NamesOf(es: seq<Entry>): map<string, nat> {
    if es == [] then map[]
    else var n := |es| - 1; NamesOf(es[..n])[es[n].name := es[n].ino]
  }

  lemma DistinctPrefix(es: seq<Entry>, n: nat)
    requires DistinctNames(es) && n <= |es|
    ensures DistinctNames(es[..n])
  {
    forall i: nat, j: nat | i < j < n ensures NamesDiffer(es[..n], i, j) {
      assert NamesDiffer(es, i, j);
    }
  }

  /** Every entry is in the map, and the map has as many names as there are entries. */
  lemma {:induction false} EntryInNames(es: seq<Entry>, k: nat)
    requires DistinctNames(es) && k < |es|
    ensures es[k].name in NamesOf(es) && NamesOf(es)[es[k].name] == es[k].ino
    decreases |es|
  {
    var n := |es| - 1;
    if k < n {
      DistinctPrefix(es, n);
      EntryInNames(es[..n], k);
      assert NamesDiffer(es, k, n);
    }
  }

  lemma {:induction false} NameHasEntry(es: seq<Entry>, name: string) returns (k: nat)
    requires name in NamesOf(es)
    ensures k < |es| && es[k].name == name
    decreases |es|
  {
    var n := |es| - 1;
    if es[n].name == name { k := n; } else { k := NameHasEntry(es[..n], name); }
  }

  lemma LastIsNew(es: seq<Entry>, n: nat)
    requires DistinctNames(es) && n + 1 == |es|
    ensures es[n].name !in NamesOf(es[..n])
  {
    forall k | 0 <= k < n ensures es[..n][k].name != es[n].name {
      assert NamesDiffer(es, k, n);
    }
    if es[n].name in NamesOf(es[..n]) {
      var _ := NameHasEntry(es[..n], es[n].name);
    }
  }

  lemma {:induction false} NamesCount(es: seq<Entry>)
    requires DistinctNames(es)
    ensures |NamesOf(es)| == |es|
    decreases |es|
  {
    if es != [] {
      var n := |es| - 1;
      DistinctPrefix(es, n);
      NamesCount(es[..n]);
      LastIsNew(es, n);
    }
  }

  lemma NamesGrow(es: seq<Entry>, e: Entry)
    ensures NamesOf(es + [e]) == NamesOf(es)[e.name := e.ino]
  {
    assert (es + [e])[..|es|] == es;
  }

  lemma AppendEntry(es: seq<Entry>, e: Entry)
    requires DistinctNames(es) && e.name !in NamesOf(es)
    ensures DistinctNames(es + [e]) && NamesOf(es + [e]) == NamesOf(es)[e.name := e.ino]
  {
    NamesGrow(es, e);
    forall i: nat, j: nat | i < j < |es| + 1 ensures NamesDiffer(es + [e], i, j) {
      if j < |es| { assert NamesDiffer(es, i, j); } else { EntryInNames(es, i); }
    }
  }

  /** Removal: the last entry takes the place of the removed one. */
  function DropAt(es: seq<Entry>, k: nat): (r: seq<Entry>)
    requires k < |es|
    ensures |r| == |es| - 1
  {
    var last := |es| - 1;
    (if k != last then es[k := es[last]] else es)[..last]
  }

  /** Where entry i of the shortened array was before. */
  function WasAt(es: seq<Entry>, k: nat, i: nat): (r: nat)
    requires k < |es| && i < |es| - 1
    ensures r < |es| && r != k && DropAt(es, k)[i] == es[r]
  {
    if i == k then |es| - 1 else i
  }

  lemma DropDistinct(es: seq<Entry>, k: nat)
    requires DistinctNames(es) && k < |es|
    ensures DistinctNames(DropAt(es, k))
  {
    var r := DropAt(es, k);
    forall i: nat, j: nat | i < j < |r| ensures NamesDiffer(r, i, j) {
      var a, b := WasAt(es, k, i), WasAt(es, k, j);
      if a < b { assert NamesDiffer(es, a, b); } else { assert NamesDiffer(es, b, a); }
    }
  }

  lemma KeptName(es: seq<Entry>, k: nat, n: string)
    requires DistinctNames(es) && k < |es| && n in NamesOf(DropAt(es, k))
    ensures n != es[k].name && n in NamesOf(es) && NamesOf(DropAt(es, k))[n] == NamesOf(es)[n]
  {
    DropDistinct(es, k);
    var i := NameHasEntry(DropAt(es, k), n);
    EntryInNames(DropAt(es, k), i);
    var a := WasAt(es, k, i);
    EntryInNames(es, a);
    if a < k { assert NamesDiffer(es, a, k); } else { assert NamesDiffer(es, k, a); }
  }

  lemma OtherName(es: seq<Entry>, k: nat, n: string)
    requires DistinctNames(es) && k < |es| && n in NamesOf(es) && n != es[k].name
    ensures n in NamesOf(DropAt(es, k))
  {
    DropDistinct(es, k);
    var a := NameHasEntry(es, n);
    EntryInNames(DropAt(es, k), if a == |es| - 1 then k else a);
  }

  /** Moving the last entry loses no name but the removed one. */
  lemma DropRemovesName(es: seq<Entry>, k: nat)
    requires DistinctNames(es) && k < |es|
    ensures DistinctNames(DropAt(es, k)) && NamesOf(DropAt(es, k)) == NamesOf(es) - {es[k].name}
  {
    DropDistinct(es, k);
    var m, m' := NamesOf(es) - {es[k].name}, NamesOf(DropAt(es, k));
    forall n | n in m' ensures n in m && m'[n] == m[n] {
      KeptName(es, k, n);
    }
    forall n | n in m ensures n in m' {
      OtherName(es, k, n);
    }
    assert m == m';
  }
}
