/** DynamicNameDB: a map from names to values that searches linearly at first and
    by binary search once enough lookups have paid for a sort (lib/nameinfo.cc).
 */
module DynamicNames {
  import opened Wrappers
  import opened Machine
  import opened Powers
  import opened Qsort
  import Strings

  /** `_sorted` above this count makes the next lookup sort. */
  const PATIENCE := 20
  const SORTED := 100

  predicate Distinct(names: seq<string>) {
    forall i, j :: 0 <= i < j < |names| ==> names[i] != names[j]
  }

  ghost predicate NamesSorted(names: seq<string>) {
    forall i, j :: 0 <= i < j < |names| ==> Strings.Compare(names[i], names[j]) < 0
  }

  /** The map that two parallel vectors stand for. */
  ghost function Table<V>(names: seq<string>, values: seq<V>): (t: map<string, V>)
    requires Distinct(names) && |names| == |values|
    ensures forall i :: 0 <= i < |names| ==> names[i] in t && t[names[i]] == values[i]
    ensures forall s :: s in t ==> s in names
  {
    map i | 0 <= i < |names| :: names[i] := values[i]
  }

  // ----- The comparator of indices ------------------------------------------

  function At(names: seq<string>, i: int): string {
    if 0 <= i < |names| then names[i] else ""
  }

  /** namelist_sort_compar. */
  function IndexCompare(names: seq<string>): (int, int) -> int {
    (a, b) => Strings.Compare(At(names, a), At(names, b))
  }

  lemma IndexOrder(names: seq<string>)
    ensures TotalPreorder(IndexCompare(names))
  {
    var cmp := IndexCompare(names);
    forall a, b ensures cmp(a, b) < 0 <==> cmp(b, a) > 0 { Strings.CompareFlips(At(names, a), At(names, b)); }
    forall a, b, c | cmp(a, b) <= 0 && cmp(b, c) <= 0 ensures cmp(a, c) <= 0 {
      Strings.CompareTrans(At(names, a), At(names, b), At(names, c));
    }
  }

  lemma SizeFits(n: nat)
    requires n <= INT_MAX
    ensures n < Pow2(8 * SIZEOF_SIZE_T)
  {
    assert Pow2(8) == 256 by { assert Pow2(4) == 16; }
    Pow2Adds(8, 8);
    Pow2Adds(16, 16);
    Pow2Adds(32, 32);
  }

  /** p lists the positions below n, each once. */
  ghost predicate Permutes(p: seq<int>, n: nat) {
    && |p| == n
    && (forall i :: 0 <= i < n ==> 0 <= p[i] < n)
    && (forall i, j :: 0 <= i < j < n ==> p[i] != p[j])
    && (forall k :: 0 <= k < n ==> k in p)
  }

  lemma SortedPermutation(id: seq<int>, p: seq<int>)
    requires forall i :: 0 <= i < |id| ==> id[i] == i
    requires Rearranged(id, p, 0, |id|)
    ensures Permutes(p, |id|)
  {
    var n := |id|;
    assert id[0..n] == id && p[0..n] == p;
    assert multiset(id) == multiset(p);
    forall i | 0 <= i < n ensures 0 <= p[i] < n {
      assert p[i] in multiset(p);
      assert p[i] in multiset(id) && p[i] in id;
    }
    forall k | 0 <= k < n ensures k in p {
      assert id[k] in multiset(id);
      assert k in multiset(p);
    }
    RearrangedInjective(id, p, 0, n, (x: int) => x);
  }

  /** Two maps with the same entries are one. */
  lemma TableIs<V>(names: seq<string>, values: seq<V>, t: map<string, V>)
    requires Distinct(names) && |names| == |values|
    requires forall i :: 0 <= i < |names| ==> names[i] in t && t[names[i]] == values[i]
    requires forall s :: s in t ==> s in names
    ensures t == Table(names, values)
  {
    var u := Table(names, values);
    forall s | s in t ensures s in u && u[s] == t[s] {
      var i :| 0 <= i < |names| && names[i] == s;
    }
  }

  /** Permuting both vectors alike keeps the map. */
  lemma PermutedTable<V>(names: seq<string>, values: seq<V>, p: seq<int>, names': seq<string>, values': seq<V>)
    requires Distinct(names) && |names| == |values| && Permutes(p, |names|)
    requires |names'| == |values'| == |p| == |names|
    requires forall i :: 0 <= i < |p| ==> names'[i] == names[p[i]] && values'[i] == values[p[i]]
    ensures Distinct(names') && Table(names', values') == Table(names, values)
  {
    forall i, j | 0 <= i < j < |names'| ensures names'[i] != names'[j] {
      assert p[i] != p[j];
    }
    var t := Table(names, values);
    forall s | s in t ensures s in names' {
      var k :| 0 <= k < |names| && names[k] == s;
      assert k in p;
      var i :| 0 <= i < |p| && p[i] == k;
      assert names'[i] == s;
    }
    TableIs(names', values', t);
  }

  /** Distinct names in comparator order are strictly sorted. */
  lemma SortedNames(names: seq<string>, p: seq<int>, names': seq<string>)
    requires Distinct(names) && Permutes(p, |names|) && |names'| == |p| == |names|
    requires forall i :: 0 <= i < |p| ==> names'[i] == names[p[i]]
    requires Sorted(p, 0, |p|, IndexCompare(names))
    ensures NamesSorted(names')
  {
    forall i, j | 0 <= i < j < |names'| ensures Strings.Compare(names'[i], names'[j]) < 0 {
      assert IndexCompare(names)(p[i], p[j]) <= 0 && p[i] != p[j];
      assert names[p[i]] != names[p[j]];
    }
  }

  lemma NoBlank(names: seq<string>, p: seq<int>, names': seq<string>)
    requires Permutes(p, |names|) && |names'| == |p| == |names| && "" !in names
    requires forall i :: 0 <= i < |p| ==> names'[i] == names[p[i]]
    ensures "" !in names'
  {
  }

  // ----- Operations ---------------------------------------------------------

  datatype Op<V> = Define(name: string, value: V) | Query(name: string)

  /** The simple database: what each call does to a map, and answers. */
  function MapAfter<V>(t: map<string, V>, op: Op<V>): map<string, V> {
    match op
    case Define(s, v) => if s == "" then t else t[s := v]
    case Query(_) => t
  }

  function MapAnswer<V>(t: map<string, V>, op: Op<V>): Option<V> {
    match op
    case Define(s, v) => if s == "" then None else Some(v)
    case Query(s) => if s in t then Some(t[s]) else None
  }

  function MapRun<V>(t: map<string, V>, ops: seq<Op<V>>): (r: seq<Option<V>>)
    ensures |r| == |ops|
    decreases |ops|
  {
    if |ops| == 0 then [] else [MapAnswer(t, ops[0])] + MapRun(MapAfter(t, ops[0]), ops[1..])
  }

  /** sort's first half: the identity permutation, sorted by name. */
  method SortedOrder(names: seq<string>) returns (permutation: array<int>)
    requires |names| <= INT_MAX
    ensures fresh(permutation) && permutation.Length == |names|
    ensures Permutes(permutation[..], |names|) && Sorted(permutation[..], 0, |names|, IndexCompare(names))
  {
    hide Permutes, Rearranged, TotalPreorder, IndexCompare, Sorted, Pow2;
    var n := |names|;
    permutation := new int[n](i => i);
    ghost var id := permutation[..];
    SizeFits(n);
    IndexOrder(names);
    var cmp := IndexCompare(names);
    var c := new Comparator((_, i: int, j: int) => cmp(i, j), cmp);
    ClickQsort(permutation, 0, n, c, SIZEOF_SIZE_T);
    SortedPermutation(id, permutation[..]);
  }

  class DynamicNameDB<V> {
    var names: seq<string>
    var values: seq<V>
    var sorted: int

    ghost predicate Valid()
      reads this
    {
      && |names| == |values| <= INT_MAX && Distinct(names) && "" !in names
      && 0 <= sorted <= SORTED && (sorted == SORTED ==> NamesSorted(names))
    }

    ghost function View(): (t: map<string, V>)
      requires Valid()
      reads this
    {
      Table(names, values)
    }

    constructor ()
      ensures Valid() && View() == map[] && names == []
    {
      names, values, sorted := [], [], 0;
    }

    method Sort()
      requires Valid()
      modifies this
      ensures Valid() && View() == old(View()) && |names| == old(|names|)
      ensures sorted == SORTED || (names == [] && sorted == old(sorted))
    {
      if sorted == SORTED || |names| == 0 { return; }
      var permutation := SortedOrder(names);
      var newNames, newValues := Gather(permutation);
      ghost var p := permutation[..];
      PermutedTable(names, values, p, newNames, newValues);
      SortedNames(names, p, newNames);
      NoBlank(names, p, newNames);
      names, values, sorted := newNames, newValues, SORTED;
    }

    /** The loop that copies names and values into their new places. */
    method Gather(permutation: array<int>) returns (newNames: seq<string>, newValues: seq<V>)
      requires |names| == |values| == permutation.Length && Permutes(permutation[..], |names|)
      ensures |newNames| == |newValues| == |names|
      ensures forall k :: 0 <= k < |names| ==>
                newNames[k] == names[permutation[..][k]] && newValues[k] == values[permutation[..][k]]
    {
      newNames, newValues := [], [];
      var i := 0;
      while i < |names|
        invariant 0 <= i <= |names| && |newNames| == |newValues| == i
        invariant forall k :: 0 <= k < i ==>
            newNames[k] == names[permutation[..][k]] && newValues[k] == values[permutation[..][k]]
      {
        assert permutation[i] == permutation[..][i];
        newNames := newNames + [names[permutation[i]]];
        newValues := newValues + [values[permutation[i]]];
        i := i + 1;
      }
    }

    method BinarySearch(name: string) returns (i: int)
      requires Valid() && sorted == SORTED
      ensures i < |names| && (if i >= 0 then names[i] == name else i == -1 && name !in names)
    {
      var l, r := 0, |names|;
      while l < r
        invariant 0 <= l <= r <= |names|
        invariant forall k :: 0 <= k < l ==> names[k] != name
        invariant forall k :: r <= k < |names| ==> names[k] != name
      {
        var m := l + (r - l) / 2;
        var cmp := Strings.Compare(name, names[m]);
        if cmp == 0 { return m; }
        if cmp < 0 {
          forall k | m <= k < |names| ensures names[k] != name { Outside(names, m, k, name); }
          r := m;
        } else {
          forall k | 0 <= k <= m ensures names[k] != name { Outside(names, m, k, name); }
          l := m + 1;
        }
      }
      i := -1;
    }

    method LinearSearch(name: string) returns (i: int)
      requires Valid()
      ensures i < |names| && (if i >= 0 then names[i] == name else i == -1 && name !in names)
    {
      i := 0;
      while i < |names|
        invariant 0 <= i <= |names| && name !in names[..i]
      {
        if name == names[i] { return; }
        i := i + 1;
      }
      i := -1;
    }

    /** find: the place of a name, made on demand; `blank` is what extending the
        value buffer leaves there. */
    method Find(name: string, create: bool, blank: V) returns (i: int)
      requires Valid() && |names| < INT_MAX
      modifies this
      ensures Valid() && i < |names|
      ensures |names| == old(|names|) + if name !in old(View()) && create && name != "" then 1 else 0
      ensures i >= 0 <==> (name in old(View()) || (create && name != ""))
      ensures i >= 0 ==> names[i] == name
      ensures View() == if name !in old(View()) && create && name != "" then old(View())[name := blank] else old(View())
    {
      if sorted > PATIENCE { Sort(); }
      if sorted == SORTED {
        i := BinarySearch(name);
      } else {
        sorted := sorted + 1;
        i := LinearSearch(name);
      }
      if i < 0 && create && name != "" {
        Appended(names, values, name, blank);
        sorted, names, values := 0, names + [name], values + [blank];
        i := |names| - 1;
      }
    }

    method Query(name: string, blank: V) returns (r: Option<V>)
      requires Valid() && |names| < INT_MAX
      modifies this
      ensures Valid() && View() == old(View()) && |names| == old(|names|)
      ensures r == if name in View() then Some(View()[name]) else None
    {
      var x := Find(name, false, blank);
      r := if x >= 0 then Some(values[x]) else None;
    }

    method Define(name: string, value: V, blank: V) returns (ok: bool)
      requires Valid() && |names| < INT_MAX
      modifies this
      ensures Valid() && ok == (name != "") && |names| <= old(|names|) + 1
      ensures View() == if ok then old(View())[name := value] else old(View())
    {
      var x := Find(name, true, blank);
      if x >= 0 {
        Overwritten(names, values, x, value);
        values := values[x := value];
      }
      ok := x >= 0;
    }

    /** Every run of defines and queries answers like the map. */
    method Run(ops: seq<Op<V>>, blank: V) returns (answers: seq<Option<V>>)
      requires Valid() && |names| + |ops| < INT_MAX
      modifies this
      ensures Valid() && answers == MapRun(old(View()), ops)
    {
      answers := [];
      ghost var start := View();
      var i := 0;
      while i < |ops|
        invariant 0 <= i <= |ops| && Valid() && |names| + |ops| - i < INT_MAX
        invariant MapRun(start, ops) == answers + MapRun(View(), ops[i..])
      {
        ghost var t := View();
        assert ops[i..][1..] == ops[i + 1..];
        match ops[i] {
          case Define(s, v) =>
            var ok := Define(s, v, blank);
            answers := answers + [if ok then Some(v) else None];
          case Query(s) =>
            var r := Query(s, blank);
            answers := answers + [r];
        }
        assert View() == MapAfter(t, ops[i]);
        i := i + 1;
      }
    }
  }

  lemma Outside(names: seq<string>, m: nat, k: nat, name: string)
    requires NamesSorted(names) && m < |names| && k < |names|
    requires var c := Strings.Compare(name, names[m]); (c < 0 && m <= k) || (c > 0 && k <= m)
    ensures names[k] != name
  {
    Strings.CompareFlips(name, names[m]);
    Strings.CompareFlips(names[k], names[m]);
  }

  lemma Appended<V>(names: seq<string>, values: seq<V>, name: string, v: V)
    requires Distinct(names) && |names| == |values| && name !in names
    ensures Distinct(names + [name])
    ensures Table(names + [name], values + [v]) == Table(names, values)[name := v]
  {
    var t := Table(names, values)[name := v];
    assert forall i :: 0 <= i < |names| ==> (names + [name])[i] == names[i] && (values + [v])[i] == values[i];
    assert (names + [name])[|names|] == name;
    TableIs(names + [name], values + [v], t);
  }

  lemma Overwritten<V>(names: seq<string>, values: seq<V>, x: nat, v: V)
    requires Distinct(names) && |names| == |values| && x < |names|
    ensures Table(names, values[x := v]) == Table(names, values)[names[x] := v]
  {
    TableIs(names, values[x := v], Table(names, values)[names[x] := v]);
  }
}
