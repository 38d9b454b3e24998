/** click_qsort: the iterative three-way quicksort of lib/glue.cc.

    Memory is abstracted from bytes to elements: the array `a` stands for the
    caller's buffer, `base` for the pointer passed in and `n` for the element
    count.  A comparator may answer differently from call to call; only the results
    marked "Fair" ask it to follow one function, and those marked "TotalPreorder" ask
    that function to obey the laws of an ordering.
 */
module Qsort {
  import opened Powers

  // ----- Specification ------------------------------------------------------

  /** The laws a caller's comparator is meant to satisfy. */
  ghost predicate TotalPreorder<T(!new)>(cmp: (T, T) -> int) {
    && SignFlips(cmp)
    && (forall x, y, z :: cmp(x, y) <= 0 && cmp(y, z) <= 0 ==> cmp(x, z) <= 0)
  }

  ghost predicate SignFlips<T(!new)>(cmp: (T, T) -> int) {
    forall x, y :: cmp(x, y) < 0 <==> cmp(y, x) > 0
  }

  /** The caller's comparator with its private data: the answer may depend on how
      often it has been asked. */
  class Comparator<T(!new)> {
    const answer: (nat, T, T) -> int
    ghost const law: (T, T) -> int
    var calls: nat

    constructor (answer: (nat, T, T) -> int, ghost law: (T, T) -> int)
      ensures this.answer == answer && this.law == law
    {
      this.answer, this.law, calls := answer, law, 0;
    }

    /** Every answer follows the law. */
    ghost predicate Fair() {
      forall n: nat, x: T, y: T :: answer(n, x, y) == law(x, y)
    }

    /** Fair, and the law is an ordering. */
    ghost predicate Orders() { Fair() && TotalPreorder(law) }

    method Ask(x: T, y: T) returns (r: int)
      modifies this`calls
      ensures calls == old(calls) + 1 && r == answer(old(calls), x, y)
      ensures Fair() ==> r == law(x, y)
    {
      r := answer(calls, x, y);
      calls := calls + 1;
    }
  }

  ghost predicate Sorted<T>(s: seq<T>, lo: int, hi: int, cmp: (T, T) -> int)
    requires 0 <= lo <= hi <= |s|
  {
    forall i, j :: lo <= i < j < hi ==> cmp(s[i], s[j]) <= 0
  }

  /** `t` permutes the elements of `s` inside [lo, hi) and is `s` elsewhere. */
  ghost predicate Rearranged<T>(s: seq<T>, t: seq<T>, lo: int, hi: int)
    requires 0 <= lo <= hi <= |s|
  {
    && |t| == |s|
    && (forall k :: 0 <= k < |s| && !(lo <= k < hi) ==> t[k] == s[k])
    && multiset(t[lo..hi]) == multiset(s[lo..hi])
  }

  /** [lo, hi) falls into three blocks around `pivot`: smaller elements up to
      `p`, the pivot and its equals up to `q`, larger elements up to `hi`. */
  ghost predicate Partitioned<T>(s: seq<T>, lo: int, p: int, q: int, hi: int,
                                 pivot: T, cmp: (T, T) -> int)
    requires 0 <= lo <= p <= q <= hi <= |s|
  {
    && (forall k :: lo <= k < p ==> cmp(s[k], pivot) < 0)
    && (forall k :: p <= k < q ==> s[k] == pivot || cmp(s[k], pivot) == 0)
    && (forall k :: q <= k < hi ==> cmp(s[k], pivot) > 0)
  }

  // ----- Rearrangement ------------------------------------------------------

  lemma RearrangedFromWhole<T>(s: seq<T>, t: seq<T>, lo: int, hi: int)
    requires 0 <= lo <= hi <= |s| && SameBag(s, t)
    requires forall k :: 0 <= k < |s| && !(lo <= k < hi) ==> t[k] == s[k]
    ensures Rearranged(s, t, lo, hi)
  {
    assert s == s[..lo] + s[lo..hi] + s[hi..];
    assert t == t[..lo] + t[lo..hi] + t[hi..];
    assert s[..lo] == t[..lo] && s[hi..] == t[hi..];
    assert multiset(s[lo..hi]) == multiset(s) - multiset(s[..lo]) - multiset(s[hi..]);
    assert multiset(t[lo..hi]) == multiset(t) - multiset(t[..lo]) - multiset(t[hi..]);
  }

  ghost predicate SameBag<T>(s: seq<T>, t: seq<T>) {
    |s| == |t| && multiset(s) == multiset(t)
  }

  /** Rearranging a sub-range of a range rearranges the range. */
  lemma RearrangedWiden<T>(s: seq<T>, t: seq<T>, lo: int, hi: int, base: int, end: int)
    requires 0 <= base <= lo <= hi <= end <= |s|
    requires Rearranged(s, t, lo, hi)
    ensures Rearranged(s, t, base, end)
  {
    assert s[base..end] == s[base..lo] + s[lo..hi] + s[hi..end];
    assert t[base..end] == t[base..lo] + t[lo..hi] + t[hi..end];
    assert s[base..lo] == t[base..lo] && s[hi..end] == t[hi..end];
  }

  lemma RearrangedTrans<T>(s: seq<T>, t: seq<T>, u: seq<T>, lo: int, hi: int)
    requires 0 <= lo <= hi <= |s|
    requires Rearranged(s, t, lo, hi) && Rearranged(t, u, lo, hi)
    ensures Rearranged(s, u, lo, hi)
  {
  }

  /** Every element of a rearranged range was somewhere in that range before. */
  lemma RearrangedSource<T>(s: seq<T>, t: seq<T>, lo: int, hi: int, k: int) returns (j: int)
    requires 0 <= lo <= k < hi <= |s|
    requires Rearranged(s, t, lo, hi)
    ensures lo <= j < hi && s[j] == t[k]
  {
    assert t[k] == t[lo..hi][k - lo];
    assert t[k] in multiset(t[lo..hi]);
    assert t[k] in s[lo..hi];
    var i :| 0 <= i < hi - lo && s[lo..hi][i] == t[k];
    j := lo + i;
  }

  lemma RearrangedTarget<T>(s: seq<T>, t: seq<T>, lo: int, hi: int, j: int) returns (k: int)
    requires 0 <= lo <= j < hi <= |s|
    requires Rearranged(s, t, lo, hi)
    ensures lo <= k < hi && t[k] == s[j]
  {
    k := RearrangedSource(t, s, lo, hi, j);
  }

  lemma CountTwice<T>(s: seq<T>, i: nat, j: nat)
    requires i < j < |s| && s[i] == s[j]
    ensures multiset(s)[s[i]] >= 2
  {
    assert s == s[..j] + s[j..];
    assert s[..j][i] == s[i] && s[j..][0] == s[j];
    assert s[i] in multiset(s[..j]) && s[i] in multiset(s[j..]);
  }

  lemma {:induction false} CountOnce<T>(s: seq<T>, x: T)
    requires forall i, j :: 0 <= i < j < |s| ==> s[i] != s[j]
    ensures multiset(s)[x] <= 1
  {
    if s != [] {
      var last := |s| - 1;
      assert s == s[..last] + [s[last]];
      CountOnce(s[..last], x);
      if x == s[last] { assert x !in s[..last]; }
    }
  }

  /** A key that is unique to each element stays so. */
  lemma RearrangedInjective<T, K(!new)>(s: seq<T>, t: seq<T>, lo: int, hi: int, key: T -> K)
    requires 0 <= lo <= hi <= |s| && Rearranged(s, t, lo, hi)
    requires forall i, j :: lo <= i < j < hi ==> key(s[i]) != key(s[j])
    ensures forall i, j :: lo <= i < j < hi ==> key(t[i]) != key(t[j])
  {
    forall i, j | lo <= i < j < hi ensures key(t[i]) != key(t[j]) {
      var i' := RearrangedSource(s, t, lo, hi, i);
      var j' := RearrangedSource(s, t, lo, hi, j);
      if i' == j' {
        assert t[lo..hi][i - lo] == t[lo..hi][j - lo];
        CountTwice(t[lo..hi], i - lo, j - lo);
        CountOnce(s[lo..hi], t[i]);
      }
    }
  }

  // ----- Order --------------------------------------------------------------

  lemma SortedFromAdjacent<T(!new)>(s: seq<T>, lo: int, hi: int, cmp: (T, T) -> int)
    requires 0 <= lo <= hi <= |s|
    requires TotalPreorder(cmp)
    requires forall k :: lo < k < hi ==> cmp(s[k - 1], s[k]) <= 0
    ensures Sorted(s, lo, hi, cmp)
  {
    forall i, j | lo <= i < j < hi ensures cmp(s[i], s[j]) <= 0 {
      AdjacentReaches(s, i, j, cmp);
    }
  }

  lemma {:induction false} AdjacentReaches<T(!new)>(s: seq<T>, i: int, j: int, cmp: (T, T) -> int)
    requires 0 <= i < j < |s|
    requires TotalPreorder(cmp)
    requires forall k :: i < k <= j ==> cmp(s[k - 1], s[k]) <= 0
    ensures cmp(s[i], s[j]) <= 0
    decreases j
  {
    if i + 1 < j {
      AdjacentReaches(s, i, j - 1, cmp);
      assert cmp(s[j - 1], s[j]) <= 0;
    }
  }

  /** A partition orders every pair except those inside one outer block. */
  lemma PartitionedOrders<T(!new)>(s: seq<T>, lo: int, p: int, q: int, hi: int,
                                   pivot: T, cmp: (T, T) -> int, i: int, j: int)
    requires 0 <= lo <= p <= q <= hi <= |s|
    requires TotalPreorder(cmp) && Partitioned(s, lo, p, q, hi, pivot, cmp)
    requires lo <= i < j < hi && !(j < p) && !(q <= i)
    ensures cmp(s[i], s[j]) <= 0
  {
    assert cmp(pivot, pivot) == 0;
    assert cmp(s[i], pivot) <= 0;
    assert cmp(s[j], pivot) >= 0;
    assert cmp(pivot, s[j]) <= 0;
  }

  // ----- Pending ranges -----------------------------------------------------

  /** A half-open range of offsets from the buffer's base. */
  datatype Range = Range(lo: nat, hi: nat) {
    ghost predicate Holds(i: int, j: int) { lo <= i && j < hi }
    ghost predicate Fits(depth: nat, n: nat) { (hi - lo) * Pow2(depth) <= n }
    ghost predicate ApartFrom(r: Range) { hi <= r.lo || r.hi <= lo }
  }

  ghost predicate InSome(pend: seq<Range>, i: int, j: int) {
    exists k :: 0 <= k < |pend| && pend[k].Holds(i, j)
  }

  /** The explicit stack of ranges still to sort, over a buffer of `n`. */
  ghost predicate PendingOk(pend: seq<Range>, n: nat) {
    && (forall k :: 0 <= k < |pend| ==> pend[k].lo <= pend[k].hi <= n)
    && (forall k, l :: 0 <= k < l < |pend| ==> pend[k].ApartFrom(pend[l]))
  }

  /** Range number k from the bottom has at most n / 2^k elements. */
  ghost predicate Halving(pend: seq<Range>, n: nat) {
    forall k :: 0 <= k < |pend| ==> pend[k].Fits(k, n)
  }

  /** Pairs not inside one pending range are already in order. */
  ghost predicate OrderedOutside<T>(s: seq<T>, pend: seq<Range>, cmp: (T, T) -> int) {
    forall i, j :: 0 <= i < j < |s| && !InSome(pend, i, j) ==> cmp(s[i], s[j]) <= 0
  }

  /** Both outer blocks are smaller than the range. */
  ghost predicate Shrinks(lo: int, p: int, q: int, hi: int) {
    p < q || lo == hi || (lo < p && q < hi)
  }

  /** What is left to sort, so counted that a split makes it less. */
  ghost function PendingSize(pend: seq<Range>): (r: nat)
    requires forall k :: 0 <= k < |pend| ==> pend[k].lo <= pend[k].hi
  {
    if pend == [] then 0
    else PendingSize(pend[..|pend| - 1]) + Weight(pend[|pend| - 1].hi - pend[|pend| - 1].lo)
  }

  /** More than the weights of two parts that make up the whole. */
  function Weight(size: nat): nat { if size == 0 then 0 else 2 * size - 1 }

  /** The assertion in the source: a range that is partitioned (7 elements or
      more) sits so low in the stack that two more slots are free. */
  lemma StackHasRoom(size: nat, depth: nat, n: nat, bits: nat)
    requires size >= 7 && size * Pow2(depth) <= n < Pow2(bits)
    ensures depth + 2 < bits + 1
  {
    if depth + 2 >= bits + 1 {
      Pow2Monotone(bits, depth + 1);
      MulMonotone(7, size, Pow2(depth));
      assert false;
    }
  }

  /** The smaller of two disjoint parts of a range is at most half of it, so it may
      go one slot higher. */
  lemma SmallerPartFits(size: nat, big: nat, small: nat, depth: nat, n: nat)
    requires big + small <= size && small <= big && size * Pow2(depth) <= n
    ensures big * Pow2(depth) <= n && small * Pow2(depth + 1) <= n
  {
    var w := Pow2(depth);
    MulMonotone(big, size, w);
    MulMonotone(2 * small, size, w);
    assert small * (2 * w) == (2 * small) * w;
  }

  /** One round of the main loop keeps every settled pair in order: the top
      range [lo, hi) is replaced by the outer blocks of its partition. */
  lemma RoundKeepsOrder<T(!new)>(s: seq<T>, t: seq<T>, below: seq<Range>, top: Range,
                                 p: int, q: int, next: seq<Range>, cmp: (T, T) -> int)
    requires PendingOk(below + [top], |s|) && top.lo <= top.hi <= |s|
    requires OrderedOutside(s, below + [top], cmp)
    requires Rearranged(s, t, top.lo, top.hi)
    requires top.lo <= p <= q <= top.hi
    requires forall i, j :: top.lo <= i < j < top.hi && !(j < p) && !(q <= i) ==> cmp(t[i], t[j]) <= 0
    requires forall i, j :: InSome(below, i, j) ==> InSome(next, i, j)
    requires forall i, j :: top.lo <= i < j < p ==> InSome(next, i, j)
    requires forall i, j :: q <= i < j < top.hi ==> InSome(next, i, j)
    ensures OrderedOutside(t, next, cmp)
  {
    var pend := below + [top];
    assert pend[|below|] == top;
    var lo, hi := top.lo, top.hi;
    forall i, j | 0 <= i < j < |t| && !InSome(next, i, j) ensures cmp(t[i], t[j]) <= 0 {
      if lo <= i && j < hi {
        assert cmp(t[i], t[j]) <= 0;
      } else {
        var i' := i;
        if lo <= i < hi { i' := RearrangedSource(s, t, lo, hi, i); }
        var j' := j;
        if lo <= j < hi { j' := RearrangedSource(s, t, lo, hi, j); }
        assert i' < j';
        forall k | 0 <= k < |pend| ensures !pend[k].Holds(i', j') {
          assert k < |below| ==> pend[k] == below[k];
          assert !InSome(below, i, j);
        }
      }
    }
  }

  // ----- In-place pieces ----------------------------------------------------

  method Swap<T>(a: array<T>, i: int, j: int, ghost was: seq<T>)
    requires 0 <= i < a.Length && 0 <= j < a.Length
    requires SameBag(was, a[..])
    modifies a
    ensures a[..] == old(a[..])[i := old(a[j])][j := old(a[i])]
    ensures SameBag(was, a[..])
  {
    a[i], a[j] := a[j], a[i];
  }

  /** cq_swapfunc: exchange two blocks of `count` elements, one after the other. */
  method SwapBlocks<T>(a: array<T>, i: nat, j: nat, count: nat, ghost was: seq<T>)
    requires i <= j && j + count <= a.Length
    requires SameBag(was, a[..])
    modifies a
    ensures i + count <= j ==> forall k :: i <= k < i + count ==> a[k] == old(a[k - i + j])
    ensures i + count <= j ==> forall k :: j <= k < j + count ==> a[k] == old(a[k - j + i])
    ensures forall k :: 0 <= k < a.Length && !(i <= k < i + count) && !(j <= k < j + count)
              ==> a[k] == old(a[k])
    ensures SameBag(was, a[..])
  {
    hide SameBag;
    var m := 0;
    while m < count
      invariant 0 <= m <= count
      invariant i + count <= j ==> forall k :: i <= k < i + m ==> a[k] == old(a[k - i + j])
      invariant i + count <= j ==> forall k :: j <= k < j + m ==> a[k] == old(a[k - j + i])
      invariant forall k :: 0 <= k < a.Length && !(i <= k < i + m) && !(j <= k < j + m)
                  ==> a[k] == old(a[k])
      invariant SameBag(was, a[..])
    {
      Swap(a, i + m, j + m, was);
      m := m + 1;
    }
  }

  /** cq_med3: the index of the median of three elements. */
  method Med3<T(!new)>(a: array<T>, i: nat, j: nat, k: nat, c: Comparator<T>) returns (m: nat)
    requires i < a.Length && j < a.Length && k < a.Length
    modifies c`calls
    ensures m == i || m == j || m == k
    ensures c.Fair() && SignFlips(c.law) ==>
              exists l: nat, h: nat :: {l, m, h} == {i, j, k} && l in {i, j, k} && h in {i, j, k}
                  && c.law(a[l], a[m]) <= 0 && c.law(a[m], a[h]) <= 0
  {
    var ab := c.Ask(a[i], a[j]);
    var bc := c.Ask(a[j], a[k]);
    ghost var l, h := i, k;
    if (ab < 0 && bc < 0) || (ab >= 0 && bc > 0) {
      m := j;
      l, h := if ab < 0 then i else k, if ab < 0 then k else i;
    } else {
      var ac := c.Ask(a[i], a[k]);
      if ab < 0 {
        if ac < 0 { m := k; l, h := i, j; } else { m := i; l, h := k, j; }
      } else {
        if ac > 0 { m := k; l, h := j, i; } else { m := i; l, h := j, k; }
      }
    }
    assert {l, m, h} == {i, j, k};
    assert c.Fair() && SignFlips(c.law) ==> c.law(a[l], a[m]) <= 0 && c.law(a[m], a[h]) <= 0;
  }

  ghost predicate AdjacentExcept<T>(s: seq<T>, lo: int, hi: int, hole: int, cmp: (T, T) -> int)
    requires 0 <= lo && hi <= |s|
  {
    && (forall k :: lo < k < hi && k != hole ==> cmp(s[k - 1], s[k]) <= 0)
    && (lo < hole < hi - 1 ==> cmp(s[hole - 1], s[hole + 1]) <= 0)
  }

  /** One exchange of the inner insertion loop moves the hole left. */
  lemma HoleMovesLeft<T(!new)>(s: seq<T>, t: seq<T>, lo: int, hi: int, hole: int, cmp: (T, T) -> int)
    requires 0 <= lo < hole < hi <= |s|
    requires SignFlips(cmp) && AdjacentExcept(s, lo, hi, hole, cmp)
    requires cmp(s[hole - 1], s[hole]) > 0
    requires t == s[hole := s[hole - 1]][hole - 1 := s[hole]]
    ensures AdjacentExcept(t, lo, hi, hole - 1, cmp)
  {
  }

  /** The insertion sort used on ranges of fewer than seven elements. */
  method InsertionSort<T(!new)>(a: array<T>, lo: nat, hi: nat, c: Comparator<T>)
    requires lo <= hi <= a.Length
    modifies a, c`calls
    ensures Rearranged(old(a[..]), a[..], lo, hi)
    ensures c.Orders() ==> Sorted(a[..], lo, hi, c.law)
  {
    ghost var was := a[..];
    var pi := lo + 1;
    while pi < hi
      invariant lo < pi && (pi <= hi || pi == lo + 1)
      invariant forall k :: 0 <= k < a.Length && !(lo <= k < hi) ==> a[k] == was[k]
      invariant SameBag(was, a[..])
      invariant c.Fair() && SignFlips(c.law) ==>
                  AdjacentExcept(a[..], lo, if pi <= hi then pi else hi, lo, c.law)
    {
      InsertOne(a, lo, pi, hi, c, was);
      pi := pi + 1;
    }
    RearrangedFromWhole(was, a[..], lo, hi);
    if c.Orders() {
      SortedFromAdjacent(a[..], lo, hi, c.law);
    }
  }

  method InsertOne<T(!new)>(a: array<T>, lo: nat, pi: nat, hi: nat, c: Comparator<T>, ghost was: seq<T>)
    requires lo < pi < hi <= a.Length
    requires SameBag(was, a[..])
    requires c.Fair() && SignFlips(c.law) ==> AdjacentExcept(a[..], lo, pi, lo, c.law)
    modifies a, c`calls
    ensures forall k :: 0 <= k < a.Length && !(lo <= k < hi) ==> a[k] == old(a[k])
    ensures SameBag(was, a[..])
    ensures c.Fair() && SignFlips(c.law) ==> AdjacentExcept(a[..], lo, pi + 1, lo, c.law)
  {
    hide SameBag, SignFlips;
    var pj := pi;
    while pj > lo
      invariant lo <= pj <= pi
      invariant forall k :: 0 <= k < a.Length && !(lo <= k < hi) ==> a[k] == old(a[k])
      invariant SameBag(was, a[..])
      invariant c.Fair() && SignFlips(c.law) ==> AdjacentExcept(a[..], lo, pi + 1, pj, c.law)
    {
      var r := c.Ask(a[pj - 1], a[pj]);
      if r <= 0 { break; }
      ghost var s := a[..];
      Swap(a, pj, pj - 1, was);
      if c.Fair() && SignFlips(c.law) { HoleMovesLeft(s, a[..], lo, pi + 1, pj, c.law); }
      pj := pj - 1;
    }
  }

  /** Choose the pivot position: the middle, a median of three, or a
      pseudo-median of nine. */
  method PivotIndex<T(!new)>(a: array<T>, lo: nat, hi: nat, c: Comparator<T>) returns (pm: nat)
    requires lo + 7 <= hi <= a.Length
    modifies c`calls
    ensures lo <= pm < hi
  {
    var n := hi - lo;
    pm := lo + n / 2;
    if n > 7 {
      var p1, p2 := lo, lo + (n - 1);
      if n > 40 {
        var offset := n / 8;
        p1 := Med3(a, p1, p1 + offset, p1 + 2 * offset, c);
        pm := Med3(a, pm - offset, pm, pm + offset, c);
        p2 := Med3(a, p2 - 2 * offset, p2 - offset, p2, c);
      }
      pm := Med3(a, p1, pm, p2, c);
    }
  }

  /** Invariant of the four-cursor scan.  Elements equal to the pivot collect at
      both ends, [lo, pa) and (pd, hi); smaller ones fill [pa, pb) and larger
      ones (pc, pd].  The pivot itself stays at `lo`. */
  ghost predicate Scanned<T>(s: seq<T>, lo: int, hi: int, pivot: T,
                             pa: int, pb: int, pc: int, pd: int, cmp: (T, T) -> int)
    requires 0 <= lo < pa <= pb <= pc + 1 <= pd + 1 <= hi <= |s|
  {
    && s[lo] == pivot
    && (forall k :: lo < k < pa || pd < k < hi ==> cmp(s[k], pivot) == 0)
    && (forall k :: pa <= k < pb ==> cmp(s[k], pivot) < 0)
    && (forall k :: pc < k <= pd ==> cmp(s[k], pivot) > 0)
  }

  /** `t` is `s` with two positions of [lo, hi) exchanged. */
  ghost predicate SwappedIn<T>(s: seq<T>, t: seq<T>, lo: int, hi: int) {
    && |s| == |t| && (forall k :: 0 <= k < |s| && !(lo <= k < hi) ==> t[k] == s[k])
  }

  method ScanUp<T(!new)>(a: array<T>, lo: nat, hi: nat, pivot: T, pa0: nat, pb0: nat, pc: nat, pd: nat,
                         c: Comparator<T>, ghost was: seq<T>) returns (pa: nat, pb: nat)
    requires lo < pa0 <= pb0 <= pc + 1 <= pd + 1 <= hi <= a.Length
    requires c.Fair() ==> Scanned(a[..], lo, hi, pivot, pa0, pb0, pc, pd, c.law)
    requires SameBag(was, a[..])
    modifies a, c`calls
    ensures lo < pa <= pb <= pc + 1 && pb0 <= pb
    ensures c.Fair() ==> Scanned(a[..], lo, hi, pivot, pa, pb, pc, pd, c.law)
    ensures c.Fair() && pb <= pc ==> c.law(a[pb], pivot) > 0
    ensures SwappedIn(old(a[..]), a[..], lo, hi) && SameBag(was, a[..])
  {
    hide SameBag;
    pa, pb := pa0, pb0;
    while pb <= pc
      invariant lo < pa <= pb <= pc + 1 && pb0 <= pb
      invariant c.Fair() ==> Scanned(a[..], lo, hi, pivot, pa, pb, pc, pd, c.law)
      invariant SwappedIn(old(a[..]), a[..], lo, hi) && SameBag(was, a[..])
      decreases pc + 1 - pb
    {
      var r := c.Ask(a[pb], pivot);
      if r > 0 { break; }
      if r == 0 {
        Swap(a, pa, pb, was);
        pa := pa + 1;
      }
      pb := pb + 1;
    }
  }

  method ScanDown<T(!new)>(a: array<T>, lo: nat, hi: nat, pivot: T, pa: nat, pb: nat, pc0: nat, pd0: nat,
                           c: Comparator<T>, ghost was: seq<T>) returns (pc: nat, pd: nat)
    requires lo < pa <= pb <= pc0 + 1 <= pd0 + 1 <= hi <= a.Length
    requires c.Fair() ==> Scanned(a[..], lo, hi, pivot, pa, pb, pc0, pd0, c.law)
    requires c.Fair() && pb <= pc0 ==> c.law(a[pb], pivot) > 0
    requires SameBag(was, a[..])
    modifies a, c`calls
    ensures pb <= pc + 1 <= pd + 1 <= hi && pc <= pc0
    ensures c.Fair() ==> Scanned(a[..], lo, hi, pivot, pa, pb, pc, pd, c.law)
    ensures c.Fair() && pb <= pc ==> c.law(a[pb], pivot) > 0 && c.law(a[pc], pivot) < 0
    ensures SwappedIn(old(a[..]), a[..], lo, hi) && SameBag(was, a[..])
  {
    hide SameBag;
    pc, pd := pc0, pd0;
    while pc >= pb
      invariant pb <= pc + 1 <= pd + 1 <= hi && pc <= pc0
      invariant c.Fair() ==> Scanned(a[..], lo, hi, pivot, pa, pb, pc, pd, c.law)
      invariant c.Fair() && pb <= pc ==> c.law(a[pb], pivot) > 0
      invariant SwappedIn(old(a[..]), a[..], lo, hi) && SameBag(was, a[..])
      decreases pc + 1 - pb
    {
      var r := c.Ask(a[pc], pivot);
      if r < 0 { break; }
      if r == 0 {
        Swap(a, pc, pd, was);
        pd := pd - 1;
      }
      pc := pc - 1;
    }
  }

  lemma ScanSwap<T>(s: seq<T>, lo: nat, hi: nat, pivot: T, pa: nat, pb: nat, pc: nat, pd: nat,
                    cmp: (T, T) -> int)
    requires lo < pa <= pb <= pc <= pd < hi <= |s|
    requires Scanned(s, lo, hi, pivot, pa, pb, pc, pd, cmp)
    requires cmp(s[pb], pivot) > 0 && cmp(s[pc], pivot) < 0
    ensures pb < pc && Scanned(s[pb := s[pc]][pc := s[pb]], lo, hi, pivot, pa, pb + 1, pc - 1, pd, cmp)
  {
  }

  /** How the cursors meet.  When the comparator calls one element both larger and
      smaller than the pivot, that element counts on both sides. */
  ghost predicate Met(lo: int, hi: int, pa: int, pb: int, pc: int, pd: int) {
    && lo < pa <= pb && pc <= pd < hi
    && (pb == pc + 1 || (pb == pc + 2 && pa < pb && pc < pd))
  }

  /** The partition loop. */
  method Scan<T(!new)>(a: array<T>, lo: nat, hi: nat, c: Comparator<T>, ghost was: seq<T>)
    returns (pa: nat, pb: nat, pc: nat, pd: nat)
    requires lo + 1 < hi <= a.Length
    requires SameBag(was, a[..])
    modifies a, c`calls
    ensures Met(lo, hi, pa, pb, pc, pd) && (c.Fair() ==> pb == pc + 1)
    ensures c.Fair() ==> Scanned(a[..], lo, hi, old(a[lo]), pa, pb, pc, pd, c.law)
    ensures SwappedIn(old(a[..]), a[..], lo, hi) && SameBag(was, a[..])
  {
    hide SameBag;
    var pivot := a[lo];
    ghost var s0 := a[..];
    assert Scanned(s0, lo, hi, pivot, lo + 1, lo + 1, hi - 1, hi - 1, c.law);
    hide Scanned, Comparator.Fair;
    pa, pb := lo + 1, lo + 1;
    pc, pd := hi - 1, hi - 1;
    while true
      invariant lo < pa <= pb <= pc + 1 <= pd + 1 <= hi
      invariant c.Fair() ==> Scanned(a[..], lo, hi, pivot, pa, pb, pc, pd, c.law)
      invariant SwappedIn(old(a[..]), a[..], lo, hi) && SameBag(was, a[..])
      decreases pc + 1 - pb
    {
      pa, pb := ScanUp(a, lo, hi, pivot, pa, pb, pc, pd, c, was);
      pc, pd := ScanDown(a, lo, hi, pivot, pa, pb, pc, pd, c, was);
      if pb > pc { break; }
      if c.Fair() { ScanSwap(a[..], lo, hi, pivot, pa, pb, pc, pd, c.law); }
      Swap(a, pb, pc, was);
      pb := pb + 1;
      pc := pc - 1;
      if pb > pc + 1 { break; }  // the next turn asks nothing and ends
    }
  }

  /** Exchange the left block [lo, mid) with the right block [mid, hi), up to
      order inside the blocks, by swapping as many elements as the shorter has.
      `left` and `right` describe what each block holds. */
  method ExchangeEnds<T>(a: array<T>, lo: nat, mid: nat, hi: nat, ghost was: seq<T>,
                         ghost left: T -> bool, ghost right: T -> bool)
    requires lo <= mid <= hi <= a.Length
    requires SameBag(was, a[..])
    requires forall k :: lo <= k < mid ==> left(a[k])
    requires forall k :: mid <= k < hi ==> right(a[k])
    modifies a
    ensures forall k :: lo <= k < lo + hi - mid ==> right(a[k])
    ensures forall k :: lo + hi - mid <= k < hi ==> left(a[k])
    ensures SwappedIn(old(a[..]), a[..], lo, hi) && SameBag(was, a[..])
  {
    hide SameBag;
    var s := if mid - lo < hi - mid then mid - lo else hi - mid;
    if s > 0 { SwapBlocks(a, lo, hi - s, s, was); }
  }

  /** Bring the elements equal to the pivot from both ends into the middle. */
  method GatherEquals<T(!new)>(a: array<T>, lo: nat, hi: nat, pivot: T, pa: nat, pb: nat, pc: nat, pd: nat,
                               c: Comparator<T>, ghost was: seq<T>)
    requires hi <= a.Length && Met(lo, hi, pa, pb, pc, pd) && SameBag(was, a[..])
    requires c.Fair() ==> pb == pc + 1 && Scanned(a[..], lo, hi, pivot, pa, pb, pc, pd, c.law)
    modifies a
    ensures lo + (pb - pa) <= hi - (pd - pc)
    ensures c.Fair() ==> Partitioned(a[..], lo, lo + (pb - pa), hi - (pd - pc), hi, pivot, c.law)
    ensures SwappedIn(old(a[..]), a[..], lo, hi) && SameBag(was, a[..])
  {
    hide SameBag, Comparator.Fair;
    ghost var less, same, more :=
      (x: T) => c.Fair() ==> c.law(x, pivot) < 0,
      (x: T) => c.Fair() ==> x == pivot || c.law(x, pivot) == 0,
      (x: T) => c.Fair() ==> c.law(x, pivot) > 0;
    ExchangeEnds(a, lo, pa, pb, was, same, less);
    if pb == pc + 1 {
      ExchangeEnds(a, pb, pd + 1, hi, was, more, same);
    } else {
      var s := if pd - pc < hi - pd - 1 then pd - pc else hi - pd - 1;
      if s > 0 { SwapBlocks(a, pb, hi - s, s, was); }
    }
  }

  /** Pivot choice, scan and gathering. */
  method Partition<T(!new)>(a: array<T>, lo: nat, hi: nat, c: Comparator<T>)
    returns (p: nat, q: nat, ghost pivot: T)
    requires lo + 7 <= hi <= a.Length
    modifies a, c`calls
    ensures lo <= p <= q <= hi && Shrinks(lo, p, q, hi)
    ensures Rearranged(old(a[..]), a[..], lo, hi)
    ensures c.Fair() ==> p < q && Partitioned(a[..], lo, p, q, hi, pivot, c.law)
  {
    ghost var was := a[..];
    assert SameBag(was, was);
    hide SameBag, Scanned, Partitioned, Comparator.Fair;
    var pm := PivotIndex(a, lo, hi, c);
    Swap(a, lo, pm, was);
    var pv := a[lo];
    pivot := pv;
    var pa, pb, pc, pd := Scan(a, lo, hi, c, was);
    GatherEquals(a, lo, hi, pv, pa, pb, pc, pd, c, was);
    p, q := lo + (pb - pa), hi - (pd - pc);
    RearrangedFromWhole(was, a[..], lo, hi);
  }

  // ----- The sort -----------------------------------------------------------

  /** What the two slots written for a partitioned range hold: the bigger outer
      block below, the smaller one on top, dropped when empty. */
  ghost function Split(below: seq<Range>, lo: nat, p: nat, q: nat, hi: nat): seq<Range>
    requires lo <= p <= q <= hi
  {
    if p == lo && q == hi then below
    else
      var big := if hi - q > p - lo then Range(q, hi) else Range(lo, p);
      var small := if hi - q > p - lo then Range(lo, p) else Range(q, hi);
      if small.lo != small.hi then below + [big] + [small] else below + [big]
  }

  ghost predicate Apart(pend: seq<Range>, r: Range) {
    forall k :: 0 <= k < |pend| ==> pend[k].ApartFrom(r)
  }

  // What pushing one range means for each of the stack's properties.

  lemma PushedOk(pend: seq<Range>, r: Range, n: nat)
    ensures PendingOk(pend + [r], n) <==> PendingOk(pend, n) && r.lo <= r.hi <= n && Apart(pend, r)
    ensures PendingOk(pend + [r], n) ==> PendingSize(pend + [r]) == PendingSize(pend) + Weight(r.hi - r.lo)
  {
    var next := pend + [r];
    assert next[|pend|] == r && next[..|pend|] == pend;
    assert forall k :: 0 <= k < |pend| ==> next[k] == pend[k];
  }

  lemma PushedHalving(pend: seq<Range>, r: Range, n: nat)
    ensures Halving(pend + [r], n) <==> Halving(pend, n) && r.Fits(|pend|, n)
  {
    var next := pend + [r];
    assert next[|pend|] == r;
    assert forall k :: 0 <= k < |pend| ==> next[k] == pend[k];
  }

  lemma PushedHolds(pend: seq<Range>, r: Range, i: int, j: int)
    ensures InSome(pend + [r], i, j) <==> InSome(pend, i, j) || r.Holds(i, j)
  {
    var next := pend + [r];
    assert next[|pend|] == r;
    assert forall k :: 0 <= k < |pend| ==> next[k] == pend[k];
  }

  lemma ApartParts(below: seq<Range>, lo: nat, hi: nat, part: Range)
    requires Apart(below, Range(lo, hi)) && lo <= part.lo <= part.hi <= hi
    ensures Apart(below, part)
  {
    forall k | 0 <= k < |below| ensures below[k].ApartFrom(part) {
      assert below[k].ApartFrom(Range(lo, hi));
    }
  }

  lemma ApartPushed(below: seq<Range>, big: Range, small: Range)
    requires Apart(below, small) && big.ApartFrom(small)
    ensures Apart(below + [big], small)
  {
    var next := below + [big];
    forall k | 0 <= k < |next| ensures next[k].ApartFrom(small) {
      assert next[k] == if k < |below| then below[k] else big;
    }
  }

  /** Replacing the top range by the outer blocks of its partition keeps every
      stack invariant and leaves less to sort ... */
  lemma SplitOk(below: seq<Range>, lo: nat, p: nat, q: nat, hi: nat, n: nat)
    requires lo <= p <= q <= hi && Shrinks(lo, p, q, hi)
    requires PendingOk(below + [Range(lo, hi)], n) && Halving(below + [Range(lo, hi)], n)
    ensures PendingOk(Split(below, lo, p, q, hi), n) && Halving(Split(below, lo, p, q, hi), n)
    ensures PendingSize(Split(below, lo, p, q, hi)) <= PendingSize(below + [Range(lo, hi)])
    ensures lo < hi ==> PendingSize(Split(below, lo, p, q, hi)) < PendingSize(below + [Range(lo, hi)])
  {
    hide PendingOk, Halving, PendingSize, Apart;
    PushedOk(below, Range(lo, hi), n);
    PushedHalving(below, Range(lo, hi), n);
    if lo < hi {
      var big := if hi - q > p - lo then Range(q, hi) else Range(lo, p);
      var small := if hi - q > p - lo then Range(lo, p) else Range(q, hi);
      SmallerPartFits(hi - lo, big.hi - big.lo, small.hi - small.lo, |below|, n);
      ApartParts(below, lo, hi, big);
      ApartParts(below, lo, hi, small);
      ApartPushed(below, big, small);
      PushedOk(below, big, n);
      PushedHalving(below, big, n);
      PushedOk(below + [big], small, n);
      PushedHalving(below + [big], small, n);
    }
  }

  /** ... and covers every pair that is not settled yet. */
  lemma SplitCovers(below: seq<Range>, lo: nat, p: nat, q: nat, hi: nat, i: int, j: int)
    requires lo <= p <= q <= hi
    requires InSome(below, i, j) || lo <= i < j < p || q <= i < j < hi
    ensures InSome(Split(below, lo, p, q, hi), i, j)
  {
    var big := if hi - q > p - lo then Range(q, hi) else Range(lo, p);
    var small := if hi - q > p - lo then Range(lo, p) else Range(q, hi);
    PushedHolds(below, big, i, j);
    PushedHolds(below + [big], small, i, j);
    hide InSome;
  }

  lemma SliceOfSlice<T>(s: seq<T>, base: nat, n: nat, lo: nat, hi: nat)
    requires base + n <= |s| && lo <= hi <= n
    ensures s[base..base + n][lo..hi] == s[base + lo..base + hi]
  {
    var u, v := s[base..base + n][lo..hi], s[base + lo..base + hi];
    assert |u| == |v|;
    forall k | 0 <= k < |u| ensures u[k] == v[k] {
      assert u[k] == s[base..base + n][lo + k];
    }
  }

  /** The effect of one round on a[base .. base + n), seen from the buffer. */
  lemma RoundOrders<T(!new)>(s: seq<T>, t: seq<T>, base: nat, n: nat, below: seq<Range>, lo: nat, hi: nat,
                             p: nat, q: nat, cmp: (T, T) -> int)
    requires base + n <= |s| && lo <= p <= q <= hi
    requires PendingOk(below + [Range(lo, hi)], n)
    requires OrderedOutside(s[base..base + n], below + [Range(lo, hi)], cmp)
    requires hi <= n && Rearranged(s, t, base + lo, base + hi)
    requires OrderedBut(t, base + lo, base + p, base + q, base + hi, cmp)
    ensures OrderedOutside(t[base..base + n], Split(below, lo, p, q, hi), cmp)
  {
    var s', t' := s[base..base + n], t[base..base + n];
    SliceOfSlice(s, base, n, lo, hi);
    SliceOfSlice(t, base, n, lo, hi);
    forall i, j | InSome(below, i, j) || lo <= i < j < p || q <= i < j < hi
      ensures InSome(Split(below, lo, p, q, hi), i, j)
    {
      SplitCovers(below, lo, p, q, hi, i, j);
    }
    RoundKeepsOrder(s', t', below, Range(lo, hi), p, q, Split(below, lo, p, q, hi), cmp);
  }

  /** One round on the array: sort the range, or partition it.  Afterwards only
      pairs inside [l, p) or inside [q, r) may still be out of order. */
  method SortOrPartition<T(!new)>(a: array<T>, base: nat, l: nat, r: nat, c: Comparator<T>)
    returns (p: nat, q: nat)
    requires l <= r && base + r <= a.Length
    modifies a, c`calls
    ensures l <= p <= q <= r && Shrinks(l, p, q, r)
    ensures r - l < 7 ==> p == l && q == r
    ensures Rearranged(old(a[..]), a[..], base + l, base + r)
    ensures c.Orders() ==> OrderedBut(a[..], base + l, base + p, base + q, base + r, c.law)
  {
    if r - l < 7 {
      InsertionSort(a, base + l, base + r, c);
      return l, r;
    }
    var p', q', pivot := Partition(a, base + l, base + r, c);
    p, q := p' - base, q' - base;
    if c.Orders() {
      forall i, j | base + l <= i < j < base + r && !(j < base + p) && !(base + q <= i)
        ensures c.law(a[i], a[j]) <= 0
      {
        PartitionedOrders(a[..], base + l, p', q', base + r, pivot, c.law, i, j);
      }
    }
  }

  /** Of the pairs in [lo, hi) only those inside an outer block may be out of order. */
  ghost predicate OrderedBut<T>(s: seq<T>, lo: int, p: int, q: int, hi: int, cmp: (T, T) -> int)
    requires 0 <= lo && hi <= |s|
  {
    forall i, j :: lo <= i < j < hi && !(j < p) && !(q <= i) ==> cmp(s[i], s[j]) <= 0
  }

  /** Mark the sub-ranges to sort: overwrite slot `depth` and perhaps the next. */
  method PushBlocks(stack: array<Range>, depth: nat, l: nat, p: nat, q: nat, r: nat) returns (depth': nat)
    requires l <= p <= q <= r
    requires depth + 1 < stack.Length || (p == l && q == r && depth <= stack.Length)
    modifies stack
    ensures depth' <= stack.Length && depth <= depth' && (p == l && q == r ==> depth' == depth)
    ensures stack[..depth'] == Split(old(stack[..depth]), l, p, q, r)
  {
    if p == l && q == r { return depth; }
    var big, small := Range(l, p), Range(q, r);
    if small.hi - small.lo > big.hi - big.lo { big, small := small, big; }
    stack[depth], stack[depth + 1] := big, small;
    depth' := depth + (if small.lo != small.hi then 2 else 1);
  }

  /** All that holds between rounds; `orders` says whether the comparator does. */
  ghost predicate SortInv<T(!new)>(was: seq<T>, s: seq<T>, base: nat, n: nat, pend: seq<Range>,
                                   cmp: (T, T) -> int, orders: bool)
    requires base + n <= |was|
  {
    && PendingOk(pend, n) && Halving(pend, n)
    && Rearranged(was, s, base, base + n)
    && (orders ==> OrderedOutside(s[base..base + n], pend, cmp))
  }

  lemma RoundKeepsInv<T(!new)>(was: seq<T>, s: seq<T>, t: seq<T>, base: nat, n: nat, below: seq<Range>,
                               l: nat, p: nat, q: nat, r: nat, cmp: (T, T) -> int, orders: bool)
    requires base + n <= |was| && SortInv(was, s, base, n, below + [Range(l, r)], cmp, orders)
    requires l <= p <= q <= r <= n && Shrinks(l, p, q, r)
    requires |s| == |was| && Rearranged(s, t, base + l, base + r)
    requires orders ==> OrderedBut(t, base + l, base + p, base + q, base + r, cmp)
    ensures SortInv(was, t, base, n, Split(below, l, p, q, r), cmp, orders)
  {
    hide PendingOk, Halving, Rearranged, OrderedOutside, OrderedBut, Split;
    SplitOk(below, l, p, q, r, n);
    RearrangedWiden(s, t, base + l, base + r, base, base + n);
    RearrangedTrans(was, s, t, base, base + n);
    if orders { RoundOrders(s, t, base, n, below, l, r, p, q, cmp); }
  }

  /** One turn of the main loop: pop a range and put back what is left of it. */
  method Round<T(!new)>(a: array<T>, base: nat, n: nat, c: Comparator<T>, bits: nat,
                        stack: array<Range>, depth: nat, ghost was: seq<T>) returns (depth': nat)
    requires 0 < depth <= stack.Length == bits + 1 && n < Pow2(bits)
    requires a as object != stack && base + n <= a.Length == |was|
    requires SortInv(was, a[..], base, n, stack[..depth], c.law, c.Orders())
    modifies a, stack, c`calls
    ensures depth' <= stack.Length
    ensures SortInv(was, a[..], base, n, stack[..depth'], c.law, c.Orders())
    ensures PendingSize(stack[..depth']) < old(PendingSize(stack[..depth]))
         || (PendingSize(stack[..depth']) == old(PendingSize(stack[..depth])) && depth' < depth)
  {
    hide PendingOk, Halving, PendingSize, Rearranged, OrderedOutside, OrderedBut, Split, Comparator.Orders;
    var top := depth - 1;
    var l, r := stack[top].lo, stack[top].hi;
    ghost var s, below := a[..], stack[..top];
    TopRange(stack[..depth], n);
    assert stack[..depth][..top] == below && stack[..depth][top] == stack[top];
    var p, q := SortOrPartition(a, base, l, r, c);
    if r - l >= 7 { StackHasRoom(r - l, top, n, bits); }
    SplitOk(below, l, p, q, r, n);
    RoundKeepsInv(was, s, a[..], base, n, below, l, p, q, r, c.law, c.Orders());
    assert stack[..top] == below;
    depth' := PushBlocks(stack, top, l, p, q, r);
  }

  /** click_qsort over a[base .. base + n).  `sizeofSizeT` is the width of size_t
      in bytes; the stack is the fixed buffer of (8 * sizeofSizeT + 1) pairs of
      the source, and no write ever leaves it. */
  method ClickQsort<T(!new)>(a: array<T>, base: nat, n: nat, c: Comparator<T>, sizeofSizeT: nat)
    requires base + n <= a.Length && n < Pow2(8 * sizeofSizeT)
    modifies a, c`calls
    ensures Rearranged(old(a[..]), a[..], base, base + n)
    ensures c.Orders() ==> Sorted(a[..], base, base + n, c.law)
  {
    ghost var was := a[..];
    var bits := 8 * sizeofSizeT;
    var stack := new Range[bits + 1];
    stack[0] := Range(0, n);
    var depth := 1;
    assert stack[..depth] == [Range(0, n)];
    InitialStack(was[base..base + n], c.law);
    assert SortInv(was, a[..], base, n, stack[..depth], c.law, c.Orders());
    hide *;
    while depth > 0
      invariant 0 <= depth <= stack.Length
      invariant SortInv(was, a[..], base, n, stack[..depth], c.law, c.Orders())
      decreases PendingSize(stack[..depth]), depth
    {
      depth := Round(a, base, n, c, bits, stack, depth, was);
    }
    SortFinished(was, a[..], base, n, c.law, c.Orders());
  }

  lemma SortFinished<T(!new)>(was: seq<T>, s: seq<T>, base: nat, n: nat, cmp: (T, T) -> int, orders: bool)
    requires base + n <= |was| && SortInv(was, s, base, n, [], cmp, orders)
    ensures Rearranged(was, s, base, base + n)
    ensures orders ==> Sorted(s, base, base + n, cmp)
  {
    if orders { NothingPending(s, base, n, cmp); }
  }

  lemma TopRange(pend: seq<Range>, n: nat)
    requires pend != [] && PendingOk(pend, n) && Halving(pend, n)
    ensures var d := |pend| - 1;
            && pend == pend[..d] + [Range(pend[d].lo, pend[d].hi)]
            && pend[d].lo <= pend[d].hi <= n
            && (pend[d].hi - pend[d].lo) * Pow2(d) <= n
  {
    assert pend[|pend| - 1].Fits(|pend| - 1, n);
  }

  lemma NothingPending<T(!new)>(s: seq<T>, base: nat, n: nat, cmp: (T, T) -> int)
    requires base + n <= |s| && OrderedOutside(s[base..base + n], [], cmp)
    ensures Sorted(s, base, base + n, cmp)
  {
    forall i, j | base <= i < j < base + n ensures cmp(s[i], s[j]) <= 0 {
      assert !InSome([], i - base, j - base);
      assert s[base..base + n][i - base] == s[i] && s[base..base + n][j - base] == s[j];
    }
  }

  lemma InitialStack<T(!new)>(s: seq<T>, cmp: (T, T) -> int)
    ensures PendingOk([Range(0, |s|)], |s|) && Halving([Range(0, |s|)], |s|)
    ensures OrderedOutside(s, [Range(0, |s|)], cmp)
  {
    assert [Range(0, |s|)][0].Fits(0, |s|);
    forall i, j | 0 <= i < j < |s| ensures InSome([Range(0, |s|)], i, j) {
      assert [Range(0, |s|)][0].Holds(i, j);
    }
  }
}
