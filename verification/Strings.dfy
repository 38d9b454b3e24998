/** Byte strings and their lexicographic order (String::compare). */
module Strings {
  import opened Qsort

  /** Sign of the byte-wise lexicographic comparison. */
  function Compare(a: string, b: string): (c: int)
    ensures c == 0 <==> a == b
  {
    if a == [] then (if b == [] then 0 else -1)
    else if b == [] then 1
    else if a[0] < b[0] then -1
    else if a[0] > b[0] then 1
    else
      assert a == [a[0]] + a[1..] && b == [b[0]] + b[1..];
      Compare(a[1..], b[1..])
  }

  lemma {:induction false} CompareFlips(a: string, b: string)
    ensures Compare(a, b) == -Compare(b, a)
  {
    if a != [] && b != [] && a[0] == b[0] { CompareFlips(a[1..], b[1..]); }
  }

  lemma {:induction false} CompareTrans(a: string, b: string, c: string)
    requires Compare(a, b) <= 0 && Compare(b, c) <= 0
    ensures Compare(a, c) <= 0
    ensures Compare(a, c) == 0 ==> a == b == c
  {
    if a != [] && b != [] && c != [] && a[0] == b[0] == c[0] {
      CompareTrans(a[1..], b[1..], c[1..]);
    }
    if Compare(a, c) == 0 {
      CompareFlips(a, b);
    }
  }

  lemma {:induction false} CompareAfterPrefix(p: string, a: string, b: string)
    ensures Compare(p + a, p + b) == Compare(a, b)
  {
    if p == [] {
      assert p + a == a && p + b == b;
    } else {
      assert (p + a)[1..] == p[1..] + a && (p + b)[1..] == p[1..] + b;
      CompareAfterPrefix(p[1..], a, b);
    }
  }

  /** The first difference decides; a proper prefix is smaller. */
  lemma CompareAtDifference(a: string, b: string, k: nat)
    requires k <= |a| && k <= |b| && a[..k] == b[..k] && (k == |a| || k == |b| || a[k] != b[k])
    ensures Compare(a, b) ==
            if k == |a| then (if k == |b| then 0 else -1) else if k == |b| then 1 else if a[k] < b[k] then -1 else 1
  {
    assert a == a[..k] + a[k..] && b == a[..k] + b[k..];
    CompareAfterPrefix(a[..k], a[k..], b[k..]);
  }

  /** A prefix sorts before its extensions. */
  lemma PrefixFirst(p: string, w: string)
    requires p <= w
    ensures Compare(p, w) <= 0
  {
    assert w == p + w[|p|..] && p == p + [];
    CompareAfterPrefix(p, [], w[|p|..]);
  }

  /** Everything that sorts between a prefix and one of its extensions extends
      the prefix too. */
  lemma {:induction false} Between(p: string, w: string, v: string)
    requires p <= v && Compare(p, w) <= 0 && Compare(w, v) <= 0
    ensures p <= w
  {
    if p != [] {
      Between(p[1..], w[1..], v[1..]);
      assert p == [p[0]] + p[1..] && w == [w[0]] + w[1..];
    }
  }

  lemma CompareIsPreorder()
    ensures TotalPreorder(Compare)
  {
    forall a, b ensures Compare(a, b) < 0 <==> Compare(b, a) > 0 { CompareFlips(a, b); }
    forall a, b, c | Compare(a, b) <= 0 && Compare(b, c) <= 0 ensures Compare(a, c) <= 0 {
      CompareTrans(a, b, c);
    }
  }
}
