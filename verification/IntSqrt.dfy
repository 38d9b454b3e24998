/** 32-bit ffs_msb and int_sqrt (lib/integers.cc).  Values are numbers; every
    operation of the code that could leave 32 bits is written with its
    wrap-around. */
module IntSqrt {
  import opened Machine
  import opened Powers

  /** s is the integer square root of x. */
  predicate IsRoot(s: nat, x: nat) {
    s * s <= x < (s + 1) * (s + 1)
  }

  lemma PowTable()
    ensures Pow2(0) == 1 && Pow2(1) == 2 && Pow2(2) == 4 && Pow2(3) == 8 && Pow2(4) == 16
    ensures Pow2(8) == 0x100 && Pow2(16) == 0x1_0000 && Pow2(32) == WORD
  {
    assert Pow2(1) == 2 * Pow2(0);
    assert Pow2(2) == 2 * Pow2(1);
    assert Pow2(3) == 2 * Pow2(2);
    assert Pow2(4) == 2 * Pow2(3);
    Pow2Adds(4, 4);
    Pow2Adds(8, 8);
    Pow2Adds(16, 16);
  }

  /** The number of binary digits of x is n. */
  predicate HasBits(x: nat, n: nat) {
    x < Pow2(n) && (n > 0 ==> Pow2(n - 1) <= x)
  }

  lemma ScaledBounds(q: nat, p: nat, x: nat, lo: nat, hi: nat)
    requires q * p <= x < (q + 1) * p && lo <= q < hi
    ensures lo * p <= x < hi * p
  {
    MulMonotone(lo, q, p);
    MulMonotone(q + 1, hi, p);
  }

  /** Putting k low bits behind q. */
  lemma BitsAbove(x: nat, k: nat, p: nat, q: nat, n: nat)
    requires n > 0 && p == Pow2(k) && q * p <= x < (q + 1) * p && HasBits(q, n)
    ensures HasBits(x, n + k)
  {
    Pow2Adds(n, k);
    Pow2Adds(n - 1, k);
    var lo, hi := Pow2(n - 1), Pow2(n);
    hide Pow2;
    ScaledBounds(q, p, x, lo, hi);
    assert n + k - 1 == n - 1 + k;
  }

  function LeadingOf4(x: nat): (r: nat)
    requires x < 16
  {
    [0, 4, 3, 3, 2, 2, 2, 2, 1, 1, 1, 1, 1, 1, 1, 1][x]
  }

  lemma FourBits(x: nat)
    requires 0 < x < 16
    ensures 1 <= LeadingOf4(x) <= 4 && HasBits(x, 5 - LeadingOf4(x))
  {
    PowTable();
  }

  /** ffs_msb: one plus the number of leading zeros. */
  method FfsMsb(x0: nat) returns (r: nat)
    requires x0 < WORD
    ensures x0 == 0 ==> r == 0
    ensures x0 > 0 ==> 1 <= r <= 32 && HasBits(x0, 33 - r)
  {
    PowTable();
    hide Pow2, HasBits, LeadingOf4;
    var x, add := x0, 0;
    if x / 0x1_0000 == 0 {
      if x == 0 { return 0; }
      add := add + 16;
    } else {
      x := x / 0x1_0000;
    }
    ghost var x1, k1 := x, 16 - add;
    if x / 0x100 == 0 { add := add + 8; } else { x := x / 0x100; }
    ghost var x2, k2 := x, 24 - add - k1;
    if x / 0x10 == 0 { add := add + 4; } else { x := x / 0x10; }
    ghost var k3 := 28 - add - k1 - k2;
    r := add + LeadingOf4(x % 16);
    FourBits(x);
    ghost var n := 5 - LeadingOf4(x);
    if k3 > 0 { BitsAbove(x2, 4, 0x10, x, n); }
    if k2 > 0 { BitsAbove(x1, 8, 0x100, x2, n + k3); }
    if k1 > 0 { BitsAbove(x0, 16, 0x1_0000, x1, n + k3 + k2); }
  }

  /** The start value 2^(L/2 + 1) lies above the root. */
  lemma StartAbove(x: nat, n: nat, s: nat)
    requires 0 < n <= 32 && HasBits(x, n) && IsRoot(s, x)
    ensures s < Pow2((n - 1) / 2 + 1) <= 0x1_0000
  {
    var h := (n - 1) / 2 + 1;
    PowTable();
    Pow2Adds(h, 16 - h);
    Pow2Adds(h, h);
    Pow2Adds(n, 2 * h - n);
    assert x < Pow2(n);
    hide *;
    MulMonotone(1, Pow2(2 * h - n), Pow2(n));
    MulMonotone(1, Pow2(16 - h), Pow2(h));
    BelowSquare(s, x, Pow2(h));
  }

  lemma BelowSquare(s: nat, x: nat, y: nat)
    requires IsRoot(s, x) && x < y * y
    ensures s < y
  {
    SquareOrder(y, s);
  }

  lemma RootExists(x: nat) returns (s: nat)
    ensures IsRoot(s, x)
  {
    s := 0;
    while (s + 1) * (s + 1) <= x
      invariant s * s <= x
      decreases x - s
    {
      s := s + 1;
    }
  }

  /** A Newton step never falls below the root. */
  lemma StepAbove(x: nat, y: nat, s: nat)
    requires y > 0 && IsRoot(s, x)
    ensures (y + x / y) / 2 >= s
  {
    assert y * y + s * s >= 2 * s * y by { SquareOfDifference(y, s); }
    assert (2 * s - y) * y <= x;
    QuotientAtLeast(x, y, 2 * s - y);
  }

  lemma SquareOfDifference(a: int, b: int)
    ensures a * a + b * b >= 2 * b * a
  {
    assert (a - b) * (a - b) >= 0;
    assert (a - b) * (a - b) == a * a - 2 * b * a + b * b;
  }

  lemma QuotientAtLeast(x: nat, y: nat, q: int)
    requires y > 0 && q * y <= x
    ensures x / y >= q
  {
    var d := x / y;
    assert x < (d + 1) * y;
    if d + 1 <= q { MulMonotoneInt(d + 1, q, y); }
  }

  lemma MulMonotoneInt(a: int, b: int, c: nat)
    requires a <= b
    ensures a * c <= b * c
  {
  }

  lemma QuotientAtMost(x: nat, y: nat, q: nat)
    requires y > 0 && x < (q + 1) * y
    ensures x / y <= q
  {
    var d := x / y;
    assert d * y <= x;
    if d >= q + 1 { MulMonotone(q + 1, d, y); }
  }

  /** Where the Newton loop stops: it did not go down from z, so z was the root, and
      the next value is at most one above it. */
  lemma StopNearRoot(x: nat, z: nat, s: nat)
    requires IsRoot(s, x) && s <= z && z > 0 && (z + x / z) / 2 >= z
    ensures z == s && (z + x / z) / 2 <= s + 1
    ensures (z + x / z) / 2 == s + 1 ==> (s + 1) * (s + 1) <= x + 1
  {
    var q := x / z;
    assert q >= z && q * z <= x;
    MulMonotone(z, q, z);
    SquareOrder(s + 1, z);
    assert z == s;
    assert (s + 1) * (s + 1) == s * s + 2 * s + 1 == (s + 2) * s + 1;
    assert (s + 3) * s == (s + 2) * s + s;
    QuotientAtMost(x, s, s + 2);
    if q == s + 2 { assert (s + 2) * s <= x; }
  }

  lemma RootsEqual(x: nat, s: nat, t: nat)
    requires IsRoot(s, x) && IsRoot(t, x)
    ensures s == t
  {
    SquareOrder(s + 1, t);
    SquareOrder(t + 1, s);
  }

  lemma SquareOrder(a: nat, b: nat)
    ensures a <= b <==> a * a <= b * b
  {
    assert b * b - a * a == (b - a) * (b + a);
    assert a < b ==> a * a < b * b;
    assert b < a ==> b * b < a * a;
  }

  /** The quotient stays small above the root, so the sum stays in 32 bits. */
  lemma SumFits(x: nat, y: nat, s: nat)
    requires x < WORD && 0 < s <= y <= 0x8000_0000 && IsRoot(s, x)
    ensures y + x / y < WORD && s < 0x1_0000
  {
    SquareOrder(0x1_0000, s);
    assert (s + 1) * (s + 1) == (s + 2) * s + 1;
    assert (s + 3) * s == (s + 2) * s + s;
    MulMonotone(s, y, s + 3);
    assert x < (s + 3) * y;
    QuotientAtMost(x, y, s + 2);
  }

  /** The Newton loop from a start above the root. */
  method Newton(x: nat, start: nat, ghost s: nat) returns (y: nat)
    requires x + 1 < WORD && IsRoot(s, x) && 0 < s <= start <= 0x8000_0000
    ensures s <= y <= s + 1 && y * y < WORD
  {
    hide IsRoot;
    SumFits(x, start, s);
    StepAbove(x, start, s);
    var z := start;
    y := (z + x / z) % WORD / 2;
    while y < z
      invariant 0 < s <= y && s <= z <= 0x8000_0000 && y == (z + x / z) / 2
      decreases z
    {
      z := y;
      SumFits(x, z, s);
      StepAbove(x, z, s);
      y := (z + x / z) % WORD / 2;
    }
    StopNearRoot(x, z, s);
    ProductFits(x, s, y);
  }

  /** No product wraps: 2^16 squared would, and only x = 2^32 - 1 could get there. */
  lemma ProductFits(x: nat, s: nat, y: nat)
    requires x + 1 < WORD && IsRoot(s, x) && s <= y <= s + 1
    requires y == s + 1 ==> (s + 1) * (s + 1) <= x + 1
    ensures y * y < WORD
  {
  }

  /** y * y in 32 bits. */
  function Square32(y: nat): nat {
    (y * y) % WORD
  }

  lemma SquareFits(y: nat)
    requires y * y < WORD
    ensures Square32(y) == y * y
  {
  }

  /** The other start value, for machines without ffs_msb. */
  lemma HalfAbove(x: nat, s: nat)
    requires IsRoot(s, x)
    ensures s <= x / 2 + 1
  {
    if s > 2 { MulMonotone(2, s, s); }
  }

  /** int_sqrt: the integer square root of every 32-bit number, with or without
      ffs_msb for the start value. */
  method Sqrt(x: nat, hasMsb: bool) returns (y: nat)
    requires x < WORD
    ensures IsRoot(y, x) && forall r: nat :: IsRoot(r, x) ==> r == y
  {
    if (x + 1) % WORD <= 1 {
      y := if x != 0 then 0xffff else 0;
      OneRoot(x, y);
      return;
    }
    hide HasBits, IsRoot, Square32, Pow2;
    ghost var s := RootExists(x);
    RootPositive(x, s);
    var start := x / 2 + 1;
    if hasMsb {
      var msb := FfsMsb(x);
      StartAbove(x, 33 - msb, s);
      start := Pow2((32 - msb) / 2 + 1);
    } else {
      HalfAbove(x, s);
    }
    y := Newton(x, start, s);
    SquareFits(y);
    while Square32(y) > x
      invariant s <= y <= s + 1 && Square32(y) == y * y
      decreases y
    {
      RootAbove(x, s, y);
      y := y - 1;
      SquareFits(y);
    }
    RootFromBelow(x, s, y);
    OneRoot(x, y);
  }

  lemma OneRoot(x: nat, y: nat)
    requires IsRoot(y, x)
    ensures forall r: nat :: IsRoot(r, x) ==> r == y
  {
    forall r: nat | IsRoot(r, x) ensures r == y { RootsEqual(x, r, y); }
  }

  lemma RootPositive(x: nat, s: nat)
    requires x > 0 && IsRoot(s, x)
    ensures s > 0
  {
  }

  lemma RootAbove(x: nat, s: nat, y: nat)
    requires x < WORD && IsRoot(s, x) && s <= y <= s + 1 && y * y > x
    ensures y == s + 1 && s * s < WORD
  {
  }

  lemma RootFromBelow(x: nat, s: nat, y: nat)
    requires IsRoot(s, x) && s <= y <= s + 1 && y * y <= x
    ensures IsRoot(y, x)
  {
  }
}
