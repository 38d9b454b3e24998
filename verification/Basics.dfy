/** A value that may be missing. */
module Wrappers {
  datatype Option<+T> = None | Some(value: T)
}

/** Powers of two, and products. */
module Powers {

  function Pow2(k: nat): (r: nat)
    ensures r > 0
  {
    if k == 0 then 1 else 2 * Pow2(k - 1)
  }

  lemma {:induction false} Pow2Monotone(i: nat, j: nat)
    requires i <= j
    ensures Pow2(i) <= Pow2(j)
    decreases j
  {
    if i < j { Pow2Monotone(i, j - 1); }
  }

  lemma {:induction false} Pow2Adds(a: nat, b: nat)
    ensures Pow2(a + b) == Pow2(a) * Pow2(b)
    decreases a
  {
    if a > 0 {
      Pow2Adds(a - 1, b);
      assert Pow2(a) == 2 * Pow2(a - 1) && Pow2(a + b) == 2 * Pow2(a - 1 + b);
      assert 2 * (Pow2(a - 1) * Pow2(b)) == (2 * Pow2(a - 1)) * Pow2(b);
    }
  }

  lemma MulMonotone(x: nat, y: nat, w: nat)
    requires x <= y
    ensures x * w <= y * w
  {
    assert y * w - x * w == (y - x) * w;
  }
}

/** Widths of the machine that the code is compiled for. */
module Machine {
  const SIZEOF_SIZE_T := 8
  const WORD := 0x1_0000_0000
  const INT_MAX := 0x7fff_ffff
}

/** Hexadecimal digits. */
module Numerals {
  import opened Powers

  /** The value of a digit, or -1. */
  function HexValue(c: char): int {
    if '0' <= c <= '9' then (c - '0') as int
    else if 'a' <= c <= 'f' then (c - 'a') as int + 10
    else if 'A' <= c <= 'F' then (c - 'A') as int + 10
    else -1
  }

  function HexChar(v: nat): char
    requires v < 16
  {
    if v < 10 then '0' + v as char else 'a' + (v - 10) as char
  }

  /** Digits and their values: both cases, and nothing else. */
  lemma HexTable(c: char)
    ensures forall v: nat :: v < 16 ==> HexChar(v) == "0123456789abcdef"[v]
    ensures forall v: nat :: v < 16 ==> HexValue("0123456789abcdef"[v]) == v == HexValue("0123456789ABCDEF"[v])
    ensures HexValue(c) >= 0 ==>
              && HexValue(c) < 16
              && (c == "0123456789abcdef"[HexValue(c)] || c == "0123456789ABCDEF"[HexValue(c)])
  {
  }

  function Power(base: nat, k: nat): nat {
    if k == 0 then 1 else base * Power(base, k - 1)
  }

  predicate AllDigits(digits: string, base: nat) {
    forall i :: 0 <= i < |digits| ==> 0 <= HexValue(digits[i]) < base
  }

  /** The positional value of a numeral. */
  function Value(digits: string, base: nat): int {
    if digits == "" then 0
    else HexValue(digits[0]) * Power(base, |digits| - 1) + Value(digits[1..], base)
  }

  lemma Shifted(h: int, p: int, base: int, v: int, x: int)
    ensures h * (base * p) + (v * base + x) == (h * p + v) * base + x
  {
    assert h * (base * p) == (h * p) * base;
  }

  /** One more digit behind a numeral. */
  lemma {:induction false} OneMoreDigit(digits: string, c: char, base: nat)
    ensures Value(digits + [c], base) == Value(digits, base) * base + HexValue(c)
    decreases |digits|
  {
    hide HexValue;
    var all := digits + [c];
    if digits == "" {
      assert all == [c] && all[1..] == "";
      assert Value(all, base) == HexValue(c) * Power(base, 0) + Value("", base);
    } else {
      assert all[1..] == digits[1..] + [c];
      OneMoreDigit(digits[1..], c, base);
      Shifted(HexValue(digits[0]), Power(base, |digits| - 1), base, Value(digits[1..], base), HexValue(c));
    }
  }

  lemma BelowNext(h: nat, p: nat, base: nat, v: nat)
    requires h < base && v < p
    ensures 0 <= h * p + v < base * p
  {
    MulMonotone(h + 1, base, p);
    MulMonotone(0, h, p);
    assert (h + 1) * p == h * p + p;
  }

  /** A numeral of k digits is below base^k. */
  lemma {:induction false} ValueBound(digits: string, base: nat)
    requires AllDigits(digits, base)
    ensures 0 <= Value(digits, base) < Power(base, |digits|)
    decreases |digits|
  {
    hide HexValue;
    if digits != "" {
      ValueBound(digits[1..], base);
      BelowNext(HexValue(digits[0]), Power(base, |digits| - 1), base, Value(digits[1..], base));
    }
  }
}

/** Ports of elements, and connections between them. */
module Ports {
  datatype Port = Port(idx: int, port: int)

  /** A connection; side 1 (true) is where it starts, side 0 where it ends. */
  datatype Conn = Conn(from: Port, to: Port) {
    function Side(isoutput: bool): Port { if isoutput then from else to }
  }
}
