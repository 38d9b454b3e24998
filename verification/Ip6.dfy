/** The text form of IPv6 addresses: IP6Address::unparse and
    IP6AddressArg::basic_parse (lib/ip6address.cc), with the dotted quads of
    IPAddressArg::basic_parse (lib/ipaddress.cc).

    An address is its eight 16-bit fields as numbers; the byte swaps of htons and
    ntohs are left to the machine.  Looking a name up in the address tables is the
    parameter `query`.
 */
module Ip6 {
  import opened Wrappers
  import opened Numerals

  predicate Fields(a: seq<int>) {
    forall i :: 0 <= i < |a| ==> 0 <= a[i] < 0x1_0000
  }

  predicate Address(a: seq<int>) {
    |a| == 8 && Fields(a)
  }

  // ----- Numerals -----------------------------------------------------------

  predicate IsDigit(c: char) { '0' <= c <= '9' }

  /** printf's "%x". */
  function Hex(v: nat): (t: string)
    ensures t != [] && HexValue(t[0]) >= 0
  {
    if v < 16 then [HexChar(v)] else Hex(v / 16) + [HexChar(v % 16)]
  }

  /** printf's "%d" for a number that is not negative. */
  function Dec(v: nat): (t: string)
    ensures t != [] && forall i :: 0 <= i < |t| ==> IsDigit(t[i])
  {
    if v < 10 then [HexChar(v)] else Dec(v / 10) + [HexChar(v % 10)]
  }

  // ----- What unparse writes ------------------------------------------------

  /** Fields in hexadecimal with colons between them. */
  function Join(a: seq<int>): (t: string)
    requires Fields(a)
  {
    if a == [] then "" else if |a| == 1 then Hex(a[0]) else Hex(a[0]) + ":" + Join(a[1..])
  }

  function Quad(hi: int, lo: int): string
    requires 0 <= hi < 0x1_0000 && 0 <= lo < 0x1_0000
  {
    Dec(hi / 256) + "." + Dec(hi % 256) + "." + Dec(lo / 256) + "." + Dec(lo % 256)
  }

  predicate Zeros(a: seq<int>, lo: int, hi: int)
    requires 0 <= lo <= hi <= |a|
  {
    forall i :: lo <= i < hi ==> a[i] == 0
  }

  /** zl zero fields from zp on: no run is longer, none as long starts earlier
      (section 4.2 of RFC 5952). */
  ghost predicate FirstLongest(a: seq<int>, zp: nat, zl: nat) {
    && zp + zl <= |a| && Zeros(a, zp, zp + zl)
    && (forall q, e :: 0 <= q < e <= |a| && Zeros(a, q, e) ==> e - q <= zl && (e - q == zl ==> zp <= q))
  }

  function HexText(a: seq<int>, zp: nat, zl: nat): string
    requires Fields(a) && zp + zl <= |a|
  {
    if zl > 1 then Join(a[..zp]) + "::" + Join(a[zp + zl..]) else Join(a)
  }

  /** The text of an address. */
  ghost predicate IsText(a: seq<int>, t: string)
    requires Address(a)
  {
    if Zeros(a, 0, 8) then t == "::"
    else if Zeros(a, 0, 6) then t == "::" + Quad(a[6], a[7])
    else if Zeros(a, 0, 5) && a[5] == 0xffff then t == "::ffff:" + Quad(a[6], a[7])
    else exists zp: nat, zl: nat :: zp + zl <= 8 && FirstLongest(a, zp, zl) && t == HexText(a, zp, zl)
  }

  /** The first loop of unparse. */
  method LongestRun(a: seq<int>) returns (zp: nat, zl: nat)
    requires |a| == 8
    ensures FirstLongest(a, zp, zl)
  {
    zp, zl := 0, 0;
    var lzp, p := 0, 0;
    while p < 8
      invariant 0 <= lzp <= p <= 8 && Zeros(a, lzp, p) && (lzp > 0 ==> a[lzp - 1] != 0)
      invariant zp + zl <= p && Zeros(a, zp, zp + zl) && p - lzp <= zl
      invariant forall q, e :: 0 <= q < e <= p && Zeros(a, q, e) ==> e - q <= zl && (e - q == zl ==> zp <= q)
    {
      if a[p] != 0 {
        lzp := p + 1;
      } else if p + 1 - lzp > zl {
        zp, zl := lzp, p + 1 - lzp;
      }
      forall q, e | 0 <= q < e == p + 1 && Zeros(a, q, e) ensures lzp <= q {
        assert a[p] == 0;
      }
      p := p + 1;
    }
  }

  lemma {:induction false} JoinSnoc(s: seq<int>, x: int)
    requires Fields(s) && s != [] && 0 <= x < 0x1_0000 && Fields(s + [x])
    ensures Join(s + [x]) == Join(s) + ":" + Hex(x)
  {
    hide Hex;
    if |s| > 1 {
      assert (s + [x])[1..] == s[1..] + [x];
      JoinSnoc(s[1..], x);
    }
  }

  /** What the second loop has written when it reaches field p. */
  ghost function Partial(a: seq<int>, zp: nat, zl: nat, p: nat): string
    requires Address(a) && zp + zl <= 8 && p <= 8
  {
    if zl <= 1 || p <= zp then Join(a[..p])
    else if p < zp + zl then ""
    else Join(a[..zp]) + (if p == zp + zl < 8 then ":" else "::" + Join(a[zp + zl..p]))
  }

  lemma PartialStep(a: seq<int>, zp: nat, zl: nat, p: nat)
    requires Address(a) && zp + zl <= 8 && p < 8 && !(zl > 1 && zp <= p < zp + zl)
    ensures Partial(a, zp, zl, p + 1) == Partial(a, zp, zl, p) + (if p > 0 then ":" else "") + Hex(a[p])
  {
    hide Join, Hex;
    if zl <= 1 || p < zp { JoinOneMore(a, 0, p); } else { JoinOneMore(a, zp + zl, p); }
    assert a[..p] == a[0..p] && a[..p + 1] == a[0..p + 1];
  }

  lemma JoinOneMore(a: seq<int>, lo: nat, p: nat)
    requires Fields(a) && lo <= p < |a|
    ensures Fields(a[lo..p]) && Fields(a[lo..p + 1])
    ensures Join(a[lo..p + 1]) == Join(a[lo..p]) + (if p > lo then ":" else "") + Hex(a[p])
    ensures p == lo ==> Join(a[lo..p]) == ""
  {
    hide Hex;
    assert a[lo..p + 1] == a[lo..p] + [a[p]];
    if p > lo { JoinSnoc(a[lo..p], a[p]); }
  }

  lemma PartialRun(a: seq<int>, zp: nat, zl: nat)
    requires Address(a) && zp + zl <= 8 && zl > 1
    ensures Partial(a, zp, zl, zp + zl) == Partial(a, zp, zl, zp) + (if zp + zl == 8 then "::" else ":")
  {
    assert a[zp + zl..zp + zl] == [];
  }

  method UnparseHex(a: seq<int>) returns (sa: string)
    requires Address(a)
    ensures exists zp: nat, zl: nat :: zp + zl <= 8 && FirstLongest(a, zp, zl) && sa == HexText(a, zp, zl)
  {
    var zp, zl := LongestRun(a);
    hide FirstLongest;
    sa := "";
    var p := 0;
    while p < 8
      invariant 0 <= p <= 8 && !(zl > 1 && zp < p < zp + zl)
      invariant sa == Partial(a, zp, zl, p)
    {
      if p == zp && zl > 1 {
        PartialRun(a, zp, zl);
        p := p + (zl - 1);
        sa := sa + (if p == 7 then "::" else ":");
      } else {
        PartialStep(a, zp, zl, p);
        sa := sa + (if p > 0 then ":" else "") + Hex(a[p]);
      }
      p := p + 1;
    }
    assert a[..8] == a && a[zp + zl..8] == a[zp + zl..];
  }

  method Unparse(a: seq<int>) returns (sa: string)
    requires Address(a)
    ensures IsText(a, sa)
  {
    if a[0] == 0 && a[1] == 0 && a[2] == 0 && a[3] == 0 {
      if a[4] == 0 && a[5] == 0 && a[6] == 0 && a[7] == 0 {
        return "::";
      } else if a[4] == 0 && a[5] == 0 {
        return "::" + Quad(a[6], a[7]);
      } else if a[4] == 0 && a[5] == 0xffff {
        return "::ffff:" + Quad(a[6], a[7]);
      }
    }
    hide FirstLongest, HexText;
    sa := UnparseHex(a);
  }

  // ----- Dotted quads -------------------------------------------------------

  datatype Number = Number(part: int, rest: string)

  /** The digits of one part; stops as soon as the part is out of range. */
  function ScanPart(text: string, part: int): (r: Number)
    ensures |r.rest| <= |text|
  {
    if text != "" && IsDigit(text[0]) && part <= 255 then ScanPart(text[1..], part * 10 + (text[0] - '0') as int)
    else Number(part, text)
  }

  datatype Quads = Quads(value: seq<int>, nbytes: nat, rest: string)

  function ScanQuad(text: string, value: seq<int>, d: nat): (r: Quads)
    requires |value| == 4
    ensures |r.value| == 4 && |r.rest| <= |text|
    decreases 4 - d
  {
    if d < 4 && text != "" && (d == 0 || text[0] == '.') then
      var t := if d == 0 then text else text[1..];
      if t == "" || !IsDigit(t[0]) then Quads(value, d, text)
      else
        var n := ScanPart(t[1..], (t[0] - '0') as int);
        if n.part > 255 then Quads(value, d, text) else ScanQuad(n.rest, value[d := n.part], d + 1)
    else Quads(value, d, text)
  }

  /** IPAddressArg::basic_parse. */
  method ParseQuad(text: string, value: array<int>) returns (nbytes: nat, rest: string)
    requires value.Length == 4
    modifies value
    ensures ScanQuad(text, [0, 0, 0, 0], 0) == Quads(value[..], nbytes, rest)
  {
    hide ScanPart;
    Zero(value, 0, 4);
    assert value[..] == [0, 0, 0, 0];
    var d, s := 0, text;
    while d < 4 && s != "" && (d == 0 || s[0] == '.')
      invariant 0 <= d <= 4
      invariant ScanQuad(text, [0, 0, 0, 0], 0) == ScanQuad(s, value[..], d)
      decreases 4 - d
    {
      var t := if d == 0 then s else s[1..];
      if t == "" || !IsDigit(t[0]) { break; }
      var part;
      part, t := ReadPart(t);
      if part > 255 { break; }
      ghost var was := value[..];
      s, value[d] := t, part;
      assert value[..] == was[d := part];
      d := d + 1;
    }
    nbytes, rest := d, s;
  }

  method ReadPart(text: string) returns (part: int, t: string)
    requires text != "" && IsDigit(text[0])
    ensures ScanPart(text[1..], (text[0] - '0') as int) == Number(part, t)
  {
    part, t := (text[0] - '0') as int, text[1..];
    while t != "" && IsDigit(t[0]) && part <= 255
      invariant ScanPart(text[1..], (text[0] - '0') as int) == ScanPart(t, part)
      decreases |t|
    {
      part := part * 10 + (t[0] - '0') as int;
      t := t[1..];
    }
  }

  /** IPAddressArg::parse. */
  function Ipv4(text: string, query: string -> Option<seq<int>>): Option<seq<int>> {
    var q := ScanQuad(text, [0, 0, 0, 0], 0);
    if q.rest == "" && q.nbytes == 4 then Some(q.value) else query(text)
  }

  lemma ScanPartStop(rest: string, part: int)
    requires rest == "" || !IsDigit(rest[0])
    ensures ScanPart(rest, part) == Number(part, rest)
  {
  }

  lemma ScanPartStep(c: char, rest: string, part: int)
    requires IsDigit(c) && part <= 255
    ensures ScanPart([c] + rest, part) == ScanPart(rest, part * 10 + (c - '0') as int)
  {
    assert ([c] + rest)[1..] == rest;
  }

  lemma ScanQuadEnd(value: seq<int>)
    requires |value| == 4
    ensures ScanQuad("", value, 4) == Quads(value, 4, "")
  {
  }

  // ----- The scanning loop --------------------------------------------------

  /** The variables d, p, coloncolon and the parts. */
  datatype State = State(d: nat, p: nat, cc: int, parts: seq<int>)

  /** Overrun: the next store would lie behind the eighth part. */
  datatype Scanned = Stopped(rest: string, st: State) | Overrun

  predicate StateOk(st: State) {
    && |st.parts| == 8 && st.d <= 8 && (st.d == 8 ==> st.p == 0)
    && -1 <= st.cc <= 7 && (st.cc >= 0 ==> st.cc < st.d)
  }

  const START := State(0, 0, -1, [0xffff, 0xffff, 0xffff, 0xffff, 0xffff, 0xffff, 0xffff, 0xffff])

  /** One round of the loop: stop, fail, or go on behind n characters. */
  datatype Move = Stop(st: State) | Fail | Go(n: nat, st: State)

  function Next(text: string, st: State): (m: Move)
    requires StateOk(st) && text != ""
    ensures m.Stop? || m.Go? ==> StateOk(m.st)
    ensures m.Go? ==> 1 <= m.n <= |text|
  {
    if HexValue(text[0]) >= 0 then
      if st.p == 4 then Stop(st)
      else if st.d == 8 then Fail
      else Go(1, st.(p := st.p + 1, parts := st.parts[st.d := Shifted(st, HexValue(text[0]))]))
    else if text[0] == ':' && |text| > 1 && st.d != 7 && (st.p != 0 || st.d == 0) then
      if text[1] == ':' && st.cc < 0 then
        var d := if st.p != 0 then st.d + 1 else st.d;
        Go(2, State(d + 1, 0, d, st.parts[d := 0]))
      else if HexValue(text[1]) < 0 || st.p == 0 then Stop(st.(d := st.d + 1))
      else Go(1, st.(d := st.d + 1, p := 0))
    else Stop(st)
  }

  /** A digit shifted into the current part, in 16 bits. */
  function Shifted(st: State, digit: int): int
    requires |st.parts| == 8 && st.d < 8
  {
    ((if st.p != 0 then st.parts[st.d] * 16 else 0) + digit) % 0x1_0000
  }

  function Scan(text: string, st: State): (r: Scanned)
    requires StateOk(st)
    ensures r.Stopped? ==> StateOk(r.st) && |r.rest| <= |text|
    decreases |text|
  {
    if text == "" then Stopped(text, st)
    else
      var m := Next(text, st);
      match m
      case Stop(st') => Stopped(text, st')
      case Fail => Overrun
      case Go(n, st') => Scan(text[n..], st')
  }

  lemma ScanGo(front: string, rest: string, st: State)
    requires StateOk(st) && front != "" && Next(front + rest, st).Go? && Next(front + rest, st).n == |front|
    ensures Scan(front + rest, st) == Scan(rest, Next(front + rest, st).st)
  {
    assert (front + rest)[|front|..] == rest;
  }

  lemma ScanDigit(c: char, rest: string, st: State)
    requires StateOk(st) && HexValue(c) >= 0 && st.p < 4 && st.d < 8
    ensures Scan([c] + rest, st) == Scan(rest, st.(p := st.p + 1, parts := st.parts[st.d := Shifted(st, HexValue(c))]))
  {
    hide Scan;
    ScanGo([c], rest, st);
  }

  lemma ScanColon(rest: string, st: State)
    requires StateOk(st) && st.p != 0 && st.d < 7 && rest != "" && HexValue(rest[0]) >= 0
    ensures Scan(":" + rest, st) == Scan(rest, st.(d := st.d + 1, p := 0))
  {
    hide Scan;
    assert (":" + rest)[1] == rest[0];
    ScanGo(":", rest, st);
  }

  lemma ScanDouble(rest: string, st: State)
    requires StateOk(st) && st.cc < 0 && (if st.p != 0 then st.d < 7 else st.d == 0)
    ensures var d := if st.p != 0 then st.d + 1 else st.d;
            Scan("::" + rest, st) == Scan(rest, State(d + 1, 0, d, st.parts[d := 0]))
  {
    hide Scan;
    assert ("::" + rest)[1] == ':';
    ScanGo("::", rest, st);
  }

  // ----- After the loop -----------------------------------------------------

  /** Backwards from s to a colon, or to the start. */
  function BackToColon(str: string, s: nat): (t: nat)
    requires s < |str|
    ensures t <= s && (t == 0 || str[t] == ':') && forall k :: t < k <= s ==> str[k] != ':'
  {
    if s == 0 || str[s] == ':' then s else BackToColon(str, s - 1)
  }

  /** Parsed: `consumed` characters and the parts they left in the result. */
  datatype Outcome = Parsed(consumed: nat, parts: seq<int>) | OutOfParts

  /** The double colon becomes the missing zeros. */
  function Assemble(s: nat, d: int, cc: int, parts: seq<int>): Outcome
    requires |parts| == 8 && -1 <= d <= 7 && -1 <= cc <= 7 && (cc >= 0 ==> cc <= d)
  {
    if d != 7 && cc < 0 then Parsed(0, parts)
    else if cc >= 0 && d != 7 then Parsed(s, parts[..cc + 1] + seq(7 - d, i => 0) + parts[cc + 1..d + 1])
    else Parsed(s, parts)
  }

  function Finish(str: string, rest: string, st: State, query: string -> Option<seq<int>>): Outcome
    requires StateOk(st) && |rest| <= |str|
  {
    var s := |str| - |rest|;
    var d := if st.p == 0 then st.d - 1 else st.d;
    if (d == 6 || (d < 6 && st.cc >= 0)) && s != |str| then
      var t := BackToColon(str, s);
      var ipv4 := if t != 0 then Ipv4(str[t + 1..], query) else None;
      if ipv4.Some? && |ipv4.value| == 4 then
        var dd := if d == st.cc then d + 1 else d;
        if dd + 1 >= 8 then OutOfParts
        else
          var v := ipv4.value;
          Assemble(|str|, dd + 1, st.cc, st.parts[dd := v[0] * 256 + v[1]][dd + 1 := v[2] * 256 + v[3]])
      else Assemble(s, d, st.cc, st.parts)
    else Assemble(s, d, st.cc, st.parts)
  }

  function Parse(str: string, query: string -> Option<seq<int>>): Outcome {
    var r := Scan(str, START);
    if r.Overrun? then OutOfParts else Finish(str, r.rest, r.st, query)
  }

  // ----- basic_parse --------------------------------------------------------

  /** What one round of the loop did: go on, stop, or fail. */
  datatype Pace = Going | Halted | Failed

  method Clear(parts: array<int>)
    requires parts.Length == 8
    modifies parts
    ensures parts[..] == START.parts
  {
    var i := 0;
    while i < 8
      invariant 0 <= i <= 8 && forall k :: 0 <= k < i ==> parts[k] == 0xffff
    {
      parts[i] := 0xffff;
      i := i + 1;
    }
  }

  /** The loop body at position s. */
  method Round(str: string, s0: nat, d0: nat, p0: nat, cc0: int, parts: array<int>)
    returns (pace: Pace, s: nat, d: nat, p: nat, cc: int)
    requires s0 < |str| && parts.Length == 8 && StateOk(State(d0, p0, cc0, parts[..]))
    modifies parts
    ensures s <= |str|
    ensures var m := Next(str[s0..], State(d0, p0, cc0, old(parts[..])));
            match pace
            case Going => s0 < s <= |str| && m == Go(s - s0, State(d, p, cc, parts[..]))
            case Halted => m == Stop(State(d, p, cc, parts[..])) && s == s0
            case Failed => m == Fail
  {
    hide HexValue;
    ghost var was := parts[..];
    s, d, p, cc := s0, d0, p0, cc0;
    assert str[s..][0] == str[s] && (s + 1 < |str| ==> str[s..][1] == str[s + 1]);
    var digit := HexValue(str[s]);
    if digit < 0 {
      if str[s] == ':' && s + 1 != |str| && d != 7 && (p != 0 || d == 0) {
        if str[s + 1] == ':' && cc < 0 {
          d := if p != 0 then d + 1 else d;
          cc := d;
          parts[d] := 0;
          assert parts[..] == was[d := 0];
          s := s + 1;
        } else if HexValue(str[s + 1]) < 0 || p == 0 {
          d := d + 1;
          return Halted, s, d, p, cc;
        }
        p, d, s := 0, d + 1, s + 1;
        return Going, s, d, p, cc;
      } else {
        return Halted, s, d, p, cc;
      }
    }
    if p == 4 { return Halted, s, d, p, cc; }
    if d == 8 { return Failed, s, d, p, cc; }
    parts[d] := ((if p != 0 then parts[d] * 16 else 0) + digit) % 0x1_0000;
    assert parts[..] == was[d := parts[d]];
    p, s := p + 1, s + 1;
    pace := Going;
  }

  lemma ScanMove(str: string, s: nat, st: State)
    requires StateOk(st) && s < |str|
    ensures var m := Next(str[s..], st);
            Scan(str[s..], st) == match m
                                  case Stop(st') => Stopped(str[s..], st')
                                  case Fail => Overrun
                                  case Go(n, st') => Scan(str[s + n..], st')
  {
    var m := Next(str[s..], st);
    if m.Go? { assert str[s..][m.n..] == str[s + m.n..]; }
  }

  lemma ScanDone(str: string, st: State)
    requires StateOk(st)
    ensures Scan(str[|str|..], st) == Stopped("", st)
  {
  }

  method ScanAll(str: string, parts: array<int>) returns (ok: bool, s: nat, d: nat, p: nat, cc: int)
    requires parts.Length == 8 && parts[..] == START.parts
    modifies parts
    ensures s <= |str|
    ensures Scan(str, START) == if ok then Stopped(str[s..], State(d, p, cc, parts[..])) else Overrun
  {
    hide Scan, Next, StateOk;
    s, d, p, cc := 0, 0, 0, -1;
    assert str[0..] == str;
    StartOk();
    while s < |str|
      invariant 0 <= s <= |str| && StateOk(State(d, p, cc, parts[..]))
      invariant Scan(str, START) == Scan(str[s..], State(d, p, cc, parts[..]))
      decreases |str| - s
    {
      ScanMove(str, s, State(d, p, cc, parts[..]));
      var pace;
      pace, s, d, p, cc := Round(str, s, d, p, cc, parts);
      if pace != Going { return pace == Halted, s, d, p, cc; }
    }
    ScanDone(str, State(d, p, cc, parts[..]));
    ok := true;
  }

  lemma StartOk()
    ensures StateOk(START)
  {
  }

  /** The memmove: the parts behind the double colon go to the end. */
  method MoveBack(parts: array<int>, d: nat, cc: nat)
    requires parts.Length == 8 && cc <= d < 7
    modifies parts
    ensures forall k :: 0 <= k <= cc ==> parts[k] == old(parts[k])
    ensures forall k :: cc < k <= d ==> parts[k + 7 - d] == old(parts[k])
  {
    var extra, i := 7 - d, d;
    while i > cc
      invariant cc <= i <= d
      invariant forall k :: 0 <= k <= i ==> parts[k] == old(parts[k])
      invariant forall k :: i < k <= d ==> parts[k + extra] == old(parts[k])
      decreases i
    {
      parts[i + extra] := parts[i];
      i := i - 1;
    }
  }

  /** The memset: zeros from lo to hi. */
  method Zero(parts: array<int>, lo: nat, hi: nat)
    requires lo <= hi <= parts.Length
    modifies parts
    ensures forall k :: 0 <= k < parts.Length ==> parts[k] == if lo <= k < hi then 0 else old(parts[k])
  {
    var i := lo;
    while i < hi
      invariant lo <= i <= hi
      invariant forall k :: 0 <= k < parts.Length ==> parts[k] == if lo <= k < i then 0 else old(parts[k])
    {
      parts[i] := 0;
      i := i + 1;
    }
  }

  method Spread(parts: array<int>, d: nat, cc: nat)
    requires parts.Length == 8 && cc <= d < 7
    modifies parts
    ensures parts[..] == old(parts[..cc + 1]) + seq(7 - d, i => 0) + old(parts[cc + 1..d + 1])
  {
    MoveBack(parts, d, cc);
    Zero(parts, cc + 1, cc + 1 + 7 - d);
    assert parts[..cc + 1] == old(parts[..cc + 1]);
    assert parts[cc + 1..cc + 1 + 7 - d] == seq(7 - d, i => 0);
    assert parts[cc + 1 + 7 - d..] == old(parts[cc + 1..d + 1]) by {
      forall k | cc < k <= d ensures parts[k + 7 - d] == old(parts[k]) {}
    }
    assert parts[..] == parts[..cc + 1] + parts[cc + 1..cc + 1 + 7 - d] + parts[cc + 1 + 7 - d..];
  }

  method AssembleParts(s0: nat, d: int, cc: int, parts: array<int>) returns (s: nat)
    requires parts.Length == 8 && -1 <= d <= 7 && -1 <= cc <= 7 && (cc >= 0 ==> cc <= d)
    modifies parts
    ensures Assemble(s0, d, cc, old(parts[..])) == Parsed(s, parts[..])
  {
    if d != 7 && cc < 0 { return 0; }
    if cc >= 0 && d != 7 { Spread(parts, d, cc); }
    s := s0;
  }

  method Ipv4Parse(text: string, query: string -> Option<seq<int>>) returns (r: Option<seq<int>>)
    ensures r == Ipv4(text, query)
  {
    var value := new int[4];
    var nbytes, rest := ParseQuad(text, value);
    r := if rest == "" && nbytes == 4 then Some(value[..]) else query(text);
  }

  method FindColon(str: string, s: nat) returns (t: nat)
    requires s < |str|
    ensures t == BackToColon(str, s)
  {
    t := s;
    while t != 0 && str[t] != ':'
      invariant t <= s && BackToColon(str, s) == BackToColon(str, t)
      decreases t
    {
      t := t - 1;
    }
  }

  /** IP6AddressArg::basic_parse over the caller's eight parts; `ok` is false where
      the code would store behind them. */
  method BasicParse(str: string, parts: array<int>, query: string -> Option<seq<int>>) returns (ok: bool, s: nat)
    requires parts.Length == 8
    modifies parts
    ensures Parse(str, query) == if ok then Parsed(s, parts[..]) else OutOfParts
  {
    hide Scan, Ipv4, BackToColon, Assemble;
    Clear(parts);
    var d: int, p, cc;
    ok, s, d, p, cc := ScanAll(str, parts);
    if !ok { return; }
    if p == 0 { d := d - 1; }
    if (d == 6 || (d < 6 && cc >= 0)) && s != |str| {
      var t := FindColon(str, s);
      if t != 0 {
        var ipv4 := Ipv4Parse(str[t + 1..], query);
        if ipv4.Some? && |ipv4.value| == 4 {
          var dd, v := if d == cc then d + 1 else d, ipv4.value;
          if dd + 1 >= 8 { return false, 0; }
          ghost var was := parts[..];
          parts[dd] := v[0] * 256 + v[1];
          parts[dd + 1] := v[2] * 256 + v[3];
          assert parts[..] == was[dd := v[0] * 256 + v[1]][dd + 1 := v[2] * 256 + v[3]];
          d, s := dd + 1, |str|;
        }
      }
    }
    s := AssembleParts(s, d, cc, parts);
  }

  // ----- When the parts do not suffice --------------------------------------

  predicate StartsHex(text: string) {
    text != "" && HexValue(text[0]) >= 0
  }

  /** The number of hexadecimal digits at the front. */
  function Digits(text: string): (g: nat)
    ensures g <= |text| && (g < |text| ==> HexValue(text[g]) < 0)
    ensures forall i :: 0 <= i < g ==> HexValue(text[i]) >= 0
  {
    if StartsHex(text) then
      var g := Digits(text[1..]);
      assert forall i :: 0 < i <= g ==> text[i] == text[1..][i - 1];
      g + 1
    else 0
  }

  /** What follows n fields, single colons between them, and a double colon. */
  function AfterFields(text: string, n: nat): (rest: Option<string>)
    requires n > 0
    ensures rest.Some? ==> |rest.value| + 2 < |text| && text[|text| - |rest.value|..] == rest.value
                           && text[|text| - |rest.value| - 1] == ':'
    decreases n
  {
    var g := Digits(text);
    if !(1 <= g <= 4 && g < |text| && text[g] == ':') then None
    else if n > 1 then AfterFields(text[g + 1..], n - 1)
    else if g + 1 < |text| && text[g + 1] == ':' then Some(text[g + 2..])
    else None
  }

  /** The texts for which the code would store behind the eighth part: a field
      behind seven fields and a double colon, or a dotted quad (or a name that has an
      address) behind six fields and a double colon. */
  predicate Crowded(str: string, query: string -> Option<seq<int>>) {
    || (var seven := AfterFields(str, 7); seven.Some? && StartsHex(seven.value))
    || (var six := AfterFields(str, 6);
        && six.Some? && six.value != "" && !StartsHex(six.value)
        && var ipv4 := Ipv4(if six.value[0] == ':' then six.value[1..] else six.value, query);
           ipv4.Some? && |ipv4.value| == 4)
  }

  /** A second double colon is not taken: from here on d grows by single steps. */
  lemma {:induction false} NoMoreDouble(text: string, st: State)
    requires StateOk(st) && st.d <= 7 && (st.cc >= 0 || st.d == 7)
    ensures var r := Scan(text, st);
            r.Stopped? && r.st.cc == st.cc && (st.d == 7 && st.p > 0 ==> r.st.p > 0)
    decreases |text|
  {
    if text != "" {
      var m := Next(text, st);
      if m.Go? { NoMoreDouble(text[m.n..], m.st); }
    }
  }

  /** The digits of a field. */
  lemma {:induction false} ScanField(text: string, g: nat, st: State) returns (st': State)
    requires StateOk(st) && st.d < 8 && st.p + g <= 4 && g <= |text|
    requires forall i :: 0 <= i < g ==> HexValue(text[i]) >= 0
    ensures StateOk(st') && Scan(text, st) == Scan(text[g..], st')
    ensures st'.p == st.p + g && st'.d == st.d && st'.cc == st.cc
    decreases g
  {
    hide Scan, Shifted, HexValue;
    if g == 0 {
      st' := st;
    } else {
      assert text == [text[0]] + text[1..] && text[1..][g - 1..] == text[g..];
      ScanDigit(text[0], text[1..], st);
      st' := ScanField(text[1..], g - 1, st.(p := st.p + 1, parts := st.parts[st.d := Shifted(st, HexValue(text[0]))]));
    }
  }

  /** Behind a double colon that follows the field number st.d. */
  lemma BehindDouble(rest: string, st: State, r: Scanned)
    requires StateOk(st) && st.p == 0 && 1 <= st.cc && st.d == st.cc + 1 && r == Scan(rest, st)
    ensures r.Overrun? <==> st.cc == 7 && StartsHex(rest)
    ensures st.cc != 6 ==> r.Stopped? ==> r.st.cc != 6
    ensures st.cc == 6 ==> if StartsHex(rest) then r.Stopped? && r.st.p > 0 else r == Stopped(rest, st)
  {
    if st.d <= 7 {
      NoMoreDouble(rest, st);
      if st.cc == 6 && StartsHex(rest) {
        var m := Next(rest, st);
        NoMoreDouble(rest[1..], m.st);
      }
    }
  }

  /** What is decided from the start of field number d. */
  ghost predicate Decided(text: string, d: nat, r: Scanned)
    requires d <= 6
  {
    && (r.Overrun? <==> AfterFields(text, 7 - d).Some? && StartsHex(AfterFields(text, 7 - d).value))
    && (r.Stopped? && r.st.p == 0 && r.st.cc == 6 <==>
        d < 6 && AfterFields(text, 6 - d).Some? && !StartsHex(AfterFields(text, 6 - d).value))
    && (r.Stopped? && r.st.p == 0 && r.st.cc == 6 ==> r.st.d == 7 && r.rest == AfterFields(text, 6 - d).value)
  }

  lemma {:induction false} FieldsLeft(text: string, st: State)
    requires StateOk(st) && st.p == 0 && st.cc < 0 && st.d <= 6
    ensures Decided(text, st.d, Scan(text, st))
    decreases 7 - st.d
  {
    hide Scan, Decided, AfterFields, HexValue;
    var g := Digits(text);
    var st' := ScanField(text, if g <= 4 then g else 4, st);
    if g == 0 {
      NoField(text, st);
    } else if g > 4 || g + 1 >= |text| || text[g] != ':' {
      FieldEnds(text, st, st');
    } else if text[g + 1] == ':' {
      FieldThenDouble(text, st, st');
    } else if HexValue(text[g + 1]) < 0 {
      FieldThenOther(text, st, st');
    } else {
      var st2 := FieldThenField(text, st, st');
      if st.d < 6 { FieldsLeft(text[g + 1..], st2); } else { NoMoreDouble(text[g + 1..], st2); }
      DecidedLater(text, st.d, Scan(text, st));
    }
  }

  /** The scan has read the first field of the text. */
  ghost predicate FieldRead(text: string, st: State, st': State) {
    var g := if Digits(text) <= 4 then Digits(text) else 4;
    && StateOk(st) && StateOk(st') && st.p == 0 && st.cc < 0 && st.d <= 6
    && g > 0 && st'.p == g && st'.d == st.d && st'.cc == st.cc && Scan(text, st) == Scan(text[g..], st')
  }

  lemma FieldEnds(text: string, st: State, st': State)
    requires FieldRead(text, st, st') && var g := Digits(text); g > 4 || g + 1 >= |text| || text[g] != ':'
    ensures Decided(text, st.d, Scan(text, st))
  {
    var g := Digits(text);
    var rest := text[if g <= 4 then g else 4..];
    assert rest == "" || Next(rest, st') == Stop(st');
    assert g <= 4 && g + 1 == |text| ==> text[g + 1..] == "";
    NoFieldAt("");
  }

  lemma FieldThenDouble(text: string, st: State, st': State)
    requires FieldRead(text, st, st')
    requires var g := Digits(text); g <= 4 && g + 1 < |text| && text[g] == ':' == text[g + 1]
    ensures Decided(text, st.d, Scan(text, st))
  {
    hide Scan, Digits, AfterFields, HexValue, Next, StartsHex;
    var g := Digits(text);
    var rest := text[g + 2..];
    assert text[g..] == "::" + rest;
    ScanDouble(rest, st');
    BehindDouble(rest, State(st.d + 2, 0, st.d + 1, st'.parts[st.d + 1 := 0]), Scan(text, st));
    AfterDouble(text);
  }

  lemma AfterDouble(text: string)
    requires var g := Digits(text); 1 <= g <= 4 && g + 1 < |text| && text[g] == ':' == text[g + 1]
    ensures AfterFields(text, 1) == Some(text[Digits(text) + 2..])
    ensures forall n: nat :: n > 1 ==> AfterFields(text, n) == None
  {
    hide Digits;
    NoFieldAt(text[Digits(text) + 1..]);
  }

  lemma AfterOther(text: string)
    requires var g := Digits(text);
             1 <= g <= 4 && g + 1 < |text| && text[g] == ':' != text[g + 1] && HexValue(text[g + 1]) < 0
    ensures forall n: nat :: n > 0 ==> AfterFields(text, n) == None
  {
    hide Digits;
    NoFieldAt(text[Digits(text) + 1..]);
  }

  lemma FieldThenOther(text: string, st: State, st': State)
    requires FieldRead(text, st, st')
    requires var g := Digits(text);
             g <= 4 && g + 1 < |text| && text[g] == ':' != text[g + 1] && HexValue(text[g + 1]) < 0
    ensures Decided(text, st.d, Scan(text, st))
  {
    hide Digits, AfterFields, HexValue, StartsHex;
    var g := Digits(text);
    var rest := text[g..];
    assert rest[0] == ':' && rest[1] == text[g + 1];
    assert Next(rest, st') == Stop(st'.(d := st.d + 1));
    AfterOther(text);
  }

  lemma FieldThenField(text: string, st: State, st': State) returns (st2: State)
    requires FieldRead(text, st, st')
    requires var g := Digits(text); g <= 4 && g + 1 < |text| && text[g] == ':' && HexValue(text[g + 1]) >= 0
    ensures StateOk(st2) && st2.p == 0 && st2.cc < 0 && st2.d == st.d + 1
    ensures Scan(text, st) == Scan(text[Digits(text) + 1..], st2)
  {
    hide Scan;
    var g := Digits(text);
    assert text[g..] == ":" + text[g + 1..];
    ScanColon(text[g + 1..], st');
    st2 := st'.(d := st.d + 1, p := 0);
  }

  /** One field less to go. */
  lemma DecidedLater(text: string, d: nat, r: Scanned)
    requires d <= 6 && var g := Digits(text); 1 <= g <= 4 && g + 1 < |text| && text[g] == ':' != text[g + 1]
    requires if d < 6 then Decided(text[Digits(text) + 1..], d + 1, r) else r.Stopped? && r.st.cc < 0
    ensures Decided(text, d, r)
  {
    var rest := text[Digits(text) + 1..];
    if d < 6 { assert AfterFields(text, 7 - d) == AfterFields(rest, 6 - d); }
    if d < 5 { assert AfterFields(text, 6 - d) == AfterFields(rest, 5 - d); }
  }

  lemma NoFieldAt(text: string)
    requires !StartsHex(text)
    ensures forall n: nat :: n > 0 ==> AfterFields(text, n) == None
  {
  }

  /** No field to read: a leading double colon, or the end of the scan. */
  lemma NoField(text: string, st: State)
    requires StateOk(st) && st.p == 0 && st.cc < 0 && st.d <= 6 && !StartsHex(text)
    ensures Decided(text, st.d, Scan(text, st))
  {
    NoFieldAt(text);
    if text != "" {
      var m := Next(text, st);
      if m.Go? { NoMoreDouble(text[m.n..], m.st); }
    }
  }

  lemma BackFrom(str: string, s: nat)
    requires 0 < s < |str| && str[s - 1] == ':'
    ensures BackToColon(str, s) == if str[s] == ':' then s else s - 1
  {
  }

  lemma TailBack(str: string, rest: string)
    requires rest != "" && |rest| + 2 < |str| && str[|str| - |rest|..] == rest && str[|str| - |rest| - 1] == ':'
    ensures var t := BackToColon(str, |str| - |rest|);
            t != 0 && str[t + 1..] == if rest[0] == ':' then rest[1..] else rest
  {
    hide BackToColon;
    var s := |str| - |rest|;
    BackFrom(str, s);
    assert str[s] == str[s..][0];
    assert str[s + 1..] == str[s..][1..];
  }

  /** The code runs out of parts for exactly the crowded texts. */
  lemma OutOfPartsExactly(str: string, query: string -> Option<seq<int>>)
    ensures Parse(str, query) == OutOfParts <==> Crowded(str, query)
  {
    hide Scan, Ipv4, BackToColon, Digits, AfterFields, Finish, StartsHex;
    FieldsLeft(str, START);
    var r := Scan(str, START);
    if r.Stopped? {
      FinishFails(str, r.rest, r.st, query);
      if r.st.p == 0 && r.st.cc == 6 && r.rest != "" { TailBack(str, r.rest); }
    }
  }

  /** Behind the scan only an IPv4 address after six fields and "::" is too much. */
  lemma FinishFails(str: string, rest: string, st: State, query: string -> Option<seq<int>>)
    requires StateOk(st) && |rest| <= |str|
    ensures Finish(str, rest, st, query) == OutOfParts <==>
            && st.p == 0 && st.d == 7 && st.cc == 6 && rest != ""
            && var t := BackToColon(str, |str| - |rest|);
               t != 0 && Ipv4(str[t + 1..], query).Some? && |Ipv4(str[t + 1..], query).value| == 4
  {
    hide Ipv4, BackToColon;
  }
}
