/** The texts of IPv6 addresses, by what they are made of, and what
    IP6AddressArg::basic_parse (lib/ip6address.cc) makes of them.
 */
module Ip6Text {
  import opened Wrappers
  import opened Numerals
  import opened Ip6

  // ----- The texts ------------------------------------------------------------

  /** One to four hexadecimal digits, in either case, leading zeros included. */
  predicate Field(f: string) {
    1 <= |f| <= 4 && AllDigits(f, 16)
  }

  /** Decimal digits of a number up to 255, leading zeros included. */
  predicate Octet(q: string) {
    q != "" && AllDigits(q, 10) && Value(q, 10) <= 255
  }

  predicate AllFields(fs: seq<string>) {
    forall i :: 0 <= i < |fs| ==> Field(fs[i])
  }

  predicate AllOctets(qs: seq<string>) {
    forall i :: 0 <= i < |qs| ==> Octet(qs[i])
  }

  /** Fields, perhaps "::" and fields behind it, perhaps a dotted quad. */
  datatype Form = Form(front: seq<string>, gap: bool, back: seq<string>, quad: seq<string>)

  function Colons(fs: seq<string>): string {
    if fs == [] then "" else if |fs| == 1 then fs[0] else fs[0] + ":" + Colons(fs[1..])
  }

  function Dots(qs: seq<string>): string
    requires |qs| == 4
  {
    qs[0] + "." + qs[1] + "." + qs[2] + "." + qs[3]
  }

  /** Everything but the quad and the colon before it. */
  function Head(x: Form): string {
    Colons(x.front) + (if x.gap then "::" else "") + Colons(x.back)
  }

  function FormText(x: Form): string
    requires |x.quad| == 0 || |x.quad| == 4
  {
    Head(x) + if x.quad == [] then "" else (if x.gap && x.back == [] then "" else ":") + Dots(x.quad)
  }

  /** The fields that the text has room for. */
  predicate Legal(x: Form) {
    && AllFields(x.front) && AllFields(x.back) && AllOctets(x.quad) && (|x.quad| == 0 || |x.quad| == 4)
    && var n := |x.front| + |x.back| + |x.quad| / 2;
       if x.gap then n <= 7 else n == 8 && x.back == []
  }

  function Values(fs: seq<string>): (vs: seq<int>)
    ensures |vs| == |fs|
  {
    seq(|fs|, i requires 0 <= i < |fs| => Value(fs[i], 16))
  }

  /** The two fields that a quad stands for. */
  function QuadWords(qs: seq<string>): seq<int>
    requires |qs| == 0 || |qs| == 4
  {
    if qs == [] then []
    else [Value(qs[0], 10) * 256 + Value(qs[1], 10), Value(qs[2], 10) * 256 + Value(qs[3], 10)]
  }

  function ZeroFields(n: nat): seq<int> { seq(n, i => 0) }

  /** The address: "::" stands for as many zeros as are missing. */
  function FormAddress(x: Form): seq<int>
    requires Legal(x)
  {
    Values(x.front) + ZeroFields(8 - |x.front| - |x.back| - |x.quad| / 2) + Values(x.back) + QuadWords(x.quad)
  }

  // ----- Reading fields --------------------------------------------------------

  lemma FieldBound(f: string)
    requires |f| <= 4 && AllDigits(f, 16)
    ensures 0 <= Value(f, 16) < 0x1_0000
  {
    ValueBound(f, 16);
    assert Power(16, 0) == 1 && Power(16, 1) == 16 && Power(16, 2) == 256 && Power(16, 3) == 4096;
  }

  lemma ShiftDigit(st: State, done: string, c: char)
    requires StateOk(st) && st.d < 8 && st.p == |done| < 4 && AllDigits(done + [c], 16)
    requires done != "" ==> st.parts[st.d] == Value(done, 16)
    ensures Ip6.Shifted(st, HexValue(c)) == Value(done + [c], 16)
  {
    hide AllDigits, HexValue;
    OneMoreDigit(done, c, 16);
    FieldBound(done + [c]);
  }

  /** The digits `more` of a field of which `done` have been read. */
  lemma {:induction false} ScanMore(done: string, more: string, rest: string, st: State)
    requires StateOk(st) && st.d < 8 && st.p == |done| && |done + more| <= 4 && AllDigits(done + more, 16)
    requires done != "" ==> st.parts[st.d] == Value(done, 16)
    ensures Scan(more + rest, st)
         == Scan(rest, if more == "" then st
                       else st.(p := |done + more|, parts := st.parts[st.d := Value(done + more, 16)]))
    decreases |more|
  {
    hide Scan, Value, HexValue, Ip6.Shifted;
    if more == "" {
      assert more + rest == rest;
    } else {
      var c, tail := more[0], more[1..];
      var done' := done + [c];
      assert more + rest == [c] + (tail + rest) && done' + tail == done + more;
      assert HexValue((done + more)[|done|]) >= 0;
      assert AllDigits(done', 16) by {
        forall i | 0 <= i < |done'| ensures 0 <= HexValue(done'[i]) < 16 { assert done'[i] == (done + more)[i]; }
      }
      ShiftDigit(st, done, c);
      ScanDigit(c, tail + rest, st);
      var parts, v := st.parts[st.d := Value(done', 16)], Value(done + more, 16);
      ScanMore(done', tail, rest, st.(p := st.p + 1, parts := parts));
      assert parts[st.d := v] == st.parts[st.d := v];
      assert tail == "" ==> done' == done + more;
    }
  }

  /** One field. */
  lemma ScanOneField(f: string, rest: string, st: State)
    requires StateOk(st) && st.p == 0 && st.d < 8 && Field(f)
    ensures Scan(f + rest, st) == Scan(rest, st.(p := |f|, parts := st.parts[st.d := Value(f, 16)]))
  {
    hide Scan, Value;
    assert "" + f == f;
    ScanMore("", f, rest, st);
  }

  lemma ColonsFront(fs: seq<string>)
    requires AllFields(fs) && fs != []
    ensures Colons(fs) != "" && HexValue(Colons(fs)[0]) >= 0
  {
    assert Field(fs[0]);
  }

  lemma OneMorePart(parts: seq<int>, d: nat, a: seq<int>)
    requires a != [] && d + |a| <= |parts|
    ensures var parts1 := parts[d := a[0]];
            parts1[..d + 1] + a[1..] + parts1[d + 1 + |a[1..]|..] == parts[..d] + a + parts[d + |a|..]
  {
  }

  ghost predicate Behind(st: State, fs: seq<string>, st': State) {
    && fs != [] && |st.parts| == 8 && st.d + |fs| <= 8
    && st' == State(st.d + |fs| - 1, |fs[|fs| - 1]|, st.cc, st.parts[..st.d] + Values(fs) + st.parts[st.d + |fs|..])
  }

  lemma {:induction false} ScanFields(fs: seq<string>, rest: string, st: State) returns (st': State)
    requires StateOk(st) && st.p == 0 && fs != [] && AllFields(fs) && st.d + |fs| <= 8
    ensures Behind(st, fs, st') && StateOk(st') && st'.p > 0 && Scan(Colons(fs) + rest, st) == Scan(rest, st')
    decreases |fs|
  {
    hide Scan, HexValue, Value;
    var d := st.d;
    var st1 := st.(p := |fs[0]|, parts := st.parts[d := Value(fs[0], 16)]);
    if |fs| == 1 {
      ScanOneField(fs[0], rest, st);
      assert st.parts[..d] + Values(fs) + st.parts[d + 1..] == st1.parts;
      st' := st1;
    } else {
      var more := Colons(fs[1..]) + rest;
      assert Colons(fs) + rest == fs[0] + (":" + more);
      ScanOneField(fs[0], ":" + more, st);
      ColonsFront(fs[1..]);
      ScanColon(more, st1);
      var st2 := st1.(d := d + 1, p := 0);
      st' := ScanFields(fs[1..], rest, st2);
      assert Values(fs)[1..] == Values(fs[1..]);
      OneMorePart(st.parts, d, Values(fs));
    }
  }

  /** The state behind the head of a text. */
  ghost predicate HeadRead(x: Form, st: State) {
    var n := |x.front| + (if x.gap then 1 else 0) + |x.back|;
    && StateOk(st) && n <= 8
    && st.cc == (if x.gap then |x.front| else -1)
    && (if x.gap && x.back == [] then st.p == 0 && st.d == n else st.p > 0 && st.d == n - 1)
    && st.parts[..n] == Values(x.front) + (if x.gap then [0] else []) + Values(x.back)
  }

  lemma ScanFront(front: seq<string>, rest: string) returns (st: State)
    requires AllFields(front) && |front| <= 7
    ensures HeadRead(Form(front, true, [], []), st) && Scan(Colons(front) + "::" + rest, START) == Scan(rest, st)
  {
    hide Scan, Colons, AllFields;
    var n := |front|;
    var st1 := START;
    if front == [] {
      ColonsNone();
      assert Colons(front) + "::" + rest == "::" + rest;
    } else {
      st1 := ScanFields(front, "::" + rest, START);
      assert Colons(front) + "::" + rest == Colons(front) + ("::" + rest);
    }
    ScanDouble(rest, st1);
    st := State(n + 1, 0, n, st1.parts[n := 0]);
    assert st1.parts[..n] == Values(front);
    assert st.parts[..n + 1] == Values(front) + [0] + Values([]);
  }

  lemma ColonsNone()
    ensures Colons([]) == ""
  {
  }

  lemma ScanHead(x: Form, rest: string) returns (st: State)
    requires AllFields(x.front) && AllFields(x.back)
    requires if x.gap then |x.front| + |x.back| <= 7 else x.back == [] && 1 <= |x.front| <= 8
    ensures HeadRead(x, st) && Scan(Head(x) + rest, START) == Scan(rest, st)
  {
    hide Scan, Colons, AllFields, StateOk;
    ColonsNone();
    StartOk();
    if !x.gap {
      assert Head(x) + rest == Colons(x.front) + rest;
      st := ScanFields(x.front, rest, START);
    } else {
      assert Head(x) + rest == Colons(x.front) + "::" + (Colons(x.back) + rest);
      st := ScanFront(x.front, Colons(x.back) + rest);
      if x.back == [] {
        assert Colons(x.back) + rest == rest;
      } else {
        st := ScanFields(x.back, rest, st);
      }
    }
  }

  // ----- Dotted quads ----------------------------------------------------------

  lemma {:induction false} PrefixBelow(done: string, more: string)
    requires AllDigits(done + more, 10)
    ensures 0 <= Value(done, 10) <= Value(done + more, 10)
    decreases |more|
  {
    hide Value, HexValue;
    if more == "" {
      assert done + more == done;
      ValueBound(done, 10);
    } else {
      var done' := done + [more[0]];
      assert done' + more[1..] == done + more;
      PrefixBelow(done', more[1..]);
      OneMoreDigit(done, more[0], 10);
      assert AllDigits(done, 10) by {
        forall i | 0 <= i < |done| ensures 0 <= HexValue(done[i]) < 10 { assert done[i] == (done + more)[i]; }
      }
      ValueBound(done, 10);
      assert HexValue((done + more)[|done|]) < 10;
    }
  }

  lemma DecimalDigit(c: char)
    ensures IsDigit(c) <==> 0 <= HexValue(c) < 10
    ensures IsDigit(c) ==> (c - '0') as int == HexValue(c)
  {
  }

  lemma {:induction false} PartReads(done: string, more: string, rest: string)
    requires AllDigits(done + more, 10) && Value(done + more, 10) <= 255 && (rest == "" || !IsDigit(rest[0]))
    ensures ScanPart(more + rest, Value(done, 10)) == Number(Value(done + more, 10), rest)
    decreases |more|
  {
    hide ScanPart, Value, HexValue, IsDigit;
    if more == "" {
      assert more + rest == rest && done + more == done;
      ScanPartStop(rest, Value(done, 10));
    } else {
      var c, done' := more[0], done + [more[0]];
      assert more + rest == [c] + (more[1..] + rest) && done' + more[1..] == done + more;
      assert HexValue((done + more)[|done|]) < 10;
      DecimalDigit(c);
      PrefixBelow(done, more);
      OneMoreDigit(done, c, 10);
      ScanPartStep(c, more[1..] + rest, Value(done, 10));
      PartReads(done', more[1..], rest);
    }
  }

  lemma OctetPart(q: string, rest: string)
    requires Octet(q) && (rest == "" || !IsDigit(rest[0]))
    ensures IsDigit(q[0]) && ScanPart((q + rest)[1..], (q[0] - '0') as int) == Number(Value(q, 10), rest)
  {
    hide ScanPart, Value, HexValue, IsDigit;
    assert (q + rest)[1..] == q[1..] + rest && [q[0]] + q[1..] == q && "" + [q[0]] == [q[0]];
    DecimalDigit(q[0]);
    OneMoreDigit("", q[0], 10);
    ValueNone(10);
    PartReads([q[0]], q[1..], rest);
  }

  lemma OctetReads(q: string, rest: string, value: seq<int>, d: nat)
    requires Octet(q) && |value| == 4 && d < 4 && (rest == "" || !IsDigit(rest[0]))
    ensures ScanQuad((if d == 0 then "" else ".") + q + rest, value, d)
         == ScanQuad(rest, value[d := Value(q, 10)], d + 1)
  {
    hide ScanPart, Value, AllDigits;
    var text := (if d == 0 then "" else ".") + q + rest;
    var t := if d == 0 then text else text[1..];
    assert t == q + rest;
    OctetPart(q, rest);
  }

  lemma ValueNone(base: nat)
    ensures Value("", base) == 0
  {
  }

  function OctetValues(qs: seq<string>): seq<int>
    requires |qs| == 4
  {
    [Value(qs[0], 10), Value(qs[1], 10), Value(qs[2], 10), Value(qs[3], 10)]
  }

  /** IPAddressArg::parse on any dotted quad. */
  lemma QuadParses(qs: seq<string>, query: string -> Option<seq<int>>)
    requires |qs| == 4 && AllOctets(qs)
    ensures Ipv4(Dots(qs), query) == Some(OctetValues(qs))
  {
    hide ScanQuad, Value, Octet;
    var v := OctetValues(qs);
    var r3 := "." + qs[3] + "";
    var r2 := "." + qs[2] + r3;
    var r1 := "." + qs[1] + r2;
    assert Dots(qs) == "" + qs[0] + r1;
    OctetReads(qs[0], r1, [0, 0, 0, 0], 0);
    OctetReads(qs[1], r2, [v[0], 0, 0, 0], 1);
    OctetReads(qs[2], r3, [v[0], v[1], 0, 0], 2);
    OctetReads(qs[3], "", [v[0], v[1], v[2], 0], 3);
    assert [0, 0, 0, 0][0 := v[0]] == [v[0], 0, 0, 0] && [v[0], 0, 0, 0][1 := v[1]] == [v[0], v[1], 0, 0];
    assert [v[0], v[1], 0, 0][2 := v[2]] == [v[0], v[1], v[2], 0] && [v[0], v[1], v[2], 0][3 := v[3]] == v;
    ScanQuadEnd(v);
  }

  lemma DigitsStop(rest: string, st: State)
    requires StateOk(st) && rest != "" && (rest[0] == '.' || (st.p == 4 && HexValue(rest[0]) >= 0))
    ensures Scan(rest, st) == Stopped(rest, st)
  {
  }

  /** The scan takes the first digits of a quad for a field, and stops. */
  lemma ScanQuadFront(q: string, more: string, st: State) returns (rest: string, st': State)
    requires StateOk(st) && st.p == 0 && st.d < 8 && Octet(q)
    ensures StateOk(st') && Scan(q + ("." + more), st) == Stopped(rest, st')
    ensures st'.p > 0 && st'.d == st.d && st'.cc == st.cc && st'.parts[..st.d] == st.parts[..st.d]
    ensures 0 < |rest| < |q + ("." + more)|
  {
    hide Scan, Value;
    var k := if |q| <= 4 then |q| else 4;
    rest := q[k..] + ("." + more);
    assert q + ("." + more) == q[..k] + rest;
    ScanOneField(q[..k], rest, st);
    st' := st.(p := k, parts := st.parts[st.d := Value(q[..k], 16)]);
    assert k < |q| ==> rest[0] == q[k];
    DigitsStop(rest, st');
  }

  lemma NoColon(qs: seq<string>, i: nat)
    requires |qs| == 4 && AllOctets(qs) && i < |Dots(qs)|
    ensures Dots(qs)[i] != ':'
  {
    hide Value;
    assert Octet(qs[0]) && Octet(qs[1]) && Octet(qs[2]) && Octet(qs[3]);
    assert Dots(qs)[i] == '.' || Dots(qs)[i] in qs[0] || Dots(qs)[i] in qs[1] || Dots(qs)[i] in qs[2]
        || Dots(qs)[i] in qs[3];
  }

  lemma ColonFound(head: string, qs: seq<string>, s: nat)
    requires |qs| == 4 && AllOctets(qs) && head != "" && head[|head| - 1] == ':'
    requires |head| <= s < |head + Dots(qs)|
    ensures BackToColon(head + Dots(qs), s) == |head| - 1
  {
    hide Dots, AllOctets;
    var str := head + Dots(qs);
    forall k | |head| <= k <= s ensures str[k] != ':' { NoColon(qs, k - |head|); }
    assert str[|head| - 1] == ':';
  }

  /** A quad behind a colon. */
  lemma QuadTail(head: string, st: State, qs: seq<string>, query: string -> Option<seq<int>>) returns (parts: seq<int>)
    requires |qs| == 4 && AllOctets(qs) && |head| > 1 && head[|head| - 1] == ':'
    requires StateOk(st) && st.p == 0 && st.d <= 6 && (st.d == 6 || st.cc >= 0)
    requires Scan(head + Dots(qs), START) == Scan(Dots(qs), st)
    ensures |parts| == 8 && parts[..st.d + 2] == st.parts[..st.d] + QuadWords(qs)
    ensures Parse(head + Dots(qs), query) == Assemble(|head + Dots(qs)|, st.d + 1, st.cc, parts)
  {
    hide Scan, Ipv4, Octet, Value, Assemble, BackToColon;
    var str := head + Dots(qs);
    var more := qs[1] + "." + qs[2] + "." + qs[3];
    assert Dots(qs) == qs[0] + ("." + more);
    var rest, st' := ScanQuadFront(qs[0], more, st);
    var s := |str| - |rest|;
    ColonFound(head, qs, s);
    assert str[|head| - 1 + 1..] == Dots(qs);
    QuadParses(qs, query);
    var d, w := st.d, QuadWords(qs);
    parts := st'.parts[d := w[0]][d + 1 := w[1]];
    assert parts[..d + 2] == st.parts[..d] + w;
  }

  // ----- Legal texts -----------------------------------------------------------

  lemma AssembleZeros(s: nat, f: seq<int>, b: seq<int>, parts: seq<int>)
    requires |f| + |b| <= 7 && |parts| == 8 && parts[..|f| + 1 + |b|] == f + [0] + b
    ensures Assemble(s, |f| + |b|, |f|, parts) == Parsed(s, f + ZeroFields(8 - |f| - |b|) + b)
  {
    var d := |f| + |b|;
    var all := parts[..d + 1];
    assert parts[..|f| + 1] == all[..|f| + 1] == f + [0] && parts[|f| + 1..d + 1] == all[|f| + 1..] == b;
    assert [0] + ZeroFields(7 - d) == ZeroFields(8 - d);
    if d == 7 { assert parts == all; }
  }

  lemma AssembleForm(s: nat, x: Form, parts: seq<int>)
    requires Legal(x) && |parts| == 8
    requires var all := Values(x.front) + (if x.gap then [0] else []) + Values(x.back) + QuadWords(x.quad);
             parts[..|all|] == all
    ensures var n := |x.front| + (if x.gap then 1 else 0) + |x.back| + |x.quad| / 2;
            Assemble(s, n - 1, if x.gap then |x.front| else -1, parts) == Parsed(s, FormAddress(x))
  {
    hide Values, QuadWords, AllFields, AllOctets, Assemble, ZeroFields;
    WordsLength(x.quad);
    var f, v, w := Values(x.front), Values(x.back), QuadWords(x.quad);
    var z := ZeroFields(8 - |f| - |v + w|);
    if x.gap {
      assert f + [0] + (v + w) == f + [0] + v + w;
      assert f + z + (v + w) == f + z + v + w;
      AssembleZeros(s, f, v + w, parts);
    } else {
      AssembleFull(s, parts);
      assert parts == parts[..8];
      assert v == [] && z == [] by { NoZeros(); }
      assert f + [] + v + w == f + z + v + w;
    }
  }

  lemma AssembleFull(s: nat, parts: seq<int>)
    requires |parts| == 8
    ensures Assemble(s, 7, -1, parts) == Parsed(s, parts)
  {
  }

  lemma NoZeros()
    ensures ZeroFields(0) == []
  {
  }

  lemma PlainParses(x: Form, query: string -> Option<seq<int>>)
    requires Legal(x) && x.quad == []
    ensures Parse(FormText(x), query) == Parsed(|FormText(x)|, FormAddress(x))
  {
    hide Scan, Values, Assemble, FormAddress, Head, Value;
    assert FormText(x) == Head(x) + "" == Head(x);
    var st := ScanHead(x, "");
    assert ""[|""|..] == "";
    ScanDone("", st);
    AssembleForm(|FormText(x)|, x, st.parts);
  }

  /** The colon before a quad, if there is one. */
  lemma ScanToQuad(x: Form) returns (head: string, st: State)
    requires Legal(x) && x.quad != []
    ensures FormText(x) == head + Dots(x.quad) && |head| > 1 && head[|head| - 1] == ':'
    ensures StateOk(st) && st.p == 0 && st.d <= 6 && (st.d == 6 || st.cc >= 0)
    ensures Scan(FormText(x), START) == Scan(Dots(x.quad), st)
    ensures st.cc == if x.gap then |x.front| else -1
    ensures st.d == |x.front| + (if x.gap then 1 else 0) + |x.back|
    ensures st.parts[..st.d] == Values(x.front) + (if x.gap then [0] else []) + Values(x.back)
  {
    hide Scan, Values, Value, Colons, Head, Dots, AllFields, AllOctets;
    var colon := if x.gap && x.back == [] then "" else ":";
    head := Head(x) + colon;
    assert FormText(x) == head + Dots(x.quad) == Head(x) + (colon + Dots(x.quad));
    st := ScanHead(x, colon + Dots(x.quad));
    if colon == ":" {
      QuadStarts(x.quad);
      ScanColon(Dots(x.quad), st);
      st := st.(d := st.d + 1, p := 0);
      HeadNotEmpty(x);
    } else {
      HeadEnds(x);
      assert colon + Dots(x.quad) == Dots(x.quad);
    }
  }

  lemma HeadEnds(x: Form)
    requires x.gap && x.back == []
    ensures |Head(x)| > 1 && Head(x)[|Head(x)| - 1] == ':'
  {
  }

  lemma QuadStarts(qs: seq<string>)
    requires |qs| == 4 && AllOctets(qs)
    ensures Dots(qs) != "" && HexValue(Dots(qs)[0]) >= 0
  {
    assert Octet(qs[0]);
  }

  lemma HeadNotEmpty(x: Form)
    requires AllFields(x.front) && AllFields(x.back) && (x.front != [] || x.back != [])
    ensures Head(x) != ""
  {
    hide AllFields, Colons;
    if x.front != [] { ColonsFront(x.front); } else { ColonsFront(x.back); }
  }

  lemma QuadFormParses(x: Form, query: string -> Option<seq<int>>)
    requires Legal(x) && x.quad != []
    ensures Parse(FormText(x), query) == Parsed(|FormText(x)|, FormAddress(x))
  {
    hide Scan, Values, Assemble, FormAddress, FormText, Value, Parse, QuadWords, StateOk;
    var head, st := ScanToQuad(x);
    var parts := QuadTail(head, st, x.quad, query);
    WordsLength(x.quad);
    AssembleForm(|FormText(x)|, x, parts);
  }

  lemma WordsLength(qs: seq<string>)
    requires |qs| == 0 || |qs| == 4
    ensures |QuadWords(qs)| == |qs| / 2
  {
  }

  /** basic_parse takes every legal text whole, for the address that its digits name. */
  lemma LegalParses(x: Form, query: string -> Option<seq<int>>)
    requires Legal(x)
    ensures Parse(FormText(x), query) == Parsed(|FormText(x)|, FormAddress(x))
  {
    hide *;
    if x.quad == [] { PlainParses(x, query); } else { QuadFormParses(x, query); }
  }

  // ----- What unparse writes ---------------------------------------------------

  lemma HexDigit(v: nat)
    requires v < 16
    ensures HexValue(HexChar(v)) == v && HexChar(v) in "0123456789abcdef" && (v > 0 ==> HexChar(v) != '0')
  {
    HexTable(HexChar(v));
    assert HexChar(v) == "0123456789abcdef"[v];
  }

  /** "%x" writes the value, in lower case and without leading zeros. */
  lemma {:induction false} HexNumeral(v: nat)
    ensures AllDigits(Hex(v), 16) && Value(Hex(v), 16) == v && (v > 0 ==> Hex(v)[0] != '0')
    ensures forall i :: 0 <= i < |Hex(v)| ==> Hex(v)[i] in "0123456789abcdef"
  {
    hide Value, HexValue, HexChar;
    var c := HexChar(v % 16);
    HexDigit(v % 16);
    if v < 16 {
      OneMoreDigit("", c, 16);
      ValueNone(16);
      assert "" + [c] == [c];
    } else {
      HexNumeral(v / 16);
      OneMoreDigit(Hex(v / 16), c, 16);
    }
  }

  lemma {:induction false} HexLength(v: nat)
    ensures v < 16 ==> |Hex(v)| == 1
    ensures v < 256 ==> |Hex(v)| <= 2
    ensures v < 4096 ==> |Hex(v)| <= 3
    ensures v < 0x1_0000 ==> |Hex(v)| <= 4
  {
    if v >= 16 { HexLength(v / 16); }
  }

  /** "%d" writes the value, without leading zeros. */
  lemma {:induction false} DecNumeral(v: nat)
    ensures AllDigits(Dec(v), 10) && Value(Dec(v), 10) == v && (v > 0 ==> Dec(v)[0] != '0')
  {
    hide Value, HexValue, HexChar;
    var c := HexChar(v % 10);
    HexDigit(v % 10);
    if v < 10 {
      OneMoreDigit("", c, 10);
      ValueNone(10);
      assert "" + [c] == [c];
    } else {
      DecNumeral(v / 10);
      OneMoreDigit(Dec(v / 10), c, 10);
    }
  }

  function Hexes(a: seq<int>): (fs: seq<string>)
    requires Fields(a)
    ensures |fs| == |a|
  {
    seq(|a|, i requires 0 <= i < |a| => Hex(a[i]))
  }

  lemma {:induction false} JoinHexes(a: seq<int>)
    requires Fields(a)
    ensures Join(a) == Colons(Hexes(a)) && AllFields(Hexes(a)) && Values(Hexes(a)) == a
    decreases |a|
  {
    hide Hex, Value, HexValue;
    if a != [] {
      JoinHexes(a[1..]);
      assert Hexes(a)[1..] == Hexes(a[1..]);
      forall i | 0 <= i < |a| ensures Field(Hexes(a)[i]) && Values(Hexes(a))[i] == a[i] {
        HexNumeral(a[i]);
        HexLength(a[i]);
      }
    }
  }

  function Decs(hi: int, lo: int): seq<string>
    requires 0 <= hi < 0x1_0000 && 0 <= lo < 0x1_0000
  {
    [Dec(hi / 256), Dec(hi % 256), Dec(lo / 256), Dec(lo % 256)]
  }

  lemma QuadDecs(hi: int, lo: int)
    requires 0 <= hi < 0x1_0000 && 0 <= lo < 0x1_0000
    ensures Quad(hi, lo) == Dots(Decs(hi, lo)) && AllOctets(Decs(hi, lo)) && QuadWords(Decs(hi, lo)) == [hi, lo]
  {
    hide Dec, Value, HexValue;
    DecNumeral(hi / 256);
    DecNumeral(hi % 256);
    DecNumeral(lo / 256);
    DecNumeral(lo % 256);
  }

  lemma CompressedForm(a: seq<int>, zp: nat, zl: nat) returns (x: Form)
    requires Address(a) && zp + zl <= 8 && zl > 1 && Zeros(a, zp, zp + zl)
    ensures Legal(x) && FormText(x) == HexText(a, zp, zl) && FormAddress(x) == a
  {
    hide Values, Colons, Join, Hexes, AllFields;
    var front, back := a[..zp], a[zp + zl..];
    JoinHexes(front);
    JoinHexes(back);
    x := Form(Hexes(front), true, Hexes(back), []);
    assert FormText(x) == Head(x);
    assert a == front + ZeroFields(zl) + back + [];
  }

  lemma PlainForm(a: seq<int>) returns (x: Form)
    requires Address(a)
    ensures Legal(x) && FormText(x) == Join(a) && FormAddress(x) == a
  {
    hide Values, Colons, Join, Hexes, AllFields;
    JoinHexes(a);
    x := Form(Hexes(a), false, [], []);
    ColonsNone();
    ValuesNone();
    assert FormText(x) == Colons(x.front);
    assert a == a + ZeroFields(0) + [] + [];
  }

  lemma ValuesNone()
    ensures Values([]) == [] && AllFields([])
  {
  }

  lemma HexFfff()
    ensures Hex(0xffff) == "ffff"
  {
    assert Hex(0xf) == "f";
    assert Hex(0xff) == "ff";
    assert Hex(0xfff) == "fff";
  }

  lemma QuadForm(a: seq<int>) returns (x: Form)
    requires Address(a) && Zeros(a, 0, 5) && (a[5] == 0 || a[5] == 0xffff)
    ensures Legal(x) && FormAddress(x) == a
    ensures FormText(x) == (if a[5] == 0 then "::" else "::ffff:") + Quad(a[6], a[7])
  {
    hide Values, Colons, Join, Hexes, AllFields, AllOctets, Quad, Dots, QuadWords, Hex;
    var back := if a[5] == 0 then [] else [0xffff];
    JoinHexes(back);
    QuadDecs(a[6], a[7]);
    ColonsNone();
    ValuesNone();
    HexFfff();
    x := Form([], true, Hexes(back), Decs(a[6], a[7]));
    JoinShort(back);
    assert a == [] + ZeroFields(6 - |back|) + back + [a[6], a[7]];
  }

  lemma JoinShort(a: seq<int>)
    requires Fields(a) && |a| <= 1
    ensures Join(a) == if a == [] then "" else Hex(a[0])
  {
  }

  /** unparse writes a legal text of the address. */
  lemma UnparseLegal(a: seq<int>, text: string) returns (x: Form)
    requires Address(a) && IsText(a, text)
    ensures Legal(x) && FormText(x) == text && FormAddress(x) == a
  {
    hide Join, FirstLongest, Legal, FormText, FormAddress, Quad;
    if Zeros(a, 0, 8) {
      assert a[..0] == [] && a[8..] == [];
      JoinShort(a[..0]);
      x := CompressedForm(a, 0, 8);
    } else if Zeros(a, 0, 6) || (Zeros(a, 0, 5) && a[5] == 0xffff) {
      x := QuadForm(a);
    } else {
      var zp: nat, zl: nat :| zp + zl <= 8 && FirstLongest(a, zp, zl) && text == HexText(a, zp, zl);
      RunIsZero(a, zp, zl);
      if zl > 1 { x := CompressedForm(a, zp, zl); } else { x := PlainForm(a); }
    }
  }

  lemma RunIsZero(a: seq<int>, zp: nat, zl: nat)
    requires FirstLongest(a, zp, zl)
    ensures zp + zl <= |a| && Zeros(a, zp, zp + zl)
  {
  }

  /** basic_parse reads back what unparse writes, to the last character, whatever
      the address tables say. */
  lemma RoundTrip(a: seq<int>, text: string, query: string -> Option<seq<int>>)
    requires Address(a) && IsText(a, text)
    ensures Parse(text, query) == Parsed(|text|, a)
  {
    hide *;
    var x := UnparseLegal(a, text);
    LegalParses(x, query);
  }

  /** Print, then parse. */
  method PrintAndParse(a: seq<int>, query: string -> Option<seq<int>>) returns (b: seq<int>, whole: bool)
    requires Address(a)
    ensures whole && b == a
  {
    hide IsText, Parse;
    var text := Unparse(a);
    RoundTrip(a, text, query);
    var parts := new int[8];
    var ok, s := BasicParse(text, parts, query);
    b, whole := parts[..], ok && s == |text|;
  }

  /** Seven fields, a double colon and one more field: the code has no eighth part
      left for it. */
  lemma SevenThenMore(front: seq<string>, f: string, query: string -> Option<seq<int>>)
    requires |front| == 7 && AllFields(front) && Field(f)
    ensures Parse(Colons(front) + "::" + f, query) == OutOfParts
  {
    hide Scan, Colons;
    var st := ScanFront(front, f);
    ScanOverruns(f, st);
  }

  lemma ScanOverruns(rest: string, st: State)
    requires StateOk(st) && st.d == 8 && rest != "" && HexValue(rest[0]) >= 0
    ensures Scan(rest, st) == Overrun
  {
  }

  // ----- Nothing else is taken whole -------------------------------------------

  /** Address tables without an entry. */
  function NoNames(name: string): Option<seq<int>> { None }

  /** What the scan has read: fields closed by colons, and the digits of the next. */
  datatype Shape = Shape(front: seq<string>, gap: bool, back: seq<string>, cur: string)

  function Closed(fs: seq<string>): string {
    if fs == [] then "" else fs[0] + ":" + Closed(fs[1..])
  }

  function Before(h: Shape): string {
    if h.gap then Colons(h.front) + "::" + Closed(h.back) else Closed(h.front)
  }

  /** A single colon is only taken before a digit. */
  ghost predicate Shaped(h: Shape, st: State, rest: string) {
    && StateOk(st) && AllFields(h.front) && AllFields(h.back) && AllDigits(h.cur, 16)
    && st.p == |h.cur| <= 4
    && (if h.gap then st.cc == |h.front| && st.d == |h.front| + 1 + |h.back|
        else st.cc == -1 && st.d == |h.front| && h.back == [])
    && (h.cur == "" && (if h.gap then h.back else h.front) != [] ==> StartsHex(rest))
  }

  lemma {:induction false} ClosedSnoc(fs: seq<string>, f: string)
    ensures Closed(fs + [f]) == Closed(fs) + f + ":"
    ensures Colons(fs + [f]) == Closed(fs) + f
    decreases |fs|
  {
    if fs == [] {
      assert fs + [f] == [f] && Closed([f][1..]) == "";
    } else {
      assert (fs + [f])[1..] == fs[1..] + [f];
      ClosedSnoc(fs[1..], f);
    }
  }

  lemma NextDigit(h: Shape, st: State, rest: string)
    requires Shaped(h, st, rest) && rest != "" && Next(rest, st).Go? && HexValue(rest[0]) >= 0
    ensures var h' := h.(cur := h.cur + [rest[0]]);
            Shaped(h', Next(rest, st).st, rest[1..]) && Next(rest, st).n == 1
            && Before(h) + h.cur + rest == Before(h') + h'.cur + rest[1..]
  {
    hide Closed, Colons, AllFields;
    assert rest == [rest[0]] + rest[1..];
  }

  lemma NextColon(h: Shape, st: State, rest: string)
    requires Shaped(h, st, rest) && rest != "" && Next(rest, st).Go? && Next(rest, st).n == 1 && HexValue(rest[0]) < 0
    ensures var h' := if h.gap then h.(back := h.back + [h.cur], cur := "")
                      else h.(front := h.front + [h.cur], cur := "");
            Shaped(h', Next(rest, st).st, rest[1..]) && Before(h) + h.cur + rest == Before(h') + h'.cur + rest[1..]
  {
    hide Closed, Colons;
    assert rest == ":" + rest[1..];
    assert Field(h.cur);
    ClosedSnoc(if h.gap then h.back else h.front, h.cur);
  }

  lemma NextDouble(h: Shape, st: State, rest: string)
    requires Shaped(h, st, rest) && rest != "" && Next(rest, st).Go? && Next(rest, st).n == 2
    ensures var h' := Shape(if h.cur == "" then h.front else h.front + [h.cur], true, [], "");
            Shaped(h', Next(rest, st).st, rest[2..]) && Before(h) + h.cur + rest == Before(h') + h'.cur + rest[2..]
  {
    hide HexValue;
    assert rest == "::" + rest[2..];
    ClosedSnoc(h.front, h.cur);
  }

  lemma NextShape(h: Shape, st: State, rest: string) returns (h': Shape)
    requires Shaped(h, st, rest) && rest != "" && Next(rest, st).Go?
    ensures var m := Next(rest, st);
            Shaped(h', m.st, rest[m.n..]) && Before(h) + h.cur + rest == Before(h') + h'.cur + rest[m.n..]
  {
    hide AllFields, AllDigits, StateOk, Before;
    if HexValue(rest[0]) >= 0 {
      NextDigit(h, st, rest);
      h' := h.(cur := h.cur + [rest[0]]);
    } else if Next(rest, st).n == 1 {
      NextColon(h, st, rest);
      h' := if h.gap then h.(back := h.back + [h.cur], cur := "") else h.(front := h.front + [h.cur], cur := "");
    } else {
      NextDouble(h, st, rest);
      h' := Shape(if h.cur == "" then h.front else h.front + [h.cur], true, [], "");
    }
  }

  /** Where the scan stops, it has read some shape. */
  lemma {:induction false} ScanShaped(h: Shape, st: State, rest: string) returns (h': Shape, st': State)
    requires Shaped(h, st, rest) && Scan(rest, st).Stopped?
    ensures var r := Scan(rest, st);
            && Shaped(h', st', r.rest) && Before(h) + h.cur + rest == Before(h') + h'.cur + r.rest
            && if r.rest == "" then r.st == st' else Next(r.rest, st') == Stop(r.st)
    decreases |rest|
  {
    hide AllFields, AllDigits, StateOk, Before, Next;
    h', st' := h, st;
    if rest != "" {
      var m := Next(rest, st);
      if m.Go? {
        var h1 := NextShape(h, st, rest);
        h', st' := ScanShaped(h1, m.st, rest[m.n..]);
      }
    }
  }

  /** The form of a shape that the end of the text, or a quad, completes. */
  function Completed(h: Shape, quad: seq<string>): Form {
    if quad != [] || h.cur == "" then Form(h.front, h.gap, h.back, quad)
    else if h.gap then Form(h.front, true, h.back + [h.cur], [])
    else Form(h.front + [h.cur], false, [], [])
  }

  lemma WholeForm(h: Shape, st: State)
    requires Shaped(h, st, "") && (h.gap || h.front != [] || h.cur != "")
    ensures var d := if st.p == 0 then st.d - 1 else st.d;
            h.gap || d == 7 ==> Legal(Completed(h, [])) && FormText(Completed(h, [])) == Before(h) + h.cur
  {
    hide Closed, Colons, AllDigits;
    ColonsNone();
    ClosedNone();
    ClosedSnoc(if h.gap then h.back else h.front, h.cur);
    assert FormText(Completed(h, [])) == Head(Completed(h, []));
  }

  lemma ClosedNone()
    ensures Closed([]) == ""
  {
  }

  // ----- Quads, read back ------------------------------------------------------

  /** The digits that a part was read from. */
  lemma {:induction false} PartDigits(done: string, text: string) returns (more: string)
    requires AllDigits(done, 10) && ScanPart(text, Value(done, 10)).part <= 255
    ensures AllDigits(done + more, 10)
    ensures var n := ScanPart(text, Value(done, 10)); text == more + n.rest && Value(done + more, 10) == n.part
    decreases |text|
  {
    hide Value, HexValue;
    if text != "" && IsDigit(text[0]) && Value(done, 10) <= 255 {
      var c := text[0];
      DecimalDigit(c);
      OneMoreDigit(done, c, 10);
      var tail := PartDigits(done + [c], text[1..]);
      more := [c] + tail;
      assert done + [c] + tail == done + more && text == [c] + text[1..];
    } else {
      more := "";
      assert done + more == done && text == more + text;
    }
  }

  lemma OctetBack(text: string, value: seq<int>, d: nat) returns (q: string, rest: string)
    requires |value| == 4 && d < 4 && ScanQuad(text, value, d).nbytes == 4
    ensures Octet(q) && text == (if d == 0 then "" else ".") + q + rest
    ensures ScanQuad(text, value, d) == ScanQuad(rest, value[d := Value(q, 10)], d + 1)
  {
    hide Value, HexValue, ScanPart;
    var t := if d == 0 then text else text[1..];
    var c := t[0];
    DecimalDigit(c);
    OneMoreDigit("", c, 10);
    ValueNone(10);
    assert "" + [c] == [c];
    var more := PartDigits([c], t[1..]);
    q, rest := [c] + more, ScanPart(t[1..], (c - '0') as int).rest;
    assert t == [c] + t[1..];
    assert text == (if d == 0 then "" else ".") + t;
  }

  /** Only quads are read as quads. */
  lemma QuadBack(text: string) returns (qs: seq<string>)
    requires Ipv4(text, NoNames).Some?
    ensures |qs| == 4 && AllOctets(qs) && text == Dots(qs)
  {
    hide ScanQuad, Value, Octet;
    var q0, r0 := OctetBack(text, [0, 0, 0, 0], 0);
    var v0 := [0, 0, 0, 0][0 := Value(q0, 10)];
    var q1, r1 := OctetBack(r0, v0, 1);
    var v1 := v0[1 := Value(q1, 10)];
    var q2, r2 := OctetBack(r1, v1, 2);
    var v2 := v1[2 := Value(q2, 10)];
    var q3, r3 := OctetBack(r2, v2, 3);
    QuadDone(r3, v2[3 := Value(q3, 10)]);
    qs := [q0, q1, q2, q3];
  }

  lemma QuadDone(text: string, value: seq<int>)
    requires |value| == 4
    ensures ScanQuad(text, value, 4).rest == text
  {
  }

  // ----- Three colons ----------------------------------------------------------

  /** The code also takes a third colon between "::" and a quad. */
  predicate Triple(front: seq<string>, qs: seq<string>) {
    |front| <= 5 && AllFields(front) && |qs| == 4 && AllOctets(qs)
  }

  function TripleText(front: seq<string>, qs: seq<string>): string
    requires |qs| == 4
  {
    Colons(front) + "::" + (":" + Dots(qs))
  }

  lemma ThirdColon(rest: string, st: State)
    requires StateOk(st) && st.p == 0 && st.d > 0 && rest != "" && rest[0] == ':'
    ensures Scan(rest, st) == Stopped(rest, st)
  {
  }

  lemma TripleTail(front: seq<string>, qs: seq<string>)
    requires Triple(front, qs)
    ensures var str, s := TripleText(front, qs), |Colons(front)| + 2;
            |str| == s + 1 + |Dots(qs)| && BackToColon(str, s) == s && str[s + 1..] == Dots(qs)
  {
    var str, s := TripleText(front, qs), |Colons(front)| + 2;
    assert str[s] == ':';
  }

  lemma TripleParses(front: seq<string>, qs: seq<string>, query: string -> Option<seq<int>>)
    requires Triple(front, qs)
    ensures var str := TripleText(front, qs);
            Parse(str, query) == Parsed(|str|, FormAddress(Form(front, true, [], qs)))
  {
    hide Scan, Colons, Dots, AllFields, AllOctets, Values, QuadWords, Assemble, BackToColon, Ipv4, FormAddress;
    var str, x := TripleText(front, qs), Form(front, true, [], qs);
    var st := ScanFront(front, ":" + Dots(qs));
    ThirdColon(":" + Dots(qs), st);
    TripleTail(front, qs);
    QuadParses(qs, query);
    WordsLength(qs);
    ValuesNone();
    var d, w := st.d, QuadWords(qs);
    var parts := st.parts[d := w[0]][d + 1 := w[1]];
    assert parts[..d + 2] == Values(front) + [0] + Values([]) + w;
    AreWords(qs);
    AssembleForm(|str|, x, parts);
  }

  lemma AreWords(qs: seq<string>)
    requires |qs| == 4
    ensures var v := OctetValues(qs); QuadWords(qs) == [v[0] * 256 + v[1], v[2] * 256 + v[3]]
  {
  }

  // ----- What is taken whole ---------------------------------------------------

  ghost predicate LegalText(str: string) {
    exists x :: Legal(x) && str == FormText(x)
  }

  ghost predicate TripleColon(str: string) {
    exists front, qs :: Triple(front, qs) && str == TripleText(front, qs)
  }

  /** Behind an unfinished scan, only a quad completes the text. */
  lemma FinishWhole(str: string, rest: string, st: State)
    requires StateOk(st) && 0 < |rest| <= |str|
    requires var f := Finish(str, rest, st, NoNames); f.Parsed? && f.consumed == |str|
    ensures var d, t := if st.p == 0 then st.d - 1 else st.d, BackToColon(str, |str| - |rest|);
            && (d == 6 || (d < 6 && st.cc >= 0)) && (d == st.cc ==> d < 6)
            && t != 0 && Ipv4(str[t + 1..], NoNames).Some?
  {
    hide Ipv4, BackToColon;
  }

  lemma TailFrom(before: string, cur: string, rest: string)
    requires rest != "" && rest[0] != ':' && ':' !in cur && (before != "" ==> before[|before| - 1] == ':')
    ensures var str := before + cur + rest;
            var t := BackToColon(str, |before| + |cur|);
            if before == "" then t == 0 else t == |before| - 1 && str[t + 1..] == cur + rest
  {
    var str := before + cur + rest;
    forall k | |before| <= k <= |before| + |cur| ensures str[k] != ':' {
      assert k < |before| + |cur| ==> str[k] == cur[k - |before|];
    }
    if before != "" {
      assert str[|before| - 1] == ':';
      assert str[|before|..] == cur + rest;
    }
  }

  lemma {:induction false} ClosedColons(fs: seq<string>)
    requires fs != []
    ensures Closed(fs) == Colons(fs) + ":"
    decreases |fs|
  {
    if |fs| == 1 {
      assert Closed(fs[1..]) == "";
    } else {
      ClosedColons(fs[1..]);
    }
  }

  lemma BeforeEnds(h: Shape)
    ensures Before(h) != "" ==> Before(h)[|Before(h)| - 1] == ':'
  {
    hide Closed, Colons;
    var fs := if h.gap then h.back else h.front;
    ClosedNone();
    if fs != [] { ClosedColons(fs); }
  }

  /** The last field was the first number of a quad. */
  lemma QuadCompletes(h: Shape, st: State, rest: string, qs: seq<string>)
    requires Shaped(h, st, rest) && h.cur != "" && |qs| == 4 && AllOctets(qs) && h.cur + rest == Dots(qs)
    requires st.d == 6 || (st.d < 6 && st.cc >= 0)
    ensures LegalText(Before(h) + h.cur + rest)
  {
    hide Closed, Colons, Dots;
    var x := Form(h.front, h.gap, h.back, qs);
    var fs := if h.gap then h.back else h.front;
    ClosedNone();
    ColonsNone();
    if fs != [] { ClosedColons(fs); }
    assert Before(h) + h.cur + rest == Before(h) + Dots(qs);
    assert Legal(x) && FormText(x) == Before(h) + Dots(qs);
  }

  lemma DigitsNoColon(s: string)
    requires AllDigits(s, 16)
    ensures ':' !in s
  {
  }

  /** The scan stopped at a character that is not a colon. */
  lemma StoppedAtOther(h: Shape, st: State, rest: string)
    requires Shaped(h, st, rest) && rest != "" && rest[0] != ':' && Next(rest, st).Stop?
    requires var f := Finish(Before(h) + h.cur + rest, rest, Next(rest, st).st, NoNames);
             f.Parsed? && f.consumed == |Before(h) + h.cur + rest|
    ensures LegalText(Before(h) + h.cur + rest)
  {
    hide Finish, Before, BackToColon, Ipv4, AllFields, AllDigits, LegalText;
    var str := Before(h) + h.cur + rest;
    FinishWhole(str, rest, st);
    BeforeEnds(h);
    DigitsNoColon(h.cur);
    TailFrom(Before(h), h.cur, rest);
    var qs := QuadBack(h.cur + rest);
    QuadStarts(qs);
    QuadCompletes(h, st, rest, qs);
  }

  lemma BackStays(str: string, s: nat)
    requires s < |str| && str[s] == ':'
    ensures BackToColon(str, s) == s
  {
  }

  /** The scan stopped at a colon. */
  lemma StoppedAtColon(h: Shape, st: State, rest: string)
    requires Shaped(h, st, rest) && rest != "" && rest[0] == ':' && Next(rest, st).Stop?
    requires var f := Finish(Before(h) + h.cur + rest, rest, Next(rest, st).st, NoNames);
             f.Parsed? && f.consumed == |Before(h) + h.cur + rest|
    ensures TripleColon(Before(h) + h.cur + rest)
  {
    hide Finish, BackToColon, Ipv4, AllFields, AllDigits, Colons, AllOctets, Dots, HexValue;
    var str, s := Before(h) + h.cur + rest, |Before(h)| + |h.cur|;
    FinishWhole(str, rest, Next(rest, st).st);
    assert str[s] == ':' && str[s + 1..] == rest[1..];
    BackStays(str, s);
    var qs := QuadBack(rest[1..]);
    QuadStarts(qs);
    ClosedNone();
    ColonNoDigit();
    assert rest == ":" + Dots(qs);
    assert h.gap && h.back == [] && h.cur == "";
    assert str == TripleText(h.front, qs) && Triple(h.front, qs);
  }

  lemma ColonNoDigit()
    ensures HexValue(':') < 0
  {
  }

  lemma TakenWhole(str: string)
    requires var f := Parse(str, NoNames); f.Parsed? && f.consumed == |str|
    ensures str == "" || LegalText(str) || TripleColon(str)
  {
    hide Scan, Before, Next, LegalText, TripleColon, Finish;
    var h0 := Shape([], false, [], "");
    StartShaped(h0, str);
    var h, st := ScanShaped(h0, START, str);
    var rest := Scan(str, START).rest;
    assert str == Before(h) + h.cur + rest;
    if rest == "" {
      if str != "" { EndsWhole(h, st); }
    } else if rest[0] == ':' {
      StoppedAtColon(h, st, rest);
    } else {
      StoppedAtOther(h, st, rest);
    }
  }

  lemma StartShaped(h: Shape, str: string)
    requires h == Shape([], false, [], "")
    ensures Shaped(h, START, str) && Before(h) + h.cur + str == str
  {
  }

  lemma EndsWhole(h: Shape, st: State)
    requires Shaped(h, st, "") && Before(h) + h.cur != ""
    requires var str := Before(h) + h.cur + ""; var f := Finish(str, "", st, NoNames); f.Parsed? && f.consumed == |str|
    ensures LegalText(Before(h) + h.cur + "")
  {
    hide Colons, BackToColon, Ipv4, Legal, FormText, Closed;
    ClosedNone();
    WholeForm(h, st);
    assert Before(h) + h.cur + "" == Before(h) + h.cur;
    assert Legal(Completed(h, []));
  }

  /** basic_parse takes a text whole exactly when it is legal, has a third colon
      before a quad, or is empty. */
  lemma TakenExactly(str: string)
    ensures var f := Parse(str, NoNames);
            (f.Parsed? && f.consumed == |str|) <==> str == "" || LegalText(str) || TripleColon(str)
  {
    hide Parse, FormText, TripleText, AllFields, AllOctets;
    var f := Parse(str, NoNames);
    if f.Parsed? && f.consumed == |str| { TakenWhole(str); }
    if str == "" { EmptyParses(NoNames); }
    if LegalText(str) {
      var x :| Legal(x) && str == FormText(x);
      LegalParses(x, NoNames);
    }
    if TripleColon(str) {
      var front, qs :| Triple(front, qs) && str == TripleText(front, qs);
      TripleParses(front, qs, NoNames);
    }
  }

  /** The empty text passes for an address of ones. */
  lemma EmptyParses(query: string -> Option<seq<int>>)
    ensures Parse("", query) == Parsed(0, START.parts)
  {
  }
}
