/** Quoting configuration strings and splitting them into arguments
    (lib/confparse.cc).

    Strings are sequences of characters below 256.  Positions are integers: the
    code's cursors can step past the end behind an unterminated comment, and so can
    these.
 */
module Quote {
  import opened Numerals

  predicate Bytes(s: string) {
    forall i :: 0 <= i < |s| ==> s[i] as int < 256
  }

  /** String::substring on two positions: empty unless they lie inside. */
  function Sub(str: string, l: int, r: int): string {
    if 0 <= l < r <= |str| then str[l..r] else ""
  }

  predicate IsSpace(c: char) {
    c == ' ' || 9 <= c as int <= 13
  }

  // ----- Skipping -----------------------------------------------------------

  predicate CommentAt(str: string, s: int) {
    0 <= s && s + 1 < |str| && str[s] == '/' && (str[s + 1] == '/' || str[s + 1] == '*')
  }

  function LineEnd(str: string, s: int): (e: int)
    requires 0 <= s
    ensures s <= e
    decreases |str| - s
  {
    if s + 1 < |str| && str[s] != '\n' && str[s] != '\r' then LineEnd(str, s + 1) else s
  }

  function BlockEnd(str: string, s: int): (e: int)
    requires 0 <= s
    ensures s <= e
    decreases |str| - s
  {
    if s + 2 < |str| && (str[s] != '*' || str[s + 1] != '/') then BlockEnd(str, s + 1) else s
  }

  function SkipComment(str: string, s: int): (e: int)
    requires CommentAt(str, s)
    ensures s < e
  {
    if str[s + 1] == '/' then
      var e := LineEnd(str, s + 2);
      if e + 1 < |str| && str[e] == '\r' && str[e + 1] == '\n' then e + 2 else e + 1
    else BlockEnd(str, s + 2) + 2
  }

  /** Behind the '>' of "\<...>". */
  function AngleEnd(str: string, s: int): (e: int)
    requires 0 <= s
    ensures s <= e
    decreases |str| - s
  {
    if s >= |str| then s
    else if str[s] == '>' then s + 1
    else if CommentAt(str, s) then AngleEnd(str, SkipComment(str, s))
    else AngleEnd(str, s + 1)
  }

  function SkipBackslash(str: string, s: int): (e: int)
    requires 0 <= s < |str|
    ensures s < e
  {
    if s + 1 >= |str| then s + 1
    else if str[s + 1] == '<' then AngleEnd(str, s + 2)
    else if str[s + 1] == '\r' && s + 2 < |str| && str[s + 2] == '\n' then s + 3
    else s + 2
  }

  function DoubleEnd(str: string, s: int): (e: int)
    requires 0 <= s
    ensures s <= |str| ==> s <= e
    decreases |str| - s
  {
    if s >= |str| then |str|
    else if str[s] == '\\' then DoubleEnd(str, SkipBackslash(str, s))
    else if str[s] == '\"' then s + 1
    else DoubleEnd(str, s + 1)
  }

  function SingleEnd(str: string, s: int): (e: int)
    requires 0 <= s
    ensures s <= |str| ==> s <= e
    decreases |str| - s
  {
    if s >= |str| then |str| else if str[s] == '\'' then s + 1 else SingleEnd(str, s + 1)
  }

  function SkipCommentSpace(str: string, s: int): (e: int)
    requires 0 <= s
    ensures s <= e
    decreases |str| - s
  {
    if s >= |str| then s
    else if IsSpace(str[s]) then SkipCommentSpace(str, s + 1)
    else if CommentAt(str, s) then SkipCommentSpace(str, SkipComment(str, s))
    else s
  }

  /** Behind the token at s: a quoted string, "\<...>", or one character. */
  function TokenEnd(str: string, s: int): (e: int)
    requires 0 <= s < |str|
    ensures s < e
  {
    if str[s] == '\'' then SingleEnd(str, s + 1)
    else if str[s] == '\"' then DoubleEnd(str, s + 1)
    else if str[s] == '\\' && s + 1 < |str| && str[s + 1] == '<' then SkipBackslash(str, s)
    else s + 1
  }

  // ----- Removing comments --------------------------------------------------

  datatype Gathered = Gathered(text: string, pos: int)

  /** The main loop of partial_uncomment; `comma` says whether a comma ends it. */
  function Gather(str: string, s: int, sa: string, left: int, right: int, closed: bool, comma: bool): (g: Gathered)
    requires 0 <= s
    ensures s <= g.pos
    decreases |str| - s
  {
    if s >= |str| then Gathered(sa + Sub(str, left, right), s)
    else if IsSpace(str[s]) then Gather(str, s + 1, sa, left, right, closed, comma)
    else if CommentAt(str, s) then Gather(str, SkipComment(str, s), sa, left, right, true, comma)
    else if str[s] == ',' && comma then Gathered(sa + Sub(str, left, right), s)
    else if closed then
      Gather(str, TokenEnd(str, s), sa + Sub(str, left, right) + " ", s, TokenEnd(str, s), false, comma)
    else Gather(str, TokenEnd(str, s), sa, left, TokenEnd(str, s), false, comma)
  }

  function Uncomment(str: string, i: nat, comma: bool): (g: Gathered)
    ensures i <= g.pos
  {
    var s := SkipCommentSpace(str, i);
    Gather(str, s, "", s, s, false, comma)
  }

  /** cp_argvec from position pos on. */
  function Arguments(str: string, pos: nat): seq<string>
    decreases |str| - pos
  {
    if pos >= |str| then []
    else
      var g := Uncomment(str, pos, true);
      (if g.text != "" || g.pos < |str| then [g.text] else []) + Arguments(str, g.pos + 1)
  }

  /** cp_unargvec. */
  function Joined(conf: seq<string>): string {
    if conf == [] then "" else if |conf| == 1 then conf[0] else conf[0] + ", " + Joined(conf[1..])
  }

  // ----- Escapes ------------------------------------------------------------

  /** A C cast to char keeps the low eight bits. */
  function ToChar(c: int): char {
    (c % 256) as char
  }

  /** What an escape stands for, and the position behind it. */
  datatype Escape = Escape(text: string, pos: int)

  function Octal(str: string, s: int, c: int, d: nat): (e: Escape)
    requires 0 <= s <= |str| && d <= 3
    ensures s <= e.pos <= |str|
    decreases 3 - d
  {
    if s < |str| && '0' <= str[s] <= '7' && d < 3 then Octal(str, s + 1, c * 8 + (str[s] - '0') as int, d + 1)
    else Escape([ToChar(c)], s)
  }

  function Hexadecimal(str: string, s: int, c: int): (e: Escape)
    requires 0 <= s <= |str|
    ensures s <= e.pos <= |str|
    decreases |str| - s
  {
    if s < |str| && HexValue(str[s]) >= 0 then Hexadecimal(str, s + 1, c * 16 + HexValue(str[s]))
    else Escape([ToChar(c)], s)
  }

  /** "\<...>": pairs of digits, anything else between them ignored. */
  function Binary(str: string, s: int, c: int, d: nat): (e: Escape)
    requires 0 <= s
    ensures e.pos <= |str| && (s <= |str| ==> s <= e.pos)
    decreases |str| - s
  {
    if s >= |str| then Escape("", |str|)
    else if str[s] == '>' then Escape("", s + 1)
    else if HexValue(str[s]) >= 0 then
      var v := c * 16 + HexValue(str[s]);
      if d + 1 == 2 then
        var e := Binary(str, s + 1, 0, 0);
        Escape([ToChar(v)] + e.text, e.pos)
      else Binary(str, s + 1, v, d + 1)
    else if CommentAt(str, s) then Binary(str, SkipComment(str, s), c, d)
    else Binary(str, s + 1, c, d)
  }

  /** cp_process_backslash. */
  function Process(str: string, s: int): (e: Escape)
    requires 0 <= s < |str| && str[s] == '\\'
    ensures s < e.pos <= |str|
  {
    if s == |str| - 1 then Escape("\\", |str|)
    else
      var c := str[s + 1];
      if c == '\r' then Escape("", if s + 2 < |str| && str[s + 2] == '\n' then s + 3 else s + 2)
      else if c == '\n' then Escape("", s + 2)
      else if c == 'a' then Escape([7 as char], s + 2)
      else if c == 'b' then Escape([8 as char], s + 2)
      else if c == 'f' then Escape([12 as char], s + 2)
      else if c == 'n' then Escape("\n", s + 2)
      else if c == 'r' then Escape("\r", s + 2)
      else if c == 't' then Escape("\t", s + 2)
      else if c == 'v' then Escape([11 as char], s + 2)
      else if '0' <= c <= '7' then Octal(str, s + 1, 0, 0)
      else if c == 'x' then Hexadecimal(str, s + 2, 0)
      else if c == '<' then Binary(str, s + 2, 0, 0)
      else Escape([c], s + 2)
  }

  // ----- Unquoting ----------------------------------------------------------

  const NONE := '\0'

  /** The backslash at s starts an escape in this quoting state. */
  predicate Escapes(str: string, s: int, quoting: char)
    requires 0 <= s < |str|
  {
    str[s] == '\\' && s + 1 < |str| && (quoting == '\"' || (quoting == NONE && str[s + 1] == '<'))
  }

  predicate IsQuote(c: char) { c == '\"' || c == '\'' }

  /** The characters that text from s on stands for: quotation marks vanish, escapes
      expand, everything else stays. */
  function Decoded(str: string, s: int, quoting: char): string
    requires 0 <= s <= |str|
    decreases |str| - s
  {
    if s == |str| then ""
    else if IsQuote(str[s]) && quoting == NONE then Decoded(str, s + 1, str[s])
    else if IsQuote(str[s]) && quoting == str[s] then Decoded(str, s + 1, NONE)
    else if Escapes(str, s, quoting) then Process(str, s).text + Decoded(str, Process(str, s).pos, quoting)
    else [str[s]] + Decoded(str, s + 1, quoting)
  }

  function Unquoted(str: string): string {
    Decoded(Uncomment(str, 0, false).text, 0, NONE)
  }

  // ----- Quoting ------------------------------------------------------------

  function OctalDigits(u: nat): string
    requires u < 256
  {
    ['0' + (u / 64) as char, '0' + (u / 8 % 8) as char, '0' + (u % 8) as char]
  }

  function EscapedChar(c: char, newlines: bool): (e: string)
    requires c as int < 256
    ensures 1 <= |e|
  {
    if c == '\\' || c == '\"' || c == '$' then ['\\', c]
    else if c == '\t' then "\\t"
    else if c == '\r' then "\\r"
    else if c == '\n' then (if newlines then [c] else "\\n")
    else if c as int < 32 || c as int >= 127 then ['\\'] + OctalDigits(c as int)
    else [c]
  }

  function Escaped(s: string, newlines: bool): string
    requires Bytes(s)
  {
    if s == "" then "" else EscapedChar(s[0], newlines) + Escaped(s[1..], newlines)
  }

  function Quoted(s: string, newlines: bool): (q: string)
    requires Bytes(s)
    ensures q != ""
  {
    "\"" + Escaped(s, newlines) + "\""
  }

  /** What a quoted string may contain: printable characters and, if allowed, ends of
      line; no '$' without a backslash before it. */
  predicate Safe(e: string, newlines: bool) {
    && (forall i :: 0 <= i < |e| ==> 32 <= e[i] as int < 127 || (newlines && e[i] == '\n'))
    && (forall i :: 0 <= i < |e| && e[i] == '$' ==> i > 0 && e[i - 1] == '\\')
  }

  lemma SafeTogether(a: string, b: string, newlines: bool)
    requires Safe(a, newlines) && Safe(b, newlines)
    ensures Safe(a + b, newlines)
  {
  }

  lemma {:induction false} EscapedSafe(w: string, newlines: bool)
    requires Bytes(w)
    ensures Safe(Escaped(w, newlines), newlines)
    decreases |w|
  {
    if w != "" {
      assert Safe(EscapedChar(w[0], newlines), newlines);
      EscapedSafe(w[1..], newlines);
      SafeTogether(EscapedChar(w[0], newlines), Escaped(w[1..], newlines), newlines);
    }
  }

  lemma QuotedSafe(w: string, newlines: bool)
    requires Bytes(w)
    ensures Safe(Quoted(w, newlines), newlines)
  {
    EscapedSafe(w, newlines);
  }

  // ----- Round trip ---------------------------------------------------------

  ghost predicate At(str: string, s: int, part: string) {
    0 <= s && s + |part| <= |str| && str[s..s + |part|] == part
  }

  lemma AtSplit(str: string, s: int, a: string, b: string)
    requires At(str, s, a + b)
    ensures At(str, s, a) && At(str, s + |a|, b)
  {
    var all := str[s..s + |a + b|];
    assert str[s..s + |a|] == all[..|a|] == a;
    assert str[s + |a|..s + |a| + |b|] == all[|a|..] == b;
  }

  lemma AtChar(str: string, s: int, part: string, i: nat)
    requires At(str, s, part) && i < |part|
    ensures str[s + i] == part[i]
  {
    assert str[s..s + |part|][i] == part[i];
  }

  /** Skipping an escaped character inside double quotes. */
  lemma SkipEscapedChar(str: string, s: int, c: char, newlines: bool)
    requires c as int < 256 && At(str, s, EscapedChar(c, newlines))
    ensures DoubleEnd(str, s) == DoubleEnd(str, s + |EscapedChar(c, newlines)|)
  {
    var e := EscapedChar(c, newlines);
    AtChar(str, s, e, 0);
    if |e| > 1 { AtChar(str, s, e, 1); }
    if |e| > 2 {
      AtChar(str, s, e, 2);
      AtChar(str, s, e, 3);
      assert DoubleEnd(str, s) == DoubleEnd(str, s + 2);
      assert DoubleEnd(str, s + 2) == DoubleEnd(str, s + 3);
      assert DoubleEnd(str, s + 3) == DoubleEnd(str, s + 4);
    }
  }

  lemma QuoteEnds(str: string, s: int)
    requires At(str, s, "\"")
    ensures DoubleEnd(str, s) == s + 1
  {
    AtChar(str, s, "\"", 0);
  }

  lemma {:induction false} SkipEscaped(str: string, s: int, w: string, newlines: bool)
    requires Bytes(w) && At(str, s, Escaped(w, newlines) + "\"")
    ensures DoubleEnd(str, s) == s + |Escaped(w, newlines)| + 1
    decreases |w|
  {
    hide DoubleEnd, EscapedChar, At;
    if w == "" {
      assert Escaped(w, newlines) + "\"" == "\"";
      QuoteEnds(str, s);
    } else {
      var e, rest := EscapedChar(w[0], newlines), Escaped(w[1..], newlines);
      assert Escaped(w, newlines) + "\"" == e + (rest + "\"");
      AtSplit(str, s, e, rest + "\"");
      SkipEscapedChar(str, s, w[0], newlines);
      SkipEscaped(str, s + |e|, w[1..], newlines);
    }
  }

  lemma OctalStep(str: string, s: int, c: int, d: nat, digit: nat)
    requires 0 <= s < |str| && d < 3 && digit < 8 && str[s] == '0' + digit as char
    ensures Octal(str, s, c, d) == Octal(str, s + 1, c * 8 + digit, d + 1)
  {
  }

  lemma OctalEnd(str: string, s: int, c: nat)
    requires 0 <= s <= |str| && c < 256
    ensures Octal(str, s, c, 3) == Escape([c as char], s)
  {
  }

  lemma OctalReads(str: string, s: int, u: nat)
    requires u < 256 && At(str, s, OctalDigits(u))
    ensures Octal(str, s, 0, 0) == Escape([u as char], s + 3)
  {
    hide Octal, At;
    AtChar(str, s, OctalDigits(u), 0);
    AtChar(str, s, OctalDigits(u), 1);
    AtChar(str, s, OctalDigits(u), 2);
    AtFits(str, s, OctalDigits(u));
    hide OctalDigits;
    var a, b, c := u / 64, u / 8 % 8, u % 8;
    OctalStep(str, s, 0, 0, a);
    OctalStep(str, s + 1, a, 1, b);
    OctalStep(str, s + 2, a * 8 + b, 2, c);
    assert (a * 8 + b) * 8 + c == u;
    OctalEnd(str, s + 3, u);
  }

  lemma AtFits(str: string, s: int, part: string)
    requires At(str, s, part)
    ensures 0 <= s && s + |part| <= |str|
  {
  }

  /** An escaped character inside double quotes stands for itself. */
  lemma DecodeChar(str: string, s: int, c: char, newlines: bool)
    requires c as int < 256 && At(str, s, EscapedChar(c, newlines)) && s < |str|
    ensures Decoded(str, s, '\"') == [c] + Decoded(str, s + |EscapedChar(c, newlines)|, '\"')
  {
    var e := EscapedChar(c, newlines);
    AtChar(str, s, e, 0);
    if |e| > 1 {
      AtChar(str, s, e, 1);
      if |e| > 2 {
        assert e == ['\\'] + OctalDigits(c as int);
        AtSplit(str, s, ['\\'], OctalDigits(c as int));
        OctalReads(str, s + 1, c as int);
      }
      assert Process(str, s) == Escape([c], s + |e|);
    }
  }

  lemma {:induction false} DecodeEscaped(str: string, s: int, w: string, newlines: bool)
    requires Bytes(w) && At(str, s, Escaped(w, newlines))
    ensures Decoded(str, s, '\"') == w + Decoded(str, s + |Escaped(w, newlines)|, '\"')
    decreases |w|
  {
    hide Decoded, EscapedChar;
    if w != "" {
      var e := EscapedChar(w[0], newlines);
      AtSplit(str, s, e, Escaped(w[1..], newlines));
      DecodeChar(str, s, w[0], newlines);
      DecodeEscaped(str, s + |e|, w[1..], newlines);
      assert w == [w[0]] + w[1..];
    }
  }

  /** A quoted string at s is one token. */
  lemma QuotedToken(str: string, s: int, w: string, newlines: bool)
    requires Bytes(w) && At(str, s, Quoted(w, newlines))
    ensures 0 <= s < |str| && str[s] == '\"' && TokenEnd(str, s) == s + |Quoted(w, newlines)|
  {
    var q := Quoted(w, newlines);
    AtChar(str, s, q, 0);
    assert q == "\"" + (Escaped(w, newlines) + "\"");
    AtSplit(str, s, "\"", Escaped(w, newlines) + "\"");
    SkipEscaped(str, s + 1, w, newlines);
  }

  /** partial_uncomment takes a quoted string whole, up to the end or a comma. */
  lemma GatherQuoted(str: string, i: nat, w: string, newlines: bool, comma: bool)
    requires Bytes(w) && At(str, i, Quoted(w, newlines))
    requires i + |Quoted(w, newlines)| == |str| || (comma && str[i + |Quoted(w, newlines)|] == ',')
    ensures Uncomment(str, i, comma) == Gathered(Quoted(w, newlines), i + |Quoted(w, newlines)|)
  {
    var q := Quoted(w, newlines);
    var e := i + |q|;
    QuotedToken(str, i, w, newlines);
    assert SkipCommentSpace(str, i) == i;
    assert Gather(str, i, "", i, i, false, comma) == Gather(str, e, "", i, e, false, comma);
    assert Gather(str, e, "", i, e, false, comma) == Gathered("" + Sub(str, i, e), e);
  }

  lemma DecodeEnds(str: string)
    requires str != "" && str[|str| - 1] == '\"'
    ensures Decoded(str, |str| - 1, '\"') == ""
  {
    assert Decoded(str, |str| - 1, '\"') == Decoded(str, |str|, NONE);
  }

  lemma DecodeStarts(str: string)
    requires str != "" && str[0] == '\"'
    ensures Decoded(str, 0, NONE) == Decoded(str, 1, '\"')
  {
  }

  lemma DecodeQuoted(w: string, newlines: bool)
    requires Bytes(w)
    ensures Decoded(Quoted(w, newlines), 0, NONE) == w
  {
    hide Decoded, Escaped;
    var q, e := Quoted(w, newlines), Escaped(w, newlines);
    assert q[1..1 + |e|] == e;
    DecodeStarts(q);
    DecodeEscaped(q, 1, w, newlines);
    DecodeEnds(q);
  }

  /** cp_unquote undoes cp_quote, with either treatment of newlines. */
  lemma QuoteRoundTrip(w: string, newlines: bool)
    requires Bytes(w)
    ensures Unquoted(Quoted(w, newlines)) == w
  {
    hide Decoded, Quoted, Uncomment;
    var q := Quoted(w, newlines);
    assert q[0..|q|] == q && At(q, 0, q);
    GatherQuoted(q, 0, w, newlines, false);
    DecodeQuoted(w, newlines);
  }

  ghost predicate IsQuoted(q: string) {
    exists w, newlines :: Bytes(w) && q == Quoted(w, newlines)
  }

  lemma GatherArgument(str: string, pos: nat, lead: string, q: string, comma: bool)
    requires IsQuoted(q) && At(str, pos, lead + q) && (lead == "" || lead == " ")
    requires pos + |lead + q| == |str| || (comma && str[pos + |lead + q|] == ',')
    ensures Uncomment(str, pos, comma) == Gathered(q, pos + |lead + q|)
  {
    var w, newlines :| Bytes(w) && q == Quoted(w, newlines);
    AtSplit(str, pos, lead, q);
    GatherQuoted(str, pos + |lead|, w, newlines, comma);
    if lead == " " {
      AtChar(str, pos, lead, 0);
      assert SkipCommentSpace(str, pos) == SkipCommentSpace(str, pos + 1);
    }
  }

  /** One round of cp_argvec. */
  lemma ArgumentStep(str: string, pos: nat, lead: string, q: string, rest: string)
    requires IsQuoted(q) && q != "" && (lead == "" || lead == " ") && (rest == "" || rest[0] == ',')
    requires pos <= |str| && str[pos..] == lead + q + rest
    ensures Arguments(str, pos) == [q] + Arguments(str, pos + |lead + q| + 1)
  {
    hide Uncomment, IsQuoted;
    var e := pos + |lead + q|;
    assert str[pos..e] == lead + q;
    assert rest != "" ==> str[e] == str[pos..][|lead + q|] == ',';
    GatherArgument(str, pos, lead, q, true);
  }

  lemma JoinedMore(conf: seq<string>)
    requires |conf| > 1
    ensures Joined(conf) == conf[0] + (", " + Joined(conf[1..]))
  {
  }

  lemma ArgumentsDone(str: string, pos: nat)
    requires pos >= |str|
    ensures Arguments(str, pos) == []
  {
  }

  /** Cutting a text behind a first part and a comma. */
  lemma CutAtComma(str: string, pos: nat, lead: string, q: string, rest: string)
    requires pos <= |str| && str[pos..] == lead + (q + (", " + rest))
    ensures str[pos..] == lead + q + (", " + rest)
    ensures pos + |lead + q| + 1 <= |str| && str[pos + |lead + q| + 1..] == " " + rest
  {
    var front, back := lead + q, ", " + rest;
    assert str[pos..] == front + back;
    assert str[pos + |front| + 1..] == str[pos..][|front| + 1..] == back[1..];
  }

  lemma {:induction false} ArgumentsFrom(str: string, pos: nat, lead: string, qs: seq<string>)
    requires forall i :: 0 <= i < |qs| ==> IsQuoted(qs[i]) && qs[i] != ""
    requires qs != [] && pos <= |str| && str[pos..] == lead + Joined(qs) && (lead == "" || lead == " ")
    ensures Arguments(str, pos) == qs
    decreases |qs|
  {
    hide *;
    var q := qs[0];
    var e := pos + |lead + q|;
    if |qs| == 1 {
      JoinedOne(q);
      assert qs == [q] && lead + q == lead + q + "";
      ArgumentStep(str, pos, lead, q, "");
      assert |str[pos..]| == |lead + q|;
      ArgumentsDone(str, e + 1);
    } else {
      var rest := Joined(qs[1..]);
      JoinedMore(qs);
      CutAtComma(str, pos, lead, q, rest);
      ArgumentStep(str, pos, lead, q, ", " + rest);
      ArgumentsFrom(str, e + 1, " ", qs[1..]);
      assert qs == [q] + qs[1..];
    }
  }

  lemma JoinedOne(q: string)
    ensures Joined([q]) == q
  {
  }

  /** Splitting a joined list of quoted strings gives the list back. */
  lemma ArgumentRoundTrip(qs: seq<string>)
    requires forall i :: 0 <= i < |qs| ==> IsQuoted(qs[i])
    ensures Arguments(Joined(qs), 0) == qs
  {
    if qs != [] {
      assert Joined(qs)[0..] == "" + Joined(qs);
      ArgumentsFrom(Joined(qs), 0, "", qs);
    }
  }

  // ----- Comments and spaces -------------------------------------------------

  /** A character that is a token of its own. */
  predicate Plain(c: char) {
    !IsSpace(c) && c != '/' && c != ',' && c != '\'' && c != '\"' && c != '\\'
  }

  predicate Word(w: string) {
    w != "" && forall i :: 0 <= i < |w| ==> Plain(w[i])
  }

  predicate Spaces(g: string) {
    forall i :: 0 <= i < |g| ==> IsSpace(g[i])
  }

  /** The body of a block comment. */
  predicate NoClose(c: string) {
    forall i :: 0 <= i < |c| - 1 ==> !(c[i] == '*' && c[i + 1] == '/')
  }

  lemma {:induction false} GatherWord(str: string, s: int, w: string, sa: string, left: int, right: int, comma: bool)
    requires At(str, s, w) && forall i :: 0 <= i < |w| ==> Plain(w[i])
    ensures Gather(str, s, sa, left, right, false, comma)
         == Gather(str, s + |w|, sa, left, if w == "" then right else s + |w|, false, comma)
    decreases |w|
  {
    if w != "" {
      AtChar(str, s, w, 0);
      assert w == [w[0]] + w[1..];
      AtSplit(str, s, [w[0]], w[1..]);
      GatherWord(str, s + 1, w[1..], sa, left, s + 1, comma);
    }
  }

  lemma {:induction false} GatherSpaces(str: string, s: int, g: string, sa: string, left: int, right: int,
                                        closed: bool, comma: bool)
    requires At(str, s, g) && Spaces(g)
    ensures Gather(str, s, sa, left, right, closed, comma) == Gather(str, s + |g|, sa, left, right, closed, comma)
    decreases |g|
  {
    if g != "" {
      AtChar(str, s, g, 0);
      assert g == [g[0]] + g[1..];
      AtSplit(str, s, [g[0]], g[1..]);
      GatherSpaces(str, s + 1, g[1..], sa, left, right, closed, comma);
    }
  }

  lemma {:induction false} SkipSpaces(str: string, s: int, g: string)
    requires At(str, s, g) && Spaces(g)
    ensures SkipCommentSpace(str, s) == SkipCommentSpace(str, s + |g|)
    decreases |g|
  {
    if g != "" {
      AtChar(str, s, g, 0);
      assert g == [g[0]] + g[1..];
      AtSplit(str, s, [g[0]], g[1..]);
      SkipSpaces(str, s + 1, g[1..]);
    }
  }

  lemma {:induction false} BlockEnds(str: string, s: int, c: string)
    requires At(str, s, c + "*/") && NoClose(c)
    ensures BlockEnd(str, s) == s + |c|
    decreases |c|
  {
    var all := c + "*/";
    AtChar(str, s, all, 0);
    AtChar(str, s, all, 1);
    if c != "" {
      assert all == [c[0]] + (c[1..] + "*/");
      AtSplit(str, s, [c[0]], c[1..] + "*/");
      BlockEnds(str, s + 1, c[1..]);
    }
  }

  function BlockComment(c: string): (note: string)
    ensures |note| == |c| + 4
  {
    "/*" + c + "*/"
  }

  /** Skipping a whole block comment. */
  lemma CommentSkipped(str: string, s: int, c: string)
    requires At(str, s, BlockComment(c)) && NoClose(c)
    ensures CommentAt(str, s) && SkipComment(str, s) == s + |BlockComment(c)|
  {
    assert BlockComment(c) == "/*" + (c + "*/");
    AtSplit(str, s, "/*", c + "*/");
    AtChar(str, s, "/*", 0);
    AtChar(str, s, "/*", 1);
    AtFits(str, s + 2, c + "*/");
    BlockEnds(str, s + 2, c);
  }

  lemma WordStarts(str: string, s: int, w: string)
    requires At(str, s, w) && Word(w)
    ensures 0 <= s < |str| && Plain(str[s]) && SkipCommentSpace(str, s) == s
  {
    AtChar(str, s, w, 0);
  }

  /** The text of the first word: leading spaces go. */
  lemma GatherFirst(str: string, lead: string, u: string)
    requires At(str, 0, lead + u) && Spaces(lead) && Word(u)
    ensures var s := |lead|;
            Uncomment(str, 0, false) == Gather(str, s + |u|, "", s, s + |u|, false, false)
  {
    hide Gather, SkipCommentSpace, At, Spaces, Plain;
    var s := |lead|;
    AtSplit(str, 0, lead, u);
    SkipSpaces(str, 0, lead);
    WordStarts(str, s, u);
    GatherWord(str, s, u, "", s, s, false);
  }

  lemma StepComment(str: string, s: int, sa: string, left: int, right: int, closed: bool, comma: bool)
    requires CommentAt(str, s)
    ensures Gather(str, s, sa, left, right, closed, comma)
        == Gather(str, SkipComment(str, s), sa, left, right, true, comma)
  {
  }

  /** A comment and the spaces behind it close the stretch before them. */
  lemma GatherComment(str: string, s: int, c: string, gap: string, sa: string, left: int, right: int)
    requires 0 <= s && At(str, s, BlockComment(c) + gap) && NoClose(c) && Spaces(gap)
    ensures Gather(str, s, sa, left, right, false, false)
         == Gather(str, s + |BlockComment(c)| + |gap|, sa, left, right, true, false)
  {
    hide *;
    AtSplit(str, s, BlockComment(c), gap);
    CommentSkipped(str, s, c);
    StepComment(str, s, sa, left, right, false, false);
    GatherSpaces(str, s + |BlockComment(c)|, gap, sa, left, right, true, false);
  }

  lemma StepClosed(str: string, s: int, sa: string, left: int, right: int, comma: bool)
    requires 0 <= s < |str| && Plain(str[s])
    ensures Gather(str, s, sa, left, right, true, comma)
         == Gather(str, s, sa + Sub(str, left, right) + " ", s, s, false, comma)
  {
  }

  lemma GatherEnds(str: string, sa: string, left: int, right: int)
    ensures Gather(str, |str|, sa, left, right, false, false) == Gathered(sa + Sub(str, left, right), |str|)
  {
  }

  /** The word behind a closed stretch, up to the end of the text. */
  lemma GatherLast(str: string, s: int, v: string, trail: string, sa: string, left: int, right: int)
    requires At(str, s, v + trail) && Word(v) && Spaces(trail) && 0 <= s && s + |v + trail| == |str|
    ensures Gather(str, s, sa, left, right, true, false).text == sa + Sub(str, left, right) + " " + v
  {
    hide Gather, At, Spaces, Plain, Sub;
    AtSplit(str, s, v, trail);
    var sa' := sa + Sub(str, left, right) + " ";
    WordStarts(str, s, v);
    StepClosed(str, s, sa, left, right, false);
    GatherWord(str, s, v, sa', s, s, false);
    GatherSpaces(str, s + |v|, trail, sa', s, s + |v|, false, false);
    GatherEnds(str, sa', s, s + |v|);
    SubIsPart(str, s, v);
  }

  /** cp_uncomment: a comment with the spaces around it becomes one space, and the
      spaces at both ends go. */
  lemma CommentIsSpace(lead: string, u: string, gap: string, c: string, gap': string, v: string, trail: string)
    requires Spaces(lead) && Word(u) && Spaces(gap) && NoClose(c) && Spaces(gap') && Word(v) && Spaces(trail)
    ensures Uncomment(lead + u + gap + BlockComment(c) + gap' + v + trail, 0, false).text == u + " " + v
  {
    hide *;
    var str := lead + u + gap + BlockComment(c) + gap' + v + trail;
    var note := BlockComment(c) + gap';
    assert str == (lead + u) + (gap + (note + (v + trail)));
    WholeAt(str);
    AtSplit(str, 0, lead + u, gap + (note + (v + trail)));
    var s := |lead| + |u|;
    AtSplit(str, s, gap, note + (v + trail));
    AtSplit(str, s + |gap|, note, v + trail);
    GatherFirst(str, lead, u);
    GatherSpaces(str, s, gap, "", |lead|, s, false, false);
    GatherComment(str, s + |gap|, c, gap', "", |lead|, s);
    GatherLast(str, s + |gap| + |note|, v, trail, "", |lead|, s);
    AtSplit(str, 0, lead, u);
    SubIsPart(str, |lead|, u);
  }

  lemma WholeAt(str: string)
    ensures At(str, 0, str)
  {
    assert str[0..|str|] == str;
  }

  lemma SubIsPart(str: string, s: int, part: string)
    requires At(str, s, part)
    ensures Sub(str, s, s + |part|) == part
  {
  }

  // ----- Binary escapes -----------------------------------------------------

  function HexPairs(w: string): string
    requires Bytes(w)
  {
    if w == "" then "" else [HexChar(w[0] as int / 16), HexChar(w[0] as int % 16)] + HexPairs(w[1..])
  }

  lemma BinaryPair(str: string, s: int, c: char)
    requires c as int < 256 && At(str, s, [HexChar(c as int / 16), HexChar(c as int % 16)])
    ensures var e := Binary(str, s + 2, 0, 0); Binary(str, s, 0, 0) == Escape([c] + e.text, e.pos)
  {
    var pair := [HexChar(c as int / 16), HexChar(c as int % 16)];
    AtChar(str, s, pair, 0);
    AtChar(str, s, pair, 1);
    assert Binary(str, s, 0, 0) == Binary(str, s + 1, c as int / 16, 1);
  }

  /** "\<...>" expands to the bytes that its digit pairs name. */
  lemma {:induction false} BinaryReads(str: string, s: int, w: string)
    requires Bytes(w) && At(str, s, HexPairs(w) + ">")
    ensures Binary(str, s, 0, 0) == Escape(w, s + 2 * |w| + 1)
    decreases |w|
  {
    if w == "" {
      AtChar(str, s, HexPairs(w) + ">", 0);
    } else {
      var pair := [HexChar(w[0] as int / 16), HexChar(w[0] as int % 16)];
      assert HexPairs(w) + ">" == pair + (HexPairs(w[1..]) + ">");
      AtSplit(str, s, pair, HexPairs(w[1..]) + ">");
      hide HexChar, At;
      BinaryPair(str, s, w[0]);
      BinaryReads(str, s + 2, w[1..]);
      assert w == [w[0]] + w[1..];
    }
  }

  // ----- The loops ----------------------------------------------------------

  method ScanComment(str: string, s0: nat) returns (s: nat)
    requires CommentAt(str, s0)
    ensures s == SkipComment(str, s0)
  {
    s := s0 + 2;
    if str[s0 + 1] == '/' {
      while s + 1 < |str| && str[s] != '\n' && str[s] != '\r'
        invariant LineEnd(str, s0 + 2) == LineEnd(str, s)
      {
        s := s + 1;
      }
      if s + 1 < |str| && str[s] == '\r' && str[s + 1] == '\n' { s := s + 1; }
      s := s + 1;
    } else {
      while s + 2 < |str| && (str[s] != '*' || str[s + 1] != '/')
        invariant BlockEnd(str, s0 + 2) == BlockEnd(str, s)
      {
        s := s + 1;
      }
      s := s + 2;
    }
  }

  method ScanBackslash(str: string, s0: nat) returns (s: nat)
    requires s0 < |str| && str[s0] == '\\'
    ensures s == SkipBackslash(str, s0)
  {
    if s0 + 1 >= |str| { return s0 + 1; }
    if str[s0 + 1] == '<' {
      s := s0 + 2;
      while s < |str|
        invariant AngleEnd(str, s0 + 2) == AngleEnd(str, s)
        decreases |str| - s
      {
        if str[s] == '>' { return s + 1; }
        if str[s] == '/' && s + 1 < |str| && (str[s + 1] == '/' || str[s + 1] == '*') {
          s := ScanComment(str, s);
        } else {
          s := s + 1;
        }
      }
    } else if str[s0 + 1] == '\r' && s0 + 2 < |str| && str[s0 + 2] == '\n' {
      s := s0 + 3;
    } else {
      s := s0 + 2;
    }
  }

  /** cp_skip_double_quote. */
  method ScanDoubleQuote(str: string, begin: nat) returns (s: nat)
    requires begin < |str| && str[begin] == '\"'
    ensures s == DoubleEnd(str, begin + 1)
  {
    s := begin + 1;
    while s < |str|
      invariant DoubleEnd(str, begin + 1) == DoubleEnd(str, s)
      decreases |str| - s
    {
      if str[s] == '\\' {
        s := ScanBackslash(str, s);
      } else if str[s] == '\"' {
        return s + 1;
      } else {
        s := s + 1;
      }
    }
    s := |str|;
  }

  method ScanSingleQuote(str: string, begin: nat) returns (s: nat)
    requires begin < |str| && str[begin] == '\''
    ensures s == SingleEnd(str, begin + 1)
  {
    s := begin + 1;
    while s < |str|
      invariant begin < s <= |str| && SingleEnd(str, begin + 1) == SingleEnd(str, s)
    {
      if str[s] == '\'' { return s + 1; }
      s := s + 1;
    }
  }

  method ScanCommentSpace(str: string, begin: nat) returns (s: nat)
    ensures s == SkipCommentSpace(str, begin)
  {
    s := begin;
    while s < |str|
      invariant SkipCommentSpace(str, begin) == SkipCommentSpace(str, s)
      decreases |str| - s
    {
      if IsSpace(str[s]) {
        s := s + 1;
      } else if str[s] == '/' && s + 1 < |str| && (str[s + 1] == '/' || str[s + 1] == '*') {
        s := ScanComment(str, s);
      } else {
        break;
      }
    }
  }

  /** The token branch of partial_uncomment. */
  method ScanToken(str: string, s0: nat) returns (s: nat)
    requires s0 < |str|
    ensures s == TokenEnd(str, s0)
  {
    if str[s0] == '\'' {
      s := ScanSingleQuote(str, s0);
    } else if str[s0] == '\"' {
      s := ScanDoubleQuote(str, s0);
    } else if str[s0] == '\\' && s0 + 1 < |str| && str[s0 + 1] == '<' {
      s := ScanBackslash(str, s0);
    } else {
      s := s0 + 1;
    }
  }

  method PartialUncomment(str: string, i: nat, comma: bool) returns (text: string, pos: nat)
    ensures Uncomment(str, i, comma) == Gathered(text, pos)
  {
    hide TokenEnd, SkipComment, SkipCommentSpace, Sub;
    var s := ScanCommentSpace(str, i);
    var sa, left, right, closed := "", s, s, false;
    while s < |str|
      invariant Uncomment(str, i, comma) == Gather(str, s, sa, left, right, closed, comma)
      decreases |str| - s
    {
      if IsSpace(str[s]) {
        s := s + 1;
      } else if str[s] == '/' && s + 1 < |str| && (str[s + 1] == '/' || str[s + 1] == '*') {
        s := ScanComment(str, s);
        closed := true;
      } else if str[s] == ',' && comma {
        break;
      } else {
        if closed {
          sa := sa + Sub(str, left, right) + " ";
          left, closed := s, false;
        }
        s := ScanToken(str, s);
        right := s;
      }
    }
    text, pos := sa + Sub(str, left, right), s;
  }

  method ReadOctal(str: string, s0: nat) returns (text: string, s: nat)
    requires s0 <= |str|
    ensures Octal(str, s0, 0, 0) == Escape(text, s)
  {
    var c, d := 0, 0;
    s := s0;
    while s < |str| && '0' <= str[s] <= '7' && d < 3
      invariant s0 <= s <= |str| && 0 <= d <= 3 && Octal(str, s0, 0, 0) == Octal(str, s, c, d)
    {
      c := c * 8 + (str[s] - '0') as int;
      s, d := s + 1, d + 1;
    }
    text := [ToChar(c)];
  }

  method ReadHexadecimal(str: string, s0: nat) returns (text: string, s: nat)
    requires s0 <= |str|
    ensures Hexadecimal(str, s0, 0) == Escape(text, s)
  {
    var c := 0;
    s := s0;
    while s < |str| && HexValue(str[s]) >= 0
      invariant s0 <= s <= |str| && Hexadecimal(str, s0, 0) == Hexadecimal(str, s, c)
    {
      c := c * 16 + HexValue(str[s]);
      s := s + 1;
    }
    text := [ToChar(c)];
  }

  method ReadBinary(str: string, s0: nat) returns (text: string, s: nat)
    requires s0 <= |str|
    ensures Binary(str, s0, 0, 0) == Escape(text, s)
  {
    hide SkipComment, ToChar, HexValue;
    var c, d := 0, 0;
    s, text := s0, "";
    while s < |str|
      invariant 0 <= d < 2
      invariant var e := Binary(str, s, c, d); Binary(str, s0, 0, 0) == Escape(text + e.text, e.pos)
      decreases |str| - s
    {
      if str[s] == '>' { return text, s + 1; }
      if HexValue(str[s]) >= 0 {
        c, d := c * 16 + HexValue(str[s]), d + 1;
        if d == 2 {
          text := text + [ToChar(c)];
          c, d := 0, 0;
        }
        s := s + 1;
      } else if str[s] == '/' && s + 1 < |str| && (str[s + 1] == '/' || str[s + 1] == '*') {
        s := ScanComment(str, s);
      } else {
        s := s + 1;
      }
    }
    s := |str|;
  }

  /** cp_process_backslash, with the text to append as a result. */
  method ProcessBackslash(str: string, s0: nat) returns (text: string, s: nat)
    requires s0 < |str| && str[s0] == '\\'
    ensures Process(str, s0) == Escape(text, s)
  {
    hide Octal, Hexadecimal, Binary;
    if s0 == |str| - 1 { return "\\", |str|; }
    s := s0 + 2;
    match str[s0 + 1] {
      case '\r' =>
        text := "";
        if s0 + 2 < |str| && str[s0 + 2] == '\n' { s := s0 + 3; }
      case '\n' => text := "";
      case 'a' => text := [7 as char];
      case 'b' => text := [8 as char];
      case 'f' => text := [12 as char];
      case 'n' => text := "\n";
      case 'r' => text := "\r";
      case 't' => text := "\t";
      case 'v' => text := [11 as char];
      case 'x' => text, s := ReadHexadecimal(str, s0 + 2);
      case '<' => text, s := ReadBinary(str, s0 + 2);
      case c =>
        if '0' <= c <= '7' { text, s := ReadOctal(str, s0 + 1); } else { text := [c]; }
    }
  }

  lemma SubGrows(str: string, start: int, s: int)
    requires 0 <= start <= s < |str|
    ensures Sub(str, start, s) + [str[s]] == Sub(str, start, s + 1)
  {
  }

  lemma SubAll(str: string)
    ensures Sub(str, 0, |str|) == str
  {
  }

  /** cp_unquote copies whole stretches; what it builds is character by character
      the decoded text. */
  method Unquote(str: string) returns (r: string)
    ensures r == Unquoted(str)
  {
    hide Process, Uncomment, Gather, Sub;
    var xtr, pos := PartialUncomment(str, 0, false);
    var sa, start, quoting, s := "", 0, NONE, 0;
    assert sa + Sub(xtr, 0, 0) == "" by { SubNone(xtr, 0); }
    while s < |xtr|
      invariant 0 <= start <= s <= |xtr|
      invariant start == 0 ==> sa == ""
      invariant Decoded(xtr, 0, NONE) == sa + Sub(xtr, start, s) + Decoded(xtr, s, quoting)
    {
      SubGrows(xtr, start, s);
      SubNone(xtr, s + 1);
      if IsQuote(xtr[s]) && (quoting == NONE || quoting == xtr[s]) {
        sa := sa + Sub(xtr, start, s);
        start := s + 1;
        quoting := if quoting == NONE then xtr[s] else NONE;
        s := s + 1;
      } else if xtr[s] == '\\' && s + 1 < |xtr| && (quoting == '\"' || (quoting == NONE && xtr[s + 1] == '<')) {
        sa := sa + Sub(xtr, start, s);
        var text;
        text, start := ProcessBackslash(xtr, s);
        SubNone(xtr, start);
        sa := sa + text;
        s := start;
      } else {
        s := s + 1;
      }
    }
    SubAll(xtr);
    r := if start == 0 then xtr else sa + Sub(xtr, start, s);
  }

  lemma SubNone(str: string, s: int)
    ensures Sub(str, s, s) == ""
  {
  }

  lemma {:induction false} EscapedSnoc(w: string, c: char, newlines: bool)
    requires Bytes(w) && c as int < 256 && Bytes(w + [c])
    ensures Escaped(w + [c], newlines) == Escaped(w, newlines) + EscapedChar(c, newlines)
  {
    if w == "" {
      assert w + [c] == [c] && [c][1..] == "";
    } else {
      assert (w + [c])[1..] == w[1..] + [c];
      EscapedSnoc(w[1..], c, newlines);
    }
  }

  /** cp_quote. */
  method QuoteString(str: string, newlines: bool) returns (q: string)
    requires Bytes(str)
    ensures q == Quoted(str, newlines)
  {
    hide Escaped, OctalDigits, Sub;
    if str == "" {
      assert Escaped(str, newlines) == "" by { EscapedNone(newlines); }
      return "\"\"";
    }
    var start, s := 0, 0;
    q := "\"";
    EscapedNone(newlines);
    SubNone(str, 0);
    assert str[..0] == "";
    while s < |str|
      invariant 0 <= start <= s <= |str|
      invariant q + Sub(str, start, s) == "\"" + Escaped(str[..s], newlines)
    {
      var c := str[s];
      SubGrows(str, start, s);
      SubNone(str, s + 1);
      assert str[..s + 1] == str[..s] + [c];
      EscapedSnoc(str[..s], c, newlines);
      ghost var before := q + Sub(str, start, s);
      if c == '\\' || c == '\"' || c == '$' {
        q := q + Sub(str, start, s) + ['\\', c];
        start := s + 1;
      } else if c == '\t' {
        q := q + Sub(str, start, s) + "\\t";
        start := s + 1;
      } else if c == '\r' {
        q := q + Sub(str, start, s) + "\\r";
        start := s + 1;
      } else if c == '\n' {
        if !newlines {
          q := q + Sub(str, start, s) + "\\n";
          start := s + 1;
        }
      } else if c as int < 32 || c as int >= 127 {
        q := q + Sub(str, start, s) + (['\\'] + OctalDigits(c as int));
        start := s + 1;
      }
      assert q + Sub(str, start, s + 1) == before + EscapedChar(c, newlines);
      s := s + 1;
    }
    assert str[..s] == str;
    q := q + Sub(str, start, s) + "\"";
  }

  lemma EscapedNone(newlines: bool)
    ensures Escaped("", newlines) == ""
  {
  }

  /** cp_argvec. */
  method Argvec(str: string) returns (conf: seq<string>)
    ensures conf == Arguments(str, 0)
  {
    hide Uncomment;
    conf := [];
    var pos := 0;
    while pos < |str|
      invariant Arguments(str, 0) == conf + Arguments(str, pos)
      decreases |str| - pos
    {
      var arg;
      ghost var was := pos;
      arg, pos := PartialUncomment(str, pos, true);
      if arg != "" || pos < |str| { conf := conf + [arg]; }
      pos := pos + 1;
    }
  }

  lemma {:induction false} JoinedSnoc(conf: seq<string>, x: string)
    requires conf != []
    ensures Joined(conf + [x]) == Joined(conf) + ", " + x
  {
    if |conf| > 1 {
      assert (conf + [x])[1..] == conf[1..] + [x];
      JoinedSnoc(conf[1..], x);
    }
  }

  /** cp_unargvec. */
  method Unargvec(conf: seq<string>) returns (sa: string)
    ensures sa == Joined(conf)
  {
    if |conf| == 0 { return ""; }
    sa := conf[0];
    var i := 1;
    assert conf[..1] == [conf[0]];
    while i < |conf|
      invariant 1 <= i <= |conf| && sa == Joined(conf[..i])
    {
      assert conf[..i + 1] == conf[..i] + [conf[i]];
      JoinedSnoc(conf[..i], conf[i]);
      sa := sa + ", " + conf[i];
      i := i + 1;
    }
    assert conf[..i] == conf;
  }

  /** Quote each string, join, split, unquote: the strings come back. */
  method ThereAndBack(ws: seq<string>, newlines: bool) returns (split: seq<string>, back: seq<string>)
    requires forall i :: 0 <= i < |ws| ==> Bytes(ws[i])
    ensures |split| == |ws| && forall i :: 0 <= i < |ws| ==> split[i] == Quoted(ws[i], newlines)
    ensures back == ws
  {
    hide Bytes, Quoted, Arguments, Joined, Unquoted, IsQuoted;
    var qs := [];
    while |qs| < |ws|
      invariant |qs| <= |ws|
      invariant forall i :: 0 <= i < |qs| ==> qs[i] == Quoted(ws[i], newlines) && IsQuoted(qs[i])
    {
      var q := QuoteString(ws[|qs|], newlines);
      QuotedIs(ws[|qs|], newlines);
      qs := qs + [q];
    }
    var joined := Unargvec(qs);
    split := Argvec(joined);
    ArgumentRoundTrip(qs);
    back := [];
    while |back| < |ws|
      invariant |back| <= |ws| && back == ws[..|back|]
    {
      var w := Unquote(split[|back|]);
      QuoteRoundTrip(ws[|back|], newlines);
      back := back + [w];
    }
  }

  lemma QuotedIs(w: string, newlines: bool)
    requires Bytes(w)
    ensures IsQuoted(Quoted(w, newlines))
  {
  }
}
