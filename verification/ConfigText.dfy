/** What configuration text means: a grammar of arguments, and proofs that splitting
    at commas, comment removal and unquoting (lib/confparse.cc) follow it.

    Text is described by what it is made of.  Where the reading of a part depends on
    what stands behind it, its predicate takes the text that follows as `rest`.
 */
module ConfigText {
  import opened Numerals
  import opened Quote

  predicate Starts(rest: string, c: char) { rest != "" && rest[0] == c }

  predicate OpensComment(rest: string) { Starts(rest, '/') || Starts(rest, '*') }

  // ----- Blanks ---------------------------------------------------------------

  /** White space and comments; the last two are comments that the end of the text cuts off. */
  datatype Blank =
    | Space(c: char) | Block(body: string) | Line(body: string, eol: string)
    | OpenBlock(body: string) | OpenLine(body: string)

  function BlankText(b: Blank): (s: string)
    ensures s != ""
  {
    match b
    case Space(c) => [c]
    case Block(body) => BlockComment(body)
    case Line(body, eol) => LineComment(body, eol)
    case OpenBlock(body) => "/*" + body
    case OpenLine(body) => "//" + body
  }

  function LineComment(body: string, eol: string): string { "//" + body + eol }

  predicate OneLine(body: string) { '\n' !in body && '\r' !in body }

  predicate BlankOk(b: Blank, rest: string) {
    match b
    case Space(c) => IsSpace(c)
    case Block(body) => NoClose(body)
    case Line(body, eol) =>
      OneLine(body) && (eol == "\n" || eol == "\r\n" || (eol == "\r" && !Starts(rest, '\n')))
    case OpenBlock(body) => NoClose(body) && rest == ""
    case OpenLine(body) => OneLine(body) && rest == ""
  }

  function BlanksText(bs: seq<Blank>): string {
    if bs == [] then "" else BlankText(bs[0]) + BlanksText(bs[1..])
  }

  predicate BlanksOk(bs: seq<Blank>, rest: string) {
    bs == [] || (BlankOk(bs[0], BlanksText(bs[1..]) + rest) && BlanksOk(bs[1..], rest))
  }

  predicate HasComment(bs: seq<Blank>) {
    bs != [] && (!bs[0].Space? || HasComment(bs[1..]))
  }

  /** What uncommenting leaves of the blanks between two tokens: white space stays,
      anything with a comment becomes one space. */
  function CleanGap(bs: seq<Blank>): string {
    if HasComment(bs) then " " else BlanksText(bs)
  }

  // ----- Tokens ---------------------------------------------------------------

  /** The inside of "\<...>": characters and comments. */
  datatype Part = Raw(c: char) | Note(b: Blank)

  function PartText(p: Part): string {
    match p
    case Raw(c) => [c]
    case Note(b) => BlankText(b)
  }

  predicate PartOk(p: Part, rest: string) {
    match p
    case Raw(c) => c != '>' && (c == '/' ==> !OpensComment(rest))
    case Note(b) => (b.Block? || b.Line?) && BlankOk(b, rest)
  }

  function PartsText(ps: seq<Part>): string {
    if ps == [] then "" else PartText(ps[0]) + PartsText(ps[1..])
  }

  predicate PartsOk(ps: seq<Part>, rest: string) {
    ps == [] || (PartOk(ps[0], PartsText(ps[1..]) + rest) && PartsOk(ps[1..], rest))
  }

  /** Only the hexadecimal digits count. */
  function PartDigits(p: Part): string {
    if p.Raw? && HexValue(p.c) >= 0 then [p.c] else ""
  }

  function PartsDigits(ps: seq<Part>): string {
    if ps == [] then "" else PartDigits(ps[0]) + PartsDigits(ps[1..])
  }

  /** Two digits make a byte; an odd one at the end is lost. */
  function PairBytes(digits: string): string {
    if |digits| < 2 then ""
    else [ToChar(Value(digits[..2], 16))] + PairBytes(digits[2..])
  }

  /** A mark that may be missing at the end of the text. */
  function Mark(c: char, closed: bool): string { if closed then [c] else "" }

  function AngleText(ps: seq<Part>, closed: bool): string { "\\<" + PartsText(ps) + Mark('>', closed) }

  predicate AngleOk(ps: seq<Part>, closed: bool, rest: string) {
    PartsOk(ps, Mark('>', closed)) && (!closed ==> rest == "")
  }

  /** What may stand between double quotes: a character, an escaped character, an
      octal, hexadecimal or binary escape, or an escaped end of line. */
  datatype Item =
    | Chr(c: char) | Esc(c: char) | Oct(digits: string) | Hexa(digits: string)
    | Angle(parts: seq<Part>, closed: bool) | Joint(eol: string)

  function ItemText(i: Item): (s: string)
    ensures s != ""
  {
    match i
    case Chr(c) => [c]
    case Esc(c) => ['\\', c]
    case Oct(digits) => "\\" + digits
    case Hexa(digits) => "\\x" + digits
    case Angle(parts, closed) => AngleText(parts, closed)
    case Joint(eol) => "\\" + eol
  }

  predicate IsOctal(c: char) { '0' <= c <= '7' }

  predicate ItemOk(i: Item, rest: string) {
    match i
    case Chr(c) => c != '\"' && (c == '\\' ==> rest == "")
    case Esc(c) => c != '\n' && c != '\r' && c != 'x' && c != '<' && !IsOctal(c)
    case Oct(digits) =>
      && 1 <= |digits| <= 3 && (forall k :: 0 <= k < |digits| ==> IsOctal(digits[k]))
      && (|digits| < 3 ==> rest == "" || !IsOctal(rest[0]))
    case Hexa(digits) => AllDigits(digits, 16) && (rest == "" || HexValue(rest[0]) < 0)
    case Angle(parts, closed) => AngleOk(parts, closed, rest)
    case Joint(eol) => eol == "\n" || eol == "\r\n" || (eol == "\r" && !Starts(rest, '\n'))
  }

  /** The letters that stand for control characters; any other stands for itself. */
  function Letter(c: char): char {
    match c
    case 'a' => 7 as char
    case 'b' => 8 as char
    case 't' => 9 as char
    case 'n' => 10 as char
    case 'v' => 11 as char
    case 'f' => 12 as char
    case 'r' => 13 as char
    case _ => c
  }

  function ItemMeaning(i: Item): string {
    match i
    case Chr(c) => [c]
    case Esc(c) => [Letter(c)]
    case Oct(digits) => [ToChar(Value(digits, 8))]
    case Hexa(digits) => [ToChar(Value(digits, 16))]
    case Angle(parts, _) => PairBytes(PartsDigits(parts))
    case Joint(_) => ""
  }

  function ItemsText(items: seq<Item>): string {
    if items == [] then "" else ItemText(items[0]) + ItemsText(items[1..])
  }

  predicate ItemsOk(items: seq<Item>, rest: string) {
    items == [] || (ItemOk(items[0], ItemsText(items[1..]) + rest) && ItemsOk(items[1..], rest))
  }

  function ItemsMeaning(items: seq<Item>): string {
    if items == [] then "" else ItemMeaning(items[0]) + ItemsMeaning(items[1..])
  }

  /** What arguments are made of: single characters, quoted strings and "\<...>". */
  datatype Token =
    | Char(c: char) | Single(body: string, closed: bool) | Double(items: seq<Item>, closed: bool)
    | Bytewise(parts: seq<Part>, closed: bool)

  function TokenText(t: Token): (s: string)
    ensures s != ""
  {
    match t
    case Char(c) => [c]
    case Single(body, closed) => "\'" + body + Mark('\'', closed)
    case Double(items, closed) => "\"" + ItemsText(items) + Mark('\"', closed)
    case Bytewise(parts, closed) => AngleText(parts, closed)
  }

  predicate TokenOk(t: Token, rest: string) {
    match t
    case Char(c) =>
      && !IsSpace(c) && !IsQuote(c)
      && (c == '/' ==> !OpensComment(rest)) && (c == '\\' ==> !Starts(rest, '<'))
    case Single(body, closed) => '\'' !in body && (!closed ==> rest == "")
    case Double(items, closed) => ItemsOk(items, Mark('\"', closed)) && (!closed ==> rest == "")
    case Bytewise(parts, closed) => AngleOk(parts, closed, rest)
  }

  function TokenMeaning(t: Token): string {
    match t
    case Char(c) => [c]
    case Single(body, _) => body
    case Double(items, _) => ItemsMeaning(items)
    case Bytewise(parts, _) => PairBytes(PartsDigits(parts))
  }

  // ----- Arguments ------------------------------------------------------------

  datatype Step = Step(gap: seq<Blank>, token: Token)

  /** Tokens with blanks before, between and behind them. */
  datatype Argument = Argument(steps: seq<Step>, trail: seq<Blank>)

  function StepText(x: Step): (s: string)
    ensures s != ""
  {
    BlanksText(x.gap) + TokenText(x.token)
  }

  predicate StepOk(x: Step, rest: string) {
    BlanksOk(x.gap, TokenText(x.token) + rest) && TokenOk(x.token, rest)
  }

  function StepsText(steps: seq<Step>): string {
    if steps == [] then "" else StepText(steps[0]) + StepsText(steps[1..])
  }

  predicate StepsOk(steps: seq<Step>, rest: string) {
    steps == [] || (StepOk(steps[0], StepsText(steps[1..]) + rest) && StepsOk(steps[1..], rest))
  }

  function ArgumentText(a: Argument): string {
    StepsText(a.steps) + BlanksText(a.trail)
  }

  predicate ArgumentOk(a: Argument, rest: string) {
    StepsOk(a.steps, BlanksText(a.trail) + rest) && BlanksOk(a.trail, rest)
  }

  /** No comma outside of quotation marks. */
  predicate NoCommas(steps: seq<Step>) {
    steps == [] || (steps[0].token != Char(',') && NoCommas(steps[1..]))
  }

  function CleanSteps(steps: seq<Step>): string {
    if steps == [] then ""
    else CleanGap(steps[0].gap) + TokenText(steps[0].token) + CleanSteps(steps[1..])
  }

  /** The argument without comments, and without blanks at its ends. */
  function Cleaned(a: Argument): string {
    if a.steps == [] then "" else TokenText(a.steps[0].token) + CleanSteps(a.steps[1..])
  }

  function MeaningSteps(steps: seq<Step>): string {
    if steps == [] then ""
    else CleanGap(steps[0].gap) + TokenMeaning(steps[0].token) + MeaningSteps(steps[1..])
  }

  /** What the argument stands for. */
  function Meaning(a: Argument): string {
    if a.steps == [] then "" else TokenMeaning(a.steps[0].token) + MeaningSteps(a.steps[1..])
  }

  /** A configuration string: arguments with commas between them. */
  function Commas(args: seq<Argument>): string {
    if args == [] then "" else ArgumentText(args[0]) + Behind(args[1..])
  }

  function Behind(args: seq<Argument>): string {
    if args == [] then "" else "," + ArgumentText(args[0]) + Behind(args[1..])
  }

  predicate ArgumentsOk(args: seq<Argument>) {
    args == [] ||
    (ArgumentOk(args[0], Behind(args[1..])) && NoCommas(args[0].steps) && ArgumentsOk(args[1..]))
  }

  /** The arguments that it has: all of them, but for an empty last one. */
  function Given(args: seq<Argument>): seq<string> {
    if args == [] || (|args| == 1 && Cleaned(args[0]) == "") then []
    else [Cleaned(args[0])] + Given(args[1..])
  }

  // ----- Suffixes --------------------------------------------------------------

  ghost predicate Suffix(str: string, s: int, x: string) {
    0 <= s <= |str| && str[s..] == x
  }

  lemma SuffixSplit(str: string, s: int, a: string, b: string)
    requires Suffix(str, s, a + b)
    ensures At(str, s, a) && Suffix(str, s + |a|, b) && s + |a| + |b| == |str|
  {
    assert str[s..][..|a|] == a && str[s..][|a|..] == b;
    assert str[s..s + |a|] == str[s..][..|a|];
    assert str[s + |a|..] == str[s..][|a|..];
  }

  lemma SuffixChar(str: string, s: int, x: string, i: nat)
    requires Suffix(str, s, x) && i < |x|
    ensures 0 <= s && s + i < |str| && str[s + i] == x[i]
  {
    assert str[s..][i] == str[s + i];
  }

  lemma SuffixNext(str: string, s: int, x: string)
    requires Suffix(str, s, x) && x != ""
    ensures 0 <= s < |str| && str[s] == x[0] && Suffix(str, s + 1, x[1..])
  {
    assert x == [x[0]] + x[1..];
    SuffixSplit(str, s, [x[0]], x[1..]);
    SuffixChar(str, s, x, 0);
  }

  /** What stands at s is what `rest` begins with. */
  lemma SuffixStarts(str: string, s: int, rest: string, c: char)
    requires Suffix(str, s, rest)
    ensures 0 <= s <= |str| && Starts(rest, c) == (s < |str| && str[s] == c)
  {
    if rest != "" { SuffixChar(str, s, rest, 0); }
  }

  // ----- Blanks are skipped ----------------------------------------------------

  lemma {:induction false} LineEnds(str: string, s: int, body: string, rest: string)
    requires Suffix(str, s, body + rest) && OneLine(body)
    ensures Starts(rest, '\n') || Starts(rest, '\r') ==> LineEnd(str, s) == s + |body|
    ensures rest == "" ==> LineEnd(str, s) >= |str| - 1
    decreases |body|
  {
    if body == "" {
      if rest != "" { SuffixChar(str, s, body + rest, 0); }
    } else {
      SuffixNext(str, s, body + rest);
      assert (body + rest)[1..] == body[1..] + rest;
      LineEnds(str, s + 1, body[1..], rest);
    }
  }

  lemma LineSkipped(str: string, s: int, body: string, eol: string, rest: string)
    requires Suffix(str, s, LineComment(body, eol) + rest) && BlankOk(Line(body, eol), rest)
    ensures CommentAt(str, s) && SkipComment(str, s) == s + |LineComment(body, eol)|
  {
    hide LineEnd, Suffix, At;
    assert LineComment(body, eol) + rest == "//" + (body + (eol + rest));
    SuffixSplit(str, s, "//", body + (eol + rest));
    AtChar(str, s, "//", 0);
    AtChar(str, s, "//", 1);
    LineEnds(str, s + 2, body, eol + rest);
    SuffixSplit(str, s + 2, body, eol + rest);
    var e := s + 2 + |body|;
    SuffixSplit(str, e, eol, rest);
    AtChar(str, e, eol, 0);
    if |eol| == 2 { AtChar(str, e, eol, 1); }
    SuffixStarts(str, e + |eol|, rest, '\n');
  }

  lemma OpenLineSkipped(str: string, s: int, body: string)
    requires Suffix(str, s, "//" + body) && OneLine(body)
    ensures CommentAt(str, s) && SkipComment(str, s) >= |str|
  {
    SuffixSplit(str, s, "//", body);
    AtChar(str, s, "//", 0);
    AtChar(str, s, "//", 1);
    assert body + "" == body;
    LineEnds(str, s + 2, body, "");
  }

  lemma {:induction false} BlockRunsOut(str: string, s: int, body: string)
    requires Suffix(str, s, body) && NoClose(body)
    ensures BlockEnd(str, s) >= |str| - 2
    decreases |body|
  {
    if |body| > 2 {
      SuffixChar(str, s, body, 1);
      SuffixNext(str, s, body);
      BlockRunsOut(str, s + 1, body[1..]);
    }
  }

  lemma OpenBlockSkipped(str: string, s: int, body: string)
    requires Suffix(str, s, "/*" + body) && NoClose(body)
    ensures CommentAt(str, s) && SkipComment(str, s) >= |str|
  {
    SuffixSplit(str, s, "/*", body);
    AtChar(str, s, "/*", 0);
    AtChar(str, s, "/*", 1);
    BlockRunsOut(str, s + 2, body);
  }

  lemma BlockSkipped(str: string, s: int, body: string, rest: string)
    requires Suffix(str, s, BlockComment(body) + rest) && NoClose(body)
    ensures CommentAt(str, s) && SkipComment(str, s) == s + |BlockComment(body)|
  {
    hide *;
    SuffixSplit(str, s, BlockComment(body), rest);
    CommentSkipped(str, s, body);
  }

  /** Positions that are equal, or both behind the end. */
  predicate SamePlace(str: string, p: int, q: int) {
    p == q || (p >= |str| && q >= |str|)
  }

  lemma CommentSkips(str: string, s: int, b: Blank, rest: string)
    requires Suffix(str, s, BlankText(b) + rest) && BlankOk(b, rest) && !b.Space?
    ensures CommentAt(str, s) && SamePlace(str, SkipComment(str, s), s + |BlankText(b)|)
    ensures b.Block? || b.Line? ==> SkipComment(str, s) == s + |BlankText(b)|
  {
    hide SkipComment, CommentAt, Suffix, BlockComment, LineComment, NoClose, OneLine;
    SuffixSplit(str, s, BlankText(b), rest);
    match b
    case Block(body) => BlockSkipped(str, s, body, rest);
    case Line(body, eol) => LineSkipped(str, s, body, eol, rest);
    case OpenBlock(body) =>
      assert BlankText(b) + rest == "/*" + body;
      OpenBlockSkipped(str, s, body);
    case OpenLine(body) =>
      assert BlankText(b) + rest == "//" + body;
      OpenLineSkipped(str, s, body);
  }

  lemma SpaceSkips(str: string, s: int, b: Blank, rest: string)
    requires Suffix(str, s, BlankText(b) + rest) && BlankOk(b, rest) && b.Space?
    ensures 0 <= s < |str| && IsSpace(str[s]) && |BlankText(b)| == 1
  {
    SuffixChar(str, s, BlankText(b) + rest, 0);
  }

  ghost predicate Alike(str: string, g: Gathered, h: Gathered) {
    g.text == h.text && SamePlace(str, g.pos, h.pos)
  }

  lemma GatherSame(str: string, p: int, q: int, sa: string, left: int, right: int, closed: bool, comma: bool)
    requires 0 <= p && 0 <= q && SamePlace(str, p, q)
    ensures Alike(str, Gather(str, p, sa, left, right, closed, comma), Gather(str, q, sa, left, right, closed, comma))
  {
  }

  lemma BlankGathered(str: string, s: int, b: Blank, rest: string,
                      sa: string, left: int, right: int, closed: bool, comma: bool)
    requires Suffix(str, s, BlankText(b) + rest) && BlankOk(b, rest)
    ensures 0 <= s
    ensures Alike(str, Gather(str, s, sa, left, right, closed, comma),
                  Gather(str, s + |BlankText(b)|, sa, left, right, closed || !b.Space?, comma))
  {
    hide Suffix, BlankText, BlankOk, SkipComment, CommentAt, IsSpace, Sub, TokenEnd;
    if b.Space? {
      SpaceSkips(str, s, b, rest);
    } else {
      CommentSkips(str, s, b, rest);
      CommentStarts(str, s);
      StepComment(str, s, sa, left, right, closed, comma);
      GatherSame(str, SkipComment(str, s), s + |BlankText(b)|, sa, left, right, true, comma);
    }
  }

  lemma CommentStarts(str: string, s: int)
    requires CommentAt(str, s)
    ensures 0 <= s && s + 1 < |str| && !IsSpace(str[s])
  {
  }

  lemma {:induction false} BlanksGathered(str: string, s: int, bs: seq<Blank>, rest: string,
                                          sa: string, left: int, right: int, closed: bool, comma: bool)
    requires Suffix(str, s, BlanksText(bs) + rest) && BlanksOk(bs, rest)
    ensures 0 <= s
    ensures Alike(str, Gather(str, s, sa, left, right, closed, comma),
                  Gather(str, s + |BlanksText(bs)|, sa, left, right, closed || HasComment(bs), comma))
    decreases |bs|
  {
    hide Gather, BlankText, BlankOk;
    if bs != [] {
      var b, more := bs[0], BlanksText(bs[1..]) + rest;
      assert BlanksText(bs) + rest == BlankText(b) + more;
      SuffixSplit(str, s, BlankText(b), more);
      BlankGathered(str, s, b, more, sa, left, right, closed, comma);
      BlanksGathered(str, s + |BlankText(b)|, bs[1..], rest, sa, left, right, closed || !b.Space?, comma);
    }
  }

  lemma SkipStep(str: string, s: int, b: Blank, rest: string)
    requires Suffix(str, s, BlankText(b) + rest) && BlankOk(b, rest)
    ensures 0 <= s && SamePlace(str, SkipCommentSpace(str, s), SkipCommentSpace(str, s + |BlankText(b)|))
  {
    hide Suffix, BlankText, BlankOk, SkipComment, CommentAt, IsSpace;
    if b.Space? {
      SpaceSkips(str, s, b, rest);
    } else {
      CommentSkips(str, s, b, rest);
      CommentStarts(str, s);
    }
  }

  lemma {:induction false} BlanksSkipped(str: string, s: int, bs: seq<Blank>, rest: string)
    requires Suffix(str, s, BlanksText(bs) + rest) && BlanksOk(bs, rest)
    ensures 0 <= s && SamePlace(str, SkipCommentSpace(str, s), SkipCommentSpace(str, s + |BlanksText(bs)|))
    decreases |bs|
  {
    hide SkipCommentSpace, BlankText, BlankOk;
    if bs != [] {
      var b, more := bs[0], BlanksText(bs[1..]) + rest;
      assert BlanksText(bs) + rest == BlankText(b) + more;
      SuffixSplit(str, s, BlankText(b), more);
      SkipStep(str, s, b, more);
      BlanksSkipped(str, s + |BlankText(b)|, bs[1..], rest);
    }
  }

  // ----- Tokens are skipped ----------------------------------------------------

  lemma {:induction false} SingleSkipped(str: string, s: int, body: string, closed: bool, rest: string)
    requires Suffix(str, s, body + Mark('\'', closed) + rest) && '\'' !in body && (!closed ==> rest == "")
    ensures 0 <= s && SingleEnd(str, s) == s + |body| + |Mark('\'', closed)|
    decreases |body|
  {
    var all := body + Mark('\'', closed) + rest;
    if all != "" { SuffixNext(str, s, all); }
    if body != "" {
      assert all[1..] == body[1..] + Mark('\'', closed) + rest;
      SingleSkipped(str, s + 1, body[1..], closed, rest);
    }
  }

  lemma NoCommentAt(str: string, s: int, c: char, rest: string)
    requires Suffix(str, s, [c] + rest) && (c == '/' ==> !OpensComment(rest))
    ensures 0 <= s < |str| && str[s] == c && Suffix(str, s + 1, rest) && !CommentAt(str, s)
  {
    SuffixSplit(str, s, [c], rest);
    SuffixChar(str, s, [c] + rest, 0);
    SuffixStarts(str, s + 1, rest, '/');
    SuffixStarts(str, s + 1, rest, '*');
  }

  lemma PartSkipped(str: string, s: int, p: Part, rest: string)
    requires Suffix(str, s, PartText(p) + rest) && PartOk(p, rest)
    ensures 0 <= s && AngleEnd(str, s) == AngleEnd(str, s + |PartText(p)|)
  {
    hide Suffix, BlankText, BlankOk, SkipComment, CommentAt, OpensComment;
    match p
    case Raw(c) => NoCommentAt(str, s, c, rest);
    case Note(b) =>
      CommentSkips(str, s, b, rest);
      CommentIsSlash(str, s);
  }

  lemma CommentIsSlash(str: string, s: int)
    requires CommentAt(str, s)
    ensures 0 <= s < |str| && str[s] == '/'
  {
  }

  lemma MarkEnds(str: string, s: int, c: char, closed: bool, rest: string)
    requires Suffix(str, s, Mark(c, closed) + rest) && (!closed ==> rest == "")
    ensures 0 <= s && if closed then s < |str| && str[s] == c else s == |str|
  {
    if closed { SuffixChar(str, s, Mark(c, closed) + rest, 0); }
  }

  lemma {:induction false} PartsSkipped(str: string, s: int, ps: seq<Part>, closed: bool, rest: string)
    requires Suffix(str, s, PartsText(ps) + (Mark('>', closed) + rest))
    requires PartsOk(ps, Mark('>', closed)) && (!closed ==> rest == "")
    ensures 0 <= s && AngleEnd(str, s) == s + |PartsText(ps)| + |Mark('>', closed)|
    decreases |ps|
  {
    hide PartText, PartOk, Suffix;
    var tail := Mark('>', closed) + rest;
    if ps == [] {
      assert PartsText(ps) + tail == tail;
      MarkEnds(str, s, '>', closed, rest);
    } else {
      var more := PartsText(ps[1..]) + tail;
      assert PartsText(ps) + tail == PartText(ps[0]) + more;
      SuffixSplit(str, s, PartText(ps[0]), more);
      PartOkClosed(ps[0], PartsText(ps[1..]), closed, rest);
      PartSkipped(str, s, ps[0], more);
      PartsSkipped(str, s + |PartText(ps[0])|, ps[1..], closed, rest);
    }
  }

  /** Only the next character matters. */
  lemma PartOkBefore(p: Part, x: string, more: string)
    requires PartOk(p, x) && (x == "" ==> more == "")
    ensures PartOk(p, x + more)
  {
    if x != "" { assert (x + more)[0] == x[0]; }
  }

  lemma PartOkClosed(p: Part, x: string, closed: bool, rest: string)
    requires PartOk(p, x + Mark('>', closed)) && (!closed ==> rest == "")
    ensures PartOk(p, x + (Mark('>', closed) + rest))
  {
    PartOkBefore(p, x + Mark('>', closed), rest);
    assert x + Mark('>', closed) + rest == x + (Mark('>', closed) + rest);
  }

  lemma AngleSkipped(str: string, s: int, ps: seq<Part>, closed: bool, rest: string)
    requires Suffix(str, s, AngleText(ps, closed) + rest) && AngleOk(ps, closed, rest)
    ensures 0 <= s && s + 1 < |str| && str[s] == '\\' && str[s + 1] == '<'
    ensures SkipBackslash(str, s) == s + |AngleText(ps, closed)|
  {
    hide AngleEnd, PartsText, PartsOk, Suffix;
    var tail := PartsText(ps) + (Mark('>', closed) + rest);
    assert AngleText(ps, closed) + rest == "\\<" + tail;
    SuffixChar(str, s, "\\<" + tail, 0);
    SuffixChar(str, s, "\\<" + tail, 1);
    SuffixSplit(str, s, "\\<", tail);
    PartsSkipped(str, s + 2, ps, closed, rest);
  }

  /** Characters that mean nothing to the scan for the closing mark. */
  lemma {:induction false} OrdinarySkipped(str: string, s: int, w: string, rest: string)
    requires Suffix(str, s, w + rest) && forall k :: 0 <= k < |w| ==> w[k] != '\\' && w[k] != '\"'
    ensures 0 <= s && DoubleEnd(str, s) == DoubleEnd(str, s + |w|)
    decreases |w|
  {
    if w != "" {
      SuffixNext(str, s, w + rest);
      assert (w + rest)[1..] == w[1..] + rest;
      OrdinarySkipped(str, s + 1, w[1..], rest);
    }
  }

  lemma EscapeSkips(str: string, s: int, c: char, rest: string)
    requires Suffix(str, s, ['\\', c] + rest) && c != '<' && !(c == '\r' && Starts(rest, '\n'))
    ensures 0 <= s && s + 2 <= |str| && str[s] == '\\' && str[s + 1] == c && Suffix(str, s + 2, rest)
    ensures DoubleEnd(str, s) == DoubleEnd(str, s + 2)
  {
    SuffixChar(str, s, ['\\', c] + rest, 0);
    SuffixChar(str, s, ['\\', c] + rest, 1);
    SuffixSplit(str, s, ['\\', c], rest);
    SuffixStarts(str, s + 2, rest, '\n');
  }

  lemma JointSkipped(str: string, s: int, eol: string, rest: string)
    requires Suffix(str, s, "\\" + eol + rest) && ItemOk(Joint(eol), rest)
    ensures 0 <= s && DoubleEnd(str, s) == DoubleEnd(str, s + 1 + |eol|)
  {
    if eol == "\r\n" {
      SuffixChar(str, s, "\\" + eol + rest, 0);
      SuffixChar(str, s, "\\" + eol + rest, 1);
      SuffixChar(str, s, "\\" + eol + rest, 2);
    } else {
      assert "\\" + eol == ['\\', eol[0]];
      EscapeSkips(str, s, eol[0], rest);
    }
  }

  /** An escape of one letter and digits behind it. */
  lemma DigitsSkipped(str: string, s: int, c: char, digits: string, rest: string)
    requires Suffix(str, s, ['\\', c] + digits + rest) && (c == 'x' || IsOctal(c)) && AllDigits(digits, 16)
    ensures 0 <= s && DoubleEnd(str, s) == DoubleEnd(str, s + 2 + |digits|)
  {
    assert ['\\', c] + digits + rest == ['\\', c] + (digits + rest);
    EscapeSkips(str, s, c, digits + rest);
    OrdinarySkipped(str, s + 2, digits, rest);
  }

  lemma OctalSkipped(str: string, s: int, digits: string, rest: string)
    requires Suffix(str, s, "\\" + digits + rest) && ItemOk(Oct(digits), rest)
    ensures 0 <= s && DoubleEnd(str, s) == DoubleEnd(str, s + 1 + |digits|)
  {
    assert "\\" + digits + rest == ['\\', digits[0]] + digits[1..] + rest;
    DigitsSkipped(str, s, digits[0], digits[1..], rest);
  }

  lemma CharSkipped(str: string, s: int, c: char, rest: string)
    requires Suffix(str, s, [c] + rest) && c != '\"' && (c == '\\' ==> rest == "")
    ensures 0 <= s && DoubleEnd(str, s) == DoubleEnd(str, s + 1)
  {
    SuffixChar(str, s, [c] + rest, 0);
    SuffixSplit(str, s, [c], rest);
  }

  lemma AngleInside(str: string, s: int, ps: seq<Part>, closed: bool, rest: string)
    requires Suffix(str, s, AngleText(ps, closed) + rest) && AngleOk(ps, closed, rest)
    ensures 0 <= s && DoubleEnd(str, s) == DoubleEnd(str, s + |AngleText(ps, closed)|)
  {
    hide SkipBackslash, AngleText, AngleOk, Suffix;
    AngleSkipped(str, s, ps, closed, rest);
  }

  lemma ItemSkipped(str: string, s: int, i: Item, rest: string)
    requires Suffix(str, s, ItemText(i) + rest) && ItemOk(i, rest)
    ensures 0 <= s && DoubleEnd(str, s) == DoubleEnd(str, s + |ItemText(i)|)
  {
    hide DoubleEnd, Suffix, AngleText, AngleOk, HexValue;
    match i
    case Chr(c) => CharSkipped(str, s, c, rest);
    case Esc(c) => EscapeSkips(str, s, c, rest);
    case Oct(digits) => OctalSkipped(str, s, digits, rest);
    case Hexa(digits) => DigitsSkipped(str, s, 'x', digits, rest);
    case Angle(parts, closed) => AngleInside(str, s, parts, closed, rest);
    case Joint(eol) => JointSkipped(str, s, eol, rest);
  }

  lemma ItemOkBefore(i: Item, x: string, more: string)
    requires ItemOk(i, x) && (x == "" ==> more == "")
    ensures ItemOk(i, x + more)
  {
    if x != "" { assert (x + more)[0] == x[0]; }
  }

  lemma ItemOkClosed(i: Item, x: string, closed: bool, rest: string)
    requires ItemOk(i, x + Mark('\"', closed)) && (!closed ==> rest == "")
    ensures ItemOk(i, x + (Mark('\"', closed) + rest))
  {
    ItemOkBefore(i, x + Mark('\"', closed), rest);
    assert x + Mark('\"', closed) + rest == x + (Mark('\"', closed) + rest);
  }

  lemma QuoteCloses(str: string, s: int, closed: bool, rest: string)
    requires Suffix(str, s, Mark('\"', closed) + rest) && (!closed ==> rest == "")
    ensures 0 <= s && DoubleEnd(str, s) == s + |Mark('\"', closed)|
  {
    MarkEnds(str, s, '\"', closed, rest);
  }

  lemma {:induction false} ItemsSkipped(str: string, s: int, items: seq<Item>, closed: bool, rest: string)
    requires Suffix(str, s, ItemsText(items) + (Mark('\"', closed) + rest))
    requires ItemsOk(items, Mark('\"', closed)) && (!closed ==> rest == "")
    ensures 0 <= s && DoubleEnd(str, s) == s + |ItemsText(items)| + |Mark('\"', closed)|
    decreases |items|
  {
    hide ItemText, ItemOk, Suffix, DoubleEnd;
    var tail := Mark('\"', closed) + rest;
    if items == [] {
      assert ItemsText(items) + tail == tail;
      QuoteCloses(str, s, closed, rest);
    } else {
      var more := ItemsText(items[1..]) + tail;
      assert ItemsText(items) + tail == ItemText(items[0]) + more;
      SuffixSplit(str, s, ItemText(items[0]), more);
      ItemOkClosed(items[0], ItemsText(items[1..]), closed, rest);
      ItemSkipped(str, s, items[0], more);
      ItemsSkipped(str, s + |ItemText(items[0])|, items[1..], closed, rest);
    }
  }

  /** A token at s is scanned whole. */
  lemma CharToken(str: string, s: int, c: char, rest: string)
    requires Suffix(str, s, [c] + rest) && TokenOk(Char(c), rest)
    ensures TokenAt(str, s, Char(c))
  {
    NoCommentAt(str, s, c, rest);
    SuffixStarts(str, s + 1, rest, '<');
  }

  ghost predicate TokenAt(str: string, s: int, t: Token) {
    && 0 <= s < |str| && !IsSpace(str[s]) && !CommentAt(str, s)
    && (t != Char(',') ==> str[s] != ',')
    && TokenEnd(str, s) == s + |TokenText(t)|
  }

  lemma SingleToken(str: string, s: int, body: string, closed: bool, rest: string)
    requires Suffix(str, s, TokenText(Single(body, closed)) + rest) && TokenOk(Single(body, closed), rest)
    ensures TokenAt(str, s, Single(body, closed))
  {
    var tail := body + Mark('\'', closed) + rest;
    assert TokenText(Single(body, closed)) + rest == "\'" + tail;
    SuffixChar(str, s, "\'" + tail, 0);
    SuffixSplit(str, s, "\'", tail);
    SingleSkipped(str, s + 1, body, closed, rest);
  }

  lemma DoubleToken(str: string, s: int, items: seq<Item>, closed: bool, rest: string)
    requires Suffix(str, s, TokenText(Double(items, closed)) + rest) && TokenOk(Double(items, closed), rest)
    ensures TokenAt(str, s, Double(items, closed))
  {
    hide DoubleEnd, ItemsText, ItemsOk, Suffix;
    var tail := ItemsText(items) + (Mark('\"', closed) + rest);
    assert TokenText(Double(items, closed)) + rest == "\"" + tail;
    SuffixChar(str, s, "\"" + tail, 0);
    SuffixSplit(str, s, "\"", tail);
    ItemsSkipped(str, s + 1, items, closed, rest);
  }

  lemma AngleToken(str: string, s: int, parts: seq<Part>, closed: bool, rest: string)
    requires Suffix(str, s, AngleText(parts, closed) + rest) && AngleOk(parts, closed, rest)
    ensures TokenAt(str, s, Bytewise(parts, closed))
  {
    hide AngleText, AngleOk, SkipBackslash, Suffix;
    AngleSkipped(str, s, parts, closed, rest);
  }

  lemma TokenSkipped(str: string, s: int, t: Token, rest: string)
    requires Suffix(str, s, TokenText(t) + rest) && TokenOk(t, rest)
    ensures TokenAt(str, s, t)
  {
    hide TokenEnd, Suffix, ItemsText, ItemsOk, AngleText, AngleOk;
    match t
    case Char(c) => CharToken(str, s, c, rest);
    case Single(body, closed) => SingleToken(str, s, body, closed, rest);
    case Double(items, closed) => DoubleToken(str, s, items, closed, rest);
    case Bytewise(parts, closed) => AngleToken(str, s, parts, closed, rest);
  }

  // ----- Comments are removed --------------------------------------------------

  /** A token behind a gap; `closed` says that the gap had a comment. */
  lemma TokenGathered(str: string, s: int, t: Token, sa: string, left: int, right: int, closed: bool, comma: bool)
    requires TokenAt(str, s, t) && (comma ==> t != Char(','))
    ensures var e := s + |TokenText(t)|;
            Gather(str, s, sa, left, right, closed, comma) ==
            if closed then Gather(str, e, sa + Sub(str, left, right) + " ", s, e, false, comma)
            else Gather(str, e, sa, left, e, false, comma)
  {
    hide TokenEnd, TokenText, IsSpace, CommentAt, Sub;
  }

  lemma SubJoin(str: string, left: int, right: int, part: string)
    requires 0 <= left < right && At(str, right, part)
    ensures Sub(str, left, right) + part == Sub(str, left, right + |part|)
  {
  }

  /** A gap and a token add the clean gap and the token. */
  lemma StepGathered(str: string, s: int, x: Step, rest: string, sa: string, left: int, comma: bool)
    returns (sa': string, left': int)
    requires Suffix(str, s, StepText(x) + rest) && StepOk(x, rest)
    requires 0 <= left < s && (comma ==> x.token != Char(','))
    ensures var e := s + |StepText(x)|;
            && 0 <= left' < e
            && Alike(str, Gather(str, s, sa, left, s, false, comma), Gather(str, e, sa', left', e, false, comma))
            && sa' + Sub(str, left', e) == sa + Sub(str, left, s) + CleanGap(x.gap) + TokenText(x.token)
  {
    hide Gather, Sub, TokenAt, BlanksText, BlanksOk, TokenText, TokenOk, HasComment, Suffix;
    var gap, token := BlanksText(x.gap), TokenText(x.token);
    assert StepText(x) + rest == gap + (token + rest);
    SuffixSplit(str, s, gap, token + rest);
    SuffixSplit(str, s + |gap|, token, rest);
    BlanksGathered(str, s, x.gap, token + rest, sa, left, s, false, comma);
    TokenSkipped(str, s + |gap|, x.token, rest);
    TokenGathered(str, s + |gap|, x.token, sa, left, s, HasComment(x.gap), comma);
    SubIsPart(str, s + |gap|, token);
    if HasComment(x.gap) {
      sa', left' := sa + Sub(str, left, s) + " ", s + |gap|;
    } else {
      sa', left' := sa, left;
      SubJoin(str, left, s, gap);
      SubJoin(str, left, s + |gap|, token);
    }
  }

  /** The argument ends where the text does, or at a comma. */
  predicate Stops(rest: string, comma: bool) {
    rest == "" || (comma && rest[0] == ',')
  }

  lemma GatherStops(str: string, s: int, rest: string, sa: string, left: int, right: int, closed: bool, comma: bool)
    requires Suffix(str, s, rest) && Stops(rest, comma)
    ensures 0 <= s
    ensures Gather(str, s, sa, left, right, closed, comma) == Gathered(sa + Sub(str, left, right), s)
  {
    SuffixStarts(str, s, rest, ',');
  }

  lemma {:induction false} StepsGathered(str: string, s: int, a: Argument, rest: string,
                                         sa: string, left: int, comma: bool)
    requires Suffix(str, s, ArgumentText(a) + rest) && ArgumentOk(a, rest) && Stops(rest, comma)
    requires 0 <= left < s && (comma ==> NoCommas(a.steps))
    ensures Alike(str, Gather(str, s, sa, left, s, false, comma),
                  Gathered(sa + Sub(str, left, s) + CleanSteps(a.steps), s + |ArgumentText(a)|))
    decreases |a.steps|
  {
    hide Gather, Sub, StepText, StepOk, BlanksText, BlanksOk, Suffix, CleanGap, TokenText, Stops, HasComment;
    var trail := BlanksText(a.trail);
    if a.steps == [] {
      assert ArgumentText(a) == trail;
      SuffixSplit(str, s, trail, rest);
      BlanksGathered(str, s, a.trail, rest, sa, left, s, false, comma);
      GatherStops(str, s + |trail|, rest, sa, left, s, HasComment(a.trail), comma);
    } else {
      var x, b := a.steps[0], Argument(a.steps[1..], a.trail);
      assert ArgumentText(a) + rest == StepText(x) + (ArgumentText(b) + rest);
      assert StepsText(b.steps) + (trail + rest) == ArgumentText(b) + rest;
      SuffixSplit(str, s, StepText(x), ArgumentText(b) + rest);
      var sa', left' := StepGathered(str, s, x, ArgumentText(b) + rest, sa, left, comma);
      StepsGathered(str, s + |StepText(x)|, b, rest, sa', left', comma);
    }
  }

  lemma NothingThere(str: string, i: nat, a: Argument, rest: string, comma: bool)
    requires Suffix(str, i, ArgumentText(a) + rest) && ArgumentOk(a, rest) && Stops(rest, comma) && a.steps == []
    ensures Alike(str, Uncomment(str, i, comma), Gathered("", i + |ArgumentText(a)|))
  {
    hide BlanksText, BlanksOk, Suffix;
    var trail := BlanksText(a.trail);
    assert ArgumentText(a) == trail;
    SuffixSplit(str, i, trail, rest);
    BlanksSkipped(str, i, a.trail, rest);
    SuffixStarts(str, i + |trail|, rest, ',');
    SkipStops(str, i + |trail|);
    GatherNothing(str, SkipCommentSpace(str, i), comma);
  }

  lemma SkipStops(str: string, s: nat)
    ensures s >= |str| || (!IsSpace(str[s]) && !CommentAt(str, s)) ==> SkipCommentSpace(str, s) == s
  {
  }

  lemma GatherNothing(str: string, s: nat, comma: bool)
    requires s >= |str| || (comma && str[s] == ',')
    ensures Gather(str, s, "", s, s, false, comma) == Gathered("", s)
  {
    SubNone(str, s);
  }

  /** The first token, behind blanks that vanish. */
  lemma FirstGathered(str: string, i: nat, x: Step, rest: string, comma: bool)
    requires Suffix(str, i, StepText(x) + rest) && StepOk(x, rest) && (comma ==> x.token != Char(','))
    ensures var s, e := i + |BlanksText(x.gap)|, i + |StepText(x)|;
            && Uncomment(str, i, comma) == Gather(str, e, "", s, e, false, comma)
            && Sub(str, s, e) == TokenText(x.token)
  {
    hide Gather, Sub, SkipCommentSpace, BlanksText, BlanksOk, TokenText, TokenOk, Suffix, TokenEnd;
    var gap, token := BlanksText(x.gap), TokenText(x.token);
    var s := i + |gap|;
    assert StepText(x) + rest == gap + (token + rest);
    SuffixSplit(str, i, gap, token + rest);
    SuffixSplit(str, s, token, rest);
    BlanksSkipped(str, i, x.gap, token + rest);
    TokenSkipped(str, s, x.token, rest);
    SkipStops(str, s);
    TokenGathered(str, s, x.token, "", s, s, false, comma);
    SubIsPart(str, s, token);
  }

  /** cp_uncomment, and each round of cp_argvec: an argument is cleaned, up to the end
      of the text or a comma outside of quotation marks. */
  lemma UncommentArgument(str: string, i: nat, a: Argument, rest: string, comma: bool)
    requires Suffix(str, i, ArgumentText(a) + rest) && ArgumentOk(a, rest) && Stops(rest, comma)
    requires comma ==> NoCommas(a.steps)
    ensures Alike(str, Uncomment(str, i, comma), Gathered(Cleaned(a), i + |ArgumentText(a)|))
  {
    hide Gather, Sub, StepText, StepOk, BlanksText, BlanksOk, Suffix, TokenText, Stops, Uncomment;
    if a.steps == [] {
      NothingThere(str, i, a, rest, comma);
    } else {
      var x, b := a.steps[0], Argument(a.steps[1..], a.trail);
      assert ArgumentText(a) + rest == StepText(x) + (ArgumentText(b) + rest);
      assert StepsText(b.steps) + (BlanksText(a.trail) + rest) == ArgumentText(b) + rest;
      SuffixSplit(str, i, StepText(x), ArgumentText(b) + rest);
      FirstGathered(str, i, x, ArgumentText(b) + rest, comma);
      StepLength(x);
      StepsGathered(str, i + |StepText(x)|, b, rest, "", i + |BlanksText(x.gap)|, comma);
    }
  }

  lemma StepLength(x: Step)
    ensures |BlanksText(x.gap)| < |StepText(x)|
  {
  }

  // ----- Splitting -------------------------------------------------------------

  lemma ArgumentRound(str: string, pos: nat, a: Argument, rest: string)
    requires Suffix(str, pos, ArgumentText(a) + rest) && ArgumentOk(a, rest) && Stops(rest, true)
    requires NoCommas(a.steps) && pos < |str|
    ensures var e := pos + |ArgumentText(a)|;
            Arguments(str, pos) ==
            (if rest == "" && Cleaned(a) == "" then [] else [Cleaned(a)])
            + (if rest == "" then [] else Arguments(str, e + 1))
  {
    hide Uncomment, ArgumentText, ArgumentOk, NoCommas, Cleaned, Suffix;
    UncommentArgument(str, pos, a, rest, true);
    SuffixSplit(str, pos, ArgumentText(a), rest);
  }

  lemma EmptyText(a: Argument)
    ensures ArgumentText(a) == "" ==> Cleaned(a) == ""
  {
  }

  lemma {:induction false} SplitFrom(str: string, pos: nat, args: seq<Argument>)
    requires args != [] && Suffix(str, pos, Commas(args)) && ArgumentsOk(args)
    ensures Arguments(str, pos) == Given(args)
    decreases |args|
  {
    hide Arguments, ArgumentText, ArgumentOk, Cleaned, Suffix;
    var a, rest := args[0], Behind(args[1..]);
    SuffixSplit(str, pos, ArgumentText(a), rest);
    if pos == |str| {
      EmptyText(a);
      ArgumentsDone(str, pos);
    } else {
      ArgumentRound(str, pos, a, rest);
    }
    if rest != "" {
      var e := pos + |ArgumentText(a)|;
      assert rest == "," + Commas(args[1..]);
      SuffixSplit(str, e, ",", Commas(args[1..]));
      SplitFrom(str, e + 1, args[1..]);
    }
  }

  /** cp_argvec splits any list of arguments: every one comes back without its comments
      and outer blanks, and only an empty last one is dropped. */
  lemma SplitArguments(args: seq<Argument>)
    requires ArgumentsOk(args)
    ensures Arguments(Commas(args), 0) == Given(args)
  {
    if args != [] { SplitFrom(Commas(args), 0, args); }
  }

  // ----- Escapes ---------------------------------------------------------------

  /** "\x" takes every digit there is; `done` are those read so far. */
  lemma {:induction false} HexadecimalReads(str: string, s: int, done: string, digits: string, rest: string)
    requires Suffix(str, s, digits + rest) && ItemOk(Hexa(digits), rest)
    ensures 0 <= s <= |str|
    ensures Hexadecimal(str, s, Value(done, 16)) == Escape([ToChar(Value(done + digits, 16))], s + |digits|)
    decreases |digits|
  {
    hide HexValue, Value, ToChar;
    if digits == "" {
      assert digits + rest == rest && done + digits == done;
      if rest != "" { SuffixChar(str, s, rest, 0); }
    } else {
      SuffixNext(str, s, digits + rest);
      assert (digits + rest)[1..] == digits[1..] + rest;
      assert done + [digits[0]] + digits[1..] == done + digits;
      OneMoreDigit(done, digits[0], 16);
      HexadecimalReads(str, s + 1, done + [digits[0]], digits[1..], rest);
    }
  }

  predicate OctalRun(done: string, digits: string, rest: string) {
    && |done| + |digits| <= 3 && (forall k :: 0 <= k < |digits| ==> IsOctal(digits[k]))
    && (|done| + |digits| < 3 ==> rest == "" || !IsOctal(rest[0]))
  }

  lemma {:induction false} OctalRunReads(str: string, s: int, done: string, digits: string, rest: string)
    requires Suffix(str, s, digits + rest) && OctalRun(done, digits, rest)
    ensures 0 <= s <= |str|
    ensures Octal(str, s, Value(done, 8), |done|) == Escape([ToChar(Value(done + digits, 8))], s + |digits|)
    decreases |digits|
  {
    hide Value, ToChar;
    if digits == "" {
      assert digits + rest == rest && done + digits == done;
      if rest != "" { SuffixChar(str, s, rest, 0); }
    } else {
      SuffixNext(str, s, digits + rest);
      assert (digits + rest)[1..] == digits[1..] + rest;
      assert done + [digits[0]] + digits[1..] == done + digits;
      OneMoreDigit(done, digits[0], 8);
      OctalRunReads(str, s + 1, done + [digits[0]], digits[1..], rest);
    }
  }

  lemma NumeralsShort(c: char, base: nat)
    ensures Value("", base) == 0 && Value([c], base) == HexValue(c)
  {
    OneMoreDigit("", c, base);
    assert "" + [c] == [c];
  }

  lemma PairFirst(a: char, b: char, more: string)
    ensures PairBytes([a, b] + more) == [ToChar(Value([a, b], 16))] + PairBytes(more)
    ensures Value([a, b], 16) == HexValue(a) * 16 + HexValue(b)
  {
    assert ([a, b] + more)[..2] == [a, b] && ([a, b] + more)[2..] == more;
    OneMoreDigit([a], b, 16);
    assert [a] + [b] == [a, b];
    NumeralsShort(a, 16);
  }

  /** The digit that waits for its partner behind part p. */
  function Pending(pending: string, p: Part): string {
    if PartDigits(p) == "" then pending else if pending == "" then PartDigits(p) else ""
  }

  lemma DigitReads(str: string, s: int, pending: string, c: char, more: string, end: int)
    requires 0 <= s < |str| && str[s] == c && HexValue(c) >= 0 && |pending| <= 1
    requires var next := if pending == "" then [c] else "";
             Binary(str, s + 1, Value(next, 16), |next|) == Escape(PairBytes(next + more), end)
    ensures Binary(str, s, Value(pending, 16), |pending|) == Escape(PairBytes(pending + [c] + more), end)
  {
    hide PairBytes, Value, ToChar;
    NumeralsShort(c, 16);
    if pending == "" {
      assert [c] + more == pending + [c] + more;
    } else {
      assert pending == [pending[0]] && pending + [c] + more == [pending[0], c] + more && "" + more == more;
      NumeralsShort(pending[0], 16);
      PairFirst(pending[0], c, more);
    }
  }

  lemma OtherReads(str: string, s: int, p: Part, rest: string, c: int, d: nat)
    requires Suffix(str, s, PartText(p) + rest) && PartOk(p, rest) && !(p.Raw? && HexValue(p.c) >= 0)
    ensures 0 <= s && Binary(str, s, c, d) == Binary(str, s + |PartText(p)|, c, d)
  {
    hide Suffix, BlankText, BlankOk, SkipComment, CommentAt, OpensComment;
    match p
    case Raw(x) => NoCommentAt(str, s, x, rest);
    case Note(b) =>
      CommentSkips(str, s, b, rest);
      CommentIsSlash(str, s);
  }

  lemma BinaryStops(str: string, s: int, c: int, d: nat, closed: bool, rest: string)
    requires Suffix(str, s, Mark('>', closed) + rest) && (!closed ==> rest == "")
    ensures 0 <= s && Binary(str, s, c, d) == Escape("", s + |Mark('>', closed)|)
  {
    MarkEnds(str, s, '>', closed, rest);
  }

  lemma PartReads(str: string, s: int, pending: string, p: Part, rest: string, more: string, end: int)
    requires Suffix(str, s, PartText(p) + rest) && PartOk(p, rest) && |pending| <= 1
    requires var next := Pending(pending, p);
             && 0 <= s + |PartText(p)|
             && Binary(str, s + |PartText(p)|, Value(next, 16), |next|) == Escape(PairBytes(next + more), end)
    ensures 0 <= s
    ensures Binary(str, s, Value(pending, 16), |pending|) == Escape(PairBytes(pending + PartDigits(p) + more), end)
  {
    hide Binary, Value, PairBytes, HexValue, PartOk, Suffix;
    if PartDigits(p) == "" {
      OtherReads(str, s, p, rest, Value(pending, 16), |pending|);
      assert pending + PartDigits(p) + more == pending + more;
    } else {
      SuffixChar(str, s, PartText(p) + rest, 0);
      DigitReads(str, s, pending, p.c, more, end);
    }
  }

  /** "\<...>" pairs its digits, whatever stands between them. */
  lemma {:induction false} PartsRead(str: string, s: int, pending: string, ps: seq<Part>, closed: bool, rest: string)
    requires Suffix(str, s, PartsText(ps) + (Mark('>', closed) + rest))
    requires PartsOk(ps, Mark('>', closed)) && (!closed ==> rest == "") && |pending| <= 1
    ensures 0 <= s
    ensures Binary(str, s, Value(pending, 16), |pending|)
         == Escape(PairBytes(pending + PartsDigits(ps)), s + |PartsText(ps)| + |Mark('>', closed)|)
    decreases |ps|
  {
    hide PartOk, Suffix, Binary, Value, PartDigits, PartText, Mark;
    var tail := Mark('>', closed) + rest;
    if ps == [] {
      assert PartsText(ps) + tail == tail && PairBytes(pending + PartsDigits(ps)) == "";
      BinaryStops(str, s, Value(pending, 16), |pending|, closed, rest);
    } else {
      var p, more, digits := ps[0], PartsText(ps[1..]) + tail, PartsDigits(ps[1..]);
      assert PartsText(ps) + tail == PartText(p) + more;
      SuffixSplit(str, s, PartText(p), more);
      PartOkClosed(p, PartsText(ps[1..]), closed, rest);
      PendingShort(pending, p);
      PartsRead(str, s + |PartText(p)|, Pending(pending, p), ps[1..], closed, rest);
      PartReads(str, s, pending, p, more, digits, s + |PartsText(ps)| + |Mark('>', closed)|);
      assert pending + PartDigits(p) + digits == pending + PartsDigits(ps);
    }
  }

  lemma PendingShort(pending: string, p: Part)
    requires |pending| <= 1
    ensures |Pending(pending, p)| <= 1
  {
  }

  lemma AngleReads(str: string, s: int, ps: seq<Part>, closed: bool, rest: string)
    requires Suffix(str, s, AngleText(ps, closed) + rest) && AngleOk(ps, closed, rest)
    ensures 0 <= s && s + 1 < |str| && str[s] == '\\' && str[s + 1] == '<'
    ensures Process(str, s) == Escape(PairBytes(PartsDigits(ps)), s + |AngleText(ps, closed)|)
  {
    hide Binary, PartsText, PartsOk, Suffix, Mark, PairBytes, PartsDigits;
    var tail := PartsText(ps) + (Mark('>', closed) + rest);
    assert AngleText(ps, closed) + rest == "\\<" + tail;
    SuffixChar(str, s, "\\<" + tail, 0);
    SuffixChar(str, s, "\\<" + tail, 1);
    SuffixSplit(str, s, "\\<", tail);
    PartsRead(str, s + 2, "", ps, closed, rest);
    assert "" + PartsDigits(ps) == PartsDigits(ps);
  }

  lemma OctalEscape(str: string, s: int, digits: string, rest: string)
    requires Suffix(str, s, "\\" + digits + rest) && ItemOk(Oct(digits), rest)
    ensures Expands(str, s, Oct(digits))
  {
    hide Octal, Suffix;
    assert "\\" + digits + rest == "\\" + (digits + rest);
    SuffixChar(str, s, "\\" + (digits + rest), 0);
    SuffixChar(str, s, "\\" + (digits + rest), 1);
    SuffixSplit(str, s, "\\", digits + rest);
    assert "" + digits == digits;
    OctalRunReads(str, s + 1, "", digits, rest);
  }

  ghost predicate Expands(str: string, s: int, i: Item) {
    && 0 <= s && s + 1 < |str| && str[s] == '\\'
    && Process(str, s) == Escape(ItemMeaning(i), s + |ItemText(i)|)
  }

  lemma HexadecimalEscape(str: string, s: int, digits: string, rest: string)
    requires Suffix(str, s, "\\x" + digits + rest) && ItemOk(Hexa(digits), rest)
    ensures Expands(str, s, Hexa(digits))
  {
    hide Hexadecimal, Suffix, HexValue;
    assert "\\x" + digits + rest == "\\x" + (digits + rest);
    SuffixChar(str, s, "\\x" + (digits + rest), 0);
    SuffixChar(str, s, "\\x" + (digits + rest), 1);
    SuffixSplit(str, s, "\\x", digits + rest);
    assert "" + digits == digits;
    HexadecimalReads(str, s + 2, "", digits, rest);
  }

  lemma LetterEscape(str: string, s: int, c: char, rest: string)
    requires Suffix(str, s, ['\\', c] + rest) && ItemOk(Esc(c), rest)
    ensures Expands(str, s, Esc(c))
  {
    hide Suffix;
    SuffixChar(str, s, ['\\', c] + rest, 0);
    SuffixChar(str, s, ['\\', c] + rest, 1);
  }

  lemma JointEscape(str: string, s: int, eol: string, rest: string)
    requires Suffix(str, s, "\\" + eol + rest) && ItemOk(Joint(eol), rest)
    ensures Expands(str, s, Joint(eol))
  {
    hide Suffix;
    assert "\\" + eol + rest == "\\" + eol + rest;
    SuffixChar(str, s, "\\" + eol + rest, 0);
    SuffixChar(str, s, "\\" + eol + rest, 1);
    SuffixSplit(str, s, "\\" + eol, rest);
    if |eol| == 2 { SuffixChar(str, s, "\\" + eol + rest, 2); }
    SuffixStarts(str, s + 1 + |eol|, rest, '\n');
  }

  /** cp_process_backslash: what each escape stands for, and where it ends. */
  lemma EscapeExpands(str: string, s: int, i: Item, rest: string)
    requires Suffix(str, s, ItemText(i) + rest) && ItemOk(i, rest) && !i.Chr?
    ensures Expands(str, s, i)
  {
    hide Suffix, Process, AngleText, AngleOk, HexValue, ToChar, Value, PairBytes, Letter;
    match i
    case Esc(c) => LetterEscape(str, s, c, rest);
    case Oct(digits) => OctalEscape(str, s, digits, rest);
    case Hexa(digits) => HexadecimalEscape(str, s, digits, rest);
    case Angle(parts, closed) => AngleReads(str, s, parts, closed, rest);
    case Joint(eol) => JointEscape(str, s, eol, rest);
  }

  lemma DigitBack(v: nat)
    requires v < 16
    ensures HexValue(HexChar(v)) == v
  {
  }

  /** Two digits name any byte. */
  lemma HexadecimalPair(str: string, s: int, c: char, rest: string)
    requires c as int < 256 && (rest == "" || HexValue(rest[0]) < 0)
    requires Suffix(str, s, "\\x" + [HexChar(c as int / 16), HexChar(c as int % 16)] + rest)
    ensures 0 <= s < |str| && str[s] == '\\' && Process(str, s) == Escape([c], s + 4)
  {
    hide HexChar, HexValue, Suffix, Process, Value;
    var a, b := HexChar(c as int / 16), HexChar(c as int % 16);
    DigitBack(c as int / 16);
    DigitBack(c as int % 16);
    PairFirst(a, b, "");
    HexadecimalEscape(str, s, [a, b], rest);
  }

  // ----- Unquoting -------------------------------------------------------------

  lemma CharDecodes(str: string, s: int, c: char, rest: string)
    requires Suffix(str, s, [c] + rest) && ItemOk(Chr(c), rest)
    ensures 0 <= s < |str| && Decoded(str, s, '\"') == [c] + Decoded(str, s + 1, '\"')
  {
    SuffixChar(str, s, [c] + rest, 0);
    SuffixSplit(str, s, [c], rest);
  }

  lemma EscapeDecodes(str: string, s: int, i: Item)
    requires Expands(str, s, i) && s + |ItemText(i)| <= |str|
    ensures Decoded(str, s, '\"') == ItemMeaning(i) + Decoded(str, s + |ItemText(i)|, '\"')
  {
    hide Process, ItemMeaning, ItemText;
  }

  /** Inside double quotes: escapes expand, other characters stand for themselves. */
  lemma ItemDecodes(str: string, s: int, i: Item, rest: string)
    requires Suffix(str, s, ItemText(i) + rest) && ItemOk(i, rest)
    ensures 0 <= s && s + |ItemText(i)| <= |str|
    ensures Decoded(str, s, '\"') == ItemMeaning(i) + Decoded(str, s + |ItemText(i)|, '\"')
  {
    hide Decoded, ItemOk, Suffix, Expands;
    SuffixSplit(str, s, ItemText(i), rest);
    if i.Chr? {
      CharDecodes(str, s, i.c, rest);
    } else {
      EscapeExpands(str, s, i, rest);
      EscapeDecodes(str, s, i);
    }
  }

  lemma {:induction false} ItemsDecode(str: string, s: int, items: seq<Item>, closed: bool, rest: string)
    requires Suffix(str, s, ItemsText(items) + (Mark('\"', closed) + rest))
    requires ItemsOk(items, Mark('\"', closed)) && (!closed ==> rest == "")
    ensures var e := s + |ItemsText(items)|;
            && 0 <= s && e <= |str| && Suffix(str, e, Mark('\"', closed) + rest)
            && Decoded(str, s, '\"') == ItemsMeaning(items) + Decoded(str, e, '\"')
    decreases |items|
  {
    hide ItemText, ItemMeaning, ItemOk, Suffix, Decoded, Mark;
    var tail := Mark('\"', closed) + rest;
    SuffixSplit(str, s, ItemsText(items), tail);
    if items != [] {
      var more := ItemsText(items[1..]) + tail;
      assert ItemsText(items) + tail == ItemText(items[0]) + more;
      SuffixSplit(str, s, ItemText(items[0]), more);
      ItemOkClosed(items[0], ItemsText(items[1..]), closed, rest);
      ItemDecodes(str, s, items[0], more);
      ItemsDecode(str, s + |ItemText(items[0])|, items[1..], closed, rest);
    }
  }

  /** A closing mark, or the end of the text, ends quoting. */
  lemma MarkDecodes(str: string, s: int, c: char, closed: bool, rest: string)
    requires Suffix(str, s, Mark(c, closed) + rest) && IsQuote(c) && (!closed ==> rest == "")
    ensures 0 <= s && s + |Mark(c, closed)| <= |str|
    ensures Decoded(str, s, c) == Decoded(str, s + |Mark(c, closed)|, NONE)
  {
    MarkEnds(str, s, c, closed, rest);
  }

  lemma OpeningDecodes(str: string, s: int, c: char, rest: string)
    requires Suffix(str, s, [c] + rest) && IsQuote(c)
    ensures 0 <= s < |str| && Decoded(str, s, NONE) == Decoded(str, s + 1, c) && Suffix(str, s + 1, rest)
  {
    SuffixSplit(str, s, [c], rest);
    SuffixChar(str, s, [c] + rest, 0);
  }

  lemma SingleStep(str: string, s: int)
    requires 0 <= s < |str| && str[s] != '\''
    ensures Decoded(str, s, '\'') == [str[s]] + Decoded(str, s + 1, '\'')
  {
  }

  /** Inside single quotes every character stands for itself. */
  lemma {:induction false} SingleDecodes(str: string, s: int, body: string, rest: string)
    requires Suffix(str, s, body + rest) && '\'' !in body
    ensures 0 <= s && s + |body| <= |str| && Suffix(str, s + |body|, rest)
    ensures Decoded(str, s, '\'') == body + Decoded(str, s + |body|, '\'')
    decreases |body|
  {
    hide Decoded;
    SuffixSplit(str, s, body, rest);
    if body != "" {
      SuffixNext(str, s, body + rest);
      assert (body + rest)[1..] == body[1..] + rest;
      SingleStep(str, s);
      SingleDecodes(str, s + 1, body[1..], rest);
      assert body == [body[0]] + body[1..];
    }
  }

  ghost predicate StandsFor(str: string, s: int, part: string, meaning: string) {
    && 0 <= s && s + |part| <= |str|
    && Decoded(str, s, NONE) == meaning + Decoded(str, s + |part|, NONE)
  }

  lemma StandTogether(str: string, s: int, a: string, m: string, b: string, n: string)
    requires StandsFor(str, s, a, m) && StandsFor(str, s + |a|, b, n)
    ensures StandsFor(str, s, a + b, m + n)
  {
    hide Decoded;
    var d := Decoded(str, s + |a + b|, NONE);
    assert m + n + d == m + (n + d);
  }

  lemma NothingStands(str: string, s: int)
    requires 0 <= s <= |str|
    ensures StandsFor(str, s, "", "")
  {
  }

  lemma PlainDecodes(str: string, s: int, c: char, rest: string)
    requires Suffix(str, s, [c] + rest) && !IsQuote(c) && (c == '\\' ==> !Starts(rest, '<'))
    ensures StandsFor(str, s, [c], [c])
  {
    SuffixChar(str, s, [c] + rest, 0);
    SuffixSplit(str, s, [c], rest);
    SuffixStarts(str, s + 1, rest, '<');
  }

  lemma SingleMeans(str: string, s: int, body: string, closed: bool, rest: string)
    requires Suffix(str, s, TokenText(Single(body, closed)) + rest) && TokenOk(Single(body, closed), rest)
    ensures StandsFor(str, s, TokenText(Single(body, closed)), body)
  {
    hide Decoded, Suffix, Mark;
    var tail := body + (Mark('\'', closed) + rest);
    assert TokenText(Single(body, closed)) + rest == ['\''] + tail;
    OpeningDecodes(str, s, '\'', tail);
    SingleDecodes(str, s + 1, body, Mark('\'', closed) + rest);
    MarkDecodes(str, s + 1 + |body|, '\'', closed, rest);
  }

  lemma DoubleMeans(str: string, s: int, items: seq<Item>, closed: bool, rest: string)
    requires Suffix(str, s, TokenText(Double(items, closed)) + rest) && TokenOk(Double(items, closed), rest)
    ensures StandsFor(str, s, TokenText(Double(items, closed)), ItemsMeaning(items))
  {
    hide Decoded, Suffix, Mark, ItemsText, ItemsOk, ItemsMeaning;
    var tail := ItemsText(items) + (Mark('\"', closed) + rest);
    assert TokenText(Double(items, closed)) + rest == ['\"'] + tail;
    OpeningDecodes(str, s, '\"', tail);
    ItemsDecode(str, s + 1, items, closed, rest);
    MarkDecodes(str, s + 1 + |ItemsText(items)|, '\"', closed, rest);
  }

  lemma AngleMeans(str: string, s: int, parts: seq<Part>, closed: bool, rest: string)
    requires Suffix(str, s, AngleText(parts, closed) + rest) && AngleOk(parts, closed, rest)
    ensures StandsFor(str, s, AngleText(parts, closed), PairBytes(PartsDigits(parts)))
  {
    hide Suffix, AngleText, AngleOk, Process, PairBytes, PartsDigits;
    AngleReads(str, s, parts, closed, rest);
    SuffixSplit(str, s, AngleText(parts, closed), rest);
  }

  /** Every token stands for its meaning. */
  lemma TokenMeans(str: string, s: int, t: Token, rest: string)
    requires Suffix(str, s, TokenText(t) + rest) && TokenOk(t, rest)
    ensures StandsFor(str, s, TokenText(t), TokenMeaning(t))
  {
    hide StandsFor, Suffix, AngleText, AngleOk, ItemsText, ItemsOk, ItemsMeaning, PairBytes, OpensComment;
    match t
    case Char(c) => PlainDecodes(str, s, c, rest);
    case Single(body, closed) => SingleMeans(str, s, body, closed, rest);
    case Double(items, closed) => DoubleMeans(str, s, items, closed, rest);
    case Bytewise(parts, closed) => AngleMeans(str, s, parts, closed, rest);
  }

  // ----- Clean arguments -------------------------------------------------------

  function Tidy(steps: seq<Step>): seq<Step> {
    if steps == [] then []
    else
      var x := steps[0];
      [Step(if HasComment(x.gap) then [Space(' ')] else x.gap, x.token)] + Tidy(steps[1..])
  }

  /** The same argument, with a space for every comment. */
  function Clean(a: Argument): Argument {
    Argument(if a.steps == [] then [] else [Step([], a.steps[0].token)] + Tidy(a.steps[1..]), [])
  }

  predicate Commentless(steps: seq<Step>) {
    steps == [] || (!HasComment(steps[0].gap) && Commentless(steps[1..]))
  }

  lemma OneSpace()
    ensures BlanksText([Space(' ')]) == " " && !HasComment([Space(' ')]) && BlanksText([]) == "" && !HasComment([])
  {
    assert BlanksText([Space(' ')]) == BlankText(Space(' ')) + BlanksText([]);
  }

  lemma {:induction false} TidyKeeps(steps: seq<Step>)
    ensures StepsText(Tidy(steps)) == CleanSteps(steps) && MeaningSteps(Tidy(steps)) == MeaningSteps(steps)
    ensures CleanSteps(Tidy(steps)) == CleanSteps(steps) && Commentless(Tidy(steps))
    decreases |steps|
  {
    hide HasComment, BlanksText, TokenText, TokenMeaning;
    OneSpace();
    if steps != [] {
      var x, y := steps[0], Tidy(steps)[0];
      assert Tidy(steps)[1..] == Tidy(steps[1..]);
      assert CleanGap(y.gap) == BlanksText(y.gap) == CleanGap(x.gap);
      TidyKeeps(steps[1..]);
    }
  }

  /** x begins like y, or with a space, or is empty. */
  predicate Leads(x: string, y: string) {
    (x == "" || (y != "" && (IsSpace(x[0]) || x[0] == y[0])))
  }

  lemma TokenOkLeads(t: Token, x: string, y: string)
    requires TokenOk(t, y) && Leads(x, y)
    ensures TokenOk(t, x)
  {
  }

  lemma GapLeads(gap: seq<Blank>, token: string, x: string, y: string)
    requires token != "" && BlanksOk(gap, token + y)
    ensures Leads((if HasComment(gap) then " " else BlanksText(gap)) + token + x, BlanksText(gap) + token + y)
  {
    if gap != [] { assert BlankText(gap[0]) != ""; }
  }

  lemma {:induction false} TidyLeads(steps: seq<Step>, tail: string)
    requires StepsOk(steps, tail)
    ensures Leads(StepsText(Tidy(steps)), StepsText(steps) + tail)
  {
    hide HasComment, BlanksText, TokenText, Leads, TokenOk, BlanksOk;
    if steps == [] {
      LeadsNone(StepsText(steps) + tail);
    } else {
      OneSpace();
      var x, more := steps[0], StepsText(steps[1..]) + tail;
      var gap := if HasComment(x.gap) then " " else BlanksText(x.gap);
      assert Tidy(steps)[1..] == Tidy(steps[1..]);
      assert StepsText(Tidy(steps)) == gap + TokenText(x.token) + StepsText(Tidy(steps[1..]));
      assert StepsText(steps) + tail == BlanksText(x.gap) + TokenText(x.token) + more;
      GapLeads(x.gap, TokenText(x.token), StepsText(Tidy(steps[1..])), more);
    }
  }

  lemma LeadsNone(y: string)
    ensures Leads("", y)
  {
  }

  lemma {:induction false} SpacesOk(gap: seq<Blank>, rest: string, rest': string)
    requires BlanksOk(gap, rest) && !HasComment(gap)
    ensures BlanksOk(gap, rest')
    decreases |gap|
  {
    if gap != [] { SpacesOk(gap[1..], rest, rest'); }
  }

  lemma {:induction false} TidyOk(steps: seq<Step>, tail: string)
    requires StepsOk(steps, tail)
    ensures StepsOk(Tidy(steps), "")
    decreases |steps|
  {
    hide HasComment, BlanksText, TokenText, Leads, TokenOk, BlanksOk, BlankOk;
    if steps != [] {
      var x, y := steps[0], Tidy(steps)[0];
      var more, rest := StepsText(Tidy(steps[1..])), StepsText(steps[1..]) + tail;
      assert Tidy(steps)[1..] == Tidy(steps[1..]) && more + "" == more;
      TidyOk(steps[1..], tail);
      TidyLeads(steps[1..], tail);
      TokenOkLeads(x.token, more, rest);
      if HasComment(x.gap) {
        OneSpaceOk(TokenText(x.token) + more);
      } else {
        SpacesOk(x.gap, TokenText(x.token) + rest, TokenText(x.token) + more);
      }
    }
  }

  lemma OneSpaceOk(rest: string)
    ensures BlanksOk([Space(' ')], rest) && BlanksOk([], rest)
  {
  }

  lemma CleanOk(a: Argument, rest: string)
    requires ArgumentOk(a, rest)
    ensures ArgumentOk(Clean(a), "") && ArgumentText(Clean(a)) == Cleaned(a) == Cleaned(Clean(a))
    ensures StepsOk(Clean(a).steps, "") && StepsText(Clean(a).steps) == Cleaned(a) && Commentless(Clean(a).steps)
    ensures MeaningSteps(Clean(a).steps) == Meaning(a) == Meaning(Clean(a))
  {
    hide HasComment, BlanksText, TokenText, Leads, TokenOk, BlanksOk, TokenMeaning;
    OneSpace();
    assert BlanksText([]) + "" == "";
    if a.steps != [] {
      var t, more, tail := a.steps[0].token, a.steps[1..], BlanksText(a.trail) + rest;
      assert Clean(a).steps[1..] == Tidy(more);
      TidyKeeps(more);
      TidyOk(more, tail);
      TidyLeads(more, tail);
      TokenOkLeads(t, StepsText(Tidy(more)), StepsText(more) + tail);
      assert StepsText(Tidy(more)) + "" == StepsText(Tidy(more));
      OneSpaceOk(TokenText(t) + StepsText(Tidy(more)));
    }
    OneSpaceOk("");
  }

  lemma {:induction false} GapDecodes(str: string, s: int, gap: seq<Blank>, rest: string)
    requires Suffix(str, s, BlanksText(gap) + rest) && BlanksOk(gap, rest) && !HasComment(gap)
    ensures StandsFor(str, s, BlanksText(gap), BlanksText(gap))
    decreases |gap|
  {
    hide StandsFor, Suffix, IsSpace;
    if gap == [] {
      SuffixSplit(str, s, "", rest);
      NothingStands(str, s);
    } else {
      var c, more := gap[0].c, BlanksText(gap[1..]) + rest;
      assert BlanksText(gap) + rest == [c] + more;
      SpaceIsPlain(c);
      PlainDecodes(str, s, c, more);
      SuffixSplit(str, s, [c], more);
      GapDecodes(str, s + 1, gap[1..], rest);
      StandTogether(str, s, [c], [c], BlanksText(gap[1..]), BlanksText(gap[1..]));
    }
  }

  lemma SpaceIsPlain(c: char)
    ensures IsSpace(c) ==> !IsQuote(c) && c != '\\'
  {
  }

  lemma StepDecodes(str: string, s: int, x: Step, rest: string)
    requires Suffix(str, s, StepText(x) + rest) && StepOk(x, rest) && !HasComment(x.gap)
    ensures StandsFor(str, s, StepText(x), CleanGap(x.gap) + TokenMeaning(x.token))
  {
    hide StandsFor, TokenText, TokenMeaning, TokenOk, BlanksText, BlanksOk, HasComment, Suffix;
    var gap, token := BlanksText(x.gap), TokenText(x.token);
    assert StepText(x) + rest == gap + (token + rest);
    SuffixSplit(str, s, gap, token + rest);
    GapDecodes(str, s, x.gap, token + rest);
    TokenMeans(str, s + |gap|, x.token, rest);
    StandTogether(str, s, gap, gap, token, TokenMeaning(x.token));
  }

  lemma {:induction false} StepsDecode(str: string, s: int, steps: seq<Step>)
    requires Suffix(str, s, StepsText(steps)) && StepsOk(steps, "") && Commentless(steps)
    ensures 0 <= s <= |str| && Decoded(str, s, NONE) == MeaningSteps(steps)
    decreases |steps|
  {
    hide Decoded, StepText, StepOk, CleanGap, TokenMeaning, HasComment, Suffix;
    if steps == [] {
      DecodedNone(str, s);
    } else {
      var x, more := steps[0], StepsText(steps[1..]);
      assert more + "" == more;
      SuffixSplit(str, s, StepText(x), more);
      StepDecodes(str, s, x, more);
      StepsDecode(str, s + |StepText(x)|, steps[1..]);
    }
  }

  lemma DecodedNone(str: string, s: int)
    requires Suffix(str, s, "")
    ensures 0 <= s <= |str| && Decoded(str, s, NONE) == ""
  {
    assert |str[s..]| == 0;
  }

  /** cp_unquote, on any argument: what its tokens stand for, with the blanks between
      them cleaned. */
  lemma UnquoteArgument(a: Argument)
    requires ArgumentOk(a, "")
    ensures Unquoted(ArgumentText(a)) == Meaning(a)
  {
    hide ArgumentText, Decoded, Uncomment, Cleaned, Clean, StepsText, StepsOk, MeaningSteps, Meaning;
    var str := ArgumentText(a);
    assert str + "" == str && str[0..] == str;
    UncommentArgument(str, 0, a, "", false);
    CleanDecodes(a, "");
  }

  lemma CleanDecodes(a: Argument, rest: string)
    requires ArgumentOk(a, rest)
    ensures Decoded(Cleaned(a), 0, NONE) == Meaning(a)
  {
    hide Decoded, Cleaned, StepsText, StepsOk, MeaningSteps, Meaning, Clean;
    CleanOk(a, rest);
    assert Cleaned(a)[0..] == Cleaned(a);
    StepsDecode(Cleaned(a), 0, Clean(a).steps);
  }

  lemma CleanUnquotes(a: Argument, rest: string)
    requires ArgumentOk(a, rest)
    ensures Unquoted(Cleaned(a)) == Meaning(a)
  {
    hide *;
    CleanOk(a, rest);
    UnquoteArgument(Clean(a));
  }

  lemma {:induction false} GivenMeans(args: seq<Argument>, i: nat)
    requires ArgumentsOk(args) && i < |Given(args)|
    ensures i < |args| && Unquoted(Given(args)[i]) == Meaning(args[i])
  {
    hide Unquoted, Meaning, ArgumentOk, Cleaned;
    if i == 0 {
      CleanUnquotes(args[0], Behind(args[1..]));
    } else {
      GivenMeans(args[1..], i - 1);
    }
  }

  /** Splitting a configuration string and unquoting what comes out gives the meanings
      of the arguments that it was made of. */
  lemma SplitAndUnquote(args: seq<Argument>)
    requires ArgumentsOk(args)
    ensures var conf := Arguments(Commas(args), 0);
            && |args| - 1 <= |conf| <= |args|
            && forall i :: 0 <= i < |conf| ==> Unquoted(conf[i]) == Meaning(args[i])
  {
    hide Unquoted, Meaning, Arguments, Commas, ArgumentsOk;
    SplitArguments(args);
    GivenLength(args);
    forall i | 0 <= i < |Given(args)| ensures Unquoted(Given(args)[i]) == Meaning(args[i]) {
      GivenMeans(args, i);
    }
  }

  lemma {:induction false} GivenLength(args: seq<Argument>)
    ensures |args| - 1 <= |Given(args)| <= |args|
    ensures |Given(args)| == |args| <==> args == [] || Cleaned(args[|args| - 1]) != ""
  {
    hide Cleaned;
    if |args| > 1 { GivenLength(args[1..]); }
  }

  // ----- Examples --------------------------------------------------------------

  /** A word of one character. */
  function One(c: char): Argument {
    Argument([Step([], Char(c))], [])
  }

  lemma OneIs(c: char, rest: string)
    requires Plain(c)
    ensures ArgumentOk(One(c), rest) && ArgumentText(One(c)) == Cleaned(One(c)) == [c]
    ensures NoCommas(One(c).steps)
  {
    var a := One(c);
    assert a.steps[1..] == [] && StepText(a.steps[0]) == [c];
    assert StepsText(a.steps[1..]) == "" && BlanksText([]) == "";
  }

  lemma NoneIs(rest: string)
    ensures var a := Argument([], []); ArgumentOk(a, rest) && ArgumentText(a) == Cleaned(a) == ""
  {
  }

  /** An empty argument in the middle counts. */
  lemma EmptyInTheMiddle()
    ensures Arguments("1,,3", 0) == ["1", "", "3"]
  {
    hide ArgumentOk, ArgumentText, Cleaned, Arguments;
    var args := [One('1'), Argument([], []), One('3')];
    assert args[1..] == [Argument([], []), One('3')] && args[1..][1..] == [One('3')];
    assert args[1..][1..][1..] == [];
    OneIs('3', "");
    assert Behind(args[1..][1..]) == ",3";
    NoneIs(",3");
    assert Behind(args[1..]) == ",,3";
    OneIs('1', ",,3");
    assert Commas(args) == "1,,3";
    SplitArguments(args);
  }

  lemma HexadecimalItem()
    ensures var items := [Hexa("41")];
            ItemsText(items) == "\\x41" && ItemsOk(items, "\"") && ItemsMeaning(items) == "A"
  {
    var items := [Hexa("41")];
    assert items[1..] == [];
    PairFirst('4', '1', "");
    assert "41" == ['4', '1'];
  }

  /** A hexadecimal escape between double quotes. */
  lemma HexadecimalExample()
    ensures Unquoted("\"\\x41\"") == "A"
  {
    hide ItemsText, ItemsOk, ItemsMeaning, Unquoted;
    var t := Double([Hexa("41")], true);
    var a := Argument([Step([], t)], []);
    HexadecimalItem();
    assert a.steps[1..] == [] && BlanksText([]) == "" && StepsText([]) == "" && MeaningSteps([]) == "";
    var text := TokenText(t);
    assert text == "\"" + "\\x41" + "\"" == "\"\\x41\"";
    assert StepText(a.steps[0]) == text;
    assert StepsText(a.steps) == text;
    assert Mark('\"', true) == "\"" && TokenOk(t, "") && StepOk(a.steps[0], "");
    assert "" + "" == "" && StepsOk(a.steps, "");
    assert ArgumentText(a) == text && ArgumentOk(a, "");
    UnquoteArgument(a);
  }
}
