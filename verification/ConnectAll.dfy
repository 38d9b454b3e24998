/** Connecting two comma-separated lists of elements with port lists, as in
    `a[0,1], b => [2-]c` (lib/lexer.cc).

    The packed integer vector of the lexer (element, number of inputs, number of
    outputs, inputs, outputs, next element ...) is a sequence of groups.
 */
module ConnectAll {
  import opened Ports

  datatype Group = Group(element: int, inputs: seq<int>, outputs: seq<int>)

  datatype Complaint = TwoExpandable | NeedsDoubleArrow | Mismatch

  function PortsOf(g: Group, isoutput: bool): seq<int> {
    if isoutput then g.outputs else g.inputs
  }

  /** What a bracketed port list parses to: port numbers, and perhaps a final -1
      for "and so on" behind at least one of them. */
  predicate ListOk(ports: seq<int>) {
    && (forall i :: 0 <= i < |ports| - 1 ==> ports[i] >= 0)
    && (|ports| == 1 ==> ports[0] >= 0)
    && (|ports| > 1 ==> ports[|ports| - 1] >= -1)
  }

  predicate GroupsOk(groups: seq<Group>, isoutput: bool) {
    forall i :: 0 <= i < |groups| ==> ListOk(PortsOf(groups[i], isoutput))
  }

  // ----- Specification ------------------------------------------------------

  /** The list ends in "and so on". */
  predicate Open(ports: seq<int>) {
    |ports| > 0 && ports[|ports| - 1] == -1
  }

  /** The ports written down; no list at all means port 0. */
  function Explicit(ports: seq<int>): (r: seq<int>)
    requires ListOk(ports)
    ensures |r| > 0 && forall i :: 0 <= i < |r| ==> r[i] >= 0
  {
    if ports == [] then [0] else if Open(ports) then ports[..|ports| - 1] else ports
  }

  /** n consecutive ports after `last`. */
  function Following(last: int, n: nat): (r: seq<int>)
    ensures |r| == n
  {
    seq(n, i => last + 1 + i)
  }

  function Attach(element: int, ports: seq<int>): (r: seq<Port>)
    ensures |r| == |ports|
  {
    seq(|ports|, i requires 0 <= i < |ports| => Port(element, ports[i]))
  }

  /** All ports written down on one side. */
  function Written(groups: seq<Group>, isoutput: bool): (r: seq<Port>)
    requires GroupsOk(groups, isoutput)
    ensures |r| >= |groups|
  {
    if groups == [] then []
    else Attach(groups[0].element, Explicit(PortsOf(groups[0], isoutput))) + Written(groups[1..], isoutput)
  }

  function OpenLists(groups: seq<Group>, isoutput: bool): (n: nat) {
    if groups == [] then 0
    else (if Open(PortsOf(groups[0], isoutput)) then 1 else 0) + OpenLists(groups[1..], isoutput)
  }

  /** One element without a port list. */
  predicate Bare(groups: seq<Group>, isoutput: bool) {
    |groups| == 1 && PortsOf(groups[0], isoutput) == []
  }

  /** A group that takes part in stretching. */
  predicate Elastic(g: Group, isoutput: bool, bare: bool) {
    Open(PortsOf(g, isoutput)) || (bare && PortsOf(g, isoutput) == [])
  }

  /** The ports of one side when the first elastic group is lengthened by `extra`
      consecutive ports. */
  function Stretched(groups: seq<Group>, isoutput: bool, bare: bool, extra: int): (r: seq<Port>)
    requires GroupsOk(groups, isoutput)
  {
    if groups == [] then []
    else
      var g := groups[0];
      var ports := Explicit(PortsOf(g, isoutput));
      if extra > 0 && Elastic(g, isoutput, bare) then
        Attach(g.element, ports + Following(ports[|ports| - 1], extra)) + Written(groups[1..], isoutput)
      else Attach(g.element, ports) + Stretched(groups[1..], isoutput, bare, extra)
  }

  function Zip(outs: seq<Port>, ins: seq<Port>): (r: seq<Conn>)
    ensures |r| == if |outs| <= |ins| then |outs| else |ins|
    ensures forall i :: 0 <= i < |r| ==> r[i] == Conn(outs[i], ins[i])
  {
    if outs == [] || ins == [] then [] else [Conn(outs[0], ins[0])] + Zip(outs[1..], ins[1..])
  }

  /** The side can grow: an open list, or under `=>` a bare element that faces
      several ports. */
  predicate Stretchy(groups: seq<Group>, other: seq<Group>, isoutput: bool, doubleArrow: bool)
    requires GroupsOk(groups, isoutput) && GroupsOk(other, !isoutput)
  {
    OpenLists(groups, isoutput) > 0 || (doubleArrow && Bare(groups, isoutput) && |Written(other, !isoutput)| > 1)
  }

  predicate Many(groups: seq<Group>, other: seq<Group>, isoutput: bool, doubleArrow: bool)
    requires GroupsOk(groups, isoutput) && GroupsOk(other, !isoutput)
  {
    |Written(groups, isoutput)| > 1 || Stretchy(groups, other, isoutput, doubleArrow)
  }

  /** The side has, or can be given, n ports. */
  predicate Reaches(groups: seq<Group>, other: seq<Group>, isoutput: bool, doubleArrow: bool, n: nat)
    requires GroupsOk(groups, isoutput) && GroupsOk(other, !isoutput)
  {
    || |Written(groups, isoutput)| == n
    || (|Written(groups, isoutput)| < n && Stretchy(groups, other, isoutput, doubleArrow))
  }

  function Width(outputs: seq<Group>, inputs: seq<Group>): nat
    requires GroupsOk(outputs, true) && GroupsOk(inputs, false)
  {
    if |Written(outputs, true)| < |Written(inputs, false)| then |Written(inputs, false)| else |Written(outputs, true)|
  }

  /** The connection is legal. */
  predicate Legal(outputs: seq<Group>, inputs: seq<Group>, doubleArrow: bool)
    requires GroupsOk(outputs, true) && GroupsOk(inputs, false)
  {
    && OpenLists(outputs, true) + OpenLists(inputs, false) <= 1
    && (Many(outputs, inputs, true, doubleArrow) && Many(inputs, outputs, false, doubleArrow) ==>
          && doubleArrow
          && Reaches(outputs, inputs, true, doubleArrow, Width(outputs, inputs))
          && Reaches(inputs, outputs, false, doubleArrow, Width(outputs, inputs)))
  }

  /** One side brought to n ports. */
  function BroughtTo(groups: seq<Group>, isoutput: bool, n: nat): seq<Port>
    requires GroupsOk(groups, isoutput)
  {
    Stretched(groups, isoutput, |groups| == 1, n - |Written(groups, isoutput)|)
  }

  /** What a legal connection means. */
  function Meaning(outputs: seq<Group>, inputs: seq<Group>, doubleArrow: bool): seq<Conn>
    requires GroupsOk(outputs, true) && GroupsOk(inputs, false)
  {
    var outs, ins := Written(outputs, true), Written(inputs, false);
    if Many(outputs, inputs, true, doubleArrow) && Many(inputs, outputs, false, doubleArrow) then
      Zip(BroughtTo(outputs, true, Width(outputs, inputs)), BroughtTo(inputs, false, Width(outputs, inputs)))
    else if outs == [] || ins == [] then []
    else if Many(outputs, inputs, true, doubleArrow) then
      seq(|outs|, i requires 0 <= i < |outs| => Conn(outs[i], ins[0]))
    else seq(|ins|, i requires 0 <= i < |ins| => Conn(outs[0], ins[i]))
  }

  // ----- Facts about stretching ---------------------------------------------

  lemma {:induction false} StretchedNot(groups: seq<Group>, isoutput: bool, bare: bool, extra: int)
    requires GroupsOk(groups, isoutput)
    requires extra <= 0 || (OpenLists(groups, isoutput) == 0 && !bare)
    ensures Stretched(groups, isoutput, bare, extra) == Written(groups, isoutput)
  {
    if groups != [] { StretchedNot(groups[1..], isoutput, bare, extra); }
  }

  lemma {:induction false} StretchedLength(groups: seq<Group>, isoutput: bool, bare: bool, extra: nat)
    requires GroupsOk(groups, isoutput)
    requires OpenLists(groups, isoutput) > 0 || (bare && groups != [] && PortsOf(groups[0], isoutput) == [])
    ensures |Stretched(groups, isoutput, bare, extra)| == |Written(groups, isoutput)| + extra
  {
    if extra == 0 { StretchedNot(groups, isoutput, bare, extra); }
    else if !Elastic(groups[0], isoutput, bare) { StretchedLength(groups[1..], isoutput, bare, extra); }
  }

  /** A legal many-to-many connection pairs every port of either side. */
  lemma LegalWidths(outputs: seq<Group>, inputs: seq<Group>, doubleArrow: bool)
    requires GroupsOk(outputs, true) && GroupsOk(inputs, false) && Legal(outputs, inputs, doubleArrow)
    requires Many(outputs, inputs, true, doubleArrow) && Many(inputs, outputs, false, doubleArrow)
    ensures |BroughtTo(outputs, true, Width(outputs, inputs))| == Width(outputs, inputs)
    ensures |BroughtTo(inputs, false, Width(outputs, inputs))| == Width(outputs, inputs)
    ensures |Meaning(outputs, inputs, doubleArrow)| == Width(outputs, inputs)
  {
    ReachesLength(outputs, inputs, true, doubleArrow, Width(outputs, inputs));
    ReachesLength(inputs, outputs, false, doubleArrow, Width(outputs, inputs));
  }

  lemma ReachesLength(groups: seq<Group>, other: seq<Group>, isoutput: bool, doubleArrow: bool, n: nat)
    requires GroupsOk(groups, isoutput) && GroupsOk(other, !isoutput)
    requires Reaches(groups, other, isoutput, doubleArrow, n)
    ensures |BroughtTo(groups, isoutput, n)| == n
  {
    var extra := n - |Written(groups, isoutput)|;
    if extra == 0 { StretchedNot(groups, isoutput, |groups| == 1, extra); }
    else { StretchedLength(groups, isoutput, |groups| == 1, extra); }
  }

  // ----- Cursors ------------------------------------------------------------

  /** it[k], ppos[k], port[k] and nexpandable[k] of the connection loop. */
  datatype Cursor = Cursor(pos: nat, ppos: nat, port: int, left: int)

  /** The port under the cursor, fetched if the cursor just entered a group. */
  function Fetch(groups: seq<Group>, isoutput: bool, c: Cursor): Cursor {
    if c.port < 0 && c.pos < |groups| then
      var ports := PortsOf(groups[c.pos], isoutput);
      c.(port := if |ports| > 0 then ports[0] else 0)
    else c
  }

  /** One step of side k. */
  function Step(groups: seq<Group>, isoutput: bool, minp: nat, c: Cursor): (c': Cursor)
    requires c.pos < |groups|
  {
    var ports := PortsOf(groups[c.pos], isoutput);
    var np, ppos := |ports|, c.ppos + 1;
    if ppos < np && ports[ppos] >= 0 then
      c.(ppos := ppos, port := ports[ppos])
    else if np > 1 && ports[np - 1] == -1 && c.left > 0 then
      c.(ppos := ppos, port := ports[np - 2] + ppos - (np - 2), left := c.left - 1)
    else if np == 0 && minp == 1 && c.left > 0 then
      c.(ppos := ppos, port := ppos, left := c.left - 1)
    else
      Cursor(c.pos + 1, 0, -1, c.left)
  }

  function Budget(groups: seq<Group>, isoutput: bool, c: Cursor): nat {
    var listed := if c.pos < |groups| then |PortsOf(groups[c.pos], isoutput)| else 0;
    (if c.ppos < listed then listed - c.ppos else 0) + (if c.left > 0 then c.left else 0)
  }

  /** The ports that stepping visits from the cursor on. */
  ghost function Ahead(groups: seq<Group>, isoutput: bool, minp: nat, c: Cursor): (r: seq<Port>)
    requires c.pos <= |groups|
    ensures c.pos < |groups| <==> r != []
    decreases |groups| - c.pos, Budget(groups, isoutput, c)
  {
    if c.pos == |groups| then []
    else [Port(groups[c.pos].element, Fetch(groups, isoutput, c).port)]
         + Ahead(groups, isoutput, minp, Step(groups, isoutput, minp, Fetch(groups, isoutput, c)))
  }

  lemma AheadUnfolds(groups: seq<Group>, isoutput: bool, minp: nat, c: Cursor)
    requires c.pos < |groups|
    ensures Ahead(groups, isoutput, minp, c)
         == [Port(groups[c.pos].element, Fetch(groups, isoutput, c).port)]
            + Ahead(groups, isoutput, minp, Step(groups, isoutput, minp, Fetch(groups, isoutput, c)))
  {
  }

  lemma AttachFront(e: int, x: int, rest: seq<int>)
    ensures Attach(e, [x] + rest) == [Port(e, x)] + Attach(e, rest)
  {
  }

  lemma FollowingFront(x: int, n: nat)
    requires n > 0
    ensures Following(x, n) == [x + 1] + Following(x + 1, n - 1)
  {
  }

  /** The cursor of an elastic group is at its last written port or beyond. */
  ghost predicate Stretching(groups: seq<Group>, isoutput: bool, minp: nat, c: Cursor) {
    && c.pos < |groups| && c.port >= 0 && Elastic(groups[c.pos], isoutput, minp == 1)
    && ListOk(PortsOf(groups[c.pos], isoutput))
    && (var ports := PortsOf(groups[c.pos], isoutput);
        if ports == [] then c.port == c.ppos
        else c.ppos >= |ports| - 2 && c.port == ports[|ports| - 2] + c.ppos - (|ports| - 2))
  }

  lemma StretchStep(groups: seq<Group>, isoutput: bool, minp: nat, c: Cursor)
    requires Stretching(groups, isoutput, minp, c)
    ensures Fetch(groups, isoutput, c) == c
    ensures Step(groups, isoutput, minp, c)
         == if c.left > 0 then c.(ppos := c.ppos + 1, port := c.port + 1, left := c.left - 1)
            else Cursor(c.pos + 1, 0, -1, c.left)
    ensures c.left > 0 ==> Stretching(groups, isoutput, minp, Step(groups, isoutput, minp, c))
  {
  }

  /** From inside the stretch of an elastic group. */
  lemma {:induction false} AheadStretch(groups: seq<Group>, isoutput: bool, minp: nat, c: Cursor)
    requires Stretching(groups, isoutput, minp, c) && c.pos < |groups|
    ensures var n := if c.left > 0 then c.left else 0;
            Ahead(groups, isoutput, minp, c)
            == Attach(groups[c.pos].element, [c.port] + Following(c.port, n))
               + Ahead(groups, isoutput, minp, Cursor(c.pos + 1, 0, -1, c.left - n))
    decreases if c.left > 0 then c.left else 0
  {
    hide *;
    var e := groups[c.pos].element;
    var d := Step(groups, isoutput, minp, c);
    StretchStep(groups, isoutput, minp, c);
    AheadUnfolds(groups, isoutput, minp, c);
    if c.left > 0 {
      AheadStretch(groups, isoutput, minp, d);
      FollowingFront(c.port, c.left);
      AttachFront(e, c.port, Following(c.port, c.left));
    } else {
      AttachFront(e, c.port, Following(c.port, 0));
    }
  }

  /** The cursor is at a written port. */
  ghost predicate AtWritten(groups: seq<Group>, isoutput: bool, c: Cursor) {
    && c.pos < |groups| && ListOk(PortsOf(groups[c.pos], isoutput))
    && (var ports := Explicit(PortsOf(groups[c.pos], isoutput)); c.ppos < |ports| && c.port == ports[c.ppos])
  }

  lemma WrittenStep(groups: seq<Group>, isoutput: bool, minp: nat, c: Cursor)
    requires AtWritten(groups, isoutput, c)
    ensures c.port >= 0 && Fetch(groups, isoutput, c) == c
    ensures var ports, d := Explicit(PortsOf(groups[c.pos], isoutput)), Step(groups, isoutput, minp, c);
            if c.ppos + 1 < |ports| then
              d == c.(ppos := c.ppos + 1, port := ports[c.ppos + 1]) && AtWritten(groups, isoutput, d)
            else if Elastic(groups[c.pos], isoutput, minp == 1) then Stretching(groups, isoutput, minp, c)
            else d == Cursor(c.pos + 1, 0, -1, c.left)
  {
  }

  /** From a written port: the rest of the written ports, then the stretch. */
  lemma {:induction false} AheadWritten(groups: seq<Group>, isoutput: bool, minp: nat, c: Cursor)
    requires AtWritten(groups, isoutput, c) && c.pos < |groups| && ListOk(PortsOf(groups[c.pos], isoutput))
    requires c.ppos < |Explicit(PortsOf(groups[c.pos], isoutput))|
    requires c.port == Explicit(PortsOf(groups[c.pos], isoutput))[c.ppos]
    ensures var ports := Explicit(PortsOf(groups[c.pos], isoutput));
            var n := if c.left > 0 && Elastic(groups[c.pos], isoutput, minp == 1) then c.left else 0;
            Ahead(groups, isoutput, minp, c)
            == Attach(groups[c.pos].element, ports[c.ppos..] + Following(ports[|ports| - 1], n))
               + Ahead(groups, isoutput, minp, Cursor(c.pos + 1, 0, -1, c.left - n))
    decreases |Explicit(PortsOf(groups[c.pos], isoutput))| - c.ppos
  {
    hide *;
    var e := groups[c.pos].element;
    var ports := Explicit(PortsOf(groups[c.pos], isoutput));
    var d := Step(groups, isoutput, minp, c);
    var n := if c.left > 0 && Elastic(groups[c.pos], isoutput, minp == 1) then c.left else 0;
    var more := Following(ports[|ports| - 1], n);
    WrittenStep(groups, isoutput, minp, c);
    if c.ppos + 1 < |ports| {
      AheadUnfolds(groups, isoutput, minp, c);
      AheadWritten(groups, isoutput, minp, d);
      assert ports[c.ppos..] + more == [c.port] + (ports[c.ppos + 1..] + more);
      AttachFront(e, c.port, ports[c.ppos + 1..] + more);
    } else {
      assert ports[c.ppos..] == [c.port];
      if Elastic(groups[c.pos], isoutput, minp == 1) {
        AheadStretch(groups, isoutput, minp, c);
      } else {
        AheadUnfolds(groups, isoutput, minp, c);
        AttachFront(e, c.port, more);
        assert Attach(e, more) == [];
      }
    }
  }

  /** The cursor that enters a group fetches its first port. */
  lemma EnterGroup(groups: seq<Group>, isoutput: bool, minp: nat, pos: nat, left: int)
    requires pos < |groups| && ListOk(PortsOf(groups[pos], isoutput))
    ensures var c := Cursor(pos, 0, -1, left); var d := Fetch(groups, isoutput, c);
            && d == c.(port := Explicit(PortsOf(groups[pos], isoutput))[0])
            && AtWritten(groups, isoutput, d) && Ahead(groups, isoutput, minp, c) == Ahead(groups, isoutput, minp, d)
  {
    var c := Cursor(pos, 0, -1, left);
    var d := Fetch(groups, isoutput, c);
    assert Fetch(groups, isoutput, d) == d;
    AheadUnfolds(groups, isoutput, minp, c);
    AheadUnfolds(groups, isoutput, minp, d);
  }

  /** One group of the specification. */
  lemma StretchedFront(g: Group, rest: seq<Group>, isoutput: bool, bare: bool, left: int)
    requires GroupsOk(rest, isoutput) && ListOk(PortsOf(g, isoutput)) && GroupsOk([g] + rest, isoutput)
    ensures var ports := Explicit(PortsOf(g, isoutput));
            var n := if left > 0 && Elastic(g, isoutput, bare) then left else 0;
            Stretched([g] + rest, isoutput, bare, left)
            == Attach(g.element, ports + Following(ports[|ports| - 1], n)) + Stretched(rest, isoutput, bare, left - n)
  {
    var ports := Explicit(PortsOf(g, isoutput));
    assert ([g] + rest)[1..] == rest;
    if left > 0 && Elastic(g, isoutput, bare) {
      StretchedNot(rest, isoutput, bare, 0);
    } else {
      assert ports + Following(ports[|ports| - 1], 0) == ports;
    }
  }

  /** Stepping through one whole group. */
  lemma GroupVisited(groups: seq<Group>, isoutput: bool, minp: nat, pos: nat, left: int)
    requires pos < |groups| && ListOk(PortsOf(groups[pos], isoutput))
    ensures var ports := Explicit(PortsOf(groups[pos], isoutput));
            var n := if left > 0 && Elastic(groups[pos], isoutput, minp == 1) then left else 0;
            Ahead(groups, isoutput, minp, Cursor(pos, 0, -1, left))
            == Attach(groups[pos].element, ports + Following(ports[|ports| - 1], n))
               + Ahead(groups, isoutput, minp, Cursor(pos + 1, 0, -1, left - n))
  {
    hide *;
    var d := Fetch(groups, isoutput, Cursor(pos, 0, -1, left));
    var ports := Explicit(PortsOf(groups[pos], isoutput));
    EnterGroup(groups, isoutput, minp, pos, left);
    AheadWritten(groups, isoutput, minp, d);
    assert ports[0..] == ports;
  }

  /** Stepping from the start of a group visits the stretched list. */
  lemma {:induction false} AheadIsStretched(groups: seq<Group>, isoutput: bool, minp: nat, pos: nat, left: int)
    requires pos <= |groups| && GroupsOk(groups[pos..], isoutput)
    ensures Ahead(groups, isoutput, minp, Cursor(pos, 0, -1, left))
         == Stretched(groups[pos..], isoutput, minp == 1, left)
    decreases |groups| - pos
  {
    hide *;
    if pos == |groups| {
      AheadEnd(groups, isoutput, minp, Cursor(pos, 0, -1, left));
    } else {
      var rest := groups[pos + 1..];
      assert groups[pos..] == [groups[pos]] + rest;
      RestOk(groups[pos], rest, isoutput);
      var n := if left > 0 && Elastic(groups[pos], isoutput, minp == 1) then left else 0;
      GroupVisited(groups, isoutput, minp, pos, left);
      AheadIsStretched(groups, isoutput, minp, pos + 1, left - n);
      StretchedFront(groups[pos], rest, isoutput, minp == 1, left);
    }
  }

  lemma AheadEnd(groups: seq<Group>, isoutput: bool, minp: nat, c: Cursor)
    requires c.pos == |groups|
    ensures Ahead(groups, isoutput, minp, c) == Stretched(groups[c.pos..], isoutput, minp == 1, c.left) == []
  {
  }

  lemma RestOk(g: Group, rest: seq<Group>, isoutput: bool)
    requires GroupsOk([g] + rest, isoutput)
    ensures GroupsOk(rest, isoutput) && ListOk(PortsOf(g, isoutput))
  {
    assert ([g] + rest)[0] == g;
    forall i | 0 <= i < |rest| ensures ListOk(PortsOf(rest[i], isoutput)) {
      assert ([g] + rest)[i + 1] == rest[i];
    }
  }

  lemma AheadStep(groups: seq<Group>, isoutput: bool, minp: nat, c: Cursor)
    requires c.pos < |groups|
    ensures var f, all := Fetch(groups, isoutput, c), Ahead(groups, isoutput, minp, c);
            && f.pos == c.pos && Ahead(groups, isoutput, minp, f) == all
            && all[0] == Port(groups[c.pos].element, f.port)
            && Step(groups, isoutput, minp, f).pos <= |groups|
            && Ahead(groups, isoutput, minp, Step(groups, isoutput, minp, f)) == all[1..]
  {
    var f := Fetch(groups, isoutput, c);
    assert Fetch(groups, isoutput, f) == f;
    AheadUnfolds(groups, isoutput, minp, c);
    AheadUnfolds(groups, isoutput, minp, f);
  }

  lemma ResultStep(outs: seq<Port>, ins: seq<Port>, stepOut: bool, stepIn: bool)
    requires outs != [] && ins != [] && (stepOut || stepIn)
    ensures Result(outs, ins, stepOut, stepIn)
         == [Conn(outs[0], ins[0])]
            + Result(if stepOut then outs[1..] else outs, if stepIn then ins[1..] else ins, stepOut, stepIn)
  {
  }

  // ----- The methods --------------------------------------------------------

  /** yconnection_analyze_ports. */
  method AnalyzePorts(x: seq<Group>, isoutput: bool) returns (minPorts: nat, expandable: nat)
    requires GroupsOk(x, isoutput)
    ensures minPorts == |Written(x, isoutput)| && expandable == OpenLists(x, isoutput)
  {
    minPorts, expandable := 0, 0;
    var i := 0;
    while i < |x|
      invariant 0 <= i <= |x|
      invariant minPorts + |Written(x[i..], isoutput)| == |Written(x, isoutput)|
      invariant expandable + OpenLists(x[i..], isoutput) == OpenLists(x, isoutput)
    {
      var ports := PortsOf(x[i], isoutput);
      var n := |ports|;
      assert x[i..][1..] == x[i + 1..] && x[i..][0] == x[i];
      if n <= 1 {
        minPorts := minPorts + 1;
      } else if ports[n - 1] == -1 {
        minPorts, expandable := minPorts + n - 1, expandable + 1;
      } else {
        minPorts := minPorts + n;
      }
      i := i + 1;
    }
  }

  /** The connection loop: a zip of the two sides if both step, else a broadcast. */
  method Emit(outputs: seq<Group>, inputs: seq<Group>, minOut: nat, minIn: nat,
              stepOut: bool, stepIn: bool, leftOut: int, leftIn: int) returns (conns: seq<Conn>)
    requires GroupsOk(outputs, true) && GroupsOk(inputs, false) && (stepOut || stepIn)
    ensures conns == Result(Stretched(outputs, true, minOut == 1, leftOut),
                            Stretched(inputs, false, minIn == 1, leftIn), stepOut, stepIn)
  {
    hide *;
    assert outputs[0..] == outputs && inputs[0..] == inputs;
    var o, i := Cursor(0, 0, -1, leftOut), Cursor(0, 0, -1, leftIn);
    AheadIsStretched(outputs, true, minOut, 0, leftOut);
    AheadIsStretched(inputs, false, minIn, 0, leftIn);
    ghost var outs, ins := Ahead(outputs, true, minOut, o), Ahead(inputs, false, minIn, i);
    ghost var total := Result(outs, ins, stepOut, stepIn);
    conns := [];
    while o.pos < |outputs| && i.pos < |inputs|
      invariant o.pos <= |outputs| && i.pos <= |inputs|
      invariant outs == Ahead(outputs, true, minOut, o) && ins == Ahead(inputs, false, minIn, i)
      invariant total == conns + Result(outs, ins, stepOut, stepIn)
      decreases (if stepOut then |outs| else 0) + (if stepIn then |ins| else 0)
    {
      AheadStep(outputs, true, minOut, o);
      AheadStep(inputs, false, minIn, i);
      ResultStep(outs, ins, stepOut, stepIn);
      o, i := Fetch(outputs, true, o), Fetch(inputs, false, i);
      conns := conns + [Conn(Port(outputs[o.pos].element, o.port), Port(inputs[i.pos].element, i.port))];
      if stepOut { o, outs := Step(outputs, true, minOut, o), outs[1..]; }
      if stepIn { i, ins := Step(inputs, false, minIn, i), ins[1..]; }
    }
    ResultEmpty(outs, ins, stepOut, stepIn);
  }

  lemma ResultEmpty(outs: seq<Port>, ins: seq<Port>, stepOut: bool, stepIn: bool)
    requires outs == [] || ins == []
    ensures Result(outs, ins, stepOut, stepIn) == []
  {
  }

  /** One side's first port with every port of the other. */
  function Spread(outs: seq<Port>, ins: seq<Port>, overOutputs: bool): seq<Conn> {
    if outs == [] || ins == [] then []
    else if overOutputs then seq(|outs|, i requires 0 <= i < |outs| => Conn(outs[i], ins[0]))
    else seq(|ins|, i requires 0 <= i < |ins| => Conn(outs[0], ins[i]))
  }

  function Result(outs: seq<Port>, ins: seq<Port>, stepOut: bool, stepIn: bool): seq<Conn> {
    if stepOut && stepIn then Zip(outs, ins) else Spread(outs, ins, stepOut)
  }

  lemma OneGroup(groups: seq<Group>, isoutput: bool)
    requires GroupsOk(groups, isoutput) && |Written(groups, isoutput)| == 1
    ensures |groups| == 1 && (PortsOf(groups[0], isoutput) == [] <==> Bare(groups, isoutput))
  {
  }

  lemma OpenIsWritten(groups: seq<Group>, isoutput: bool)
    requires GroupsOk(groups, isoutput) && OpenLists(groups, isoutput) > 0
    ensures |Written(groups, isoutput)| > 0
  {
  }

  /** The numbers that the decisions are made from: the port counts of the two
      sides, and how many open or bare lists may grow. */
  ghost predicate Counted(groups: seq<Group>, other: seq<Group>, isoutput: bool, doubleArrow: bool, minp: nat,
                          exp: nat) {
    && GroupsOk(groups, isoutput) && GroupsOk(other, !isoutput)
    && minp == |Written(groups, isoutput)| && (exp > 0 <==> Stretchy(groups, other, isoutput, doubleArrow))
  }

  lemma BroughtEither(groups: seq<Group>, other: seq<Group>, isoutput: bool, doubleArrow: bool, minp: nat, exp: nat,
                      n: nat)
    requires Counted(groups, other, isoutput, doubleArrow, minp, exp) && minp <= n && (exp == 0 ==> n == minp)
    ensures Stretched(groups, isoutput, minp == 1, if exp > 0 then n - minp else 0) == BroughtTo(groups, isoutput, n)
  {
    if n == minp {
      StretchedNot(groups, isoutput, minp == 1, 0);
      StretchedNot(groups, isoutput, |groups| == 1, 0);
    } else if minp != 1 && |groups| == 1 {
      OneBare(groups, isoutput);
      SameStretch(groups, isoutput, n - minp);
    } else if minp == 1 {
      OneGroup(groups, isoutput);
    }
  }

  lemma OneBare(groups: seq<Group>, isoutput: bool)
    requires GroupsOk(groups, isoutput) && |groups| == 1 && |Written(groups, isoutput)| != 1
    ensures PortsOf(groups[0], isoutput) != []
  {
    assert groups[1..] == [];
    assert |Written(groups, isoutput)| == |Explicit(PortsOf(groups[0], isoutput))| + |Written([], isoutput)|;
  }

  lemma SameStretch(groups: seq<Group>, isoutput: bool, extra: int)
    requires GroupsOk(groups, isoutput) && |groups| == 1 && PortsOf(groups[0], isoutput) != []
    ensures Stretched(groups, isoutput, true, extra) == Stretched(groups, isoutput, false, extra)
  {
  }

  /** The loop's result is the meaning of a legal connection. */
  lemma ResultIsMeaning(outputs: seq<Group>, inputs: seq<Group>, doubleArrow: bool, minOut: nat, expOut: nat,
                        minIn: nat, expIn: nat)
    requires Counted(outputs, inputs, true, doubleArrow, minOut, expOut)
    requires Counted(inputs, outputs, false, doubleArrow, minIn, expIn)
    requires Legal(outputs, inputs, doubleArrow)
    ensures var stepOut, stepIn := minOut > 1 || expOut > 0, minIn > 1 || expIn > 0;
            Result(Stretched(outputs, true, minOut == 1, if expOut > 0 then minIn - minOut else 0),
                   Stretched(inputs, false, minIn == 1, if expIn > 0 then minOut - minIn else 0),
                   stepOut, stepIn || !stepOut)
            == Meaning(outputs, inputs, doubleArrow)
  {
    if (minOut > 1 || expOut > 0) && (minIn > 1 || expIn > 0) {
      var n := Width(outputs, inputs);
      SideIsBrought(outputs, inputs, true, doubleArrow, minOut, expOut, minIn, n);
      SideIsBrought(inputs, outputs, false, doubleArrow, minIn, expIn, minOut, n);
    } else {
      SideIsWritten(outputs, inputs, true, doubleArrow, minOut, expOut, minIn, expIn);
      SideIsWritten(inputs, outputs, false, doubleArrow, minIn, expIn, minOut, expOut);
    }
  }

  /** Many to many: a side that is already wide enough stays as written. */
  lemma SideIsBrought(groups: seq<Group>, other: seq<Group>, isoutput: bool, doubleArrow: bool, minp: nat, exp: nat,
                      minOther: nat, n: nat)
    requires Counted(groups, other, isoutput, doubleArrow, minp, exp) && (exp == 0 ==> n == minp)
    requires n == if minp < minOther then minOther else minp
    ensures Stretched(groups, isoutput, minp == 1, if exp > 0 then minOther - minp else 0)
         == BroughtTo(groups, isoutput, n)
  {
    if minp == n {
      StretchedNot(groups, isoutput, minp == 1, if exp > 0 then minOther - minp else 0);
      StretchedNot(groups, isoutput, |groups| == 1, 0);
    } else {
      hide Stretched, Written, Stretchy;
      BroughtEither(groups, other, isoutput, doubleArrow, minp, exp, n);
    }
  }

  /** One to many: nothing stretches. */
  lemma SideIsWritten(groups: seq<Group>, other: seq<Group>, isoutput: bool, doubleArrow: bool, minp: nat, exp: nat,
                      minOther: nat, expOther: nat)
    requires Counted(groups, other, isoutput, doubleArrow, minp, exp) && minOther == |Written(other, !isoutput)|
    requires (minp <= 1 && exp == 0) || (minOther <= 1 && expOther == 0)
    ensures Stretched(groups, isoutput, minp == 1, if exp > 0 then minOther - minp else 0) == Written(groups, isoutput)
  {
    if exp > 0 && OpenLists(groups, isoutput) > 0 { OpenIsWritten(groups, isoutput); }
    StretchedNot(groups, isoutput, minp == 1, if exp > 0 then minOther - minp else 0);
  }

  lemma CountedFrom(groups: seq<Group>, other: seq<Group>, isoutput: bool, doubleArrow: bool)
    requires GroupsOk(groups, isoutput) && GroupsOk(other, !isoutput)
    ensures var minp := |Written(groups, isoutput)|;
            var grows := doubleArrow && minp == 1 && |Written(other, !isoutput)| > 1
                         && groups != [] && PortsOf(groups[0], isoutput) == [];
            Counted(groups, other, isoutput, doubleArrow, minp, if grows then 1 else OpenLists(groups, isoutput))
  {
  }

  /** yconnection_connect_all: legal connections get their meaning, all others a
      complaint; the loop ends either way. */
  method ConnectPorts(outputs: seq<Group>, inputs: seq<Group>, doubleArrow: bool)
    returns (complaints: seq<Complaint>, conns: seq<Conn>)
    requires GroupsOk(outputs, true) && GroupsOk(inputs, false)
    ensures complaints == [] <==> Legal(outputs, inputs, doubleArrow)
    ensures complaints == [] ==> conns == Meaning(outputs, inputs, doubleArrow)
  {
    complaints := [];
    var minOut, expOut := AnalyzePorts(outputs, true);
    var minIn, expIn := AnalyzePorts(inputs, false);
    CountedFrom(outputs, inputs, true, doubleArrow);
    CountedFrom(inputs, outputs, false, doubleArrow);
    hide Written, Stretched, Meaning, Result, GroupsOk, OpenLists, Bare;
    if expOut + expIn > 1 {
      complaints := complaints + [TwoExpandable];
      if minIn < minOut { expOut := 0; } else { expIn := 0; }
    }
    if doubleArrow {
      if minIn == 1 && minOut > 1 && |inputs[0].inputs| == 0 { expIn := 1; }
      if minOut == 1 && minIn > 1 && |outputs[0].outputs| == 0 { expOut := 1; }
    }
    var stepIn, stepOut := minIn > 1 || expIn > 0, minOut > 1 || expOut > 0;
    var leftIn := if expIn > 0 then minOut - minIn else 0;
    var leftOut := if expOut > 0 then minIn - minOut else 0;
    if stepIn && stepOut {
      if !doubleArrow { complaints := complaints + [NeedsDoubleArrow]; }
      if expIn == 0 && expOut == 0 && minIn != minOut { complaints := complaints + [Mismatch]; }
      else if expIn == 0 && minIn < minOut { complaints := complaints + [Mismatch]; }
      else if expOut == 0 && minOut < minIn { complaints := complaints + [Mismatch]; }
    } else if !stepIn && !stepOut {
      stepIn := true;
    }
    conns := Emit(outputs, inputs, minOut, minIn, stepOut, stepIn, leftOut, leftIn);
    if complaints == [] {
      ResultIsMeaning(outputs, inputs, doubleArrow, minOut, expOut, minIn, expIn);
    }
  }
}
