/** NameInfo: the tree of name databases, ordered by context prefix
    (lib/nameinfo.cc).

    Databases are named by their position in `_namedbs`.  The list that hangs off
    `_context_child` and runs through `_context_sibling` is the sequence `kids`;
    the lists that start in `_namedb_roots` are `tops`.
 */
module NameInfo {
  import opened Wrappers

  /** struct NameDB; `content` is what its query() answers. */
  datatype Node<V> = Node(typ: nat, context: string, parent: int, kids: seq<nat>, content: map<string, V>)

  datatype Root = Root(typ: nat, tops: seq<nat>)

  // ----- Invariant ----------------------------------------------------------

  /** Node n sits above node c: shorter context, or the same and installed
      earlier. */
  ghost predicate Above<V>(nodes: seq<Node<V>>, n: nat, c: nat) {
    && n < |nodes| && c < |nodes| && nodes[n].typ == nodes[c].typ
    && nodes[n].context <= nodes[c].context
    && (|nodes[n].context| < |nodes[c].context| || n < c)
  }

  /** No two siblings have one context a prefix of the other. */
  ghost predicate SiblingsOk<V>(nodes: seq<Node<V>>, list: seq<nat>, parent: int, typ: nat) {
    && (forall i :: 0 <= i < |list| ==>
          list[i] < |nodes| && nodes[list[i]].parent == parent && nodes[list[i]].typ == typ)
    && (forall i, j :: 0 <= i < |list| && 0 <= j < |list| && i != j ==>
          !(nodes[list[i]].context <= nodes[list[j]].context))
  }

  ghost predicate KidsOk<V>(nodes: seq<Node<V>>, n: nat)
    requires n < |nodes|
  {
    && SiblingsOk(nodes, nodes[n].kids, n, nodes[n].typ)
    && (forall i :: 0 <= i < |nodes[n].kids| ==> Above(nodes, n, nodes[n].kids[i]))
  }

  ghost predicate TopsOk<V>(nodes: seq<Node<V>>, root: Root) {
    SiblingsOk(nodes, root.tops, -1, root.typ)
  }

  /** Each node is in the list it belongs to. */
  ghost predicate PlacedOk<V>(nodes: seq<Node<V>>, roots: seq<Root>, n: nat)
    requires n < |nodes|
  {
    if nodes[n].parent < 0 then
      nodes[n].parent == -1 && exists r :: 0 <= r < |roots| && roots[r].typ == nodes[n].typ && n in roots[r].tops
    else nodes[n].parent < |nodes| && n in nodes[nodes[n].parent].kids
  }

  ghost predicate RootsSorted(roots: seq<Root>) {
    forall r, s :: 0 <= r < s < |roots| ==> roots[r].typ < roots[s].typ
  }

  ghost predicate TreeOk<V>(nodes: seq<Node<V>>, roots: seq<Root>) {
    && RootsSorted(roots)
    && (forall r :: 0 <= r < |roots| ==> TopsOk(nodes, roots[r]))
    && (forall n :: 0 <= n < |nodes| ==> KidsOk(nodes, n) && PlacedOk(nodes, roots, n))
  }

  /** A database of the type whose context applies to the prefix. */
  ghost predicate Matches<V>(nodes: seq<Node<V>>, typ: nat, prefix: string, n: nat) {
    n < |nodes| && nodes[n].typ == typ && nodes[n].context <= prefix
  }

  ghost predicate ParentsOk<V>(nodes: seq<Node<V>>) {
    forall k :: 0 <= k < |nodes| ==> nodes[k].parent < 0 || Above(nodes, nodes[k].parent, k)
  }

  /** The databases from n upwards, as context_parent() visits them. */
  ghost function Chain<V>(nodes: seq<Node<V>>, n: int): (c: seq<nat>)
    requires ParentsOk(nodes) && n < |nodes|
    decreases if n < 0 then -1 else |nodes[n].context|, n
  {
    if n < 0 then [] else [n as nat] + Chain(nodes, nodes[n].parent)
  }

  lemma ParentsAbove<V>(nodes: seq<Node<V>>, roots: seq<Root>)
    requires TreeOk(nodes, roots)
    ensures ParentsOk(nodes)
  {
    forall k | 0 <= k < |nodes| ensures nodes[k].parent < 0 || Above(nodes, nodes[k].parent, k) {
      assert PlacedOk(nodes, roots, k);
      if nodes[k].parent >= 0 {
        var p := nodes[k].parent;
        assert KidsOk(nodes, p);
        var i :| 0 <= i < |nodes[p].kids| && nodes[p].kids[i] == k;
        assert Above(nodes, p, nodes[p].kids[i]);
      }
    }
  }

  // ----- The chain of a context ---------------------------------------------

  lemma PrefixTrans(a: string, b: string, c: string)
    requires a <= b && b <= c
    ensures a <= c
  {
  }

  lemma PrefixesComparable(a: string, b: string, c: string)
    requires a <= c && b <= c
    ensures a <= b || b <= a
  {
    if |a| <= |b| { assert a == b[..|a|]; } else { assert b == a[..|b|]; }
  }

  /** Everything in a chain lies above its start. */
  lemma {:induction false} ChainAbove<V>(nodes: seq<Node<V>>, n: nat, k: nat)
    requires ParentsOk(nodes) && n < |nodes| && k in Chain(nodes, n)
    ensures k == n || Above(nodes, k, n)
    decreases |nodes[n].context|, n
  {
    var p := nodes[n].parent;
    if k != n && p >= 0 {
      ChainAbove(nodes, p, k);
      if k != p { PrefixTrans(nodes[k].context, nodes[p].context, nodes[n].context); }
    }
  }

  /** A chain member other than the start has its child in the chain. */
  lemma {:induction false} ChainStep<V>(nodes: seq<Node<V>>, n: nat, k: nat) returns (q: nat)
    requires ParentsOk(nodes) && n < |nodes| && k in Chain(nodes, n) && k != n
    ensures q < |nodes| && q in Chain(nodes, n) && nodes[q].parent == k
    decreases |nodes[n].context|, n
  {
    var p := nodes[n].parent;
    assert k in Chain(nodes, p);
    if k == p {
      q := n;
    } else {
      q := ChainStep(nodes, p, k);
    }
  }

  lemma {:induction false} ChainTop<V>(nodes: seq<Node<V>>, n: nat) returns (q: nat)
    requires ParentsOk(nodes) && n < |nodes|
    ensures q < |nodes| && q in Chain(nodes, n) && nodes[q].parent < 0
    decreases |nodes[n].context|, n
  {
    if nodes[n].parent < 0 { q := n; } else { q := ChainTop(nodes, nodes[n].parent); }
  }

  lemma SameList<V>(nodes: seq<Node<V>>, list: seq<nat>, parent: int, typ: nat, a: nat, b: nat, prefix: string)
    requires SiblingsOk(nodes, list, parent, typ) && a in list && b in list
    requires nodes[a].context <= prefix && nodes[b].context <= prefix
    ensures a == b
  {
    PrefixesComparable(nodes[a].context, nodes[b].context, prefix);
    var i :| 0 <= i < |list| && list[i] == a;
    var j :| 0 <= j < |list| && list[j] == b;
  }

  /** Two siblings that both apply to one prefix are one. */
  lemma SiblingsEqual<V>(nodes: seq<Node<V>>, roots: seq<Root>, a: nat, b: nat, prefix: string)
    requires TreeOk(nodes, roots) && a < |nodes| && b < |nodes| && nodes[a].parent == nodes[b].parent
    requires nodes[a].typ == nodes[b].typ && nodes[a].context <= prefix && nodes[b].context <= prefix
    ensures a == b
  {
    assert PlacedOk(nodes, roots, a) && PlacedOk(nodes, roots, b);
    var p := nodes[a].parent;
    if p >= 0 {
      assert KidsOk(nodes, p);
      SameList(nodes, nodes[p].kids, p, nodes[p].typ, a, b, prefix);
    } else {
      var r :| 0 <= r < |roots| && roots[r].typ == nodes[a].typ && a in roots[r].tops;
      var s :| 0 <= s < |roots| && roots[s].typ == nodes[b].typ && b in roots[s].tops;
      assert r == s && TopsOk(nodes, roots[r]);
      SameList(nodes, roots[r].tops, -1, roots[r].typ, a, b, prefix);
    }
  }

  /** The node where the search for a prefix ends. */
  ghost predicate Closest<V>(nodes: seq<Node<V>>, typ: nat, prefix: string, c: int) {
    if c < 0 then forall n :: 0 <= n < |nodes| && nodes[n].parent < 0 ==> !Matches(nodes, typ, prefix, n)
    else
      && Matches(nodes, typ, prefix, c)
      && forall i :: 0 <= i < |nodes[c].kids| ==> !Matches(nodes, typ, prefix, nodes[c].kids[i])
  }

  /** The chain from the closest database visits exactly the databases that apply
      to the prefix. */
  lemma ChainExact<V>(nodes: seq<Node<V>>, roots: seq<Root>, typ: nat, prefix: string, c: int, n: nat)
    requires TreeOk(nodes, roots) && c < |nodes| && Closest(nodes, typ, prefix, c)
    ensures ParentsOk(nodes)
    ensures n in Chain(nodes, c) <==> Matches(nodes, typ, prefix, n)
  {
    ParentsAbove(nodes, roots);
    if n in Chain(nodes, c) {
      ChainAbove(nodes, c, n);
      if n != c { PrefixTrans(nodes[n].context, nodes[c].context, prefix); }
    }
    if Matches(nodes, typ, prefix, n) { MatchInChain(nodes, roots, typ, prefix, c, n); }
  }

  lemma {:induction false} MatchInChain<V>(nodes: seq<Node<V>>, roots: seq<Root>, typ: nat, prefix: string, c: int,
                                           n: nat)
    requires TreeOk(nodes, roots) && ParentsOk(nodes) && c < |nodes| && Closest(nodes, typ, prefix, c)
    requires Matches(nodes, typ, prefix, n)
    ensures n in Chain(nodes, c)
    decreases |nodes[n].context|, n
  {
    var p := nodes[n].parent;
    assert PlacedOk(nodes, roots, n);
    if p >= 0 {
      PrefixTrans(nodes[p].context, nodes[n].context, prefix);
      MatchInChain(nodes, roots, typ, prefix, c, p);
      if p != c {
        var q := ChainStep(nodes, c, p);
        ChainAbove(nodes, c, q);
        if q != c { PrefixTrans(nodes[q].context, nodes[c].context, prefix); }
        SiblingsEqual(nodes, roots, n, q, prefix);
      }
    } else {
      assert c >= 0;
      var q := ChainTop(nodes, c);
      ChainAbove(nodes, c, q);
      if q != c { PrefixTrans(nodes[q].context, nodes[c].context, prefix); }
      assert PlacedOk(nodes, roots, q);
      SiblingsEqual(nodes, roots, n, q, prefix);
    }
  }

  // ----- Installing ---------------------------------------------------------

  /** The list that a new database joins: the children of node c, or the tops. */
  ghost function ListOf<V>(nodes: seq<Node<V>>, roots: seq<Root>, c: int, r: nat): seq<nat>
    requires c < |nodes| && (c < 0 ==> r < |roots|)
  {
    if c >= 0 then nodes[c].kids else roots[r].tops
  }

  /** Which siblings a new context takes over. */
  predicate Adopts(prefix: string, context: string) {
    |prefix| < |context| && prefix <= context
  }

  /** The old nodes keep type, context and content. */
  ghost predicate SameDatabases<V(!new)>(nodes: seq<Node<V>>, nodes': seq<Node<V>>) {
    && |nodes| <= |nodes'|
    && forall n :: 0 <= n < |nodes| ==>
         nodes'[n].typ == nodes[n].typ && nodes'[n].context == nodes[n].context && nodes'[n].content == nodes[n].content
  }

  /** A list about old nodes that keeps its parent stays in order. */
  lemma ListKept<V(!new)>(nodes: seq<Node<V>>, nodes': seq<Node<V>>, list: seq<nat>, parent: int, parent': int,
                          typ: nat)
    requires SameDatabases(nodes, nodes') && SiblingsOk(nodes, list, parent, typ)
    requires forall i :: 0 <= i < |list| ==> nodes'[list[i]].parent == parent'
    ensures SiblingsOk(nodes', list, parent', typ)
  {
    forall i, j | 0 <= i < |list| && 0 <= j < |list| && i != j
      ensures !(nodes'[list[i]].context <= nodes'[list[j]].context)
    {
      assert !(nodes[list[i]].context <= nodes[list[j]].context);
    }
  }

  lemma AboveKept<V(!new)>(nodes: seq<Node<V>>, nodes': seq<Node<V>>, n: nat, c: nat)
    requires SameDatabases(nodes, nodes') && Above(nodes, n, c)
    ensures Above(nodes', n, c)
  {
  }

  lemma RootInserted(roots: seq<Root>, l: nat, root: Root)
    requires RootsSorted(roots) && l <= |roots|
    requires forall r :: 0 <= r < l ==> roots[r].typ < root.typ
    requires forall r :: l <= r < |roots| ==> root.typ < roots[r].typ
    ensures RootsSorted(roots[..l] + [root] + roots[l..])
  {
  }

  /** A node whose children are not touched. */
  lemma NodeKept<V(!new)>(nodes: seq<Node<V>>, nodes': seq<Node<V>>, n: nat)
    requires SameDatabases(nodes, nodes') && n < |nodes| && KidsOk(nodes, n) && nodes'[n].kids == nodes[n].kids
    requires forall k :: 0 <= k < |nodes| && nodes[k].parent == n ==> nodes'[k].parent == n
    ensures KidsOk(nodes', n)
  {
    ListKept(nodes, nodes', nodes[n].kids, n, n, nodes[n].typ);
    forall i | 0 <= i < |nodes[n].kids| ensures Above(nodes', n, nodes[n].kids[i]) {
      AboveKept(nodes, nodes', n, nodes[n].kids[i]);
    }
  }

  /** First database of its type. */
  lemma NewRootOk<V(!new)>(nodes: seq<Node<V>>, roots: seq<Root>, l: nat, e: Node<V>)
    requires TreeOk(nodes, roots) && l <= |roots| && e.parent == -1 && e.kids == []
    requires forall r :: 0 <= r < l ==> roots[r].typ < e.typ
    requires forall r :: l <= r < |roots| ==> e.typ < roots[r].typ
    ensures TreeOk(nodes + [e], roots[..l] + [Root(e.typ, [|nodes|])] + roots[l..])
  {
    var nodes', root := nodes + [e], Root(e.typ, [|nodes|]);
    var roots' := roots[..l] + [root] + roots[l..];
    RootInserted(roots, l, root);
    forall r | 0 <= r < |roots'| ensures TopsOk(nodes', roots'[r]) {
      if r != l {
        var s := if r < l then r else r - 1;
        assert roots'[r] == roots[s] && TopsOk(nodes, roots[s]);
        ListKept(nodes, nodes', roots[s].tops, -1, -1, roots[s].typ);
      }
    }
    forall n | 0 <= n < |nodes'| ensures KidsOk(nodes', n) {
      if n < |nodes| { NodeKept(nodes, nodes', n); }
    }
    forall n | 0 <= n < |nodes'| ensures PlacedOk(nodes', roots', n) {
      if n < |nodes| {
        RootPlacedKept(nodes, roots, l, root, nodes', n);
      } else {
        assert roots'[l].tops[0] == n;
      }
    }
  }

  lemma RootPlacedKept<V(!new)>(nodes: seq<Node<V>>, roots: seq<Root>, l: nat, root: Root, nodes': seq<Node<V>>, n: nat)
    requires n < |nodes| && PlacedOk(nodes, roots, n) && nodes <= nodes' && l <= |roots|
    ensures PlacedOk(nodes', roots[..l] + [root] + roots[l..], n)
  {
    var roots' := roots[..l] + [root] + roots[l..];
    if nodes[n].parent < 0 {
      var s :| 0 <= s < |roots| && roots[s].typ == nodes[n].typ && n in roots[s].tops;
      assert roots'[if s < l then s else s + 1] == roots[s];
    }
  }

  /** nodes' results from nodes by inserting `id` into the list of c: the adopted
      siblings become its children, the others stay behind it. */
  ghost predicate Inserted<V(!new)>(nodes: seq<Node<V>>, roots: seq<Root>, c: int, r: nat, e: Node<V>,
                                    nodes': seq<Node<V>>, roots': seq<Root>)
    requires c < |nodes| && (c < 0 ==> r < |roots|)
  {
    var id, list := |nodes|, ListOf(nodes, roots, c, r);
    && SameDatabases(nodes, nodes') && |nodes'| == id + 1 && |roots'| == |roots|
    && nodes'[id] == e.(parent := if c < 0 then -1 else c, kids := nodes'[id].kids)
    && Subsequence(nodes'[id].kids, list)
    && (forall n :: 0 <= n < id ==>
          && (n in nodes'[id].kids <==> n in list && Adopts(e.context, nodes[n].context))
          && nodes'[n].parent == (if n in nodes'[id].kids then id else nodes[n].parent))
    && (forall n :: 0 <= n < id && n != c ==> nodes'[n].kids == nodes[n].kids)
    && (forall s :: 0 <= s < |roots| ==> roots'[s].typ == roots[s].typ)
    && (forall s :: 0 <= s < |roots| && (c >= 0 || s != r) ==> roots'[s] == roots[s])
    && Rearranged(nodes, list, if c >= 0 then nodes'[c].kids else roots'[r].tops, e.context)
  }

  /** The list after insertion: the new node, then the siblings not adopted. */
  ghost predicate Rearranged<V(!new)>(nodes: seq<Node<V>>, list: seq<nat>, list': seq<nat>, prefix: string) {
    && |list'| > 0 && list'[0] == |nodes| && Subsequence(list'[1..], list)
    && (forall n :: 0 <= n < |nodes| ==> (n in list'[1..] <==> n in list && !Adopts(prefix, nodes[n].context)))
  }

  /** Distinct positions of s hold distinct members of t, each once. */
  ghost predicate Subsequence(s: seq<nat>, t: seq<nat>) {
    && (forall i :: 0 <= i < |s| ==> s[i] in t)
    && (forall i, j :: 0 <= i < j < |s| ==> s[i] != s[j])
  }

  lemma SubListOk<V(!new)>(nodes: seq<Node<V>>, nodes': seq<Node<V>>, list: seq<nat>, sub: seq<nat>, parent: int,
                           parent': int, typ: nat)
    requires SameDatabases(nodes, nodes') && SiblingsOk(nodes, list, parent, typ) && Subsequence(sub, list)
    requires forall i :: 0 <= i < |sub| ==> nodes'[sub[i]].parent == parent'
    ensures SiblingsOk(nodes', sub, parent', typ)
  {
    forall i | 0 <= i < |sub| ensures sub[i] < |nodes'| && nodes'[sub[i]].typ == typ {
      var k :| 0 <= k < |list| && list[k] == sub[i];
    }
    forall i, j | 0 <= i < |sub| && 0 <= j < |sub| && i != j
      ensures !(nodes'[sub[i]].context <= nodes'[sub[j]].context)
    {
      var k :| 0 <= k < |list| && list[k] == sub[i];
      var l :| 0 <= l < |list| && list[l] == sub[j];
      assert k != l;
      assert !(nodes[list[k]].context <= nodes[list[l]].context);
    }
  }

  /** The new node in front of the siblings that stay is again a proper list. */
  lemma FrontListOk<V(!new)>(nodes: seq<Node<V>>, nodes': seq<Node<V>>, list: seq<nat>, list': seq<nat>,
                             parent: int, typ: nat, prefix: string)
    requires SameDatabases(nodes, nodes') && SiblingsOk(nodes, list, parent, typ) && |nodes'| == |nodes| + 1
    requires Rearranged(nodes, list, list', prefix)
    requires nodes'[|nodes|].context == prefix && nodes'[|nodes|].typ == typ && nodes'[|nodes|].parent == parent
    requires forall n :: n in list'[1..] ==> n < |nodes| && nodes'[n].parent == parent
    requires forall n :: n in list ==> n < |nodes| && !(nodes[n].context <= prefix)
    ensures SiblingsOk(nodes', list', parent, typ)
  {
    var rest := list'[1..];
    SubListOk(nodes, nodes', list, rest, parent, parent, typ);
    forall i | 0 <= i < |list'|
      ensures list'[i] < |nodes'| && nodes'[list'[i]].parent == parent && nodes'[list'[i]].typ == typ
    {
      assert i > 0 ==> list'[i] == rest[i - 1];
    }
    forall i, j | 0 <= i < |list'| && 0 <= j < |list'| && i != j
      ensures !(nodes'[list'[i]].context <= nodes'[list'[j]].context)
    {
      assert i > 0 ==> list'[i] == rest[i - 1] && rest[i - 1] in rest && rest[i - 1] in list;
      assert j > 0 ==> list'[j] == rest[j - 1] && rest[j - 1] in rest && rest[j - 1] in list;
    }
  }

  /** The adopted children. */
  lemma AdoptedOk<V(!new)>(nodes: seq<Node<V>>, nodes': seq<Node<V>>, list: seq<nat>, parent: int, typ: nat)
    requires SameDatabases(nodes, nodes') && SiblingsOk(nodes, list, parent, typ) && |nodes'| == |nodes| + 1
    requires var id := |nodes|;
             && Subsequence(nodes'[id].kids, list) && nodes'[id].typ == typ
             && forall n :: n in nodes'[id].kids ==>
                  n < id && nodes'[n].parent == id && Adopts(nodes'[id].context, nodes[n].context)
    ensures KidsOk(nodes', |nodes|)
  {
    var id := |nodes|;
    var kids := nodes'[id].kids;
    SubListOk(nodes, nodes', list, kids, parent, id, typ);
    forall i | 0 <= i < |kids| ensures Above(nodes', id, kids[i]) {
      assert kids[i] in kids;
    }
  }

  /** What the search tells before an insertion. */
  ghost predicate Slot<V(!new)>(nodes: seq<Node<V>>, roots: seq<Root>, c: int, r: nat, e: Node<V>) {
    && TreeOk(nodes, roots) && c < |nodes| && r < |roots| && roots[r].typ == e.typ
    && (c >= 0 ==> nodes[c].typ == e.typ && nodes[c].context <= e.context && nodes[c].context != e.context)
    && (forall k :: k in ListOf(nodes, roots, c, r) ==> k < |nodes| && !(nodes[k].context <= e.context))
  }

  lemma SlotList<V(!new)>(nodes: seq<Node<V>>, roots: seq<Root>, c: int, r: nat, e: Node<V>)
    requires Slot(nodes, roots, c, r, e)
    ensures SiblingsOk(nodes, ListOf(nodes, roots, c, r), if c < 0 then -1 else c, e.typ)
    ensures forall k :: k in ListOf(nodes, roots, c, r) ==>
              k < |nodes| && nodes[k].parent == (if c < 0 then -1 else c) && nodes[k].typ == e.typ
  {
    if c >= 0 { assert KidsOk(nodes, c); } else { assert TopsOk(nodes, roots[r]); }
  }

  lemma InsertedParent<V(!new)>(nodes: seq<Node<V>>, roots: seq<Root>, c: nat, r: nat, e: Node<V>,
                                nodes': seq<Node<V>>, roots': seq<Root>)
    requires Slot(nodes, roots, c, r, e) && Inserted(nodes, roots, c, r, e, nodes', roots')
    ensures KidsOk(nodes', c)
  {
    var list, list' := nodes[c].kids, nodes'[c].kids;
    SlotList(nodes, roots, c, r, e);
    StayersKeepParent(nodes, nodes', list, list', c, e);
    FrontListOk(nodes, nodes', list, list', c, e.typ, e.context);
    assert KidsOk(nodes, c);
    forall i | 0 <= i < |list'| ensures Above(nodes', c, list'[i]) {
      if i > 0 {
        assert list'[i] == list'[1..][i - 1] && list'[i] in list;
        var k :| 0 <= k < |list| && list[k] == list'[i];
        AboveKept(nodes, nodes', c, list[k]);
      }
    }
  }

  lemma InsertedOther<V(!new)>(nodes: seq<Node<V>>, roots: seq<Root>, c: int, r: nat, e: Node<V>,
                               nodes': seq<Node<V>>, roots': seq<Root>, n: nat)
    requires Slot(nodes, roots, c, r, e) && Inserted(nodes, roots, c, r, e, nodes', roots')
    requires n < |nodes| && n != c
    ensures KidsOk(nodes', n)
  {
    var id, list := |nodes|, ListOf(nodes, roots, c, r);
    assert KidsOk(nodes, n);
    SlotList(nodes, roots, c, r, e);
    forall k | 0 <= k < id && nodes[k].parent == n ensures nodes'[k].parent == n {}
    NodeKept(nodes, nodes', n);
  }

  lemma InsertedNew<V(!new)>(nodes: seq<Node<V>>, roots: seq<Root>, c: int, r: nat, e: Node<V>,
                             nodes': seq<Node<V>>, roots': seq<Root>)
    requires Slot(nodes, roots, c, r, e) && Inserted(nodes, roots, c, r, e, nodes', roots')
    ensures KidsOk(nodes', |nodes|)
  {
    var list := ListOf(nodes, roots, c, r);
    SlotList(nodes, roots, c, r, e);
    AdoptedOk(nodes, nodes', list, if c < 0 then -1 else c, e.typ);
  }

  lemma InsertedTops<V(!new)>(nodes: seq<Node<V>>, roots: seq<Root>, c: int, r: nat, e: Node<V>,
                              nodes': seq<Node<V>>, roots': seq<Root>, s: nat)
    requires Slot(nodes, roots, c, r, e) && Inserted(nodes, roots, c, r, e, nodes', roots') && s < |roots|
    ensures TopsOk(nodes', roots'[s])
  {
    var id, list := |nodes|, ListOf(nodes, roots, c, r);
    assert TopsOk(nodes, roots[s]);
    SlotList(nodes, roots, c, r, e);
    if c < 0 && s == r {
      StayersKeepParent(nodes, nodes', list, roots'[r].tops, -1, e);
      FrontListOk(nodes, nodes', list, roots'[r].tops, -1, e.typ, e.context);
    } else {
      forall i | 0 <= i < |roots[s].tops| ensures nodes'[roots[s].tops[i]].parent == -1 {
        assert roots[s].typ == e.typ ==> s == r;
      }
      ListKept(nodes, nodes', roots[s].tops, -1, -1, roots[s].typ);
    }
  }

  lemma InsertedPlaced<V(!new)>(nodes: seq<Node<V>>, roots: seq<Root>, c: int, r: nat, e: Node<V>,
                                nodes': seq<Node<V>>, roots': seq<Root>, n: nat)
    requires Slot(nodes, roots, c, r, e) && Inserted(nodes, roots, c, r, e, nodes', roots') && n < |nodes'|
    ensures PlacedOk(nodes', roots', n)
  {
    var id, list := |nodes|, ListOf(nodes, roots, c, r);
    var list' := if c >= 0 then nodes'[c].kids else roots'[r].tops;
    if n == id {
      assert id == list'[0] && id in list';
      assert c < 0 ==> roots'[r].typ == e.typ;
    } else {
      assert PlacedOk(nodes, roots, n);
      if n !in nodes'[id].kids {
        if n in list { assert n in list'[1..] && n in list'; }
        if nodes[n].parent < 0 {
          var s :| 0 <= s < |roots| && roots[s].typ == nodes[n].typ && n in roots[s].tops;
          assert roots'[s].typ == nodes'[n].typ && n in roots'[s].tops;
        }
      }
    }
  }

  /** Installing a database below the closest one keeps the tree in order. */
  lemma InsertedOk<V(!new)>(nodes: seq<Node<V>>, roots: seq<Root>, c: int, r: nat, e: Node<V>,
                            nodes': seq<Node<V>>, roots': seq<Root>)
    requires Slot(nodes, roots, c, r, e) && Inserted(nodes, roots, c, r, e, nodes', roots')
    ensures TreeOk(nodes', roots')
  {
    forall s | 0 <= s < |roots'| ensures TopsOk(nodes', roots'[s]) {
      InsertedTops(nodes, roots, c, r, e, nodes', roots', s);
    }
    forall n | 0 <= n < |nodes'| ensures KidsOk(nodes', n) && PlacedOk(nodes', roots', n) {
      InsertedPlaced(nodes, roots, c, r, e, nodes', roots', n);
      if n == |nodes| { InsertedNew(nodes, roots, c, r, e, nodes', roots'); }
      else if n == c { InsertedParent(nodes, roots, c, r, e, nodes', roots'); }
      else { InsertedOther(nodes, roots, c, r, e, nodes', roots', n); }
    }
  }

  lemma StayersKeepParent<V(!new)>(nodes: seq<Node<V>>, nodes': seq<Node<V>>, list: seq<nat>, list': seq<nat>,
                                   parent: int, e: Node<V>)
    requires SiblingsOk(nodes, list, parent, e.typ) && |nodes'| == |nodes| + 1
    requires Rearranged(nodes, list, list', e.context)
    requires forall n :: 0 <= n < |nodes| ==>
               && (n in nodes'[|nodes|].kids <==> n in list && Adopts(e.context, nodes[n].context))
               && nodes'[n].parent == (if n in nodes'[|nodes|].kids then |nodes| else nodes[n].parent)
    ensures forall n :: n in list'[1..] ==> n < |nodes| && nodes'[n].parent == parent
  {
    forall n | n in list'[1..] ensures n < |nodes| && nodes'[n].parent == parent {
      assert n in list;
      var k :| 0 <= k < |list| && list[k] == n;
    }
  }

  // ----- A second database for the same context -----------------------------

  /** installdb's last case: the new node becomes the only child of c and takes
      over its children. */
  ghost predicate Stacked<V(!new)>(nodes: seq<Node<V>>, c: nat, e: Node<V>, nodes': seq<Node<V>>)
    requires c < |nodes|
  {
    var id := |nodes|;
    && SameDatabases(nodes, nodes') && |nodes'| == id + 1
    && nodes'[id] == e.(parent := c, kids := nodes[c].kids)
    && (forall n :: 0 <= n < id ==>
          && nodes'[n].parent == (if n in nodes[c].kids then id else nodes[n].parent)
          && nodes'[n].kids == (if n == c then [id] else nodes[n].kids))
  }

  lemma StackedOk<V(!new)>(nodes: seq<Node<V>>, roots: seq<Root>, c: nat, e: Node<V>, nodes': seq<Node<V>>)
    requires TreeOk(nodes, roots) && c < |nodes| && Stacked(nodes, c, e, nodes')
    requires nodes[c].typ == e.typ && nodes[c].context == e.context
    requires forall k :: k in nodes[c].kids ==> k < |nodes| && !(nodes[k].context <= e.context)
    ensures TreeOk(nodes', roots)
  {
    assert KidsOk(nodes, c);
    forall k | k in nodes[c].kids ensures k < |nodes| && nodes[k].parent == c {
      var i :| 0 <= i < |nodes[c].kids| && nodes[c].kids[i] == k;
    }
    forall s | 0 <= s < |roots| ensures TopsOk(nodes', roots[s]) {
      assert TopsOk(nodes, roots[s]);
      ListKept(nodes, nodes', roots[s].tops, -1, -1, roots[s].typ);
    }
    forall n | 0 <= n < |nodes'| ensures KidsOk(nodes', n) { StackedKids(nodes, c, e, nodes', n); }
    forall n | 0 <= n < |nodes'| ensures PlacedOk(nodes', roots, n) {
      if n < |nodes| { assert PlacedOk(nodes, roots, n); }
    }
  }

  lemma StackedKids<V(!new)>(nodes: seq<Node<V>>, c: nat, e: Node<V>, nodes': seq<Node<V>>, n: nat)
    requires c < |nodes| && Stacked(nodes, c, e, nodes') && n < |nodes'| && KidsOk(nodes, c)
    requires n < |nodes| ==> KidsOk(nodes, n)
    requires nodes[c].typ == e.typ && nodes[c].context == e.context
    requires forall k :: k in nodes[c].kids ==> k < |nodes| && nodes[k].parent == c && !(nodes[k].context <= e.context)
    ensures KidsOk(nodes', n)
  {
    var id, kids := |nodes|, nodes[c].kids;
    if n == id {
      ListKept(nodes, nodes', kids, c, id, e.typ);
      forall i | 0 <= i < |kids| ensures Above(nodes', id, kids[i]) {
        assert kids[i] in kids && Above(nodes, c, kids[i]);
      }
    } else if n != c {
      forall k | 0 <= k < id && nodes[k].parent == n ensures nodes'[k].parent == n {}
      NodeKept(nodes, nodes', n);
    }
  }

  // ----- The registry -------------------------------------------------------

  class Registry<V(!new)> {
    var nodes: seq<Node<V>>
    var roots: seq<Root>

    ghost predicate Valid()
      reads this
    {
      TreeOk(nodes, roots)
    }

    constructor ()
      ensures Valid() && nodes == [] && roots == []
    {
      nodes, roots := [], [];
    }

    /** Binary search for a type. */
    method FindRoot(typ: nat) returns (m: nat, found: bool)
      requires Valid()
      ensures m <= |roots| && (found ==> m < |roots| && roots[m].typ == typ)
      ensures !found ==> forall r :: 0 <= r < m ==> roots[r].typ < typ
      ensures !found ==> forall r :: m <= r < |roots| ==> typ < roots[r].typ
    {
      m := 0;
      var r := |roots|;
      while m < r
        invariant 0 <= m <= r <= |roots|
        invariant forall s :: 0 <= s < m ==> roots[s].typ < typ
        invariant forall s :: r <= s < |roots| ==> typ < roots[s].typ
      {
        var mid := m + (r - m) / 2;
        if roots[mid].typ == typ { return mid, true; }
        if typ < roots[mid].typ { r := mid; } else { m := mid + 1; }
      }
      found := false;
    }

    /** Walk down from the tops of a type to the closest applicable database. */
    method Walk(m: nat, prefix: string) returns (closest: int)
      requires Valid() && m < |roots|
      ensures closest < |nodes| && Closest(nodes, roots[m].typ, prefix, closest)
    {
      ghost var typ := roots[m].typ;
      hide TreeOk;
      closest := -1;
      var list, i := roots[m].tops, 0;
      ListAt(nodes, roots, m, -1);
      while i < |list|
        invariant 0 <= i <= |list| && -1 <= closest < |nodes|
        invariant list == if closest < 0 then roots[m].tops else nodes[closest].kids
        invariant closest >= 0 ==> Matches(nodes, typ, prefix, closest)
        invariant forall k :: 0 <= k < |list| ==> list[k] < |nodes| && nodes[list[k]].typ == typ
        invariant forall k :: 0 <= k < i ==> !Matches(nodes, typ, prefix, list[k])
        decreases if closest < 0 then |prefix| + 1 else |prefix| - |nodes[closest].context|,
                  |nodes| - closest, |list| - i
      {
        var db := list[i];
        if |nodes[db].context| <= |prefix| && nodes[db].context == prefix[..|nodes[db].context|] {
          WalkDown(nodes, roots, closest, db, i);
          closest := db;
          list, i := nodes[db].kids, 0;
          ListAt(nodes, roots, m, closest);
        } else {
          i := i + 1;
        }
      }
      if closest < 0 { NoTopMatches(nodes, roots, m, prefix); }
    }

    /** namedb without install: the closest database for a type and prefix. */
    method Lookup(typ: nat, prefix: string) returns (closest: int)
      requires Valid()
      ensures -1 <= closest < |nodes| || closest < 0
      ensures closest < |nodes| && Closest(nodes, typ, prefix, closest)
    {
      var m, found := FindRoot(typ);
      if found {
        closest := Walk(m, prefix);
      } else {
        closest := -1;
        NoRootNoMatch(nodes, roots, typ, prefix, m);
      }
    }

    /** NameInfo::query for one registry: the definition in the most specific
        database, the newest among equals. */
    method Query(typ: nat, prefix: string, name: string) returns (r: Option<V>)
      requires Valid()
      ensures r == None ==> forall n: nat :: Matches(nodes, typ, prefix, n) ==> name !in nodes[n].content
      ensures r.Some? ==> exists n: nat :: Best(nodes, typ, prefix, name, n) && r.value == nodes[n].content[name]
    {
      var db := Lookup(typ, prefix);
      ghost var start := db;
      ParentsAbove(nodes, roots);
      assert forall n: nat :: Matches(nodes, typ, prefix, n) <==> n in Chain(nodes, start) by {
        forall n: nat ensures Matches(nodes, typ, prefix, n) <==> n in Chain(nodes, start) {
          ChainExact(nodes, roots, typ, prefix, start, n);
        }
      }
      hide TreeOk, Closest;
      while db >= 0
        invariant db < |nodes| && ParentsOk(nodes)
        invariant forall n: nat :: n in Chain(nodes, db) ==> n in Chain(nodes, start)
        invariant forall n: nat :: n in Chain(nodes, start) && n !in Chain(nodes, db) ==>
            n < |nodes| && name !in nodes[n].content
        decreases if db < 0 then -1 else |nodes[db].context|, db
      {
        assert db in Chain(nodes, db);
        if name in nodes[db].content {
          FirstIsBest(nodes, typ, prefix, name, start, db);
          return Some(nodes[db].content[name]);
        }
        assert Chain(nodes, db) == [db as nat] + Chain(nodes, nodes[db].parent);
        db := nodes[db].parent;
      }
      r := None;
    }

    /** The adoption loop over the siblings of a new node `id`. */
    method Adopt(list: seq<nat>, prefix: string, id: nat) returns (stay: seq<nat>, adopted: seq<nat>)
      requires id < |nodes| && (forall k :: 0 <= k < |list| ==> list[k] < id)
      requires forall k, l :: 0 <= k < l < |list| ==> list[k] != list[l]
      modifies this`nodes
      ensures Subsequence(stay, list) && Subsequence(adopted, list)
      ensures Moved(old(nodes), list, prefix, id, stay, adopted, nodes)
    {
      stay, adopted := [], [];
      var i := 0;
      while i < |list|
        invariant 0 <= i <= |list|
        invariant Subsequence(stay, list[..i]) && Subsequence(adopted, list[..i])
        invariant Moved(old(nodes), list[..i], prefix, id, stay, adopted, nodes)
      {
        var x := list[i];
        assert list[..i + 1] == list[..i] + [x] && x !in list[..i];
        if Adopts(prefix, nodes[x].context) {
          nodes := nodes[x := nodes[x].(parent := id)];
          adopted := [x] + adopted;
        } else {
          stay := stay + [x];
        }
        i := i + 1;
      }
      assert list[..i] == list;
    }

    /** namedb's "prefix not found" case: link the new database below `closest`
        (or among the tops) and adopt the siblings it covers. */
    method Insert(m: nat, closest: int, e: Node<V>)
      requires Valid() && Slot(nodes, roots, closest, m, e)
      modifies this
      ensures Valid() && Grown(old(nodes), nodes, e)
    {
      var id := |nodes|;
      var list := if closest >= 0 then nodes[closest].kids else roots[m].tops;
      SlotDistinct(nodes, roots, closest, m, e);
      hide TreeOk;
      ghost var nodes0, roots0 := nodes, roots;
      nodes := nodes + [e.(parent := if closest < 0 then -1 else closest, kids := [])];
      ghost var nodes1 := nodes;
      var stay, adopted := Adopt(list, e.context, id);
      ghost var nodes2 := nodes;
      nodes := nodes[id := nodes[id].(kids := adopted)];
      if closest >= 0 {
        nodes := nodes[closest := nodes[closest].(kids := [id] + stay)];
      } else {
        roots := roots[m := Root(roots[m].typ, [id] + stay)];
      }
      LinkedOk(nodes0, roots0, closest, m, e, nodes1, nodes2, stay, adopted, nodes, roots);
    }

    /** installdb's case of a context that is already present. */
    method Stack(cur: nat, e: Node<V>)
      requires Valid() && cur < |nodes| && nodes[cur].typ == e.typ && nodes[cur].context == e.context
      requires Closest(nodes, e.typ, e.context, cur)
      modifies this`nodes
      ensures Valid() && Grown(old(nodes), nodes, e)
    {
      var id, kids := |nodes|, nodes[cur].kids;
      StackFacts(nodes, roots, cur, e);
      // the assertion of the source: the children are strictly more specific
      assert kids != [] ==> |nodes[kids[0]].context| > |e.context|;
      hide TreeOk, Closest;
      ghost var was := nodes;
      nodes := nodes + [e.(parent := cur, kids := kids)];
      nodes := nodes[cur := nodes[cur].(kids := [id])];
      var i := 0;
      while i < |kids|
        invariant 0 <= i <= |kids| && |nodes| == id + 1
        invariant nodes[id] == e.(parent := cur, kids := kids)
        invariant forall n :: 0 <= n < id ==>
                    nodes[n] == was[n].(parent := if n in kids[..i] then id else was[n].parent,
                                        kids := if n == cur then [id] else was[n].kids)
      {
        assert kids[..i + 1] == kids[..i] + [kids[i]] && kids[i] in kids;
        nodes := nodes[kids[i] := nodes[kids[i]].(parent := id)];
        i := i + 1;
      }
      assert kids[..i] == kids;
      StackedOk(was, roots, cur, e, nodes);
    }

    /** installdb, with namedb inlined at its only use that installs. */
    method Install(typ: nat, context: string, content: map<string, V>)
      requires Valid()
      modifies this
      ensures Valid() && Grown(old(nodes), nodes, Node(typ, context, -1, [], content))
    {
      var e := Node(typ, context, -1, [], content);
      var m, found := FindRoot(typ);
      if !found {
        NewRootOk(nodes, roots, m, e);
        roots := roots[..m] + [Root(typ, [|nodes|])] + roots[m..];
        nodes := nodes + [e];
      } else {
        var closest := Walk(m, context);
        if closest >= 0 && nodes[closest].context == context {
          Stack(closest, e);
        } else {
          SlotFound(nodes, roots, closest, m, e);
          Insert(m, closest, e);
        }
      }
    }
  }

  /** One more database, the earlier ones as they were. */
  ghost predicate Grown<V(!new)>(nodes: seq<Node<V>>, nodes': seq<Node<V>>, e: Node<V>) {
    && |nodes'| == |nodes| + 1 && SameDatabases(nodes, nodes')
    && nodes'[|nodes|].typ == e.typ && nodes'[|nodes|].context == e.context && nodes'[|nodes|].content == e.content
  }

  /** The state of the adoption loop over `list`. */
  ghost predicate Moved<V(!new)>(nodes: seq<Node<V>>, list: seq<nat>, prefix: string, id: nat, stay: seq<nat>,
                                 adopted: seq<nat>, nodes': seq<Node<V>>) {
    && |nodes'| == |nodes| && id < |nodes|
    && (forall n :: n in list ==> n < id)
    && (forall n :: 0 <= n < id ==>
          && (n in adopted <==> n in list && Adopts(prefix, nodes[n].context))
          && (n in stay <==> n in list && !Adopts(prefix, nodes[n].context)))
    && (forall n :: 0 <= n < |nodes| ==> nodes'[n] == if n in adopted then nodes[n].(parent := id) else nodes[n])
  }

  lemma SlotDistinct<V(!new)>(nodes: seq<Node<V>>, roots: seq<Root>, c: int, r: nat, e: Node<V>)
    requires Slot(nodes, roots, c, r, e)
    ensures var list := ListOf(nodes, roots, c, r);
            && (forall k :: 0 <= k < |list| ==> list[k] < |nodes|)
            && (forall k, l :: 0 <= k < l < |list| ==> list[k] != list[l])
  {
    var list := ListOf(nodes, roots, c, r);
    SlotList(nodes, roots, c, r, e);
    forall k, l | 0 <= k < l < |list| ensures list[k] != list[l] {
      assert !(nodes[list[k]].context <= nodes[list[l]].context);
    }
  }

  /** The links that Insert sets amount to an insertion. */
  lemma LinkedOk<V(!new)>(nodes: seq<Node<V>>, roots: seq<Root>, c: int, r: nat, e: Node<V>, nodes1: seq<Node<V>>,
                          nodes2: seq<Node<V>>,
                          stay: seq<nat>, adopted: seq<nat>, nodes': seq<Node<V>>, roots': seq<Root>)
    requires Slot(nodes, roots, c, r, e)
    requires nodes1 == nodes + [e.(parent := if c < 0 then -1 else c, kids := [])]
    requires Subsequence(stay, ListOf(nodes, roots, c, r)) && Subsequence(adopted, ListOf(nodes, roots, c, r))
    requires Moved(nodes1, ListOf(nodes, roots, c, r), e.context, |nodes|, stay, adopted, nodes2)
    requires var nodes3 := nodes2[|nodes| := nodes2[|nodes|].(kids := adopted)];
             if c >= 0 then nodes' == nodes3[c := nodes3[c].(kids := [|nodes|] + stay)] && roots' == roots
             else nodes' == nodes3 && roots' == roots[r := Root(roots[r].typ, [|nodes|] + stay)]
    ensures TreeOk(nodes', roots') && Grown(nodes, nodes', e)
  {
    hide TreeOk;
    var id, list := |nodes|, ListOf(nodes, roots, c, r);
    assert forall i :: 0 <= i < |adopted| ==> adopted[i] in list && adopted[i] < id;
    assert nodes'[id] == e.(parent := if c < 0 then -1 else c, kids := adopted);
    forall n | 0 <= n < id
      ensures nodes'[n] == nodes[n].(parent := if n in adopted then id else nodes[n].parent,
                                     kids := if n == c then [id] + stay else nodes[n].kids)
    {
      assert nodes1[n] == nodes[n];
    }
    var list' := if c >= 0 then nodes'[c].kids else roots'[r].tops;
    assert list' == [id] + stay && list'[1..] == stay;
    assert Rearranged(nodes, list, list', e.context);
    assert Inserted(nodes, roots, c, r, e, nodes', roots');
    InsertedOk(nodes, roots, c, r, e, nodes', roots');
  }

  lemma StackFacts<V(!new)>(nodes: seq<Node<V>>, roots: seq<Root>, c: nat, e: Node<V>)
    requires TreeOk(nodes, roots) && c < |nodes| && nodes[c].typ == e.typ && nodes[c].context == e.context
    requires Closest(nodes, e.typ, e.context, c)
    ensures forall k :: k in nodes[c].kids ==>
              k < |nodes| && !(nodes[k].context <= e.context) && |nodes[k].context| > |e.context|
  {
    assert KidsOk(nodes, c);
    forall k | k in nodes[c].kids
      ensures k < |nodes| && !(nodes[k].context <= e.context) && |nodes[k].context| > |e.context|
    {
      var i :| 0 <= i < |nodes[c].kids| && nodes[c].kids[i] == k;
      assert Above(nodes, c, nodes[c].kids[i]) && !Matches(nodes, e.typ, e.context, nodes[c].kids[i]);
    }
  }

  /** Where the walk ends is the slot for a context not present there. */
  lemma SlotFound<V(!new)>(nodes: seq<Node<V>>, roots: seq<Root>, c: int, r: nat, e: Node<V>)
    requires TreeOk(nodes, roots) && r < |roots| && roots[r].typ == e.typ
    requires c < |nodes| && Closest(nodes, e.typ, e.context, c) && (c >= 0 ==> nodes[c].context != e.context)
    ensures Slot(nodes, roots, c, r, e)
  {
    var list := ListOf(nodes, roots, c, r);
    if c >= 0 { assert KidsOk(nodes, c); } else { assert TopsOk(nodes, roots[r]); }
    forall k | k in list ensures k < |nodes| && !(nodes[k].context <= e.context) {
      var i :| 0 <= i < |list| && list[i] == k;
      assert !Matches(nodes, e.typ, e.context, list[i]);
    }
  }

  /** The chain is ordered from the most specific context to the least. */
  lemma {:induction false} ChainOrdered<V>(nodes: seq<Node<V>>, n: nat, i: nat, j: nat)
    requires ParentsOk(nodes) && n < |nodes| && i < j < |Chain(nodes, n)|
    ensures Above(nodes, Chain(nodes, n)[j], Chain(nodes, n)[i])
    decreases |nodes[n].context|, n
  {
    var rest := Chain(nodes, nodes[n].parent);
    assert Chain(nodes, n) == [n] + rest;
    assert Chain(nodes, n)[j] == rest[j - 1];
    if i == 0 {
      assert rest[j - 1] in rest;
      ChainAbove(nodes, nodes[n].parent, rest[j - 1]);
      if rest[j - 1] != nodes[n].parent {
        PrefixTrans(nodes[rest[j - 1]].context, nodes[nodes[n].parent].context, nodes[n].context);
      }
    } else {
      ChainOrdered(nodes, nodes[n].parent, i - 1, j - 1);
    }
  }

  // ----- Queries from an element --------------------------------------------

  /** getdb: an element's names are looked up in the compound that holds it, the
      part of its name up to the last slash. */
  function ContextOf(name: string): (p: string)
    ensures p <= name && (p == "" || p[|p| - 1] == '/')
    ensures '/' !in name[|p|..]
  {
    if name == "" then ""
    else if name[|name| - 1] == '/' then name
    else
      var p := ContextOf(name[..|name| - 1]);
      assert name[|p|..] == name[..|name| - 1][|p|..] + [name[|name| - 1]];
      p
  }

  /** NameInfo::query: the router's databases for the element's context first, the
      global ones for the empty context last. */
  method QueryElement<V(!new)>(router: Option<Registry<V>>, global: Registry<V>, typ: nat, ename: string, name: string)
    returns (r: Option<V>)
    requires global.Valid() && (router.Some? ==> router.value.Valid())
    ensures r == Decided(if router.Some? then router.value.nodes else global.nodes, typ,
                         if router.Some? then ContextOf(ename) else "", name,
                         Decided(global.nodes, typ, "", name, None))
  {
    if router.Some? {
      r := router.value.Query(typ, ContextOf(ename), name);
      DecidedIs(router.value.nodes, typ, ContextOf(ename), name, r, Decided(global.nodes, typ, "", name, None));
    } else {
      r := global.Query(typ, "", name);
      DecidedIs(global.nodes, typ, "", name, r, Decided(global.nodes, typ, "", name, None));
    }
    if r == None {
      r := global.Query(typ, "", name);
      DecidedIs(global.nodes, typ, "", name, r, None);
    }
  }

  /** What the databases that apply to a prefix say about a name, by definition:
      the value in the best one, or the fallback. */
  ghost function Decided<V(!new)>(nodes: seq<Node<V>>, typ: nat, prefix: string, name: string,
                                  fallback: Option<V>): Option<V> {
    if exists n: nat :: Best(nodes, typ, prefix, name, n) then
      var n: nat :| Best(nodes, typ, prefix, name, n);
      Some(nodes[n].content[name])
    else fallback
  }

  lemma DecidedIs<V(!new)>(nodes: seq<Node<V>>, typ: nat, prefix: string, name: string, r: Option<V>,
                           fallback: Option<V>)
    requires r == None ==> forall n: nat :: Matches(nodes, typ, prefix, n) ==> name !in nodes[n].content
    requires r.Some? ==> exists n: nat :: Best(nodes, typ, prefix, name, n) && r.value == nodes[n].content[name]
    ensures Decided(nodes, typ, prefix, name, fallback) == if r == None then fallback else r
  {
    if r.Some? {
      var n: nat :| Best(nodes, typ, prefix, name, n) && r.value == nodes[n].content[name];
      forall k: nat | Best(nodes, typ, prefix, name, k) ensures k == n {
        assert k == n || (Above(nodes, k, n) && Above(nodes, n, k));
      }
    }
  }

  /** n applies, defines the name, and no other applicable database that defines it
      is more specific. */
  ghost predicate Best<V>(nodes: seq<Node<V>>, typ: nat, prefix: string, name: string, n: nat) {
    && Matches(nodes, typ, prefix, n) && name in nodes[n].content
    && forall k: nat :: Matches(nodes, typ, prefix, k) && name in nodes[k].content && k != n ==> Above(nodes, k, n)
  }

  lemma FirstIsBest<V>(nodes: seq<Node<V>>, typ: nat, prefix: string, name: string, start: nat, db: nat)
    requires ParentsOk(nodes) && start < |nodes| && db < |nodes| && db in Chain(nodes, start)
    requires name in nodes[db].content
    requires forall n: nat :: Matches(nodes, typ, prefix, n) <==> n in Chain(nodes, start)
    requires forall n: nat :: n in Chain(nodes, start) && n !in Chain(nodes, db) ==>
        n < |nodes| && name !in nodes[n].content
    ensures Best(nodes, typ, prefix, name, db)
  {
    forall k: nat | Matches(nodes, typ, prefix, k) && name in nodes[k].content && k != db ensures Above(nodes, k, db) {
      ChainAbove(nodes, db, k);
    }
  }

  lemma ListAt<V>(nodes: seq<Node<V>>, roots: seq<Root>, m: nat, c: int)
    requires TreeOk(nodes, roots) && m < |roots| && c < |nodes| && (c >= 0 ==> nodes[c].typ == roots[m].typ)
    ensures var list := if c < 0 then roots[m].tops else nodes[c].kids;
            forall k :: 0 <= k < |list| ==> list[k] < |nodes| && nodes[list[k]].typ == roots[m].typ
  {
    if c >= 0 { assert KidsOk(nodes, c); } else { assert TopsOk(nodes, roots[m]); }
  }

  lemma WalkDown<V>(nodes: seq<Node<V>>, roots: seq<Root>, c: int, db: nat, i: nat)
    requires TreeOk(nodes, roots) && c < |nodes|
    requires c >= 0 ==> i < |nodes[c].kids| && nodes[c].kids[i] == db
    ensures c >= 0 ==> Above(nodes, c, db)
  {
    if c >= 0 { assert KidsOk(nodes, c); }
  }

  lemma NoTopMatches<V>(nodes: seq<Node<V>>, roots: seq<Root>, m: nat, prefix: string)
    requires TreeOk(nodes, roots) && m < |roots|
    requires forall k :: 0 <= k < |roots[m].tops| ==> !Matches(nodes, roots[m].typ, prefix, roots[m].tops[k])
    ensures Closest(nodes, roots[m].typ, prefix, -1)
  {
    forall n | 0 <= n < |nodes| && nodes[n].parent < 0 ensures !Matches(nodes, roots[m].typ, prefix, n) {
      assert PlacedOk(nodes, roots, n);
    }
  }

  lemma NoRootNoMatch<V>(nodes: seq<Node<V>>, roots: seq<Root>, typ: nat, prefix: string, m: nat)
    requires TreeOk(nodes, roots) && m <= |roots|
    requires (forall r :: 0 <= r < m ==> roots[r].typ < typ) && (forall r :: m <= r < |roots| ==> typ < roots[r].typ)
    ensures Closest(nodes, typ, prefix, -1)
  {
    forall n | 0 <= n < |nodes| && nodes[n].parent < 0 ensures !Matches(nodes, typ, prefix, n) {
      assert PlacedOk(nodes, roots, n);
    }
  }
}
