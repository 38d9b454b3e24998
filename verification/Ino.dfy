/** Element names as directory paths (the name part of lib/ino.cc). */
module Paths {
  import opened Strings

  predicate NameChar(c: char) {
    'a' <= c <= 'z' || 'A' <= c <= 'Z' || '0' <= c <= '9' || c == '_' || c == '@'
  }

  /** cp_is_click_id: letters, digits, '_', '@', and single inner slashes. */
  predicate IsClickId(s: string) {
    |s| > 0 && forall i :: 0 <= i < |s| ==> CharOk(s, i)
  }

  predicate CharOk(s: string, i: nat)
    requires i < |s|
  {
    NameChar(s[i]) || (s[i] == '/' && i != 0 && i != |s| - 1 && s[i + 1] != '/')
  }

  /** Directory `d` is a strict ancestor of path `s`; "" is the root. */
  ghost predicate Under(d: string, s: string) {
    if d == "" then s != "" else |d| < |s| && d <= s && s[|d|] == '/'
  }

  /** Position of the last slash, or -1. */
  function FindRight(s: string): (r: int)
    ensures -1 <= r < |s|
    ensures r >= 0 ==> s[r] == '/'
    ensures forall k :: r < k < |s| ==> s[k] != '/'
  {
    if s == [] then -1
    else if s[|s| - 1] == '/' then |s| - 1
    else FindRight(s[..|s| - 1])
  }

  function Parent(s: string): (d: string) {
    var slash := FindRight(s);
    if slash < 0 then "" else s[..slash]
  }

  /** The path of the child `component` of directory `d`. */
  function Join(d: string, component: string): (s: string) {
    if d == "" then component else d + "/" + component
  }

  /** The path reached by descending through `components` from the root. */
  function JoinAll(components: seq<string>): (s: string) {
    if components == [] then ""
    else Join(JoinAll(components[..|components| - 1]), components[|components| - 1])
  }

  /** The slash-free components of a path. */
  function Components(s: string): (r: seq<string>)
    decreases |s|
  {
    var slash := FindRight(s);
    if slash < 0 then [s] else Components(s[..slash]) + [s[slash + 1..]]
  }

  lemma LastComponent(s: string, slash: nat)
    requires IsClickId(s) && slash < |s| && s[slash] == '/' && slash == FindRight(s)
    ensures IsClickId(s[..slash]) && Join(s[..slash], s[slash + 1..]) == s
    ensures s[slash + 1..] != "" && '/' !in s[slash + 1..]
  {
    assert CharOk(s, slash);
    AncestorIsClickId(s[..slash], s);
    assert s == s[..slash] + "/" + s[slash + 1..];
  }

  /** Splitting a click id at its slashes and joining again gives it back. */
  lemma {:induction false} JoinComponents(s: string)
    requires IsClickId(s)
    ensures JoinAll(Components(s)) == s
    decreases |s|
  {
    var slash := FindRight(s);
    if slash < 0 {
      assert Components(s)[..0] == [];
    } else {
      LastComponent(s, slash);
      JoinComponents(s[..slash]);
      var front := Components(s[..slash]);
      assert Components(s)[..|front|] == front;
    }
  }

  /** The components of a click id are words of name characters. */
  lemma {:induction false} ComponentsPlain(s: string)
    requires IsClickId(s)
    ensures forall k :: 0 <= k < |Components(s)| ==> PlainName(Components(s)[k])
    decreases |s|
  {
    var slash := FindRight(s);
    if slash < 0 {
      forall i | 0 <= i < |s| ensures NameChar(s[i]) { assert CharOk(s, i); }
    } else {
      var last := s[slash + 1..];
      LastComponent(s, slash);
      ComponentsPlain(s[..slash]);
      forall i | 0 <= i < |last| ensures NameChar(last[i]) { assert CharOk(s, slash + 1 + i); }
    }
  }

  predicate PlainName(c: string) {
    c != "" && forall i :: 0 <= i < |c| ==> NameChar(c[i])
  }

  lemma JoinIsUnder(d: string, component: string)
    requires component != ""
    ensures Under(d, Join(d, component))
    ensures '/' !in component ==> Parent(Join(d, component)) == d
  {
    var s := Join(d, component);
    if d != "" { assert s[..|d|] == d; }
    if '/' !in component {
      var slash := FindRight(s);
      if d != "" {
        assert s[|d|] == '/';
        assert forall k :: |d| < k < |s| ==> s[k] == component[k - |d| - 1];
        assert slash == |d|;
      }
    }
  }

  lemma {:induction false} JoinAllPrefix(components: seq<string>, k: nat)
    requires k <= |components| && forall i :: 0 <= i < |components| ==> components[i] != ""
    ensures k < |components| ==> Under(JoinAll(components[..k]), JoinAll(components))
    decreases |components|
  {
    if k < |components| {
      var front := components[..|components| - 1];
      JoinIsUnder(JoinAll(front), components[|components| - 1]);
      JoinAllPrefix(front, k);
      assert k <= |front| && front[..k] == components[..k];
      if k < |front| {
        UnderTrans(JoinAll(components[..k]), JoinAll(front), JoinAll(components));
      } else {
        assert front[..k] == front;
      }
    }
  }

  /** `d` has room for name characters: a directory that a click id passes. */
  lemma AncestorIsClickId(d: string, s: string)
    requires IsClickId(s) && Under(d, s) && d != ""
    ensures IsClickId(d)
  {
    forall i | 0 <= i < |d| ensures CharOk(d, i) {
      assert CharOk(s, i) && d[i] == s[i];
      if i < |d| - 1 { assert d[i + 1] == s[i + 1]; }
    }
  }

  lemma UnderTrans(a: string, b: string, c: string)
    requires Under(a, b) && Under(b, c)
    ensures Under(a, c)
  {
    if a != "" { assert c[..|b|] == b; }
  }

  /** The ancestors of a path are its parent and the parent's ancestors. */
  lemma ParentIsLastAncestor(s: string, d: string)
    requires IsClickId(s)
    ensures Under(Parent(s), s)
    ensures Under(d, s) <==> d == Parent(s) || (Parent(s) != "" && Under(d, Parent(s)))
  {
    var slash := FindRight(s);
    if slash >= 0 {
      assert CharOk(s, slash);
      if Under(d, s) && d != "" {
        assert |d| <= slash;
        if |d| == slash { assert d == s[..slash]; }
      }
      if Under(d, Parent(s)) { UnderTrans(d, Parent(s), s); }
    }
  }

  lemma NextCharOrdered(p: string, b: string, c: string)
    requires p < b && p < c && Compare(b, c) <= 0
    ensures b[|p|] <= c[|p|]
  {
    assert b == p + b[|p|..] && c == p + c[|p|..];
    CompareAfterPrefix(p, b[|p|..], c[|p|..]);
  }

  /** '/' sorts below every other name character, so whatever sorts between a
      directory and something under it is under it as well. */
  lemma UnderIsContiguous(a: string, b: string, c: string)
    requires IsClickId(b) && Under(a, c)
    requires Compare(a, b) < 0 && Compare(b, c) <= 0
    ensures Under(a, b)
  {
    if a != "" {
      Between(a, b, c);
      assert a < b;
      NextCharOrdered(a, b, c);
      assert CharOk(b, |a|);
    }
  }

  /** A neighbour sorting just before `name` that starts with one of its
      directories either is that directory or lies in it. */
  lemma SharedDirectory(dir: string, last: string, name: string)
    requires IsClickId(last) && Under(dir, name) && dir <= last && Compare(last, name) <= 0
    ensures dir == last || Under(dir, last)
  {
    if dir != "" && dir != last {
      assert dir < last;
      NextCharOrdered(dir, last, name);
      assert CharOk(last, |dir|);
    }
  }

  lemma UnderSortsAfter(a: string, c: string)
    requires Under(a, c)
    ensures Compare(a, c) < 0
  {
    PrefixFirst(a, c);
  }
}

/** ClickIno: the sorted directory index over a router's element names. */
module Ino {
  import opened Wrappers
  import opened Machine
  import opened Powers
  import opened Qsort
  import opened Strings
  import opened Paths

  // ----- Data ---------------------------------------------------------------

  type U16 = x: int | 0 <= x < 0x1_0000

  /** struct ClickIno::Entry. */
  datatype Entry = Entry(name: string, elementnoPlus1: U16, xindex: U16, skip: U16, fake: bool)

  /** What lookup finds: a directory of names, the handlers of an element, the
      directory of element numbers, or one handler. */
  datatype Found = Nothing | Dir(elementno: int) | HandlerDir | EnumDir | Handler(index: nat)

  function EntryCompare(a: Entry, b: Entry): int { Compare(a.name, b.name) }

  // ----- Specification ------------------------------------------------------

  ghost predicate IsPath(names: seq<string>, d: string) {
    exists k :: 0 <= k < |names| && (d == names[k] || (d != "" && Under(d, names[k])))
  }

  /** Every element name and every directory on the way to one. */
  ghost function AllPaths(names: seq<string>): set<string> {
    set k, l | 0 <= k < |names| && 0 < l <= |names[k]| && (l == |names[k]| || names[k][l] == '/')
      :: names[k][..l]
  }

  /** What the source takes for granted of a router: its element names are
      distinct Click identifiers, and every index fits the 16-bit fields. */
  ghost predicate RouterOk(names: seq<string>) {
    && (forall k :: 0 <= k < |names| ==> IsClickId(names[k]))
    && (forall k, l :: 0 <= k < l < |names| ==> names[k] != names[l])
    && |AllPaths(names)| < 0x1_0000
  }

  ghost predicate HasName(x: seq<Entry>, d: string) {
    exists m :: 0 <= m < |x| && x[m].name == d
  }

  ghost predicate StrictlySorted(x: seq<Entry>) {
    forall i, j :: 0 <= i < j < |x| ==> Compare(x[i].name, x[j].name) < 0
  }

  ghost predicate NamesValid(x: seq<Entry>) {
    |x| > 0 && x[0].name == "" && forall i :: 0 < i < |x| ==> IsClickId(x[i].name)
  }

  ghost predicate Closed(x: seq<Entry>) {
    forall i, d :: 0 < i < |x| && Under(d, x[i].name) ==> HasName(x, d)
  }

  /** The entries are the root and exactly the paths of the router, in strict
      order: no duplicate, no gap, every ancestor present. */
  ghost predicate NamesOk(x: seq<Entry>, names: seq<string>) {
    && NamesValid(x) && StrictlySorted(x) && Closed(x)
    && (forall d :: d != "" ==> (HasName(x, d) <==> IsPath(names, d)))
  }

  /** Entry k lies under entry i exactly when i < k <= i + skip. */
  ghost predicate SpanAt(s: seq<Entry>, i: nat, skip: nat)
    requires i < |s|
  {
    && i + skip < |s|
    && forall k :: 0 <= k < |s| ==> (Under(s[i].name, s[k].name) <==> i < k <= i + skip)
  }

  /** Each `skip` delimits the descendants of its entry. */
  ghost predicate SkipOk(x: seq<Entry>) {
    forall i :: 0 <= i < |x| ==> SpanAt(x, i, x[i].skip)
  }

  /** `xindex` and `elementno_plus1` are mutually inverse. */
  ghost predicate InverseOk(x: seq<Entry>) {
    && (forall i :: 0 <= i < |x| ==> x[i].elementnoPlus1 < |x| && x[x[i].elementnoPlus1].xindex == i)
    && (forall k :: 0 <= k < |x| ==> x[k].xindex < |x| && x[x[k].xindex].elementnoPlus1 == k)
  }

  /** Element e is found under its own name; the other directories are fake. */
  ghost predicate ElementsOk(x: seq<Entry>, names: seq<string>) {
    && |names| < |x|
    && (forall i :: 0 < i < |x| && x[i].elementnoPlus1 <= |names| ==>
          0 < x[i].elementnoPlus1 && x[i].name == names[x[i].elementnoPlus1 - 1])
    && (forall i :: 0 <= i < |x| ==> (x[i].fake <==> x[i].elementnoPlus1 > |names|))
  }

  ghost predicate IndexOk(x: seq<Entry>, names: seq<string>) {
    NamesOk(x, names) && SkipOk(x) && InverseOk(x) && ElementsOk(x, names)
  }

  // ----- Paths of a router --------------------------------------------------

  lemma PathInSet(names: seq<string>, d: string)
    requires RouterOk(names)
    ensures IsPath(names, d) <==> d in AllPaths(names)
  {
    if IsPath(names, d) {
      var k :| 0 <= k < |names| && (d == names[k] || (d != "" && Under(d, names[k])));
      var l := |d|;
      assert IsClickId(names[k]);
      assert d == names[k][..l];
    }
    if d in AllPaths(names) {
      var k, l :| 0 <= k < |names| && 0 < l <= |names[k]| && (l == |names[k]| || names[k][l] == '/')
        && d == names[k][..l];
      assert d == names[k] || Under(d, names[k]);
    }
  }

  lemma AncestorIsPath(names: seq<string>, d: string, s: string)
    requires IsPath(names, s) && Under(d, s) && d != ""
    ensures IsPath(names, d)
  {
    var k :| 0 <= k < |names| && (s == names[k] || (s != "" && Under(s, names[k])));
    if s != names[k] { UnderTrans(d, s, names[k]); }
  }

  // ----- Consequences of order and closure ----------------------------------

  /** Descendants sit right behind their directory. */
  lemma DescendantsContiguous(x: seq<Entry>, i: nat, j: nat, k: nat)
    requires NamesValid(x) && StrictlySorted(x)
    requires i < j <= k < |x| && Under(x[i].name, x[k].name)
    ensures Under(x[i].name, x[j].name)
  {
    hide Compare, IsClickId, Under;
    if j < k {
      assert Compare(x[i].name, x[j].name) < 0 && Compare(x[j].name, x[k].name) < 0 && IsClickId(x[j].name);
      UnderIsContiguous(x[i].name, x[j].name, x[k].name);
    }
  }

  lemma DescendantsAfter(x: seq<Entry>, i: nat, k: nat)
    requires StrictlySorted(x) && i < |x| && k < |x| && Under(x[i].name, x[k].name)
    ensures i < k
  {
    hide Compare;
    UnderSortsAfter(x[i].name, x[k].name);
    if k < i {
      assert Compare(x[k].name, x[i].name) < 0;
      CompareFlips(x[k].name, x[i].name);
    }
  }

  /** The assertion in the skip loop: when only descendants of entry i lie
      between i and j, a slash at the right position in entry j can only follow
      entry i's own name.  Needs the index to be closed under ancestors. */
  lemma SlashMeansUnder(x: seq<Entry>, i: nat, j: nat)
    requires NamesValid(x) && StrictlySorted(x) && Closed(x)
    requires 0 < i < j < |x|
    requires forall k :: i < k < j ==> Under(x[i].name, x[k].name)
    requires |x[j].name| > |x[i].name| && x[j].name[|x[i].name|] == '/'
    ensures x[j].name[..|x[i].name|] == x[i].name
  {
    hide Compare, IsClickId;
    var d, w := x[i].name, x[j].name[..|x[i].name|];
    assert IsClickId(d);
    assert Under(w, x[j].name);
    assert HasName(x, w);
    var m :| 0 <= m < |x| && x[m].name == w;
    DescendantsAfter(x, m, j);
    if w != d {
      assert m != i;
      if m < i {
        // w sorts before d and d before x[j], so d is under w: impossible, same length
        UnderIsContiguous(w, d, x[j].name) by {
          assert Compare(x[m].name, x[i].name) < 0 && Compare(x[i].name, x[j].name) < 0;
        }
      }
    }
  }

  // ----- Building the name list ---------------------------------------------

  /** Element numbers: unique, in range, and telling real entries from fake. */
  ghost predicate NumbersOk(s: seq<Entry>, names: seq<string>) {
    && |names| < |s|
    && s[0].elementnoPlus1 == 0 && !s[0].fake
    && (forall i :: 0 < i < |s| ==> NumberOk(s[i], |s|, names))
    && (forall i, j :: 1 <= i < j < |s| ==> Number(s[i]) != Number(s[j]))
  }

  function Number(e: Entry): int { e.elementnoPlus1 }

  ghost predicate NumberOk(e: Entry, n: nat, names: seq<string>) {
    && 1 <= e.elementnoPlus1 < n
    && (e.fake <==> e.elementnoPlus1 > |names|)
    && (!e.fake ==> e.name == names[e.elementnoPlus1 - 1])
  }

  ghost predicate DistinctNames(s: seq<Entry>) {
    forall i, j :: 1 <= i < j < |s| ==> NameOf(s[i]) != NameOf(s[j])
  }

  function NameOf(e: Entry): string { e.name }

  ghost predicate AllPathNames(s: seq<Entry>, names: seq<string>) {
    forall i :: 0 < i < |s| ==> IsPath(names, s[i].name)
  }

  /** State of the directory-adding loop before entry i is looked at: entries
      below `nelem` are the sorted real names, the others are directories; every
      ancestor of the entries below i is present. */
  ghost predicate Dirs(s: seq<Entry>, names: seq<string>, i: nat) {
    var nelem := |names| + 1;
    && nelem <= |s| && 1 <= i <= nelem
    && ListOk(s, names)
    && StrictlySorted(s[..nelem])
    && (forall k :: 0 <= k < |names| ==> HasName(s, names[k]))
    && (forall m :: nelem <= m < |s| ==> UnderSome(s, i, s[m].name))
    && (forall k, d :: 1 <= k < i && Under(d, s[k].name) ==> HasName(s, d))
  }

  ghost predicate ListOk(s: seq<Entry>, names: seq<string>) {
    NamesValid(s) && NumbersOk(s, names) && DistinctNames(s) && AllPathNames(s, names)
  }

  ghost predicate UnderSome(s: seq<Entry>, i: nat, d: string) {
    exists k :: 1 <= k < i && k < |s| && Under(d, s[k].name)
  }

  lemma FewEntries(s: seq<Entry>, names: seq<string>)
    requires RouterOk(names) && |s| > 0 && DistinctNames(s) && AllPathNames(s, names)
    ensures |s| <= 0x1_0000
  {
    var all := set i | 1 <= i < |s| :: s[i].name;
    forall d | d in all ensures d in AllPaths(names) {
      PathInSet(names, d);
    }
    CardOfNames(s, |s|);
    SubsetCard(all, AllPaths(names));
  }

  lemma {:induction false} CardOfNames(s: seq<Entry>, n: nat)
    requires 1 <= n <= |s| && DistinctNames(s)
    ensures |set i | 1 <= i < n :: s[i].name| == n - 1
  {
    var all := set i | 1 <= i < n :: s[i].name;
    if n == 1 {
      assert all == {};
    } else {
      CardOfNames(s, n - 1);
      var rest := set i | 1 <= i < n - 1 :: s[i].name;
      assert all == rest + {s[n - 1].name};
      assert s[n - 1].name !in rest by {
        forall i | 1 <= i < n - 1 ensures s[i].name != s[n - 1].name {
          assert NameOf(s[i]) != NameOf(s[n - 1]);
        }
      }
    }
  }

  lemma {:induction false} SubsetCard<T>(a: set<T>, b: set<T>)
    requires a <= b
    ensures |a| <= |b|
  {
    if a != {} {
      var x :| x in a;
      SubsetCard(a - {x}, b - {x});
    }
  }

  /** An index exists only for routers whose paths fit the 16-bit fields: the skip of
      the root counts them all. */
  lemma IndexNeedsRoom(s: seq<Entry>, names: seq<string>)
    requires IndexOk(s, names) && forall k :: 0 <= k < |names| ==> IsClickId(names[k])
    ensures |AllPaths(names)| < 0x1_0000
  {
    var last := |s| - 1;
    assert SpanAt(s, 0, s[0].skip);
    if last > 0 { assert IsClickId(s[last].name) && Under(s[0].name, s[last].name); }
    var all := set i | 1 <= i < |s| :: s[i].name;
    forall d | d in AllPaths(names) ensures d in all {
      var k, l :| 0 <= k < |names| && 0 < l <= |names[k]| && (l == |names[k]| || names[k][l] == '/')
        && d == names[k][..l];
      assert d == names[k] || Under(d, names[k]);
      assert HasName(s, d);
    }
    SubsetCard(AllPaths(names), all);
    AtMostNames(s, |s|);
  }

  lemma {:induction false} AtMostNames(s: seq<Entry>, n: nat)
    requires 1 <= n <= |s|
    ensures |set i | 1 <= i < n :: s[i].name| <= n - 1
  {
    var all := set i | 1 <= i < n :: s[i].name;
    if n == 1 {
      assert all == {};
    } else {
      AtMostNames(s, n - 1);
      var rest := set i | 1 <= i < n - 1 :: s[i].name;
      assert all == rest + {s[n - 1].name};
    }
  }

  /** Filling and the first sort. */
  lemma FirstSort(u: seq<Entry>, t: seq<Entry>, names: seq<string>)
    requires RouterOk(names) && |u| == |names| + 1 <= 0x1_0000
    requires u[0] == Entry("", 0, 0, 0, false)
    requires forall a :: 1 <= a < |u| ==>
               u[a].name == names[a - 1] && u[a].elementnoPlus1 == a && !u[a].fake
    requires Rearranged(u, t, 1, |u|) && Sorted(t, 1, |u|, EntryCompare)
    ensures Dirs(t, names, 1)
  {
    assert t[0] == u[0];
    forall i | 0 < i < |t| ensures NumberOk(t[i], |t|, names) && IsClickId(t[i].name) && IsPath(names, t[i].name) {
      var j := RearrangedSource(u, t, 1, |u|, i);
      assert t[i] == u[j];
      assert u[j].name == names[j - 1];
    }
    RearrangedInjective(u, t, 1, |u|, Number);
    RearrangedInjective(u, t, 1, |u|, NameOf);
    forall k | 0 <= k < |names| ensures HasName(t, names[k]) {
      var j := RearrangedTarget(u, t, 1, |u|, k + 1);
      assert t[j].name == names[k];
    }
    StrictFromSorted(t);
    assert t[..|names| + 1] == t;
  }

  lemma StrictFromSorted(t: seq<Entry>)
    requires NamesValid(t) && DistinctNames(t) && Sorted(t, 1, |t|, EntryCompare)
    ensures StrictlySorted(t)
  {
    forall i, j | 0 <= i < j < |t| ensures Compare(t[i].name, t[j].name) < 0 {
      if i > 0 {
        assert EntryCompare(t[i], t[j]) <= 0 && NameOf(t[i]) != NameOf(t[j]);
      } else {
        assert IsClickId(t[j].name);
      }
    }
  }

  /** State of the inner loop over the slashes of entry i's name, from the
      right: `s0` is the list when the loop began, and the directories at
      slashes right of `slash` are present. */
  ghost predicate Climbing(s0: seq<Entry>, s: seq<Entry>, names: seq<string>, i: nat, slash: int) {
    && 1 <= i <= |names| && s0 <= s
    && Dirs(s0, names, i)
    && ListOk(s, names)
    && (slash == -1 || (0 < slash < |s[i].name| && s[i].name[slash] == '/'))
    && (forall m :: |s0| <= m < |s| ==> Under(s[m].name, s[i].name) && |s[m].name| > slash)
    && (forall d :: Under(d, s[i].name) && |d| > slash ==> HasName(s, d))
  }

  lemma HasNameGrows(s: seq<Entry>, t: seq<Entry>, d: string)
    requires HasName(s, d) && s <= t
    ensures HasName(t, d)
  {
    var m :| 0 <= m < |s| && s[m].name == d;
    assert t[m].name == d;
  }

  /** Sorted order puts a shared prefix into the neighbour as well. */
  lemma NeighbourShares(s: seq<Entry>, i: nat, k: nat, d: string)
    requires 1 <= k < i < |s| && StrictlySorted(s) && d <= s[k].name && d <= s[i].name
    ensures d <= s[i - 1].name
  {
    hide Compare, Under, IsClickId;
    PrefixFirst(d, s[k].name);
    if k < i - 1 {
      assert Compare(s[k].name, s[i - 1].name) < 0;
      CompareTrans(d, s[k].name, s[i - 1].name);
    }
    assert Compare(s[i - 1].name, s[i].name) < 0;
    Between(d, s[i - 1].name, s[i].name);
  }

  /** A directory the previous name does not share is not in the index yet. */
  lemma DirectoryIsNew(s0: seq<Entry>, s: seq<Entry>, names: seq<string>, i: nat, slash: nat)
    requires Climbing(s0, s, names, i, slash)
    requires !(s[i].name[..slash] <= s[i - 1].name)
    ensures !HasName(s, s[i].name[..slash])
  {
    hide Compare, IsClickId, NumbersOk, DistinctNames, AllPathNames;
    var d, reals := s[i].name[..slash], s0[..|names| + 1];
    assert Under(d, s[i].name);
    forall m | 0 <= m < |s0| ensures s0[m].name != d {
      if 1 <= m < i {
        if s0[m].name == d { NeighbourShares(reals, i, m, d); }
      } else if i <= m <= |names| {
        if s0[m].name == d {
          UnderSortsAfter(d, s0[i].name);
          if m > i { assert Compare(reals[i].name, reals[m].name) < 0; CompareFlips(d, s0[i].name); }
        }
      } else if |names| < m {
        var k :| 1 <= k < i && k < |s0| && Under(s0[m].name, s0[k].name);
        if s0[m].name == d { NeighbourShares(reals, i, k, d); }
      }
    }
  }

  /** Appending a new directory entry keeps the list well formed. */
  lemma AppendDirectory(s: seq<Entry>, names: seq<string>, e: Entry)
    requires ListOk(s, names) && |s| < 0x1_0000 && |names| < |s|
    requires IsClickId(e.name) && IsPath(names, e.name) && !HasName(s, e.name)
    requires e.elementnoPlus1 == |s| && e.fake
    ensures ListOk(s + [e], names)
  {
    var n, t := |s|, s + [e];
    assert t[0] == s[0];
    forall k | 0 < k < |t| ensures IsClickId(t[k].name) && NumberOk(t[k], |t|, names) && IsPath(names, t[k].name) {
      if k < n { assert t[k] == s[k] && NumberOk(s[k], |s|, names); }
    }
    forall a, b | 1 <= a < b < |t| ensures Number(t[a]) != Number(t[b]) && NameOf(t[a]) != NameOf(t[b]) {
      assert t[a] == s[a] && NumberOk(s[a], |s|, names);
      if b < n { assert t[b] == s[b] && Number(s[a]) != Number(s[b]) && NameOf(s[a]) != NameOf(s[b]); }
    }
  }

  /** Adding one directory keeps the inner loop's state; the next slash is the
      last one inside the new name. */
  lemma {:induction false} ClimbOne(s0: seq<Entry>, s: seq<Entry>, names: seq<string>, i: nat, slash: nat, e: Entry)
    requires RouterOk(names) && Climbing(s0, s, names, i, slash) && |s| < 0x1_0000
    requires !(s[i].name[..slash] <= s[i - 1].name)
    requires e.name == s[i].name[..slash] && e.elementnoPlus1 == |s| && e.fake
    ensures Climbing(s0, s + [e], names, i, FindRight(e.name))
  {
    var name, t, next := s[i].name, s + [e], FindRight(e.name);
    hide ListOk, Dirs, IsPath, IsClickId, FindRight, HasName, RouterOk;
    NewDirectoryOk(s0, s, names, i, slash, e.name);
    AppendDirectory(s, names, e);
    assert t[i] == s[i] && s <= t;
    SlashInside(name, slash, next);
    forall d | Under(d, name) && |d| > next ensures HasName(t, d) {
      ClimbedPast(s, e, name, slash, next, d);
    }
    NewNamesUnder(s0, s, e, name, slash, next);
  }

  lemma NewNamesUnder(s0: seq<Entry>, s: seq<Entry>, e: Entry, name: string, slash: nat, next: int)
    requires next < slash == |e.name| && Under(e.name, name) && |s0| <= |s|
    requires forall m :: |s0| <= m < |s| ==> Under(s[m].name, name) && |s[m].name| > slash
    ensures var t := s + [e]; forall m :: |s0| <= m < |t| ==> Under(t[m].name, name) && |t[m].name| > next
  {
    hide Under;
  }

  lemma SlashInside(name: string, slash: nat, next: int)
    requires IsClickId(name) && slash <= |name| && next == FindRight(name[..slash])
    ensures next == -1 || (0 < next < slash && name[next] == '/')
  {
    if next >= 0 { assert CharOk(name, next) && name[..slash][next] == name[next]; }
  }

  lemma ClimbedPast(s: seq<Entry>, e: Entry, name: string, slash: nat, next: int, d: string)
    requires slash < |name| && e.name == name[..slash] && Under(d, name) && |d| > next
    requires -1 <= next < slash && forall k :: next < k < slash ==> e.name[k] != '/'
    requires d == "" || |d| > slash ==> HasName(s, d)
    ensures HasName(s + [e], d)
  {
    var t := s + [e];
    assert |d| < slash ==> name[|d|] == e.name[|d|];
    if d == "" || |d| > slash {
      HasNameGrows(s, t, d);
    } else {
      assert t[|s|].name == d;
    }
  }

  lemma NewDirectoryOk(s0: seq<Entry>, s: seq<Entry>, names: seq<string>, i: nat, slash: nat, d: string)
    requires Climbing(s0, s, names, i, slash)
    requires !(s[i].name[..slash] <= s[i - 1].name) && d == s[i].name[..slash]
    ensures Under(d, s[i].name) && IsClickId(s[i].name)
    ensures IsClickId(d) && IsPath(names, d) && !HasName(s, d)
  {
    DirectoryIsNew(s0, s, names, i, slash);
    AncestorIsClickId(d, s[i].name);
    AncestorIsPath(names, d, s[i].name);
  }

  /** When the previous name shares the directory, that directory and all above
      it are present already. */
  lemma SharedIsPresent(s0: seq<Entry>, s: seq<Entry>, names: seq<string>, i: nat, slash: nat, d: string)
    requires Climbing(s0, s, names, i, slash)
    requires s[i].name[..slash] <= s[i - 1].name
    requires Under(d, s[i].name) && |d| <= slash
    ensures HasName(s, d)
  {
    hide Compare, IsClickId;
    var dir, last, name := s[i].name[..slash], s0[i - 1].name, s0[i].name;
    assert s0[..|names| + 1][i - 1] == s0[i - 1] && s0[..|names| + 1][i] == s0[i];
    assert Compare(last, name) < 0;
    SharedDirectory(dir, last, name);
    assert d == dir || Under(d, dir);
    if d != last {
      if Under(dir, last) && d != dir { UnderTrans(d, dir, last); }
      assert Under(d, s0[i - 1].name);
    } else {
      assert HasName(s0, d);
    }
    HasNameGrows(s0, s, d);
  }

  lemma DirsAreUnderSome(s0: seq<Entry>, s: seq<Entry>, names: seq<string>, i: nat, slash: int, m: nat)
    requires Climbing(s0, s, names, i, slash) && |names| < m < |s|
    ensures UnderSome(s, i + 1, s[m].name)
  {
    if m < |s0| {
      assert UnderSome(s0, i, s0[m].name);
      var k :| 1 <= k < i && k < |s0| && Under(s0[m].name, s0[k].name);
      assert s0[k] == s[k];
    }
  }

  lemma AncestorsPresent(s0: seq<Entry>, s: seq<Entry>, names: seq<string>, i: nat, slash: int, k: nat, d: string)
    requires Climbing(s0, s, names, i, slash)
    requires slash < 0 || s[i].name[..slash] <= s[i - 1].name
    requires 1 <= k <= i && Under(d, s[k].name)
    ensures HasName(s, d)
  {
    if k < i {
      assert s0[k] == s[k];
      HasNameGrows(s0, s, d);
    } else if |d| <= slash {
      SharedIsPresent(s0, s, names, i, slash, d);
    }
  }

  /** The inner loop is done with entry i. */
  lemma ClimbDone(s0: seq<Entry>, s: seq<Entry>, names: seq<string>, i: nat, slash: int)
    requires Climbing(s0, s, names, i, slash)
    requires slash < 0 || s[i].name[..slash] <= s[i - 1].name
    ensures Dirs(s, names, i + 1)
  {
    assert s0[..|names| + 1] == s[..|names| + 1];
    forall k | 0 <= k < |names| ensures HasName(s, names[k]) { HasNameGrows(s0, s, names[k]); }
    forall m | |names| < m < |s| ensures UnderSome(s, i + 1, s[m].name) {
      DirsAreUnderSome(s0, s, names, i, slash, m);
    }
    forall k, d | 1 <= k < i + 1 && Under(d, s[k].name) ensures HasName(s, d) {
      AncestorsPresent(s0, s, names, i, slash, k, d);
    }
  }

  lemma ClimbStart(s: seq<Entry>, names: seq<string>, i: nat)
    requires Dirs(s, names, i) && i <= |names|
    ensures Climbing(s, s, names, i, FindRight(s[i].name))
  {
    var name := s[i].name;
    var slash := FindRight(name);
    assert IsClickId(name);
    if slash >= 0 { assert CharOk(name, slash); }
    forall d | Under(d, name) && |d| > slash ensures HasName(s, d) {
      if d == "" { assert s[0].name == d; }
    }
  }

  /** All names are in; once the list is sorted the names are as specified. */
  lemma SortedNamesOk(s: seq<Entry>, names: seq<string>)
    requires ListOk(s, names) && StrictlySorted(s)
    requires forall k :: 0 <= k < |names| ==> HasName(s, names[k])
    requires forall k, d :: 1 <= k < |s| && Under(d, s[k].name) ==> HasName(s, d)
    ensures NamesOk(s, names)
  {
    forall d | d != "" ensures HasName(s, d) <==> IsPath(names, d) {
      if HasName(s, d) {
        var m :| 0 <= m < |s| && s[m].name == d;
        assert m > 0;
      }
      if IsPath(names, d) {
        var k :| 0 <= k < |names| && (d == names[k] || (d != "" && Under(d, names[k])));
        assert HasName(s, names[k]);
        var m :| 0 <= m < |s| && s[m].name == names[k];
        if d != names[k] { assert m > 0 && Under(d, s[m].name); }
      }
    }
  }

  lemma HasNameRearranged(s: seq<Entry>, t: seq<Entry>, d: string)
    requires |s| > 0 && Rearranged(s, t, 1, |s|) && HasName(s, d)
    ensures HasName(t, d)
  {
    var m :| 0 <= m < |s| && s[m].name == d;
    if m == 0 {
      assert t[0].name == d;
    } else {
      var k := RearrangedTarget(s, t, 1, |s|, m);
      assert t[k].name == d;
    }
  }

  lemma ListRearranged(s: seq<Entry>, t: seq<Entry>, names: seq<string>)
    requires ListOk(s, names) && Rearranged(s, t, 1, |s|)
    ensures ListOk(t, names)
  {
    assert t[0] == s[0];
    forall i | 0 < i < |t| ensures NumberOk(t[i], |t|, names) && IsClickId(t[i].name) && IsPath(names, t[i].name) {
      var j := RearrangedSource(s, t, 1, |s|, i);
      assert NumberOk(s[j], |s|, names);
    }
    RearrangedInjective(s, t, 1, |s|, Number);
    RearrangedInjective(s, t, 1, |s|, NameOf);
  }

  /** The second sort. */
  lemma SecondSort(s: seq<Entry>, t: seq<Entry>, names: seq<string>)
    requires Dirs(s, names, |names| + 1)
    requires Rearranged(s, t, 1, |s|) && Sorted(t, 1, |s|, EntryCompare)
    ensures NamesOk(t, names) && ListOk(t, names)
    ensures StrictlySorted(s) ==> NamesOk(s, names)
  {
    ListRearranged(s, t, names);
    StrictFromSorted(t);
    forall k | 0 <= k < |names| ensures HasName(t, names[k]) {
      HasNameRearranged(s, t, names[k]);
    }
    AncestorsEverywhere(s, names);
    forall k, d | 1 <= k < |t| && Under(d, t[k].name) ensures HasName(t, d) {
      var j := RearrangedSource(s, t, 1, |s|, k);
      assert Under(d, s[j].name);
      HasNameRearranged(s, t, d);
    }
    SortedNamesOk(t, names);
    if StrictlySorted(s) { SortedNamesOk(s, names); }
  }

  lemma AncestorsEverywhere(s: seq<Entry>, names: seq<string>)
    requires Dirs(s, names, |names| + 1)
    ensures forall k, d :: 1 <= k < |s| && Under(d, s[k].name) ==> HasName(s, d)
  {
    forall k, d | 1 <= k < |s| && Under(d, s[k].name) ensures HasName(s, d) {
      if k > |names| {
        assert UnderSome(s, |names| + 1, s[k].name);
        var m :| 1 <= m < |names| + 1 && Under(s[k].name, s[m].name);
        UnderTrans(d, s[k].name, s[m].name);
      }
    }
  }

  // ----- Skips and cross references -----------------------------------------

  lemma RootSpans(s: seq<Entry>, names: seq<string>)
    requires NamesOk(s, names)
    ensures |s| > 0 && SpanAt(s, 0, |s| - 1)
  {
    assert forall k :: 0 < k < |s| ==> IsClickId(s[k].name);
    SpanEnds(s, 0, |s|);
  }

  lemma SpanEnds(s: seq<Entry>, i: nat, j: nat)
    requires NamesValid(s) && StrictlySorted(s) && i < j <= |s|
    requires forall k :: i < k < j ==> Under(s[i].name, s[k].name)
    requires j == |s| || !Under(s[i].name, s[j].name)
    ensures SpanAt(s, i, j - i - 1)
  {
    forall k | 0 <= k < |s| ensures Under(s[i].name, s[k].name) <==> i < k < j {
      if Under(s[i].name, s[k].name) {
        DescendantsAfter(s, i, k);
        if k >= j { DescendantsContiguous(s, i, j, k); }
      }
    }
  }

  /** Same names throughout: everything that depends on names carries over. */
  ghost predicate SameNames(s: seq<Entry>, t: seq<Entry>) {
    |s| == |t| && forall k :: 0 <= k < |s| ==> t[k].name == s[k].name
  }

  lemma NamesCarryOver(s: seq<Entry>, t: seq<Entry>, names: seq<string>)
    requires SameNames(s, t) && NamesOk(s, names)
    ensures NamesOk(t, names)
  {
    forall d ensures HasName(s, d) <==> HasName(t, d) {
      if HasName(s, d) { var m :| 0 <= m < |s| && s[m].name == d; assert t[m].name == d; }
      if HasName(t, d) { var m :| 0 <= m < |t| && t[m].name == d; assert s[m].name == d; }
    }
  }

  lemma SpansCarryOver(s: seq<Entry>, t: seq<Entry>)
    requires SameNames(s, t) && forall i :: 0 <= i < |s| ==> SpanAt(s, i, t[i].skip)
    ensures SkipOk(t)
  {
    forall i | 0 <= i < |t| ensures SpanAt(t, i, t[i].skip) {
      assert SpanAt(s, i, t[i].skip);
      forall k | 0 <= k < |t| ensures Under(t[i].name, t[k].name) <==> i < k <= i + t[i].skip {
        assert t[k].name == s[k].name;
      }
    }
  }

  /** Distinct numbers below m that fill m places leave none out. */
  lemma EveryNumberUsed(s: seq<Entry>, names: seq<string>, v: nat)
    requires NumbersOk(s, names) && v < |s|
    ensures exists i :: 0 <= i < |s| && s[i].elementnoPlus1 == v
  {
    if v > 0 && forall i :: 0 <= i < |s| ==> s[i].elementnoPlus1 != v {
      var used := set i | 1 <= i < |s| :: Number(s[i]);
      CardOfNumbers(s, |s|);
      forall n | n in used ensures n in Upto(|s|) - {0, v} {
        var i :| 1 <= i < |s| && n == Number(s[i]);
        assert NumberOk(s[i], |s|, names);
      }
      CardOfUpto(|s|);
      assert Upto(|s|) - {0, v} == Upto(|s|) - {0} - {v};
      SubsetCard(used, Upto(|s|) - {0, v});
    }
  }

  ghost function Upto(n: nat): (r: set<int>)
    ensures forall k :: k in r <==> 0 <= k < n
  {
    if n == 0 then {} else Upto(n - 1) + {n - 1}
  }

  lemma {:induction false} CardOfUpto(n: nat)
    ensures |Upto(n)| == n
  {
    if n > 0 {
      CardOfUpto(n - 1);
      assert Upto(n) == Upto(n - 1) + {n - 1};
    }
  }

  lemma {:induction false} CardOfNumbers(s: seq<Entry>, n: nat)
    requires 1 <= n <= |s|
    requires forall i, j :: 1 <= i < j < |s| ==> Number(s[i]) != Number(s[j])
    ensures |set i | 1 <= i < n :: Number(s[i])| == n - 1
  {
    var all := set i | 1 <= i < n :: Number(s[i]);
    if n == 1 {
      assert all == {};
    } else {
      CardOfNumbers(s, n - 1);
      var rest := set i | 1 <= i < n - 1 :: Number(s[i]);
      assert all == rest + {Number(s[n - 1])};
    }
  }

  /** Once x[elementno].xindex has been set for all entries, the two fields are
      mutually inverse. */
  lemma CrossReferenced(s: seq<Entry>, names: seq<string>)
    requires NumbersOk(s, names)
    requires forall i :: 0 <= i < |s| ==> s[i].elementnoPlus1 < |s| && s[s[i].elementnoPlus1].xindex == i
    ensures InverseOk(s)
  {
    forall k | 0 <= k < |s| ensures s[k].xindex < |s| && s[s[k].xindex].elementnoPlus1 == k {
      EveryNumberUsed(s, names, k);
      var i :| 0 <= i < |s| && s[i].elementnoPlus1 == k;
      assert s[s[i].elementnoPlus1].xindex == i;
    }
  }

  // ----- The index object ---------------------------------------------------

  const ENOMEM := 12
  /** A capacity that always suffices: doubling stops at twice the need. */
  const ENOUGH := 0x2_0000
  const BLANK := Entry("", 0, 0, 0, false)

  lemma EntryOrder()
    ensures TotalPreorder(EntryCompare)
  {
    CompareIsPreorder();
    assert forall a, b :: EntryCompare(a, b) == Compare(a.name, b.name);
  }

  lemma {:induction false} WordHolds(n: nat)
    requires n <= 0x1_0000
    ensures n < Pow2(8 * SIZEOF_SIZE_T)
  {
    Pow2Monotone(17, 8 * SIZEOF_SIZE_T);
    assert Pow2(9) == 512 by { assert Pow2(4) == 16; }
    assert Pow2(17) == 0x2_0000 by { assert Pow2(13) == 8192; }
  }

  ghost predicate NoSkips(s: seq<Entry>) {
    forall k :: 1 <= k < |s| ==> s[k].skip == 0
  }

  class ClickIno {
    var x: seq<Entry>        // _x; its length is _cap
    var nentries: nat
    var router: seq<string>  // element names of _router
    var generation: nat
    var limit: nat           // the largest capacity the allocator can provide

    constructor (limit: nat)
      ensures x == [] && nentries == 0 && generation == 0 && this.limit == limit
    {
      x, nentries, router, generation, this.limit := [], 0, [], 0, limit;
    }

    method Cleanup()
      modifies this
      ensures x == [] && nentries == 0 && generation == 0 && router == [] && limit == old(limit)
    {
      x, nentries, router, generation := [], 0, [], 0;
    }

    /** Double the capacity until it reaches `minSize`. */
    method Grow(minSize: nat) returns (ok: bool)
      modifies this`x
      ensures old(x) <= x
      ensures if ok then |x| >= minSize else x == old(x) && |x| < minSize
      ensures limit >= ENOUGH && minSize <= 0x1_0000 ==> ok
    {
      if |x| >= minSize { return true; }
      var newCap := if |x| != 0 then |x| else 128;
      while newCap < minSize
        invariant |x| <= newCap && 0 < newCap && (newCap < 2 * minSize || newCap == 128)
      {
        newCap := newCap * 2;
      }
      if newCap > limit { return false; }
      x := x + seq(newCap - |x|, _ => BLANK);
      ok := true;
    }

    /** click_qsort on the entries behind the sentinel. */
    method SortEntries(n: nat)
      requires 0 < n <= |x| && n <= 0x1_0000
      modifies this`x
      ensures |x| == old(|x|) && Rearranged(old(x[..n]), x[..n], 1, n)
      ensures Sorted(x[..n], 1, n, EntryCompare)
    {
      var region := x[..n];
      var a := new Entry[n](i requires 0 <= i < n => region[i]);
      assert a[..] == region;
      WordHolds(n);
      EntryOrder();
      var c := new Comparator((_, e: Entry, f: Entry) => EntryCompare(e, f), EntryCompare);
      ClickQsort(a, 1, n - 1, c, SIZEOF_SIZE_T);
      x := a[..] + x[n..];
    }

    /** Add entries for the intermediate directories behind the real ones. */
    method AddDirectories(names: seq<string>) returns (ok: bool, n: nat)
      requires RouterOk(names) && |names| < |x|
      requires Dirs(x[..|names| + 1], names, 1) && NoSkips(x[..|names| + 1])
      modifies this`x
      ensures ok ==> |names| < n <= |x| && n <= 0x1_0000
      ensures limit >= ENOUGH ==> ok
      ensures ok ==> Dirs(x[..n], names, |names| + 1) && NoSkips(x[..n]) && x[0] == old(x[0])
    {
      hide *;
      var nelem := |names| + 1;
      n := nelem;
      var i := 1;
      while i < nelem
        invariant 1 <= i <= nelem <= n <= |x|
        invariant Dirs(x[..n], names, i) && NoSkips(x[..n]) && x[0] == old(x[0])
      {
        ok, n := AddAncestors(names, i, n);
        if !ok { return; }
        i := i + 1;
      }
      DirsFit(x[..n], names, i);
      ok := true;
    }

    /** The inner loop: directories of entry i that the previous entry lacks. */
    method AddAncestors(names: seq<string>, i: nat, n0: nat) returns (ok: bool, n: nat)
      requires RouterOk(names) && 1 <= i <= |names| < n0 <= |x|
      requires Dirs(x[..n0], names, i) && NoSkips(x[..n0])
      modifies this`x
      ensures ok ==> n0 <= n <= |x| && Dirs(x[..n], names, i + 1) && NoSkips(x[..n])
      ensures ok ==> x[0] == old(x[0])
      ensures limit >= ENOUGH ==> ok
    {
      hide *;
      ghost var s0 := x[..n0];
      ClimbStart(s0, names, i);
      var name, lastName := x[i].name, x[i - 1].name;
      var slash := FindRight(name);
      n := n0;
      ghost var s := s0;
      while slash >= 0 && (|lastName| < slash || name[..slash] != lastName[..slash])
        invariant n0 <= n <= |x| && -1 <= slash < |name|
        invariant s == x[..n] && s[0] == s0[0] && name == s[i].name && lastName == s[i - 1].name
        invariant Climbing(s0, s, names, i, slash) && NoSkips(s)
        decreases slash
      {
        NewFits(s0, s, names, i, slash);
        ok := AppendFake(name[..slash], n);
        if !ok { return; }
        ClimbOne(s0, s, names, i, slash, x[n]);
        NoSkipsPushed(s, x[n]);
        slash := FindRight(x[n].name);
        s := s + [x[n]];
        n := n + 1;
      }
      ClimbDone(s0, s, names, i, slash);
      ok := true;
    }

    /** Store one fake directory entry, making room for it. */
    method AppendFake(name: string, n: nat) returns (ok: bool)
      requires n <= |x| && n < 0x1_0000
      modifies this`x
      ensures ok ==> n < |x| && x[..n + 1] == old(x[..n]) + [x[n]]
      ensures limit >= ENOUGH ==> ok
      ensures ok ==> x[n].name == name && x[n].elementnoPlus1 == n && x[n].skip == 0 && x[n].fake
    {
      if n >= |x| {
        ok := Grow(n + 1);
        if !ok { return; }
      }
      x := x[n := Entry(name, n, x[n].xindex, 0, true)];
      ok := true;
    }

    /** Calculate `skip`. */
    method CalculateSkips(n: nat, names: seq<string>)
      requires 1 < n <= |x| && n <= 0x1_0000
      requires NamesOk(x[..n], names) && NoSkips(x[..n])
      modifies this`x
      ensures |x| == old(|x|)
      ensures forall k :: 0 <= k < n ==> SameButSkip(old(x)[k], x[k])
      ensures SkipOk(x[..n])
    {
      hide NamesOk, SkipOk, SpanAt, NamesValid, Closed, StrictlySorted, IsPath, Under;
      ghost var s := x[..n];
      x := x[0 := x[0].(skip := n - 1)];
      RootSpans(s, names);
      var i := 1;
      while i < n - 1
        invariant 1 <= i <= n - 1 && |x| == old(|x|)
        invariant forall k :: 0 <= k < n ==> SameButSkip(s[k], x[k])
        invariant forall k :: i <= k < n ==> x[k].skip == 0
        invariant forall k :: 0 <= k < i ==> SpanAt(s, k, x[k].skip)
      {
        SkipFrom(i, n, names, s);
        i := i + 1;
      }
      LastHasNoChildren(s, names);
      SpansCarryOver(s, x[..n]);
    }

    /** The inner loop: count the descendants of entry i.  The assertion of the
        source is the assert in the body. */
    method SkipFrom(i: nat, n: nat, names: seq<string>, ghost s: seq<Entry>)
      requires 0 < i < n == |s| <= |x| && n <= 0x1_0000 && NamesOk(s, names)
      requires forall k :: 0 <= k < n ==> x[k].name == s[k].name
      requires x[i].skip == 0
      modifies this`x
      ensures |x| == old(|x|) && x == old(x)[i := old(x)[i].(skip := x[i].skip)]
      ensures SpanAt(s, i, x[i].skip)
    {
      hide NamesOk, SpanAt;
      var name := x[i].name;
      var length := |name|;
      var j := i + 1;
      while j < n && |x[j].name| > length && x[j].name[length] == '/'
        invariant i < j <= n && |x| == old(|x|) && x[i].skip == j - i - 1
        invariant x == old(x)[i := old(x)[i].(skip := x[i].skip)]
        invariant forall k :: i < k < j ==> Under(name, s[k].name)
      {
        SkipAssertion(s, names, i, j);
        assert x[j].name[..length] == name;
        x := x[i := x[i].(skip := x[i].skip + 1)];
        j := j + 1;
      }
      SkipDone(s, names, i, j);
    }

    /** Calculate `xindex`. */
    method CalculateXindex(n: nat, names: seq<string>)
      requires 0 < n <= |x| && n <= 0x1_0000 && NumbersOk(x[..n], names) && x[0].xindex == 0
      modifies this`x
      ensures |x| == old(|x|)
      ensures forall k :: 0 <= k < n ==> SameButXindex(old(x)[k], x[k])
      ensures InverseOk(x[..n])
    {
      ghost var s := x[..n];
      ghost var num := seq(n, k requires 0 <= k < n => Number(s[k]));
      NumbersList(s, names, num);
      assert NumbersAre(x, num);
      SetXindexes(n, num);
      XindexDone(s, x[..n], names, num);
    }

    method SetXindexes(n: nat, ghost num: seq<int>)
      requires 0 < n <= |x| && n <= 0x1_0000 && |num| == n && x[0].xindex == num[0] == 0
      requires NumbersAre(x, num)
      modifies this`x
      ensures |x| == old(|x|)
      ensures forall k :: 0 <= k < n ==> SameButXindex(old(x)[k], x[k])
      ensures XindexSet(x, num, n)
    {
      hide NumbersAre;
      var i := 1;
      while i < n
        invariant 1 <= i <= n && |x| == old(|x|)
        invariant forall k :: 0 <= k < n ==> SameButXindex(old(x)[k], x[k])
        invariant NumbersAre(x, num) && XindexSet(x, num, i)
      {
        SetOne(x, num, i);
        var e := x[i].elementnoPlus1;
        x := x[e := x[e].(xindex := i)];
        i := i + 1;
      }
    }

    ghost predicate Valid()
      reads this
    {
      0 < nentries <= |x| && RouterOk(router) && IndexOk(x[..nentries], router)
    }

    /** Build the index for a router with the given element names. */
    method TruePrepare(names: seq<string>, gen: nat) returns (r: int)
      requires RouterOk(names)
      modifies this
      ensures r == 0 || r == -ENOMEM
      ensures r == 0 ==> Valid() && router == names && generation == gen
      ensures r != 0 ==> generation == old(generation) || generation == 0
      ensures limit == old(limit) && (limit >= ENOUGH ==> r == 0)
    {
      var nelem := |names| + 1;
      NamesFit(names);
      if nelem < nentries / 2 && nentries > 256 { Cleanup(); }
      var ok := Grow(nelem);
      if !ok { return -ENOMEM; }
      x := x[0 := BLANK];
      nentries := 1;
      if nelem == 1 {
        router, generation := names, gen;
        EmptyIndexOk(x[..1], names);
        return 0;
      }
      r := FillAndSort(names);
      if r == 0 { generation := gen; }
    }

    method FillAndSort(names: seq<string>) returns (r: int)
      requires RouterOk(names) && 0 < |names| < |x| && x[0] == BLANK
      modifies this`x, this`nentries, this`router
      ensures r == 0 || r == -ENOMEM
      ensures r == 0 ==> Valid() && router == names
      ensures limit >= ENOUGH ==> r == 0
    {
      hide RouterOk, Dirs, Listed, Sorted, Rearranged, IndexOk, NoSkips;
      var nelem := |names| + 1;
      NamesFit(names);
      var i := 1;
      while i < nelem
        invariant 1 <= i <= nelem <= |x| && x[0] == BLANK
        invariant Filled(x, names, i)
      {
        FillOne(x, names, i);
        x := x[i := Entry(names[i - 1], i, x[i].xindex, 0, false)];
        i := i + 1;
      }
      ghost var u := x[..nelem];
      SortEntries(nelem);
      AfterFirstSort(u, x[..nelem], names);
      var ok, n := AddDirectories(names);
      if !ok { return -ENOMEM; }
      ghost var s := x[..n];
      if n != nelem {
        SortEntries(n);
        AfterSecondSort(s, x[..n], names);
      } else {
        NoSecondSort(s, names);
      }
      assert Listed(x[..n], names);
      Annotate(n, names);
      nentries, router := n, names;
      r := 0;
    }

    /** The last two passes. */
    method Annotate(n: nat, names: seq<string>)
      requires 1 < n <= |x| && n <= 0x1_0000 && Listed(x[..n], names)
      modifies this`x
      ensures |x| == old(|x|) && IndexOk(x[..n], names)
    {
      ghost var listed := x[..n];
      CalculateSkips(n, names);
      ghost var skipped := x[..n];
      SkipsCarry(listed, skipped, names);
      CalculateXindex(n, names);
      IndexDone(skipped, x[..n], names);
    }

    // ----- Queries ----------------------------------------------------------

    /** The directory an inode's element number stands for; -1 is the root. */
    ghost function DirName(elementno: int): string
      reads this
      requires -1 <= elementno < nentries - 1 && nentries <= |x|
    {
      var xi := x[elementno + 1].xindex;
      if xi < |x| then x[xi].name else ""
    }

    /** name_search: binary search among entries that differ behind `offset`. */
    method NameSearch(n: string, firstXi: int, lastXi: int, offset: nat) returns (r: int)
      requires 0 <= firstXi && lastXi < |x|
      requires SuffixSorted(x, firstXi, lastXi, offset)
      ensures r == -1 || firstXi <= r <= lastXi
      ensures r >= 0 ==> x[r].name[offset..] == n
      ensures r < 0 ==> forall k :: firstXi <= k <= lastXi ==> x[k].name[offset..] != n
    {
      hide Compare;
      var first, last := firstXi, lastXi;
      while first <= last
        invariant firstXi <= first && last <= lastXi
        invariant forall k :: firstXi <= k <= lastXi && !(first <= k <= last) ==> x[k].name[offset..] != n
        decreases last + 1 - first
      {
        var mid := first + (last - first) / 2;
        var cmp := Compare(n, x[mid].name[offset..]);
        if cmp == 0 { return mid; }
        SearchHalf(x, firstXi, lastXi, offset, mid, n);
        if cmp < 0 { last := mid - 1; } else { first := mid + 1; }
      }
      r := -1;
    }

    /** element_name_search: a child is found exactly when its path exists. */
    method ElementNameSearch(n: string, elementno: int) returns (r: int)
      requires Valid() && -1 <= elementno < nentries - 1
      ensures r == -1 || 0 < r < nentries
      ensures r >= 0 <==> IsPath(router, Join(DirName(elementno), n))
      ensures r >= 0 ==> x[r].name == Join(DirName(elementno), n)
    {
      hide IndexOk, RouterOk, Hopped, SuffixSorted, IsPath;
      ghost var s := x[..nentries];
      var xi := x[elementno + 1].xindex;
      assert x[elementno + 1] == s[elementno + 1];
      SpanBounds(s, router, elementno + 1);
      var d := x[xi].name;
      var offset := if d != "" then |d| + 1 else 0;
      SpanSuffixes(s, router, xi);
      assert x[xi] == s[xi];
      SuffixesCarry(s, x, xi + 1, xi + x[xi].skip, offset);
      r := NameSearch(n, xi + 1, xi + x[xi].skip, offset);
      ChildFound(s, router, xi, n, r);
    }

    /** lookup in the root or in an element's directory: what a component names.
        `handler` gives the visible handlers of the element. */
    method Lookup(elementno: int, component: string, handler: string -> Option<nat>) returns (r: Found)
      requires Valid() && -1 <= elementno < nentries - 1
      ensures r.Dir? ==> -1 <= r.elementno < nentries - 1
      ensures Target(router, DirName(elementno), component) == if r.Dir? then Some(DirName(r.elementno)) else None
      ensures r == EnumDir <==> component == ".e" && elementno == -1
      ensures r == HandlerDir <==> component == ".h" && elementno < |router|
      ensures r.Handler? <==>
              && component != "" && component[0] != '.' && elementno < |router| && handler(component).Some?
              && !IsPath(router, Join(DirName(elementno), component))
      ensures r.Handler? ==> handler(component) == Some(r.index)
    {
      hide IndexOk, RouterOk, Hopped, SuffixSorted, IsPath;
      if component == "" { return Nothing; }
      DotsAreNoPath(router, DirName(elementno), component);
      if component == "." { return Dir(elementno); }
      if elementno == -1 && component == ".e" { return EnumDir; }
      FakeIsBeyond(x[..nentries], router, elementno + 1);
      if component == ".h" && !x[x[elementno + 1].xindex].fake { return HandlerDir; }
      var found := ElementNameSearch(component, elementno);
      if found >= 0 {
        InverseAt(x[..nentries], router, found);
        return Dir(x[found].elementnoPlus1 - 1);
      }
      if elementno < |router| && component[0] != '.' && handler(component).Some? {
        return Handler(handler(component).value);
      }
      if component == ".." {
        var parent := DotDot(elementno);
        return Dir(parent);
      }
      r := Nothing;
    }

    /** Looking `components` up one by one from the root arrives exactly where they
        lead.  The result is an element number, or -2. */
    method Walk(components: seq<string>, handler: (int, string) -> Option<nat>) returns (elementno: int)
      requires Valid()
      ensures elementno == -2 || -1 <= elementno < nentries - 1
      ensures Resolve(router, components) == if elementno != -2 then Some(DirName(elementno)) else None
    {
      hide IndexOk, RouterOk, Hopped, SuffixSorted, IsPath, Target;
      elementno := -1;
      RootIsRoot(x[..nentries], router);
      var i := 0;
      while i < |components|
        invariant 0 <= i <= |components| && -1 <= elementno < nentries - 1
        invariant Resolve(router, components[..i]) == Some(DirName(elementno))
      {
        var e := elementno;
        var found := Lookup(elementno, components[i], c => handler(e, c));
        assert components[..i + 1][..i] == components[..i];
        if !found.Dir? {
          ResolveStops(router, components, i + 1);
          return -2;
        }
        elementno := found.elementno;
        i := i + 1;
      }
      assert components[..i] == components;
    }

    /** Going down a full name component by component reaches its entry exactly when
        the path exists. */
    method WalkName(s: string, handler: (int, string) -> Option<nat>) returns (elementno: int)
      requires Valid() && IsClickId(s)
      ensures elementno == -2 || -1 <= elementno < nentries - 1
      ensures elementno != -2 <==> IsPath(router, s)
      ensures elementno != -2 ==> DirName(elementno) == s
    {
      hide IndexOk, IsPath, Resolve, Components, JoinAll;
      JoinComponents(s);
      ComponentsPlain(s);
      NoComponents(s);
      ResolvePlain(router, Components(s));
      elementno := Walk(Components(s), handler);
    }

    /** ".." in a named directory: the source's assertion that the parent is
        found always holds. */
    method DotDot(elementno: int) returns (parent: int)
      requires Valid() && -1 <= elementno < nentries - 1
      ensures -1 <= parent < nentries - 1
      ensures DirName(parent) == Parent(DirName(elementno))
    {
      hide IndexOk, RouterOk, Hopped, SuffixSorted, IsPath;
      ghost var s := x[..nentries];
      RootIsRoot(s, router);
      var xi := x[elementno + 1].xindex;
      assert x[elementno + 1] == s[elementno + 1];
      SpanBounds(s, router, elementno + 1);
      assert x[xi] == s[xi];
      var slash := FindRight(x[xi].name);
      if slash < 0 { return -1; }
      AllSuffixes(s, router);
      SuffixesCarry(s, x, 1, nentries - 1, 0);
      var found := NameSearch(x[xi].name[..slash], 1, nentries - 1, 0);
      ParentPresent(s, router, xi, found);
      assert found >= 0;
      InverseAt(s, router, found);
      parent := x[found].elementnoPlus1 - 1;
    }

    /** nlink's hop from subtree to subtree counts the immediate
        subdirectories. */
    method CountSubdirectories(elementno: int) returns (c: nat)
      requires Valid() && -1 <= elementno < nentries - 1
      ensures c == |Subdirectories(x[..nentries], DirName(elementno))|
    {
      hide IndexOk, RouterOk, Hopped, SuffixSorted, IsPath;
      ghost var s := x[..nentries];
      assert x[elementno + 1] == s[elementno + 1];
      SpanBounds(s, router, elementno + 1);
      ghost var dir := x[elementno + 1].xindex;
      var xi := x[elementno + 1].xindex + 1;
      var next := xi + x[xi - 1].skip;
      assert s[dir] == x[dir];
      c := 0;
      HopStart(s, dir);
      while xi < next
        invariant dir < xi <= next <= |s| && next == dir + s[dir].skip + 1
        invariant Hopped(s, dir, xi) && c == |SubdirsBelow(s, dir, xi)|
        decreases next - xi
      {
        assert x[xi] == s[xi];
        HopOne(s, router, dir, xi);
        c := c + 1;
        xi := xi + x[xi].skip + 1;
      }
      HopsDone(s, router, dir);
    }
  }

  // ----- Facts behind the queries -------------------------------------------

  ghost predicate SuffixSorted(x: seq<Entry>, first: int, last: int, offset: nat)
    requires 0 <= first && last < |x|
  {
    && (forall k :: first <= k <= last ==> offset <= |x[k].name|)
    && (forall i, j :: first <= i < j <= last ==> Compare(x[i].name[offset..], x[j].name[offset..]) < 0)
  }

  lemma SuffixesCarry(s: seq<Entry>, x: seq<Entry>, first: int, last: int, offset: nat)
    requires s <= x && 0 <= first && last < |s| && SuffixSorted(s, first, last, offset)
    ensures SuffixSorted(x, first, last, offset)
  {
    hide Compare;
    forall i, j | first <= i < j <= last ensures Compare(x[i].name[offset..], x[j].name[offset..]) < 0 {
      assert x[i] == s[i] && x[j] == s[j];
    }
  }

  lemma SearchHalf(x: seq<Entry>, first: int, last: int, offset: nat, mid: int, n: string)
    requires 0 <= first <= mid <= last < |x| && SuffixSorted(x, first, last, offset)
    ensures Compare(n, x[mid].name[offset..]) < 0 ==>
              forall k :: mid <= k <= last ==> x[k].name[offset..] != n
    ensures Compare(n, x[mid].name[offset..]) > 0 ==>
              forall k :: first <= k <= mid ==> x[k].name[offset..] != n
  {
    hide Compare;
    forall k | first <= k <= last && x[k].name[offset..] == n
      ensures k < mid ==> Compare(n, x[mid].name[offset..]) < 0
      ensures k > mid ==> Compare(n, x[mid].name[offset..]) > 0
    {
      if k > mid { CompareFlips(x[mid].name[offset..], n); }
    }
  }

  lemma SpanBounds(s: seq<Entry>, names: seq<string>, k: nat)
    requires IndexOk(s, names) && k < |s|
    ensures s[k].xindex < |s| && s[k].xindex + s[s[k].xindex].skip < |s|
  {
    assert SpanAt(s, s[k].xindex, s[s[k].xindex].skip);
  }

  lemma InverseAt(s: seq<Entry>, names: seq<string>, i: nat)
    requires IndexOk(s, names) && i < |s|
    ensures s[i].elementnoPlus1 < |s| && s[s[i].elementnoPlus1].xindex == i
  {
  }

  /** Entry 0 belongs to element number -1 and is the root. */
  lemma RootIsRoot(s: seq<Entry>, names: seq<string>)
    requires IndexOk(s, names)
    ensures s[0].xindex == 0 && s[0].name == ""
  {
    assert s[s[0].xindex].elementnoPlus1 == 0;
  }

  lemma SuffixesDiffer(p: string, a: string, b: string)
    requires p <= a && p <= b && Compare(a, b) < 0
    ensures Compare(a[|p|..], b[|p|..]) < 0
  {
    assert a == p + a[|p|..] && b == p + b[|p|..];
    CompareAfterPrefix(p, a[|p|..], b[|p|..]);
  }

  lemma SpanSuffixes(s: seq<Entry>, names: seq<string>, xi: nat)
    requires IndexOk(s, names) && xi < |s|
    ensures xi + s[xi].skip < |s|
    ensures var d := s[xi].name;
            SuffixSorted(s, xi + 1, xi + s[xi].skip, if d != "" then |d| + 1 else 0)
  {
    hide Compare, NamesValid, Closed, InverseOk, ElementsOk;
    var d := s[xi].name;
    var p := if d != "" then d + "/" else "";
    assert SpanAt(s, xi, s[xi].skip);
    forall k | xi < k <= xi + s[xi].skip ensures p <= s[k].name {
      assert Under(d, s[k].name);
    }
    forall i, j | xi < i < j <= xi + s[xi].skip
      ensures Compare(s[i].name[|p|..], s[j].name[|p|..]) < 0
    {
      assert Compare(s[i].name, s[j].name) < 0;
      SuffixesDiffer(p, s[i].name, s[j].name);
    }
  }

  lemma AllSuffixes(s: seq<Entry>, names: seq<string>)
    requires IndexOk(s, names)
    ensures SuffixSorted(s, 1, |s| - 1, 0)
  {
    hide Compare, NamesValid, Closed, InverseOk, ElementsOk;
    forall i, j | 1 <= i < j < |s| ensures Compare(s[i].name[0..], s[j].name[0..]) < 0 {
      assert s[i].name[0..] == s[i].name && s[j].name[0..] == s[j].name;
    }
  }

  lemma ChildFound(s: seq<Entry>, names: seq<string>, xi: nat, n: string, r: int)
    requires RouterOk(names) && IndexOk(s, names) && xi < |s| && xi + s[xi].skip < |s|
    requires var d := s[xi].name; var offset := if d != "" then |d| + 1 else 0;
             SuffixSorted(s, xi + 1, xi + s[xi].skip, offset)
    requires r == -1 || xi < r <= xi + s[xi].skip
    requires var d := s[xi].name; var offset := if d != "" then |d| + 1 else 0;
             && (r >= 0 ==> s[r].name[offset..] == n)
             && (r < 0 ==> forall k :: xi < k <= xi + s[xi].skip ==> s[k].name[offset..] != n)
    ensures r >= 0 <==> IsPath(names, Join(s[xi].name, n))
    ensures r >= 0 ==> s[r].name == Join(s[xi].name, n)
  {
    hide Compare, Closed, InverseOk, ElementsOk, StrictlySorted;
    var d, p := s[xi].name, Join(s[xi].name, n);
    assert SpanAt(s, xi, s[xi].skip);
    if r >= 0 {
      assert Under(d, s[r].name);
      assert s[r].name == p;
      assert HasName(s, p) && IsClickId(s[r].name);
    }
    if IsPath(names, p) {
      PathNotEmpty(names, d, n);
      assert HasName(s, p);
      var m :| 0 <= m < |s| && s[m].name == p;
      assert Under(d, s[m].name);
      assert p[if d != "" then |d| + 1 else 0..] == n;
    }
  }

  lemma PathNotEmpty(names: seq<string>, d: string, n: string)
    requires RouterOk(names) && IsPath(names, Join(d, n))
    ensures Join(d, n) != "" && Under(d, Join(d, n))
  {
    var p := Join(d, n);
    var k :| 0 <= k < |names| && (p == names[k] || (p != "" && Under(p, names[k])));
    assert IsClickId(names[k]);
    if d != "" { assert p[..|d|] == d; }
  }

  /** A missing directory on the way means a missing path. */
  lemma WalkStops(names: seq<string>, components: seq<string>, k: nat)
    requires 0 < k <= |components| && forall i :: 0 <= i < |components| ==> components[i] != ""
    requires !IsPath(names, JoinAll(components[..k]))
    ensures !IsPath(names, JoinAll(components))
  {
    if k == |components| {
      assert components[..k] == components;
    } else if IsPath(names, JoinAll(components)) {
      JoinAllPrefix(components, k);
      var front := components[..k];
      JoinIsUnder(JoinAll(front[..k - 1]), front[k - 1]);
      AncestorIsPath(names, JoinAll(front), JoinAll(components));
    }
  }

  /** Where a component leads from directory d. */
  ghost function Target(names: seq<string>, d: string, component: string): Option<string> {
    if component == "." then Some(d)
    else if component == ".." then Some(Parent(d))
    else if component != "" && IsPath(names, Join(d, component)) then Some(Join(d, component))
    else None
  }

  /** Where components lead from the root. */
  ghost function Resolve(names: seq<string>, components: seq<string>): Option<string> {
    if components == [] then Some("")
    else
      var n := |components| - 1;
      var d := Resolve(names, components[..n]);
      if d == None then None else Target(names, d.value, components[n])
  }

  lemma {:induction false} ResolveStops(names: seq<string>, components: seq<string>, k: nat)
    requires k <= |components| && Resolve(names, components[..k]) == None
    ensures Resolve(names, components) == None
    decreases |components|
  {
    if k == |components| {
      assert components[..k] == components;
    } else {
      var front := components[..|components| - 1];
      assert front[..k] == components[..k];
      ResolveStops(names, front, k);
    }
  }

  /** Plain components lead to the joined path, if there is one. */
  lemma {:induction false} ResolvePlain(names: seq<string>, components: seq<string>)
    requires forall k :: 0 <= k < |components| ==> PlainName(components[k])
    ensures Resolve(names, components)
         == if components == [] || IsPath(names, JoinAll(components)) then Some(JoinAll(components)) else None
  {
    if components != [] {
      var n := |components| - 1;
      var front := components[..n];
      ResolvePlain(names, front);
      assert PlainName(components[n]) && NameChar(components[n][0]) && components[n][0] != '.';
      if front != [] && !IsPath(names, JoinAll(front)) { WalkStops(names, components, n); }
    }
  }

  lemma NoComponents(s: string)
    ensures Components(s) != []
  {
  }

  /** Names have no dots. */
  lemma DotsAreNoPath(names: seq<string>, d: string, component: string)
    requires RouterOk(names) && component != ""
    ensures component[0] == '.' ==> !IsPath(names, Join(d, component))
  {
    var p := Join(d, component);
    var i := |p| - |component|;
    assert p[i] == component[0];
    forall k | 0 <= k < |names| && (p == names[k] || (p != "" && Under(p, names[k]))) ensures component[0] != '.' {
      assert IsClickId(names[k]) && CharOk(names[k], i);
    }
  }

  /** The fake directories are those numbered behind the elements. */
  lemma FakeIsBeyond(s: seq<Entry>, names: seq<string>, k: nat)
    requires IndexOk(s, names) && k < |s|
    ensures s[k].xindex < |s| && (s[s[k].xindex].fake <==> k > |names|)
  {
    assert s[s[k].xindex].elementnoPlus1 == k;
  }

  /** The parent of a path is found by the search over all entries. */
  lemma ParentPresent(s: seq<Entry>, names: seq<string>, xi: nat, found: int)
    requires IndexOk(s, names) && xi < |s| && FindRight(s[xi].name) >= 0
    requires found == -1 || 1 <= found < |s|
    requires var p := s[xi].name[..FindRight(s[xi].name)];
             && (found >= 0 ==> s[found].name[0..] == p)
             && (found < 0 ==> forall k :: 1 <= k < |s| ==> s[k].name[0..] != p)
    ensures found >= 0 && s[found].name == Parent(s[xi].name)
  {
    hide Compare, StrictlySorted, InverseOk, ElementsOk;
    var p := Parent(s[xi].name);
    assert IsClickId(s[xi].name) && CharOk(s[xi].name, FindRight(s[xi].name));
    ParentIsLastAncestor(s[xi].name, p);
    assert HasName(s, p);
    var m :| 0 <= m < |s| && s[m].name == p;
    assert s[m].name[0..] == p;
    if found >= 0 { assert s[found].name[0..] == s[found].name; }
  }

  // ----- Hopping over subtrees ----------------------------------------------

  /** Immediate subdirectories of a directory, as entry numbers. */
  ghost function Subdirectories(s: seq<Entry>, d: string): set<int> {
    set k | 0 < k < |s| && Parent(s[k].name) == d
  }

  ghost function SubdirsBelow(s: seq<Entry>, dir: nat, xi: nat): set<int>
    requires dir < xi <= |s|
  {
    set k | dir < k < xi && Parent(s[k].name) == s[dir].name
  }

  /** No subtree that starts between the directory and `xi` reaches past `xi`. */
  ghost predicate Hopped(s: seq<Entry>, dir: nat, xi: nat) {
    dir < xi <= |s| && forall m :: dir < m < xi ==> m + s[m].skip < xi
  }

  lemma HopStart(s: seq<Entry>, dir: nat)
    requires dir < |s|
    ensures Hopped(s, dir, dir + 1) && SubdirsBelow(s, dir, dir + 1) == {}
  {
  }

  /** Where a hop lands is an immediate subdirectory ... */
  lemma LandsOnChild(s: seq<Entry>, names: seq<string>, dir: nat, xi: nat)
    requires IndexOk(s, names) && Hopped(s, dir, xi) && dir < xi <= dir + s[dir].skip < |s|
    ensures Parent(s[xi].name) == s[dir].name
  {
    hide Compare, StrictlySorted, InverseOk, ElementsOk;
    var d, p := s[dir].name, Parent(s[xi].name);
    assert IsClickId(s[xi].name);
    assert SpanAt(s, dir, s[dir].skip);
    assert Under(d, s[xi].name);
    ParentIsLastAncestor(s[xi].name, p);
    ParentIsLastAncestor(s[xi].name, d);
    assert HasName(s, p);
    var m :| 0 <= m < |s| && s[m].name == p;
    assert SpanAt(s, m, s[m].skip);
    assert m < xi <= m + s[m].skip;
    assert m <= dir;
  }

  /** ... and nothing inside its subtree is. */
  lemma SubtreeHasNoChild(s: seq<Entry>, names: seq<string>, dir: nat, xi: nat, k: nat)
    requires IndexOk(s, names) && dir < xi < k < |s| && k <= xi + s[xi].skip < |s|
    requires Parent(s[xi].name) == s[dir].name
    ensures Parent(s[k].name) != s[dir].name
    ensures k + s[k].skip <= xi + s[xi].skip
  {
    hide Compare, StrictlySorted, InverseOk, ElementsOk;
    assert SpanAt(s, xi, s[xi].skip) && SpanAt(s, k, s[k].skip);
    assert Under(s[xi].name, s[k].name) && IsClickId(s[k].name) && IsClickId(s[xi].name);
    ParentIsLastAncestor(s[k].name, s[xi].name);
    ParentIsLastAncestor(s[xi].name, Parent(s[xi].name));
    var last := k + s[k].skip;
    if last > k { UnderTrans(s[xi].name, s[k].name, s[last].name); }
  }

  lemma HopOne(s: seq<Entry>, names: seq<string>, dir: nat, xi: nat)
    requires IndexOk(s, names) && Hopped(s, dir, xi) && dir < xi <= dir + s[dir].skip < |s|
    ensures xi + s[xi].skip <= dir + s[dir].skip
    ensures Hopped(s, dir, xi + s[xi].skip + 1)
    ensures |SubdirsBelow(s, dir, xi + s[xi].skip + 1)| == |SubdirsBelow(s, dir, xi)| + 1
  {
    hide IndexOk, Parent, Hopped, SubdirsBelow;
    LandsOnChild(s, names, dir, xi);
    SubtreeInside(s, names, dir, xi);
    var end := xi + s[xi].skip + 1;
    forall k | xi < k < end
      ensures Parent(s[k].name) != s[dir].name && k + s[k].skip < end
    {
      SubtreeHasNoChild(s, names, dir, xi, k);
    }
    OneMoreChild(s, dir, xi, end);
    HoppedFurther(s, dir, xi, end);
  }

  lemma HoppedFurther(s: seq<Entry>, dir: nat, xi: nat, end: nat)
    requires Hopped(s, dir, xi) && xi < end <= |s| && xi + s[xi].skip < end
    requires forall k :: xi < k < end ==> k + s[k].skip < end
    ensures Hopped(s, dir, end)
  {
  }

  lemma OneMoreChild(s: seq<Entry>, dir: nat, xi: nat, end: nat)
    requires dir < xi < end <= |s| && Parent(s[xi].name) == s[dir].name
    requires forall k :: xi < k < end ==> Parent(s[k].name) != s[dir].name
    ensures |SubdirsBelow(s, dir, end)| == |SubdirsBelow(s, dir, xi)| + 1
  {
    hide Parent;
    assert SubdirsBelow(s, dir, end) == SubdirsBelow(s, dir, xi) + {xi};
  }

  lemma SubtreeInside(s: seq<Entry>, names: seq<string>, dir: nat, xi: nat)
    requires IndexOk(s, names) && dir < xi < |s| && xi <= dir + s[dir].skip < |s|
    ensures xi + s[xi].skip <= dir + s[dir].skip
  {
    hide Compare, StrictlySorted, InverseOk, ElementsOk;
    assert SpanAt(s, dir, s[dir].skip) && SpanAt(s, xi, s[xi].skip);
    var last := xi + s[xi].skip;
    if last > xi { UnderTrans(s[dir].name, s[xi].name, s[last].name); }
  }

  lemma HopsDone(s: seq<Entry>, names: seq<string>, dir: nat)
    requires IndexOk(s, names) && dir < |s| && dir + s[dir].skip < |s|
    ensures SubdirsBelow(s, dir, dir + s[dir].skip + 1) == Subdirectories(s, s[dir].name)
  {
    hide Compare, StrictlySorted, InverseOk, ElementsOk;
    var end := dir + s[dir].skip + 1;
    assert SpanAt(s, dir, s[dir].skip);
    forall k | 0 < k < |s| && Parent(s[k].name) == s[dir].name ensures dir < k < end {
      assert IsClickId(s[k].name);
      ParentIsLastAncestor(s[k].name, s[dir].name);
    }
  }

  // ----- The phases of true_prepare -----------------------------------------

  ghost predicate Filled(x: seq<Entry>, names: seq<string>, i: nat) {
    && |names| < |x|
    && forall a :: 1 <= a < i && a <= |names| ==>
         x[a].name == names[a - 1] && x[a].elementnoPlus1 == a && x[a].skip == 0 && !x[a].fake
  }

  lemma FillOne(x: seq<Entry>, names: seq<string>, i: nat)
    requires 1 <= i <= |names| < |x| && i < 0x1_0000 && Filled(x, names, i)
    ensures Filled(x[i := Entry(names[i - 1], i, x[i].xindex, 0, false)], names, i + 1)
  {
  }

  lemma NamesFit(names: seq<string>)
    requires RouterOk(names)
    ensures |names| < 0x1_0000 && Filled(seq(|names| + 1, _ => BLANK), names, 1)
    ensures forall x: seq<Entry> :: |names| < |x| ==> Filled(x, names, 1)
  {
    if |names| >= 0x1_0000 {
      var s := seq(0x1_0001, k => if 0 < k <= 0x1_0000 then BLANK.(name := names[k - 1]) else BLANK);
      assert AllPathNames(s, names);
      FewEntries(s, names);
    }
  }

  /** The entries are the right names in the right order, skips still zero. */
  ghost predicate Listed(s: seq<Entry>, names: seq<string>) {
    |s| > 0 && NamesOk(s, names) && NumbersOk(s, names) && NoSkips(s) && s[0] == BLANK
  }

  lemma EmptyIndexOk(s: seq<Entry>, names: seq<string>)
    requires s == [BLANK] && names == []
    ensures IndexOk(s, names)
  {
    forall d | d != "" ensures !HasName(s, d) && !IsPath(names, d) {}
  }

  lemma NoSkipsRearranged(s: seq<Entry>, t: seq<Entry>)
    requires |s| > 0 && NoSkips(s) && Rearranged(s, t, 1, |s|)
    ensures NoSkips(t)
  {
    forall k | 1 <= k < |t| ensures t[k].skip == 0 {
      var j := RearrangedSource(s, t, 1, |s|, k);
    }
  }

  lemma AfterFirstSort(u: seq<Entry>, t: seq<Entry>, names: seq<string>)
    requires RouterOk(names) && |u| == |names| + 1 <= 0x1_0000
    requires u[0] == BLANK && Filled(u, names, |u|)
    requires Rearranged(u, t, 1, |u|) && Sorted(t, 1, |u|, EntryCompare)
    ensures Dirs(t, names, 1) && NoSkips(t) && t[0] == BLANK
  {
    FirstSort(u, t, names);
    NoSkipsRearranged(u, t);
  }

  lemma AfterSecondSort(s: seq<Entry>, t: seq<Entry>, names: seq<string>)
    requires Dirs(s, names, |names| + 1) && NoSkips(s) && s[0] == BLANK
    requires Rearranged(s, t, 1, |s|) && Sorted(t, 1, |s|, EntryCompare)
    ensures Listed(t, names)
  {
    SecondSort(s, t, names);
    NoSkipsRearranged(s, t);
  }

  lemma NoSecondSort(s: seq<Entry>, names: seq<string>)
    requires Dirs(s, names, |names| + 1) && NoSkips(s) && s[0] == BLANK && |s| == |names| + 1
    ensures Listed(s, names)
  {
    assert s[..|s|] == s;
    AncestorsEverywhere(s, names);
    SortedNamesOk(s, names);
  }

  lemma SkipsCarry(s: seq<Entry>, t: seq<Entry>, names: seq<string>)
    requires Listed(s, names) && |t| == |s|
    requires forall k :: 0 <= k < |s| ==> SameButSkip(s[k], t[k])
    ensures NamesOk(t, names) && NumbersOk(t, names) && t[0].xindex == 0
  {
    NumbersCarryOver(s, t, names);
    NamesCarryOver(s, t, names);
  }

  lemma IndexDone(s: seq<Entry>, t: seq<Entry>, names: seq<string>)
    requires NamesOk(s, names) && NumbersOk(s, names) && SkipOk(s) && |t| == |s|
    requires forall k :: 0 <= k < |s| ==> SameButXindex(s[k], t[k])
    requires InverseOk(t)
    ensures IndexOk(t, names)
  {
    NumbersCarryOver(s, t, names);
    NamesCarryOver(s, t, names);
    SpansCarryOver(s, t);
    forall i | 0 < i < |t| ensures NumberOk(t[i], |t|, names) {}
  }

  ghost predicate NumbersAre(x: seq<Entry>, num: seq<int>) {
    && |num| <= |x|
    && (forall k :: 0 <= k < |num| ==> 0 <= num[k] < |num| && x[k].elementnoPlus1 == num[k])
    && (forall k, l :: 0 <= k < l < |num| ==> num[k] != num[l])
  }

  ghost predicate XindexSet(x: seq<Entry>, num: seq<int>, i: nat) {
    forall k :: 0 <= k < i && k < |num| ==> 0 <= num[k] < |x| && x[num[k]].xindex == k
  }

  lemma SetOne(x: seq<Entry>, num: seq<int>, i: nat)
    requires NumbersAre(x, num) && XindexSet(x, num, i) && i < |num| && i < 0x1_0000
    ensures x[i].elementnoPlus1 < |x|
    ensures var y := x[x[i].elementnoPlus1 := x[x[i].elementnoPlus1].(xindex := i)];
            NumbersAre(y, num) && XindexSet(y, num, i + 1)
  {
    var e := num[i];
    var y := x[e := x[e].(xindex := i)];
    forall k | 0 <= k < |num| ensures y[k].elementnoPlus1 == num[k] {
      assert x[k].elementnoPlus1 == num[k];
    }
    forall k | 0 <= k < i ensures y[num[k]].xindex == k {
      assert num[k] != num[i] && x[num[k]].xindex == k;
    }
  }

  lemma NoSkipsPushed(s: seq<Entry>, e: Entry)
    requires NoSkips(s) && e.skip == 0
    ensures NoSkips(s + [e])
  {
  }

  lemma DirsFit(s: seq<Entry>, names: seq<string>, i: nat)
    requires RouterOk(names) && Dirs(s, names, i)
    ensures |s| <= 0x1_0000
  {
    FewEntries(s, names);
  }

  predicate SameButSkip(e: Entry, f: Entry) {
    f == e.(skip := f.skip)
  }

  predicate SameButXindex(e: Entry, f: Entry) {
    f == e.(xindex := f.xindex)
  }

  lemma XindexDone(s: seq<Entry>, t: seq<Entry>, names: seq<string>, num: seq<int>)
    requires NumbersOk(s, names) && |num| == |t| == |s|
    requires forall k :: 0 <= k < |s| ==> SameButXindex(s[k], t[k])
    requires NumbersAre(s, num) && XindexSet(t, num, |num|)
    ensures InverseOk(t)
  {
    NumbersCarryOver(s, t, names);
    assert forall k :: 0 <= k < |s| ==> t[k].elementnoPlus1 == num[k];
    CrossReferenced(t, names);
  }

  lemma NumbersList(s: seq<Entry>, names: seq<string>, num: seq<int>)
    requires NumbersOk(s, names) && |num| == |s|
    requires forall k :: 0 <= k < |s| ==> num[k] == Number(s[k])
    ensures num[0] == 0 && NumbersAre(s, num)
  {
    forall k | 0 < k < |num| ensures 0 < num[k] < |num| { assert NumberOk(s[k], |s|, names); }
    forall k, l | 0 <= k < l < |num| ensures num[k] != num[l] {
      if k > 0 { assert Number(s[k]) != Number(s[l]); }
    }
  }

  lemma LastHasNoChildren(s: seq<Entry>, names: seq<string>)
    requires NamesOk(s, names) && |s| > 1
    ensures SpanAt(s, |s| - 1, 0)
  {
    SpanEnds(s, |s| - 1, |s|);
  }

  lemma SkipAssertion(s: seq<Entry>, names: seq<string>, i: nat, j: nat)
    requires NamesOk(s, names) && 0 < i < j < |s|
    requires forall k :: i < k < j ==> Under(s[i].name, s[k].name)
    requires |s[j].name| > |s[i].name| && s[j].name[|s[i].name|] == '/'
    ensures s[j].name[..|s[i].name|] == s[i].name
    ensures Under(s[i].name, s[j].name)
  {
    SlashMeansUnder(s, i, j);
    assert IsClickId(s[i].name);
  }

  lemma SkipDone(s: seq<Entry>, names: seq<string>, i: nat, j: nat)
    requires NamesOk(s, names) && 0 < i < j <= |s|
    requires forall k :: i < k < j ==> Under(s[i].name, s[k].name)
    requires j == |s| || |s[j].name| <= |s[i].name| || s[j].name[|s[i].name|] != '/'
    ensures SpanAt(s, i, j - i - 1)
  {
    assert IsClickId(s[i].name);
    SpanEnds(s, i, j);
  }

  lemma NumbersCarryOver(s: seq<Entry>, t: seq<Entry>, names: seq<string>)
    requires NumbersOk(s, names) && |t| == |s|
    requires forall k :: 0 <= k < |s| ==> t[k] == s[k].(xindex := t[k].xindex, skip := t[k].skip)
    ensures NumbersOk(t, names) && SameNames(s, t)
  {
    forall i | 0 < i < |t| ensures NumberOk(t[i], |t|, names) { assert NumberOk(s[i], |s|, names); }
    forall i, j | 1 <= i < j < |t| ensures Number(t[i]) != Number(t[j]) {
      assert Number(s[i]) != Number(s[j]);
    }
  }

  /** A list that can still take a new path is not full. */
  lemma NewFits(s0: seq<Entry>, s: seq<Entry>, names: seq<string>, i: nat, slash: nat)
    requires RouterOk(names) && Climbing(s0, s, names, i, slash)
    requires !(s[i].name[..slash] <= s[i - 1].name)
    ensures |s| < 0x1_0000
  {
    hide Compare, IsClickId, Under, StrictlySorted;
    hide ListOk, RouterOk, IsPath, IsClickId, Under;
    var d := s[i].name[..slash];
    NewDirectoryOk(s0, s, names, i, slash, d);
    OneMorePath(s, names, d);
  }

  lemma OneMorePath(s: seq<Entry>, names: seq<string>, d: string)
    requires RouterOk(names) && ListOk(s, names) && IsPath(names, d) && !HasName(s, d)
    ensures |s| < 0x1_0000
  {
    hide IsPath, RouterOk, IsClickId;
    var t := s + [BLANK.(name := d)];
    forall i, j | 1 <= i < j < |t| ensures NameOf(t[i]) != NameOf(t[j]) {
      assert t[i] == s[i];
      assert j < |s| ==> t[j] == s[j] && NameOf(s[i]) != NameOf(s[j]);
    }
    forall i | 0 < i < |t| ensures IsPath(names, t[i].name) {
      assert i < |s| ==> t[i] == s[i];
    }
    FewEntries(t, names);
  }
}
